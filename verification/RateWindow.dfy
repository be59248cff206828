/** The limit on the messages of one session, counted in windows of a second. Time is in nanoseconds. */
module RateWindow {
  import opened Clock

  const LIMIT := 30

  /** When the current window began, and how many messages have arrived in it. */
  datatype Window = Window(start: int, count: nat)

  function NewWindow(born: int): Window {
    Window(born, 0)
  }

  function Arrival(w: Window, time: int): Window {
    if time - w.start >= SECOND then Window(time, 1) else w.(count := w.count + 1)
  }

  predicate Passes(w: Window, time: int) {
    Arrival(w, time).count <= LIMIT
  }

  ghost predicate InOrder(times: seq<int>) {
    forall i, j :: 0 <= i < j < |times| ==> times[i] <= times[j]
  }

  function WindowAfter(w: Window, times: seq<int>): Window
    decreases |times|
  {
    if times == [] then w else WindowAfter(Arrival(w, times[0]), times[1..])
  }

  /** How many of the messages pass. */
  function Passed(w: Window, times: seq<int>): nat
    decreases |times|
  {
    if times == [] then 0
    else (if Passes(w, times[0]) then 1 else 0) + Passed(Arrival(w, times[0]), times[1..])
  }

  function Room(w: Window): nat {
    if w.count <= LIMIT then LIMIT - w.count else 0
  }

  /** Within one window exactly the first messages pass, until the limit is reached. */
  lemma {:induction false} PassedInWindow(w: Window, times: seq<int>)
    requires forall i :: 0 <= i < |times| ==> times[i] - w.start < SECOND
    ensures Passed(w, times) == if |times| <= Room(w) then |times| else Room(w)
    ensures WindowAfter(w, times) == w.(count := w.count + |times|)
    decreases |times|
  {
    if times != [] {
      PassedInWindow(Arrival(w, times[0]), times[1..]);
    }
  }

  /** A span of less than a second sees at most one new window. */
  lemma {:induction false} PassedInSpan(w: Window, times: seq<int>)
    requires InOrder(times) && (times != [] ==> times[|times| - 1] - times[0] < SECOND)
    ensures Passed(w, times) <= Room(w) + LIMIT
    decreases |times|
  {
    if times != [] {
      var w1 := Arrival(w, times[0]);
      if w1.start == times[0] && w1.count == 1 {
        PassedInWindow(w1, times[1..]);
      } else {
        PassedInSpan(w1, times[1..]);
      }
    }
  }

  lemma {:induction false} SplitRun(w: Window, a: seq<int>, b: seq<int>)
    ensures WindowAfter(w, a + b) == WindowAfter(WindowAfter(w, a), b)
    ensures Passed(w, a + b) == Passed(w, a) + Passed(WindowAfter(w, a), b)
    decreases |a|
  {
    if a == [] {
      assert a + b == b;
    } else {
      assert (a + b)[1..] == a[1..] + b;
      SplitRun(Arrival(w, a[0]), a[1..], b);
    }
  }

  /**
    Whatever arrived before: of the messages that arrive in a span of less than a
    second, at most 60 pass.
   */
  lemma {:induction false} SpanIsLimited(born: int, times: seq<int>, from: nat, to: nat)
    requires InOrder(times) && from < to <= |times| && times[to - 1] - times[from] < SECOND
    ensures Passed(NewWindow(born), times[..to]) - Passed(NewWindow(born), times[..from]) <= 60
  {
    assert times[..to] == times[..from] + times[from..to];
    SplitRun(NewWindow(born), times[..from], times[from..to]);
    PassedInSpan(WindowAfter(NewWindow(born), times[..from]), times[from..to]);
  }

  ghost function Burst(time: int): (times: seq<int>)
    ensures |times| == LIMIT && forall i :: 0 <= i < |times| ==> times[i] == time
  {
    seq(LIMIT, _ => time)
  }

  lemma {:induction false} BurstPasses(w: Window, time: int)
    requires w.start <= time
    requires w.count == 0 || time - w.start >= SECOND
    ensures Passed(w, Burst(time)) == LIMIT
    ensures WindowAfter(w, Burst(time)) == Window(if time - w.start >= SECOND then time else w.start, LIMIT)
  {
    var times := Burst(time);
    if time - w.start >= SECOND {
      PassedInWindow(Window(time, 1), times[1..]);
    } else {
      PassedInWindow(w, times);
    }
  }

  /** Sixty messages do pass within half a second, when they fall around the start of a window. */
  lemma {:induction false} SixtyPass(born: int)
    ensures var times := Burst(born + SECOND / 2) + Burst(born + SECOND);
      && InOrder(times) && times[|times| - 1] - times[0] < SECOND
      && Passed(NewWindow(born), times) == 60
  {
    var a, b := Burst(born + SECOND / 2), Burst(born + SECOND);
    SplitRun(NewWindow(born), a, b);
    BurstPasses(NewWindow(born), born + SECOND / 2);
    BurstPasses(Window(born, LIMIT), born + SECOND);
  }

  /**
    A client that never sends 31 messages within less than a second is never
    refused. The messages of the current window are the last `count` ones of
    `before`.
   */
  lemma {:induction false} PoliteFrom(w: Window, before: seq<int>, times: seq<int>)
    requires var all := before + times;
      InOrder(all) && forall i :: 0 <= i < |all| - LIMIT ==> all[i + LIMIT] - all[i] >= SECOND
    requires w.count <= |before| && w.count <= LIMIT
    requires forall i :: |before| - w.count <= i < |before| + |times| ==> w.start <= (before + times)[i]
    ensures Passed(w, times) == |times|
    decreases |times|
  {
    if times != [] {
      var all, k := before + times, |before|;
      var w1 := Arrival(w, times[0]);
      assert all[k] == times[0];
      if w.count == LIMIT {
        assert all[k] - all[k - LIMIT] >= SECOND;
      }
      assert (before + [times[0]]) + times[1..] == all;
      PoliteFrom(w1, before + [times[0]], times[1..]);
    }
  }

  lemma {:induction false} PoliteIsNeverRefused(born: int, times: seq<int>)
    requires InOrder(times) && forall i :: 0 <= i < |times| ==> times[i] >= born
    requires forall i :: 0 <= i < |times| - LIMIT ==> times[i + LIMIT] - times[i] >= SECOND
    ensures Passed(NewWindow(born), times) == |times|
  {
    assert [] + times == times;
    PoliteFrom(NewWindow(born), [], times);
  }
}
