/** What the gateway posts to the backend over whole runs: the bills of the room manager, entry by entry. */
module Postings {
  import opened Deck
  import opened Lobbies
  import opened Settlements
  import opened ManagerReplies
  import opened LobbyRuns
  import opened ManagerBills
  import opened Presence

  ghost function EventsOf(trace: seq<Record>): seq<Event> {
    seq(|trace|, i requires 0 <= i < |trace| => trace[i].e)
  }

  /** The trace of the manager calls of one handler, with what they returned as settlements. */
  ghost predicate TraceOf(g: Gateway, step: Step, trace: seq<Record>)
    requires Inv(g.lobby)
  {
    IsRun(g.lobby, trace) && EventsOf(trace) == Calls(g, step)
  }

  ghost function Posted(trace: seq<Record>): seq<Entry> {
    EntriesOf(AllBills(trace))
  }

  lemma {:induction false} EndIsAfterCalls(s: Lobby, trace: seq<Record>)
    requires Inv(s)
    ensures EndOf(s, trace) == AfterCalls(s, EventsOf(trace))
    decreases |trace|
  {
    if trace != [] {
      NextInv(s, trace[0].e);
      EndIsAfterCalls(NextLobby(s, trace[0].e), trace[1..]);
      hide Inv, NextLobby;
      assert EventsOf(trace)[0] == trace[0].e;
      assert EventsOf(trace)[1..] == EventsOf(trace[1..]);
    }
  }

  lemma {:induction false} RunsJoin(s: Lobby, a: seq<Record>, b: seq<Record>)
    requires Inv(s) && IsRun(s, a)
    requires Inv(EndOf(s, a)) && IsRun(EndOf(s, a), b)
    ensures IsRun(s, a + b)
    decreases |a|
  {
    hide Inv, NextLobby, Pays;
    if a == [] {
      assert a + b == b;
    } else {
      NextInv(s, a[0].e);
      RunsJoin(NextLobby(s, a[0].e), a[1..], b);
      assert (a + b)[1..] == a[1..] + b;
    }
  }

  lemma {:induction false} AllBillsJoin(a: seq<Record>, b: seq<Record>)
    ensures AllBills(a + b) == AllBills(a) + AllBills(b)
    decreases |a|
  {
    if a == [] {
      assert a + b == b;
    } else {
      AllBillsJoin(a[1..], b);
      assert (a + b)[1..] == a[1..] + b;
    }
  }

  lemma {:induction false} EntriesJoin(a: seq<Bill>, b: seq<Bill>)
    ensures EntriesOf(a + b) == EntriesOf(a) + EntriesOf(b)
    decreases |a|
  {
    if a == [] {
      assert a + b == b;
    } else {
      EntriesJoin(a[1..], b);
      assert (a + b)[1..] == a[1..] + b;
    }
  }

  // ---------- Runs of the gateway ----------

  datatype Turn = Turn(step: Step, trace: seq<Record>)

  ghost predicate IsGatewayRun(g: Gateway, turns: seq<Turn>)
    requires GatewayInv(g)
    decreases |turns|
  {
    turns == [] ||
    (StepKeepsPresence(g, turns[0].step);
     TraceOf(g, turns[0].step, turns[0].trace) && IsGatewayRun(NextGateway(g, turns[0].step), turns[1..]))
  }

  ghost function AllPosted(turns: seq<Turn>): seq<Entry> {
    if turns == [] then [] else Posted(turns[0].trace) + AllPosted(turns[1..])
  }

  /** The handlers of a gateway run, one after the other, make one run of the room manager. */
  lemma {:induction false} TurnsMakeARun(g: Gateway, turns: seq<Turn>) returns (trace: seq<Record>)
    requires GatewayInv(g) && IsGatewayRun(g, turns)
    ensures IsRun(g.lobby, trace) && Posted(trace) == AllPosted(turns)
    decreases |turns|
  {
    if turns == [] {
      trace := [];
    } else {
      var first := turns[0];
      StepKeepsPresence(g, first.step);
      var rest := TurnsMakeARun(NextGateway(g, first.step), turns[1..]);
      EndIsAfterCalls(g.lobby, first.trace);
      hide Inv, IsRun, Calls, Posted;
      RunsJoin(g.lobby, first.trace, rest);
      PostedJoins(first.trace, rest);
      trace := first.trace + rest;
    }
  }

  /** What each handler posts pays the side that has won its room. */
  ghost predicate FairTurns(g: Gateway, turns: seq<Turn>)
    requires GatewayInv(g)
    decreases |turns|
  {
    turns == [] ||
    (StepKeepsPresence(g, turns[0].step);
     FairRun(g.lobby, turns[0].trace) && FairTurns(NextGateway(g, turns[0].step), turns[1..]))
  }

  lemma {:induction false} TurnsAreFair(g: Gateway, turns: seq<Turn>)
    requires GatewayInv(g) && IsGatewayRun(g, turns)
    ensures FairTurns(g, turns)
    decreases |turns|
  {
    hide Inv, IsRun, FairRun, NextGateway, Calls;
    if turns != [] {
      StepKeepsPresence(g, turns[0].step);
      RunIsFair(g.lobby, turns[0].trace);
      TurnsAreFair(NextGateway(g, turns[0].step), turns[1..]);
    }
  }

  /**
    Over a whole run of the gateway, whatever its sessions do: no game is posted
    twice for a player, the posted changes sum to zero, and each of them is a gain
    exactly for the side that has won the room.
   */
  lemma {:induction false} PostedOnce(turns: seq<Turn>)
    requires IsGatewayRun(NEW_GATEWAY, turns)
    ensures FairTurns(NEW_GATEWAY, turns)
    ensures SettledOnce(AllPosted(turns)) && Total(AllPosted(turns)) == 0 && AllSmall(AllPosted(turns))
  {
    TurnsAreFair(NEW_GATEWAY, turns);
    var trace := TurnsMakeARun(NEW_GATEWAY, turns);
    ExactlyOnce(trace);
  }

  // ---------- What the handlers post ----------

  /** The settlements of the actions of a sweep, in their order. */
  function Listed(actions: seq<TimeoutAction>): seq<Entry> {
    if actions == [] then []
    else Listed(actions[..|actions| - 1]) + actions[|actions| - 1].settlements
  }

  lemma {:induction false} ListedAreBilled(ids: seq<nat>, actions: seq<TimeoutAction>)
    requires |ids| == |actions|
    ensures EntriesOf(TickBills(ids, actions)) == Listed(actions)
    decreases |ids|
  {
    if ids != [] {
      var n := |ids| - 1;
      ListedAreBilled(ids[..n], actions[..n]);
      var last := if actions[n].settlements == [] then [] else [Bill(ids[n], actions[n].settlements)];
      EntriesJoin(TickBills(ids[..n], actions[..n]), last);
      assert EntriesOf(last) == actions[n].settlements;
    }
  }

  function Joined(bills: seq<seq<Entry>>): seq<Entry> {
    if bills == [] then [] else Joined(bills[..|bills| - 1]) + bills[|bills| - 1]
  }

  lemma {:induction false} JoinedAreBilled(ids: seq<nat>, bills: seq<seq<Entry>>)
    requires |ids| == |bills|
    ensures EntriesOf(DesertionBills(ids, bills)) == Joined(bills)
    decreases |ids|
  {
    if ids != [] {
      var n := |ids| - 1;
      JoinedAreBilled(ids[..n], bills[..n]);
      var last := [Bill(ids[n], bills[n])];
      EntriesJoin(DesertionBills(ids[..n], bills[..n]), last);
      assert DesertionBills(ids, bills) == DesertionBills(ids[..n], bills[..n]) + last;
      assert EntriesOf(last) == bills[n];
    }
  }

  lemma {:induction false} OneRecord(s: Lobby, r: Record)
    requires Inv(s) && Pays(s, r.e, r.out)
    ensures IsRun(s, [r]) && Posted([r]) == EntriesOf(r.out) && EventsOf([r]) == [r.e]
    ensures Inv(EndOf(s, [r])) && EndOf(s, [r]) == NextLobby(s, r.e)
  {
    hide Inv, NextLobby, Pays;
    NextInv(s, r.e);
    assert [r][1..] == [];
    assert AllBills([]) == [] && r.out + [] == r.out;
    assert AllBills([r]) == r.out;
  }

  lemma {:induction false} ThreeRecords(s: Lobby, a: Record, b: Record, c: Record)
    requires Inv(s) && Pays(s, a.e, a.out)
    requires var s1 := NextLobby(s, a.e); Inv(s1) && Pays(s1, b.e, b.out)
    requires var s2 := NextLobby(NextLobby(s, a.e), b.e); Inv(s2) && Pays(s2, c.e, c.out)
    ensures IsRun(s, [a, b, c])
    ensures Posted([a, b, c]) == EntriesOf(a.out) + EntriesOf(b.out) + EntriesOf(c.out)
  {
    hide Inv, NextLobby, Pays, IsRun, EndOf, Posted, EntriesOf;
    var s1 := NextLobby(s, a.e);
    var s2 := NextLobby(s1, b.e);
    OneRecord(s, a);
    OneRecord(s1, b);
    OneRecord(s2, c);
    RunsJoin(s1, [b], [c]);
    PostedJoins([b], [c]);
    assert [b] + [c] == [b, c];
    RunsJoin(s, [a], [b, c]);
    PostedJoins([a], [b, c]);
    assert [a] + [b, c] == [a, b, c];
  }

  lemma {:induction false} ThreeEvents(g: Gateway, now: int, random: nat -> Draws, trace: seq<Record>)
    requires Inv(g.lobby) && |trace| == 3
    requires trace[0].e == Tick(now, random) && trace[1].e == Idle(now) && trace[2].e == Expiry(now)
    ensures EventsOf(trace) == Calls(g, Sweep(now, random))
  {
    hide Inv;
  }

  /** A sweep posts the settlements of its timeouts, then those of the deserted rooms. */
  lemma {:induction false} SweepTrace(
    g: Gateway, s1: Lobby, s2: Lobby, now: int, random: nat -> Draws, ticked: seq<Bill>, deserted: seq<Bill>)
    returns (trace: seq<Record>)
    requires Inv(g.lobby) && Pays(g.lobby, Tick(now, random), ticked)
    requires Inv(s1) && s1 == NextLobby(g.lobby, Tick(now, random))
    requires Inv(s2) && s2 == NextLobby(s1, Idle(now)) && Pays(s2, Expiry(now), deserted)
    ensures TraceOf(g, Sweep(now, random), trace)
    ensures Posted(trace) == EntriesOf(ticked) + EntriesOf(deserted)
  {
    hide Inv, NextLobby, Pays, IsRun, Posted, Calls, EventsOf;
    QuietPays(s1, Idle(now));
    var a, b, c := Record(Tick(now, random), ticked), Record(Idle(now), []), Record(Expiry(now), deserted);
    trace := [a, b, c];
    ThreeEvents(g, now, random, trace);
    ThreeRecords(g.lobby, a, b, c);
    assert EntriesOf([]) == [];
  }

  lemma {:induction false} PostedJoins(a: seq<Record>, b: seq<Record>)
    ensures Posted(a + b) == Posted(a) + Posted(b)
  {
    AllBillsJoin(a, b);
    EntriesJoin(AllBills(a), AllBills(b));
  }

  lemma {:induction false} QuietPays(s: Lobby, e: Event)
    requires Inv(s) && !e.Do? && !e.Tick? && !e.Expiry?
    ensures Pays(s, e, [])
  {
    hide Inv;
  }

  /** The settlements in the reply to a request: those of an accepted play that ended its round. */
  ghost function Owed(g: Gateway, step: Step): seq<Entry>
    requires Inv(g.lobby)
  {
    if step.Handle? && step.id in g.sessions && step.request.Act? && !Closes(g, step)
    then
      var reply := PlayReply(g.lobby, g.sessions[step.id].player, step.request.deed);
      if reply.Some? then reply.value.settlements else []
    else []
  }

  lemma {:induction false} OwedOnRequest(g: Gateway, id: nat, request: Request, now: int)
    requires Inv(g.lobby) && id in g.sessions
    ensures Owed(g, Handle(id, request, now)) ==
      if !request.Act? || Refused(g, g.sessions[id], request) then []
      else
        var reply := PlayReply(g.lobby, g.sessions[id].player, request.deed);
        if reply.Some? then reply.value.settlements else []
  {
    hide Inv, PlayReply, Refused;
  }

  lemma {:induction false} QuietTrace(g: Gateway, step: Step) returns (trace: seq<Record>)
    requires Inv(g.lobby) && !step.Sweep? && (step.Handle? && step.request.Act? ==> Closes(g, step))
    ensures TraceOf(g, step, trace) && Posted(trace) == []
  {
    hide Inv, Pays, NextLobby, Closes, LogsIn, Current;
    var calls := Calls(g, step);
    if calls == [] {
      trace := [];
    } else {
      assert calls == [calls[0]];
      var r := Record(calls[0], []);
      QuietPays(g.lobby, r.e);
      OneRecord(g.lobby, r);
      trace := [r];
    }
  }

  lemma {:induction false} ActTrace(g: Gateway, id: nat, deed: Deed, now: int) returns (trace: seq<Record>)
    requires Inv(g.lobby) && id in g.sessions && !Closes(g, Handle(id, Act(deed), now))
    ensures TraceOf(g, Handle(id, Act(deed), now), trace)
    ensures Posted(trace) == Owed(g, Handle(id, Act(deed), now))
  {
    hide Inv, Pays, NextLobby, Closes, LogsIn, Playing, PlayReply, IsRun;
    var p := g.sessions[id].player;
    OwedByBills(g, id, deed, now);
    var r := Record(Do(p, deed, now), PlayBills(g.lobby, p, deed));
    PlayPays(g.lobby, p, deed, now);
    OneRecord(g.lobby, r);
    CallsOfAct(g, id, deed, now);
    hide PlayBills, Calls, Owed, Posted;
    trace := [r];
  }

  lemma {:induction false} CallsOfAct(g: Gateway, id: nat, deed: Deed, now: int)
    requires Inv(g.lobby) && id in g.sessions && !Closes(g, Handle(id, Act(deed), now))
    ensures Calls(g, Handle(id, Act(deed), now)) == [Do(g.sessions[id].player, deed, now)]
  {
    hide Inv, Closes;
  }

  lemma {:induction false} OwedByBills(g: Gateway, id: nat, deed: Deed, now: int)
    requires Inv(g.lobby) && id in g.sessions && !Closes(g, Handle(id, Act(deed), now))
    ensures EntriesOf(PlayBills(g.lobby, g.sessions[id].player, deed)) == Owed(g, Handle(id, Act(deed), now))
  {
    hide Inv, PlayReply, Closes;
    var p := g.sessions[id].player;
    assert EntriesOf([]) == [];
  }

  /** What a handler other than the sweep posts is what a run of the room manager bills. */
  lemma {:induction false} HandlerTrace(g: Gateway, step: Step) returns (trace: seq<Record>)
    requires Inv(g.lobby) && !step.Sweep?
    ensures TraceOf(g, step, trace) && Posted(trace) == Owed(g, step)
  {
    if step.Handle? && step.id in g.sessions && step.request.Act? && !Closes(g, step) {
      trace := ActTrace(g, step.id, step.request.deed, step.now);
    } else if step.Handle? && step.id !in g.sessions {
      trace := [];
    } else {
      trace := QuietTrace(g, step);
    }
  }
}
