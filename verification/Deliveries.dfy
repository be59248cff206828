/**
  From the gateway to the backend: settlements may arrive late, in any order and
  several times. What the backend then holds for a whole run of the gateway.
 */
module Deliveries {
  import opened Lists
  import opened Lobbies
  import opened Settlements
  import opened LobbyRuns
  import opened Presence
  import opened Postings
  import opened Ledgers

  /** What the backend keeps of a request, as an entry. */
  function EntryOf(r: Settlement): Entry {
    Entry(r.gameId, r.player, r.change, r.result)
  }

  function EntriesIn(records: seq<Settlement>): (entries: seq<Entry>)
    ensures |entries| == |records|
    ensures forall i :: 0 <= i < |records| ==> entries[i] == EntryOf(records[i])
  {
    seq(|records|, i requires 0 <= i < |records| => EntryOf(records[i]))
  }

  // ---------- Gains ----------

  function Own(e: Entry, p: PlayerId): int {
    if e.player == p then e.coins else 0
  }

  /** What the entries bring to a player. */
  function Gain(entries: seq<Entry>, p: PlayerId): int {
    if entries == [] then 0 else Own(entries[0], p) + Gain(entries[1..], p)
  }

  lemma {:induction false} GainJoin(a: seq<Entry>, b: seq<Entry>, p: PlayerId)
    ensures Gain(a + b, p) == Gain(a, p) + Gain(b, p)
  {
    if a == [] {
      assert a + b == b;
    } else {
      assert (a + b)[1..] == a[1..] + b;
      GainJoin(a[1..], b, p);
    }
  }

  lemma {:induction false} GainWithout(b: seq<Entry>, i: nat, p: PlayerId)
    requires i < |b|
    ensures multiset(b[..i] + b[i + 1..]) == multiset(b) - multiset{b[i]}
    ensures Gain(b, p) == Gain(b[..i] + b[i + 1..], p) + Own(b[i], p)
  {
    var front, back := b[..i], b[i + 1..];
    assert b == (front + [b[i]]) + back;
    GainJoin(front, back, p);
    GainJoin(front, [b[i]], p);
    GainJoin(front + [b[i]], back, p);
    assert Gain([b[i]], p) == Own(b[i], p) + Gain([], p);
  }

  lemma {:induction false} GainIgnoresOrder(a: seq<Entry>, b: seq<Entry>, p: PlayerId)
    requires multiset(a) == multiset(b)
    ensures Gain(a, p) == Gain(b, p)
    decreases |a|
  {
    hide Gain, Own;
    assert |a| == |multiset(a)| == |b|;
    if a == [] {
      assert b == [];
    } else {
      assert a[0] in multiset(b);
      var i :| 0 <= i < |b| && b[i] == a[0];
      GainWithout(a, 0, p);
      GainWithout(b, i, p);
      GainIgnoresOrder(a[..0] + a[0 + 1..], b[..i] + b[i + 1..], p);
    }
  }

  lemma {:induction false} SumIsGain(records: seq<Settlement>, p: PlayerId)
    ensures Sum(records, p) == Gain(EntriesIn(records), p)
  {
    if records != [] {
      var n := |records| - 1;
      SumIsGain(records[..n], p);
      GainJoin(EntriesIn(records[..n]), [EntryOf(records[n])], p);
      assert EntriesIn(records) == EntriesIn(records[..n]) + [EntryOf(records[n])];
      assert Gain([], p) == 0;
    }
  }

  lemma {:induction false} SameMembers(a: seq<Entry>, b: seq<Entry>)
    requires NoRepeats(a) && NoRepeats(b)
    requires forall e :: e in a <==> e in b
    ensures multiset(a) == multiset(b)
  {
    forall e
      ensures multiset(a)[e] == multiset(b)[e]
    {
      NoRepeatsCount(a, e);
      NoRepeatsCount(b, e);
    }
  }

  // ---------- Deliveries ----------

  /** Every settlement that is delivered was posted; the posted ones may be repeated, reordered and lost. */
  ghost predicate Delivers(calls: seq<Call>, posted: seq<Entry>) {
    forall i :: 0 <= i < |calls| && calls[i].Settle? ==> EntryOf(calls[i].request) in posted
  }

  ghost predicate NoneLost(calls: seq<Call>, posted: seq<Entry>) {
    forall e :: e in posted ==> exists i :: 0 <= i < |calls| && calls[i].Settle? && EntryOf(calls[i].request) == e
  }

  /** Every settlement is answered with a balance. */
  ghost predicate NoneRefused(l: Ledger, calls: seq<Call>)
    decreases |calls|
  {
    calls == [] ||
    ((calls[0].Settle? ==> SettleReply(l, calls[0].request).Coins?) && NoneRefused(AfterCall(l, calls[0]), calls[1..]))
  }

  ghost predicate AllFrom(records: seq<Settlement>, posted: seq<Entry>) {
    forall i :: 0 <= i < |records| ==> EntryOf(records[i]) in posted
  }

  lemma {:induction false} CallKeeps(l: Ledger, c: Call)
    requires LedgerInv(l)
    ensures LedgerInv(AfterCall(l, c)) && l.records <= AfterCall(l, c).records
  {
    RunKeeps(l, [c]);
    assert LedgerAfter(AfterCall(l, c), []) == AfterCall(l, c);
    assert [c][1..] == [];
  }

  /** Nothing is recorded that was not posted. */
  lemma {:induction false} RecordsWerePosted(l: Ledger, calls: seq<Call>, posted: seq<Entry>)
    requires LedgerInv(l) && AllFrom(l.records, posted) && Delivers(calls, posted)
    ensures AllFrom(LedgerAfter(l, calls).records, posted)
    decreases |calls|
  {
    if calls != [] {
      CallKeeps(l, calls[0]);
      hide LedgerInv;
      assert AllFrom(AfterCall(l, calls[0]).records, posted);
      RecordsWerePosted(AfterCall(l, calls[0]), calls[1..], posted);
    }
  }

  lemma {:induction false} Answered(l: Ledger, calls: seq<Call>, i: nat)
    requires LedgerInv(l) && NoneRefused(l, calls) && i < |calls| && calls[i].Settle?
    ensures Recorded(LedgerAfter(l, calls).records, calls[i].request.gameId, calls[i].request.player)
    decreases |calls|
  {
    CallKeeps(l, calls[0]);
    if i == 0 {
      RecordedIff(l, calls[0].request);
      RunKeeps(AfterCall(l, calls[0]), calls[1..]);
      hide LedgerInv, SettleReply;
      var before, after := AfterCall(l, calls[0]).records, LedgerAfter(l, calls).records;
      var k :| 0 <= k < |before|
        && before[k].gameId == calls[0].request.gameId && before[k].player == calls[0].request.player;
      assert after[k] == before[k];
    } else {
      Answered(AfterCall(l, calls[0]), calls[1..], i - 1);
    }
  }

  /** What the backend has recorded in the end is what was posted. */
  lemma {:induction false} RecordsAreThePosted(calls: seq<Call>, posted: seq<Entry>)
    requires SettledOnce(posted) && Delivers(calls, posted) && NoneLost(calls, posted) && NoneRefused(NEW_LEDGER, calls)
    ensures multiset(EntriesIn(LedgerAfter(NEW_LEDGER, calls).records)) == multiset(posted)
  {
    var l := LedgerAfter(NEW_LEDGER, calls);
    RunKeeps(NEW_LEDGER, calls);
    RecordsWerePosted(NEW_LEDGER, calls, posted);
    forall e | e in posted
      ensures e in EntriesIn(l.records)
    {
      var i :| 0 <= i < |calls| && calls[i].Settle? && EntryOf(calls[i].request) == e;
      Answered(NEW_LEDGER, calls, i);
      var k :| 0 <= k < |l.records| && l.records[k].gameId == e.gameId && l.records[k].player == e.player;
      SameKey(posted, e, EntryOf(l.records[k]));
      assert EntriesIn(l.records)[k] == e;
    }
    assert NoRepeats(EntriesIn(l.records));
    SameMembers(EntriesIn(l.records), posted);
  }

  lemma {:induction false} SameKey(posted: seq<Entry>, a: Entry, b: Entry)
    requires SettledOnce(posted) && a in posted && b in posted
    requires a.gameId == b.gameId && a.player == b.player
    ensures a == b
  {
  }

  /**
    When every posted settlement is delivered at least once, in any order and
    however often, and none is refused, each player holds what it began with
    and what the gateway posted for it.
   */
  lemma {:induction false} BalancesArePosted(calls: seq<Call>, posted: seq<Entry>)
    requires SettledOnce(posted) && Delivers(calls, posted) && NoneLost(calls, posted) && NoneRefused(NEW_LEDGER, calls)
    ensures var l := LedgerAfter(NEW_LEDGER, calls);
      && (forall e :: e in posted ==> e.player in l.coins)
      && forall p :: p in l.coins ==> l.coins[p] == INITIAL_COINS + Gain(posted, p)
  {
    var l := LedgerAfter(NEW_LEDGER, calls);
    RunKeeps(NEW_LEDGER, calls);
    RecordsAreThePosted(calls, posted);
    forall e | e in posted
      ensures e.player in l.coins
    {
      assert e in multiset(EntriesIn(l.records));
    }
    forall p | p in l.coins
      ensures l.coins[p] == INITIAL_COINS + Gain(posted, p)
    {
      SumIsGain(l.records, p);
      GainIgnoresOrder(EntriesIn(l.records), posted, p);
    }
  }

  // ---------- All coins ----------

  function AllGains(posted: seq<Entry>, players: seq<PlayerId>): int {
    if players == [] then 0 else Gain(posted, players[0]) + AllGains(posted, players[1..])
  }

  function AllOwn(e: Entry, players: seq<PlayerId>): int {
    if players == [] then 0 else Own(e, players[0]) + AllOwn(e, players[1..])
  }

  lemma {:induction false} OwnOnce(e: Entry, players: seq<PlayerId>)
    requires NoRepeats(players)
    ensures AllOwn(e, players) == if e.player in players then e.coins else 0
  {
    if players != [] {
      OwnOnce(e, players[1..]);
    }
  }

  lemma {:induction false} GainsSplit(posted: seq<Entry>, players: seq<PlayerId>)
    requires posted != []
    ensures AllGains(posted, players) == AllOwn(posted[0], players) + AllGains(posted[1..], players)
  {
    if players != [] {
      GainsSplit(posted, players[1..]);
    }
  }

  lemma {:induction false} NoGains(players: seq<PlayerId>)
    ensures AllGains([], players) == 0
  {
    if players != [] {
      NoGains(players[1..]);
    }
  }

  lemma {:induction false} GainsAreTotal(posted: seq<Entry>, players: seq<PlayerId>)
    requires NoRepeats(players) && forall e :: e in posted ==> e.player in players
    ensures AllGains(posted, players) == Total(posted)
  {
    if posted == [] {
      NoGains(players);
    } else {
      GainsAreTotal(posted[1..], players);
      GainsSplit(posted, players);
      OwnOnce(posted[0], players);
    }
  }

  function AllCoins(l: Ledger, players: seq<PlayerId>): int
    requires forall p :: p in players ==> p in l.coins
  {
    if players == [] then 0 else l.coins[players[0]] + AllCoins(l, players[1..])
  }

  lemma {:induction false} CoinsAreGains(l: Ledger, posted: seq<Entry>, players: seq<PlayerId>)
    requires forall p :: p in players ==> p in l.coins && l.coins[p] == INITIAL_COINS + Gain(posted, p)
    ensures AllCoins(l, players) == INITIAL_COINS * |players| + AllGains(posted, players)
  {
    if players != [] {
      CoinsAreGains(l, posted, players[1..]);
    }
  }

  /**
    From the first message to the last coin: for every run of the gateway and every
    delivery of what it posted that loses nothing and is refused nothing, the
    players together hold a thousand coins each, as at the beginning.
   */
  lemma {:induction false} CoinsAreConserved(turns: seq<Turn>, calls: seq<Call>, players: seq<PlayerId>)
    requires IsGatewayRun(NEW_GATEWAY, turns)
    requires Delivers(calls, AllPosted(turns)) && NoneLost(calls, AllPosted(turns)) && NoneRefused(NEW_LEDGER, calls)
    requires NoRepeats(players) && forall p :: p in players <==> p in LedgerAfter(NEW_LEDGER, calls).coins
    ensures AllCoins(LedgerAfter(NEW_LEDGER, calls), players) == INITIAL_COINS * |players|
  {
    hide IsGatewayRun, AllPosted, GatewayInv, Delivers, NoneLost, NoneRefused, LedgerAfter, SettledOnce, Gain, Total;
    PostedOnce(turns);
    PostedTotal(calls, AllPosted(turns), players);
  }

  lemma {:induction false} PostedTotal(calls: seq<Call>, posted: seq<Entry>, players: seq<PlayerId>)
    requires SettledOnce(posted) && Delivers(calls, posted) && NoneLost(calls, posted) && NoneRefused(NEW_LEDGER, calls)
    requires NoRepeats(players) && forall p :: p in players <==> p in LedgerAfter(NEW_LEDGER, calls).coins
    ensures AllCoins(LedgerAfter(NEW_LEDGER, calls), players) == INITIAL_COINS * |players| + Total(posted)
  {
    hide Delivers, NoneLost, NoneRefused, LedgerAfter, SettledOnce, Gain, Total, NoRepeats;
    BalancesArePosted(calls, posted);
    GainsAreTotal(posted, players);
    CoinsAreGains(LedgerAfter(NEW_LEDGER, calls), posted, players);
  }
}
