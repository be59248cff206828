/** Where the coins are when settlements are lost or refused: what is missing is exactly what was never recorded. */
module Conservation {
  import opened Lists
  import opened Lobbies
  import opened Settlements
  import opened LobbyRuns
  import opened Presence
  import opened Postings
  import opened Ledgers
  import opened Deliveries

  /** The posted settlements that the backend has not recorded. */
  function Missing(posted: seq<Entry>, records: seq<Settlement>): seq<Entry> {
    if posted == [] then []
    else
      (if Recorded(records, posted[0].gameId, posted[0].player) then [] else [posted[0]])
      + Missing(posted[1..], records)
  }

  lemma {:induction false} MissingMembers(posted: seq<Entry>, records: seq<Settlement>)
    requires SettledOnce(posted)
    ensures NoRepeats(Missing(posted, records))
    ensures forall e :: e in Missing(posted, records) <==> e in posted && !Recorded(records, e.gameId, e.player)
  {
    hide Recorded;
    if posted != [] {
      MissingMembers(posted[1..], records);
      assert posted == [posted[0]] + posted[1..];
      assert posted[0] !in posted[1..];
    }
  }

  lemma {:induction false} RecordedOrMissing(posted: seq<Entry>, records: seq<Settlement>)
    requires SettledOnce(posted) && AllFrom(records, posted) && KeysDiffer(records)
    ensures multiset(posted) == multiset(EntriesIn(records) + Missing(posted, records))
  {
    MissingMembers(posted, records);
    var kept, missing := EntriesIn(records), Missing(posted, records);
    forall e | e in posted && e !in missing
      ensures e in kept
    {
      var k :| 0 <= k < |records| && records[k].gameId == e.gameId && records[k].player == e.player;
      SameKey(posted, e, EntryOf(records[k]));
      assert kept[k] == e;
    }
    forall i, j | 0 <= i < |kept| && 0 <= j < |missing|
      ensures kept[i] != missing[j]
    {
      assert missing[j] in missing;
      assert records[i].gameId == kept[i].gameId;
    }
    assert NoRepeats(posted) && NoRepeats(kept);
    assert forall e :: e in kept ==> e in posted;
    hide Recorded, KeysDiffer, SettledOnce, AllFrom, Missing;
    JoinedNoRepeats(kept, missing);
    SameMembers(posted, kept + missing);
  }

  lemma {:induction false} JoinedNoRepeats(a: seq<Entry>, b: seq<Entry>)
    requires NoRepeats(a) && NoRepeats(b)
    requires forall i, j :: 0 <= i < |a| && 0 <= j < |b| ==> a[i] != b[j]
    ensures NoRepeats(a + b)
  {
    var all := a + b;
    forall i, j | 0 <= i < j < |all|
      ensures all[i] != all[j]
    {
      assert all[i] == if i < |a| then a[i] else b[i - |a|];
      assert all[j] == if j < |a| then a[j] else b[j - |a|];
    }
  }

  lemma {:induction false} TotalWithout(b: seq<Entry>, i: nat)
    requires i < |b|
    ensures multiset(b[..i] + b[i + 1..]) == multiset(b) - multiset{b[i]}
    ensures Total(b) == Total(b[..i] + b[i + 1..]) + b[i].coins
  {
    var front, back := b[..i], b[i + 1..];
    assert b == (front + [b[i]]) + back;
    TotalAppend(front, back);
    TotalAppend(front, [b[i]]);
    TotalAppend(front + [b[i]], back);
    assert Total([b[i]]) == b[i].coins + Total([]);
  }

  lemma {:induction false} TotalIgnoresOrder(a: seq<Entry>, b: seq<Entry>)
    requires multiset(a) == multiset(b)
    ensures Total(a) == Total(b)
    decreases |a|
  {
    hide Total;
    assert |a| == |multiset(a)| == |b|;
    if a == [] {
      assert b == [];
    } else {
      assert a[0] in multiset(b);
      var i :| 0 <= i < |b| && b[i] == a[0];
      TotalWithout(a, 0);
      TotalWithout(b, i);
      TotalIgnoresOrder(a[..0] + a[0 + 1..], b[..i] + b[i + 1..]);
    }
  }

  // ---------- Accounts ----------

  /**
    For any deliveries, lost, repeated, late or refused: each player holds 1000
    coins and what was posted for it, but for what is missing.
   */
  lemma {:induction false} BalancesAreAccounted(calls: seq<Call>, posted: seq<Entry>, p: PlayerId)
    requires SettledOnce(posted) && Delivers(calls, posted) && p in LedgerAfter(NEW_LEDGER, calls).coins
    ensures var l := LedgerAfter(NEW_LEDGER, calls);
      l.coins[p] == INITIAL_COINS + Gain(posted, p) - Gain(Missing(posted, l.records), p)
  {
    hide Gain, Sum, Missing, Delivers, SettledOnce, LedgerAfter;
    var l := LedgerAfter(NEW_LEDGER, calls);
    RunKeeps(NEW_LEDGER, calls);
    RecordsWerePosted(NEW_LEDGER, calls, posted);
    RecordedOrMissing(posted, l.records);
    SumIsGain(l.records, p);
    GainIgnoresOrder(posted, EntriesIn(l.records) + Missing(posted, l.records), p);
    GainJoin(EntriesIn(l.records), Missing(posted, l.records), p);
  }

  /** The players together hold a thousand coins each and all that was posted, but for what is missing. */
  lemma {:induction false} CoinsAreAccounted(calls: seq<Call>, posted: seq<Entry>, players: seq<PlayerId>)
    requires SettledOnce(posted) && Delivers(calls, posted)
    requires NoRepeats(players) && forall p :: p in players <==> p in LedgerAfter(NEW_LEDGER, calls).coins
    ensures var l := LedgerAfter(NEW_LEDGER, calls);
      AllCoins(l, players) == INITIAL_COINS * |players| + Total(posted) - Total(Missing(posted, l.records))
  {
    var l := LedgerAfter(NEW_LEDGER, calls);
    RunKeeps(NEW_LEDGER, calls);
    RecordsWerePosted(NEW_LEDGER, calls, posted);
    var kept, missing := EntriesIn(l.records), Missing(posted, l.records);
    assert forall e :: e in kept ==> e.player in players;
    hide Gain, Sum, Missing, Delivers, LedgerAfter, Total, NoRepeats, AllFrom;
    RecordedOrMissing(posted, l.records);
    TotalIgnoresOrder(posted, kept + missing);
    TotalAppend(kept, missing);
    forall p | p in players
      ensures l.coins[p] == INITIAL_COINS + Gain(kept, p)
    {
      SumIsGain(l.records, p);
    }
    hide SettledOnce, LedgerInv;
    GainsAreTotal(kept, players);
    CoinsAreGains(l, kept, players);
  }

  // ---------- When all coins are kept ----------

  /**
    The backend can only refuse for lack of coins: requests are well formed, their
    players known and their balances in range.
   */
  ghost predicate Heard(l: Ledger, calls: seq<Call>)
    decreases |calls|
  {
    calls == [] ||
    ((calls[0].Settle? ==>
        var r := calls[0].request;
        WellFormed(r) && r.player in l.coins && l.coins[r.player] + r.change <= MAX_INT)
     && Heard(AfterCall(l, calls[0]), calls[1..]))
  }

  lemma {:induction false} RefusedLoses(l: Ledger, calls: seq<Call>, i: nat)
    requires LedgerInv(l) && Heard(l, calls) && i < |calls| && calls[i].Settle?
    ensures var r := calls[i].request;
      Recorded(LedgerAfter(l, calls).records, r.gameId, r.player) || r.change < 0
    decreases |calls|
  {
    CallKeeps(l, calls[0]);
    if i > 0 {
      RefusedLoses(AfterCall(l, calls[0]), calls[1..], i - 1);
    } else {
      var r := calls[0].request;
      RecordedIff(l, r);
      NeverNegative(l, r.player);
      ChangeIsExact(l.coins[r.player], r.change);
      hide LedgerInv, WellFormed;
      if r.change >= 0 {
        assert SettleReply(l, r).Coins?;
        RunKeeps(AfterCall(l, calls[0]), calls[1..]);
        StaysRecorded(AfterCall(l, calls[0]).records, LedgerAfter(l, calls).records, r);
      }
    }
  }

  lemma {:induction false} StaysRecorded(before: seq<Settlement>, after: seq<Settlement>, r: Settlement)
    requires before <= after && Recorded(before, r.gameId, r.player)
    ensures Recorded(after, r.gameId, r.player)
  {
    var k :| 0 <= k < |before| && before[k].gameId == r.gameId && before[k].player == r.player;
    assert after[k] == before[k];
  }

  lemma {:induction false} AllNegative(entries: seq<Entry>)
    requires forall e :: e in entries ==> e.coins < 0
    ensures Total(entries) <= 0 && (Total(entries) == 0 <==> entries == [])
  {
    if entries != [] {
      AllNegative(entries[1..]);
    }
  }

  /**
    When nothing is lost on the way, and requests are only refused for lack of
    coins: no coins ever vanish, and all coins are kept exactly when every posted
    settlement is recorded in the end, if need be at a later delivery.
   */
  lemma {:induction false} ConservedIff(calls: seq<Call>, posted: seq<Entry>, players: seq<PlayerId>)
    requires SettledOnce(posted) && Total(posted) == 0 && Delivers(calls, posted) && NoneLost(calls, posted)
    requires Heard(NEW_LEDGER, calls)
    requires NoRepeats(players) && forall p :: p in players <==> p in LedgerAfter(NEW_LEDGER, calls).coins
    ensures var l := LedgerAfter(NEW_LEDGER, calls);
      && AllCoins(l, players) >= INITIAL_COINS * |players|
      && (AllCoins(l, players) == INITIAL_COINS * |players| <==>
            forall e :: e in posted ==> Recorded(l.records, e.gameId, e.player))
  {
    var l := LedgerAfter(NEW_LEDGER, calls);
    var missing := Missing(posted, l.records);
    hide Recorded, Missing, LedgerAfter, Total, NoRepeats, SettledOnce, Heard;
    CoinsAreAccounted(calls, posted, players);
    MissingMembers(posted, l.records);
    forall e | e in missing
      ensures e.coins < 0
    {
      var i :| 0 <= i < |calls| && calls[i].Settle? && EntryOf(calls[i].request) == e;
      RefusedLoses(NEW_LEDGER, calls, i);
    }
    AllNegative(missing);
    if missing != [] {
      assert missing[0] in missing;
    }
  }

  /** The same for whatever a run of the gateway posts. */
  lemma {:induction false} GatewayConservedIff(turns: seq<Turn>, calls: seq<Call>, players: seq<PlayerId>)
    requires IsGatewayRun(NEW_GATEWAY, turns)
    requires Delivers(calls, AllPosted(turns)) && NoneLost(calls, AllPosted(turns)) && Heard(NEW_LEDGER, calls)
    requires NoRepeats(players) && forall p :: p in players <==> p in LedgerAfter(NEW_LEDGER, calls).coins
    ensures var l := LedgerAfter(NEW_LEDGER, calls);
      AllCoins(l, players) == INITIAL_COINS * |players| <==>
        forall e :: e in AllPosted(turns) ==> Recorded(l.records, e.gameId, e.player)
  {
    hide IsGatewayRun, AllPosted, GatewayInv, Delivers, NoneLost, Heard, LedgerAfter, SettledOnce, Total, Recorded;
    PostedOnce(turns);
    ConservedIff(calls, AllPosted(turns), players);
  }

  // ---------- A poor loser ----------

  /** What is posted when the landlord loses game `n`. */
  ghost function LostGame(n: nat): seq<Entry> {
    [Entry(Decimal(n), "a", -200, "LOSE"), Entry(Decimal(n), "b", 100, "WIN"), Entry(Decimal(n), "c", 100, "WIN")]
  }

  ghost function LostBills(n: nat): seq<Bill> {
    if n == 0 then [] else LostBills(n - 1) + [Bill(n, LostGame(n))]
  }

  ghost function LostGames(n: nat): seq<Entry> {
    EntriesOf(LostBills(n))
  }

  function Delivered(e: Entry): Call
    requires -200 <= e.coins <= 200
  {
    Settle(Settlement(e.gameId, e.player, e.coins, e.result, 0))
  }

  /** Three players log in; the first one loses `n` games as the landlord. */
  ghost function Losses(n: nat): seq<Call> {
    if n == 0 then [Login("a"), Login("b"), Login("c")]
    else Losses(n - 1) + [Delivered(LostGame(n)[0]), Delivered(LostGame(n)[1]), Delivered(LostGame(n)[2])]
  }

  ghost function Fortune(n: nat): map<PlayerId, Int32>
    requires n <= 6
  {
    map["a" := if n <= 5 then 1000 - 200 * n else 0, "b" := 1000 + 100 * n, "c" := 1000 + 100 * n]
  }

  lemma {:induction false} LedgerJoin(l: Ledger, a: seq<Call>, b: seq<Call>)
    ensures LedgerAfter(l, a + b) == LedgerAfter(LedgerAfter(l, a), b)
    decreases |a|
  {
    if a == [] {
      assert a + b == b;
    } else {
      assert (a + b)[1..] == a[1..] + b;
      LedgerJoin(AfterCall(l, a[0]), a[1..], b);
    }
  }

  lemma {:induction false} ThreeCalls(l: Ledger, a: Call, b: Call, c: Call)
    ensures LedgerAfter(l, [a, b, c]) == AfterCall(AfterCall(AfterCall(l, a), b), c)
  {
    hide AfterCall;
    assert [a, b, c][1..] == [b, c] && [b, c][1..] == [c] && [c][1..] == [];
    assert LedgerAfter(AfterCall(l, a), [b, c]) == LedgerAfter(AfterCall(AfterCall(l, a), b), [c]);
  }

  ghost predicate GameUpTo(gameId: string, n: nat) {
    exists j: nat :: j <= n && gameId == Decimal(j)
  }

  ghost predicate GamesUpTo(records: seq<Settlement>, n: nat) {
    forall i :: 0 <= i < |records| ==> GameUpTo(records[i].gameId, n)
  }

  lemma {:induction false} DecimalNotBlank(n: nat)
    ensures NotBlank(Decimal(n))
  {
    var d := Decimal(n);
    DecimalNotEmpty(n);
    assert d[|d| - 1] == DIGITS[n % 10];
    assert DIGITS[n % 10] > ' ';
  }

  lemma {:induction false} OneDelivery(l: Ledger, n: nat, e: Entry)
    requires e.gameId == Decimal(n) && NotBlank(e.player) && NotBlank(e.result) && -200 <= e.coins <= 200
    requires e.player in l.coins && l.coins[e.player] >= 0 && !Recorded(l.records, e.gameId, e.player)
    ensures var balance := l.coins[e.player] + e.coins;
      AfterCall(l, Delivered(e)) ==
        if 0 <= balance <= MAX_INT then Ledger(l.coins[e.player := balance], l.records + [Delivered(e).request]) else l
  {
    DecimalNotBlank(n);
    hide NotBlank, Wrap, Recorded, Decimal;
    ChangeIsExact(l.coins[e.player], e.coins);
  }

  lemma {:induction false} NewGame(records: seq<Settlement>, n: nat, p: PlayerId)
    requires n >= 1 && GamesUpTo(records, n - 1)
    ensures !Recorded(records, Decimal(n), p)
  {
    hide Decimal;
    if Recorded(records, Decimal(n), p) {
      var i :| 0 <= i < |records| && records[i].gameId == Decimal(n) && records[i].player == p;
      assert GameUpTo(records[i].gameId, n - 1);
      var j: nat :| j <= n - 1 && records[i].gameId == Decimal(j);
      DecimalInjective(j, n);
    }
  }

  lemma {:induction false} OneMoreRecord(records: seq<Settlement>, r: Settlement, n: nat, p: PlayerId)
    requires GamesUpTo(records, n) && r.gameId == Decimal(n)
    ensures GamesUpTo(records + [r], n)
    ensures r.player != p && !Recorded(records, Decimal(n), p) ==> !Recorded(records + [r], Decimal(n), p)
  {
    hide Decimal;
  }

  /** The landlord pays as long as it can; the others are paid in any case. */
  lemma {:induction false} OneLostGame(l: Ledger, n: nat)
    requires 1 <= n <= 6 && l.coins == Fortune(n - 1) && GamesUpTo(l.records, n - 1)
    ensures var calls := [Delivered(LostGame(n)[0]), Delivered(LostGame(n)[1]), Delivered(LostGame(n)[2])];
      var l1 := LedgerAfter(l, calls);
      Heard(l, calls) && l1.coins == Fortune(n) && GamesUpTo(l1.records, n)
  {
    hide Decimal, AfterCall, Recorded, GamesUpTo, Heard, LedgerAfter, NotBlank;
    var a, b, c := LostGame(n)[0], LostGame(n)[1], LostGame(n)[2];
    NewGame(l.records, n, "a");
    NewGame(l.records, n, "b");
    NewGame(l.records, n, "c");
    MoreGames(l.records, n);
    Visible();
    DecimalNotBlank(n);
    OneDelivery(l, n, a);
    OneHeard(l, Delivered(a));
    var l1 := AfterCall(l, Delivered(a));
    OneMoreRecord(l.records, Delivered(a).request, n, "b");
    OneMoreRecord(l.records, Delivered(a).request, n, "c");
    OneDelivery(l1, n, b);
    OneHeard(l1, Delivered(b));
    var l2 := AfterCall(l1, Delivered(b));
    OneMoreRecord(l1.records, Delivered(b).request, n, "c");
    OneDelivery(l2, n, c);
    OneHeard(l2, Delivered(c));
    OneMoreRecord(l2.records, Delivered(c).request, n, "c");
    JoinThree(l, Delivered(a), Delivered(b), Delivered(c));
  }

  lemma {:induction false} JoinThree(l: Ledger, a: Call, b: Call, c: Call)
    requires Heard(l, [a]) && Heard(AfterCall(l, a), [b]) && Heard(AfterCall(AfterCall(l, a), b), [c])
    ensures Heard(l, [a, b, c])
    ensures LedgerAfter(l, [a, b, c]) == AfterCall(AfterCall(AfterCall(l, a), b), c)
  {
    hide AfterCall, Heard, LedgerAfter;
    OneHeard(l, a);
    OneHeard(AfterCall(l, a), b);
    HeardJoin(AfterCall(l, a), [b], [c]);
    assert [b] + [c] == [b, c];
    HeardJoin(l, [a], [b, c]);
    assert [a] + [b, c] == [a, b, c];
    ThreeCalls(l, a, b, c);
  }

  lemma {:induction false} HeardJoin(l: Ledger, a: seq<Call>, b: seq<Call>)
    requires Heard(l, a) && Heard(LedgerAfter(l, a), b)
    ensures Heard(l, a + b)
    decreases |a|
  {
    hide AfterCall, WellFormed;
    if a == [] {
      assert a + b == b;
    } else {
      assert (a + b)[1..] == a[1..] + b;
      HeardJoin(AfterCall(l, a[0]), a[1..], b);
    }
  }

  lemma {:induction false} OneHeard(l: Ledger, c: Call)
    ensures Heard(l, [c]) <==> c.Settle? ==>
      (WellFormed(c.request) && c.request.player in l.coins && l.coins[c.request.player] + c.request.change <= MAX_INT)
    ensures LedgerAfter(l, [c]) == AfterCall(l, c)
  {
    hide AfterCall, WellFormed;
    assert [c][1..] == [];
    assert Heard(AfterCall(l, c), []) && LedgerAfter(AfterCall(l, c), []) == AfterCall(l, c);
  }

  lemma {:induction false} MoreGames(records: seq<Settlement>, n: nat)
    requires n >= 1 && GamesUpTo(records, n - 1)
    ensures GamesUpTo(records, n)
  {
    hide Decimal;
    forall i | 0 <= i < |records|
      ensures GameUpTo(records[i].gameId, n)
    {
      var j: nat :| j <= n - 1 && records[i].gameId == Decimal(j);
    }
  }

  lemma {:induction false} Visible()
    ensures NotBlank("a") && NotBlank("b") && NotBlank("c") && NotBlank("WIN") && NotBlank("LOSE")
  {
    assert "a"[0] > ' ' && "b"[0] > ' ' && "c"[0] > ' ' && "WIN"[0] > ' ' && "LOSE"[0] > ' ';
  }

  lemma {:induction false} LossesAdd(n: nat)
    requires n <= 6
    ensures LedgerAfter(NEW_LEDGER, Losses(n)).coins == Fortune(n)
    ensures GamesUpTo(LedgerAfter(NEW_LEDGER, Losses(n)).records, n)
    ensures Heard(NEW_LEDGER, Losses(n))
  {
    if n == 0 {
      var l1 := AfterCall(NEW_LEDGER, Login("a"));
      var l2 := AfterCall(l1, Login("b"));
      OneHeard(NEW_LEDGER, Login("a"));
      OneHeard(l1, Login("b"));
      OneHeard(l2, Login("c"));
      JoinThree(NEW_LEDGER, Login("a"), Login("b"), Login("c"));
    } else {
      LossesAdd(n - 1);
      hide Decimal, Fortune, GamesUpTo, LedgerAfter, Heard;
      var last := [Delivered(LostGame(n)[0]), Delivered(LostGame(n)[1]), Delivered(LostGame(n)[2])];
      LedgerJoin(NEW_LEDGER, Losses(n - 1), last);
      OneLostGame(LedgerAfter(NEW_LEDGER, Losses(n - 1)), n);
      HeardJoin(NEW_LEDGER, Losses(n - 1), last);
    }
  }

  lemma {:induction false} LostBillsOk(n: nat)
    ensures |LostBills(n)| == n
    ensures forall i :: 0 <= i < n ==> LostBills(n)[i].room == i + 1 && BillOk(LostBills(n)[i])
  {
    if n > 0 {
      LostBillsOk(n - 1);
      var b := Bill(n, LostGame(n));
      TotalOfThree(b.entries[0], b.entries[1], b.entries[2]);
      hide Decimal;
      assert BillOk(b);
      hide BillOk;
    }
  }

  lemma {:induction false} OneMoreLoss(n: nat)
    requires n > 0
    ensures LostGames(n) == LostGames(n - 1) + LostGame(n)
  {
    var last := [Bill(n, LostGame(n))];
    EntriesJoin(LostBills(n - 1), last);
    assert last[1..] == [];
    assert EntriesOf(last) == LostGame(n) + EntriesOf([]);
  }

  ghost predicate DeliversAll(calls: seq<Call>, posted: seq<Entry>) {
    && (forall c :: c in calls && c.Settle? ==> EntryOf(c.request) in posted)
    && (forall e :: e in posted ==> -200 <= e.coins <= 200 && Delivered(e) in calls)
  }

  lemma {:induction false} DeliversMore(calls: seq<Call>, posted: seq<Entry>, more: seq<Call>, game: seq<Entry>)
    requires DeliversAll(calls, posted) && DeliversAll(more, game)
    ensures DeliversAll(calls + more, posted + game)
  {
  }

  lemma {:induction false} LossesDeliver(n: nat)
    ensures DeliversAll(Losses(n), LostGames(n))
  {
    hide Decimal, DeliversAll;
    if n > 0 {
      LossesDeliver(n - 1);
      OneMoreLoss(n);
      OneDelivers(n);
      var last := [Delivered(LostGame(n)[0]), Delivered(LostGame(n)[1]), Delivered(LostGame(n)[2])];
      DeliversMore(Losses(n - 1), LostGames(n - 1), last, LostGame(n));
    } else {
      NothingDelivered();
    }
  }

  lemma {:induction false} NothingDelivered()
    ensures DeliversAll(Losses(0), LostGames(0))
  {
  }

  lemma {:induction false} OneDelivers(n: nat)
    ensures DeliversAll([Delivered(LostGame(n)[0]), Delivered(LostGame(n)[1]), Delivered(LostGame(n)[2])], LostGame(n))
  {
    hide Decimal;
  }

  lemma {:induction false} AllDelivered(calls: seq<Call>, posted: seq<Entry>)
    requires DeliversAll(calls, posted)
    ensures Delivers(calls, posted) && NoneLost(calls, posted)
  {
    forall e | e in posted
      ensures exists i :: 0 <= i < |calls| && calls[i].Settle? && EntryOf(calls[i].request) == e
    {
      var i :| 0 <= i < |calls| && calls[i] == Delivered(e);
      assert EntryOf(Delivered(e).request) == e;
    }
  }

  lemma {:induction false} CoinsOfThree(l: Ledger)
    requires l.coins.Keys == {"a", "b", "c"}
    ensures AllCoins(l, ["a", "b", "c"]) == l.coins["a"] as int + l.coins["b"] as int + l.coins["c"] as int
  {
    assert ["a", "b", "c"][1..] == ["b", "c"] && ["b", "c"][1..] == ["c"] && ["c"][1..] == [];
    assert AllCoins(l, ["c"]) == l.coins["c"];
    assert AllCoins(l, ["b", "c"]) == l.coins["b"] + AllCoins(l, ["c"]);
  }

  /**
    Six games in which not all coins are kept: everything posted is delivered, but
    the sixth loss finds the loser without coins, while the winners are paid.
   */
  lemma {:induction false} PoorLoser()
    ensures SettledOnce(LostGames(6)) && Total(LostGames(6)) == 0
    ensures Delivers(Losses(6), LostGames(6)) && NoneLost(Losses(6), LostGames(6)) && Heard(NEW_LEDGER, Losses(6))
    ensures var l := LedgerAfter(NEW_LEDGER, Losses(6));
      l.coins.Keys == {"a", "b", "c"} && l.coins["a"] == 0 && AllCoins(l, ["a", "b", "c"]) == 3200
  {
    hide Decimal, Losses, LedgerAfter, LostBills, DeliversAll, GamesUpTo, Heard;
    LostBillsOk(6);
    BillsSettleOnce(LostBills(6));
    LossesDeliver(6);
    AllDelivered(Losses(6), LostGames(6));
    LossesAdd(6);
    CoinsOfThree(LedgerAfter(NEW_LEDGER, Losses(6)));
  }
}
