/**
  The coins of the players in the backend. Requests are handled one at a time, and
  each is a transaction: when it is refused, nothing is kept.
 */
module Ledgers {
  import opened Lobbies

  // ---------- The int of Java ----------

  const MAX_INT := 0x7FFF_FFFF

  type Int32 = x: int | -0x8000_0000 <= x <= 0x7FFF_FFFF

  /** What is left of a number in 32 bits. */
  function Wrap(x: int): Int32 {
    (x + 0x8000_0000) % 0x1_0000_0000 - 0x8000_0000
  }

  lemma {:induction false} WrapTwice(x: int, y: int)
    ensures Wrap(Wrap(x) + y) == Wrap(x + y)
  {
    var turns := (x + 0x8000_0000) / 0x1_0000_0000;
    assert Wrap(x) == x - turns * 0x1_0000_0000;
    var a, b := Wrap(x) + y + 0x8000_0000, x + y + 0x8000_0000;
    assert b == a + turns * 0x1_0000_0000;
    SameRemainder(a, turns);
  }

  lemma {:induction false} SameRemainder(a: int, turns: int)
    ensures (a + turns * 0x1_0000_0000) % 0x1_0000_0000 == a % 0x1_0000_0000
  {
  }

  /** The check for a negative sum also turns away every sum that does not fit. */
  lemma {:induction false} ChangeIsExact(coins: Int32, change: Int32)
    requires coins >= 0
    ensures Wrap(coins + change) >= 0 <==> 0 <= coins + change <= MAX_INT
    ensures Wrap(coins + change) >= 0 ==> Wrap(coins + change) == coins + change
  {
  }

  // ---------- Requests ----------

  datatype Settlement = Settlement(gameId: string, player: PlayerId, change: Int32, result: string, duration: int)

  datatype Ledger = Ledger(coins: map<PlayerId, Int32>, records: seq<Settlement>)

  const NEW_LEDGER := Ledger(map[], [])
  const INITIAL_COINS := 1000

  datatype Reply = Coins(player: PlayerId, coins: Int32) | BadRequest | PlayerNotFound | InsufficientCoins

  predicate NotBlank(s: string) {
    exists i :: 0 <= i < |s| && s[i] > ' '
  }

  predicate WellFormed(r: Settlement) {
    NotBlank(r.gameId) && NotBlank(r.player) && NotBlank(r.result) && r.duration >= 0
  }

  predicate NameOk(p: PlayerId) {
    1 <= |p| <= 32 &&
    forall i :: 0 <= i < |p| ==> 'A' <= p[i] <= 'Z' || 'a' <= p[i] <= 'z' || '0' <= p[i] <= '9' || p[i] in "_-"
  }

  predicate Recorded(records: seq<Settlement>, gameId: string, p: PlayerId) {
    exists i :: 0 <= i < |records| && records[i].gameId == gameId && records[i].player == p
  }

  function LoggedIn(l: Ledger, p: PlayerId): Ledger {
    if NameOk(p) && p !in l.coins then l.(coins := l.coins[p := INITIAL_COINS]) else l
  }

  function SettleReply(l: Ledger, r: Settlement): Reply {
    if !WellFormed(r) then BadRequest
    else if r.player !in l.coins then PlayerNotFound
    else if Recorded(l.records, r.gameId, r.player) then Coins(r.player, l.coins[r.player])
    else if Wrap(l.coins[r.player] + r.change) < 0 then InsufficientCoins
    else Coins(r.player, Wrap(l.coins[r.player] + r.change))
  }

  function Settled(l: Ledger, r: Settlement): Ledger {
    if SettleReply(l, r).Coins? && !Recorded(l.records, r.gameId, r.player)
    then Ledger(l.coins[r.player := SettleReply(l, r).coins], l.records + [r]) else l
  }

  // ---------- Invariant ----------

  /** The exact sum of the changes recorded for a player. */
  function Sum(records: seq<Settlement>, p: PlayerId): int {
    if records == [] then 0
    else
      var n := |records| - 1;
      Sum(records[..n], p) + if records[n].player == p then records[n].change else 0
  }

  ghost predicate KeysDiffer(records: seq<Settlement>) {
    forall i, j :: 0 <= i < j < |records| ==>
      records[i].gameId != records[j].gameId || records[i].player != records[j].player
  }

  /**
    Coins are the first thousand and the recorded changes, and are never negative; a
    game is recorded once for a player.
   */
  ghost predicate LedgerInv(l: Ledger) {
    && (forall p :: p in l.coins ==> 0 <= l.coins[p] == INITIAL_COINS + Sum(l.records, p))
    && (forall i :: 0 <= i < |l.records| ==> l.records[i].player in l.coins)
    && KeysDiffer(l.records)
  }

  /** A request is recorded exactly when it is well formed, new, and leaves a balance that an int can hold. */
  lemma {:induction false} RecordedIff(l: Ledger, r: Settlement)
    requires LedgerInv(l)
    ensures Settled(l, r) != l <==>
      && WellFormed(r) && r.player in l.coins && !Recorded(l.records, r.gameId, r.player)
      && 0 <= l.coins[r.player] + r.change <= MAX_INT
    ensures Settled(l, r) != l ==>
      Settled(l, r) == Ledger(l.coins[r.player := l.coins[r.player] + r.change], l.records + [r])
    ensures SettleReply(l, r).Coins? ==>
      Recorded(Settled(l, r).records, r.gameId, r.player) && SettleReply(l, r).coins == Settled(l, r).coins[r.player]
  {
    if r.player in l.coins {
      ChangeIsExact(l.coins[r.player], r.change);
    }
    assert |l.records + [r]| > |l.records|;
    assert (l.records + [r])[|l.records|] == r;
  }

  /** Some character is more than white space. */
  ghost predicate Shown(s: string) {
    exists c :: c in s && c > ' '
  }

  lemma {:induction false} ShownIff(s: string)
    ensures NotBlank(s) <==> Shown(s)
  {
    if NotBlank(s) {
      var i :| 0 <= i < |s| && s[i] > ' ';
      assert s[i] in s;
    }
    if Shown(s) {
      var c :| c in s && c > ' ';
      var i :| 0 <= i < |s| && s[i] == c;
    }
  }

  /** The four answers to a settlement, and which of them it gets. */
  lemma {:induction false} AnswerIs(l: Ledger, r: Settlement)
    requires LedgerInv(l)
    ensures var known := Shown(r.gameId) && Shown(r.player) && Shown(r.result) && r.duration >= 0;
      var again := exists i ::
        0 <= i < |l.records| && l.records[i].gameId == r.gameId && l.records[i].player == r.player;
      SettleReply(l, r) ==
        if !known then BadRequest
        else if r.player !in l.coins then PlayerNotFound
        else if again then Coins(r.player, l.coins[r.player])
        else if !(0 <= l.coins[r.player] + r.change <= 2_147_483_647) then InsufficientCoins
        else Coins(r.player, l.coins[r.player] + r.change)
  {
    ShownIff(r.gameId);
    ShownIff(r.player);
    ShownIff(r.result);
    hide NotBlank, Shown;
    if r.player in l.coins {
      NeverNegative(l, r.player);
      ChangeIsExact(l.coins[r.player], r.change);
    }
    hide LedgerInv, Wrap;
  }

  /** By character codes: up to 32 capitals, small letters, digits, underscores and hyphens. */
  lemma {:induction false} NameIs(p: PlayerId)
    ensures NameOk(p) <==>
      && 1 <= |p| <= 32
      && forall i :: 0 <= i < |p| ==>
           var code := p[i] as int;
           65 <= code <= 90 || 97 <= code <= 122 || 48 <= code <= 57 || code == 95 || code == 45
  {
    assert "_-"[0] as int == 95 && "_-"[1] as int == 45;
    forall i | 0 <= i < |p|
      ensures p[i] in "_-" <==> p[i] as int == 95 || p[i] as int == 45
    {
    }
  }

  lemma {:induction false} NeverNegative(l: Ledger, p: PlayerId)
    requires LedgerInv(l) && p in l.coins
    ensures l.coins[p] >= 0
  {
  }

  lemma {:induction false} NothingRecorded(records: seq<Settlement>, p: PlayerId)
    requires forall i :: 0 <= i < |records| ==> records[i].player != p
    ensures Sum(records, p) == 0
  {
    if records != [] {
      NothingRecorded(records[..|records| - 1], p);
    }
  }

  lemma {:induction false} SumMore(records: seq<Settlement>, r: Settlement, p: PlayerId)
    ensures Sum(records + [r], p) == Sum(records, p) + if r.player == p then r.change else 0
  {
    assert (records + [r])[..|records|] == records;
  }

  lemma {:induction false} LoginKeeps(l: Ledger, p: PlayerId)
    requires LedgerInv(l)
    ensures LedgerInv(LoggedIn(l, p))
  {
    if p !in l.coins {
      NothingRecorded(l.records, p);
    }
  }

  lemma {:induction false} SettleKeeps(l: Ledger, r: Settlement)
    requires LedgerInv(l)
    ensures LedgerInv(Settled(l, r))
  {
    RecordedIff(l, r);
    if Settled(l, r) != l {
      forall p | p in l.coins
        ensures Sum(l.records + [r], p) == Sum(l.records, p) + if r.player == p then r.change else 0
      {
        SumMore(l.records, r, p);
      }
    }
  }

  // ---------- Runs ----------

  datatype Call = Login(player: PlayerId) | Settle(request: Settlement)

  function AfterCall(l: Ledger, c: Call): Ledger {
    match c
    case Login(p) => LoggedIn(l, p)
    case Settle(r) => Settled(l, r)
  }

  function LedgerAfter(l: Ledger, calls: seq<Call>): Ledger
    decreases |calls|
  {
    if calls == [] then l else LedgerAfter(AfterCall(l, calls[0]), calls[1..])
  }

  lemma {:induction false} RunKeeps(l: Ledger, calls: seq<Call>)
    requires LedgerInv(l)
    ensures LedgerInv(LedgerAfter(l, calls))
    ensures l.records <= LedgerAfter(l, calls).records
    decreases |calls|
  {
    hide LedgerInv;
    if calls != [] {
      match calls[0] {
        case Login(p) => LoginKeeps(l, p);
        case Settle(r) => SettleKeeps(l, r);
      }
      RunKeeps(AfterCall(l, calls[0]), calls[1..]);
    }
  }

  /**
    For any requests, repeated or out of order: coins follow the records, are never
    negative, and no game counts twice.
   */
  lemma {:induction false} CoinsFollowRecords(calls: seq<Call>)
    ensures var l := LedgerAfter(NEW_LEDGER, calls);
      && KeysDiffer(l.records)
      && forall p :: p in l.coins ==> 0 <= l.coins[p] == INITIAL_COINS + Sum(l.records, p)
  {
    RunKeeps(NEW_LEDGER, calls);
  }

  /** Once a request has got a balance as its reply, repeating it changes nothing, whatever came in between. */
  lemma {:induction false} RetryIsHarmless(l: Ledger, r: Settlement, between: seq<Call>, again: Settlement)
    requires LedgerInv(l) && SettleReply(l, r).Coins?
    requires again.gameId == r.gameId && again.player == r.player
    ensures var l1 := LedgerAfter(Settled(l, r), between); Settled(l1, again) == l1
  {
    SettleKeeps(l, r);
    RecordedIff(l, r);
    RunKeeps(Settled(l, r), between);
    var records := Settled(l, r).records;
    var i :| 0 <= i < |records| && records[i].gameId == r.gameId && records[i].player == r.player;
    assert LedgerAfter(Settled(l, r), between).records[i] == records[i];
  }

  // ---------- Statistics ----------

  /** The records of one player, in their order. */
  function RecordsOf(records: seq<Settlement>, p: PlayerId): seq<Settlement> {
    if records == [] then []
    else
      var n := |records| - 1;
      RecordsOf(records[..n], p) + if records[n].player == p then [records[n]] else []
  }

  /** The positions of the records of a player. */
  ghost function PlacesOf(records: seq<Settlement>, p: PlayerId): set<nat> {
    set i | 0 <= i < |records| && records[i].player == p
  }

  /** All records of the player and no others, each as often as it is recorded. */
  lemma {:induction false} RecordsOfPlayer(records: seq<Settlement>, p: PlayerId)
    ensures |RecordsOf(records, p)| == |PlacesOf(records, p)|
    ensures forall r :: multiset(RecordsOf(records, p))[r] == if r.player == p then multiset(records)[r] else 0
  {
    if records != [] {
      var n := |records| - 1;
      RecordsOfPlayer(records[..n], p);
      OnePlaceMore(records, p);
      forall r
        ensures multiset(RecordsOf(records, p))[r] == if r.player == p then multiset(records)[r] else 0
      {
        OneRecordMore(records, p, r);
      }
    }
  }

  lemma {:induction false} OnePlaceMore(records: seq<Settlement>, p: PlayerId)
    requires records != []
    ensures var n := |records| - 1;
      |PlacesOf(records, p)| == |PlacesOf(records[..n], p)| + if records[n].player == p then 1 else 0
  {
    var n := |records| - 1;
    assert PlacesOf(records, p) == PlacesOf(records[..n], p) + if records[n].player == p then {n} else {};
  }

  lemma {:induction false} OneRecordMore(records: seq<Settlement>, p: PlayerId, r: Settlement)
    requires records != []
    ensures var n := |records| - 1;
      && multiset(records)[r] == multiset(records[..n])[r] + (if records[n] == r then 1 else 0)
      && multiset(RecordsOf(records, p))[r] ==
           multiset(RecordsOf(records[..n], p))[r] + if records[n] == r && r.player == p then 1 else 0
  {
    var n := |records| - 1;
    assert records == records[..n] + [records[n]];
  }

  /** The sum of a stream of ints, which wraps around at every step. */
  function WrappedSum(records: seq<Settlement>): Int32 {
    if records == [] then 0
    else
      var n := |records| - 1;
      Wrap(WrappedSum(records[..n]) + records[n].change)
  }

  lemma {:induction false} WrappedMore(records: seq<Settlement>, r: Settlement)
    ensures WrappedSum(records + [r]) == Wrap(WrappedSum(records) + r.change)
  {
    assert (records + [r])[..|records|] == records;
  }

  lemma {:induction false} NothingWrapped()
    ensures WrappedSum([]) == Wrap(0) == 0
  {
  }

  lemma {:induction false} WrappedOnce(records: seq<Settlement>, p: PlayerId)
    ensures WrappedSum(RecordsOf(records, p)) == Wrap(Sum(records, p))
  {
    hide Wrap, WrappedSum;
    NothingWrapped();
    if records != [] {
      var n := |records| - 1;
      var own := RecordsOf(records[..n], p);
      WrappedOnce(records[..n], p);
      if records[n].player == p {
        WrappedMore(own, records[n]);
        WrapTwice(Sum(records[..n], p), records[n].change);
      } else {
        assert own + [] == own;
      }
    }
  }

  /** The wrapping sum of the statistics is the exact one: what the player has gained since its first login. */
  lemma {:induction false} StatsAreExact(l: Ledger, p: PlayerId)
    requires LedgerInv(l) && p in l.coins
    ensures WrappedSum(RecordsOf(l.records, p)) == Sum(l.records, p) == l.coins[p] - INITIAL_COINS
  {
    WrappedOnce(l.records, p);
  }
}
