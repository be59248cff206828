/** The bill of a room: one entry for each player, and the decimal room number as game id. */
module Settlements {
  import opened Lobbies

  // ---------- std::to_string ----------

  const DIGITS := "0123456789"

  function Decimal(n: nat): string {
    if n < 10 then [DIGITS[n]] else Decimal(n / 10) + [DIGITS[n % 10]]
  }

  lemma {:induction false} DigitsDiffer(a: nat, b: nat)
    requires a < 10 && b < 10 && DIGITS[a] == DIGITS[b]
    ensures a == b
  {
  }

  lemma {:induction false} DecimalNotEmpty(n: nat)
    ensures |Decimal(n)| >= 1
    ensures n >= 10 ==> |Decimal(n)| >= 2
  {
    if n >= 10 {
      DecimalNotEmpty(n / 10);
    }
  }

  /** Different numbers are printed differently. */
  lemma {:induction false} DecimalInjective(a: nat, b: nat)
    requires Decimal(a) == Decimal(b)
    ensures a == b
  {
    DecimalNotEmpty(a);
    DecimalNotEmpty(b);
    var last := Decimal(a)[|Decimal(a)| - 1];
    assert last == DIGITS[a % 10] == DIGITS[b % 10];
    DigitsDiffer(a % 10, b % 10);
    if a >= 10 {
      assert Decimal(a)[..|Decimal(a)| - 1] == Decimal(a / 10);
      assert Decimal(b)[..|Decimal(b)| - 1] == Decimal(b / 10);
      DecimalInjective(a / 10, b / 10);
    }
  }

  /** The number that a string of digits stands for. */
  function ValueOf(digits: string): int {
    if digits == "" then 0 else 10 * ValueOf(digits[..|digits| - 1]) + (digits[|digits| - 1] as int - '0' as int)
  }

  /** The printed number consists of digits, without a leading zero, and stands for the number. */
  lemma {:induction false} DecimalValue(n: nat)
    ensures ValueOf(Decimal(n)) == n
    ensures forall i :: 0 <= i < |Decimal(n)| ==> '0' <= Decimal(n)[i] <= '9'
    ensures |Decimal(n)| >= 1 && (n > 0 ==> Decimal(n)[0] != '0')
  {
    assert forall k: nat :: k < 10 ==> DIGITS[k] as int == '0' as int + k;
    if n >= 10 {
      DecimalValue(n / 10);
      assert Decimal(n)[..|Decimal(n)| - 1] == Decimal(n / 10);
    } else {
      assert Decimal(n)[..0] == "";
    }
  }

  // ---------- Entries ----------

  datatype Entry = Entry(gameId: string, player: PlayerId, coins: int, result: string)

  function EntryFor(room: Room, landlord: nat, landlordWon: bool, seat: nat): Entry
    requires seat < |room.players|
  {
    var isLandlord := seat == landlord;
    var won := isLandlord == landlordWon;
    Entry(Decimal(room.id), room.players[seat],
          if isLandlord then (if won then 200 else -200) else (if won then 100 else -100),
          if won then "WIN" else "LOSE")
  }

  ghost function EntriesFor(room: Room, landlord: nat, landlordWon: bool): (entries: seq<Entry>)
    ensures |entries| == |room.players|
  {
    seq(|room.players|, seat requires 0 <= seat < |room.players| => EntryFor(room, landlord, landlordWon, seat))
  }

  function Total(entries: seq<Entry>): int {
    if entries == [] then 0 else entries[0].coins + Total(entries[1..])
  }

  /** The landlord plays alone; the two others are one side. */
  predicate SameSide(landlord: nat, a: nat, b: nat) {
    (a == landlord) == (b == landlord)
  }

  /**
    One entry for each seat of the room: 200 coins for the landlord, 100 for the
    others, as a gain for the side of `seat` and a loss for the other side, or the
    other way round if that side has lost.
   */
  ghost predicate PaysSide(room: Room, landlord: nat, seat: nat, lost: bool, entries: seq<Entry>) {
    && |entries| == |room.players| == 3
    && forall i :: 0 <= i < 3 ==>
         && entries[i].gameId == Decimal(room.id) && entries[i].player == room.players[i]
         && var gains := SameSide(landlord, i, seat) != lost;
            && entries[i].coins == (if gains then 1 else -1) * (if i == landlord then 200 else 100)
            && entries[i].result == (if gains then "WIN" else "LOSE")
  }

  /**
    The entries of a full room sum to zero and pay the side of the seat that has
    won, or the side against the one that has lost.
   */
  lemma {:induction false} BillBalances(room: Room, landlord: nat, seat: nat, lost: bool)
    requires |room.players| == 3 && landlord < 3
    ensures var entries := EntriesFor(room, landlord, (seat == landlord) != lost);
      Total(entries) == 0 && PaysSide(room, landlord, seat, lost, entries)
  {
    var entries := EntriesFor(room, landlord, (seat == landlord) != lost);
    assert entries == [entries[0], entries[1], entries[2]];
    TotalOfThree(entries[0], entries[1], entries[2]);
  }

  lemma {:induction false} TotalOfThree(a: Entry, b: Entry, c: Entry)
    ensures Total([a, b, c]) == a.coins + b.coins + c.coins
  {
    assert [a, b, c][1..] == [b, c] && [b, c][1..] == [c] && [c][1..] == [];
    assert Total([c]) == c.coins;
    assert Total([b, c]) == b.coins + c.coins;
  }

  /** The three loops that build settlements are the same. */
  method Bill(room: Room, landlord: nat, landlordWon: bool) returns (entries: seq<Entry>)
    ensures entries == EntriesFor(room, landlord, landlordWon)
  {
    entries := [];
    for seat := 0 to |room.players|
      invariant entries == EntriesFor(room, landlord, landlordWon)[..seat]
    {
      entries := entries + [EntryFor(room, landlord, landlordWon, seat)];
    }
  }
}
