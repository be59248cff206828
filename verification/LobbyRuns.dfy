/** Whole runs of the room manager: what is billed, and how often; how long a room can be played in. */
module LobbyRuns {
  import opened Lists
  import opened Deck
  import opened Rounds
  import opened RoundSteps
  import opened RoundRuns
  import opened Lobbies
  import opened LobbySteps
  import opened Settlements

  /** One call of a public method of the room manager. */
  datatype Event =
    | Match(p: PlayerId, now: int, draws: Draws)
    | Do(p: PlayerId, deed: Deed, now: int)
    | Online(p: PlayerId)
    | Offline(p: PlayerId, now: int)
    | Tick(now: int, random: nat -> Draws)
    | Idle(now: int)
    | Expiry(now: int)

  ghost function NextLobby(s: Lobby, e: Event): Lobby
    requires Inv(s)
  {
    match e
    case Match(p, now, draws) => Matched(s, p, now, draws)
    case Do(p, deed, now) => Done(s, p, deed, now)
    case Online(p) => WentOnline(s, p)
    case Offline(p, now) => WentOffline(s, p, now)
    case Tick(now, random) => Ticked(s, now, random)
    case Idle(now) => Dropped(s, IdleRooms(s, now))
    case Expiry(now) => Dropped(s, DesertedRooms(s, now))
  }

  /** The manager invariant survives every call. */
  lemma {:induction false} NextInv(s: Lobby, e: Event)
    requires Inv(s)
    ensures Inv(NextLobby(s, e))
  {
    match e
    case Match(p, now, draws) => MatchedInv(s, p, now, draws);
    case Do(p, deed, now) => DoneInv(s, p, deed, now);
    case Online(p) => PresenceInv(s, p, 0);
    case Offline(p, now) => PresenceInv(s, p, now);
    case Tick(now, random) => TickedInv(s, now, random, s.rooms.Keys);
    case Idle(now) => DroppedFromInv(s, IdleRooms(s, now));
    case Expiry(now) => DroppedFromInv(s, DesertedRooms(s, now));
  }

  // ---------- What is billed ----------

  /** The entries billed for one room. */
  datatype Bill = Bill(room: nat, entries: seq<Entry>)

  ghost predicate DeedEnds(s: Lobby, p: PlayerId, deed: Deed)
    requires Inv(s)
  {
    && Playing(s, p) && Accepted(RoundOf(s, p), Asked(s, p, deed))
    && After(RoundOf(s, p), Asked(s, p, deed)).phase == Settled
  }

  /** The rooms that a call settles: an ended play, ended timeouts, and deserted rooms with a landlord. */
  ghost function BilledRooms(s: Lobby, e: Event): set<nat>
    requires Inv(s)
  {
    RoundsAreValid(s);
    match e
    case Do(p, deed, _) => if DeedEnds(s, p, deed) then {s.placed[p]} else {}
    case Tick(now, random) => Ending(s, now, random, s.rooms.Keys)
    case Expiry(now) => set id | id in DesertedRooms(s, now) && id in s.rooms && HasLandlord(s.rooms[id])
    case _ => {}
  }

  /** The round is over because the seat has no cards left. */
  ghost predicate WonBy(r: Round, seat: nat) {
    r.phase == Settled && seat < |r.hands| && r.hands[seat] == []
  }

  /**
    The seat that decides the room: the one that has laid down its last card, or one
    that has lost by its long absence.
   */
  ghost predicate Decides(s: Lobby, e: Event, id: nat, seat: nat, lost: bool)
    requires Inv(s)
  {
    RoundsAreValid(s);
    match e
    case Do(p, deed, _) =>
      !lost && Playing(s, p) && s.placed[p] == id && WonBy(After(RoundOf(s, p), Asked(s, p, deed)), seat)
    case Tick(now, random) =>
      && !lost && id in s.rooms && s.rooms[id].round.Some?
      && WonBy(After(s.rooms[id].round.value, Expire(random(id))), seat)
    case Expiry(now) =>
      lost && id in s.rooms
      && exists p :: p in s.placed && s.placed[p] == id && LongGone(s, p, now) && seat == SeatOf(s.rooms[id].players, p)
    case _ => false
  }

  /** The entries of the bill pay the side that has won the room. */
  ghost predicate BillsRoom(s: Lobby, e: Event, b: Bill)
    requires Inv(s)
  {
    && b.room in s.rooms && HasLandlord(s.rooms[b.room])
    && var room := s.rooms[b.room];
    exists seat: nat, lost: bool ::
      && Decides(s, e, b.room, seat, lost)
      && b.entries == EntriesFor(room, room.round.value.landlord.value,
                                 (seat == room.round.value.landlord.value) != lost)
  }

  /** What a call may return as settlements: one bill for each settled room, in any order. */
  ghost predicate Pays(s: Lobby, e: Event, out: seq<Bill>)
    requires Inv(s)
  {
    && RoomsDiffer(out)
    && (forall i :: 0 <= i < |out| ==> out[i].room in BilledRooms(s, e))
    && (forall id :: id in BilledRooms(s, e) ==> exists i :: 0 <= i < |out| && out[i].room == id)
    && (forall i :: 0 <= i < |out| ==> BillsRoom(s, e, out[i]))
  }

  /** A deed that ends its round removes one room, whose landlord was chosen. */
  lemma {:induction false} DeedRemoves(s: Lobby, p: PlayerId, deed: Deed, now: int)
    requires Inv(s) && DeedEnds(s, p, deed)
    ensures s.placed[p] in s.rooms && HasLandlord(s.rooms[s.placed[p]])
    ensures Done(s, p, deed, now).rooms.Keys == s.rooms.Keys - {s.placed[p]}
    ensures Done(s, p, deed, now).nextId == s.nextId
  {
    assert Running(RoundOf(s, p));
    hide RoomOk, Moved;
  }

  lemma {:induction false} DeedLeaves(s: Lobby, p: PlayerId, deed: Deed, now: int)
    requires Inv(s) && !DeedEnds(s, p, deed)
    ensures Done(s, p, deed, now).rooms.Keys == s.rooms.Keys
    ensures Done(s, p, deed, now).nextId == s.nextId
  {
    hide RoomOk, Moved, Valid, Accepted, After;
  }

  lemma {:induction false} DoneGone(s: Lobby, p: PlayerId, deed: Deed, now: int)
    requires Inv(s)
    ensures forall id :: id in s.rooms ==>
      (id !in Done(s, p, deed, now).rooms <==> DeedEnds(s, p, deed) && id == s.placed[p])
    ensures Done(s, p, deed, now).rooms.Keys <= s.rooms.Keys
    ensures Done(s, p, deed, now).nextId == s.nextId
    ensures DeedEnds(s, p, deed) ==> s.placed[p] in s.rooms && HasLandlord(s.rooms[s.placed[p]])
  {
    hide Inv, Done, DeedEnds, HasLandlord;
    if DeedEnds(s, p, deed) {
      DeedRemoves(s, p, deed, now);
    } else {
      DeedLeaves(s, p, deed, now);
    }
  }

  lemma {:induction false} EndingHasLandlord(s: Lobby, now: int, random: nat -> Draws, id: nat)
    requires Inv(s) && RoundsValid(s) && id in Ending(s, now, random, s.rooms.Keys)
    ensures HasLandlord(s.rooms[id])
  {
    assert RoomOk(id, s.rooms[id]);
    DefaultAccepted(s.rooms[id].round.value, random(id));
  }

  lemma {:induction false} NoRoundNoLandlord(s: Lobby, now: int, id: nat)
    requires id in IdleRooms(s, now)
    ensures !HasLandlord(s.rooms[id])
  {
  }

  ghost predicate FateOfRooms(s: Lobby, s1: Lobby, billed: set<nat>) {
    && (forall id :: id in billed ==> id in s.rooms && id !in s1.rooms)
    && (forall id :: id in s.rooms && id !in s1.rooms ==> (id in billed <==> HasLandlord(s.rooms[id])))
    && (forall id :: id in s1.rooms ==> id in s.rooms || id >= s.nextId)
    && s1.nextId >= s.nextId
  }

  lemma {:induction false} MatchFate(s: Lobby, p: PlayerId, now: int, draws: Draws)
    requires Inv(s)
    ensures FateOfRooms(s, Matched(s, p, now, draws), {})
  {
    hide RoomOk, Moved, HasLandlord;
  }

  lemma {:induction false} DeedFate(s: Lobby, p: PlayerId, deed: Deed, now: int)
    requires Inv(s)
    ensures FateOfRooms(s, Done(s, p, deed, now), BilledRooms(s, Do(p, deed, now)))
  {
    hide Inv, Done, DeedEnds, HasLandlord;
    DoneGone(s, p, deed, now);
  }

  lemma {:induction false} TicksFate(s: Lobby, now: int, random: nat -> Draws)
    requires Inv(s)
    ensures RoundsValid(s) && FateOfRooms(s, Ticked(s, now, random), Ending(s, now, random, s.rooms.Keys))
  {
    RoundsAreValid(s);
    forall id | id in Ending(s, now, random, s.rooms.Keys)
      ensures HasLandlord(s.rooms[id])
    {
      EndingHasLandlord(s, now, random, id);
    }
    hide Inv, RoundsValid, HasLandlord, Ends;
  }

  lemma {:induction false} DropFate(s: Lobby, gone: set<nat>)
    requires Inv(s) && forall id :: id in gone ==> id in s.rooms
    ensures FateOfRooms(s, Dropped(s, gone), set id | id in gone && id in s.rooms && HasLandlord(s.rooms[id]))
  {
    hide Inv, HasLandlord;
  }

  lemma {:induction false} IdleFate(s: Lobby, now: int)
    requires Inv(s)
    ensures FateOfRooms(s, Dropped(s, IdleRooms(s, now)), {})
  {
    DropFate(s, IdleRooms(s, now));
    forall id | id in IdleRooms(s, now)
      ensures !HasLandlord(s.rooms[id])
    {
      NoRoundNoLandlord(s, now, id);
    }
    hide IdleRooms, Inv, Dropped;
    assert (set id | id in IdleRooms(s, now) && id in s.rooms && HasLandlord(s.rooms[id])) == {};
  }

  lemma {:induction false} ExpiryFate(s: Lobby, now: int)
    requires Inv(s)
    ensures FateOfRooms(s, Dropped(s, DesertedRooms(s, now)), BilledRooms(s, Expiry(now)))
  {
    hide RoomOk, HasLandlord, Dropped;
    assert forall p :: p in s.offline ==> s.placed[p] in s.rooms;
    DropFate(s, DesertedRooms(s, now));
  }

  /**
    A room leaves the manager with a bill exactly when its landlord was chosen,
    and a billed room is gone after the call. Numbers of new rooms are fresh.
   */
  lemma {:induction false} BilledIffGone(s: Lobby, e: Event)
    requires Inv(s)
    ensures FateOfRooms(s, NextLobby(s, e), BilledRooms(s, e))
  {
    hide Inv, HasLandlord, Dropped, Ticked, Matched, Ending, Done, IdleRooms, DesertedRooms, DeedEnds;
    RoundsAreValid(s);
    match e
    case Match(p, now, draws) => MatchFate(s, p, now, draws);
    case Do(p, deed, now) => DeedFate(s, p, deed, now);
    case Online(_) =>
    case Offline(_, _) =>
    case Tick(now, random) => TicksFate(s, now, random);
    case Idle(now) => IdleFate(s, now);
    case Expiry(now) => ExpiryFate(s, now);
  }

  // ---------- Runs ----------

  datatype Record = Record(e: Event, out: seq<Bill>)

  /** A run from `s`: calls in any order, each with the bills it returned. */
  ghost predicate IsRun(s: Lobby, trace: seq<Record>)
    requires Inv(s)
    decreases |trace|
  {
    trace == [] ||
    (NextInv(s, trace[0].e);
     Pays(s, trace[0].e, trace[0].out) && IsRun(NextLobby(s, trace[0].e), trace[1..]))
  }

  ghost function EndOf(s: Lobby, trace: seq<Record>): Lobby
    requires Inv(s)
    decreases |trace|
  {
    if trace == [] then s
    else
      NextInv(s, trace[0].e);
      EndOf(NextLobby(s, trace[0].e), trace[1..])
  }

  ghost function AllBills(trace: seq<Record>): seq<Bill> {
    if trace == [] then [] else trace[0].out + AllBills(trace[1..])
  }

  /** The manager invariant holds at the end of every run. */
  lemma {:induction false} RunInv(s: Lobby, trace: seq<Record>)
    requires Inv(s)
    ensures Inv(EndOf(s, trace))
    decreases |trace|
  {
    if trace != [] {
      NextInv(s, trace[0].e);
      RunInv(NextLobby(s, trace[0].e), trace[1..]);
    }
  }

  /** In every run of the gateway the five fields of the manager agree after every call. */
  lemma {:induction false} EveryLobby(trace: seq<Record>)
    ensures Inv(EndOf(NEW_LOBBY, trace))
  {
    RunInv(NEW_LOBBY, trace);
  }

  /** Three entries under the room's number, for three different players, that sum to zero. */
  ghost predicate BillOk(b: Bill) {
    && |b.entries| == 3 && Total(b.entries) == 0
    && (forall i :: 0 <= i < 3 ==> b.entries[i].gameId == Decimal(b.room) && -200 <= b.entries[i].coins <= 200)
    && (forall i, j :: 0 <= i < j < 3 ==> b.entries[i].player != b.entries[j].player)
  }

  /** The bill pays the side that has decided the room, and charges the other side. */
  ghost predicate FairBill(s: Lobby, e: Event, b: Bill)
    requires Inv(s)
  {
    && b.room in s.rooms && HasLandlord(s.rooms[b.room])
    && exists seat: nat, lost: bool ::
         Decides(s, e, b.room, seat, lost)
         && PaysSide(s.rooms[b.room], s.rooms[b.room].round.value.landlord.value, seat, lost, b.entries)
  }

  lemma {:induction false} RoomBillOk(s: Lobby, e: Event, b: Bill)
    requires Inv(s) && BillsRoom(s, e, b)
    ensures BillOk(b) && FairBill(s, e, b)
  {
    hide Inv, Decides, RoomOk;
    var room := s.rooms[b.room];
    FullRoom(s, b.room);
    var landlord := room.round.value.landlord.value;
    var seat: nat, lost: bool :| Decides(s, e, b.room, seat, lost)
      && b.entries == EntriesFor(room, landlord, (seat == landlord) != lost);
    BillBalances(room, landlord, seat, lost);
  }

  lemma {:induction false} FullRoom(s: Lobby, id: nat)
    requires Inv(s) && id in s.rooms && HasLandlord(s.rooms[id])
    ensures var room := s.rooms[id];
      && room.id == id && |room.players| == 3 && NoRepeats(room.players)
      && room.round.value.landlord.value < 3
  {
    assert RoomOk(id, s.rooms[id]);
  }

  ghost predicate RoomsDiffer(bills: seq<Bill>) {
    forall i, j :: 0 <= i < j < |bills| ==> bills[i].room != bills[j].room
  }

  /** Every bill of the run pays the side that has won its room, or the side against a player long absent. */
  ghost predicate FairRun(s: Lobby, trace: seq<Record>)
    requires Inv(s)
    decreases |trace|
  {
    trace == [] ||
    (NextInv(s, trace[0].e);
     && (forall b :: b in trace[0].out ==> FairBill(s, trace[0].e, b))
     && FairRun(NextLobby(s, trace[0].e), trace[1..]))
  }

  lemma {:induction false} RunIsFair(s: Lobby, trace: seq<Record>)
    requires Inv(s) && IsRun(s, trace)
    ensures FairRun(s, trace)
    decreases |trace|
  {
    hide BillsRoom, FairBill, NextLobby, BilledRooms, Inv;
    if trace != [] {
      NextInv(s, trace[0].e);
      forall b | b in trace[0].out
        ensures FairBill(s, trace[0].e, b)
      {
        RoomBillOk(s, trace[0].e, b);
      }
      RunIsFair(NextLobby(s, trace[0].e), trace[1..]);
    }
  }

  /** Every bill of a run belongs to a room that exists now or will be opened later, and is a proper bill. */
  lemma {:induction false} BillsOfRun(s: Lobby, trace: seq<Record>)
    requires Inv(s) && IsRun(s, trace)
    ensures forall i :: 0 <= i < |AllBills(trace)| ==>
      BillOk(AllBills(trace)[i]) && (AllBills(trace)[i].room in s.rooms || AllBills(trace)[i].room >= s.nextId)
    ensures RoomsDiffer(AllBills(trace))
    decreases |trace|
  {
    if trace != [] {
      var e, out, rest := trace[0].e, trace[0].out, AllBills(trace[1..]);
      NextInv(s, e);
      BilledIffGone(s, e);
      BillsOfRun(NextLobby(s, e), trace[1..]);
      hide NextLobby, BilledRooms;
      assert AllBills(trace) == out + rest;
      forall i | 0 <= i < |out|
        ensures BillOk(out[i]) && out[i].room in s.rooms && out[i].room !in NextLobby(s, e).rooms
        ensures out[i].room < s.nextId
      {
        RoomBillOk(s, e, out[i]);
      }
      FreshBills(out, rest);
    }
  }

  lemma {:induction false} FreshBills(out: seq<Bill>, rest: seq<Bill>)
    requires RoomsDiffer(out) && RoomsDiffer(rest)
    requires forall i, j :: 0 <= i < |out| && 0 <= j < |rest| ==> out[i].room != rest[j].room
    ensures RoomsDiffer(out + rest)
  {
    var all := out + rest;
    forall i, j | 0 <= i < j < |all|
      ensures all[i].room != all[j].room
    {
      assert all[i] == if i < |out| then out[i] else rest[i - |out|];
      assert all[j] == if j < |out| then out[j] else rest[j - |out|];
    }
  }

  ghost function EntriesOf(bills: seq<Bill>): seq<Entry> {
    if bills == [] then [] else bills[0].entries + EntriesOf(bills[1..])
  }

  ghost predicate SettledOnce(entries: seq<Entry>) {
    forall i, j :: 0 <= i < j < |entries| ==>
      entries[i].gameId != entries[j].gameId || entries[i].player != entries[j].player
  }

  ghost predicate AllSmall(entries: seq<Entry>) {
    forall i :: 0 <= i < |entries| ==> -200 <= entries[i].coins <= 200
  }

  lemma {:induction false} TotalAppend(a: seq<Entry>, b: seq<Entry>)
    ensures Total(a + b) == Total(a) + Total(b)
  {
    if a == [] {
      assert a + b == b;
    } else {
      assert (a + b)[1..] == a[1..] + b;
      TotalAppend(a[1..], b);
    }
  }

  lemma {:induction false} EntryHasBill(bills: seq<Bill>, i: nat) returns (k: nat)
    requires i < |EntriesOf(bills)|
    requires forall j :: 0 <= j < |bills| ==> BillOk(bills[j])
    ensures k < |bills| && EntriesOf(bills)[i].gameId == Decimal(bills[k].room)
    ensures -200 <= EntriesOf(bills)[i].coins <= 200
  {
    if i < |bills[0].entries| {
      k := 0;
    } else {
      var k1 := EntryHasBill(bills[1..], i - |bills[0].entries|);
      k := k1 + 1;
    }
  }

  /** Bills of different rooms never settle a game for a player twice, and together sum to zero. */
  lemma {:induction false} BillsSettleOnce(bills: seq<Bill>)
    requires RoomsDiffer(bills)
    requires forall j :: 0 <= j < |bills| ==> BillOk(bills[j])
    ensures SettledOnce(EntriesOf(bills)) && Total(EntriesOf(bills)) == 0
    ensures AllSmall(EntriesOf(bills))
  {
    forall i | 0 <= i < |EntriesOf(bills)|
      ensures -200 <= EntriesOf(bills)[i].coins <= 200
    {
      var k := EntryHasBill(bills, i);
    }
    if bills != [] {
      var first, rest := bills[0], bills[1..];
      BillsSettleOnce(rest);
      TotalAppend(first.entries, EntriesOf(rest));
      var all := EntriesOf(bills);
      forall i, j | 0 <= i < j < |all|
        ensures all[i].gameId != all[j].gameId || all[i].player != all[j].player
      {
        if i >= 3 {
          assert all[i] == EntriesOf(rest)[i - 3] && all[j] == EntriesOf(rest)[j - 3];
        } else if j >= 3 {
          var k := EntryHasBill(rest, j - 3);
          if all[i].gameId == all[j].gameId {
            DecimalInjective(first.room, rest[k].room);
          }
        }
      }
    }
  }

  /**
    In every run of the gateway, whatever the order of calls, of expiries and of
    hash maps: no game is settled twice for a player, every settled game has one
    entry for each of three players, and all entries sum to zero.
   */
  lemma {:induction false} ExactlyOnce(trace: seq<Record>)
    requires IsRun(NEW_LOBBY, trace)
    ensures FairRun(NEW_LOBBY, trace)
    ensures SettledOnce(EntriesOf(AllBills(trace)))
    ensures Total(EntriesOf(AllBills(trace))) == 0 && AllSmall(EntriesOf(AllBills(trace)))
    ensures RoomsDiffer(AllBills(trace))
    ensures forall i :: 0 <= i < |AllBills(trace)| ==> BillOk(AllBills(trace)[i])
  {
    RunIsFair(NEW_LOBBY, trace);
    BillsOfRun(NEW_LOBBY, trace);
    BillsSettleOnce(AllBills(trace));
  }

  // ---------- How long a room is played in ----------

  ghost predicate InPlay(s: Lobby, id: nat) {
    id in s.rooms && s.rooms[id].round.Some? && s.rooms[id].round.value.phase == PlayCards
  }

  lemma {:induction false} InPlayRunning(s: Lobby, id: nat)
    requires Inv(s) && InPlay(s, id)
    ensures RoomOk(id, s.rooms[id]) && Valid(s.rooms[id].round.value)
  {
    assert RoomOk(id, s.rooms[id]);
  }

  ghost function PlayMeasure(s: Lobby, id: nat): nat
    requires Inv(s) && InPlay(s, id)
  {
    InPlayRunning(s, id);
    Measure(s.rooms[id].round.value)
  }

  /** The sweep `e` finds the deadline of the room passed. */
  ghost predicate Enforces(s: Lobby, e: Event, id: nat) {
    e.Tick? && id in s.rooms && Overdue(s.rooms[id], e.now)
  }

  /** From `room` to `room1` the round went on by nothing or by accepted steps. */
  ghost predicate GoesOn(room: Room, room1: Room, step: bool) {
    && room.round.Some? && Valid(room.round.value)
    && room1.round.Some? && Valid(room1.round.value) && room1.round.value.phase == PlayCards
    && Measure(room1.round.value) <= Measure(room.round.value)
    && (step ==> Measure(room1.round.value) < Measure(room.round.value))
  }

  lemma {:induction false} StepGoesOn(room: Room, a: Action, now: int)
    requires room.round.Some? && Valid(room.round.value) && room.round.value.phase == PlayCards
    requires Accepted(room.round.value, a) && After(room.round.value, a).phase != Settled
    ensures GoesOn(room, Moved(room, After(room.round.value, a), now), true)
  {
    AcceptedAdvances(room.round.value, a);
  }

  lemma {:induction false} DoFate(s: Lobby, p: PlayerId, deed: Deed, now: int, id: nat)
    requires Inv(s) && InPlay(s, id) && id in Done(s, p, deed, now).rooms
    ensures GoesOn(s.rooms[id], Done(s, p, deed, now).rooms[id], false)
  {
    InPlayRunning(s, id);
    DoneGone(s, p, deed, now);
    hide RoomOk, Valid, Moved;
    if Playing(s, p) && s.placed[p] == id && Accepted(RoundOf(s, p), Asked(s, p, deed)) {
      StepGoesOn(s.rooms[id], Asked(s, p, deed), now);
      hide Accepted, After;
    }
  }

  lemma {:induction false} TickFate(s: Lobby, now: int, random: nat -> Draws, id: nat)
    requires Inv(s) && InPlay(s, id) && id in Ticked(s, now, random).rooms
    ensures GoesOn(s.rooms[id], Ticked(s, now, random).rooms[id], Overdue(s.rooms[id], now))
  {
    InPlayRunning(s, id);
    RoundsAreValid(s);
    hide RoomOk, Valid, Moved, RoundsValid;
    if Overdue(s.rooms[id], now) {
      var a := Expire(random(id));
      assert Accepted(s.rooms[id].round.value, a);
      assert After(s.rooms[id].round.value, a).phase != Settled;
      StepGoesOn(s.rooms[id], a, now);
      hide Accepted, After;
    }
  }

  lemma {:induction false} OtherFate(s: Lobby, e: Event, id: nat)
    requires Inv(s) && InPlay(s, id) && !e.Do? && !e.Tick? && id in NextLobby(s, e).rooms
    ensures NextLobby(s, e).rooms[id] == s.rooms[id]
  {
    hide RoomOk, Valid;
  }

  /**
    A room in play goes on or is gone. No call raises its measure, and a sweep
    that finds its deadline passed lowers it.
   */
  lemma {:induction false} RoomFate(s: Lobby, e: Event, id: nat)
    requires Inv(s) && InPlay(s, id)
    ensures Inv(NextLobby(s, e))
    ensures id !in NextLobby(s, e).rooms || InPlay(NextLobby(s, e), id)
    ensures id in NextLobby(s, e).rooms ==>
      && PlayMeasure(NextLobby(s, e), id) <= PlayMeasure(s, id)
      && (Enforces(s, e, id) ==> PlayMeasure(NextLobby(s, e), id) < PlayMeasure(s, id))
  {
    NextInv(s, e);
    InPlayRunning(s, id);
    if id in NextLobby(s, e).rooms {
      match e
      case Do(p, deed, now) => DoFate(s, p, deed, now, id);
      case Tick(now, random) => TickFate(s, now, random, id);
      case _ => OtherFate(s, e, id);
    }
    hide RoomOk, Valid, Measure, Inv;
  }

  /** How many sweeps of the run enforce the deadline of the room. */
  ghost function EnforcedIn(s: Lobby, trace: seq<Record>, id: nat): nat
    requires Inv(s)
    decreases |trace|
  {
    if trace == [] then 0
    else
      NextInv(s, trace[0].e);
      (if Enforces(s, trace[0].e, id) then 1 else 0) + EnforcedIn(NextLobby(s, trace[0].e), trace[1..], id)
  }

  /** A room that is gone stays gone. */
  lemma {:induction false} GoneForever(s: Lobby, trace: seq<Record>, id: nat)
    requires Inv(s) && id !in s.rooms && id < s.nextId
    ensures EnforcedIn(s, trace, id) == 0 && id !in EndOf(s, trace).rooms
    decreases |trace|
  {
    if trace != [] {
      NextInv(s, trace[0].e);
      BilledIffGone(s, trace[0].e);
      GoneForever(NextLobby(s, trace[0].e), trace[1..], id);
    }
  }

  /**
    Whatever the players do, the deadline of a room in play is enforced less often
    than its measure, at most 154 times.
   */
  lemma {:induction false} RoomIsBounded(s: Lobby, trace: seq<Record>, id: nat)
    requires Inv(s) && InPlay(s, id)
    ensures EnforcedIn(s, trace, id) + 8 <= PlayMeasure(s, id)
    ensures id in EndOf(s, trace).rooms ==> EnforcedIn(s, trace, id) + 9 <= PlayMeasure(s, id)
    decreases |trace|
  {
    InPlayRunning(s, id);
    var r := s.rooms[id].round.value;
    PlayingFloor(r);
    if trace != [] {
      var s1 := NextLobby(s, trace[0].e);
      RoomFate(s, trace[0].e, id);
      if id in s1.rooms {
        RoomIsBounded(s1, trace[1..], id);
      } else {
        BilledIffGone(s, trace[0].e);
        GoneForever(s1, trace[1..], id);
      }
    }
  }

  lemma {:induction false} PlayingFloor(r: Round)
    requires Valid(r) && r.phase == PlayCards
    ensures 9 <= Measure(r) <= 164
  {
    assert forall s :: 0 <= s < 3 ==> |r.hands[s]| >= 1;
  }

  /**
    After the choice of its landlord a room is gone at the latest when its deadline
    was enforced for the 154th time.
   */
  lemma {:induction false} FreshRoomIsBounded(s: Lobby, trace: seq<Record>, id: nat)
    requires Inv(s) && InPlay(s, id) && PlayBegins(s.rooms[id].round.value)
    ensures EnforcedIn(s, trace, id) <= 154
    ensures EnforcedIn(s, trace, id) == 154 ==> id !in EndOf(s, trace).rooms
  {
    RoomIsBounded(s, trace, id);
  }
}
