/** The settlements that the methods of the room manager return are the bills of the run model. */
module ManagerBills {
  import opened Lists
  import opened Deck
  import opened Rounds
  import opened RoundSteps
  import opened Lobbies
  import opened LobbySteps
  import opened Settlements
  import opened ManagerReplies
  import opened RoomManagers
  import opened LobbyRuns

  // ---------- Plays ----------

  /** The bill in the reply to a play. */
  ghost function PlayBills(s: Lobby, p: PlayerId, deed: Deed): seq<Bill>
    requires Inv(s)
  {
    var reply := PlayReply(s, p, deed);
    if reply.None? || reply.value.settlements == [] then [] else [Bill(s.placed[p], reply.value.settlements)]
  }

  /** A round that is over bills its room for the seat that has no cards left. */
  lemma {:induction false} FinalEntriesBill(s: Lobby, e: Event, id: nat, r1: Round)
    requires Inv(s) && id in s.rooms && HasLandlord(s.rooms[id]) && RoomOk(id, s.rooms[id])
    requires Valid(r1) && r1.landlord == s.rooms[id].round.value.landlord
    requires r1.phase == Settled && WonBy(r1, r1.seat) ==> Decides(s, e, id, r1.seat, false)
    ensures FinalEntries(s.rooms[id], r1) != [] <==> r1.phase == Settled
    ensures r1.phase == Settled ==> BillsRoom(s, e, Bill(id, FinalEntries(s.rooms[id], r1)))
  {
    hide Inv, Decides;
    var room := s.rooms[id];
    if r1.phase == Settled {
      assert WonBy(r1, r1.seat);
      assert |room.players| == 3;
      assert FinalEntries(room, r1) == EntriesFor(room, r1.landlord.value, (r1.seat == r1.landlord.value) != false);
    }
  }

  lemma {:induction false} ReplyBill(s: Lobby, p: PlayerId, deed: Deed, now: int)
    requires Inv(s) && Playing(s, p)
    ensures var reply := PlayReply(s, p, deed);
      && reply.Some?
      && (reply.value.settlements != [] <==> DeedEnds(s, p, deed))
      && (reply.value.settlements != [] ==>
            BillsRoom(s, Do(p, deed, now), Bill(s.placed[p], reply.value.settlements)))
  {
    assert RoomOk(s.placed[p], RoomOf(s, p));
    var r, a := RoundOf(s, p), Asked(s, p, deed);
    StepValid(r, a);
    if Accepted(r, a) && r.phase == PlayCards {
      AcceptedAdvances(r, a);
      hide Valid, Inv, Accepted, RoomOk, BillsRoom;
      FinalEntriesBill(s, Do(p, deed, now), s.placed[p], After(r, a));
    } else {
      NotSettledYet(s, p, deed);
      hide Valid, Inv, Accepted, RoomOk, BillsRoom;
    }
  }

  lemma {:induction false} NotSettledYet(s: Lobby, p: PlayerId, deed: Deed)
    requires Inv(s) && Playing(s, p)
    requires !(Accepted(RoundOf(s, p), Asked(s, p, deed)) && RoundOf(s, p).phase == PlayCards)
    ensures After(RoundOf(s, p), Asked(s, p, deed)).phase != Settled
  {
  }

  /**
    A reply carries a bill exactly when the play was accepted and ended the round,
    and the bill is for the side that has won.
   */
  lemma {:induction false} PlayPays(s: Lobby, p: PlayerId, deed: Deed, now: int)
    requires Inv(s)
    ensures Pays(s, Do(p, deed, now), PlayBills(s, p, deed))
  {
    hide Inv, PlayReply, BillsRoom, DeedEnds;
    if Playing(s, p) {
      ReplyBill(s, p, deed, now);
      DoneGone(s, p, deed, now);
      var out := PlayBills(s, p, deed);
      assert out == [] || out == [Bill(s.placed[p], PlayReply(s, p, deed).value.settlements)];
      if DeedEnds(s, p, deed) {
        assert BilledRooms(s, Do(p, deed, now)) == {s.placed[p]} && out[0].room == s.placed[p];
      }
    } else {
      NoDeed(s, p, deed);
    }
  }

  lemma {:induction false} NoDeed(s: Lobby, p: PlayerId, deed: Deed)
    requires Inv(s) && !Playing(s, p)
    ensures !DeedEnds(s, p, deed) && PlayBills(s, p, deed) == []
  {
  }

  // ---------- Sweeps ----------

  /** The bills among the actions of a sweep. */
  ghost function TickBills(ids: seq<nat>, actions: seq<TimeoutAction>): seq<Bill>
    requires |ids| == |actions|
  {
    if ids == [] then []
    else
      var n := |ids| - 1;
      TickBills(ids[..n], actions[..n])
      + if actions[n].settlements == [] then [] else [Bill(ids[n], actions[n].settlements)]
  }

  ghost predicate SettledBy(ids: seq<nat>, actions: seq<TimeoutAction>, i: nat, b: Bill)
    requires |ids| == |actions|
  {
    i < |ids| && actions[i].settlements != [] && b == Bill(ids[i], actions[i].settlements)
  }

  lemma {:induction false} TickBillsSound(ids: seq<nat>, actions: seq<TimeoutAction>, k: nat) returns (i: nat)
    requires |ids| == |actions| && k < |TickBills(ids, actions)|
    ensures SettledBy(ids, actions, i, TickBills(ids, actions)[k])
  {
    var n := |ids| - 1;
    if k < |TickBills(ids[..n], actions[..n])| {
      i := TickBillsSound(ids[..n], actions[..n], k);
    } else {
      i := n;
    }
  }

  lemma {:induction false} TickBillsComplete(ids: seq<nat>, actions: seq<TimeoutAction>, i: nat) returns (k: nat)
    requires |ids| == |actions| && i < |ids| && actions[i].settlements != []
    ensures k < |TickBills(ids, actions)| && SettledBy(ids, actions, i, TickBills(ids, actions)[k])
  {
    var n := |ids| - 1;
    if i < n {
      k := TickBillsComplete(ids[..n], actions[..n], i);
    } else {
      k := |TickBills(ids[..n], actions[..n])|;
    }
  }

  lemma {:induction false} TickBillsDiffer(ids: seq<nat>, actions: seq<TimeoutAction>)
    requires |ids| == |actions| && NoRepeats(ids)
    ensures RoomsDiffer(TickBills(ids, actions))
  {
    if ids != [] {
      var n := |ids| - 1;
      var front, all := TickBills(ids[..n], actions[..n]), TickBills(ids, actions);
      TickBillsDiffer(ids[..n], actions[..n]);
      forall k | 0 <= k < |front|
        ensures front[k].room != ids[n]
      {
        var i := TickBillsSound(ids[..n], actions[..n], k);
      }
    }
  }

  lemma {:induction false} TimeoutBill(s: Lobby, now: int, random: nat -> Draws, id: nat)
    requires Inv(s) && RoundsValid(s) && id in s.rooms && Overdue(s.rooms[id], now)
    ensures RoomOk(id, s.rooms[id])
    ensures var action := TimeoutReply(s.rooms[id], random(id));
      && (action.settlements != [] <==> id in Ending(s, now, random, s.rooms.Keys))
      && (action.settlements != [] ==> BillsRoom(s, Tick(now, random), Bill(id, action.settlements)))
  {
    assert RoomOk(id, s.rooms[id]);
    StepValid(s.rooms[id].round.value, Expire(random(id)));
    if s.rooms[id].round.value.phase == PlayCards {
      PlayTimeoutBill(s, now, random, id);
    } else {
      NotSettledByCall(s.rooms[id].round.value, random(id));
    }
    hide Valid, Inv, RoomOk, BillsRoom, RoundsValid, After, Accepted;
  }

  lemma {:induction false} PlayTimeoutBill(s: Lobby, now: int, random: nat -> Draws, id: nat)
    requires Inv(s) && id in s.rooms && RoomOk(id, s.rooms[id])
    requires s.rooms[id].round.Some? && s.rooms[id].round.value.phase == PlayCards
    ensures var room, r1 := s.rooms[id], After(s.rooms[id].round.value, Expire(random(id)));
      && Valid(r1)
      && (FinalEntries(room, r1) != [] <==> r1.phase == Settled)
      && (r1.phase == Settled ==> BillsRoom(s, Tick(now, random), Bill(id, FinalEntries(room, r1))))
  {
    var r, a := s.rooms[id].round.value, Expire(random(id));
    StepValid(r, a);
    DefaultAccepted(r, random(id));
    AcceptedAdvances(r, a);
    assert r.landlord.Some?;
    hide Valid, Inv, Accepted, RoomOk, BillsRoom, After;
    FinalEntriesBill(s, Tick(now, random), id, After(r, a));
  }

  lemma {:induction false} NotSettledByCall(r: Round, draws: Draws)
    requires Valid(r) && r.phase == CallLandlord
    ensures After(r, Expire(draws)).phase != Settled
  {
  }

  lemma {:induction false} ActionBill(
    s: Lobby, now: int, random: nat -> Draws, ids: seq<nat>, actions: seq<TimeoutAction>, i: nat)
    requires Inv(s) && RoundsValid(s) && RoomManager.ListsTimeouts(s, now, random, s.rooms.Keys, ids, actions)
    requires i < |ids|
    ensures ids[i] in s.rooms
    ensures actions[i].settlements != [] <==> ids[i] in Ending(s, now, random, s.rooms.Keys)
    ensures actions[i].settlements != [] ==> BillsRoom(s, Tick(now, random), Bill(ids[i], actions[i].settlements))
  {
    hide BillsRoom, Ending;
    assert ids[i] in ids;
    TimeoutBill(s, now, random, ids[i]);
  }

  /** The actions returned by a sweep settle exactly the rooms that the sweep ends. */
  lemma {:induction false} TickPays(
    s: Lobby, now: int, random: nat -> Draws, ids: seq<nat>, actions: seq<TimeoutAction>)
    requires Inv(s) && RoomManager.ListsTimeouts(s, now, random, s.rooms.Keys, ids, actions)
    ensures Pays(s, Tick(now, random), TickBills(ids, actions))
  {
    RoundsAreValid(s);
    var ending := Ending(s, now, random, s.rooms.Keys);
    assert forall id :: id in ending ==> id in ids;
    assert BilledRooms(s, Tick(now, random)) == ending;
    hide Inv, RoundsValid, Ending, TickBills, BillsRoom, BilledRooms;
    TickBillsDiffer(ids, actions);
    var out := TickBills(ids, actions);
    forall k | 0 <= k < |out|
      ensures out[k].room in ending && BillsRoom(s, Tick(now, random), out[k])
    {
      var i := TickBillsSound(ids, actions, k);
      ActionBill(s, now, random, ids, actions, i);
    }
    forall id | id in ending
      ensures exists k :: 0 <= k < |out| && out[k].room == id
    {
      assert id in ids;
      var i :| 0 <= i < |ids| && ids[i] == id;
      ActionBill(s, now, random, ids, actions, i);
      var k := TickBillsComplete(ids, actions, i);
    }
  }

  ghost function DesertionBills(ids: seq<nat>, bills: seq<seq<Entry>>): seq<Bill>
    requires |ids| == |bills|
  {
    seq(|ids|, i requires 0 <= i < |ids| => Bill(ids[i], bills[i]))
  }

  lemma {:induction false} DesertionBillsRoom(s: Lobby, now: int, id: nat, entries: seq<Entry>)
    requires Inv(s) && id in s.rooms && DesertionBill(s, now, id, entries)
    ensures BillsRoom(s, Expiry(now), Bill(id, entries))
  {
    assert RoomOk(id, s.rooms[id]);
    var landlord := s.rooms[id].round.value.landlord.value;
    var p :| p in s.placed && s.placed[p] == id && LongGone(s, p, now)
      && entries == EntriesFor(s.rooms[id], landlord, SeatOf(s.rooms[id].players, p) != landlord);
    var seat := SeatOf(s.rooms[id].players, p);
    assert Decides(s, Expiry(now), id, seat, true);
    hide Inv, Decides;
    assert (seat == landlord) != true <==> seat != landlord;
  }

  lemma {:induction false} DesertedAreBilled(s: Lobby, now: int, ids: seq<nat>, bills: seq<seq<Entry>>)
    requires Inv(s) && RoomManager.ListsDesertions(s, now, DesertedRooms(s, now), ids, bills)
    ensures forall id :: id in ids <==> id in BilledRooms(s, Expiry(now))
  {
    hide Inv, DesertionBill, DesertedRooms, HasLandlord;
  }

  /** The settlements returned for deserted rooms are one bill for each of them that has a landlord. */
  lemma {:induction false} ExpiryPays(s: Lobby, now: int, ids: seq<nat>, bills: seq<seq<Entry>>)
    requires Inv(s) && RoomManager.ListsDesertions(s, now, DesertedRooms(s, now), ids, bills)
    ensures Pays(s, Expiry(now), DesertionBills(ids, bills))
  {
    hide Inv, BillsRoom, BilledRooms, DesertionBill, DesertedRooms;
    var out := DesertionBills(ids, bills);
    var billed := BilledRooms(s, Expiry(now));
    DesertedAreBilled(s, now, ids, bills);
    forall i | 0 <= i < |ids|
      ensures ids[i] in billed && BillsRoom(s, Expiry(now), out[i])
    {
      assert ids[i] in ids;
      DesertionBillsRoom(s, now, ids[i], bills[i]);
    }
    forall id | id in billed
      ensures exists i :: 0 <= i < |out| && out[i].room == id
    {
      assert id in ids;
      var i :| 0 <= i < |ids| && ids[i] == id;
      assert out[i].room == id;
    }
  }
}
