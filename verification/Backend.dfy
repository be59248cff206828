/** The classes `Player`, `AuthController`, `GameController` and `PlayerController`; the two tables are fields. */
module Backends {
  import opened Wrappers
  import opened Lobbies
  import opened Ledgers

  class Player {
    const id: PlayerId
    var coins: Int32

    constructor (id: PlayerId, coins: Int32)
      ensures this.id == id && this.coins == coins
    {
      this.id, this.coins := id, coins;
    }

    /** False stands for the exception; the balance is then left alone. */
    method ChangeCoins(amount: Int32) returns (ok: bool)
      requires coins >= 0
      modifies this
      ensures ok <==> 0 <= old(coins) + amount <= MAX_INT
      ensures coins == if ok then old(coins) + amount else old(coins)
    {
      ChangeIsExact(coins, amount);
      if Wrap(coins + amount) < 0 {
        return false;
      }
      coins := Wrap(coins + amount);
      return true;
    }
  }

  datatype LoginResponse = LoginResponse(player: PlayerId, coins: Int32, created: bool)

  datatype StatsResponse = StatsResponse(games: nat, wins: Int32, coinChange: Int32)

  function Wins(records: seq<Settlement>): nat {
    if records == [] then 0
    else
      var n := |records| - 1;
      Wins(records[..n]) + if records[n].result == "WIN" then 1 else 0
  }

  ghost function PlacesWon(records: seq<Settlement>): set<nat> {
    set i | 0 <= i < |records| && records[i].result == "WIN"
  }

  /** The number of records that say WIN. */
  lemma {:induction false} WinsCounted(records: seq<Settlement>)
    ensures Wins(records) == |PlacesWon(records)|
  {
    if records != [] {
      WinsCounted(records[..|records| - 1]);
      OneMoreWon(records);
    }
  }

  lemma {:induction false} OneMoreWon(records: seq<Settlement>)
    requires records != []
    ensures var n := |records| - 1;
      |PlacesWon(records)| == |PlacesWon(records[..n])| + if records[n].result == "WIN" then 1 else 0
  {
    var n := |records| - 1;
    assert PlacesWon(records) == PlacesWon(records[..n]) + if records[n].result == "WIN" then {n} else {};
  }

  lemma {:induction false} NothingCounted()
    ensures Wins([]) == 0 && WrappedSum([]) == 0
  {
  }

  lemma {:induction false} CountedMore(records: seq<Settlement>, i: nat)
    requires i < |records|
    ensures Wins(records[..i + 1]) == Wins(records[..i]) + if records[i].result == "WIN" then 1 else 0
    ensures WrappedSum(records[..i + 1]) == Wrap(WrappedSum(records[..i]) + records[i].change)
  {
    hide Wrap;
    assert records[..i + 1][..i] == records[..i];
  }

  class Backend {
    var players: map<PlayerId, Int32>
    var records: seq<Settlement>

    function State(): Ledger
      reads this
    {
      Ledger(players, records)
    }

    ghost predicate Ok()
      reads this
    {
      LedgerInv(State())
    }

    constructor ()
      ensures State() == NEW_LEDGER && Ok()
    {
      players, records := map[], [];
    }

    /** A known player keeps its coins; a new one gets the first thousand. */
    method Login(p: PlayerId) returns (response: Option<LoginResponse>)
      requires Ok()
      modifies this
      ensures Ok() && State() == LoggedIn(old(State()), p)
      ensures response.Some? <==> NameOk(p)
      ensures response.Some? ==>
        p in players && response.value == LoginResponse(p, players[p], p !in old(players))
      ensures records == old(records)
      ensures players == if response.Some? && p !in old(players) then old(players)[p := 1000] else old(players)
    {
      LoginKeeps(State(), p);
      if !NameOk(p) {
        return None;
      }
      if p in players {
        return Some(LoginResponse(p, players[p], false));
      }
      players := players[p := INITIAL_COINS];
      return Some(LoginResponse(p, INITIAL_COINS, true));
    }

    method Settle(r: Settlement) returns (reply: Reply)
      requires Ok()
      modifies this
      ensures Ok() && State() == Settled(old(State()), r) && reply == SettleReply(old(State()), r)
    {
      hide LedgerInv, WellFormed, Wrap, Recorded;
      SettleKeeps(State(), r);
      if !WellFormed(r) {
        return BadRequest;
      }
      if r.player !in players {
        return PlayerNotFound;
      }
      NeverNegative(State(), r.player);
      ChangeIsExact(players[r.player], r.change);
      var player := new Player(r.player, players[r.player]);
      if Recorded(records, r.gameId, r.player) {
        return Coins(player.id, player.coins);
      }
      var ok := player.ChangeCoins(r.change);
      if !ok {
        return InsufficientCoins;
      }
      players := players[player.id := player.coins];
      records := records + [r];
      return Coins(player.id, player.coins);
    }

    /**
      The number of games and of wins of a player, and what its games have brought:
      exact, though summed in 32 bits.
     */
    method Stats(p: PlayerId) returns (response: StatsResponse)
      requires Ok()
      ensures response.games == |RecordsOf(records, p)|
      ensures response.wins == Wrap(Wins(RecordsOf(records, p)))
      ensures response.coinChange == WrappedSum(RecordsOf(records, p))
      ensures p in players ==> response.coinChange == players[p] - INITIAL_COINS
    {
      if p in players {
        StatsAreExact(State(), p);
      }
      hide LedgerInv;
      var own := RecordsOf(records, p);
      var wins, sum: Int32 := 0, 0;
      hide Wins, WrappedSum, Wrap, RecordsOf;
      NothingCounted();
      for i := 0 to |own|
        invariant wins == Wins(own[..i]) && sum == WrappedSum(own[..i])
      {
        CountedMore(own, i);
        wins := wins + if own[i].result == "WIN" then 1 else 0;
        sum := Wrap(sum + own[i].change);
      }
      assert own[..|own|] == own;
      return StatsResponse(|own|, Wrap(wins), sum);
    }
  }
}
