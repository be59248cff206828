# Dou Dizhu: the server's rules, rounds, rooms, sessions and coins

This project models a server-authoritative Dou Dizhu game and proves what its
logic promises. It follows the program from the bottom up:

| layer | files | what is modelled |
|---|---|---|
| basics | `Wrappers`, `Lists`, `Clock` | optional values, lists without repetitions, the unit of time |
| card rules | `Cards`, `Patterns`, `PlayKinds`, `CardRules`, `Analyzer` | what the 14 patterns are, as multisets of ranks; `analyze` step by step, against that definition; `can_beat` |
| round | `Deck`, `Rounds`, `RoundSteps`, `RoundActions`, `Calling`, `GameRound`, `RoundRuns`, `Tricks` | the deal; a round as a value with the state each action leads to; the class `GameRound`; whole runs of a round; tricks with their history |
| rooms | `Lobby`, `LobbySteps`, `Settlements`, `ManagerReplies`, `RoomManager`, `LobbyRuns`, `ManagerBills`, `Pacing`, `Deadlines` | the five fields of the room manager and their invariant; the class `RoomManager`; whole runs and what they settle |
| sessions | `Presence`, `Postings`, `Replies`, `Audiences`, `Sessions`, `RateWindow`, `Framing`, `Wires`, `Connection`, `Fleet` | logins, closes and stale tokens of any number of sessions; what is posted to the backend; the rate window; packets, reading and writing |
| coins | `Ledgers`, `Backend`, `Deliveries`, `Conservation` | the settlement of the backend with its 32-bit arithmetic; late, repeated and reordered deliveries; the coins of all players over a whole run |

A class of the program is a class here. Each of its methods is proved to lead to
the state that a function on values gives (`State()`, `After`, `Matched`, `Done`,
`NextGateway`, `NextWire`, `Settled`), and the properties are then proved of those
functions, over every input and every run. `GameRound`, `RoomManager`,
`PlayerNotifier`, `TcpSession`, `TcpServer`, `Player` and the repositories keep
the fields that the program updates. The class `TcpSession` is split in two:
`Sessions.TcpSession` holds who is logged in, `Connections.Connection` holds the
socket side. A WebSocket session has the same login, close and rate-window steps.

Time is a parameter in nanoseconds. Random numbers are a parameter too: a shuffle
is a Fisher-Yates shuffle whose choices are given (`Draws`). Every order of the
deck comes from exactly one choice, so every statement holds for every shuffle. The order in which a hash map is walked is arbitrary: the
loops pick any remaining element. A handler is one step, as all handlers run on
one thread; the reply of the backend to a login is a step of its own.

Results that a reader might not expect:

* Cards that form an airplane of t triples also read as k triples with k single
  wings exactly when the number of cards is a multiple of twelve; the program
  takes the airplane. There is a choice of runs exactly when the hand holds one
  more consecutive triple than it plays, and the lowest is taken; unless the cards
  are an airplane anyway, this needs sixteen of them.
* The guard in line 142 of `cpp/src/card_rules.cpp` and the branch in lines 359-363
  of `cpp/src/room_manager.cpp` decide nothing: the first always holds, the second
  is never taken.
* A trick has at most 15 plays, and once the landlord is chosen at most 154
  actions are accepted. A landlord whose table only times out wins after 58 timeouts.
  If sweeps come every second, a game is over 154 times 16 seconds after the choice
  of its landlord, whatever the players do.
* If no settlement is lost on its way to the backend, the coins of all players are
  kept exactly when every settlement is recorded in the end. A loser with too few
  coins is let off while the winners are paid, so coins can only become more.
* "Recorded as absent" is the same as "has no sender" for every player in a room,
  in every run. It is not the same as "has no open session": a login whose reply
  comes after the close of its session, and a session that logs in as somebody
  else, leave a sender behind, and its player counts as present until its next
  login. `Presence.LateReply` and `Presence.OtherLogin` are runs in which this
  happens to a player in a room; `Presence.PresenceMeansSession` says that the two
  notions differ in exactly the runs of this kind.
* The limit of 30 messages in a window lets through at most 60 in any span shorter
  than a second, and 60 is reached. A client that keeps to 30 in every second is
  never refused.
* The check for a negative sum in `changeCoins`, made after wrapping to 32 bits,
  also turns away every sum that is too large, so no balance is ever wrong.

## Model

| member | source | states |
|---|---|---|
| Patterns.FormsIffCounted | cpp/src/card_rules.cpp:63-164 | the two definitions of the patterns agree: as a multiset put together from triples, chains and wings, and by counts of each rank, for every multiset of ranks |
| Patterns.ReadingsExclusive | cpp/src/card_rules.cpp:53-167 | the patterns exclude each other, except airplane against airplane with singles; within every other pattern the main rank is determined |
| Patterns.AirplaneClashIff | cpp/src/card_rules.cpp:122-146 | an airplane also reads as an airplane with singles exactly when the number of cards is a multiple of twelve |
| PlayKinds.OccursIff | cpp/src/card_rules.cpp:63-164 | which plays there are, in numbers: for each pattern exactly the numbers of cards and the main ranks for which some cards form it |
| CardRules.ClassifyComplete | cpp/src/card_rules.cpp:53-167 | if any pattern fits, the verdict is not Invalid, and it is that reading unless an airplane with singles gives way |
| CardRules.PlayIgnoresOrder | cpp/src/card_rules.cpp:58-61 | the verdict depends on the multiset of cards only |
| CardRules.SmallAirplaneUnambiguous | cpp/src/card_rules.cpp:128-146 | with fewer than 16 cards an airplane with singles has one possible run, whatever the counts |
| CardRules.AmbiguousIff | cpp/src/card_rules.cpp:31-49 | for every hand: k triples with k singles leave a choice of runs exactly when the hand holds k + 1 consecutive triples |
| CardRules.AmbiguousAtSixteen | cpp/src/card_rules.cpp:31-49 | 16 cards of at most four per rank that form an airplane with singles with two different runs; the lower one is taken |
| CardRules.BeatsByTier | cpp/src/card_rules.cpp:169-184 | beating another play means a higher tier, or the same pattern and size with a higher main rank |
| CardRules.BeatIsStrictOrder | cpp/src/card_rules.cpp:169-184 | can_beat is irreflexive, asymmetric and transitive, and nothing beats a rocket |
| Analyzer.CountRanks | cpp/src/card_rules.cpp:58-61 | the loop builds the count map of the ranks, with an entry for exactly the ranks that occur |
| Analyzer.Consecutive | cpp/src/card_rules.cpp:14-29 | true exactly when the keys of the map are a gapless chain within Three to Ace |
| Analyzer.AirplaneMainRank | cpp/src/card_rules.cpp:31-49 | the lowest run of exact triples of the wanted length within Three to Ace, or none exactly when there is none |
| Analyzer.SameRank | cpp/src/card_rules.cpp:69-82 | the verdict for cards of one rank |
| Analyzer.TriplePatterns | cpp/src/card_rules.cpp:84-95 | finds a triple with a single or a pair exactly when the cards form one, with its main rank |
| Analyzer.FourPatterns | cpp/src/card_rules.cpp:97-110 | finds four with two singles or two pairs exactly when the cards form one, with its main rank |
| Analyzer.ChainPatterns | cpp/src/card_rules.cpp:112-126 | finds a straight, consecutive pairs or an airplane exactly when the cards form one |
| Analyzer.AirplaneSingles | cpp/src/card_rules.cpp:128-146 | finds an airplane with singles exactly when the cards form one, with the lowest run; the guard of line 142 is asserted to hold |
| Analyzer.AirplanePairs | cpp/src/card_rules.cpp:148-164 | finds an airplane with pairs exactly when the cards form one: no other run would have done |
| Analyzer.Analyze | cpp/src/card_rules.cpp:53-167 | for every list of cards the ordered tests give the verdict that the definition of the patterns determines |
| Analyzer.AnalyzeVerdict | cpp/src/card_rules.cpp:53-167 | the result is a reading of the cards, Invalid exactly when no pattern fits, airplane before airplane with singles, lowest run first |
| Deck.DeckIsStandard | cpp/src/deck.cpp:8-23 | the deck has 54 cards: each of 13 ranks in four suits and the two jokers, once each |
| Deck.CreateCards | cpp/src/deck.cpp:8-23 | the nested loops produce the deck in its order |
| Deck.ShuffleKeepsCards | cpp/src/deck.cpp:29 | a shuffle keeps the multiset of cards, for any choices |
| Deck.Shuffle | cpp/src/deck.cpp:29 | the shuffle in place on the array |
| Deck.EveryOrderOccursOnce | cpp/src/deck.cpp:29 | every order of the 54 cards may come out of the shuffle, by exactly one choice of random numbers |
| Deck.DealsTheDeck | cpp/src/deck.cpp:27-40 | three hands of 17 and three bottom cards that are together the deck |
| Deck.DealtInTurn | cpp/src/deck.cpp:31-37 | card by card: card k goes to seat k mod 3, and the last three stay at the bottom |
| Deck.EveryDealOccursOnce | cpp/src/deck.cpp:27-40 | every partition of the deck into ordered hands and bottom cards may be dealt, by exactly one choice |
| Deck.DealCards | cpp/src/deck.cpp:27-40 | the dealing loops produce that deal |
| Rounds.KeepIsDifference | cpp/src/game_round.cpp:94-104 | the cards kept are the hand minus the cards played, as multisets |
| Rounds.KeepMembers | cpp/src/game_round.cpp:94-104 | a card is kept exactly when it was held and not played |
| RoundActions.KeptInOrder | cpp/src/game_round.cpp:94-102 | the cards kept stay in their order |
| RoundSteps.StartedValid | cpp/src/game_round.cpp:11-24 | a new deal satisfies the invariant of a round |
| RoundSteps.CalledValid | cpp/src/game_round.cpp:26-56 | every call keeps the invariant of a round |
| Callings.LandlordCalledLast | cpp/src/game_round.cpp:26-56 | in every run from a deal, with rejected actions and timeouts: told by the votes since the latest deal, the cards are as dealt until the third vote, three refusals deal anew, and otherwise the landlord is the last seat that called |
| Callings.LandlordLeads | cpp/src/game_round.cpp:42-51 | at that third vote the landlord leads, and its hand is its dealt hand followed by the bottom cards; the others keep theirs |
| Callings.ThreeBids | cpp/src/game_round.cpp:26-56 | the eight cases of three bids in turn |
| RoundSteps.PlayMovesCards | cpp/src/game_round.cpp:94-108 | a play moves exactly its cards out of one hand and leaves the others alone |
| RoundSteps.PlayedValid | cpp/src/game_round.cpp:78-118 | an accepted play keeps the invariant of hands, last play, pass count, turn and winner |
| RoundSteps.PassedValid | cpp/src/game_round.cpp:120-138 | an accepted pass keeps it, and the second pass ends the trick |
| RoundSteps.DefaultAccepted | cpp/src/game_round.cpp:58-76 | a timeout is never stuck: in calling and playing the default action is always accepted |
| RoundSteps.StepValid | cpp/src/game_round.cpp:26-138 | every action, accepted or not, keeps the invariant |
| RoundActions.LayIs | cpp/src/game_round.cpp:78-118 | a play is accepted exactly in turn, for held cards that form a pattern and beat the last play; the new value of every field, and no change otherwise |
| RoundActions.SkipIs | cpp/src/game_round.cpp:120-138 | a pass is accepted exactly in turn after a play of another seat; what the first and the second pass change, and no change otherwise |
| RoundActions.BidIs | cpp/src/game_round.cpp:26-31 | a call is accepted exactly in turn; what the first two change, and no change otherwise |
| RoundActions.ExpireIs | cpp/src/game_round.cpp:58-76 | a timeout refuses, passes or lays down the first card of the hand, and does nothing in another phase |
| RoundRuns.RunValid | cpp/src/game_round.cpp:26-138 | so the invariant holds at the end of every run of a round |
| RoundSteps.AcceptedAdvances | cpp/src/game_round.cpp:58-138 | every accepted action in play lowers the measure 3 x cards + (2 - passes), moves the turn by one seat or ends the round, and is made by the seat whose turn it is |
| GameRounds.GameRound.Start | cpp/src/game_round.cpp:11-24 | the new state of every field after a deal |
| GameRounds.GameRound.Call | cpp/src/game_round.cpp:26-56 | accepts exactly a call in turn, and leads to the specified state |
| GameRounds.GameRound.TakeCards | cpp/src/game_round.cpp:94-102 | for every hand the removal loop succeeds exactly when all cards are held, counted with repetitions; what remains is the difference, and a hand without repeated cards keeps its order |
| GameRounds.GameRound.Play | cpp/src/game_round.cpp:78-118 | accepts exactly a valid play in turn, of held cards, that beats the last play; otherwise no field changes |
| GameRounds.GameRound.Pass | cpp/src/game_round.cpp:120-138 | accepts exactly a pass in turn after somebody else's play; otherwise no field changes |
| GameRounds.GameRound.Timeout | cpp/src/game_round.cpp:58-76 | accepted exactly while calling or playing, with the effect of the default action |
| RoundRuns.TurnsRotate | cpp/src/game_round.cpp:78-138 | after k accepted actions the turn is k seats further, or the round is settled by the seat k - 1 further, in any run |
| RoundRuns.EntryToPlay | cpp/src/game_round.cpp:42-51 | play begins only with the third call, by a landlord with 20 cards |
| RoundRuns.PlayIsBounded | cpp/src/game_round.cpp:58-138 | in every run from the choice of the landlord at most 154 actions are accepted, and the turns rotate from the landlord |
| RoundRuns.TimeoutsSettle | cpp/src/game_round.cpp:58-76 | enough timeouts settle a round from every state of play |
| RoundRuns.NobodyActs | cpp/src/game_round.cpp:58-76 | from the start of a trick whose leader holds n cards, timeouts alone settle the round for the leader at the (3n - 2)th and not before |
| RoundRuns.LandlordLeftAlone | cpp/src/game_round.cpp:42-76 | after the choice of a landlord timeouts alone settle the round exactly from the 58th on, and the landlord wins |
| Tricks.StepKeepsTable | cpp/src/game_round.cpp:26-138 | with the history of plays: hands, bottom cards and played cards are the deck, the last play is the end of the trick, each play of a trick beats all earlier ones |
| Tricks.RankLimit | cpp/src/deck.cpp:8-23 | cards from one deck hold at most four of a rank and one of each joker |
| Tricks.BeatChangesRank | cpp/src/card_rules.cpp:169-184 | of two plays from one deck, the one that beats the other has another main rank |
| Tricks.TrickAtMostFifteen | cpp/src/game_round.cpp:88-108 | a trick holds at most 15 plays |
| Tricks.EveryRun | cpp/src/game_round.cpp:11-138 | all of this in every state of every run from a deal |
| LobbySteps.MatchedInv | cpp/src/room_manager.cpp:7-56 | matching keeps the invariant: the index is a scan of all rooms, rooms have a round exactly with three different players, the waiting room is the one without a round |
| LobbySteps.DoneInv | cpp/src/room_manager.cpp:58-179 | so does every request of a player, also when it ends the round and removes the room |
| LobbySteps.PresenceInv | cpp/src/room_manager.cpp:253-264 | so do both presence marks: only players in a room are recorded as absent |
| LobbySteps.DroppedFromInv | cpp/src/room_manager.cpp:322-339 | so does the removal of any set of rooms with all that is known of their players |
| LobbySteps.TimedOutOk | cpp/src/room_manager.cpp:276-316 | an enforced deadline always takes a step, and the round ends or gets a deadline in the future |
| LobbySteps.TickedInv | cpp/src/room_manager.cpp:266-320 | the sweep keeps the invariant, wherever it is in the walk over the rooms |
| LobbySteps.TickClears | cpp/src/room_manager.cpp:266-320 | after a sweep no room is overdue |
| LobbySteps.TickIsIdempotent | cpp/src/room_manager.cpp:266-320 | a second sweep at the same time changes nothing |
| LobbySteps.TickedMore | cpp/src/room_manager.cpp:269-318 | handling one more room extends the sweep, and has not been affected by the rooms before: the order does not matter |
| Settlements.DecimalInjective | cpp/src/room_manager.cpp:130 | different room numbers are printed differently |
| Settlements.DecimalValue | cpp/src/room_manager.cpp:130 | the printed number consists of digits without a leading zero and stands for the number |
| Settlements.BillBalances | cpp/src/room_manager.cpp:124-136 | the entries of a room sum to zero, one for each seat, and pay the side of the deciding seat if it has won and the other side if it has lost |
| Settlements.Bill | cpp/src/room_manager.cpp:126-136 | the loop over the seats produces those entries |
| RoomManagers.RoomManager.FindRoom | cpp/src/room_manager.cpp:10-20 | the scan finds the indexed room of the player and no other, in whatever order it walks |
| RoomManagers.RoomManager.Match | cpp/src/room_manager.cpp:7-56 | the new state and the reply: where a known player sits; a new one gets the next seat of the waiting room or the first of a new one; the third starts the round, with the hands dealt in the reply |
| RoomManagers.RoomManager.CallLandlord | cpp/src/room_manager.cpp:58-88 | the new state and the reply: accepted exactly in turn, with the seat now in turn, and the landlord once it is chosen; nothing without a round |
| RoomManagers.RoomManager.Play | cpp/src/room_manager.cpp:90-149 | the new state and the reply: who acted; the next seat after an accepted play, the winner and three settlements exactly when the room is gone, the seat still in turn after a rejected one |
| RoomManagers.RoomManager.Pass | cpp/src/room_manager.cpp:151-179 | the same for a pass, which never ends the game |
| RoomManagers.RoomManager.Reconnect | cpp/src/room_manager.cpp:181-207 | the player's own seat and hand and the public part of the round, exactly when it has a round |
| RoomManagers.RoomManager.RoomStateOf | cpp/src/room_manager.cpp:209-251 | the snapshot for a player: its own hand, who is recorded as absent, how many cards each holds, and the whole seconds left, exactly when it has a round |
| RoomManagers.RoomManager.MarkOnline | cpp/src/room_manager.cpp:253-256 | the new state of the record of absence |
| RoomManagers.RoomManager.MarkOffline | cpp/src/room_manager.cpp:258-264 | only players in a room are recorded, and the first time is kept |
| RoomManagers.RoomManager.TimeoutExpired | cpp/src/room_manager.cpp:266-320 | in any order of rooms: each overdue room takes one step and is reported once with its settlements, ended rooms go |
| RoomManagers.RoomManager.CleanupIdle | cpp/src/room_manager.cpp:322-339 | exactly the idle rooms without a round go, in any order |
| RoomManagers.RoomManager.CleanupExpired | cpp/src/room_manager.cpp:341-401 | in any order of the map exactly the rooms with a long absent player go, and each with a landlord is settled once, also when several of its players are absent |
| Deadlines.EveryDeadline | cpp/src/room_manager.cpp:403-412 | in every run a calling room has a deadline ten seconds after its last activity and a playing one fifteen |
| Deadlines.SweepActsIff | cpp/src/room_manager.cpp:266-320 | a sweep takes one timeout in a room exactly when that moment has come, and the room goes exactly when the round then is over |
| Deadlines.SweepReports | cpp/src/room_manager.cpp:276-317 | it reports exactly these rooms, once each, with the seat that was to act and the phase and turn after it |
| Deadlines.IdleRemoves | cpp/src/room_manager.cpp:322-339 | exactly the rooms go that have waited for sixty seconds, with all that is known of their players |
| Deadlines.ExpiryRemoves | cpp/src/room_manager.cpp:341-401 | exactly the rooms go in which somebody has been recorded as absent for 300 seconds |
| Deadlines.ExpelledWasClosed | cpp/src/room_manager.cpp:341-401 | in every run of the gateway such a room has a player whose session was closed at least 300 seconds before, and that has not logged in since |
| LobbyRuns.NextInv | cpp/src/room_manager.cpp:7-412 | every public method keeps the invariant |
| LobbyRuns.EveryLobby | cpp/src/room_manager.cpp:7-412 | so from the start of the gateway the five fields agree after every run, with any calls in any order |
| LobbyRuns.RunInv | cpp/src/room_manager.cpp:7-412 | the same from every state in which they agree |
| LobbyRuns.BilledIffGone | cpp/src/room_manager.cpp:120-394 | a room that goes is settled exactly when its landlord was chosen; a settled room goes; room numbers are never used again |
| LobbyRuns.ExactlyOnce | cpp/src/room_manager.cpp:23-397 | in every run no game is settled twice for a player, every settlement has three entries for three players, all of them sum to zero, and every one pays the side that has won its room |
| LobbyRuns.RunIsFair | cpp/src/room_manager.cpp:120-138 | in a run from any state a seat gains exactly when it is on the side of the seat that has laid down its last card, or not on the side of a player long absent |
| LobbyRuns.RoomFate | cpp/src/room_manager.cpp:58-320 | a room in play stays in play or goes; no call raises its measure and an enforced deadline lowers it |
| LobbyRuns.FreshRoomIsBounded | cpp/src/room_manager.cpp:266-320 | whatever the players do, the deadline of a room is enforced at most 154 times after its landlord is chosen, and then the room is gone |
| Pacing.RoomEndsInTime | cpp/src/room_manager.cpp:266-320 | a room in play that was in time goes within fifteen seconds and the gap between sweeps for each unit of measure that is left |
| Pacing.GameEndsInTime | cpp/src/room_manager.cpp:403-412 | whatever the players do, with sweeps at most a given gap apart, a room is gone 154 times (15 seconds and the gap) after its landlord is chosen |
| LobbyRuns.GoneForever | cpp/src/room_manager.cpp:23-25 | a room that is gone stays gone |
| ManagerBills.PlayPays | cpp/src/room_manager.cpp:120-148 | the settlements in the reply to a play are those that the run model expects, for the side of the seat without cards |
| ManagerBills.TickPays | cpp/src/room_manager.cpp:290-317 | so are those in the actions of a sweep |
| ManagerBills.ExpiryPays | cpp/src/room_manager.cpp:365-397 | so are those of the rooms that are expired, against the side of a player long absent |
| Presence.StepKeepsPresence | cpp/src/tcp_server.cpp:104-153 | every handler of every session, stale, closed or late, keeps: a player in a room is recorded as absent exactly when it has no sender; tokens belong to one session |
| Presence.PresenceAlwaysAgrees | cpp/src/tcp_server.cpp:415-442 | so it is in every run, for any interleaving, and at most one session is current for a player |
| Presence.UnattendedAfter | cpp/src/tcp_server.cpp:122-149 | exactly which steps leave a player present without an open session: a late login reply, a session that logs in as somebody else |
| Presence.UnattendedIff | cpp/src/tcp_server.cpp:122-149 | over runs: a player ends with a sender but no open session exactly when a login as it came too late, or its session logged in as somebody else, and it has not logged in since; or it was so at the beginning |
| Presence.PresenceMeansSession | cpp/src/tcp_server.cpp:128-136 | in every run, for a player in a room: recorded as absent and without an open session are the same exactly when it was not left behind like this |
| Presence.UnattendedStays | cpp/src/room_manager.cpp:253-264 | a player left behind is not recorded as absent in any continuation without a login as it |
| Presence.LateReply | cpp/src/tcp_server.cpp:120-136 | a run that leaves a player in a room, without an open session and not recorded as absent: the reply to its login comes after the close |
| Presence.OtherLogin | cpp/src/tcp_server.cpp:128-136 | another such run: its session logs in as somebody else |
| Presence.AbsenceIsSinceClose | cpp/src/tcp_server.cpp:415-442 | in every run the recorded time of absence is exactly that of the close of the session of a player in a room that has not logged in since |
| Presence.SweepExpels | cpp/src/room_manager.cpp:341-401 | the first sweep five minutes after that close removes the room and the record of the player |
| Presence.Routed | cpp/include/gateway/player_notifier.hpp:36-47 | a message for a player goes to the one session that attends it, and a player recorded as absent gets none |
| Presence.CloseStep | cpp/src/tcp_server.cpp:415-442 | what a close changes in manager, notifier and session: only an open session that is current marks its player absent |
| Presence.LoginStep | cpp/src/tcp_server.cpp:128-136 | what a login reply changes: the player is marked present and the session gets the newest token, also when the session is closed |
| Presence.HandleStep | cpp/src/tcp_server.cpp:104-357 | a stale session and a request for a round that the player does not have are closed; other requests reach the manager |
| Presence.RequestClosesIff | cpp/src/tcp_server.cpp:104-357 | a request closes its session exactly when its sender was replaced or gone, or when it asks for a round that the player does not have |
| Presence.CloseIs | cpp/src/tcp_server.cpp:415-442 | a close removes the sender of the player and records the time, exactly when the session is open and holds that sender |
| Presence.LoginIs | cpp/src/tcp_server.cpp:128-136 | a login gives the player a sender with a new token on this session and ends its record of absence |
| Presence.SweepStep | cpp/src/tcp_server.cpp:481-520 | the timer runs timeouts, idle rooms and long absent players in this order |
| Postings.TurnsMakeARun | cpp/src/tcp_server.cpp:286-299 | the handlers of a run of the gateway are one run of the room manager, and post its settlements |
| Postings.PostedOnce | cpp/src/tcp_server.cpp:286-520 | over a whole run, whatever the sessions do, no game is posted twice for a player, everything posted sums to zero, and each handler posts gains for the side that has won |
| Postings.HandlerTrace | cpp/src/tcp_server.cpp:286-299 | what a handler posts is what the manager calls of that handler settle |
| Sessions.PlayerNotifier.Register | cpp/include/gateway/player_notifier.hpp:15-20 | a new token, which replaces the sender of the player |
| Sessions.PlayerNotifier.Unregister | cpp/include/gateway/player_notifier.hpp:22-28 | removes the sender only under its own token |
| Sessions.TcpSession.LoginReplied | cpp/src/tcp_server.cpp:122-150 | the login reply is that step of the gateway, whatever the other sessions are |
| Sessions.TcpSession.Close | cpp/src/tcp_server.cpp:415-442 | closing is that step of the gateway |
| Sessions.TcpSession.HandlePacket | cpp/src/tcp_server.cpp:90-118 | the message is counted first, a 31st one or one that is not understood closes the session, a login changes nothing yet, and a request is that step of the gateway |
| Sessions.TcpSession.Serve | cpp/src/tcp_server.cpp:104-357 | a request is that step of the gateway, with the settlements and, for a request that is not refused, the messages that are sent and the sessions they go to |
| Sessions.TcpServer.Cleanup | cpp/src/tcp_server.cpp:474-523 | the timer handler is that step of the gateway, and posts the settlements of timeouts and expired rooms |
| Sessions.TcpSession.TellTable | cpp/src/tcp_server.cpp:234-238 | the broadcast loop sends to the senders of the players, each message followed by a snapshot while the player has a round |
| Replies.HandlerAnswers | cpp/src/tcp_server.cpp:104-357 | a handler that does not close its session sends something to it, also where it answers through the notifier only |
| Audiences.MatchAudience | cpp/src/tcp_server.cpp:184-206 | a match that starts a round sends each of its three players that has a sender one message with its cards and one snapshot, on the session of that sender, and nothing else but the answer |
| Audiences.CallAudience | cpp/src/tcp_server.cpp:224-241 | an accepted call is sent to each of the three players with a snapshot, a rejected one is only answered |
| Audiences.PlayAudience | cpp/src/tcp_server.cpp:268-299 | a play is answered; an accepted one is sent to each of the three players, with a snapshot while the room is there and with a settlement when it is gone |
| Audiences.PassAudience | cpp/src/tcp_server.cpp:315-330 | a pass is answered; an accepted one is sent to each of the three players with a snapshot |
| Audiences.OwnAudience | cpp/src/tcp_server.cpp:154-166 | a heartbeat is answered to its own session only, and so is a return |
| Audiences.ReachedOnce | cpp/include/gateway/player_notifier.hpp:36-47 | a player that attends a session is reached there exactly once, unless another player was left behind on it |
| Replies.HandlerNeverStalls | cpp/src/tcp_server.cpp:90-118 | so whatever the handler of a request does, an open session is left reading, writing or waiting for a login |
| RateWindow.PassedInWindow | cpp/src/tcp_server.cpp:91-99 | within one window exactly the first 30 messages pass |
| RateWindow.SpanIsLimited | cpp/src/tcp_server.cpp:91-99 | of the messages in any span shorter than a second at most 60 pass, whatever came before |
| RateWindow.SixtyPass | cpp/src/websocket_server.cpp:99-107 | 60 messages within half a second that do pass |
| RateWindow.PoliteIsNeverRefused | cpp/src/websocket_server.cpp:99-107 | a client that never sends 31 messages within less than a second is never refused |
| Framing.HeaderRoundTrip | cpp/src/packet_codec.cpp:5-32 | decoding gives back every encoded header, and nothing exactly when the size is below six |
| Framing.HeaderIsOnto | cpp/src/packet_codec.cpp:5-32 | every decoded header encodes to the bytes that it came from |
| Framing.WireFormat | cpp/src/packet_codec.cpp:22-32 | the first four bytes are the size and the last two the number of the message, the high byte first |
| Framing.HeaderFromBytes | cpp/src/packet_codec.cpp:5-20 | what is read from six bytes, as numbers of their values: nothing exactly for a size below six |
| Framing.RefusedFor | cpp/src/tcp_server.cpp:53-60 | a stream is refused exactly for a size below six or above 65536, and otherwise its first message is told by its bytes |
| Framing.FramesRoundTrip | cpp/src/tcp_server.cpp:38-88 | the reader takes from the frames of any messages exactly those messages, whatever follows |
| Framing.NothingIsLost | cpp/src/tcp_server.cpp:38-88 | for every stream: the messages taken, framed again, and what is left are the stream |
| Framing.CutStream | cpp/src/tcp_server.cpp:44-87 | a stream of frames that is cut anywhere yields the first of its messages and is not refused |
| Framing.WholeIff | cpp/src/websocket_server.cpp:82-93 | a WebSocket message is accepted exactly when it is the frame of one message that fits |
| Wires.WireStepKeeps | cpp/src/tcp_server.cpp:38-88 | every completion in any order keeps: at most one read and one write, the queue is the end of what was sent, an open session whose handlers answer reads, writes or waits for a login |
| Wires.Delivery | cpp/src/tcp_server.cpp:375-413 | in every run the messages handled are those the received bytes spell out, and a peer reading any part of what was written finds the first messages sent, in order |
| Wires.PeerIsHeard | cpp/src/tcp_server.cpp:38-88 | a peer that sends proper frames has the first of its messages handled, in order |
| Connections.Connection.SendPacket | cpp/src/tcp_server.cpp:375-393 | a packet of at most 64 KiB joins the queue, and the first one starts a write; a larger one closes the session |
| Connections.Connection.HeaderArrived | cpp/src/tcp_server.cpp:47-73 | a header closes the session, starts a body or hands over a packet without a body |
| Connections.Connection.BodyArrived | cpp/src/tcp_server.cpp:75-87 | the body completes the packet of the header, which is handed over |
| Connections.Connection.WriteArrived | cpp/src/tcp_server.cpp:400-412 | the next write starts, or a read when none is under way |
| Fleets.SignalIsStep | cpp/src/tcp_server.cpp:38-113 | in the gateway with its sockets every completion is a step of its connection: a request that is not refused is answered on it |
| Fleets.FleetStepKeeps | cpp/src/tcp_server.cpp:38-442 | every completion, timer or new connection keeps the invariants of gateway and connections, and a session is closed exactly when its connection is |
| Fleets.NoSessionStalls | cpp/src/tcp_server.cpp:375-413 | in every run of the gateway with all its sockets each open session has a read or a write under way or waits for a login, never two of a kind, and what its peer reads are the first messages sent, in order |
| Ledgers.ChangeIsExact | backend/src/main/java/com/gamedemo/backend/Player.java:31-36 | the wrapped sum is negative exactly when the true one is negative or too large for 32 bits, and is otherwise the true one |
| Ledgers.RecordedIff | backend/src/main/java/com/gamedemo/backend/GameController.java:27-37 | a settlement is recorded exactly when it is well formed, its player known, its game new and the balance fits, and then changes that balance by its amount |
| Ledgers.AnswerIs | backend/src/main/java/com/gamedemo/backend/GameController.java:27-37 | which of the four answers a settlement gets, in this order: not well formed, unknown player, already recorded, too few coins, and the new balance |
| Ledgers.CoinsFollowRecords | backend/src/main/java/com/gamedemo/backend/GameController.java:25-37 | for any requests, repeated or out of order: coins are 1000 and the recorded changes, never negative, and no game is recorded twice for a player |
| Ledgers.RetryIsHarmless | backend/src/main/java/com/gamedemo/backend/GameController.java:30-32 | once answered with a balance, a request can be repeated at any later time without effect |
| Ledgers.LoginKeeps | backend/src/main/java/com/gamedemo/backend/AuthController.java:24-34 | logging in creates a player with 1000 coins or changes nothing, and keeps the books right |
| Ledgers.NameIs | backend/src/main/java/com/gamedemo/backend/AuthController.java:36-40 | which names are accepted, by the codes of their characters |
| Ledgers.StatsAreExact | backend/src/main/java/com/gamedemo/backend/PlayerController.java:42-46 | the wrapping sum of a player's changes is the exact one, its coins minus 1000 |
| Ledgers.RecordsOfPlayer | backend/src/main/java/com/gamedemo/backend/PlayerController.java:42-46 | the records of a player are all records with its name, each as often as it is there, so their number is the number of its games |
| Backends.WinsCounted | backend/src/main/java/com/gamedemo/backend/PlayerController.java:44 | the number of wins is the number of records that say WIN |
| Backends.Player.ChangeCoins | backend/src/main/java/com/gamedemo/backend/Player.java:31-36 | changes the balance by the amount, or refuses and leaves it, exactly when it would not fit |
| Backends.Backend.Login | backend/src/main/java/com/gamedemo/backend/AuthController.java:24-34 | the new tables and the response |
| Backends.Backend.Settle | backend/src/main/java/com/gamedemo/backend/GameController.java:27-37 | the new tables and the response or refusal |
| Backends.Backend.Stats | backend/src/main/java/com/gamedemo/backend/PlayerController.java:42-46 | games, wins and the change of coins, which is exact |
| Deliveries.RecordsAreThePosted | cpp/src/tcp_server.cpp:294-297 | if everything posted is delivered at least once and nothing is refused, the records are exactly what was posted, as multisets |
| Deliveries.BalancesArePosted | backend/src/main/java/com/gamedemo/backend/GameController.java:25-37 | each player then holds 1000 coins and what was posted for it, whatever the order and the repetitions |
| Deliveries.CoinsAreConserved | cpp/src/tcp_server.cpp:286-520 | over a whole run from the first session to the last delivery all players together hold 1000 coins each |
| Conservation.BalancesAreAccounted | backend/src/main/java/com/gamedemo/backend/GameController.java:25-37 | for any deliveries, lost, repeated or refused: each player holds 1000 coins and what was posted for it, but for what was never recorded |
| Conservation.CoinsAreAccounted | backend/src/main/java/com/gamedemo/backend/GameController.java:25-37 | so all coins are 1000 for each player and the total of what was posted, minus the total of what was never recorded |
| Conservation.ConservedIff | backend/src/main/java/com/gamedemo/backend/Player.java:31-36 | if nothing is lost and only a lack of coins is a reason to refuse: coins never vanish, and are all kept exactly when every posted settlement is recorded in the end |
| Conservation.GatewayConservedIff | cpp/src/tcp_server.cpp:286-520 | the same for whatever a run of the gateway posts |
| Conservation.PoorLoser | backend/src/main/java/com/gamedemo/backend/Player.java:31-36 | six lost games after which three players hold 3200 coins: the sixth loss is refused and the winners are paid |

## Left out

- Sockets, timers, threads and locks of Boost.Asio and Beast: each handler is one step, and a completion is an argument.
- Randomness: `mt19937` and `std::shuffle` are choices given as arguments; their distribution is not modelled.
- The clock: a method gets the time as an argument; one handler reads it once for the manager and once for the rate window.
- `duration_seconds` and `play_started_at_`: measured time that nothing else depends on; a settlement request has any duration.
- Termination of calling: three refusals deal again, which may go on forever. Bounds are claimed from the choice of the landlord on.
- Which side wins when the landlord and a farmer of one room are both long absent: the order of a hash map decides, and the model allows both.
- The bodies of messages, and the messages of a close, of a login reply and of the timer; those of a request are modelled by kind and by the session they go to. A snapshot sent to all players is not claimed to be each player's own view.
- A close that happens inside another session's handler because a broadcast is larger than 64 KiB; a close is a step of its own.
- Parsing of message bodies and `CardCodec`: a message arrives parsed, or as one that cannot be parsed.
- The heartbeat timer and lost connections: a close can happen at any time.
- `player_ids_` and `deck_` of `GameRound`, which are never read or have no state, and the bottom cards of a round that was never started.
- Unsigned widths of seats, counts, room numbers and tokens: they count up from small numbers and are unbounded here.
- The presence service in Redis, HTTP and JSON of `BackendClient`, `history` and `profile`, and the database columns.
- Concurrent transactions on one player, and restarts of the gateway, after which room numbers begin again.
- Conservation of all coins in every run, which is false: `Conservation.PoorLoser` is a run in which it fails, and `Conservation.ConservedIff` says when it holds.
- Wires.WireStepKeeps: takes it as a condition on its steps that a handler which goes on answers its own session; `Fleets.SignalIsStep` proves this of the handlers of requests, and `Fleets.NoSessionStalls` has no such condition.
