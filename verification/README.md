# Chaos Ultimate Tic-Tac-Toe, modelled in Dafny

The game is Ultimate Tic-Tac-Toe: nine small boards arranged as a 3x3
meta-board. A move in cell `c` of one board sends the opponent to board `c`.
Winning a small board conquers it, and three conquered boards in a line win
the game. The repository adds two "chaos" events:

- **Instability shuffle.** It fires once, when exactly three boards are
  conquered and no line is held. It moves the nine boards, with their
  contents and outcomes, to new positions chosen by a Fisher-Yates
  permutation.
- **Role swap.** It may follow a few moves later.

This project models three parts of the repository:

- **The rule engine** (`lib/gameLogic.ts`). It covers the fresh game, the
  small-board and meta-board outcomes, and the shuffle trigger. It covers
  the Fisher-Yates draw and how a mapping is applied. It covers the role-swap
  trigger, the clearing of the animation signals, `makeMove` with its whole
  cascade, and the enumeration of legal moves.
- **The relay server** (`server/index.js`). This is the room bookkeeping of
  the Socket.IO relay: joining, leaving, disconnecting, and storing a
  client's snapshot. It includes the relay's own shuffle and role-swap
  triggers and the relaying of moves and resets.
- **The room-id form** (`components/ModeSelector.tsx`). This is the
  validation of a typed room id, and the decision to create a room, join
  one, or show an error.

Randomness is a parameter. `Math.random` in the Fisher-Yates loop becomes a
sequence `choices` of eight draws, each in its loop step's range. The coin
of the role swap becomes a boolean. Together they form `Engine.Chance`.
Every operation is a pure function from the old state to the new one. The
JSON deep copies of the source are value semantics here.

Modules, in dependency order:

- `Options`: the optional value, which stands for the source's `null`.
- `Board`: cells, outcomes, the eight winning lines, small-board and
  meta-board outcomes, and the conquered count.
- `Shuffle`: permutations of 0..8, Fisher-Yates, and the relocation of a
  nine-slot array through a permutation.
- `Engine`: the game state, the invariant of states reached by accepted moves, the
  triggers, the shuffle, and `MakeMove` with lemmas for each of its
  outcomes.
- `LegalMoves`: the enumeration of legal moves, as a method with loop
  invariants.
- `GameInvariant`: every move keeps the invariant, and a shuffle can still
  complete a line of the meta-board in a running game.
- `GameRuns`: whole runs of moves, where each chaos event happens at most
  once.
- `RoomIdForm`: JavaScript `trim`, UTF-16 `length`, the validation, and the
  join button.
- `Relay`: the relay state and its handlers.
- `RelayProperties`: the roster invariant that every handler keeps, and how
  the relay's triggers differ from the client's.

Behaviour the proofs bring out:

- **The relay shuffles more eagerly than the client.** The relay's shuffle
  trigger checks only the latch and the conquered count. Whenever the
  client would shuffle, so would the relay. The converse fails: the relay
  also "shuffles" a snapshot whose game is already won
  (`RelayProperties.RelayShufflesFinishedGame`). A chaos swap applied to
  such a state can scatter the winning line while the game stays over
  (`RelayProperties.ChaosSwapScattersWinningLine`).
- **The relay never latches.** It stores the client's snapshot unchanged.
  Sending the same snapshot again triggers the same events again
  (`RelayProperties.NoRelayLatch`).
- **The two role-swap triggers never hold together.** The relay's fires
  two moves after the shuffle. The client's fires after five moves, with a
  coin.
- **An empty room id breaks the one-room-per-socket rule.** The relay
  guards on a truthy room id, so a socket that joins the room `""` is never
  taken off that roster when it later joins another room
  (`RelayProperties.EmptyRoomIdLeavesTwoRosters`). The form never sends an
  empty id: an id that trims to nothing creates a room instead. The roster
  invariant is therefore proved for non-empty ids, and in particular for
  every id the form selects.
- **A shuffle can complete a line it was meant to avoid.** The trigger
  excludes a meta-board line among the conquered boards, but the relocation
  can form one. With X's conquered boards at 0, 1 and 5, exchanging
  positions 2 and 5 gives X the top row, yet the shuffling move does not
  end the game (`GameInvariant.ShuffleCompletesLine`). The next accepted
  move, by either player and on any board, then ends the game with X as the
  winner (`GameInvariant.NextMoveAfterCompletedLine`).

Some functions of the source are predicates without a contract of their
own; their meaning is stated where they are used:

- `shouldTriggerRoleSwap` of the engine is `Engine.ShouldTriggerRoleSwap`.
  `Engine.Cascade` states that the role swap fires exactly when it is not
  suppressed and this trigger holds, and `Engine.MakeMoveRoleSwapTrigger`
  restates that in terms of the state before the move.
- `shouldTriggerShuffle` and `shouldTriggerRoleSwap` of the relay are
  `Relay.ShouldTriggerShuffle` and `Relay.ShouldTriggerRoleSwap`.
  `Relay.Broadcast` states that each event is sent exactly when its
  trigger holds. `RelayProperties.ClientShuffleImpliesRelayShuffle`,
  `RelayProperties.RelayShufflesFinishedGame` and
  `RelayProperties.RoleSwapTriggersDisjoint` compare them with the
  engine's triggers.

## Model

| member | source | states |
|---|---|---|
| Board.SmallBoardWinner | lib/gameLogic.ts:49-75 | a small board is won exactly when some player holds one of the eight lines, and the reported player owns the first held line in table order; drawn exactly when no line is held and all nine cells are filled; open otherwise |
| Board.BigBoardWinner | lib/gameLogic.ts:80-99 | the meta-board winner holds three conquered boards in a line, and it is the owner of the first such line in table order; there is no winner exactly when neither player holds such a line (drawn boards count for nobody) |
| Board.FirstLineDecides | lib/gameLogic.ts:80-99 | a player holding the top row of the meta-board is its winner, whatever the other boards show |
| Board.ConqueredBoardsFormWinningLine | lib/gameLogic.ts:104-120 | true exactly when the boards won by one player include a whole winning line |
| Board.ConqueredLineIsMetaWin | lib/gameLogic.ts:141-145 | the two exclusions of the instability trigger (a line of conquered boards; a meta-board winner) are the same condition |
| Board.CountConqueredByMultiset | lib/gameLogic.ts:134-137 | the conquered count is the number of boards won by X plus those won by O, so it depends only on the multiset of outcomes and any relocation keeps it |
| Shuffle.FisherYates | lib/gameLogic.ts:155-158 | each swap step of the loop keeps the multiset of entries |
| Shuffle.GenerateShuffleMapping | lib/gameLogic.ts:153-160 | for any in-range random draws the result is a permutation of 0..8: nine entries, all in range, pairwise distinct, every position hit |
| Shuffle.RearrangedIdentityIsPermutation | lib/gameLogic.ts:154-159 | any rearrangement of `[0..8]` is a bijection of the nine positions |
| Shuffle.Scatter | lib/gameLogic.ts:169-179 | after the first n rounds of the relocation loop, slot `m[i]` holds source entry i for every i < n, and every slot not yet written keeps its initial value |
| Shuffle.ScatterPermutes | lib/gameLogic.ts:169-179 | writing all nine entries through a permutation gives a rearrangement of the source: the same multiset |
| Engine.InitializeGame | lib/gameLogic.ts:28-46 | the fresh game has 81 empty cells and nine open boards; X moves first with no forced board; the game is not over, has no winner and is not drawn; no latch is set, the counter is zero and the animation signals are already clear; it satisfies the game invariant, and every one of the 81 cells is a legal move |
| Engine.ResetGame | lib/gameLogic.ts:485-487 | reset yields the fresh game, so the invariant holds and every cell is playable |
| Engine.ShouldTriggerInstability | lib/gameLogic.ts:130-148 | the shuffle fires exactly when it has not fired before, the game runs, exactly three boards are conquered, and neither player holds a line of the meta-board |
| Engine.ApplyShuffleMapping | lib/gameLogic.ts:166-196 | board i moves with its cells and its outcome to position `mapping[i]`; the boards and outcomes are the same multisets as before; the forced board is relocated; the shuffle latch and the signals are set, the counter is zeroed, and nothing else changes |
| Engine.PerformInstabilityShuffle | lib/gameLogic.ts:202-205 | the local shuffle applies a permutation drawn by Fisher-Yates and records it as the shuffle mapping |
| Engine.ClearAnimationFlags | lib/gameLogic.ts:227-234 | the three one-shot signals are cleared and every other field is unchanged |
| Engine.MakeMove | lib/gameLogic.ts:239-329 | a move is accepted exactly when the cell index is in 0..8, the game runs, the cell is empty, its board is open, and an open forced board is respected; an accepted move that shuffles records a permutation; one without a shuffle writes exactly one cell (the mover's mark) and re-evaluates only that board |
| Engine.Place | lib/gameLogic.ts:262-275 | the mark: cell c of board b gets the mover's mark and every other cell stays; board b's outcome is re-evaluated and no other outcome changes; the three signals are cleared and nothing else changes |
| Engine.Cascade | lib/gameLogic.ts:309-326 | the shuffle fires exactly when it is not suppressed and the shuffle trigger holds, and then applies a recorded permutation; the role swap fires exactly when it is not suppressed and the role-swap trigger holds with a winning coin; a suppressed cascade changes nothing; the latches never reset and each signal marks its latch being set |
| Engine.CascadeKeepsTurn | lib/gameLogic.ts:309-326 | the chaos cascade keeps the game result and the side to move; it relocates the forced board and zeroes the counter exactly when it shuffles |
| Engine.CascadeRelocates | lib/gameLogic.ts:309-313 | a cascade that shuffles moves board i and its outcome to `mapping[i]` under a genuine permutation |
| Engine.ResolveShuffles | lib/gameLogic.ts:277-313 | a shuffle can only happen on a move that neither wins nor draws, after the turn has been handed over |
| Engine.MakeMoveShuffleTrigger | lib/gameLogic.ts:277-313 | a move shuffles exactly when shuffles are not suppressed, the shuffle has not happened before, and the mark leaves exactly three boards conquered, no meta-board line and some board open |
| Engine.MakeMoveRoleSwapTrigger | lib/gameLogic.ts:277-326 | a move raises the role swap exactly when shuffles are not suppressed, the coin is won, the shuffle has happened and the role swap has not, this is the fifth move after the shuffle, and the mark neither wins nor draws |
| Engine.MakeMoveShuffleStatus | lib/gameLogic.ts:262-275 | when a move shuffles, the outcome of board i after the mark is found at position `mapping[i]`, for a permutation `mapping` |
| Engine.MakeMoveShuffleBoards | lib/gameLogic.ts:262-275 | when a move shuffles, board i after the mark, including the new mark, is found at position `mapping[i]` |
| Engine.MakeMoveWins | lib/gameLogic.ts:277-283 | a move that completes a meta-board line ends the game with that winner; the side to move, the forced board and the counter stay, and neither chaos event fires |
| Engine.MakeMoveDraws | lib/gameLogic.ts:285-290 | a move that decides the last open board without a meta-board line ends the game as a draw, with no winner and no chaos event |
| Engine.MakeMoveHandsOver | lib/gameLogic.ts:292-307 | otherwise the game goes on, the other player moves, the forced board is the played cell's board if it is open (relocated by a shuffle), and the counter advances only after the shuffle |
| Engine.MakeMoveLatches | lib/gameLogic.ts:305-326 | the two latches never reset; each signal is raised exactly when its latch is newly set; a role swap needs a winning coin and five moves after the shuffle; a suppressed move sets no latch and raises no signal |
| LegalMoves.EmptyCells | lib/gameLogic.ts:340-358 | lists exactly the empty cells of one board, in cell order |
| LegalMoves.GetLegalMoves | lib/gameLogic.ts:334-361 | the listed moves are exactly the legal ones and exactly those `makeMove` accepts, for any cell index and whatever the random draws; they come in board-major order without repetition; none are listed once the game is over; all lie in an open forced board |
| GameInvariant.PlaceAgrees | lib/gameLogic.ts:262-275 | after a mark every board's recorded outcome still matches its cells |
| GameInvariant.ShuffleAgrees | lib/gameLogic.ts:166-196 | a relocation keeps every board's outcome matched to its cells, and an open forced board stays open at its new position |
| GameInvariant.ShufflePreservesInvariant | lib/gameLogic.ts:166-196 | applying any permutation to a running game keeps the game invariant |
| GameInvariant.CascadePreservesInvariant | lib/gameLogic.ts:309-326 | the chaos cascade keeps the game invariant |
| GameInvariant.HandOverPreservesInvariant | lib/gameLogic.ts:292-307 | handing the turn over after a non-final mark keeps the game invariant |
| GameInvariant.MakeMovePreservesInvariant | lib/gameLogic.ts:239-329 | every accepted move keeps the invariant: outcomes match cells, a forced board is open, the game is over exactly when it is won or drawn, never both, the winner holds a meta-board line, a draw has every board decided, and no post-shuffle state exists before the shuffle |
| GameInvariant.ShuffleCompletesLine | lib/gameLogic.ts:130-196 | with X's conquered boards at 0, 1 and 5 the shuffle trigger holds, and exchanging positions 2 and 5 gives X the top row of the meta-board while the game is not over |
| GameInvariant.NextMoveAfterCompletedLine | lib/gameLogic.ts:277-283 | from a running game where X holds the top row, any accepted move ends the game with X as the winner |
| GameRuns.Replay | lib/gameLogic.ts:239-329 | every state reached by a run of accepted moves is well formed |
| GameRuns.ChaosEventsAreOneShot | lib/gameLogic.ts:305-326 | over any run of moves the shuffle and the role swap each happen at most once, and exactly once when the run sets that latch |
| GameRuns.ReplayPreservesInvariant | lib/gameLogic.ts:239-329 | every state reached from a state satisfying the invariant satisfies it |
| GameRuns.FromTheStart | lib/gameLogic.ts:28-46 | a game played from the start keeps the invariant and has at most one shuffle and one role swap |
| RoomIdForm.TrimStart | components/ModeSelector.tsx:37 | leading white space is removed and nothing else: the result is a suffix, what was removed is white space, and the result does not start with white space |
| RoomIdForm.TrimEnd | components/ModeSelector.tsx:37 | trailing white space is removed and nothing else: the result is a prefix, what was removed is white space, and the result does not end with white space |
| RoomIdForm.TrimIsInfix | components/ModeSelector.tsx:37 | the trimmed id is a contiguous part of the typed id with only white space around it |
| RoomIdForm.TrimmedEnds | components/ModeSelector.tsx:37 | the trimmed id neither starts nor ends with white space |
| RoomIdForm.TrimIdempotent | components/ModeSelector.tsx:37 | trimming twice is trimming once |
| RoomIdForm.TrimEmpty | components/ModeSelector.tsx:37-38 | an id trims to nothing exactly when it is all white space |
| RoomIdForm.JsLength | components/ModeSelector.tsx:20-27 | the string length the checks use counts UTF-16 code units: it lies between the character count and twice it, and equals the character count when no character lies outside the Basic Multilingual Plane |
| RoomIdForm.JsLengthOfChar | components/ModeSelector.tsx:20-27 | a character outside the Basic Multilingual Plane counts two code units, any other character one |
| RoomIdForm.JsLengthConcat | components/ModeSelector.tsx:20-27 | the length of a concatenation is the sum of the lengths |
| RoomIdForm.TwoEmojiAreBadCharacters | components/ModeSelector.tsx:19-34 | an id of two emoji has length 4, so it passes both length checks and is refused with the character message rather than the too-short one |
| RoomIdForm.MatchesPattern | components/ModeSelector.tsx:28 | the pattern matches exactly a non-empty id of letters, digits, hyphens and underscores |
| RoomIdForm.ValidateRoomId | components/ModeSelector.tsx:19-34 | an id is accepted exactly when its length is 3 to 30 and every character is in the class; the message is empty exactly when the id is accepted; the too-short message wins over the too-long one, which wins over the character one |
| RoomIdForm.ValidIdIsAscii | components/ModeSelector.tsx:19-34 | an accepted id has 3 to 30 characters, and every one of them is ASCII |
| RoomIdForm.HandleOnlineJoin | components/ModeSelector.tsx:36-49 | an id that trims to nothing creates a room and hides the input; a valid trimmed id is joined and the form is cleared; an invalid one selects nothing and shows its message; a joined id is always valid and already trimmed |
| Relay.Without | server/index.js:72 | removing a socket from a roster keeps every other entry with its count and drops every occurrence of that socket |
| Relay.Vacate | server/index.js:70-76 | the socket leaves the roster of its room; the room is deleted exactly when nobody else is left; other rooms are untouched |
| Relay.Others | server/index.js:155 | the recipients of a relayed event are the room's roster without the sender |
| Relay.Join | server/index.js:66-101 | the socket's room becomes the new id; its roster is the old roster with the socket appended, and the room keeps its snapshot, or it is a new room holding only the socket and no snapshot; the whole new room is told the player count and whether two are present; the previous room loses the socket, keeps everyone else in order with its snapshot, and disappears exactly when it had nobody else; rejoining the current room moves the socket to the end, or starts afresh when it was alone; other rooms are unchanged |
| Relay.Depart | server/index.js:104-120 | the shared end of leave and disconnect: the socket leaves its room; the room is deleted exactly when nobody else remains, otherwise it keeps its snapshot and the rest are told the player count and that the game has stopped |
| Relay.Leave | server/index.js:173-191 | without a room, leave does nothing; otherwise it departs and forgets the room |
| Relay.Disconnect | server/index.js:104-120 | disconnect departs the room when there is one, and in every case the connection's room id is gone |
| Relay.Broadcast | server/index.js:123-146 | the snapshot is stored in the sender's room, nothing else changes, the whole room receives a chaos swap exactly when the relay's shuffle trigger holds and a role swap exactly when its role-swap trigger holds; each is sent at most once, the chaos swap first, and the only events are those two |
| Relay.ChaosSwapIsPermutation | server/index.js:27-34 | every chaos swap the relay sends carries a permutation of 0..8 |
| Relay.MoveEvent | server/index.js:149-157 | a move changes no state and goes to the room's other sockets exactly once, with the indices unchanged and unchecked; without a room nothing is sent |
| Relay.ResetEvent | server/index.js:160-170 | a reset clears the room's snapshot and goes to the other sockets; without a room nothing happens |
| RelayProperties.OneRoster | server/index.js:64-101 | under the roster invariant a socket is on at most one roster, and only once |
| RelayProperties.WithoutDistinct | server/index.js:72 | filtering a roster without repetitions leaves one without repetitions |
| RelayProperties.VacateKeepsRosters | server/index.js:68-77 | vacating the socket's room and forgetting its id keeps the roster invariant, and the socket is on no roster |
| RelayProperties.JoinKeepsRosters | server/index.js:66-101 | joining a non-empty room id keeps the roster invariant |
| RelayProperties.SelectedRoomKeepsRosters | components/ModeSelector.tsx:36-49 | joining any id the form selects keeps the roster invariant |
| RelayProperties.LeaveKeepsRosters | server/index.js:173-191 | leaving keeps the roster invariant |
| RelayProperties.DisconnectKeepsRosters | server/index.js:104-120 | disconnecting keeps the roster invariant |
| RelayProperties.GameStateKeepsRosters | server/index.js:123-146 | storing a snapshot keeps the roster invariant |
| RelayProperties.MoveKeepsRosters | server/index.js:149-157 | relaying a move keeps the roster invariant |
| RelayProperties.ResetKeepsRosters | server/index.js:160-170 | relaying a reset keeps the roster invariant |
| RelayProperties.EmptyRoomIdLeavesTwoRosters | server/index.js:66-81 | a socket that joins the empty id and then another room is left on both rosters, because the empty id is not truthy |
| RelayProperties.ClientShuffleImpliesRelayShuffle | server/index.js:37-46 | whenever the client's shuffle trigger holds for a snapshot, the relay's holds too |
| RelayProperties.RelayShufflesFinishedGame | server/index.js:37-46 | a snapshot of a won game with three conquered boards satisfies the relay's trigger but not the client's |
| RelayProperties.ChaosSwapScattersWinningLine | lib/gameLogic.ts:166-196 | applying a chaos swap to a won game can leave no meta-board line while the game stays over with its winner |
| RelayProperties.RoleSwapTriggersDisjoint | server/index.js:49-57 | the relay's role swap fires two moves after the shuffle, the client's after five with a winning coin, so the two never hold together |
| RelayProperties.NoRelayLatch | server/index.js:123-146 | sending the same snapshot twice triggers the same events the second time |

## Left out

- The presentation layer is not part of this model: rendering, themes,
  the page's socket wiring, and the client socket helper. This covers
  `app/page.tsx`, `lib/socket.ts` and the components other than the
  room-id form.
- The computer opponent's move choice (`getAIMove` and its heuristics) is
  not modelled. It only chooses among the legal moves, which
  `LegalMoves.GetLegalMoves` characterizes.
- `Math.random` is not modelled. Its outcomes are inputs: eight in-range
  Fisher-Yates draws and a boolean coin for the role swap.
- The Socket.IO and HTTP plumbing, CORS, the listening port and all
  logging are not modelled. Each handler is a function of the relay state
  and the connection id. Its emissions are returned in order.
- Socket.IO room membership is not modelled separately. The recipients of
  `io.to(room)` are taken to be the room's roster, and those of
  `socket.to(room)` are the roster without the sender. For game rooms the
  two agree whenever the roster invariant holds. Socket.IO also puts every
  socket in a personal room named by its socket id. A room id that equals
  another socket's id would reach that socket as well, although it is on
  no roster. That case is not modelled.
- The relay stores whatever snapshot a client sends. Here the snapshot is
  typed as the engine's game state or nothing, and the room id of a join
  is a string. Malformed payloads are not modelled.
- Engine.MakeMove: the board index is required to be in 0..8. An
  out-of-range board index makes the original throw unless the game is
  over. A cell index outside 0..8 is accepted as input and the move is
  rejected, as in the original. Non-integer indices are outside the model.
- Engine.Resolve: carries only the well-formedness of its result. What it
  does in each case is stated by `Engine.MakeMoveWins`,
  `Engine.MakeMoveDraws`, `Engine.MakeMoveHandsOver` and the trigger lemmas.
- Engine.ApplyShuffleMapping: requires a permutation of 0..8. The
  original trusts its argument, and every mapping it receives comes from
  Fisher-Yates, here or on the relay (`Relay.ChaosSwapIsPermutation`).
- Relay.GameStateEvent: carries no contract of its own. It is
  `Relay.Broadcast` applied to the Fisher-Yates permutation, so its
  behaviour is stated on `Relay.Broadcast`. That the mapping is a
  permutation is stated in `Relay.ChaosSwapIsPermutation`.
- RoomIdForm.Trim: carries no contract of its own. The lemmas
  `RoomIdForm.TrimIsInfix`, `RoomIdForm.TrimmedEnds`,
  `RoomIdForm.TrimIdempotent` and `RoomIdForm.TrimEmpty` characterize it.
- RoomIdForm.HandleOnlineJoin: the callback `onModeSelect` is returned as a
  selection rather than called.
- RelayProperties.JoinKeepsRosters: requires a non-empty room id. With the
  empty id the invariant fails, as
  `RelayProperties.EmptyRoomIdLeavesTwoRosters` shows.
