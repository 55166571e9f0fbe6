/**
 The Ultimate Tic-Tac-Toe rule engine: a value-typed game state and the pure
 transitions over it (a move, its legality, the instability shuffle, the
 role-swap latch, clearing the one-shot animation signals, a fresh game).
 Every call of `Math.random` in the original is an explicit input here.
 */
module Engine {
  import opened Options
  import opened Board
  import opened Shuffle

  /** The whole state of one game. */
  datatype GameState = GameState(
    boards: seq<seq<Cell>>,            // nine small boards of nine cells
    boardStatus: seq<Status>,          // the outcome of each small board
    currentPlayer: Player,             // the side to move
    forcedBoard: Option<int>,          // the board the next move must use, while it is open
    gameOver: bool,
    winner: Option<Player>,
    isDraw: bool,
    instabilityTriggered: bool,        // one-shot latch: the shuffle has happened
    shuffleJustHappened: bool,         // signal for the presentation layer
    shuffleMapping: Option<seq<int>>,  // the permutation of the latest shuffle, old index to new
    postShuffleMoves: nat,             // moves made since the shuffle
    roleSwapTriggered: bool,           // one-shot latch: the role swap has happened
    roleSwapJustHappened: bool)        // signal for the presentation layer

  /**
   The random inputs one move may consume: the Fisher-Yates draws of a shuffle
   and the role-swap coin (`Math.random() < 0.5`).
   */
  datatype Chance = Chance(choices: seq<int>, coin: bool)

  /** Nine boards of nine cells, nine outcomes, and a forced board that names a board. */
  predicate WellFormed(s: GameState)
  {
    && |s.boards| == 9
    && (forall i :: 0 <= i < 9 ==> |s.boards[i]| == 9)
    && |s.boardStatus| == 9
    && (s.forcedBoard.Some? ==> 0 <= s.forcedBoard.value < 9)
  }

  /**
   What every state reached from a fresh game by accepted moves satisfies
   (`GameRuns.Replay`); a chaos swap applied from outside to a finished game
   can break it. The clauses: outcomes agree with
   the boards, a forced board is open while the game runs, the game is over
   exactly when it has a winner or is drawn (never both), a winner holds a
   line of the meta-board, a draw has all boards decided and no such line,
   and nothing happens after the shuffle before the shuffle.
   */
  predicate Invariant(s: GameState)
  {
    && WellFormed(s)
    && (forall i :: 0 <= i < 9 ==> s.boardStatus[i] == SmallBoardWinner(s.boards[i]))
    && (!s.gameOver && s.forcedBoard.Some? ==> s.boardStatus[s.forcedBoard.value] == Open)
    && (s.gameOver <==> s.winner.Some? || s.isDraw)
    && !(s.winner.Some? && s.isDraw)
    && (s.winner.Some? ==> BigBoardWinner(s.boardStatus) == s.winner)
    && (s.isDraw ==> AllDecided(s.boardStatus) && BigBoardWinner(s.boardStatus).None?)
    && (!s.instabilityTriggered ==> s.postShuffleMoves == 0 && !s.roleSwapTriggered)
  }

  /** A fresh game: empty boards, X to move, no constraint, no latch set. */
  function InitializeGame(): (r: GameState)
    ensures Invariant(r)
    ensures forall b, c :: 0 <= b < 9 && 0 <= c < 9 ==> Legal(r, b, c)
    ensures r.currentPlayer == X && !r.instabilityTriggered && !r.roleSwapTriggered
    ensures forall b, c :: 0 <= b < 9 && 0 <= c < 9 ==> r.boards[b][c].None? && r.boardStatus[b] == Open
    ensures r.forcedBoard.None? && !r.gameOver && r.winner.None? && !r.isDraw && r.postShuffleMoves == 0
    ensures ClearAnimationFlags(r) == r
  {
    GameState(Repeat(Repeat(None, 9), 9), Repeat(Open, 9), X, None, false, None, false,
              false, false, None, 0, false, false)
  }

  /** Starting over gives the fresh game again. */
  function ResetGame(): (r: GameState)
    ensures r == InitializeGame()
    ensures Invariant(r) && forall b, c :: 0 <= b < 9 && 0 <= c < 9 ==> Legal(r, b, c)
  {
    InitializeGame()
  }

  // ---------------------------------------------------------------------------
  // Legality

  /** A forced board is set and that board is still open. */
  predicate ForcedActive(s: GameState)
    requires WellFormed(s)
  {
    s.forcedBoard.Some? && s.boardStatus[s.forcedBoard.value] == Open
  }

  /**
   The rules of a legal move: the game runs, the cell is empty, its board is
   open, and the move respects an active forced board.
   */
  predicate Legal(s: GameState, b: int, c: int)
    requires WellFormed(s) && 0 <= b < 9 && 0 <= c < 9
  {
    && !s.gameOver
    && s.boards[b][c].None?
    && s.boardStatus[b] == Open
    && (ForcedActive(s) ==> b == s.forcedBoard.value)
  }

  // ---------------------------------------------------------------------------
  // Triggers and the shuffle

  /**
   The instability shuffle fires once, while the game runs, when exactly three
   boards are conquered and no player holds a line of the meta-board.
   */
  function ShouldTriggerInstability(s: GameState): (r: bool)
    requires |s.boardStatus| == 9
    ensures r <==> && !s.instabilityTriggered && !s.gameOver
                   && CountConquered(s.boardStatus) == 3
                   && !MetaWon(s.boardStatus, X) && !MetaWon(s.boardStatus, O)
  {
    if s.instabilityTriggered then false
    else if s.gameOver then false
    else if CountConquered(s.boardStatus) != 3 then false
    else if ConqueredBoardsFormWinningLine(s.boardStatus) then false
    else if BigBoardWinner(s.boardStatus).Some? then false
    else true
  }

  /** The index `i` relocated by `mapping`, if there is one. */
  function Relocate(i: Option<int>, mapping: seq<int>): Option<int>
    requires IsPermutation(mapping) && (i.Some? ==> 0 <= i.value < 9)
  {
    if i.Some? then Some(mapping[i.value]) else None
  }

  /**
   Moves the board at position `i`, with its outcome, to position
   `mapping[i]`, relocates the forced board, and latches the shuffle.
   */
  function ApplyShuffleMapping(s: GameState, mapping: seq<int>): (r: GameState)
    requires WellFormed(s) && IsPermutation(mapping)
    ensures WellFormed(r)
    ensures forall i :: 0 <= i < 9 ==> r.boards[mapping[i]] == s.boards[i] && r.boardStatus[mapping[i]] == s.boardStatus[i]
    ensures multiset(r.boards) == multiset(s.boards) && multiset(r.boardStatus) == multiset(s.boardStatus)
    ensures r.forcedBoard == Relocate(s.forcedBoard, mapping)
    ensures r.instabilityTriggered && r.shuffleJustHappened && r.shuffleMapping == Some(mapping) && r.postShuffleMoves == 0
    ensures r.(boards := s.boards, boardStatus := s.boardStatus, forcedBoard := s.forcedBoard,
               instabilityTriggered := s.instabilityTriggered, shuffleJustHappened := s.shuffleJustHappened,
               shuffleMapping := s.shuffleMapping, postShuffleMoves := s.postShuffleMoves) == s
  {
    var newBoards := Scatter(mapping, s.boards, [], 9);
    var newBoardStatus := Scatter(mapping, s.boardStatus, Open, 9);
    ScatterPermutes(mapping, s.boards, []);
    ScatterPermutes(mapping, s.boardStatus, Open);
    assert forall j :: 0 <= j < 9 ==> |newBoards[j]| == 9 by {
      forall j | 0 <= j < 9
        ensures |newBoards[j]| == 9
      {
        assert newBoards[j] in multiset(s.boards);
      }
    }
    s.(boards := newBoards,
       boardStatus := newBoardStatus,
       forcedBoard := Relocate(s.forcedBoard, mapping),
       instabilityTriggered := true,
       shuffleJustHappened := true,
       shuffleMapping := Some(mapping),
       postShuffleMoves := 0)
  }

  /** The local shuffle: a Fisher-Yates permutation drawn from `choices`, then applied. */
  function PerformInstabilityShuffle(s: GameState, choices: seq<int>): (r: GameState)
    requires WellFormed(s) && ValidChoices(choices)
    ensures r.shuffleMapping.Some? && IsPermutation(r.shuffleMapping.value)
    ensures r == ApplyShuffleMapping(s, r.shuffleMapping.value)
  {
    ApplyShuffleMapping(s, GenerateShuffleMapping(choices))
  }

  /** The local role-swap trigger: five moves after the shuffle, and a winning coin. */
  predicate ShouldTriggerRoleSwap(s: GameState, coin: bool)
  {
    && s.instabilityTriggered
    && !s.roleSwapTriggered
    && !s.gameOver
    && s.postShuffleMoves == 5
    && coin
  }

  /** Clears the three one-shot signals and touches nothing else. */
  function ClearAnimationFlags(s: GameState): (r: GameState)
    ensures !r.shuffleJustHappened && r.shuffleMapping.None? && !r.roleSwapJustHappened
    ensures r.(shuffleJustHappened := s.shuffleJustHappened, shuffleMapping := s.shuffleMapping,
               roleSwapJustHappened := s.roleSwapJustHappened) == s
  {
    s.(shuffleJustHappened := false, shuffleMapping := None, roleSwapJustHappened := false)
  }

  // ---------------------------------------------------------------------------
  // A move

  /** Board `b` after the current player marks cell `c`. */
  function MarkedBoard(s: GameState, b: int, c: int): seq<Cell>
    requires WellFormed(s) && 0 <= b < 9 && 0 <= c < 9
  {
    s.boards[b][c := Some(s.currentPlayer)]
  }

  /** The board outcomes once board `b` is re-evaluated after the mark. */
  function SettledStatus(s: GameState, b: int, c: int): seq<Status>
    requires WellFormed(s) && 0 <= b < 9 && 0 <= c < 9
  {
    s.boardStatus[b := SmallBoardWinner(MarkedBoard(s, b, c))]
  }

  /** The forced board handed to the opponent: the played cell's board, if it is open. */
  function NextForced(s: GameState, b: int, c: int): Option<int>
    requires WellFormed(s) && 0 <= b < 9 && 0 <= c < 9
  {
    if SettledStatus(s, b, c)[c] == Open then Some(c) else None
  }

  /**
   The first half of an accepted move: the mark written, the animation
   signals cleared, the marked board re-evaluated.
   */
  function Place(s: GameState, b: int, c: int): (p: GameState)
    requires WellFormed(s) && 0 <= b < 9 && 0 <= c < 9 && s.boardStatus[b] == Open
    ensures WellFormed(p)
    ensures p.boardStatus == SettledStatus(s, b, c)
    ensures forall i, j :: 0 <= i < 9 && 0 <= j < 9 ==>
              p.boards[i][j] == (if i == b && j == c then Some(s.currentPlayer) else s.boards[i][j])
    ensures p == ClearAnimationFlags(s).(boards := p.boards, boardStatus := p.boardStatus)
  {
    var board := s.boards[b][c := Some(s.currentPlayer)];
    var boardWinner := SmallBoardWinner(board);
    s.(boards := s.boards[b := board],
       boardStatus := if boardWinner != Open then s.boardStatus[b := boardWinner] else s.boardStatus,
       shuffleJustHappened := false,
       shuffleMapping := None,
       roleSwapJustHappened := false)
  }

  /**
   The end of a move that does not finish the game: the opponent is sent to
   the board named by the played cell, unless that board is decided, and the
   post-shuffle counter advances once the shuffle has happened.
   */
  function HandOver(p: GameState, c: int): GameState
    requires WellFormed(p) && 0 <= c < 9
  {
    p.(forcedBoard := if p.boardStatus[c] != Open then None else Some(c),
       currentPlayer := Opponent(p.currentPlayer),
       postShuffleMoves := if p.instabilityTriggered then p.postShuffleMoves + 1 else p.postShuffleMoves)
  }

  /**
   The chaos cascade after a move: the shuffle when its trigger holds, then
   the role swap when its trigger holds; neither when suppressed.
   */
  function Cascade(n: GameState, suppressShuffle: bool, chance: Chance): (r: GameState)
    requires WellFormed(n) && ValidChoices(chance.choices)
    requires !n.shuffleJustHappened && !n.roleSwapJustHappened
    ensures WellFormed(r)
    ensures suppressShuffle ==> r == n
    ensures r.shuffleJustHappened <==> !suppressShuffle && ShouldTriggerInstability(n)
    ensures r.roleSwapJustHappened <==> !suppressShuffle && ShouldTriggerRoleSwap(n, chance.coin)
    ensures r.shuffleJustHappened <==> !n.instabilityTriggered && r.instabilityTriggered
    ensures !r.shuffleJustHappened ==>
      r.(roleSwapTriggered := n.roleSwapTriggered, roleSwapJustHappened := false) == n
    ensures r.shuffleJustHappened ==>
      && !suppressShuffle && ShouldTriggerInstability(n)
      && r.shuffleMapping.Some? && IsPermutation(r.shuffleMapping.value)
      && r.(roleSwapTriggered := n.roleSwapTriggered, roleSwapJustHappened := false)
         == ApplyShuffleMapping(n, r.shuffleMapping.value)
    ensures n.roleSwapTriggered ==> r.roleSwapTriggered
    ensures r.roleSwapJustHappened <==> !n.roleSwapTriggered && r.roleSwapTriggered
    ensures r.roleSwapJustHappened ==> !suppressShuffle && chance.coin && r.postShuffleMoves == 5
  {
    var shuffled :=
      if !suppressShuffle && ShouldTriggerInstability(n) then PerformInstabilityShuffle(n, chance.choices)
      else n;
    if !suppressShuffle && ShouldTriggerRoleSwap(shuffled, chance.coin) then
      shuffled.(roleSwapTriggered := true, roleSwapJustHappened := true)
    else shuffled
  }

  /**
   The second half of an accepted move, after the mark: a meta-win ends the
   game first, a board of all decided boards ends it as a draw, and otherwise
   the turn passes and the chaos cascade runs.
   */
  function Resolve(p: GameState, c: int, suppressShuffle: bool, chance: Chance): (r: GameState)
    requires WellFormed(p) && 0 <= c < 9 && ValidChoices(chance.choices)
    requires !p.shuffleJustHappened && !p.roleSwapJustHappened
    ensures WellFormed(r)
  {
    match BigBoardWinner(p.boardStatus)
    case Some(w) => p.(gameOver := true, winner := Some(w))
    case None =>
      if AllDecided(p.boardStatus) then p.(gameOver := true, isDraw := true)
      else Cascade(HandOver(p, c), suppressShuffle, chance)
  }

  /**
   Plays cell `c` of board `b` for the side to move; `None` is the original's
   `null`, a rejected move. With `suppressShuffle` false the move may cascade
   into the instability shuffle and the role swap, which consume `chance`.
   A cell index outside 0..8 reads a missing cell, which is not empty, so the
   move is rejected.
   */
  function MakeMove(s: GameState, b: int, c: int, suppressShuffle: bool, chance: Chance): (r: Option<GameState>)
    requires WellFormed(s) && 0 <= b < 9 && ValidChoices(chance.choices)
    ensures r.Some? <==> 0 <= c < 9 && Legal(s, b, c)
    ensures r.Some? ==> WellFormed(r.value)
    ensures r.Some? && r.value.shuffleJustHappened ==>
      r.value.shuffleMapping.Some? && IsPermutation(r.value.shuffleMapping.value)
    ensures r.Some? && !r.value.shuffleJustHappened ==>
      && r.value.boardStatus == SettledStatus(s, b, c)
      && forall i, j :: 0 <= i < 9 && 0 <= j < 9 ==>
           r.value.boards[i][j] == (if i == b && j == c then Some(s.currentPlayer) else s.boards[i][j])
  {
    if s.gameOver then None
    else if !(0 <= c < 9) then None
    else if s.boards[b][c] != None then None
    else if s.boardStatus[b] != Open then None
    else if s.forcedBoard.Some? && s.boardStatus[s.forcedBoard.value] == Open && b != s.forcedBoard.value then None
    else
      ResolveOfPlace(s, b, c, suppressShuffle, chance);
      Some(Resolve(Place(s, b, c), c, suppressShuffle, chance))
  }

  /** What `MakeMove` promises about the board once a legal mark is resolved. */
  lemma ResolveOfPlace(s: GameState, b: int, c: int, suppressShuffle: bool, chance: Chance)
    requires WellFormed(s) && 0 <= b < 9 && 0 <= c < 9 && ValidChoices(chance.choices)
    requires s.boardStatus[b] == Open
    ensures var r := Resolve(Place(s, b, c), c, suppressShuffle, chance);
      && (r.shuffleJustHappened ==> r.shuffleMapping.Some? && IsPermutation(r.shuffleMapping.value))
      && (!r.shuffleJustHappened ==> r.boardStatus == SettledStatus(s, b, c) && r.boards == Place(s, b, c).boards)
  {
    var p := Place(s, b, c);
    if BigBoardWinner(p.boardStatus).None? && !AllDecided(p.boardStatus) {
      HandOverOfPlace(s, b, c);
      assert Resolve(p, c, suppressShuffle, chance) == Cascade(HandOver(p, c), suppressShuffle, chance);
    }
  }

  /** An accepted move is the mark followed by the resolution of the turn. */
  lemma AcceptedMove(s: GameState, b: int, c: int, suppressShuffle: bool, chance: Chance)
    requires WellFormed(s) && 0 <= b < 9 && 0 <= c < 9 && ValidChoices(chance.choices)
    requires Legal(s, b, c)
    ensures MakeMove(s, b, c, suppressShuffle, chance) == Some(Resolve(Place(s, b, c), c, suppressShuffle, chance))
  {
  }

  /** What the cascade does to the fields a hand-over sets. */
  lemma CascadeKeepsTurn(n: GameState, suppressShuffle: bool, chance: Chance)
    requires WellFormed(n) && ValidChoices(chance.choices)
    requires !n.shuffleJustHappened && !n.roleSwapJustHappened
    ensures var r := Cascade(n, suppressShuffle, chance);
      && r.gameOver == n.gameOver && r.winner == n.winner && r.isDraw == n.isDraw
      && r.currentPlayer == n.currentPlayer
      && r.forcedBoard == (if r.shuffleJustHappened then Relocate(n.forcedBoard, r.shuffleMapping.value) else n.forcedBoard)
      && r.postShuffleMoves == (if r.shuffleJustHappened then 0 else n.postShuffleMoves)
  {
    var r := Cascade(n, suppressShuffle, chance);
    if r.shuffleJustHappened {
      var a := ApplyShuffleMapping(n, r.shuffleMapping.value);
      assert r.(roleSwapTriggered := n.roleSwapTriggered, roleSwapJustHappened := false) == a;
    } else {
      assert r.(roleSwapTriggered := n.roleSwapTriggered, roleSwapJustHappened := false) == n;
    }
  }

  /** A cascade that shuffles relocates the boards and their outcomes along the mapping. */
  lemma CascadeRelocates(n: GameState, suppressShuffle: bool, chance: Chance)
    requires WellFormed(n) && ValidChoices(chance.choices)
    requires !n.shuffleJustHappened && !n.roleSwapJustHappened
    ensures var r := Cascade(n, suppressShuffle, chance);
      r.shuffleJustHappened ==>
        && r.shuffleMapping.Some? && IsPermutation(r.shuffleMapping.value)
        && (forall i :: 0 <= i < 9 ==> r.boardStatus[r.shuffleMapping.value[i]] == n.boardStatus[i])
        && (forall i :: 0 <= i < 9 ==> r.boards[r.shuffleMapping.value[i]] == n.boards[i])
  {
    var r := Cascade(n, suppressShuffle, chance);
    if r.shuffleJustHappened {
      var a := ApplyShuffleMapping(n, r.shuffleMapping.value);
      assert r.(roleSwapTriggered := n.roleSwapTriggered, roleSwapJustHappened := false) == a;
      assert r.boards == a.boards && r.boardStatus == a.boardStatus;
    }
  }

  /** A shuffle during the resolution of a turn comes from the cascade after the hand-over. */
  lemma ResolveShuffles(p: GameState, c: int, suppressShuffle: bool, chance: Chance)
    requires WellFormed(p) && 0 <= c < 9 && ValidChoices(chance.choices)
    requires !p.shuffleJustHappened && !p.roleSwapJustHappened
    ensures var r := Resolve(p, c, suppressShuffle, chance);
      r.shuffleJustHappened ==>
        && BigBoardWinner(p.boardStatus).None? && !AllDecided(p.boardStatus)
        && r == Cascade(HandOver(p, c), suppressShuffle, chance)
  {
  }

  /**
   A shuffle cascades from a move only when shuffles are not suppressed, the
   shuffle has not happened before, and the mark left exactly three boards
   conquered with no line of the meta-board.
   */
  lemma MakeMoveShuffleTrigger(s: GameState, b: int, c: int, suppressShuffle: bool, chance: Chance, r: GameState)
    requires WellFormed(s) && 0 <= b < 9 && 0 <= c < 9 && ValidChoices(chance.choices)
    requires MakeMove(s, b, c, suppressShuffle, chance) == Some(r)
    ensures r.shuffleJustHappened <==>
      && !suppressShuffle && !s.instabilityTriggered
      && CountConquered(SettledStatus(s, b, c)) == 3 && BigBoardWinner(SettledStatus(s, b, c)).None?
      && !AllDecided(SettledStatus(s, b, c))
  {
    var st := SettledStatus(s, b, c);
    if BigBoardWinner(st).None? && !AllDecided(st) {
      assert Legal(s, b, c);
      MakeMoveContinues(s, b, c, suppressShuffle, chance, r);
      InstabilityAfterHandOver(s, b, c);
    } else {
      AcceptedMove(s, b, c, suppressShuffle, chance);
      ResolveEnds(Place(s, b, c), c, suppressShuffle, chance);
    }
  }

  /**
   A role swap cascades from a move exactly when shuffles are not suppressed,
   the coin is won, the shuffle has happened and the role swap has not, the
   move neither wins nor draws, and it is the fifth move after the shuffle.
   */
  lemma MakeMoveRoleSwapTrigger(s: GameState, b: int, c: int, suppressShuffle: bool, chance: Chance, r: GameState)
    requires WellFormed(s) && 0 <= b < 9 && 0 <= c < 9 && ValidChoices(chance.choices)
    requires MakeMove(s, b, c, suppressShuffle, chance) == Some(r)
    ensures r.roleSwapJustHappened <==>
      && !suppressShuffle && chance.coin
      && s.instabilityTriggered && !s.roleSwapTriggered && s.postShuffleMoves + 1 == 5
      && BigBoardWinner(SettledStatus(s, b, c)).None? && !AllDecided(SettledStatus(s, b, c))
  {
    var st := SettledStatus(s, b, c);
    if BigBoardWinner(st).None? && !AllDecided(st) {
      MakeMoveContinues(s, b, c, suppressShuffle, chance, r);
      HandOverOfPlace(s, b, c);
    } else {
      AcceptedMove(s, b, c, suppressShuffle, chance);
      ResolveEnds(Place(s, b, c), c, suppressShuffle, chance);
    }
  }

  /** The state a move hands over, in terms of the state before the move. */
  lemma HandOverOfPlace(s: GameState, b: int, c: int)
    requires WellFormed(s) && 0 <= b < 9 && 0 <= c < 9 && s.boardStatus[b] == Open
    ensures var n := HandOver(Place(s, b, c), c);
      && WellFormed(n) && n.boardStatus == SettledStatus(s, b, c)
      && n.gameOver == s.gameOver && n.winner == s.winner && n.isDraw == s.isDraw
      && n.currentPlayer == Opponent(s.currentPlayer) && n.forcedBoard == NextForced(s, b, c)
      && n.instabilityTriggered == s.instabilityTriggered
      && n.roleSwapTriggered == s.roleSwapTriggered
      && n.postShuffleMoves == (if s.instabilityTriggered then s.postShuffleMoves + 1 else s.postShuffleMoves)
      && !n.shuffleJustHappened && !n.roleSwapJustHappened && n.shuffleMapping.None?
  {
  }

  /** The shuffle trigger as it stands when a move hands the turn over. */
  lemma InstabilityAfterHandOver(s: GameState, b: int, c: int)
    requires WellFormed(s) && 0 <= b < 9 && 0 <= c < 9 && s.boardStatus[b] == Open && !s.gameOver
    ensures ShouldTriggerInstability(HandOver(Place(s, b, c), c)) <==>
      && !s.instabilityTriggered && CountConquered(SettledStatus(s, b, c)) == 3
      && BigBoardWinner(SettledStatus(s, b, c)).None?
  {
    HandOverOfPlace(s, b, c);
  }

  /** A move that wins or draws raises neither chaos signal. */
  lemma ResolveEnds(p: GameState, c: int, suppressShuffle: bool, chance: Chance)
    requires WellFormed(p) && 0 <= c < 9 && ValidChoices(chance.choices)
    requires !p.shuffleJustHappened && !p.roleSwapJustHappened
    requires BigBoardWinner(p.boardStatus).Some? || AllDecided(p.boardStatus)
    ensures var r := Resolve(p, c, suppressShuffle, chance);
      && r.gameOver && !r.shuffleJustHappened && !r.roleSwapJustHappened
      && r.instabilityTriggered == p.instabilityTriggered && r.roleSwapTriggered == p.roleSwapTriggered
      && r.shuffleMapping == p.shuffleMapping
  {
  }

  /**
   A shuffle cascading from a move relocates the board outcomes as they stand
   after the mark: the outcome of board `i` is found at `m[i]`.
   */
  lemma MakeMoveShuffleStatus(s: GameState, b: int, c: int, suppressShuffle: bool, chance: Chance, r: GameState)
    requires WellFormed(s) && 0 <= b < 9 && 0 <= c < 9 && ValidChoices(chance.choices)
    requires MakeMove(s, b, c, suppressShuffle, chance) == Some(r)
    ensures r.shuffleJustHappened ==>
      && r.shuffleMapping.Some? && IsPermutation(r.shuffleMapping.value)
      && forall i :: 0 <= i < 9 ==> r.boardStatus[r.shuffleMapping.value[i]] == SettledStatus(s, b, c)[i]
  {
    AcceptedMove(s, b, c, suppressShuffle, chance);
    var p := Place(s, b, c);
    ResolveShuffles(p, c, suppressShuffle, chance);
    CascadeRelocates(HandOver(p, c), suppressShuffle, chance);
  }

  /**
   A shuffle cascading from a move relocates the boards as they stand after
   the mark, cells intact: board `i`, with the new mark, is found at `m[i]`.
   */
  lemma MakeMoveShuffleBoards(s: GameState, b: int, c: int, suppressShuffle: bool, chance: Chance, r: GameState)
    requires WellFormed(s) && 0 <= b < 9 && 0 <= c < 9 && ValidChoices(chance.choices)
    requires MakeMove(s, b, c, suppressShuffle, chance) == Some(r)
    requires r.shuffleJustHappened
    ensures r.shuffleMapping.Some? && IsPermutation(r.shuffleMapping.value)
    ensures forall i, j :: 0 <= i < 9 && 0 <= j < 9 ==>
      r.boards[r.shuffleMapping.value[i]][j] == (if i == b && j == c then Some(s.currentPlayer) else s.boards[i][j])
  {
    AcceptedMove(s, b, c, suppressShuffle, chance);
    var p := Place(s, b, c);
    ResolveShuffles(p, c, suppressShuffle, chance);
    CascadeRelocates(HandOver(p, c), suppressShuffle, chance);
  }

  /** A move that completes a line of the meta-board ends the game with that winner; the turn does not pass. */
  lemma MakeMoveWins(s: GameState, b: int, c: int, suppressShuffle: bool, chance: Chance, r: GameState)
    requires WellFormed(s) && 0 <= b < 9 && 0 <= c < 9 && ValidChoices(chance.choices)
    requires MakeMove(s, b, c, suppressShuffle, chance) == Some(r)
    requires BigBoardWinner(SettledStatus(s, b, c)).Some?
    ensures r.gameOver && r.winner == BigBoardWinner(SettledStatus(s, b, c)) && r.isDraw == s.isDraw
    ensures r.currentPlayer == s.currentPlayer && r.forcedBoard == s.forcedBoard
    ensures r.postShuffleMoves == s.postShuffleMoves
    ensures !r.shuffleJustHappened && !r.roleSwapJustHappened
  {
    AcceptedMove(s, b, c, suppressShuffle, chance);
  }

  /** A move that decides the last open board without a meta-line ends the game drawn. */
  lemma MakeMoveDraws(s: GameState, b: int, c: int, suppressShuffle: bool, chance: Chance, r: GameState)
    requires WellFormed(s) && 0 <= b < 9 && 0 <= c < 9 && ValidChoices(chance.choices)
    requires MakeMove(s, b, c, suppressShuffle, chance) == Some(r)
    requires BigBoardWinner(SettledStatus(s, b, c)).None? && AllDecided(SettledStatus(s, b, c))
    ensures r.gameOver && r.isDraw && r.winner == s.winner
    ensures r.currentPlayer == s.currentPlayer && r.forcedBoard == s.forcedBoard
    ensures r.postShuffleMoves == s.postShuffleMoves
    ensures !r.shuffleJustHappened && !r.roleSwapJustHappened
  {
    AcceptedMove(s, b, c, suppressShuffle, chance);
  }

  /**
   A move that does not end the game passes the turn: the opponent moves
   next, sent to the board named by the played cell unless that board is
   decided (relocated if the shuffle fires), and the post-shuffle counter
   advances once the shuffle has happened (restarting at the shuffle).
   */
  lemma MakeMoveHandsOver(s: GameState, b: int, c: int, suppressShuffle: bool, chance: Chance, r: GameState)
    requires WellFormed(s) && 0 <= b < 9 && 0 <= c < 9 && ValidChoices(chance.choices)
    requires MakeMove(s, b, c, suppressShuffle, chance) == Some(r)
    requires BigBoardWinner(SettledStatus(s, b, c)).None? && !AllDecided(SettledStatus(s, b, c))
    ensures r.gameOver == s.gameOver && r.winner == s.winner && r.isDraw == s.isDraw
    ensures r.currentPlayer == Opponent(s.currentPlayer)
    ensures r.forcedBoard == (if r.shuffleJustHappened then Relocate(NextForced(s, b, c), r.shuffleMapping.value)
                              else NextForced(s, b, c))
    ensures r.postShuffleMoves == (if r.shuffleJustHappened then 0
                                   else if s.instabilityTriggered then s.postShuffleMoves + 1
                                   else s.postShuffleMoves)
  {
    MakeMoveContinues(s, b, c, suppressShuffle, chance, r);
    HandOverOfPlace(s, b, c);
    CascadeKeepsTurn(HandOver(Place(s, b, c), c), suppressShuffle, chance);
  }

  /** A move that neither wins nor draws is the hand-over followed by the chaos cascade. */
  lemma MakeMoveContinues(s: GameState, b: int, c: int, suppressShuffle: bool, chance: Chance, r: GameState)
    requires WellFormed(s) && 0 <= b < 9 && 0 <= c < 9 && ValidChoices(chance.choices)
    requires MakeMove(s, b, c, suppressShuffle, chance) == Some(r)
    requires BigBoardWinner(SettledStatus(s, b, c)).None? && !AllDecided(SettledStatus(s, b, c))
    ensures s.boardStatus[b] == Open
    ensures r == Cascade(HandOver(Place(s, b, c), c), suppressShuffle, chance)
  {
    assert Legal(s, b, c);
    AcceptedMove(s, b, c, suppressShuffle, chance);
    var p := Place(s, b, c);
    assert p.boardStatus == SettledStatus(s, b, c);
    assert Resolve(p, c, suppressShuffle, chance) == Cascade(HandOver(p, c), suppressShuffle, chance);
  }

  /**
   The latches only ever go from false to true; the shuffle signal marks the
   move that set the shuffle latch and the role-swap signal the move that set
   the role-swap latch, which needs the coin and five post-shuffle moves; a
   suppressed move sets neither and leaves every signal cleared.
   */
  lemma MakeMoveLatches(s: GameState, b: int, c: int, suppressShuffle: bool, chance: Chance, r: GameState)
    requires WellFormed(s) && 0 <= b < 9 && 0 <= c < 9 && ValidChoices(chance.choices)
    requires MakeMove(s, b, c, suppressShuffle, chance) == Some(r)
    ensures
      && (s.instabilityTriggered ==> r.instabilityTriggered)
      && (s.roleSwapTriggered ==> r.roleSwapTriggered)
      && (r.shuffleJustHappened <==> !s.instabilityTriggered && r.instabilityTriggered)
      && (r.roleSwapJustHappened <==> !s.roleSwapTriggered && r.roleSwapTriggered)
      && (r.roleSwapJustHappened ==> !suppressShuffle && chance.coin && r.postShuffleMoves == 5)
      && (suppressShuffle ==>
            && r.instabilityTriggered == s.instabilityTriggered
            && r.roleSwapTriggered == s.roleSwapTriggered
            && ClearAnimationFlags(r) == r)
  {
    var st := SettledStatus(s, b, c);
    if BigBoardWinner(st).None? && !AllDecided(st) {
      MakeMoveContinues(s, b, c, suppressShuffle, chance, r);
      HandOverOfPlace(s, b, c);
    } else {
      AcceptedMove(s, b, c, suppressShuffle, chance);
      var p := Place(s, b, c);
      assert p.instabilityTriggered == s.instabilityTriggered && p.roleSwapTriggered == s.roleSwapTriggered
        && p.shuffleMapping.None?;
      ResolveEnds(p, c, suppressShuffle, chance);
    }
  }
}
