/**
 The game invariant is established by a fresh game and kept by every
 accepted move, shuffle included. The invariant still lets a running game
 hold a line of the meta-board: a shuffle can complete one.
 */
module GameInvariant {
  import opened Options
  import opened Board
  import opened Shuffle
  import opened Engine

  /** Every board's outcome is the one its cells give. */
  predicate Agrees(s: GameState)
    requires WellFormed(s)
  {
    forall i :: 0 <= i < 9 ==> s.boardStatus[i] == SmallBoardWinner(s.boards[i])
  }

  /** Marking an empty cell of an open board keeps outcomes in agreement with the cells. */
  lemma PlaceAgrees(s: GameState, b: int, c: int)
    requires WellFormed(s) && 0 <= b < 9 && 0 <= c < 9 && Legal(s, b, c) && Agrees(s)
    ensures Agrees(Place(s, b, c))
  {
    var p := Place(s, b, c);
    forall i | 0 <= i < 9
      ensures p.boardStatus[i] == SmallBoardWinner(p.boards[i])
    {
      var row := if i == b then MarkedBoard(s, b, c) else s.boards[i];
      assert p.boards[i] == row by {
        assert forall j :: 0 <= j < 9 ==> p.boards[i][j] == row[j];
      }
    }
  }

  /**
   A shuffle moves every board together with its outcome, so outcomes still
   agree with the cells, and an open forced board stays open where it lands.
   */
  lemma ShuffleAgrees(s: GameState, m: seq<int>)
    requires WellFormed(s) && IsPermutation(m) && Agrees(s)
    ensures Agrees(ApplyShuffleMapping(s, m))
    ensures s.forcedBoard.Some? && s.boardStatus[s.forcedBoard.value] == Open ==>
      var r := ApplyShuffleMapping(s, m);
      r.forcedBoard.Some? && r.boardStatus[r.forcedBoard.value] == Open
  {
    var r := ApplyShuffleMapping(s, m);
    forall j | 0 <= j < 9
      ensures r.boardStatus[j] == SmallBoardWinner(r.boards[j])
    {
      assert j in m;
      var i :| 0 <= i < 9 && m[i] == j;
      assert r.boards[j] == s.boards[i] && r.boardStatus[j] == s.boardStatus[i];
    }
  }

  /** The shuffle keeps the invariant of a running game. */
  lemma ShufflePreservesInvariant(s: GameState, m: seq<int>)
    requires Invariant(s) && !s.gameOver && IsPermutation(m)
    ensures Invariant(ApplyShuffleMapping(s, m))
  {
    ShuffleAgrees(s, m);
  }

  /** The cascade after a hand-over keeps the invariant of a running game. */
  lemma CascadePreservesInvariant(n: GameState, suppressShuffle: bool, chance: Chance)
    requires Invariant(n) && !n.gameOver && ValidChoices(chance.choices)
    requires !n.shuffleJustHappened && !n.roleSwapJustHappened
    ensures Invariant(Cascade(n, suppressShuffle, chance))
  {
    var r := Cascade(n, suppressShuffle, chance);
    var core := r.(roleSwapTriggered := n.roleSwapTriggered, roleSwapJustHappened := false);
    if r.shuffleJustHappened {
      ShufflePreservesInvariant(n, r.shuffleMapping.value);
      assert Invariant(core);
    } else {
      assert core == n;
    }
    assert r.roleSwapTriggered ==> r.instabilityTriggered;
  }

  /** Handing the turn over after a mark that did not end the game keeps the invariant. */
  lemma HandOverPreservesInvariant(s: GameState, b: int, c: int)
    requires Invariant(s) && 0 <= b < 9 && 0 <= c < 9 && Legal(s, b, c)
    requires BigBoardWinner(SettledStatus(s, b, c)).None? && !AllDecided(SettledStatus(s, b, c))
    ensures Invariant(HandOver(Place(s, b, c), c))
  {
    PlaceAgrees(s, b, c);
  }

  /** Every accepted move keeps the invariant. */
  lemma MakeMovePreservesInvariant(s: GameState, b: int, c: int, suppressShuffle: bool, chance: Chance, r: GameState)
    requires Invariant(s) && 0 <= b < 9 && 0 <= c < 9 && ValidChoices(chance.choices)
    requires MakeMove(s, b, c, suppressShuffle, chance) == Some(r)
    ensures Invariant(r)
  {
    assert Legal(s, b, c);
    var st := SettledStatus(s, b, c);
    if BigBoardWinner(st).None? && !AllDecided(st) {
      MakeMoveContinues(s, b, c, suppressShuffle, chance, r);
      HandOverPreservesInvariant(s, b, c);
      CascadePreservesInvariant(HandOver(Place(s, b, c), c), suppressShuffle, chance);
    } else {
      AcceptedMove(s, b, c, suppressShuffle, chance);
      EndPreservesInvariant(s, b, c, suppressShuffle, chance);
    }
  }

  /** A mark that wins or draws the game keeps the invariant. */
  lemma EndPreservesInvariant(s: GameState, b: int, c: int, suppressShuffle: bool, chance: Chance)
    requires Invariant(s) && 0 <= b < 9 && 0 <= c < 9 && ValidChoices(chance.choices) && Legal(s, b, c)
    requires BigBoardWinner(SettledStatus(s, b, c)).Some? || AllDecided(SettledStatus(s, b, c))
    ensures Invariant(Resolve(Place(s, b, c), c, suppressShuffle, chance))
  {
    PlaceAgrees(s, b, c);
    var p := Place(s, b, c);
    assert !p.instabilityTriggered ==> p.postShuffleMoves == 0 && !p.roleSwapTriggered;
  }

  // ---------------------------------------------------------------------------
  // A shuffle that completes a line

  /** The outcomes of a game X won on the top row of boards. */
  function TopRow(): seq<Status>
  {
    [Won(X), Won(X), Won(X), Open, Open, Open, Open, Open, Open]
  }

  /**
   The shuffle can complete a line of the meta-board. With X on boards 0, 1
   and 5 the trigger holds (three conquered boards, no line); moving board 5
   to position 2 puts X on the whole top row, yet the game is not over.
   */
  lemma ShuffleCompletesLine(g: GameState, m: seq<int>)
    requires WellFormed(g) && g.boardStatus == SplitRow()
    requires !g.gameOver && !g.instabilityTriggered
    requires m == [0, 1, 5, 3, 4, 2, 6, 7, 8]
    ensures ShouldTriggerInstability(g)
    ensures IsPermutation(m)
    ensures var r := ApplyShuffleMapping(g, m);
      && r.boardStatus == TopRow() && BigBoardWinner(r.boardStatus) == Some(X) && !r.gameOver
  {
    SplitRowTriggers(g);
    ExchangeIsPermutation(m);
    JoinedOutcomes(g, m);
    assert WonLine(TopRow(), WinningLines[0], X);
  }

  lemma SplitRowTriggers(g: GameState)
    requires |g.boardStatus| == 9 && g.boardStatus == SplitRow()
    requires !g.gameOver && !g.instabilityTriggered
    ensures ShouldTriggerInstability(g)
  {
    assert CountConquered(g.boardStatus) == 3;
    SplitRowHasNoLine();
  }

  /** Moving board 5 to position 2 of the split row gives the outcomes `TopRow`. */
  lemma JoinedOutcomes(g: GameState, m: seq<int>)
    requires WellFormed(g) && g.boardStatus == SplitRow()
    requires m == [0, 1, 5, 3, 4, 2, 6, 7, 8] && IsPermutation(m)
    ensures ApplyShuffleMapping(g, m).boardStatus == TopRow()
    ensures !ApplyShuffleMapping(g, m).gameOver <==> !g.gameOver
  {
    var st := ApplyShuffleMapping(g, m).boardStatus;
    RelocatedSplitRow(st, m);
  }

  /**
   After such a shuffle the next accepted move, by either player and
   anywhere, ends the game with X as the winner.
   */
  lemma NextMoveAfterCompletedLine(g: GameState, b: int, c: int, suppressShuffle: bool,
                                   chance: Chance, r: GameState)
    requires WellFormed(g) && g.boardStatus == TopRow()
    requires 0 <= b < 9 && 0 <= c < 9 && ValidChoices(chance.choices)
    requires MakeMove(g, b, c, suppressShuffle, chance) == Some(r)
    ensures r.gameOver && r.winner == Some(X)
  {
    assert Legal(g, b, c);
    TopRowStaysWon(g, b, c);
    FirstLineDecides(SettledStatus(g, b, c), X);
    MakeMoveWins(g, b, c, suppressShuffle, chance, r);
  }

  lemma TopRowStaysWon(g: GameState, b: int, c: int)
    requires WellFormed(g) && g.boardStatus == TopRow()
    requires 0 <= b < 9 && 0 <= c < 9 && g.boardStatus[b] == Open
    ensures WonLine(SettledStatus(g, b, c), WinningLines[0], X)
  {
    assert 3 <= b;
  }

  lemma ExchangeIsPermutation(m: seq<int>)
    requires m == [0, 1, 5, 3, 4, 2, 6, 7, 8]
    ensures IsPermutation(m)
  {
    forall v | 0 <= v < 9 ensures v in m {
      assert m[if v == 2 then 5 else if v == 5 then 2 else v] == v;
    }
  }

  lemma RelocatedSplitRow(st: seq<Status>, m: seq<int>)
    requires m == [0, 1, 5, 3, 4, 2, 6, 7, 8]
    requires |st| == 9 && forall i :: 0 <= i < 9 ==> st[m[i]] == SplitRow()[i]
    ensures st == TopRow()
  {
    forall j | 0 <= j < 9 ensures st[j] == TopRow()[j] {
      var i := if j == 2 then 5 else if j == 5 then 2 else j;
      assert m[i] == j;
    }
  }

  /** X has conquered boards 0, 1 and 5: three boards, no line. */
  function SplitRow(): seq<Status>
  {
    [Won(X), Won(X), Open, Open, Open, Won(X), Open, Open, Open]
  }

  lemma SplitRowHasNoLine()
    ensures BigBoardWinner(SplitRow()).None?
  {
    var st := SplitRow();
    forall k, p | 0 <= k < |WinningLines| ensures !WonLine(st, WinningLines[k], p) {
      var l := WinningLines[k];
      assert st[l.a] == Open || st[l.b] == Open || st[l.c] == Open;
    }
  }
}
