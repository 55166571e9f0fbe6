/**
 The enumeration of legal moves, as the computer opponent and the
 presentation layer see it: every empty cell the rules allow, in board-major
 order.
 */
module LegalMoves {
  import opened Options
  import opened Board
  import opened Shuffle
  import opened Engine

  /** A move: a small board and a cell of it. */
  datatype Move = Move(board: int, cell: int)

  /** The position of a move in board-major order. */
  function Key(m: Move): int
  {
    9 * m.board + m.cell
  }

  predicate InRange(m: Move)
  {
    0 <= m.board < 9 && 0 <= m.cell < 9
  }

  /** The moves strictly increase in board-major order, hence are pairwise distinct. */
  predicate Ascending(moves: seq<Move>)
  {
    forall k, l :: 0 <= k < l < |moves| ==> Key(moves[k]) < Key(moves[l])
  }

  /** The empty cells of board `b`, in cell order. */
  method EmptyCells(s: GameState, b: int) returns (moves: seq<Move>)
    requires WellFormed(s) && 0 <= b < 9
    ensures forall m :: m in moves <==> m.board == b && 0 <= m.cell < 9 && s.boards[b][m.cell].None?
    ensures Ascending(moves)
  {
    moves := [];
    var i := 0;
    while i < 9
      invariant 0 <= i <= 9
      invariant forall m :: m in moves <==> m.board == b && 0 <= m.cell < i && s.boards[b][m.cell].None?
      invariant forall k :: 0 <= k < |moves| ==> moves[k].board == b && moves[k].cell < i
      invariant Ascending(moves)
    {
      if s.boards[b][i] == None {
        moves := moves + [Move(b, i)];
      }
      i := i + 1;
    }
  }

  /**
   All legal moves of `s`: none once the game is over, the empty cells of the
   forced board while it is open, otherwise the empty cells of every open
   board.
   */
  method GetLegalMoves(s: GameState) returns (moves: seq<Move>)
    requires WellFormed(s)
    ensures forall m :: m in moves <==> InRange(m) && Legal(s, m.board, m.cell)
    ensures forall m: Move, suppressShuffle: bool, chance: Chance :: 0 <= m.board < 9 && ValidChoices(chance.choices) ==>
      (m in moves <==> MakeMove(s, m.board, m.cell, suppressShuffle, chance).Some?)
    ensures Ascending(moves)
    ensures s.gameOver ==> moves == []
    ensures ForcedActive(s) ==> forall k :: 0 <= k < |moves| ==> moves[k].board == s.forcedBoard.value
  {
    if s.gameOver {
      return [];
    }
    if s.forcedBoard.Some? && s.boardStatus[s.forcedBoard.value] == Open {
      moves := EmptyCells(s, s.forcedBoard.value);
      return;
    }
    moves := [];
    var b := 0;
    while b < 9
      invariant 0 <= b <= 9
      invariant forall m :: m in moves <==>
        0 <= m.board < b && 0 <= m.cell < 9 && s.boardStatus[m.board] == Open && s.boards[m.board][m.cell].None?
      invariant forall k :: 0 <= k < |moves| ==> Key(moves[k]) < 9 * b
      invariant Ascending(moves)
    {
      if s.boardStatus[b] == Open {
        var cells := EmptyCells(s, b);
        assert forall k :: 0 <= k < |cells| ==> 9 * b <= Key(cells[k]) < 9 * b + 9 by {
          forall k | 0 <= k < |cells|
            ensures 9 * b <= Key(cells[k]) < 9 * b + 9
          {
            assert cells[k] in cells;
          }
        }
        moves := moves + cells;
      }
      b := b + 1;
    }
  }
}
