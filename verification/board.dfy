/**
 Board evaluation for Ultimate Tic-Tac-Toe: the eight winning lines of a 3x3
 grid, the outcome of one small board, the outcome of the meta-board formed by
 the nine small-board outcomes, and the count of conquered boards.
 */
module Board {
  import opened Options

  /** The two sides. */
  datatype Player = X | O

  /** A cell of a small board: empty (`None`) or holding one player's mark. */
  type Cell = Option<Player>

  /** Outcome of a small board: undecided (`null` in the original), drawn, or won. */
  datatype Status = Open | Drawn | Won(player: Player)

  /** A position on a 3x3 grid, numbered row by row. */
  type Index = i: int | 0 <= i < 9

  function Opponent(p: Player): Player
  {
    if p == X then O else X
  }

  /** Three grid positions that form a row, a column or a diagonal. */
  datatype Line = Line(a: Index, b: Index, c: Index)

  /** The winning lines, in the order the original scans them. */
  const WinningLines: seq<Line> := [
    Line(0, 1, 2), Line(3, 4, 5), Line(6, 7, 8),
    Line(0, 3, 6), Line(1, 4, 7), Line(2, 5, 8),
    Line(0, 4, 8), Line(2, 4, 6)
  ]

  // ---------------------------------------------------------------------------
  // Small boards

  /** Player `p` holds all three cells of line `l`. */
  predicate OwnsLine(cells: seq<Cell>, l: Line, p: Player)
    requires |cells| == 9
  {
    cells[l.a] == Some(p) && cells[l.b] == Some(p) && cells[l.c] == Some(p)
  }

  /** Player `p` holds some winning line of the small board. */
  predicate HasLine(cells: seq<Cell>, p: Player)
    requires |cells| == 9
  {
    exists k :: 0 <= k < |WinningLines| && OwnsLine(cells, WinningLines[k], p)
  }

  /** Every cell is occupied. */
  predicate Full(cells: seq<Cell>)
  {
    forall i :: 0 <= i < |cells| ==> cells[i].Some?
  }

  /**
   Player `p` holds the line at position `j`, and no line before it, from
   position `k` on, is held by anyone: `p` is who a scan in table order
   starting at `k` reports.
   */
  predicate FirstOwnedLine(cells: seq<Cell>, k: nat, j: nat, p: Player)
    requires |cells| == 9
  {
    && k <= j < |WinningLines|
    && OwnsLine(cells, WinningLines[j], p)
    && forall i, q :: k <= i < j ==> !OwnsLine(cells, WinningLines[i], q)
  }

  /** The owner of the first uniformly occupied line at position `k` or later. */
  function FirstLineOwner(cells: seq<Cell>, k: nat): (r: Option<Player>)
    requires |cells| == 9 && k <= |WinningLines|
    ensures r.Some? ==> exists j :: FirstOwnedLine(cells, k, j, r.value)
    ensures r.None? ==> forall j, p :: k <= j < |WinningLines| ==> !OwnsLine(cells, WinningLines[j], p)
    decreases |WinningLines| - k
  {
    if k == |WinningLines| then None
    else
      var l := WinningLines[k];
      if cells[l.a].Some? && cells[l.a] == cells[l.b] && cells[l.b] == cells[l.c] then
        assert FirstOwnedLine(cells, k, k, cells[l.a].value);
        cells[l.a]
      else
        assert forall p :: !OwnsLine(cells, l, p) by {
          forall p ensures !OwnsLine(cells, l, p) {
            assert p == X || p == O;
          }
        }
        var r := FirstLineOwner(cells, k + 1);
        if r.Some? then
          var j :| FirstOwnedLine(cells, k + 1, j, r.value);
          assert FirstOwnedLine(cells, k, j, r.value);
          r
        else r
  }

  /**
   The outcome of a small board: won by a player holding a line, otherwise
   drawn when full, otherwise still open.
   */
  function SmallBoardWinner(cells: seq<Cell>): (r: Status)
    requires |cells| == 9
    ensures r.Won? <==> HasLine(cells, X) || HasLine(cells, O)
    ensures r.Won? ==> HasLine(cells, r.player) && exists j :: FirstOwnedLine(cells, 0, j, r.player)
    ensures r == Drawn <==> !HasLine(cells, X) && !HasLine(cells, O) && Full(cells)
    ensures r == Open <==> !HasLine(cells, X) && !HasLine(cells, O) && !Full(cells)
  {
    match FirstLineOwner(cells, 0)
    case Some(p) =>
      assert HasLine(cells, p);
      assert p == X || p == O;
      Won(p)
    case None => if Full(cells) then Drawn else Open
  }

  // ---------------------------------------------------------------------------
  // The meta-board

  /** Player `p` has won all three boards of line `l`. */
  predicate WonLine(status: seq<Status>, l: Line, p: Player)
    requires |status| == 9
  {
    status[l.a] == Won(p) && status[l.b] == Won(p) && status[l.c] == Won(p)
  }

  /** Player `p` has won three boards in a line of the meta-board. */
  predicate MetaWon(status: seq<Status>, p: Player)
    requires |status| == 9
  {
    exists k :: 0 <= k < |WinningLines| && WonLine(status, WinningLines[k], p)
  }

  /**
   Player `p` has won the line at position `j` of the meta-board, and no line
   before it, from position `k` on, is won by anyone.
   */
  predicate FirstWonLine(status: seq<Status>, k: nat, j: nat, p: Player)
    requires |status| == 9
  {
    && k <= j < |WinningLines|
    && WonLine(status, WinningLines[j], p)
    && forall i, q :: k <= i < j ==> !WonLine(status, WinningLines[i], q)
  }

  /** The first line, from position `k` on, won by X (tried first) or O. */
  function FirstMetaLine(status: seq<Status>, k: nat): (r: Option<Player>)
    requires |status| == 9 && k <= |WinningLines|
    ensures r.Some? ==> exists j :: FirstWonLine(status, k, j, r.value)
    ensures r.None? ==> forall j, p :: k <= j < |WinningLines| ==> !WonLine(status, WinningLines[j], p)
    decreases |WinningLines| - k
  {
    if k == |WinningLines| then None
    else
      var l := WinningLines[k];
      if status[l.a] == Won(X) && status[l.b] == Won(X) && status[l.c] == Won(X) then
        assert FirstWonLine(status, k, k, X);
        Some(X)
      else if status[l.a] == Won(O) && status[l.b] == Won(O) && status[l.c] == Won(O) then
        assert FirstWonLine(status, k, k, O);
        Some(O)
      else
        assert forall p :: !WonLine(status, l, p) by {
          forall p ensures !WonLine(status, l, p) {
            assert p == X || p == O;
          }
        }
        var r := FirstMetaLine(status, k + 1);
        if r.Some? then
          var j :| FirstWonLine(status, k + 1, j, r.value);
          assert FirstWonLine(status, k, j, r.value);
          r
        else r
  }

  /**
   The winner of the meta-board. Only boards won by a player count; a drawn
   board never completes a line.
   */
  function BigBoardWinner(status: seq<Status>): (r: Option<Player>)
    requires |status| == 9
    ensures r.Some? ==> MetaWon(status, r.value) && exists j :: FirstWonLine(status, 0, j, r.value)
    ensures r.None? <==> !MetaWon(status, X) && !MetaWon(status, O)
  {
    var r := FirstMetaLine(status, 0);
    assert r.Some? ==> MetaWon(status, r.value) && (r.value == X || r.value == O) by {
      if r.Some? {
        var j: nat :| FirstWonLine(status, 0, j, r.value);
        assert WonLine(status, WinningLines[j], r.value);
      }
    }
    r
  }

  /** A player holding the first line of the table is the winner, whatever else the board shows. */
  lemma FirstLineDecides(status: seq<Status>, p: Player)
    requires |status| == 9 && WonLine(status, WinningLines[0], p)
    ensures BigBoardWinner(status) == Some(p)
  {
    var r := BigBoardWinner(status);
    assert MetaWon(status, p);
    var j: nat :| FirstWonLine(status, 0, j, r.value);
    assert j == 0;
    assert status[0] == Won(r.value);
  }

  /** Every small board has an outcome. */
  predicate AllDecided(status: seq<Status>)
  {
    forall i :: 0 <= i < |status| ==> status[i] != Open
  }

  /** Some line at position `k` or later consists of three conquered boards of one owner. */
  function ConqueredLineFrom(status: seq<Status>, k: nat): (r: bool)
    requires |status| == 9 && k <= |WinningLines|
    ensures r <==> exists j :: k <= j < |WinningLines| && (WonLine(status, WinningLines[j], X) || WonLine(status, WinningLines[j], O))
    decreases |WinningLines| - k
  {
    if k == |WinningLines| then false
    else
      var l := WinningLines[k];
      var aConquered := status[l.a].Won?;
      var bConquered := status[l.b].Won?;
      var cConquered := status[l.c].Won?;
      if aConquered && bConquered && cConquered && status[l.a] == status[l.b] && status[l.b] == status[l.c] then
        var q := status[l.a].player;
        assert WonLine(status, WinningLines[k], q);
        assert q == X || q == O;
        true
      else
        assert !WonLine(status, l, X) && !WonLine(status, l, O);
        ConqueredLineFrom(status, k + 1)
  }

  /** The conquered boards contain a line held by a single player. */
  function ConqueredBoardsFormWinningLine(status: seq<Status>): (r: bool)
    requires |status| == 9
    ensures r <==> MetaWon(status, X) || MetaWon(status, O)
  {
    var r := ConqueredLineFrom(status, 0);
    assert r ==> MetaWon(status, X) || MetaWon(status, O) by {
      if r {
        var j :| 0 <= j < |WinningLines| && (WonLine(status, WinningLines[j], X) || WonLine(status, WinningLines[j], O));
      }
    }
    r
  }

  /** The two exclusions of the instability trigger are one and the same test. */
  lemma ConqueredLineIsMetaWin(status: seq<Status>)
    requires |status| == 9
    ensures ConqueredBoardsFormWinningLine(status) <==> BigBoardWinner(status).Some?
  {
  }

  // ---------------------------------------------------------------------------
  // Conquered boards

  /** Number of boards won by a player (drawn boards are not conquered). */
  function CountConquered(status: seq<Status>): nat
  {
    if |status| == 0 then 0
    else (if status[0].Won? then 1 else 0) + CountConquered(status[1..])
  }

  /** The conquered count depends only on the multiset of outcomes. */
  lemma {:induction false} CountConqueredByMultiset(status: seq<Status>)
    ensures CountConquered(status) == multiset(status)[Won(X)] + multiset(status)[Won(O)]
  {
    if |status| > 0 {
      CountConqueredByMultiset(status[1..]);
      assert status == [status[0]] + status[1..];
      assert multiset(status) == multiset{status[0]} + multiset(status[1..]);
      assert CountConquered(status) == (if status[0].Won? then 1 else 0) + CountConquered(status[1..]);
      match status[0] {
        case Won(q) =>
          if q == X {
            assert multiset{status[0]}[Won(X)] == 1 && multiset{status[0]}[Won(O)] == 0;
          } else {
            assert multiset{status[0]}[Won(X)] == 0 && multiset{status[0]}[Won(O)] == 1;
          }
        case _ =>
          assert multiset{status[0]}[Won(X)] == 0 && multiset{status[0]}[Won(O)] == 0;
      }
    }
  }
}
