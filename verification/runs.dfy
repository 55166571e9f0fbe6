/**
 Whole games: a sequence of moves played from a state, each with its own
 random inputs. The two chaos events are one-shot over any such run, and the
 game invariant holds throughout.
 */
module GameRuns {
  import opened Options
  import opened Shuffle
  import opened Engine
  import opened GameInvariant

  /**
   One move of a run: where to play, and the random inputs it may consume. A
   cell outside 0..8 is allowed; the move is then rejected.
   */
  datatype Turn = Turn(board: int, cell: int, chance: Chance)

  predicate ValidTurns(turns: seq<Turn>)
  {
    forall k :: 0 <= k < |turns| ==>
      0 <= turns[k].board < 9 && ValidChoices(turns[k].chance.choices)
  }

  /** The end of a run and how many moves in it shuffled and swapped roles. */
  datatype Played = Played(state: GameState, shuffles: nat, swaps: nat)

  /** Plays `turns` from `s` without suppression; `None` when a move is rejected. */
  function Replay(s: GameState, turns: seq<Turn>): (r: Option<Played>)
    requires WellFormed(s) && ValidTurns(turns)
    ensures r.Some? ==> WellFormed(r.value.state)
    decreases |turns|
  {
    if turns == [] then Some(Played(s, 0, 0))
    else
      var t := turns[0];
      match MakeMove(s, t.board, t.cell, false, t.chance)
      case None => None
      case Some(n) =>
        match Replay(n, turns[1..])
        case None => None
        case Some(p) =>
          Some(Played(p.state, p.shuffles + (if n.shuffleJustHappened then 1 else 0),
                               p.swaps + (if n.roleSwapJustHappened then 1 else 0)))
  }

  /**
   Over any run the shuffle happens at most once, and exactly once when the
   run sets its latch; the same holds for the role swap.
   */
  lemma {:induction false} ChaosEventsAreOneShot(s: GameState, turns: seq<Turn>)
    requires WellFormed(s) && ValidTurns(turns)
    requires Replay(s, turns).Some?
    ensures var p := Replay(s, turns).value;
      && p.shuffles <= 1 && p.swaps <= 1
      && (p.shuffles == 1 <==> !s.instabilityTriggered && p.state.instabilityTriggered)
      && (p.swaps == 1 <==> !s.roleSwapTriggered && p.state.roleSwapTriggered)
      && (s.instabilityTriggered ==> p.state.instabilityTriggered)
      && (s.roleSwapTriggered ==> p.state.roleSwapTriggered)
    decreases |turns|
  {
    if turns != [] {
      var t := turns[0];
      var n := MakeMove(s, t.board, t.cell, false, t.chance).value;
      assert 0 <= t.cell < 9;
      MakeMoveLatches(s, t.board, t.cell, false, t.chance, n);
      assert ValidTurns(turns[1..]);
      ChaosEventsAreOneShot(n, turns[1..]);
    }
  }

  /** Every state a run reaches from an invariant state satisfies the invariant. */
  lemma {:induction false} ReplayPreservesInvariant(s: GameState, turns: seq<Turn>)
    requires Invariant(s) && ValidTurns(turns)
    requires Replay(s, turns).Some?
    ensures Invariant(Replay(s, turns).value.state)
    decreases |turns|
  {
    if turns != [] {
      var t := turns[0];
      var n := MakeMove(s, t.board, t.cell, false, t.chance).value;
      assert 0 <= t.cell < 9;
      MakeMovePreservesInvariant(s, t.board, t.cell, false, t.chance, n);
      assert ValidTurns(turns[1..]);
      ReplayPreservesInvariant(n, turns[1..]);
    }
  }

  /** A game played from the start never shuffles or swaps roles twice. */
  lemma FromTheStart(turns: seq<Turn>)
    requires ValidTurns(turns) && Replay(InitializeGame(), turns).Some?
    ensures Invariant(Replay(InitializeGame(), turns).value.state)
    ensures Replay(InitializeGame(), turns).value.shuffles <= 1
    ensures Replay(InitializeGame(), turns).value.swaps <= 1
  {
    ReplayPreservesInvariant(InitializeGame(), turns);
    ChaosEventsAreOneShot(InitializeGame(), turns);
  }
}
