/**
 What the relay's bookkeeping keeps, and how its trigger predicates differ
 from the client engine's.
 */
module RelayProperties {
  import opened Options
  import opened Board
  import opened Shuffle
  import Engine
  import opened Relay
  import RoomIdForm
  import GameInvariant

  // ---------------------------------------------------------------------------
  // The roster invariant

  /** No socket id occurs twice in a roster. */
  predicate Distinct(xs: seq<SocketId>)
  {
    forall i, j :: 0 <= i < j < |xs| ==> xs[i] != xs[j]
  }

  /**
   Every room has a non-empty id and a non-empty roster of distinct sockets,
   each of which records that room as its own; every socket that records a
   room is on that room's roster.
   */
  predicate RosterInvariant(s: Server)
  {
    && (forall rid :: rid in s.rooms ==> rid != "" && |s.rooms[rid].players| > 0 && Distinct(s.rooms[rid].players))
    && (forall rid, p :: rid in s.rooms && p in s.rooms[rid].players ==> p in s.current && s.current[p] == rid)
    && (forall sid :: sid in s.current ==> s.current[sid] in s.rooms && sid in s.rooms[s.current[sid]].players)
  }

  /** Under the invariant a socket is on at most one roster, exactly once. */
  lemma OneRoster(s: Server, sid: SocketId, a: RoomId, b: RoomId)
    requires RosterInvariant(s)
    requires a in s.rooms && sid in s.rooms[a].players
    requires b in s.rooms && sid in s.rooms[b].players
    ensures a == b
    ensures multiset(s.rooms[a].players)[sid] == 1
  {
    assert s.current[sid] == a;
    assert s.current[sid] == b;
    DistinctOnce(s.rooms[a].players, sid);
  }

  /** A member of a roster without repeats occurs in it exactly once. */
  lemma {:induction false} DistinctOnce(xs: seq<SocketId>, x: SocketId)
    requires Distinct(xs) && x in xs
    ensures multiset(xs)[x] == 1
    decreases |xs|
  {
    assert xs == [xs[0]] + xs[1..];
    if xs[0] == x {
      assert x !in xs[1..] by {
        forall k | 0 <= k < |xs[1..]| ensures xs[1..][k] != x {
          assert xs[1..][k] == xs[k + 1];
        }
      }
    } else {
      assert Distinct(xs[1..]) by {
        forall i, j | 0 <= i < j < |xs[1..]| ensures xs[1..][i] != xs[1..][j] {
          assert xs[1..][i] == xs[i + 1] && xs[1..][j] == xs[j + 1];
        }
      }
      DistinctOnce(xs[1..], x);
    }
  }

  /** Removing one id from a roster without repeats leaves a roster without repeats. */
  lemma {:induction false} WithoutDistinct(xs: seq<SocketId>, x: SocketId)
    requires Distinct(xs)
    ensures Distinct(Without(xs, x))
    decreases |xs|
  {
    if xs != [] {
      assert Distinct(xs[1..]) by {
        forall i, j | 0 <= i < j < |xs[1..]| ensures xs[1..][i] != xs[1..][j] {
          assert xs[1..][i] == xs[i + 1] && xs[1..][j] == xs[j + 1];
        }
      }
      WithoutDistinct(xs[1..], x);
      var rest := Without(xs[1..], x);
      if xs[0] != x {
        assert xs[0] !in rest by {
          assert xs[0] !in xs[1..] by {
            forall k | 0 <= k < |xs[1..]| ensures xs[1..][k] != xs[0] {
              assert xs[1..][k] == xs[k + 1];
            }
          }
        }
        var r := [xs[0]] + rest;
        forall i, j | 0 <= i < j < |r| ensures r[i] != r[j] {
          if i == 0 {
            assert r[j] == rest[j - 1] && r[j] in rest;
          } else {
            assert r[i] == rest[i - 1] && r[j] == rest[j - 1];
          }
        }
      }
    }
  }

  /** Appending an id that is not yet on a roster without repeats keeps it without repeats. */
  lemma AppendDistinct(xs: seq<SocketId>, x: SocketId)
    requires Distinct(xs) && x !in xs
    ensures Distinct(xs + [x])
  {
    var r := xs + [x];
    forall i, j | 0 <= i < j < |r| ensures r[i] != r[j] {
      if j == |xs| {
        assert r[i] == xs[i] && xs[i] in xs;
      } else {
        assert r[i] == xs[i] && r[j] == xs[j];
      }
    }
  }

  /** A connection that has not joined is on no roster. */
  lemma NotOnAnyRoster(s: Server, sid: SocketId)
    requires RosterInvariant(s) && sid !in s.current
    ensures forall rid :: rid in s.rooms ==> sid !in s.rooms[rid].players
  {
  }

  /** Leaving the previous room, as `join`, `leave` and `disconnect` do, takes the socket off every roster. */
  lemma VacateKeepsRosters(s: Server, sid: SocketId)
    requires RosterInvariant(s) && sid in s.current
    ensures var rooms := Vacate(s.rooms, s.current[sid], sid);
      && (forall rid :: rid in rooms ==> sid !in rooms[rid].players)
      && RosterInvariant(Server(rooms, s.current - {sid}))
  {
    var rid := s.current[sid];
    var rooms := Vacate(s.rooms, rid, sid);
    if rid in rooms {
      WithoutDistinct(s.rooms[rid].players, sid);
    }
    forall k | k in rooms
      ensures k != "" && |rooms[k].players| > 0 && Distinct(rooms[k].players)
    {
      if k == rid {
        assert rooms[k].players == Without(s.rooms[rid].players, sid);
        var p :| p in s.rooms[rid].players && p != sid;
        assert p in rooms[k].players;
      }
    }
    var cur := s.current - {sid};
    forall k, p | k in rooms && p in rooms[k].players
      ensures p in cur && cur[p] == k
    {
      assert k in s.rooms && p in s.rooms[k].players && p != sid;
    }
    forall p | p in cur
      ensures cur[p] in rooms && p in rooms[cur[p]].players
    {
      var k := s.current[p];
      assert k in s.rooms && p in s.rooms[k].players && p != sid;
      if k == rid {
        assert p in Without(s.rooms[rid].players, sid);
      }
    }
  }

  /** Entering room `rid`, created empty if absent, keeps the invariant for a socket on no roster. */
  lemma EnterKeepsRosters(mid: Server, sid: SocketId, rid: RoomId)
    requires RosterInvariant(mid) && sid !in mid.current && rid != ""
    ensures var room := if rid in mid.rooms then mid.rooms[rid] else Room([], None);
      RosterInvariant(Server(mid.rooms[rid := room.(players := room.players + [sid])], mid.current[sid := rid]))
  {
    var room := if rid in mid.rooms then mid.rooms[rid] else Room([], None);
    NotOnAnyRoster(mid, sid);
    AppendDistinct(room.players, sid);
    var r := Server(mid.rooms[rid := room.(players := room.players + [sid])], mid.current[sid := rid]);
    forall k, p | k in r.rooms && p in r.rooms[k].players
      ensures p in r.current && r.current[p] == k
    {
      if k == rid && p != sid {
        assert p in room.players;
      }
    }
  }

  /** `join` keeps the invariant for a non-empty room id. */
  lemma JoinKeepsRosters(s: Server, sid: SocketId, rid: RoomId)
    requires RosterInvariant(s) && rid != ""
    ensures RosterInvariant(Join(s, sid, rid).server)
  {
    var rooms := if InRoom(s, sid) then Vacate(s.rooms, s.current[sid], sid) else s.rooms;
    if InRoom(s, sid) {
      VacateKeepsRosters(s, sid);
    } else {
      NotOnAnyRoster(s, sid);
    }
    var mid := Server(rooms, s.current - {sid});
    EnterKeepsRosters(mid, sid, rid);
    assert mid.current[sid := rid] == s.current[sid := rid];
  }

  /**
   Every id the mode selector lets a client join is non-empty, so joining it
   keeps the invariant.
   */
  lemma SelectedRoomKeepsRosters(s: Server, sid: SocketId, f: RoomIdForm.Form, id: RoomId)
    requires RosterInvariant(s)
    requires RoomIdForm.HandleOnlineJoin(f).selection == Some(RoomIdForm.JoinRoom(id))
    ensures RosterInvariant(Join(s, sid, id).server)
  {
    RoomIdForm.ValidIdIsAscii(id);
    JoinKeepsRosters(s, sid, id);
  }

  /** `leave` keeps the invariant. */
  lemma LeaveKeepsRosters(s: Server, sid: SocketId)
    requires RosterInvariant(s)
    ensures RosterInvariant(Leave(s, sid).server)
  {
    if InRoom(s, sid) {
      VacateKeepsRosters(s, sid);
    }
  }

  /** `disconnect` keeps the invariant. */
  lemma DisconnectKeepsRosters(s: Server, sid: SocketId)
    requires RosterInvariant(s)
    ensures RosterInvariant(Disconnect(s, sid).server)
  {
    if InRoom(s, sid) {
      VacateKeepsRosters(s, sid);
    } else {
      NotOnAnyRoster(s, sid);
    }
  }

  /** `game-state` changes only a snapshot, so it keeps the invariant. */
  lemma GameStateKeepsRosters(s: Server, sid: SocketId, g: Option<Engine.GameState>, choices: seq<int>)
    requires RosterInvariant(s) && ValidChoices(choices)
    ensures RosterInvariant(GameStateEvent(s, sid, g, choices).server)
  {
    BroadcastKeepsRosters(s, sid, g, GenerateShuffleMapping(choices));
  }

  lemma BroadcastKeepsRosters(s: Server, sid: SocketId, g: Option<Engine.GameState>, mapping: seq<int>)
    requires RosterInvariant(s) && IsPermutation(mapping)
    ensures RosterInvariant(Broadcast(s, sid, g, mapping).server)
  {
    var r := Broadcast(s, sid, g, mapping).server;
    assert forall k :: (k in r.rooms <==> k in s.rooms) && (k in r.rooms ==> r.rooms[k].players == s.rooms[k].players);
  }

  /** `move` changes nothing, so it keeps the invariant. */
  lemma MoveKeepsRosters(s: Server, sid: SocketId, b: int, c: int)
    requires RosterInvariant(s)
    ensures RosterInvariant(MoveEvent(s, sid, b, c).server)
  {
  }

  /** `reset` changes only a snapshot, so it keeps the invariant. */
  lemma ResetKeepsRosters(s: Server, sid: SocketId)
    requires RosterInvariant(s)
    ensures RosterInvariant(ResetEvent(s, sid).server)
  {
    var r := ResetEvent(s, sid).server;
    if InRoom(s, sid) && s.current[sid] in s.rooms {
      var rid := s.current[sid];
      assert r.rooms == s.rooms[rid := s.rooms[rid].(gameState := None)];
    }
    assert r.rooms.Keys == s.rooms.Keys;
    assert forall k :: k in r.rooms ==> r.rooms[k].players == s.rooms[k].players;
  }

  /**
   Joining the empty room id breaks the invariant: the id is falsy, so the
   next `join` does not take the socket off that roster.
   */
  lemma EmptyRoomIdLeavesTwoRosters()
    ensures var once := Join(EmptyServer(), "s", "").server;
      var twice := Join(once, "s", "room").server;
      && "" in twice.rooms && "s" in twice.rooms[""].players
      && "room" in twice.rooms && "s" in twice.rooms["room"].players
  {
    var once := Join(EmptyServer(), "s", "").server;
    assert !InRoom(once, "s");
    var twice := Join(once, "s", "room").server;
    assert twice.rooms[""] == once.rooms[""];
    assert once.rooms[""].players == ["s"];
  }

  // ---------------------------------------------------------------------------
  // The relay's triggers against the client's

  /** Whenever the client shuffles, the relay's trigger holds for the same state. */
  lemma ClientShuffleImpliesRelayShuffle(g: Engine.GameState)
    requires |g.boardStatus| == 9 && Engine.ShouldTriggerInstability(g)
    ensures ShouldTriggerShuffle(Some(g))
  {
  }

  /**
   The converse fails: the relay fires a chaos swap for a game already won
   on a line of three conquered boards, which the client never shuffles.
   */
  lemma RelayShufflesFinishedGame()
    ensures var g := WonOnTopRow();
      && ShouldTriggerShuffle(Some(g))
      && !Engine.ShouldTriggerInstability(g)
      && g.gameOver && BigBoardWinner(g.boardStatus) == Some(X)
  {
    var g := WonOnTopRow();
    assert CountConquered(g.boardStatus) == 3;
    assert WonLine(g.boardStatus, WinningLines[0], X);
  }

  /** A finished game: X conquered the three boards of the top row. */
  function WonOnTopRow(): Engine.GameState
  {
    var row := [Some(X), Some(X), Some(X), None, None, None, None, None, None];
    var empty := Repeat(None, 9);
    Engine.GameState([row, row, row, empty, empty, empty, empty, empty, empty],
                     GameInvariant.TopRow(),
                     O, None, true, Some(X), false, false, false, None, 0, false, false)
  }

  /**
   Applying such a chaos swap on the client can scatter the winning line:
   after exchanging boards 2 and 3 of a game won on the top row no line of
   the meta-board is held, yet the game stays over and won.
   */
  lemma ChaosSwapScattersWinningLine(g: Engine.GameState, m: seq<int>)
    requires Engine.WellFormed(g) && g.boardStatus == GameInvariant.TopRow()
    requires m == [0, 1, 3, 2, 4, 5, 6, 7, 8]
    ensures BigBoardWinner(g.boardStatus) == Some(X)
    ensures IsPermutation(m)
    ensures var r := Engine.ApplyShuffleMapping(g, m);
      BigBoardWinner(r.boardStatus).None? && r.gameOver == g.gameOver && r.winner == g.winner
  {
    assert WonLine(g.boardStatus, WinningLines[0], X);
    SwapIsPermutation(m);
    ExchangedOutcomes(g, m);
    ScatteredRowHasNoLine();
  }

  lemma SwapIsPermutation(m: seq<int>)
    requires m == [0, 1, 3, 2, 4, 5, 6, 7, 8]
    ensures IsPermutation(m)
  {
    forall v | 0 <= v < 9 ensures v in m {
      assert m[if v == 2 then 3 else if v == 3 then 2 else v] == v;
    }
  }

  /** Exchanging boards 2 and 3 of the top-row win leaves the outcomes `ScatteredRow`. */
  lemma ExchangedOutcomes(g: Engine.GameState, m: seq<int>)
    requires Engine.WellFormed(g) && g.boardStatus == GameInvariant.TopRow()
    requires m == [0, 1, 3, 2, 4, 5, 6, 7, 8] && IsPermutation(m)
    ensures Engine.ApplyShuffleMapping(g, m).boardStatus == ScatteredRow()
  {
    var st := Engine.ApplyShuffleMapping(g, m).boardStatus;
    RelocatedTopRow(st, m);
  }

  lemma RelocatedTopRow(st: seq<Status>, m: seq<int>)
    requires m == [0, 1, 3, 2, 4, 5, 6, 7, 8]
    requires |st| == 9 && forall i :: 0 <= i < 9 ==> st[m[i]] == GameInvariant.TopRow()[i]
    ensures st == ScatteredRow()
  {
    forall j | 0 <= j < 9 ensures st[j] == ScatteredRow()[j] {
      var i := if j == 2 then 3 else if j == 3 then 2 else j;
      assert m[i] == j;
    }
  }

  /** The outcomes of the top-row win after boards 2 and 3 are exchanged. */
  function ScatteredRow(): seq<Status>
  {
    [Won(X), Won(X), Open, Won(X), Open, Open, Open, Open, Open]
  }

  lemma ScatteredRowHasNoLine()
    ensures BigBoardWinner(ScatteredRow()).None?
  {
    var st := ScatteredRow();
    forall k, p | 0 <= k < |WinningLines| ensures !WonLine(st, WinningLines[k], p) {
      var l := WinningLines[k];
      assert st[l.a] == Open || st[l.b] == Open || st[l.c] == Open;
    }
  }

  /**
   The role-swap triggers never agree: the relay fires two moves after the
   shuffle with no coin, the client five moves after it and only on a
   winning coin.
   */
  lemma RoleSwapTriggersDisjoint(g: Engine.GameState, coin: bool)
    ensures ShouldTriggerRoleSwap(Some(g)) ==> g.postShuffleMoves == 2
    ensures Engine.ShouldTriggerRoleSwap(g, coin) ==> g.postShuffleMoves == 5 && coin
    ensures !(ShouldTriggerRoleSwap(Some(g)) && Engine.ShouldTriggerRoleSwap(g, coin))
  {
  }

  /**
   The relay keeps no latch of its own: storing a snapshot does not stop the
   next identical snapshot from firing the same triggers again.
   */
  lemma NoRelayLatch(s: Server, sid: SocketId, g: Option<Engine.GameState>, first: seq<int>, second: seq<int>)
    requires ValidChoices(first) && ValidChoices(second)
    requires InRoom(s, sid) && s.current[sid] in s.rooms
    ensures var again := GameStateEvent(GameStateEvent(s, sid, g, first).server, sid, g, second);
      && ((exists e :: e in again.emits && e.event.ChaosSwap?) <==> ShouldTriggerShuffle(g))
      && ((exists e :: e in again.emits && e.event.RoleSwap?) <==> ShouldTriggerRoleSwap(g))
  {
    var once := GameStateEvent(s, sid, g, first).server;
    assert InRoom(once, sid) && once.current[sid] in once.rooms;
  }
}
