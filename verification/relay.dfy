/**
 The relay server's bookkeeping: a map from room id to a roster of socket ids
 and an optional game snapshot, the room each connection is in, and the
 server-side trigger predicates. Each socket event handler is a function
 from the server state to the next state and the emissions it makes.
 */
module Relay {
  import opened Options
  import opened Board
  import opened Shuffle
  import Engine

  type SocketId = string
  type RoomId = string

  /** One room: its roster in join order and the last snapshot a client sent. */
  datatype Room = Room(players: seq<SocketId>, gameState: Option<Engine.GameState>)

  /**
   The whole relay: the rooms, and for every connection that has joined a
   room the id it joined (absent is the original's `null`).
   */
  datatype Server = Server(rooms: map<RoomId, Room>, current: map<SocketId, RoomId>)

  datatype Event =
    | RoomStatus(players: nat, gameStarted: bool)
    | ChaosSwap(mapping: seq<int>)
    | RoleSwap
    | MoveRelay(boardIndex: int, cellIndex: int)
    | ResetRelay

  /** An event sent to the sockets in `to`. */
  datatype Emission = Emission(to: seq<SocketId>, event: Event)

  /** The state after a handler and what it emitted, in order. */
  datatype Outcome = Outcome(server: Server, emits: seq<Emission>)

  /** No rooms, no connections. */
  function EmptyServer(): Server
  {
    Server(map[], map[])
  }

  /**
   The handlers guard on the connection's room id being truthy: a connection
   that never joined, or left, or joined the empty id, has none.
   */
  predicate InRoom(s: Server, sid: SocketId)
  {
    sid in s.current && s.current[sid] != ""
  }

  // ---------------------------------------------------------------------------
  // Trigger predicates

  /**
   The relay's shuffle trigger: a snapshot that has not shuffled yet and has
   exactly three conquered boards. Unlike the client there is no test for a
   line of conquered boards or for a finished game.
   */
  predicate ShouldTriggerShuffle(g: Option<Engine.GameState>)
  {
    match g
    case None => false
    case Some(s) => !s.instabilityTriggered && CountConquered(s.boardStatus) == 3
  }

  /** The relay's role-swap trigger: deterministic, two moves after the shuffle. */
  predicate ShouldTriggerRoleSwap(g: Option<Engine.GameState>)
  {
    match g
    case None => false
    case Some(s) => s.instabilityTriggered && !s.roleSwapTriggered && !s.gameOver && s.postShuffleMoves == 2
  }

  // ---------------------------------------------------------------------------
  // Rosters

  /** `xs` with every occurrence of `x` removed, order kept. */
  function Without(xs: seq<SocketId>, x: SocketId): (r: seq<SocketId>)
    ensures forall y :: y in r <==> y in xs && y != x
    ensures forall y :: y != x ==> multiset(r)[y] == multiset(xs)[y]
    ensures |r| <= |xs|
  {
    if xs == [] then []
    else
      var rest := Without(xs[1..], x);
      assert xs == [xs[0]] + xs[1..];
      if xs[0] == x then rest else [xs[0]] + rest
  }

  /**
   Takes `sid` off the roster of room `rid`, deleting the room when nobody
   is left; any other room is untouched.
   */
  function Vacate(rooms: map<RoomId, Room>, rid: RoomId, sid: SocketId): (r: map<RoomId, Room>)
    ensures rid !in rooms ==> r == rooms
    ensures rid in rooms ==>
      (rid in r <==> exists p :: p in rooms[rid].players && p != sid)
    ensures rid in r ==> r[rid] == rooms[rid].(players := Without(rooms[rid].players, sid))
    ensures forall k :: k != rid ==> (k in r <==> k in rooms) && (k in r ==> r[k] == rooms[k])
  {
    if rid in rooms then
      var left := Without(rooms[rid].players, sid);
      if |left| == 0 then rooms - {rid}
      else
        assert left[0] in rooms[rid].players && left[0] != sid;
        rooms[rid := rooms[rid].(players := left)]
    else rooms
  }

  /** The roster of room `rid`, empty when there is no such room. */
  function Roster(rooms: map<RoomId, Room>, rid: RoomId): seq<SocketId>
  {
    if rid in rooms then rooms[rid].players else []
  }

  /** The sockets of room `rid` other than `sid`: the recipients of a relayed event. */
  function Others(rooms: map<RoomId, Room>, rid: RoomId, sid: SocketId): (r: seq<SocketId>)
    ensures forall p :: p in r <==> p in Roster(rooms, rid) && p != sid
  {
    Without(Roster(rooms, rid), sid)
  }

  // ---------------------------------------------------------------------------
  // Handlers

  /**
   `join`: leave the previous room, if any, then enter `rid`, creating it
   with no snapshot when it does not exist, and tell everyone in it the
   player count and whether the game can start.
   */
  function Join(s: Server, sid: SocketId, rid: RoomId): (r: Outcome)
    ensures r.server.current == s.current[sid := rid]
    ensures rid in r.server.rooms
    ensures var after := r.server.rooms[rid].players;
      && |after| > 0 && after[|after| - 1] == sid
      && r.emits == [Emission(after, RoomStatus(|after|, |after| >= 2))]
    ensures !(InRoom(s, sid) && s.current[sid] == rid) ==>
      r.server.rooms[rid] == (if rid in s.rooms then s.rooms[rid].(players := s.rooms[rid].players + [sid])
                              else Room([sid], None))
    ensures InRoom(s, sid) && s.current[sid] == rid ==>
      r.server.rooms[rid] == (if rid in s.rooms && exists p :: p in s.rooms[rid].players && p != sid
                              then s.rooms[rid].(players := Without(s.rooms[rid].players, sid) + [sid])
                              else Room([sid], None))
    ensures InRoom(s, sid) && s.current[sid] != rid ==>
      var prev := s.current[sid];
      && (prev in r.server.rooms ==> sid !in r.server.rooms[prev].players)
      && (prev in s.rooms ==> (prev in r.server.rooms <==> exists p :: p in s.rooms[prev].players && p != sid))
      && (prev in r.server.rooms ==> prev in s.rooms && r.server.rooms[prev] == s.rooms[prev].(players := Without(s.rooms[prev].players, sid)))
    ensures forall k :: k in r.server.rooms && k != rid ==> k in s.rooms
    ensures forall k :: k in s.rooms && k != rid && !(InRoom(s, sid) && k == s.current[sid]) ==>
      k in r.server.rooms && r.server.rooms[k] == s.rooms[k]
  {
    var rooms := if InRoom(s, sid) then Vacate(s.rooms, s.current[sid], sid) else s.rooms;
    var room := if rid in rooms then rooms[rid] else Room([], None);
    var entered := room.(players := room.players + [sid]);
    Outcome(Server(rooms[rid := entered], s.current[sid := rid]),
            [Emission(entered.players, RoomStatus(|entered.players|, |entered.players| >= 2))])
  }

  /**
   The common end of `leave` and `disconnect`: the socket leaves its room's
   roster; an emptied room is deleted, otherwise the rest are told the game
   has stopped.
   */
  function Depart(s: Server, sid: SocketId, current: map<SocketId, RoomId>): (r: Outcome)
    requires InRoom(s, sid)
    ensures r.server.current == current
    ensures var rid := s.current[sid];
      && (rid in r.server.rooms ==> sid !in r.server.rooms[rid].players)
      && (rid in r.server.rooms <==> rid in s.rooms && exists p :: p in s.rooms[rid].players && p != sid)
      && (rid in r.server.rooms ==>
            r.server.rooms[rid].gameState == s.rooms[rid].gameState
            && forall p :: p != sid ==> multiset(r.server.rooms[rid].players)[p] == multiset(s.rooms[rid].players)[p])
      && r.emits == (if rid in r.server.rooms
                     then [Emission(r.server.rooms[rid].players, RoomStatus(|r.server.rooms[rid].players|, false))]
                     else [])
    ensures forall k :: k != s.current[sid] ==>
      (k in r.server.rooms <==> k in s.rooms) && (k in r.server.rooms ==> r.server.rooms[k] == s.rooms[k])
  {
    var rid := s.current[sid];
    var rooms := Vacate(s.rooms, rid, sid);
    Outcome(Server(rooms, current),
            if rid in rooms then [Emission(rooms[rid].players, RoomStatus(|rooms[rid].players|, false))] else [])
  }

  /** `leave`: depart the room and forget it. */
  function Leave(s: Server, sid: SocketId): (r: Outcome)
    ensures !InRoom(s, sid) ==> r == Outcome(s, [])
    ensures InRoom(s, sid) ==> r == Depart(s, sid, s.current - {sid}) && sid !in r.server.current
  {
    if InRoom(s, sid) then Depart(s, sid, s.current - {sid}) else Outcome(s, [])
  }

  /**
   `disconnect`: depart the room; the connection, and with it its room id,
   is gone whether or not it was in a room.
   */
  function Disconnect(s: Server, sid: SocketId): (r: Outcome)
    ensures !InRoom(s, sid) ==> r == Outcome(s.(current := s.current - {sid}), [])
    ensures InRoom(s, sid) ==> r == Depart(s, sid, s.current - {sid})
    ensures sid !in r.server.current
  {
    if InRoom(s, sid) then Depart(s, sid, s.current - {sid})
    else Outcome(s.(current := s.current - {sid}), [])
  }

  /**
   `game-state` once the shuffle's permutation is drawn: store the snapshot a
   client sent, then tell the whole room to shuffle with `mapping` and to
   swap roles when the relay's own triggers hold for that snapshot.
   */
  function Broadcast(s: Server, sid: SocketId, g: Option<Engine.GameState>, mapping: seq<int>): (r: Outcome)
    requires IsPermutation(mapping)
    ensures r.server.current == s.current
    ensures !(InRoom(s, sid) && s.current[sid] in s.rooms) ==> r == Outcome(s, [])
    ensures InRoom(s, sid) && s.current[sid] in s.rooms ==>
      var rid := s.current[sid];
      && r.server.rooms == s.rooms[rid := s.rooms[rid].(gameState := g)]
      && (forall e :: e in r.emits ==> e.to == s.rooms[rid].players)
      && ((exists e :: e in r.emits && e.event.ChaosSwap?) <==> ShouldTriggerShuffle(g))
      && ((exists e :: e in r.emits && e.event.RoleSwap?) <==> ShouldTriggerRoleSwap(g))
      && |r.emits| == (if ShouldTriggerShuffle(g) then 1 else 0) + (if ShouldTriggerRoleSwap(g) then 1 else 0)
      && (ShouldTriggerShuffle(g) ==> r.emits[0].event == ChaosSwap(mapping))
      && (ShouldTriggerRoleSwap(g) ==> r.emits[|r.emits| - 1].event == RoleSwap)
    ensures forall e :: e in r.emits ==> e.event == ChaosSwap(mapping) || e.event.RoleSwap?
  {
    if InRoom(s, sid) && s.current[sid] in s.rooms then
      var rid := s.current[sid];
      var room := s.rooms[rid];
      var swap := if ShouldTriggerShuffle(g) then [Emission(room.players, ChaosSwap(mapping))] else [];
      var roles := if ShouldTriggerRoleSwap(g) then [Emission(room.players, RoleSwap)] else [];
      assert forall e :: e in swap + roles <==> e in swap || e in roles;
      Outcome(s.(rooms := s.rooms[rid := room.(gameState := g)]), swap + roles)
    else Outcome(s, [])
  }

  /** `game-state`: the permutation of a chaos swap is drawn by Fisher-Yates from `choices`. */
  function GameStateEvent(s: Server, sid: SocketId, g: Option<Engine.GameState>, choices: seq<int>): Outcome
    requires ValidChoices(choices)
  {
    Broadcast(s, sid, g, GenerateShuffleMapping(choices))
  }

  /** Every chaos swap the relay sends carries a permutation of 0..8. */
  lemma ChaosSwapIsPermutation(s: Server, sid: SocketId, g: Option<Engine.GameState>, choices: seq<int>)
    requires ValidChoices(choices)
    ensures forall e :: e in GameStateEvent(s, sid, g, choices).emits && e.event.ChaosSwap? ==>
      IsPermutation(e.event.mapping)
  {
    var m := GenerateShuffleMapping(choices);
    assert IsPermutation(m);
  }

  /** `move`: pass the move, unchecked and unchanged, to the other sockets of the room. */
  function MoveEvent(s: Server, sid: SocketId, boardIndex: int, cellIndex: int): (r: Outcome)
    ensures r.server == s
    ensures !InRoom(s, sid) ==> r.emits == []
    ensures InRoom(s, sid) ==> |r.emits| == 1 && r.emits[0].event == MoveRelay(boardIndex, cellIndex)
    ensures forall e, p :: e in r.emits ==>
      (p in e.to <==> p in Roster(s.rooms, s.current[sid]) && p != sid)
  {
    if InRoom(s, sid) then Outcome(s, [Emission(Others(s.rooms, s.current[sid], sid), MoveRelay(boardIndex, cellIndex))])
    else Outcome(s, [])
  }

  /** `reset`: drop the room's snapshot and pass the reset to the other sockets of the room. */
  function ResetEvent(s: Server, sid: SocketId): (r: Outcome)
    ensures r.server.current == s.current
    ensures !InRoom(s, sid) ==> r == Outcome(s, [])
    ensures InRoom(s, sid) ==>
      var rid := s.current[sid];
      && (rid in s.rooms ==> r.server.rooms == s.rooms[rid := s.rooms[rid].(gameState := None)])
      && (rid !in s.rooms ==> r.server.rooms == s.rooms)
      && |r.emits| == 1 && r.emits[0].event == ResetRelay
      && forall p :: p in r.emits[0].to <==> p in Roster(s.rooms, rid) && p != sid
  {
    if InRoom(s, sid) then
      var rid := s.current[sid];
      var rooms := if rid in s.rooms then s.rooms[rid := s.rooms[rid].(gameState := None)] else s.rooms;
      Outcome(s.(rooms := rooms), [Emission(Others(s.rooms, rid, sid), ResetRelay)])
    else Outcome(s, [])
  }
}
