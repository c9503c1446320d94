/**
 * The socket server: `handleLeave` and the `join-lobby`, `leave-lobby` and
 * `disconnect` handlers. Each handler runs as one atomic step; an emit is
 * appended to a log together with the sockets in the room at that moment.
 */
module SocketServer {
  import opened Wrappers
  import opened Store
  import opened Protocol
  import JsStrings

  type SocketId = string

  /** `socket.data` */
  datatype SocketData = SocketData(lobbyId: Option<string>, userId: Option<string>)

  /** The events the server emits to a room. */
  datatype ServerEvent = LeaveLobbyEvent | LobbyUpdated(payload: LobbyUpdatedPayload)

  /** One `io.to(room).emit(event)`, with the sockets it reaches. */
  datatype Emission = Emission(room: string, to: set<SocketId>, event: ServerEvent)

  /** The room of a lobby, keyed by the lobby id exactly as the client spelled it. */
  function RoomKey(lobbyId: string): string {
    "lobby:" + lobbyId
  }

  /** `socket.leave(key)`; the adapter drops a room once it is empty. */
  function LeaveRoom(rooms: map<string, set<SocketId>>, key: string, sid: SocketId): (r: map<string, set<SocketId>>)
    ensures key !in r || sid !in r[key]
    ensures key in r ==> key in rooms && r[key] == rooms[key] - {sid}
    ensures key in rooms && rooms[key] - {sid} != {} ==> key in r
    ensures forall k :: k != key ==> (k in r <==> k in rooms) && (k in r ==> r[k] == rooms[k])
  {
    if key !in rooms then rooms
    else if rooms[key] - {sid} == {} then rooms - {key}
    else rooms[key := rooms[key] - {sid}]
  }

  /** What a departing socket leaves behind: it is in no room any more. */
  function LeaveAllRooms(rooms: map<string, set<SocketId>>, sid: SocketId): (r: map<string, set<SocketId>>)
    ensures forall k :: k in r ==> sid !in r[k] && k in rooms && r[k] == rooms[k] - {sid}
    ensures forall k :: k in rooms && rooms[k] - {sid} != {} ==> k in r
  {
    map k | k in rooms && rooms[k] - {sid} != {} :: rooms[k] - {sid}
  }

  /**
   * `handleLeave({ lobbyId, userId })` on the store: the write to the user row,
   * the deletion of an emptied lobby, and the event that goes to the room
   * (None where the handler returns early or a Prisma call throws).
   */
  function Leave(t: Tables, lobbyId: string, userId: ClerkId): Outcome<Option<ServerEvent>>
  {
    match JsStrings.IntegerValue(lobbyId)
    case None => Outcome(None, t)
    case Some(id) =>
      if userId !in t.users then Outcome(None, t)
      else
        var users := t.users[userId := User(None)];
        var lobby := if id in t.lobbies then Some(t.lobbies[id]) else None;
        var remaining := Members(users, id);
        if remaining == {} && id !in t.lobbies then Outcome(None, t.(users := users))
        else
          var lobbies := if remaining == {} then t.lobbies - {id} else t.lobbies;
          var event := if lobby.Some? && lobby.value.hostId == userId then LeaveLobbyEvent
                       else LobbyUpdated(LobbyUpdatedPayload(lobbyId, remaining, None));
          Outcome(Some(event), t.(users := users, lobbies := lobbies))
  }

  /** The emission an optional event becomes. */
  function EmitTo(room: string, to: set<SocketId>, event: Option<ServerEvent>): seq<Emission> {
    if event.Some? then [Emission(room, to, event.value)] else []
  }

  class Server {
    const db: Database
    var rooms: map<string, set<SocketId>>
    var sockets: map<SocketId, SocketData>
    var events: seq<Emission>

    /** The sockets currently in a room. */
    function Room(key: string): set<SocketId>
      reads this
    {
      if key in rooms then rooms[key] else {}
    }

    constructor (db: Database)
      ensures this.db == db && rooms == map[] && sockets == map[] && events == []
    {
      this.db := db;
      rooms, sockets, events := map[], map[], [];
    }

    /** A new connection, with empty `socket.data`. */
    method Connect(sid: SocketId)
      requires sid !in sockets
      modifies this`sockets
      ensures sockets == old(sockets)[sid := SocketData(None, None)]
    {
      sockets := sockets[sid := SocketData(None, None)];
    }

    /**
     * `join-lobby`: records the ids on the socket, reads the roster and only
     * then joins the room and emits to it; the store is not written. For a
     * lobby id that is not an integer the roster query is taken to throw, after the ids
     * were recorded.
     */
    method JoinLobby(sid: SocketId, lobbyId: string, userId: string)
      requires sid in sockets
      modifies this`sockets, this`rooms, this`events
      ensures sockets == old(sockets)[sid := SocketData(Some(lobbyId), Some(userId))]
      ensures JsStrings.IntegerValue(lobbyId).None? ==> rooms == old(rooms) && events == old(events)
      ensures JsStrings.IntegerValue(lobbyId).Some? ==>
        var key := RoomKey(lobbyId);
        && rooms == old(rooms)[key := old(Room(key)) + {sid}]
        && events == old(events) + [Emission(key, old(Room(key)) + {sid},
               LobbyUpdated(LobbyUpdatedPayload(lobbyId, Members(db.users, JsStrings.IntegerValue(lobbyId).value), None)))]
    {
      var key := RoomKey(lobbyId);
      sockets := sockets[sid := SocketData(Some(lobbyId), Some(userId))];
      var id := JsStrings.IntegerValue(lobbyId);
      if id.None? {
        return;
      }
      var players := db.FindMembers(id.value);
      assert players == Members(db.users, id.value);
      rooms := rooms[key := Room(key) + {sid}];
      events := events + [Emission(key, Room(key), LobbyUpdated(LobbyUpdatedPayload(lobbyId, players, None)))];
    }

    /** `handleLeave`, step by step against the store. */
    method HandleLeave(lobbyId: string, userId: ClerkId)
      requires db.Valid()
      modifies db, this`events
      ensures db.Valid()
      ensures var o := Leave(old(db.Snapshot()), lobbyId, userId);
        && db.Snapshot() == o.tables
        && events == old(events) + EmitTo(RoomKey(lobbyId), Room(RoomKey(lobbyId)), o.result)
    {
      var parsed := JsStrings.IntegerValue(lobbyId);
      if parsed.None? {
        return;
      }
      var id := parsed.value;
      var key := RoomKey(lobbyId);
      ghost var before := db.Snapshot();
      ghost var o := Leave(before, lobbyId, userId);
      var ok := db.UpdateUserLobby(userId, None);
      if !ok {
        return;
      }
      assert db.users == o.tables.users;
      var lobby := db.FindLobby(id);
      assert lobby == (if id in before.lobbies then Some(before.lobbies[id]) else None);
      var players := db.FindMembers(id);
      assert players == Members(o.tables.users, id);
      if players == {} {
        var deleted := db.DeleteLobby(id);
        if !deleted {
          return;
        }
      }
      assert db.Snapshot() == o.tables;
      var event := if lobby.Some? && lobby.value.hostId == userId then LeaveLobbyEvent
                   else LobbyUpdated(LobbyUpdatedPayload(lobbyId, players, None));
      assert o.result == Some(event);
      events := events + [Emission(key, Room(key), event)];
    }

    /** `leave-lobby`: the socket leaves the room first, then `handleLeave` runs. */
    method LeaveLobby(sid: SocketId, lobbyId: string, userId: ClerkId)
      requires db.Valid()
      modifies db, this`rooms, this`events
      ensures db.Valid()
      ensures rooms == LeaveRoom(old(rooms), RoomKey(lobbyId), sid)
      ensures var o := Leave(old(db.Snapshot()), lobbyId, userId);
        && db.Snapshot() == o.tables
        && events == old(events) + EmitTo(RoomKey(lobbyId), Room(RoomKey(lobbyId)), o.result)
      ensures forall e <- events[|old(events)|..] :: sid !in e.to
    {
      rooms := LeaveRoom(rooms, RoomKey(lobbyId), sid);
      HandleLeave(lobbyId, userId);
    }

    /**
     * `disconnect`: the socket has already left every room; with both ids
     * recorded and non-empty it runs `handleLeave`, otherwise nothing happens.
     */
    method Disconnect(sid: SocketId)
      requires db.Valid() && sid in sockets
      modifies db, this`rooms, this`sockets, this`events
      ensures db.Valid()
      ensures rooms == LeaveAllRooms(old(rooms), sid)
      ensures sockets == old(sockets) - {sid}
      ensures var d := old(sockets[sid]);
        if Truthy(d.lobbyId) && Truthy(d.userId) then
          var o := Leave(old(db.Snapshot()), d.lobbyId.value, d.userId.value);
          && db.Snapshot() == o.tables
          && events == old(events) + EmitTo(RoomKey(d.lobbyId.value), Room(RoomKey(d.lobbyId.value)), o.result)
        else
          db.Snapshot() == old(db.Snapshot()) && events == old(events)
      ensures forall e <- events[|old(events)|..] :: sid !in e.to
    {
      var data := sockets[sid];
      rooms := LeaveAllRooms(rooms, sid);
      sockets := sockets - {sid};
      if !Truthy(data.lobbyId) || !Truthy(data.userId) {
        return;
      }
      HandleLeave(data.lobbyId.value, data.userId.value);
    }
  }

  /** A lobby id that is not an integer makes `handleLeave` a no-op. */
  lemma LeaveIgnoresNonInteger(t: Tables, lobbyId: string, userId: ClerkId)
    requires JsStrings.IntegerValue(lobbyId).None?
    ensures Leave(t, lobbyId, userId) == Outcome(None, t)
  {
  }

  /** A leaver without a user row makes the first update throw: nothing changes, nothing is sent. */
  lemma LeaveUnknownUser(t: Tables, lobbyId: string, userId: ClerkId)
    requires userId !in t.users
    ensures Leave(t, lobbyId, userId) == Outcome(None, t)
  {
  }

  /**
   * The leaver's reference is cleared, whichever lobby it pointed at, and no
   * other user row changes; lobbies other than the named one are untouched,
   * and the named one is deleted exactly when no user references it any more.
   */
  lemma LeaveClearsLeaverAndDeletesEmptied(t: Tables, lobbyId: string, userId: ClerkId)
    requires JsStrings.IntegerValue(lobbyId).Some? && userId in t.users
    ensures var id := JsStrings.IntegerValue(lobbyId).value;
      var o := Leave(t, lobbyId, userId);
      && o.tables.users == t.users[userId := User(None)]
      && o.tables.nextLobbyId == t.nextLobbyId
      && (Members(o.tables.users, id) == {} ==> o.tables.lobbies == t.lobbies - {id})
      && (Members(o.tables.users, id) != {} ==> o.tables.lobbies == t.lobbies)
  {
  }

  /**
   * The leaver's departure from the named lobby: the remaining members are
   * the previous ones without the leaver.
   */
  lemma LeaveRemaining(t: Tables, lobbyId: string, userId: ClerkId)
    requires JsStrings.IntegerValue(lobbyId).Some? && userId in t.users
    ensures var id := JsStrings.IntegerValue(lobbyId).value;
      Members(Leave(t, lobbyId, userId).tables.users, id) == Members(t.users, id) - {userId}
  {
    MembersAfterUpdate(t.users, userId, None, JsStrings.IntegerValue(lobbyId).value);
  }

  /**
   * The event: `leave-lobby` when the lobby row read before any deletion
   * names the leaver as host, otherwise `lobby-updated` with exactly the
   * remaining members and no host id. Nothing is sent only when the emptied
   * lobby had no row, so that deleting it throws.
   */
  lemma LeaveEvent(t: Tables, lobbyId: string, userId: ClerkId)
    requires JsStrings.IntegerValue(lobbyId).Some? && userId in t.users
    ensures var id := JsStrings.IntegerValue(lobbyId).value;
      var remaining := Members(t.users, id) - {userId};
      var o := Leave(t, lobbyId, userId);
      && (o.result.None? <==> remaining == {} && id !in t.lobbies)
      && (o.result.Some? && id in t.lobbies && t.lobbies[id].hostId == userId ==> o.result.value == LeaveLobbyEvent)
      && (o.result.Some? && !(id in t.lobbies && t.lobbies[id].hostId == userId) ==>
            o.result.value == LobbyUpdated(LobbyUpdatedPayload(lobbyId, remaining, None)))
  {
    LeaveRemaining(t, lobbyId, userId);
  }

  /**
   * The host leaving a lobby that others are still in: everyone left is told
   * to leave, but the row survives and their references are untouched.
   */
  lemma HostLeavesOthersRemain(t: Tables, lobbyId: string, userId: ClerkId)
    requires JsStrings.IntegerValue(lobbyId).Some? && userId in t.users
    requires var id := JsStrings.IntegerValue(lobbyId).value;
      id in t.lobbies && t.lobbies[id].hostId == userId && Members(t.users, id) - {userId} != {}
    ensures var id := JsStrings.IntegerValue(lobbyId).value;
      var o := Leave(t, lobbyId, userId);
      && o.result == Some(LeaveLobbyEvent)
      && id in o.tables.lobbies && o.tables.lobbies[id] == t.lobbies[id]
      && (forall c :: c in Members(t.users, id) && c != userId ==> o.tables.users[c] == t.users[c])
  {
    LeaveRemaining(t, lobbyId, userId);
  }

  /** The last member leaving deletes the lobby, host or not. */
  lemma LastMemberLeaves(t: Tables, lobbyId: string, userId: ClerkId)
    requires JsStrings.IntegerValue(lobbyId).Some? && userId in t.users
    requires var id := JsStrings.IntegerValue(lobbyId).value;
      id in t.lobbies && Members(t.users, id) <= {userId}
    ensures var id := JsStrings.IntegerValue(lobbyId).value;
      var o := Leave(t, lobbyId, userId);
      && o.result.Some?
      && id !in o.tables.lobbies
      && (t.lobbies[id].hostId != userId ==> o.result.value.LobbyUpdated? && o.result.value.payload.players == {})
  {
    LeaveRemaining(t, lobbyId, userId);
  }

  /**
   * `leave-lobby` never clears `socket.data`, so when the last member leaves
   * explicitly and then disconnects, `handleLeave` runs a second time: the
   * lobby is already gone, `lobby.delete` throws and nothing is sent.
   */
  lemma SecondLeaveFindsNoLobby(t: Tables, lobbyId: string, userId: ClerkId)
    requires JsStrings.IntegerValue(lobbyId).Some? && userId in t.users
    requires var id := JsStrings.IntegerValue(lobbyId).value;
      id in t.lobbies && Members(t.users, id) == {userId}
    ensures var id := JsStrings.IntegerValue(lobbyId).value;
      var t1 := Leave(t, lobbyId, userId).tables;
      && id !in t1.lobbies
      && Members(t1.users, id) == {}
      && Leave(t1, lobbyId, userId).result.None?
      && Leave(t1, lobbyId, userId).tables == t1
  {
    var id := JsStrings.IntegerValue(lobbyId).value;
    var t1 := Leave(t, lobbyId, userId).tables;
    LeaveRemaining(t, lobbyId, userId);
    LeaveRemaining(t1, lobbyId, userId);
    assert t1.users[userId] == User(None);
    assert t1.users[userId := User(None)] == t1.users;
  }

  lemma LeavePreservesValid(t: Tables, lobbyId: string, userId: ClerkId)
    requires t.Valid()
    ensures Leave(t, lobbyId, userId).tables.Valid()
  {
  }
}
