/** `POST /api/create-lobby`: the caller creates a lobby, hosts it and moves into it. */
module CreateLobbyRoute {
  import opened Wrappers
  import opened Store
  import opened Protocol

  /** `playlistId || null` */
  function PlaylistOrNull(playlistId: Option<string>): Option<string> {
    if Truthy(playlistId) then playlistId else None
  }

  /** What the handler answers and leaves in the store, for the parsed body `{ playlistId, rounds }`. */
  function PostEffect(t: Tables, caller: Option<ClerkId>, playlistId: Option<string>, rounds: int): (o: Outcome<Response>)
    ensures o.tables.users.Keys == t.users.Keys
    ensures o.result.LobbyIdJson? <==> Truthy(caller) && caller.value in t.users
    ensures !o.result.LobbyIdJson? ==> o.tables == t
  {
    if !Truthy(caller) then Outcome(Unauthorized, t)
    else if caller.value !in t.users then Outcome(Text(401, "User not found"), t)
    else
      var id := t.nextLobbyId;
      Outcome(LobbyIdJson(Some(id)),
              Tables(t.users[caller.value := User(Some(id))],
                     t.lobbies[id := Lobby(caller.value, PlaylistOrNull(playlistId), rounds)],
                     id + 1))
  }

  method Post(db: Database, caller: Option<ClerkId>, playlistId: Option<string>, rounds: int) returns (res: Response)
    requires db.Valid()
    modifies db
    ensures db.Valid()
    ensures Outcome(res, db.Snapshot()) == PostEffect(old(db.Snapshot()), caller, playlistId, rounds)
  {
    if !Truthy(caller) {
      return Unauthorized;
    }
    var clerkId := caller.value;
    var user := db.FindUser(clerkId);
    if user.None? {
      return Text(401, "User not found");
    }
    var id := db.CreateLobby(Lobby(clerkId, PlaylistOrNull(playlistId), rounds));
    var _ := db.UpdateUserLobby(clerkId, Some(id));
    return LobbyIdJson(Some(id));
  }

  /** Without a signed-in caller the answer is 401 and nothing is created. */
  lemma UnauthenticatedIsRejected(t: Tables, caller: Option<ClerkId>, playlistId: Option<string>, rounds: int)
    requires !Truthy(caller)
    ensures PostEffect(t, caller, playlistId, rounds) == Outcome(Text(401, "Unauthorized"), t)
  {
  }

  /** A caller without a user row gets 401 and no lobby is created. */
  lemma UnknownUserIsRejected(t: Tables, caller: ClerkId, playlistId: Option<string>, rounds: int)
    requires caller != "" && caller !in t.users
    ensures PostEffect(t, Some(caller), playlistId, rounds) == Outcome(Text(401, "User not found"), t)
  {
  }

  /**
   * On success the answer carries a fresh id; the new row is hosted by the
   * caller, with the playlist when one was given and null otherwise, and the
   * rounds as given; the caller is then the lobby's only member.
   */
  lemma CreatesHostedLobby(t: Tables, caller: ClerkId, playlistId: Option<string>, rounds: int)
    requires t.Valid() && caller != "" && caller in t.users
    ensures var o := PostEffect(t, Some(caller), playlistId, rounds);
      && o.result.LobbyIdJson? && o.result.lobbyId.Some?
      && var id := o.result.lobbyId.value;
      && id !in t.lobbies
      && Members(t.users, id) == {}
      && id in o.tables.lobbies
      && o.tables.lobbies[id].hostId == caller
      && o.tables.lobbies[id].playlistId == (if playlistId.Some? && playlistId.value != "" then playlistId else None)
      && o.tables.lobbies[id].rounds == rounds
      && o.tables.users[caller].lobbyId == Some(id)
      && Members(o.tables.users, id) == {caller}
  {
    var id := t.nextLobbyId;
    var o := PostEffect(t, Some(caller), playlistId, rounds);
    MembersAfterUpdate(t.users, caller, Some(id), id);
    assert Members(t.users, id) == {};
  }

  /** Apart from the new lobby row, only the caller's row changes. */
  lemma TouchesOnlyCallerAndNewLobby(t: Tables, caller: ClerkId, playlistId: Option<string>, rounds: int)
    requires t.Valid() && caller != "" && caller in t.users
    ensures var o := PostEffect(t, Some(caller), playlistId, rounds);
      && o.tables.users.Keys == t.users.Keys
      && (forall c :: c in t.users && c != caller ==> o.tables.users[c] == t.users[c])
      && o.tables.lobbies.Keys == t.lobbies.Keys + {t.nextLobbyId}
      && (forall id :: id in t.lobbies ==> id in o.tables.lobbies && o.tables.lobbies[id] == t.lobbies[id])
  {
  }

  lemma PostPreservesValid(t: Tables, caller: Option<ClerkId>, playlistId: Option<string>, rounds: int)
    requires t.Valid()
    ensures PostEffect(t, caller, playlistId, rounds).tables.Valid()
  {
  }
}
