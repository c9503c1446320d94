/** `POST /api/join-lobby`: the caller's lobby reference is set to an existing lobby. */
module JoinLobbyRoute {
  import opened Wrappers
  import opened Store
  import opened Protocol

  /** What the handler answers and leaves in the store, for the parsed body `{ lobbyId }`. */
  function PostEffect(t: Tables, caller: Option<ClerkId>, lobbyId: LobbyId): (o: Outcome<Response>)
    ensures o.tables.lobbies == t.lobbies && o.tables.nextLobbyId == t.nextLobbyId
    ensures o.tables.users.Keys == t.users.Keys
    ensures o.result.LobbyIdJson? ==> o.result == LobbyIdJson(Some(lobbyId))
  {
    if !Truthy(caller) then Outcome(Unauthorized, t)
    else if lobbyId !in t.lobbies then Outcome(Text(401, "No lobby"), t)
    // `user.update` throws for a caller without a row; the catch block answers 500
    else if caller.value !in t.users then Outcome(InternalError, t)
    else Outcome(LobbyIdJson(Some(lobbyId)), t.(users := t.users[caller.value := User(Some(lobbyId))]))
  }

  method Post(db: Database, caller: Option<ClerkId>, lobbyId: LobbyId) returns (res: Response)
    requires db.Valid()
    modifies db
    ensures db.Valid()
    ensures Outcome(res, db.Snapshot()) == PostEffect(old(db.Snapshot()), caller, lobbyId)
  {
    if !Truthy(caller) {
      return Unauthorized;
    }
    var clerkId := caller.value;
    var lobby := db.FindLobby(lobbyId);
    if lobby.None? {
      return Text(401, "No lobby");
    }
    var ok := db.UpdateUserLobby(clerkId, Some(lobbyId));
    if !ok {
      return InternalError;
    }
    return LobbyIdJson(Some(lobbyId));
  }

  /** Without a signed-in caller the answer is 401 and the store is unchanged. */
  lemma UnauthenticatedIsRejected(t: Tables, caller: Option<ClerkId>, lobbyId: LobbyId)
    requires !Truthy(caller)
    ensures PostEffect(t, caller, lobbyId) == Outcome(Text(401, "Unauthorized"), t)
  {
  }

  /** A lobby id with no row gets 401 "No lobby" and the store is unchanged. */
  lemma MissingLobbyIsRejected(t: Tables, caller: ClerkId, lobbyId: LobbyId)
    requires caller != "" && lobbyId !in t.lobbies
    ensures PostEffect(t, Some(caller), lobbyId) == Outcome(Text(401, "No lobby"), t)
  {
  }

  /** A caller without a user row makes the update throw: 500, store unchanged. */
  lemma UnknownUserFails(t: Tables, caller: ClerkId, lobbyId: LobbyId)
    requires caller != "" && lobbyId in t.lobbies && caller !in t.users
    ensures PostEffect(t, Some(caller), lobbyId) == Outcome(Text(500, "Internal Error"), t)
  {
  }

  /**
   * On success the caller's reference is overwritten with the requested id,
   * which is also returned: the caller leaves whatever lobby it was in and
   * joins this one; no other row changes, and the previous lobby's row stays.
   */
  lemma MovesCaller(t: Tables, caller: ClerkId, lobbyId: LobbyId)
    requires caller != "" && lobbyId in t.lobbies && caller in t.users
    ensures var o := PostEffect(t, Some(caller), lobbyId);
      && o.result == LobbyIdJson(Some(lobbyId))
      && o.tables.lobbies == t.lobbies
      && o.tables.nextLobbyId == t.nextLobbyId
      && o.tables.users.Keys == t.users.Keys
      && o.tables.users[caller] == User(Some(lobbyId))
      && (forall c :: c in t.users && c != caller ==> o.tables.users[c] == t.users[c])
      && Members(o.tables.users, lobbyId) == Members(t.users, lobbyId) + {caller}
      && (forall other :: other != lobbyId ==> Members(o.tables.users, other) == Members(t.users, other) - {caller})
  {
    forall other {
      MembersAfterUpdate(t.users, caller, Some(lobbyId), other);
    }
  }

  /**
   * Joining does not clean up: a caller who was the only member of another
   * lobby leaves that lobby's row behind with no member at all.
   */
  lemma PreviousLobbyIsNotCleanedUp(t: Tables, caller: ClerkId, lobbyId: LobbyId, prev: LobbyId)
    requires caller != "" && lobbyId in t.lobbies && caller in t.users
    requires prev != lobbyId && prev in t.lobbies && Members(t.users, prev) == {caller}
    ensures var o := PostEffect(t, Some(caller), lobbyId);
      && o.result == LobbyIdJson(Some(lobbyId))
      && prev in o.tables.lobbies
      && o.tables.lobbies[prev] == t.lobbies[prev]
      && Members(o.tables.users, prev) == {}
  {
    MovesCaller(t, caller, lobbyId);
  }

  lemma PostPreservesValid(t: Tables, caller: Option<ClerkId>, lobbyId: LobbyId)
    requires t.Valid()
    ensures PostEffect(t, caller, lobbyId).tables.Valid()
  {
  }
}
