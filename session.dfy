/** Properties that span the routes, the socket server and the pages. */
module Session {
  import opened Wrappers
  import opened Store
  import opened Protocol
  import JsStrings
  import CreateLobbyRoute
  import JoinLobbyRoute
  import GetLobbyIdRoute
  import SocketServer

  /**
   * After creating a lobby, the host's page learns the new id from
   * `get-lobbyid`, spells it as a string, and the server reads that string
   * back as the same id, whose roster is the host alone.
   */
  lemma CreatedLobbyReachesHostPage(t: Tables, caller: ClerkId, playlistId: Option<string>, rounds: int)
    requires t.Valid() && caller != "" && caller in t.users
    ensures var o := CreateLobbyRoute.PostEffect(t, Some(caller), playlistId, rounds);
      var id := o.result.lobbyId.value;
      var shown := FetchedLobbyId("", GetLobbyIdRoute.Get(o.tables.users, Some(caller)));
      && o.result.LobbyIdJson? && o.result.lobbyId.Some?
      && shown == JsStrings.IntToString(id)
      && JsStrings.IntegerValue(shown) == Some(id)
      && Members(o.tables.users, id) == {caller}
  {
    CreateLobbyRoute.CreatesHostedLobby(t, caller, playlistId, rounds);
  }

  /** After joining, `get-lobbyid` answers the joined lobby. */
  lemma JoinThenGet(t: Tables, caller: ClerkId, lobbyId: LobbyId)
    requires caller != "" && lobbyId in t.lobbies && caller in t.users
    ensures GetLobbyIdRoute.Get(JoinLobbyRoute.PostEffect(t, Some(caller), lobbyId).tables.users, Some(caller))
            == LobbyIdJson(Some(lobbyId))
  {
  }

  /** After leaving, `get-lobbyid` answers null, so the pages keep no lobby id. */
  lemma LeaveThenGet(t: Tables, lobbyId: string, caller: ClerkId)
    requires JsStrings.IntegerValue(lobbyId).Some? && caller != "" && caller in t.users
    ensures var r := GetLobbyIdRoute.Get(SocketServer.Leave(t, lobbyId, caller).tables.users, Some(caller));
      r == LobbyIdJson(None) && FetchedLobbyId("", r) == ""
  {
  }

  /**
   * The roster `handleLeave` sends never carries a host id, so the lobby
   * page's `lobby-updated` handler leaves `hostId` as it was.
   */
  lemma LeaveRosterNeverNamesHost(t: Tables, lobbyId: string, userId: ClerkId)
    requires SocketServer.Leave(t, lobbyId, userId).result.Some?
    requires SocketServer.Leave(t, lobbyId, userId).result.value.LobbyUpdated?
    ensures !Truthy(SocketServer.Leave(t, lobbyId, userId).result.value.payload.hostId)
  {
  }
}
