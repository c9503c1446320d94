/** `GET /api/get-lobbyid`: a read-only lookup of the caller's lobby reference. */
module GetLobbyIdRoute {
  import opened Wrappers
  import opened Store
  import opened Protocol

  /**
   * The answer for the caller. Being a function of the users table, the
   * handler writes nothing.
   */
  function Get(users: map<ClerkId, User>, caller: Option<ClerkId>): (r: Response)
    ensures !Truthy(caller) ==> r == Text(401, "Unauthorized")
    ensures Truthy(caller) && caller.value !in users ==> r == Text(401, "user not found")
    ensures r.LobbyIdJson? <==> Truthy(caller) && caller.value in users
    ensures r.LobbyIdJson? ==> r.lobbyId == users[caller.value].lobbyId
  {
    if !Truthy(caller) then Unauthorized
    else if caller.value !in users then Text(401, "user not found")
    else LobbyIdJson(users[caller.value].lobbyId)
  }
}
