/** The messages that cross the network: HTTP responses and socket payloads. */
module Protocol {
  import opened Wrappers
  import JsStrings

  /** An HTTP response of the routes: `{ lobbyId }` as JSON, or a status with a text body. */
  datatype Response = LobbyIdJson(lobbyId: Option<int>) | Text(status: int, body: string)

  const Unauthorized: Response := Text(401, "Unauthorized")
  const InternalError: Response := Text(500, "Internal Error")

  /** The `lobby-updated` payload; `hostId` is optional on the wire. */
  datatype LobbyUpdatedPayload = LobbyUpdatedPayload(lobbyId: string, players: set<string>, hostId: Option<string>)

  /** Commands a client emits on its socket. */
  datatype ClientMessage =
    | JoinLobbyMsg(lobbyId: string, userId: string)
    | LeaveLobbyMsg(lobbyId: string, userId: string)
    | StartGameMsg(lobbyId: string, userId: string)
    | SubmitGuessMsg(lobbyId: string, userId: string, guess: string, correctAnswer: string)

  /**
   * Both pages' `getLobby`: the lobby id kept after fetching `/api/get-lobbyid`.
   * A text body is not JSON, so `response.json()` rejects and nothing is set;
   * a null or zero id is falsy and is ignored too.
   */
  function FetchedLobbyId(current: string, r: Response): (s: string)
    ensures r.LobbyIdJson? && r.lobbyId.Some? && r.lobbyId.value != 0 ==>
              s == JsStrings.IntToString(r.lobbyId.value) && JsStrings.IntegerValue(s) == r.lobbyId
    ensures !(r.LobbyIdJson? && r.lobbyId.Some? && r.lobbyId.value != 0) ==> s == current
  {
    if r.LobbyIdJson? && r.lobbyId.Some? && r.lobbyId.value != 0 then
      JsStrings.IntegerValueOfIntToString(r.lobbyId.value);
      JsStrings.IntToString(r.lobbyId.value)
    else current
  }
}
