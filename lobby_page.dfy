/** The lobby page: who is host, the roster handler and the two buttons. */
module LobbyPage {
  import opened Wrappers
  import opened Protocol

  /** The `isHost` memo: `!!userId && !!hostId && userId === hostId`. */
  function IsHost(userId: Option<string>, hostId: string): (r: bool)
    ensures r <==> userId == Some(hostId) && hostId != ""
  {
    Truthy(userId) && hostId != "" && userId.value == hostId
  }

  /** Until some roster carries a host id, nobody is host. */
  lemma NoHostBeforeHostId(userId: Option<string>)
    ensures !IsHost(userId, "")
  {
  }

  class LobbyView {
    var lobbyId: string
    const userId: Option<string>
    var players: set<string>
    var hostId: string
    /** What the page has emitted on its socket. */
    var outbox: seq<ClientMessage>
    /** Where the page navigated to, if anywhere. */
    var location: Option<string>

    /** Both ids are set: the condition on the join effect and on both buttons. */
    predicate Ready()
      reads this
    {
      lobbyId != "" && Truthy(userId)
    }

    constructor (userId: Option<string>)
      ensures this.userId == userId && lobbyId == "" && players == {} && hostId == ""
      ensures outbox == [] && location == None
    {
      this.userId := userId;
      lobbyId, players, hostId := "", {}, "";
      outbox, location := [], None;
    }

    /** `getLobby`, once the fetch of `/api/get-lobbyid` has answered. */
    method OnLobbyIdFetched(r: Response)
      modifies this`lobbyId
      ensures lobbyId == FetchedLobbyId(old(lobbyId), r)
    {
      lobbyId := FetchedLobbyId(lobbyId, r);
    }

    /** The effect that joins the lobby's room once both ids are known. */
    method JoinEffect()
      modifies this`outbox
      ensures outbox == old(outbox) + if Ready() then [JoinLobbyMsg(lobbyId, userId.value)] else []
    {
      if !Ready() {
        return;
      }
      outbox := outbox + [JoinLobbyMsg(lobbyId, userId.value)];
    }

    /** `lobby-updated`: the roster is replaced; the host id only by a truthy one. */
    method OnLobbyUpdated(p: LobbyUpdatedPayload)
      requires Ready()
      modifies this`players, this`hostId
      ensures players == p.players
      ensures hostId == if Truthy(p.hostId) then p.hostId.value else old(hostId)
    {
      players := p.players;
      if Truthy(p.hostId) {
        hostId := p.hostId.value;
      }
    }

    /** `start-game`: go to the game page. */
    method OnStartGame()
      requires Ready()
      modifies this`location
      ensures location == Some("/game")
    {
      location := Some("/game");
    }

    /** `leave-lobby` (forced exit): go home, without telling the server. */
    method OnForceLeave()
      requires Ready()
      modifies this`location
      ensures location == Some("/")
    {
      location := Some("/");
    }

    /** Back to menu: `leave-lobby` only with both ids set, then home in every case. */
    method HandleBackToMenu()
      modifies this`outbox, this`location
      ensures outbox == old(outbox) + if Ready() then [LeaveLobbyMsg(lobbyId, userId.value)] else []
      ensures location == Some("/")
    {
      if Ready() {
        outbox := outbox + [LeaveLobbyMsg(lobbyId, userId.value)];
      }
      location := Some("/");
    }

    /** Start game: `start-game` only with both ids set. */
    method HandleStartGame()
      modifies this`outbox
      ensures outbox == old(outbox) + if Ready() then [StartGameMsg(lobbyId, userId.value)] else []
    {
      if !Ready() {
        return;
      }
      outbox := outbox + [StartGameMsg(lobbyId, userId.value)];
    }
  }
}
