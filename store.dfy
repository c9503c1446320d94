/**
 * The relational store the routes and the socket server share, seen as two
 * tables: users keyed by their Clerk id and lobbies keyed by an
 * autoincremented integer id.
 */
module Store {
  import opened Wrappers

  type ClerkId = string
  type LobbyId = int

  /** A user row; only the lobby reference matters here. */
  datatype User = User(lobbyId: Option<LobbyId>)

  /** A lobby row. */
  datatype Lobby = Lobby(hostId: ClerkId, playlistId: Option<string>, rounds: int)

  /** The contents of the store: both tables and the id sequence. */
  datatype Tables = Tables(users: map<ClerkId, User>, lobbies: map<LobbyId, Lobby>, nextLobbyId: LobbyId)
  {
    /** Ids start at 1, and the sequence is past every id it has handed out. */
    ghost predicate Valid() {
      && nextLobbyId >= 1
      && (forall id :: id in lobbies ==> 1 <= id < nextLobbyId)
      && (forall c :: c in users && users[c].lobbyId.Some? ==> 1 <= users[c].lobbyId.value < nextLobbyId)
    }
  }

  /** What a handler returns, together with the store it leaves behind. */
  datatype Outcome<R> = Outcome(result: R, tables: Tables)

  /** `user.findMany({ where: { lobbyId: id } })`, as the set of their ids. */
  function Members(users: map<ClerkId, User>, id: LobbyId): (m: set<ClerkId>)
    ensures forall c :: c in m <==> c in users && users[c].lobbyId == Some(id)
  {
    set c | c in users && users[c].lobbyId == Some(id)
  }

  /** Rewriting one user's lobby reference moves that user, and only that user. */
  lemma MembersAfterUpdate(users: map<ClerkId, User>, u: ClerkId, v: Option<LobbyId>, id: LobbyId)
    ensures Members(users[u := User(v)], id) ==
            if v == Some(id) then Members(users, id) + {u} else Members(users, id) - {u}
  {
  }

  /**
   * A user is a member of at most one lobby: the `User` row holds a single
   * lobby reference. What a handler does to that reference is stated by
   * `JoinLobbyRoute.MovesCaller` and `SocketServer.LeaveClearsLeaverAndDeletesEmptied`.
   */
  lemma AtMostOneLobby(users: map<ClerkId, User>, u: ClerkId, a: LobbyId, b: LobbyId)
    requires u in Members(users, a) && u in Members(users, b)
    ensures a == b
  {
  }

  /** The database; each method is one Prisma call. */
  class Database {
    var users: map<ClerkId, User>
    var lobbies: map<LobbyId, Lobby>
    var nextLobbyId: LobbyId

    function Snapshot(): Tables
      reads this
    {
      Tables(users, lobbies, nextLobbyId)
    }

    ghost predicate Valid()
      reads this
    {
      Snapshot().Valid()
    }

    constructor (t: Tables)
      requires t.Valid()
      ensures Valid() && Snapshot() == t
    {
      users, lobbies, nextLobbyId := t.users, t.lobbies, t.nextLobbyId;
    }

    /** `user.findFirst({ where: { clerkId } })` */
    method FindUser(clerkId: ClerkId) returns (u: Option<User>)
      ensures u.Some? <==> clerkId in users
      ensures u.Some? ==> u.value == users[clerkId]
    {
      u := if clerkId in users then Some(users[clerkId]) else None;
    }

    /** `lobby.findFirst({ where: { id } })` */
    method FindLobby(id: LobbyId) returns (l: Option<Lobby>)
      ensures l.Some? <==> id in lobbies
      ensures l.Some? ==> l.value == lobbies[id]
    {
      l := if id in lobbies then Some(lobbies[id]) else None;
    }

    /** `user.findMany({ where: { lobbyId: id } })` */
    method FindMembers(id: LobbyId) returns (m: set<ClerkId>)
      ensures forall c :: c in m <==> c in users && users[c].lobbyId == Some(id)
    {
      m := Members(users, id);
    }

    /** `lobby.create({ data: row })`: the row gets the next id of the sequence. */
    method CreateLobby(row: Lobby) returns (id: LobbyId)
      requires Valid()
      modifies this`lobbies, this`nextLobbyId
      ensures id == old(nextLobbyId) && id !in old(lobbies)
      ensures lobbies == old(lobbies)[id := row] && nextLobbyId == id + 1
    {
      id := nextLobbyId;
      lobbies := lobbies[id := row];
      nextLobbyId := nextLobbyId + 1;
    }

    /** `user.update({ where: { clerkId }, data: { lobbyId } })`; `ok` is false where Prisma throws. */
    method UpdateUserLobby(clerkId: ClerkId, lobbyId: Option<LobbyId>) returns (ok: bool)
      modifies this`users
      ensures ok == (clerkId in old(users))
      ensures users == if ok then old(users)[clerkId := User(lobbyId)] else old(users)
    {
      ok := clerkId in users;
      if ok {
        users := users[clerkId := User(lobbyId)];
      }
    }

    /** `lobby.delete({ where: { id } })`; `ok` is false where Prisma throws. */
    method DeleteLobby(id: LobbyId) returns (ok: bool)
      modifies this`lobbies
      ensures ok == (id in old(lobbies))
      ensures lobbies == if ok then old(lobbies) - {id} else old(lobbies)
    {
      ok := id in lobbies;
      if ok {
        lobbies := lobbies - {id};
      }
    }
  }
}
