# More Songs: lobby membership and client game logic

This project models the lobby side of the "More Songs" guess-the-song party game, with proofs. It covers two groups.

- **The lobby store and its handlers (server side).** The store is two tables: users keyed by Clerk id, each with an optional lobby reference, and lobbies keyed by an autoincremented id, each with `hostId`, `playlistId` and `rounds`. Over it sit the three HTTP routes (`create-lobby`, `join-lobby`, `get-lobbyid`) and the socket server's `join-lobby`, `leave-lobby` and `disconnect` handlers with their shared `handleLeave`.
- **The client logic of the two pages.** The game page has the scoreboard sort, the autocomplete suggestions, the round-event handlers and `submitGuess`. The lobby page has `isHost`, the roster handler and the two buttons.

Module layout follows the source files:

- `Store`: the tables, and a `Database` class whose methods are the Prisma calls.
- `Protocol`: HTTP responses and socket payloads.
- `CreateLobbyRoute`, `JoinLobbyRoute`, `GetLobbyIdRoute`: the routes.
- `SocketServer`: `handleLeave` and the socket handlers.
- `GamePage`, `LobbyPage`: the pages.
- `JsStrings`: the JavaScript string operations the code relies on (ASCII only).
- `Session`: properties that span several of the above.

Each handler that writes the store is a method. Each is proved equal to a pure effect function of the old store: `PostEffect` for the routes, `SocketServer.Leave` for `handleLeave`. The properties are lemmas about those functions. Where Prisma would throw (updating a missing user row, deleting a missing lobby row), and where the model takes it to throw (querying with a non-integer id), the model takes the catch path. For the routes that means a 500. In the socket handlers the model stops the handler; in the source that is an unhandled rejection (see "Left out").

Each socket handler is one atomic step. An emit is appended to an event log, together with the room key and the sockets in that room at that moment. That is how the model can state that a socket leaving explicitly, or disconnecting, is not among the recipients of the event its leave produces. The disconnect handler runs after socket.io has taken the socket out of every room, so the model does the same. Navigation (`router.push`) is recorded as a `location` field. Socket emits from the pages are recorded in an `outbox`.

Behaviour of the code worth knowing:

- The server's `lobby-updated` payload never carries `hostId` (server/index.ts:53 and :80). As a result the lobby page never sets `hostId`, `isHost` stays false, and the Start Game button stays disabled. `Session.LeaveRosterNeverNamesHost` and `LobbyPage.NoHostBeforeHostId` state this.
- The socket `join-lobby` writes nothing to the store. A user's lobby reference is set to a lobby only by the HTTP `create-lobby` and `join-lobby` routes.
- A lobby left without members is not always deleted. The HTTP `join-lobby` route moves the caller without cleaning up the previous lobby (`JoinLobbyRoute.PreviousLobbyIsNotCleanedUp`). So does `create-lobby`: it overwrites the caller's reference with the new id and keeps every old lobby row (`CreateLobbyRoute.TouchesOnlyCallerAndNewLobby`). `handleLeave` also clears the leaver's reference whichever lobby it pointed at.
- When the host leaves and others remain, the lobby row survives. The remaining members are told to leave, but their references are kept.
- `leave-lobby` does not clear `socket.data`. When the last member presses Back to Menu, the lobby is deleted; when that socket later disconnects, if it has not joined another lobby in the meantime, `handleLeave` runs again for the same ids, finds no lobby row, and `lobby.delete` throws (`SocketServer.SecondLeaveFindsNoLobby`).
- `server/index.ts` has no round timers and no `start-game` or `submit-guess` handler.

## Model

| member | source | states |
|---|---|---|
| `JsStrings.TrimEmptyIff` | app/game/page.tsx:44 | a trimmed string is empty exactly when every character is white space |
| `JsStrings.Trim` | app/game/page.tsx:44 | definition of `trim`: `TrimEnd` of `TrimStart`, whose contracts say that exactly the leading and the trailing white space is dropped |
| `JsStrings.Lower` | app/game/page.tsx:46 | lowercasing keeps the length and maps each character on its own, ASCII letters only |
| `JsStrings.JoinSplit` | app/game/page.tsx:47 | `split(" ")` loses nothing: joining the pieces with the separator gives the string back |
| `JsStrings.Split` | app/game/page.tsx:47 | `split` on a one-character separator gives at least one piece, and no piece contains the separator |
| `JsStrings.ContainsIff` | app/game/page.tsx:54 | `includes` holds exactly when the needle occurs at some position |
| `JsStrings.Contains` | app/game/page.tsx:54 | definition of `includes`: the needle is a prefix of the string or of one of its suffixes |
| `JsStrings.IntToString` | app/lobby/page.tsx:24-28 | `String(n)`: a non-empty decimal spelling with no white space at either end |
| `JsStrings.IntegerValue` | server/index.ts:25-26 | definition of `Number` then `Number.isInteger`: after trimming, blank reads as 0 and an optionally signed run of digits as its value; anything else is not an integer |
| `JsStrings.IntegerValueOfIntToString` | server/index.ts:25-26 | `Number(String(n))` is the integer `n`, so a lobby id the page spells as a string is read back as the same id |
| `Protocol.FetchedLobbyId` | app/lobby/page.tsx:24-28 | a truthy lobby id in the JSON answer becomes the page's lobby id, spelled so that the server reads it back; any other answer leaves the id as it was |
| `Store.AtMostOneLobby` | app/api/join-lobby/route.ts:25-32 | a user is a member of at most one lobby, because a user row holds one reference; the handlers' effect on it is stated by `JoinLobbyRoute.MovesCaller` |
| `Store.Database.FindUser` | app/api/create-lobby/route.ts:14-16 | `user.findFirst`: the row of that Clerk id, or none exactly when there is no such row |
| `Store.Database.FindLobby` | app/api/join-lobby/route.ts:15-17 | `lobby.findFirst`: the row of that id, or none exactly when there is no such row |
| `Store.Database.FindMembers` | server/index.ts:41-43 | `user.findMany` by lobby id: exactly the users whose reference is that id |
| `Store.Database.CreateLobby` | app/api/create-lobby/route.ts:24-31 | `lobby.create`: the row is stored under the next id of the sequence, which was unused, and the sequence advances |
| `Store.Database.UpdateUserLobby` | server/index.ts:32-35 | `user.update` of the lobby reference: succeeds exactly when the user row exists, and then changes only that row's reference |
| `Store.Database.DeleteLobby` | server/index.ts:46 | `lobby.delete`: succeeds exactly when the row exists, and then removes only that row |
| `CreateLobbyRoute.Post` | app/api/create-lobby/route.ts:5-44 | the new store and the response are those of `PostEffect`, and store validity is kept |
| `CreateLobbyRoute.PostEffect` | app/api/create-lobby/route.ts:5-44 | the answer and store of the handler: user keys are kept; a lobby id is answered exactly when the caller is signed in and has a row; every other answer leaves the store unchanged |
| `CreateLobbyRoute.UnauthenticatedIsRejected` | app/api/create-lobby/route.ts:10-12 | without a caller id: 401 "Unauthorized", nothing created |
| `CreateLobbyRoute.UnknownUserIsRejected` | app/api/create-lobby/route.ts:20-22 | a caller without a user row: 401 "User not found", nothing created |
| `CreateLobbyRoute.CreatesHostedLobby` | app/api/create-lobby/route.ts:24-39 | the returned id is fresh; the row's host is the caller, its playlist the given value or null when falsy, its rounds as given; the caller's reference is the new id and the caller is the only member |
| `CreateLobbyRoute.TouchesOnlyCallerAndNewLobby` | app/api/create-lobby/route.ts:24-36 | besides the new lobby row, only the caller's user row changes |
| `CreateLobbyRoute.PostPreservesValid` | app/api/create-lobby/route.ts:24-36 | ids stay positive and below the sequence, and so do user references |
| `JoinLobbyRoute.Post` | app/api/join-lobby/route.ts:5-39 | the new store and the response are those of `PostEffect`, and store validity is kept |
| `JoinLobbyRoute.PostEffect` | app/api/join-lobby/route.ts:5-39 | the answer and store of the handler: the lobbies table and the user keys are never changed, and a successful answer carries the requested id |
| `JoinLobbyRoute.UnauthenticatedIsRejected` | app/api/join-lobby/route.ts:10-13 | without a caller id: 401, store unchanged |
| `JoinLobbyRoute.MissingLobbyIsRejected` | app/api/join-lobby/route.ts:15-23 | an id with no lobby row: 401 "No lobby", store unchanged |
| `JoinLobbyRoute.UnknownUserFails` | app/api/join-lobby/route.ts:25-37 | a caller without a user row makes the update throw: 500, store unchanged |
| `JoinLobbyRoute.MovesCaller` | app/api/join-lobby/route.ts:25-34 | the caller's reference is overwritten with the requested id, which is returned; no other row changes; the caller joins the target roster and leaves every other one |
| `JoinLobbyRoute.PreviousLobbyIsNotCleanedUp` | app/api/join-lobby/route.ts:25-32 | a caller who was the only member of another lobby leaves that lobby's row behind, unchanged and with no members |
| `JoinLobbyRoute.PostPreservesValid` | app/api/join-lobby/route.ts:25-32 | store validity is kept |
| `GetLobbyIdRoute.Get` | app/api/get-lobbyid/route.ts:5-29 | 401 without a caller id or user row, otherwise the stored reference, possibly null; a function of the table, so nothing is written |
| `SocketServer.Server.Connect` | server/index.ts:57-58 | a new socket starts with empty `socket.data` |
| `SocketServer.Server.JoinLobby` | server/index.ts:64-82 | records both ids on the socket; for an integer id joins the room and emits `lobby-updated` with that id and exactly the users referencing it, to the room including the joiner; writes nothing to the store; for a non-integer id the query is taken to throw after the ids are recorded (a reading of Prisma, see "Left out") |
| `SocketServer.Server.HandleLeave` | server/index.ts:23-55 | the store becomes that of `Leave`, and its event, if any, is emitted to the lobby's room |
| `SocketServer.Leave` | server/index.ts:23-55 | definition of `handleLeave`'s effect: the early return, the cleared reference, the deletion of an emptied lobby, and the event chosen from the row read before deletion; its lemmas below state each part |
| `SocketServer.LeaveRoom` | server/index.ts:90 | `socket.leave(key)`: afterwards the socket is not in that room, every other socket of that room stays in it, the room is dropped only once empty, and every other room is unchanged |
| `SocketServer.LeaveAllRooms` | server/index.ts:96-107 | what socket.io leaves before `disconnect` runs: the socket is in no room, every other member stays in its room, and only rooms emptied by the departure are dropped |
| `SocketServer.Server.LeaveLobby` | server/index.ts:84-94 | the socket leaves the room first, then `handleLeave` runs, so the leaver receives none of the resulting events |
| `SocketServer.Server.Disconnect` | server/index.ts:96-107 | the socket is in no room; with no recorded lobby id or user id the store and log are unchanged, otherwise it behaves as `handleLeave` for the recorded ids |
| `SocketServer.LeaveIgnoresNonInteger` | server/index.ts:25-26 | a lobby id that is not an integer: no store change, no event |
| `SocketServer.LeaveUnknownUser` | server/index.ts:32-35 | a leaver without a user row makes the update throw: no store change, no event |
| `SocketServer.LeaveClearsLeaverAndDeletesEmptied` | server/index.ts:32-48 | the leaver's reference becomes null and no other user row changes; the lobby is deleted when no user references it any more and kept otherwise; other lobbies are untouched |
| `SocketServer.LeaveRemaining` | server/index.ts:41-43 | the remaining roster is the previous one without the leaver |
| `SocketServer.LeaveEvent` | server/index.ts:37-54 | `leave-lobby` when the row read before deletion names the leaver as host, else `lobby-updated` with exactly the remaining members; no event only when deleting the emptied lobby throws |
| `SocketServer.HostLeavesOthersRemain` | server/index.ts:32-54 | the host leaving with others remaining: `leave-lobby`, lobby row kept, the others' references unchanged |
| `SocketServer.LastMemberLeaves` | server/index.ts:41-54 | the last member leaving deletes the lobby; a non-host gets an empty roster update sent |
| `SocketServer.LeavePreservesValid` | server/index.ts:32-48 | store validity is kept |
| `SocketServer.SecondLeaveFindsNoLobby` | server/index.ts:84-107 | after the last member's explicit leave the lobby is gone, so the `handleLeave` its disconnect runs sends nothing and changes nothing |
| `GamePage.Insert` | app/game/page.tsx:38-41 | one step of the stable sort: the entry goes before the first one with at most its points, and the length grows by one |
| `GamePage.SortedScores` | app/game/page.tsx:38-41 | the sorted copy of the scores, of the same length; its order and content are stated by `SortedScoresCorrect` |
| `GamePage.SortedScoresCorrect` | app/game/page.tsx:38-41 | the scoreboard is a permutation of the scores, in non-increasing points, with equal points in their original order |
| `GamePage.Parts` | app/game/page.tsx:45-48 | definition of the parts: the lowered guess split on spaces, empty pieces dropped |
| `GamePage.Matches` | app/game/page.tsx:52-56 | definition of the filter's test: every part occurs in the lowered title, and the lowered title is not the lowered guess |
| `GamePage.FilterTitles` | app/game/page.tsx:51-57 | `filter` with `Matches`: never more titles than given |
| `GamePage.Suggestions` | app/game/page.tsx:43-58 | the `suggestions` memo: never more titles than the list; its members and order are stated by `SuggestedIff` and `SuggestionsKeepOrder` |
| `GamePage.BlankGuessSuggestsNothing` | app/game/page.tsx:44 | a guess that trims to empty suggests nothing |
| `GamePage.PartsOfNonBlankGuess` | app/game/page.tsx:45-49 | a non-blank guess has at least one part, so the `parts.length === 0` test never fires |
| `GamePage.PartsShape` | app/game/page.tsx:45-48 | each part is a non-empty, space-free piece of the lowered guess |
| `GamePage.SuggestionsKeepOrder` | app/game/page.tsx:51-57 | suggestions split over concatenated title lists, so titles keep their relative order |
| `GamePage.SuggestedIff` | app/game/page.tsx:43-58 | a title is suggested iff it is a title, the guess is not blank, its lowercase form contains every part, and it differs from the guess ignoring case |
| `GamePage.GameView.constructor` | app/game/page.tsx:23-36 | the initial page state: waiting, round 1, 30 seconds, everything else empty |
| `GamePage.GameView.OnLobbyIdFetched` | app/game/page.tsx:60-64 | the page's lobby id after `getLobby` is `FetchedLobbyId` of the answer |
| `GamePage.GameView.OnGameStarted` | app/game/page.tsx:73-91 | playing; round, time, scores and music fields from the payload; answer and guess cleared, so no suggestions |
| `GamePage.GameView.OnTick` | app/game/page.tsx:93-99 | only `timeLeft` changes |
| `GamePage.GameView.OnRoundReveal` | app/game/page.tsx:101-108 | revealing, with the payload's answer; nothing else changes |
| `GamePage.GameView.OnScoresUpdated` | app/game/page.tsx:110-115 | only `scores` changes |
| `GamePage.GameView.OnGameFinished` | app/game/page.tsx:117-124 | finished, final scores, navigation to the lobby page |
| `GamePage.GameView.SubmitGuess` | app/game/page.tsx:141-153 | nothing is sent when the trimmed guess, lobby id or user id is empty; otherwise the trimmed guess with the current title is sent and the guess is cleared |
| `LobbyPage.IsHost` | app/lobby/page.tsx:19-22 | true iff the user id and host id are both non-empty and equal |
| `LobbyPage.NoHostBeforeHostId` | app/lobby/page.tsx:13-22 | with the initial empty host id nobody is host |
| `LobbyPage.LobbyView.constructor` | app/lobby/page.tsx:11-17 | the initial page state: no lobby id, no players, no host |
| `LobbyPage.LobbyView.OnLobbyIdFetched` | app/lobby/page.tsx:24-28 | the page's lobby id after `getLobby` is `FetchedLobbyId` of the answer |
| `LobbyPage.LobbyView.JoinEffect` | app/lobby/page.tsx:34-37 | `join-lobby` is emitted only once both ids are set |
| `LobbyPage.LobbyView.OnLobbyUpdated` | app/lobby/page.tsx:39-46 | the roster is always replaced; the host id only by a truthy one |
| `LobbyPage.LobbyView.OnStartGame` | app/lobby/page.tsx:48-50 | navigation to the game page |
| `LobbyPage.LobbyView.OnForceLeave` | app/lobby/page.tsx:52-54 | navigation home, nothing emitted |
| `LobbyPage.LobbyView.HandleBackToMenu` | app/lobby/page.tsx:67-70 | `leave-lobby` only with both ids set; navigation home in every case |
| `LobbyPage.LobbyView.HandleStartGame` | app/lobby/page.tsx:72-75 | `start-game` only with both ids set |
| `Session.CreatedLobbyReachesHostPage` | app/api/create-lobby/route.ts:24-39 | after creating a lobby, `get-lobbyid` gives the host's page the id as a string that the server reads back as the same id, whose roster is the host alone |
| `Session.JoinThenGet` | app/api/join-lobby/route.ts:25-34 | after a successful join, `get-lobbyid` answers the joined lobby |
| `Session.LeaveThenGet` | server/index.ts:32-35 | after `handleLeave`, `get-lobbyid` answers null and the page keeps no lobby id |
| `Session.LeaveRosterNeverNamesHost` | server/index.ts:50-54 | the roster sent on a leave carries no host id |

## Left out

- JsStrings.IntegerValue: reads only blank strings (as 0) and optionally signed runs of decimal digits as integers. JavaScript's `Number` also reads `0x`/`0o`/`0b` prefixes, exponents and spellings such as `"3.0"` as integers, and it loses precision beyond 2^53. Those inputs are treated as not integers.
- JsStrings.Trim, JsStrings.Lower: ASCII only. Unicode white space and Unicode case mapping are not modelled.
- SocketServer.Server.HandleLeave, SocketServer.Server.LeaveLobby, SocketServer.Server.Disconnect, SocketServer.Server.JoinLobby: when a Prisma call inside `handleLeave` throws (the user update at server/index.ts:32 for a user without a row, the lobby delete at server/index.ts:46 for a lobby already gone), or when the roster `findMany` of `join-lobby` at server/index.ts:75-77 throws (for an id such as "3.5"), the listener has no catch, so its promise rejects unhandled. Under Node's default mode for unhandled rejections that ends the server process, and every socket and room with it; other modes only log it. The model keeps the server running: the handler stops with the store as the earlier calls left it and sends nothing.
- SocketServer.Server.JoinLobby: for a lobby id that is not an integer, the model takes it that the `findMany` at server/index.ts:75-77 throws, so no room is joined and nothing is emitted. The source has no `Number.isInteger` guard there, so the outcome depends on Prisma. A fractional id such as "3.5" fails Prisma's `Int` validation. A non-numeric id gives `NaN`, which JSON writes as `null`; if Prisma read that as `lobbyId IS NULL`, the handler would join room `lobby:abc` and send every user who is in no lobby. The model does not cover that reading.
- JavaScript numbers: `points`, `round`, `timeLeft` and `rounds` are modelled as `int`. Fractional or `NaN` values are not modelled. Neither is the comparator `b.points - a.points` on such values, where the sort order is not well defined.
- Prisma's 32-bit `Int` range: ids outside it, which Prisma rejects, are not modelled.
- Store unavailability and other Prisma failures are not modelled. The only failures modelled are the throwing calls named above.
- Request bodies are taken as already parsed. Malformed JSON (a 500) and `playlistId` or `rounds` of other JSON types are not modelled. Neither is a missing or non-integer `lobbyId` in the `join-lobby` body.
- Handlers are atomic steps. The interleaving of their `await`s, and concurrent requests, are not modelled.
- Socket.io transport: delivery of emitted events to clients is not modelled; emits are a log. The per-connection ping interval, `clearInterval`, and all console logging are left out too.
- Lobby-updated `players` carry whole user rows, in no specified order. The model carries the set of their Clerk ids.
- The round state machine, timers, scoring and guess checking are absent from the server code. So are handlers for `start-game` and `submit-guess`, which the pages emit and `server/index.ts` does not handle.
- React plumbing is reduced to preconditions. Effect re-runs and handler subscription become `Subscribed()` / `Ready()` on the handlers. Rendering, `isPlaying`, the audio player, typing into the input and clicking a suggestion are left out.
- Other files are not part of this model: the webhook route, the home page components, the leaderboard table, and the YouTube playlist helpers. They hold signature checks, network calls and rendering.
