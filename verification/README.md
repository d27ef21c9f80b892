# Listen-together server core, modelled in Dafny

This project models the core of the listen-together server (`src/server.ts`).
The server keeps a process-wide map `clientsInfo` from socket id to a
`ClientInfo { name, loggedIn, isHost, latency }`. It estimates each connection's
latency from the transport's ping/pong packets. It lets one session at a time
claim the host role with a shared password, and it gates login on the client's
declared version. It broadcasts player events to the "listeners" room and delays
each member's copy by `maxLatency - latency`, so that every member receives the
event at the same moment.

Modules:

- `Base`: socket ids, `Option`/`Result`, and `Math.max`/`Math.min` on exact numbers.
- `Latency`: the estimate a pong produces, `min((now - lastPing) / 2, maxDelay)`.
- `Broadcast`: the delay computation of `emitToListeners`.
  - `MaxLatency` and `MinLatency` are the two accumulators of the first pass, folded in room order.
  - `Schedule` lists the sends of the second pass.
  - `EmitToListeners` is the two-pass loop as written; `Accumulate` is its first pass.
  - `Largest` and `Smallest` are independent reference definitions of the extremes.
- `Server`: the registry `State` and one pure transition per handler.
  - The state holds `clients` (`clientsInfo`), each connection's `lastPing` time and the room `listeners`.
  - The handlers are `Connect`, `Ping`, `Pong`, `Login`, `RequestHost`, `CancelHost`, `LoggedInNames` (the first `getCurrentSong`), `Disconnecting` and `Emit`.
  - Each transition returns the new state together with what it sends to the caller (`Step`). The outputs are `isHost(b)`, `showMessage`, the `badVersion` callback and a 3000 ms disconnect timer.
- `HostElection`: the invariant "at most one session is both logged in and host", and which transitions keep it.
- `RegistryProperties`: properties that span several calls, such as ping/pong, connect then disconnect, the names query, and broadcasting over a registry.

Time is a parameter: `now` is an integer number of milliseconds. Latencies and
`maxDelay` are exact `real`s. The version validator is a parameter
(`VersionGate`): an arbitrary predicate on the optional version string plus its
`requirements` text. `hostPassword`, `maxDelay` and the `ClientInfo` defaults are
parameters too.

Handlers take `Connected(s, id)` as a precondition. socket.io only delivers a
socket's events between its connection and its disconnection, and during that
time its entry exists. The "listeners" room and the insertion order of
`clientsInfo` are one sequence, because both are appended to at connection and
both lose the socket at disconnection. `Disconnecting` therefore covers the
handler (the entry is deleted) and also socket.io's leaving of all rooms right
after it. `Wf` states this shape, and every transition preserves it.

Behaviours of the code a reader may not expect, all modelled as written:

- **Pong without a ping.** A pong that arrives before any ping is measured from the initial `lastPing = 0`, so it yields the cap `maxDelay` (`PongBeforeAnyPing`). It is not ignored.
- **No lower clamp on latency.** The estimate is not clamped below: when the clock steps back between ping and pong, the latency becomes negative (`PongLatencyNonNegativeIff`, `ClockStepBackGivesNegativeLatency`).
- **Out-of-range latencies in the accumulators.** The accumulators start at 0 and `maxDelay`. So `maxLatency` is the largest latency exactly when that latency is at least 0, and `minLatency` is the smallest exactly when that latency is at most `maxDelay` (`AccumulatorsExactIff`). A lone member with latency -1 gets delay 1, not 0 (`NegativeLatencyLeavesNoZeroDelay`).
- **Who receives broadcasts.** Broadcasts go to every member of the room, and every socket joins the room at connection. Sockets that never logged in are included (`EmitIncludesLoggedOutSockets`).
- **Empty room.** An empty room makes `rooms.get("listeners")!` undefined and the broadcast throws. It is not a no-op (`EmitWithoutConnectionsThrows`).
- **`requestHost` counts the caller.** Its test looks at every session, the caller included, so a logged-in host that asks again is told the role is taken (`HostReclaimRefused`).
- **Rejected login.** A rejected login changes no state. It does not reset `loggedIn` from an earlier accepted login.
- **`login` ignores the host flag.** `login` never looks at `isHost`. A session that claimed the role while logged out can log in next to another logged-in host, so "at most one logged-in host" breaks (`LoginKeepsOneHostIff`, `LoginBreaksOneHost`). Every other transition keeps it. For connection this holds as long as the `ClientInfo` defaults are not themselves a logged-in host.

## Model

| member | source | states |
|---|---|---|
| Base.Max | src/server.ts:26 | `Math.max` is an upper bound of both arguments and equals one of them |
| Base.Min | src/server.ts:27 | `Math.min` is a lower bound of both arguments and equals one of them |
| Latency.PongLatency | src/server.ts:48-52 | a pong's estimate never exceeds `maxDelay` nor half the elapsed time, and equals one of the two |
| Latency.PongLatencyNonNegativeIff | src/server.ts:50 | the estimate is non-negative iff the clock did not step back and `maxDelay` is non-negative |
| Latency.PongLatencyCappedIff | src/server.ts:50 | the estimate is the cap iff the round trip took at least `2 * maxDelay` |
| Latency.PongBeforeAnyPing | src/server.ts:44-52 | a pong before any ping measures from time 0 and yields the cap once the clock reads at least `2 * maxDelay` |
| Broadcast.MaxLatency | src/server.ts:21-28 | the `maxLatency` accumulator is at least 0, bounds every member's latency, and is 0 or some member's latency |
| Broadcast.MinLatency | src/server.ts:21-28 | the `minLatency` accumulator is at most `maxDelay`, bounds every latency from below, and is `maxDelay` or some member's latency |
| Broadcast.Schedule | src/server.ts:29-35 | one send per room member in room order, carrying the same event and args; each delay plus that member's latency equals `maxLatency`; each delay lies in `[0, maxLatency - minLatency]` |
| Broadcast.Accumulate | src/server.ts:21-28 | the first loop leaves `maxLatency` and `minLatency` equal to the accumulator folds over the whole room |
| Broadcast.EmitToListeners | src/server.ts:18-36 | the two passes with mutable accumulators produce exactly the scheduled sends |
| Broadcast.MaxLatencyIsRaisedLargest | src/server.ts:21-28 | for any non-empty room the max accumulator is the largest latency raised to at least 0 |
| Broadcast.MinLatencyIsLoweredSmallest | src/server.ts:21-28 | for any non-empty room the min accumulator is the smallest latency lowered to at most `maxDelay` |
| Broadcast.AccumulatorsExactInRange | src/server.ts:21-28 | with all latencies in `[0, maxDelay]` the accumulators are exactly the largest and smallest latency |
| Broadcast.AccumulatorsExactIff | src/server.ts:21-28 | `maxLatency` equals the largest latency iff that latency is at least 0; `minLatency` equals the smallest iff that latency is at most `maxDelay` |
| Broadcast.ZeroDelayIffSlowest | src/server.ts:29-30 | in range, a member's delay is 0 iff it has the largest latency |
| Broadcast.FullDelayIffFastest | src/server.ts:29-30 | in range, a member's delay is the whole spread iff it has the smallest latency |
| Broadcast.DelaySpreadInRange | src/server.ts:21-34 | in range, all delays lie in `[0, Largest - Smallest]` and both ends are attained |
| Broadcast.NegativeLatencyLeavesNoZeroDelay | src/server.ts:21-30 | a lone member with latency -1 gets delay 1, not 0 |
| Broadcast.ThreeListenersExample | src/server.ts:29-30 | latencies 10, 50 and 30 ms give delays 40, 0 and 20 ms |
| Server.Join | src/server.ts:42 | a new member is appended at the end of the room, so members stay distinct and in joining order; joining again changes nothing |
| Server.Connect | src/server.ts:38-44 | connection adds exactly the socket's entry with the defaults and `lastPing` 0, appends the socket at the end of the room unless it is already a member, leaves other entries alone, and keeps `Wf` |
| Server.Ping | src/server.ts:58-61 | a ping overwrites only the caller's `lastPing` |
| Server.Pong | src/server.ts:48-52 | a pong sets only the caller's latency, to the capped half round trip |
| Server.Login | src/server.ts:64-77 | accepted: name set, logged in, the room unchanged when the socket is already in it (appended otherwise), nothing else changes, no output. Rejected: state unchanged, `badVersion(requirements)` iff a callback was given, then exactly one 3000 ms disconnect |
| Server.RequestHost | src/server.ts:79-92 | right password and no logged-in host (caller included): caller becomes host, `isHost(true)`. Right password otherwise: "There is already an host." and no change. Wrong password: caller's flag cleared, `isHost(false)`. No other entry changes |
| Server.CancelHost | src/server.ts:94-97 | the caller's flag is cleared and `isHost(false)` is emitted; no other entry changes |
| Server.LoggedInIds | src/server.ts:100 | the filter keeps exactly the logged-in entries among the ids it reads; distinct input gives distinct output |
| Server.LoggedInNames | src/server.ts:99-101 | one name per id `LoggedInIds` keeps, position by position: the name of that session |
| Server.Disconnecting | src/server.ts:107-110 | removes exactly the socket's entry and its one position in the room; every other entry is unchanged and the other members keep their order |
| Server.LeaveCutsPosition | src/server.ts:107-110 | in a room without repeats, leaving cuts out exactly the leaver's position, so the other members keep their order |
| Server.ListenerLatencies | src/server.ts:23-30 | each room member is paired with its current entry's latency, in room order |
| Server.Emit | src/server.ts:18-36 | throws iff the room is empty or a member has no entry; otherwise one send per room member, each delay plus latency equal to `maxLatency` |
| HostElection.InitialKeepsInvariants | src/server.ts:14 | the empty registry created at start-up is well formed and has no logged-in host: the base case of every preservation lemma |
| HostElection.ConnectKeepsOneHost | src/server.ts:40-42 | a connection with defaults that are not a logged-in host keeps at most one logged-in host |
| HostElection.PingKeepsOneHost | src/server.ts:58-61 | pings keep at most one logged-in host |
| HostElection.PongKeepsOneHost | src/server.ts:48-52 | pongs keep at most one logged-in host |
| HostElection.RequestHostKeepsOneHost | src/server.ts:79-92 | `requestHost` keeps at most one logged-in host |
| HostElection.GrantedClaimIsSoleHost | src/server.ts:80-83 | a granted claim by a logged-in session leaves it the only logged-in host |
| HostElection.CancelHostKeepsOneHost | src/server.ts:94-97 | `cancelHost` keeps at most one logged-in host |
| HostElection.DisconnectingKeepsOneHost | src/server.ts:107-110 | disconnection keeps at most one logged-in host |
| HostElection.LoginKeepsOneHostIff | src/server.ts:64-77 | `login` keeps the invariant iff it is rejected, or the caller is not host, or no other session is a logged-in host |
| HostElection.SecondClaimRefused | src/server.ts:79-87 | of two logged-in sessions claiming in turn, the first wins and the second is told the role is taken |
| HostElection.HostReclaimRefused | src/server.ts:81-86 | a logged-in host that claims again gets the "already an host" message and nothing changes |
| HostElection.CancelThenClaimSucceeds | src/server.ts:79-97 | after the logged-in host cancels, a claim with the right password succeeds for any session |
| HostElection.DisconnectThenClaimSucceeds | src/server.ts:79-110 | after the logged-in host disconnects, a claim with the right password succeeds for any remaining session |
| HostElection.LoginBreaksOneHost | src/server.ts:64-92 | for any logged-out, non-host defaults and any gate accepting the version: connect a, b; b claims the role; a logs in and claims it; b logs in: the invariant holds before the last login and fails after it |
| RegistryProperties.PingOverwrites | src/server.ts:58-61 | a second ping overwrites the first |
| RegistryProperties.PongAfterPing | src/server.ts:48-61 | after a ping at `t`, a pong at `now` sets latency to `min((now - t) / 2, maxDelay)` and nothing else in the entry |
| RegistryProperties.PongKeepsLatenciesInRange | src/server.ts:48-52 | if the clock did not step back, a pong keeps every estimate in `[0, maxDelay]` |
| RegistryProperties.ClockStepBackGivesNegativeLatency | src/server.ts:48-61 | ping at 10 and pong at 6 give latency -2 |
| RegistryProperties.ConnectThenDisconnect | src/server.ts:41-109 | connecting a new socket and disconnecting it restores the registry exactly |
| RegistryProperties.DisconnectAbsent | src/server.ts:107-110 | disconnecting an unknown socket changes nothing |
| RegistryProperties.LoggedInNamesExact | src/server.ts:99-101 | on a well-formed registry the query reads each logged-in session exactly once, and a name is listed iff some logged-in session has it |
| RegistryProperties.LoggedInIdsKeepOrder | src/server.ts:100 | the filter keeps the relative order of the ids it reads, so the names come in `clientsInfo` order |
| RegistryProperties.EmitReachesEachConnectionOnce | src/server.ts:20-35 | with a non-empty room every connected socket gets exactly one send and nobody else gets any |
| RegistryProperties.EmitDelaysInRange | src/server.ts:18-36 | with estimates in range, every delay lies within the spread of estimates and some socket gets delay 0 |
| RegistryProperties.EmitWithoutConnectionsThrows | src/server.ts:20-23 | broadcasting with no connection throws |
| RegistryProperties.EmitIncludesLoggedOutSockets | src/server.ts:20-42 | a socket that connected but never logged in still gets the broadcast |

## Left out

- Server construction, CORS, `pingInterval` and `io.listen` (src/server.ts:1-13, 113): transport set-up and I/O.
- Running timers. A broadcast send and the rejected-login disconnect are returned as records (`Send`, `DisconnectAfter`) and never fired. The fire-time lookup `io.sockets.sockets.get(socketId)!` (src/server.ts:33) and `socket.disconnect()` (src/server.ts:74) are therefore not modelled.
- `Date.now()`: time is an integer parameter `now`.
- `Player` and `player.addClientEvents` (src/server.ts:3, 15, 46): `Player` is not part of this model.
- The second `getCurrentSong` handler (src/server.ts:103-105): it reads player state that is not part of this model.
- Console logging and `onAny` (src/server.ts:19, 54-56, 85, 108): they have no effect on state.
- `ClientInfo`'s defaults, `ClientVersionValidator` and `config` are not part of this model. They are parameters: `defaults`, a `VersionGate`, `hostPassword` and `maxDelay`.
- Client callbacks are modelled as functions that are either present or absent. The source calls `sendClients(...)` (src/server.ts:100) without a guard, and `badVersion(...)` (src/server.ts:70-71) for any non-null value. So a client that sends no acknowledgement to `getCurrentSong`, or a non-function `badVersion` argument, makes the handler throw. In the `badVersion` case the throw comes before the 3000 ms timer is set. These throws are not modelled.
- IEEE double rounding of `/ 2` and of the subtraction form of the delay: the model uses exact arithmetic.
- Server.Emit: on a member without an entry it reports `MissingClientInfo` without naming the member the first pass stops at.
