/**
  The server's session registry and its event handlers, as pure transitions.
  The process-wide `clientsInfo` map, each connection's `lastPing` time and the
  "listeners" room form one immutable `State`; every handler returns the next
  state together with what it emits to the calling socket (a `Step`). Timers are
  returned as records instead of being run.
 */
module Server {
  import opened Base
  import Latency
  import Broadcast

  /** The per-connection record kept in `clientsInfo`. */
  datatype ClientInfo = ClientInfo(name: string, loggedIn: bool, isHost: bool, latency: real)

  /** `clients` is `clientsInfo`; `lastPing` holds each connection's last ping
      time (ms); `listeners` lists the members of the "listeners" room in the
      order they joined, which is also the insertion order of `clientsInfo`. */
  datatype State = State(clients: map<Id, ClientInfo>, lastPing: map<Id, int>, listeners: seq<Id>)

  /** What a handler does towards its own socket. */
  datatype Output =
    | IsHost(value: bool)            // socket.emit("isHost", value)
    | ShowMessage(text: string)      // socket.emit("showMessage", text)
    | BadVersion(requirements: string) // the client's `badVersion` callback
    | DisconnectAfter(ms: int)       // a timer that disconnects the socket

  datatype Step = Step(state: State, out: seq<Output>)

  /** The client-version validator: an arbitrary predicate on the declared
      version, and the text that describes what it requires. */
  datatype VersionGate = VersionGate(validate: Option<string> -> bool, requirements: string)

  /** Why broadcasting throws: the room does not exist (it has no member), or a
      room member has no `clientsInfo` entry. */
  datatype EmitError = NoListenersRoom | MissingClientInfo

  const HostTakenMessage: string := "There is already an host."
  const DisconnectGraceMs: int := 3000

  /** The state at start-up: no connection at all. */
  const Initial: State := State(map[], map[], [])

  predicate Distinct(ids: seq<Id>)
  {
    forall i, j :: 0 <= i < j < |ids| ==> ids[i] != ids[j]
  }

  /** The registry's shape: the room holds each connected socket once, and a
      socket is connected when it has both an entry and a ping time. */
  predicate Wf(s: State)
  {
    && Distinct(s.listeners)
    && (forall id :: id in s.listeners ==> id in s.clients)
    && (forall id :: id in s.clients ==> id in s.listeners)
    && s.clients.Keys == s.lastPing.Keys
  }

  /** Handlers only run for a socket between its connection and its disconnection. */
  predicate Connected(s: State, id: Id)
  {
    id in s.clients && id in s.lastPing
  }

  /** A session that is logged in and holds the host role. */
  predicate LoggedInHost(c: ClientInfo)
  {
    c.loggedIn && c.isHost
  }

  /** No logged-in session holds the host role (the test `requestHost` makes). */
  predicate NoLoggedInHost(s: State)
  {
    forall k :: k in s.clients ==> !LoggedInHost(s.clients[k])
  }

  /** `socket.join`: the room as a set, kept in joining order. */
  function Join(room: seq<Id>, id: Id): (r: seq<Id>)
    ensures forall x :: x in r <==> x in room || x == id
    ensures Distinct(room) ==> Distinct(r)
    ensures id in room ==> r == room
    ensures id !in room ==> r == room + [id]
  {
    if id in room then room else room + [id]
  }

  /** Leaving the room: every other member stays, in order. */
  function Leave(room: seq<Id>, id: Id): (r: seq<Id>)
    ensures forall x :: x in r <==> x in room && x != id
    ensures Distinct(room) ==> Distinct(r)
    ensures |r| <= |room|
    ensures id !in room ==> r == room
  {
    if |room| == 0 then []
    else
      var rest := Leave(room[1..], id);
      assert Distinct(room) ==> Distinct(room[1..]) && room[0] !in room[1..];
      (if room[0] == id then [] else [room[0]]) + rest
  }

  /** In a room without repeats, leaving cuts out exactly the leaver's position. */
  lemma {:induction false} LeaveCutsPosition(room: seq<Id>, id: Id, k: int)
    requires Distinct(room) && 0 <= k < |room| && room[k] == id
    ensures Leave(room, id) == room[..k] + room[k + 1..]
  {
    var tail := room[1..];
    assert Leave(room, id) == (if room[0] == id then [] else [room[0]]) + Leave(tail, id);
    if k == 0 {
      assert id !in tail;
      assert room[..0] + room[1..] == tail;
    } else {
      assert room[0] != room[k];
      assert Distinct(tail) && tail[k - 1] == id;
      LeaveCutsPosition(tail, id, k - 1);
      CutAfterHead(room, k);
    }
  }

  lemma CutAfterHead(room: seq<Id>, k: int)
    requires 0 < k < |room|
    ensures room[..k] + room[k + 1..] == [room[0]] + (room[1..][..k - 1] + room[1..][k..])
  {
    assert room[..k] == [room[0]] + room[1..][..k - 1];
    assert room[k + 1..] == room[1..][k..];
  }

  /** `connection`: an entry holding the `ClientInfo` defaults under the socket id, a `lastPing` of 0,
      and membership of the "listeners" room. */
  function Connect(s: State, id: Id, defaults: ClientInfo): (r: State)
    ensures r.clients.Keys == s.clients.Keys + {id}
    ensures r.lastPing.Keys == s.lastPing.Keys + {id}
    ensures r.clients[id] == defaults && r.lastPing[id] == 0
    ensures forall k :: k in s.clients && k != id ==> r.clients[k] == s.clients[k]
    ensures forall k :: k in s.lastPing && k != id ==> r.lastPing[k] == s.lastPing[k]
    ensures forall x :: x in r.listeners <==> x in s.listeners || x == id
    ensures id in s.listeners ==> r.listeners == s.listeners
    ensures id !in s.listeners ==> r.listeners == s.listeners + [id]
    ensures Wf(s) ==> Wf(r)
  {
    State(s.clients[id := defaults], s.lastPing[id := 0], Join(s.listeners, id))
  }

  /** A ping leaves the transport: its time overwrites the connection's `lastPing`. */
  function Ping(s: State, id: Id, now: int): (r: State)
    requires Connected(s, id)
    ensures r.lastPing.Keys == s.lastPing.Keys && r.lastPing[id] == now
    ensures forall k :: k in s.lastPing && k != id ==> r.lastPing[k] == s.lastPing[k]
    ensures r.clients == s.clients && r.listeners == s.listeners
    ensures Wf(s) ==> Wf(r)
  {
    s.(lastPing := s.lastPing[id := now])
  }

  /** A pong arrives: the connection's latency becomes half the time since its
      last ping, capped at `maxDelay`; nothing else changes. */
  function Pong(s: State, id: Id, now: int, maxDelay: real): (r: State)
    requires Connected(s, id)
    ensures r.clients.Keys == s.clients.Keys
    ensures r.clients[id].latency <= maxDelay
    ensures 2.0 * r.clients[id].latency <= (now - s.lastPing[id]) as real
    ensures r.clients[id].latency == maxDelay
         || 2.0 * r.clients[id].latency == (now - s.lastPing[id]) as real
    ensures r.clients[id] == s.clients[id].(latency := r.clients[id].latency)
    ensures forall k :: k in s.clients && k != id ==> r.clients[k] == s.clients[k]
    ensures r.lastPing == s.lastPing && r.listeners == s.listeners
    ensures Wf(s) ==> Wf(r)
  {
    var info := s.clients[id];
    var latency := Latency.PongLatency(now, s.lastPing[id], maxDelay);
    s.(clients := s.clients[id := info.(latency := latency)])
  }

  /** `login`: an accepted version records the name and logs the session in; a
      rejected one changes nothing, calls `badVersion` if the client gave one,
      and schedules a disconnect after the grace delay. */
  function Login(s: State, id: Id, name: string, version: Option<string>,
                 hasCallback: bool, gate: VersionGate): (r: Step)
    requires Connected(s, id)
    ensures gate.validate(version) ==>
      && r.state.clients.Keys == s.clients.Keys
      && r.state.clients[id] == s.clients[id].(name := name, loggedIn := true)
      && (forall k :: k in s.clients && k != id ==> r.state.clients[k] == s.clients[k])
      && r.state.lastPing == s.lastPing
      && (id in s.listeners ==> r.state.listeners == s.listeners)
      && (id !in s.listeners ==> r.state.listeners == s.listeners + [id])
    ensures !gate.validate(version) ==> r.state == s
    ensures (BadVersion(gate.requirements) in r.out) <==> !gate.validate(version) && hasCallback
    ensures (DisconnectAfter(DisconnectGraceMs) in r.out) <==> !gate.validate(version)
    ensures forall o :: o in r.out ==> o == BadVersion(gate.requirements) || o == DisconnectAfter(DisconnectGraceMs)
    ensures |r.out| == if gate.validate(version) then 0 else if hasCallback then 2 else 1
    ensures |r.out| > 0 ==> r.out[|r.out| - 1] == DisconnectAfter(DisconnectGraceMs)
    ensures Wf(s) ==> Wf(r.state)
  {
    if gate.validate(version) then
      var info := s.clients[id].(name := name, loggedIn := true);
      Step(State(s.clients[id := info], s.lastPing, Join(s.listeners, id)), [])
    else
      var callback := if hasCallback then [BadVersion(gate.requirements)] else [];
      Step(s, callback + [DisconnectAfter(DisconnectGraceMs)])
  }

  /** `requestHost`: with the right password the caller becomes host only if no
      logged-in session (the caller included) is host; otherwise it is told the
      role is taken and nothing changes. A wrong password clears the caller's
      host flag. Only the caller's host flag can change. */
  function RequestHost(s: State, id: Id, password: string, hostPassword: string): (r: Step)
    requires Connected(s, id)
    ensures r.state.clients.Keys == s.clients.Keys
    ensures r.state.lastPing == s.lastPing && r.state.listeners == s.listeners
    ensures forall k :: k in s.clients && k != id ==> r.state.clients[k] == s.clients[k]
    ensures r.state.clients[id] == s.clients[id].(isHost := r.state.clients[id].isHost)
    ensures r.out == [IsHost(true)] <==> password == hostPassword && NoLoggedInHost(s)
    ensures r.out == [IsHost(true)] ==> r.state.clients[id].isHost
    ensures r.out == [IsHost(false)] <==> password != hostPassword
    ensures r.out == [IsHost(false)] ==> !r.state.clients[id].isHost
    ensures r.out == [ShowMessage(HostTakenMessage)] <==> password == hostPassword && !NoLoggedInHost(s)
    ensures r.out == [ShowMessage(HostTakenMessage)] ==> r.state == s
    ensures Wf(s) ==> Wf(r.state)
  {
    if password == hostPassword then
      if NoLoggedInHost(s) then
        Step(s.(clients := s.clients[id := s.clients[id].(isHost := true)]), [IsHost(true)])
      else
        Step(s, [ShowMessage(HostTakenMessage)])
    else
      Step(s.(clients := s.clients[id := s.clients[id].(isHost := false)]), [IsHost(false)])
  }

  /** `cancelHost`: the caller gives up the host role, whoever else holds it. */
  function CancelHost(s: State, id: Id): (r: Step)
    requires Connected(s, id)
    ensures r.state.clients.Keys == s.clients.Keys
    ensures r.state.lastPing == s.lastPing && r.state.listeners == s.listeners
    ensures forall k :: k in s.clients && k != id ==> r.state.clients[k] == s.clients[k]
    ensures r.state.clients[id] == s.clients[id].(isHost := false)
    ensures r.out == [IsHost(false)]
    ensures Wf(s) ==> Wf(r.state)
  {
    Step(s.(clients := s.clients[id := s.clients[id].(isHost := false)]), [IsHost(false)])
  }

  /** The ids of the logged-in sessions among `ids`, in order. */
  function LoggedInIds(clients: map<Id, ClientInfo>, ids: seq<Id>): (r: seq<Id>)
    ensures forall x :: x in r <==> x in ids && x in clients && clients[x].loggedIn
    ensures Distinct(ids) ==> Distinct(r)
  {
    if |ids| == 0 then []
    else
      (if ids[0] in clients && clients[ids[0]].loggedIn then [ids[0]] else [])
      + LoggedInIds(clients, ids[1..])
  }

  /** The first `getCurrentSong` handler: the names of the logged-in sessions,
      one per session, in the order `LoggedInIds` reads them. */
  function LoggedInNames(s: State): (names: seq<string>)
    ensures var ids := LoggedInIds(s.clients, s.listeners);
      && |names| == |ids|
      && forall i :: 0 <= i < |ids| ==> ids[i] in s.clients && names[i] == s.clients[ids[i]].name
  {
    var ids := LoggedInIds(s.clients, s.listeners);
    seq(|ids|, i requires 0 <= i < |ids| => s.clients[ids[i]].name)
  }

  /** `disconnecting`: the entry is deleted; the transport then takes the socket
      out of every room. No other entry changes. */
  function Disconnecting(s: State, id: Id): (r: State)
    ensures r.clients.Keys == s.clients.Keys - {id}
    ensures forall k :: k in r.clients ==> r.clients[k] == s.clients[k]
    ensures r.lastPing.Keys == s.lastPing.Keys - {id}
    ensures forall k :: k in r.lastPing ==> r.lastPing[k] == s.lastPing[k]
    ensures forall x :: x in r.listeners <==> x in s.listeners && x != id
    ensures id !in s.listeners ==> r.listeners == s.listeners
    ensures Distinct(s.listeners) ==> forall k :: 0 <= k < |s.listeners| && s.listeners[k] == id ==>
      r.listeners == s.listeners[..k] + s.listeners[k + 1..]
    ensures Wf(s) ==> Wf(r)
  {
    assert Distinct(s.listeners) ==> forall k :: 0 <= k < |s.listeners| && s.listeners[k] == id ==>
      Leave(s.listeners, id) == s.listeners[..k] + s.listeners[k + 1..] by {
      forall k | Distinct(s.listeners) && 0 <= k < |s.listeners| && s.listeners[k] == id {
        LeaveCutsPosition(s.listeners, id, k);
      }
    }
    State(s.clients - {id}, s.lastPing - {id}, Leave(s.listeners, id))
  }

  /** The room's members with their current latencies, in room order. */
  function ListenerLatencies(s: State): (ls: seq<Broadcast.Listener>)
    requires forall x :: x in s.listeners ==> x in s.clients
    ensures |ls| == |s.listeners|
    ensures forall i :: 0 <= i < |ls| ==>
      ls[i].id == s.listeners[i] && ls[i].latency == s.clients[s.listeners[i]].latency
  {
    seq(|s.listeners|, i requires 0 <= i < |s.listeners| =>
      Broadcast.Listener(s.listeners[i], s.clients[s.listeners[i]].latency))
  }

  /** `emitToListeners` on the server state: it throws when the room is empty
      (the room does not exist) or a member has no entry; otherwise it schedules
      one send per room member whose delay plus that member's latency is the
      `maxLatency` accumulator. */
  function Emit<A>(s: State, ev: string, args: seq<A>, maxDelay: real): (r: Result<seq<Broadcast.Send<A>>, EmitError>)
    ensures r.Failure? <==> |s.listeners| == 0 || exists x :: x in s.listeners && x !in s.clients
    ensures r.Success? ==>
      && |r.value| == |s.listeners|
      && forall i :: 0 <= i < |s.listeners| ==>
        && r.value[i].target == s.listeners[i]
        && r.value[i].event == ev && r.value[i].args == args
        && r.value[i].delay + s.clients[s.listeners[i]].latency == Broadcast.MaxLatency(ListenerLatencies(s))
  {
    if |s.listeners| == 0 then Failure(NoListenersRoom)
    else if exists x :: x in s.listeners && x !in s.clients then
      Failure(MissingClientInfo)
    else
      Success(Broadcast.Schedule(ListenerLatencies(s), ev, args, maxDelay))
  }
}
