/**
  Properties of the session registry that relate several handler calls: the
  ping/pong latency cycle, connection followed by disconnection, the logged-in
  names query, and broadcasting over the registry.
 */
module RegistryProperties {
  import opened Base
  import Broadcast
  import opened Server

  /** Every latency estimate in the registry lies in `[0, maxDelay]`. */
  predicate LatenciesInRange(s: State, maxDelay: real)
  {
    forall k :: k in s.clients ==> 0.0 <= s.clients[k].latency <= maxDelay
  }

  /** Only the latest ping counts: a second ping overwrites the first. */
  lemma PingOverwrites(s: State, id: Id, first: int, second: int)
    requires Connected(s, id)
    ensures Ping(Ping(s, id, first), id, second) == Ping(s, id, second)
  {
  }

  /** A pong after a ping at `sent` sets the latency to half the round trip,
      capped at `maxDelay`, and leaves the rest of the entry alone. */
  lemma PongAfterPing(s: State, id: Id, sent: int, now: int, maxDelay: real)
    requires Connected(s, id)
    ensures var r := Pong(Ping(s, id, sent), id, now, maxDelay);
      && r.clients[id].latency == Min((now - sent) as real / 2.0, maxDelay)
      && r.clients[id] == s.clients[id].(latency := r.clients[id].latency)
  {
  }

  /** A pong keeps every estimate in `[0, maxDelay]` as long as the clock did not
      step back since the last ping. */
  lemma PongKeepsLatenciesInRange(s: State, id: Id, now: int, maxDelay: real)
    requires Connected(s, id) && LatenciesInRange(s, maxDelay)
    requires s.lastPing[id] <= now
    ensures LatenciesInRange(Pong(s, id, now, maxDelay), maxDelay)
  {
    var r := Pong(s, id, now, maxDelay);
    assert 0.0 <= s.clients[id].latency <= maxDelay;
  }

  /** With the clock stepping back between ping and pong the estimate turns
      negative: nothing clamps it from below. */
  lemma ClockStepBackGivesNegativeLatency(s: State, id: Id, maxDelay: real)
    requires Connected(s, id) && 0.0 <= maxDelay
    ensures Pong(Ping(s, id, 10), id, 6, maxDelay).clients[id].latency == -2.0
  {
  }

  /** `Leave` undoes a `Join` of a socket that was not in the room. */
  lemma {:induction false} LeaveUndoesJoin(room: seq<Id>, id: Id)
    requires id !in room
    ensures Leave(Join(room, id), id) == room
  {
    if |room| == 0 {
      assert Join(room, id) == [id];
      assert Leave([id], id) == [] + Leave([], id);
    } else {
      var joined := room + [id];
      assert joined[1..] == room[1..] + [id];
      LeaveUndoesJoin(room[1..], id);
      assert Join(room[1..], id) == room[1..] + [id];
    }
  }

  /** A socket that connects and then disconnects leaves the registry as it found it. */
  lemma ConnectThenDisconnect(s: State, id: Id, defaults: ClientInfo)
    requires Wf(s) && id !in s.clients
    ensures Disconnecting(Connect(s, id, defaults), id) == s
  {
    LeaveUndoesJoin(s.listeners, id);
    RemoveUndoesAdd(s.clients, id, defaults);
    RemoveUndoesAdd(s.lastPing, id, 0);
  }

  lemma RemoveUndoesAdd<V>(m: map<Id, V>, k: Id, v: V)
    requires k !in m
    ensures m[k := v] - {k} == m
  {
  }

  /** Disconnecting a socket that is not connected changes nothing. */
  lemma {:induction false} DisconnectAbsent(s: State, id: Id)
    requires Wf(s) && id !in s.clients
    ensures Disconnecting(s, id) == s
  {
    assert id !in s.listeners && id !in s.lastPing;
    RemoveAbsent(s.clients, id);
    RemoveAbsent(s.lastPing, id);
  }

  lemma RemoveAbsent<V>(m: map<Id, V>, k: Id)
    requires k !in m
    ensures m - {k} == m
  {
  }

  /** `x` occurs in `ids` at some position before an occurrence of `y`. */
  ghost predicate Precedes(x: Id, y: Id, ids: seq<Id>)
  {
    exists p, q :: 0 <= p < q < |ids| && ids[p] == x && ids[q] == y
  }

  /** Any two entries of `r` appear in `ids` at positions in the same order. */
  ghost predicate InOrderOf(r: seq<Id>, ids: seq<Id>)
  {
    forall i, j :: 0 <= i < j < |r| ==> Precedes(r[i], r[j], ids)
  }

  /** If `rest` keeps the order of `ids` without its first entry, then `rest`
      with nothing or that first entry in front keeps the order of `ids`. */
  lemma PrependKeepsOrder(r: seq<Id>, head: seq<Id>, rest: seq<Id>, ids: seq<Id>)
    requires |ids| > 0 && (head == [] || head == [ids[0]]) && r == head + rest
    requires forall x :: x in rest ==> x in ids[1..]
    requires InOrderOf(rest, ids[1..])
    ensures InOrderOf(r, ids)
  {
    var o := |head|;
    forall i, j | 0 <= i < j < |r|
      ensures Precedes(r[i], r[j], ids)
    {
      if o == 1 && i == 0 {
        assert r[j] == rest[j - 1] && rest[j - 1] in rest;
        var m :| 0 <= m < |ids[1..]| && ids[1..][m] == rest[j - 1];
        assert ids[0] == r[0] && ids[m + 1] == r[j];
      } else {
        assert 0 <= i - o < j - o < |rest|;
        assert r[i] == rest[i - o] && r[j] == rest[j - o];
        assert Precedes(rest[i - o], rest[j - o], ids[1..]);
        var m, n :| 0 <= m < n < |ids[1..]| && ids[1..][m] == rest[i - o] && ids[1..][n] == rest[j - o];
        assert ids[m + 1] == r[i] && ids[n + 1] == r[j];
      }
    }
  }

  /** The filter keeps the relative order of the ids it reads. */
  lemma {:induction false} LoggedInIdsKeepOrder(clients: map<Id, ClientInfo>, ids: seq<Id>)
    ensures InOrderOf(LoggedInIds(clients, ids), ids)
  {
    if |ids| > 0 {
      LoggedInIdsKeepOrder(clients, ids[1..]);
      var head := if ids[0] in clients && clients[ids[0]].loggedIn then [ids[0]] else [];
      PrependKeepsOrder(LoggedInIds(clients, ids), head, LoggedInIds(clients, ids[1..]), ids);
    }
  }

  /** On a well-formed registry the names query lists one name per logged-in
      session: the sessions it reads are exactly the logged-in ones, each once. */
  lemma LoggedInNamesExact(s: State)
    requires Wf(s)
    ensures var ids := LoggedInIds(s.clients, s.listeners);
      && Distinct(ids)
      && (forall x :: x in ids <==> x in s.clients && s.clients[x].loggedIn)
      && |LoggedInNames(s)| == |ids|
    ensures forall n :: (n in LoggedInNames(s)
      <==> exists x :: x in s.clients && s.clients[x].loggedIn && s.clients[x].name == n)
  {
    var ids := LoggedInIds(s.clients, s.listeners);
    var names := LoggedInNames(s);
    forall n | n in names
      ensures exists x :: x in s.clients && s.clients[x].loggedIn && s.clients[x].name == n
    {
      var i :| 0 <= i < |names| && names[i] == n;
      assert ids[i] in ids;
    }
    forall n | exists x :: x in s.clients && s.clients[x].loggedIn && s.clients[x].name == n
      ensures n in names
    {
      var x :| x in s.clients && s.clients[x].loggedIn && s.clients[x].name == n;
      assert x in ids;
      var i :| 0 <= i < |ids| && ids[i] == x;
      assert names[i] == n;
    }
  }

  /** On a well-formed registry with a non-empty room, broadcasting does
      not throw and schedules exactly one send for every connected socket,
      logged in or not. */
  lemma EmitReachesEachConnectionOnce<A>(s: State, ev: string, args: seq<A>, maxDelay: real)
    requires Wf(s) && |s.listeners| > 0
    ensures Emit(s, ev, args, maxDelay).Success?
    ensures var sends := Emit(s, ev, args, maxDelay).value;
      && (forall k :: k in s.clients ==> exists i :: 0 <= i < |sends| && sends[i].target == k)
      && (forall i, j :: 0 <= i < j < |sends| ==> sends[i].target != sends[j].target)
      && (forall i :: 0 <= i < |sends| ==> sends[i].target in s.clients)
  {
    var sends := Emit(s, ev, args, maxDelay).value;
    forall k | k in s.clients
      ensures exists i :: 0 <= i < |sends| && sends[i].target == k
    {
      var i :| 0 <= i < |s.listeners| && s.listeners[i] == k;
      assert sends[i].target == k;
    }
    assert Distinct(s.listeners);
  }

  /** With every estimate in range, the registry's slowest connection gets
      delay 0 and every delay is at most the spread of the estimates. */
  lemma EmitDelaysInRange<A>(s: State, ev: string, args: seq<A>, maxDelay: real)
    requires Wf(s) && |s.listeners| > 0 && LatenciesInRange(s, maxDelay)
    ensures Emit(s, ev, args, maxDelay).Success?
    ensures var sends := Emit(s, ev, args, maxDelay).value;
      var ls := ListenerLatencies(s);
      && (forall i :: 0 <= i < |sends| ==>
           0.0 <= sends[i].delay <= Broadcast.Largest(ls) - Broadcast.Smallest(ls))
      && (exists i :: 0 <= i < |sends| && sends[i].delay == 0.0)
  {
    var ls := ListenerLatencies(s);
    assert Emit(s, ev, args, maxDelay) == Success(Broadcast.Schedule(ls, ev, args, maxDelay));
    assert Broadcast.InRange(ls, maxDelay) by {
      forall i | 0 <= i < |ls|
        ensures 0.0 <= ls[i].latency <= maxDelay
      {
        assert s.listeners[i] in s.clients;
      }
    }
    Broadcast.DelaySpreadInRange(ls, ev, args, maxDelay);
  }

  /** The empty room throws instead of broadcasting to nobody. */
  lemma EmitWithoutConnectionsThrows<A>(ev: string, args: seq<A>, maxDelay: real)
    ensures Emit(Initial, ev, args, maxDelay) == Failure(NoListenersRoom)
  {
  }

  /** A socket that has connected but never logged in still receives broadcasts. */
  lemma EmitIncludesLoggedOutSockets(id: Id, defaults: ClientInfo, maxDelay: real)
    requires !defaults.loggedIn
    ensures var s := Connect(Initial, id, defaults);
      Emit<int>(s, "play", [], maxDelay).Success?
      && Emit<int>(s, "play", [], maxDelay).value[0].target == id
  {
    var s := Connect(Initial, id, defaults);
    assert s.listeners == [id];
  }
}
