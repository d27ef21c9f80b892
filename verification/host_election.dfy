/**
  Host election over the registry. The role is meant to be held by at most one
  logged-in session. `requestHost`, `cancelHost`, disconnection and the latency
  updates keep that true, and so does connection as long as the `ClientInfo`
  defaults are not a logged-in host; `login` does not, because it never looks
  at the host flag of the session logging in.
 */
module HostElection {
  import opened Base
  import opened Server

  /** At most one session is both logged in and host. */
  predicate AtMostOneHost(s: State)
  {
    forall a, b ::
      (a in s.clients && b in s.clients && LoggedInHost(s.clients[a]) && LoggedInHost(s.clients[b]))
      ==> a == b
  }

  /** The base case: the empty registry is well formed and has no host. */
  lemma InitialKeepsInvariants()
    ensures Wf(Initial) && AtMostOneHost(Initial) && NoLoggedInHost(Initial)
  {
  }

  lemma ConnectKeepsOneHost(s: State, id: Id, defaults: ClientInfo)
    requires AtMostOneHost(s) && !LoggedInHost(defaults)
    ensures AtMostOneHost(Connect(s, id, defaults))
  {
  }

  lemma PingKeepsOneHost(s: State, id: Id, now: int)
    requires Connected(s, id) && AtMostOneHost(s)
    ensures AtMostOneHost(Ping(s, id, now))
  {
  }

  lemma PongKeepsOneHost(s: State, id: Id, now: int, maxDelay: real)
    requires Connected(s, id) && AtMostOneHost(s)
    ensures AtMostOneHost(Pong(s, id, now, maxDelay))
  {
    var r := Pong(s, id, now, maxDelay);
    forall a, b | a in r.clients && b in r.clients && LoggedInHost(r.clients[a]) && LoggedInHost(r.clients[b])
      ensures a == b
    {
      assert LoggedInHost(s.clients[a]) && LoggedInHost(s.clients[b]);
    }
  }

  /** A granted claim leaves the caller as the only session that can be a
      logged-in host; a refused claim changes nothing; a wrong password only
      clears a flag. */
  lemma RequestHostKeepsOneHost(s: State, id: Id, password: string, hostPassword: string)
    requires Connected(s, id) && AtMostOneHost(s)
    ensures AtMostOneHost(RequestHost(s, id, password, hostPassword).state)
  {
    var r := RequestHost(s, id, password, hostPassword).state;
    forall a, b | a in r.clients && b in r.clients && LoggedInHost(r.clients[a]) && LoggedInHost(r.clients[b])
      ensures a == b
    {
      if a != id && b != id {
        assert LoggedInHost(s.clients[a]) && LoggedInHost(s.clients[b]);
      } else if password == hostPassword && NoLoggedInHost(s) {
        assert forall k :: k in r.clients && k != id ==> !LoggedInHost(r.clients[k]);
      } else {
        assert LoggedInHost(s.clients[a]) && LoggedInHost(s.clients[b]);
      }
    }
  }

  /** A granted claim by a logged-in session makes it the one logged-in host. */
  lemma GrantedClaimIsSoleHost(s: State, id: Id, password: string, hostPassword: string)
    requires Connected(s, id) && s.clients[id].loggedIn
    requires RequestHost(s, id, password, hostPassword).out == [IsHost(true)]
    ensures var r := RequestHost(s, id, password, hostPassword).state;
      forall k :: k in r.clients ==> (LoggedInHost(r.clients[k]) <==> k == id)
  {
    var r := RequestHost(s, id, password, hostPassword).state;
    forall k | k in r.clients
      ensures LoggedInHost(r.clients[k]) <==> k == id
    {
      if k != id {
        assert !LoggedInHost(s.clients[k]);
      }
    }
  }

  lemma CancelHostKeepsOneHost(s: State, id: Id)
    requires Connected(s, id) && AtMostOneHost(s)
    ensures AtMostOneHost(CancelHost(s, id).state)
  {
    var r := CancelHost(s, id).state;
    forall a, b | a in r.clients && b in r.clients && LoggedInHost(r.clients[a]) && LoggedInHost(r.clients[b])
      ensures a == b
    {
      assert LoggedInHost(s.clients[a]) && LoggedInHost(s.clients[b]);
    }
  }

  lemma DisconnectingKeepsOneHost(s: State, id: Id)
    requires AtMostOneHost(s)
    ensures AtMostOneHost(Disconnecting(s, id))
  {
    var r := Disconnecting(s, id);
    forall a, b | a in r.clients && b in r.clients && LoggedInHost(r.clients[a]) && LoggedInHost(r.clients[b])
      ensures a == b
    {
      assert LoggedInHost(s.clients[a]) && LoggedInHost(s.clients[b]);
    }
  }

  /** `login` keeps the invariant exactly when it is rejected, or the session
      logging in is not host, or no other session is a logged-in host. */
  lemma LoginKeepsOneHostIff(s: State, id: Id, name: string, version: Option<string>,
                             hasCallback: bool, gate: VersionGate)
    requires Connected(s, id) && AtMostOneHost(s)
    ensures AtMostOneHost(Login(s, id, name, version, hasCallback, gate).state)
        <==> !gate.validate(version) || !s.clients[id].isHost
             || forall k :: k in s.clients && k != id ==> !LoggedInHost(s.clients[k])
  {
    var r := Login(s, id, name, version, hasCallback, gate).state;
    if gate.validate(version) && s.clients[id].isHost {
      if forall k :: k in s.clients && k != id ==> !LoggedInHost(s.clients[k]) {
        forall a, b | a in r.clients && b in r.clients && LoggedInHost(r.clients[a]) && LoggedInHost(r.clients[b])
          ensures a == b
        {
          assert forall k :: k in r.clients && k != id ==> !LoggedInHost(r.clients[k]);
        }
      } else {
        var k :| k in s.clients && k != id && LoggedInHost(s.clients[k]);
        assert LoggedInHost(r.clients[k]) && LoggedInHost(r.clients[id]);
      }
    } else if gate.validate(version) {
      forall a, b | a in r.clients && b in r.clients && LoggedInHost(r.clients[a]) && LoggedInHost(r.clients[b])
        ensures a == b
      {
        assert LoggedInHost(s.clients[a]) && LoggedInHost(s.clients[b]);
      }
    }
  }

  /** Two logged-in sessions claiming the role one after the other with the
      right password: the first wins, the second is told the role is taken. */
  lemma SecondClaimRefused(s: State, a: Id, b: Id, hostPassword: string)
    requires Connected(s, a) && Connected(s, b) && a != b
    requires s.clients[a].loggedIn && NoLoggedInHost(s)
    ensures RequestHost(s, a, hostPassword, hostPassword).out == [IsHost(true)]
    ensures RequestHost(RequestHost(s, a, hostPassword, hostPassword).state, b, hostPassword, hostPassword).out
         == [ShowMessage(HostTakenMessage)]
  {
    var t := RequestHost(s, a, hostPassword, hostPassword).state;
    assert LoggedInHost(t.clients[a]);
  }

  /** A logged-in host asking again is refused too: the test counts the caller. */
  lemma HostReclaimRefused(s: State, id: Id, hostPassword: string)
    requires Connected(s, id) && LoggedInHost(s.clients[id])
    ensures RequestHost(s, id, hostPassword, hostPassword) == Step(s, [ShowMessage(HostTakenMessage)])
  {
  }

  /** Once the logged-in host cancels, a claim with the right password from any
      session succeeds. */
  lemma CancelThenClaimSucceeds(s: State, holder: Id, claimant: Id, hostPassword: string)
    requires AtMostOneHost(s)
    requires Connected(s, holder) && Connected(s, claimant) && LoggedInHost(s.clients[holder])
    ensures RequestHost(CancelHost(s, holder).state, claimant, hostPassword, hostPassword).out == [IsHost(true)]
  {
    var t := CancelHost(s, holder).state;
    forall k | k in t.clients
      ensures !LoggedInHost(t.clients[k])
    {
      if k != holder {
        assert !LoggedInHost(s.clients[k]);
      }
    }
  }

  /** Disconnecting the logged-in host frees the role for any remaining session. */
  lemma DisconnectThenClaimSucceeds(s: State, holder: Id, claimant: Id, hostPassword: string)
    requires AtMostOneHost(s)
    requires Connected(s, holder) && Connected(s, claimant) && holder != claimant
    requires LoggedInHost(s.clients[holder])
    ensures Connected(Disconnecting(s, holder), claimant)
    ensures RequestHost(Disconnecting(s, holder), claimant, hostPassword, hostPassword).out == [IsHost(true)]
  {
    var t := Disconnecting(s, holder);
    forall k | k in t.clients
      ensures !LoggedInHost(t.clients[k])
    {
      assert !LoggedInHost(s.clients[k]);
    }
  }

  /** The registry holds exactly the sessions "a" and "b", with entries `ea` and `eb`. */
  ghost predicate TwoSessions(s: State, ea: ClientInfo, eb: ClientInfo)
  {
    && s.clients.Keys == {"a", "b"} && s.lastPing.Keys == {"a", "b"}
    && s.clients["a"] == ea && s.clients["b"] == eb
  }

  lemma ConnectTwo(defaults: ClientInfo)
    ensures TwoSessions(Connect(Connect(Initial, "a", defaults), "b", defaults), defaults, defaults)
  {
    var s1 := Connect(Initial, "a", defaults);
    assert s1.clients.Keys == {"a"} && s1.lastPing.Keys == {"a"};
  }

  lemma ClaimStep(s: State, who: Id, ea: ClientInfo, eb: ClientInfo, hostPassword: string)
    requires who == "a" || who == "b"
    requires TwoSessions(s, ea, eb) && !LoggedInHost(ea) && !LoggedInHost(eb)
    ensures var t := RequestHost(s, who, hostPassword, hostPassword).state;
      if who == "a" then TwoSessions(t, ea.(isHost := true), eb)
      else TwoSessions(t, ea, eb.(isHost := true))
  {
    assert NoLoggedInHost(s);
  }

  lemma LoginStep(s: State, who: Id, name: string, ea: ClientInfo, eb: ClientInfo, gate: VersionGate)
    requires who == "a" || who == "b"
    requires TwoSessions(s, ea, eb) && gate.validate(Some("1"))
    ensures var t := Login(s, who, name, Some("1"), false, gate).state;
      if who == "a" then TwoSessions(t, ea.(name := name, loggedIn := true), eb)
      else TwoSessions(t, ea, eb.(name := name, loggedIn := true))
  {
  }

  /** With two sessions, the invariant fails exactly when both are logged-in hosts. */
  lemma TwoSessionsOneHostIff(s: State, ea: ClientInfo, eb: ClientInfo)
    requires TwoSessions(s, ea, eb)
    ensures AtMostOneHost(s) <==> !(LoggedInHost(ea) && LoggedInHost(eb))
  {
    assert "a" != "b" by { assert "a"[0] != "b"[0]; }
  }

  /** The sequence of events that ends with two logged-in hosts: "b" claims the
      role before logging in, "a" logs in and claims it (the test ignores "b",
      who is not logged in), then "b" logs in. Any version gate that accepts
      the version and any logged-out, non-host defaults will do. */
  lemma LoginBreaksOneHost(defaults: ClientInfo, gate: VersionGate, hostPassword: string)
    requires !defaults.loggedIn && !defaults.isHost && gate.validate(Some("1"))
    ensures var s2 := Connect(Connect(Initial, "a", defaults), "b", defaults);
      var s3 := RequestHost(s2, "b", hostPassword, hostPassword).state;
      var s4 := Login(s3, "a", "Ann", Some("1"), false, gate).state;
      var s5 := RequestHost(s4, "a", hostPassword, hostPassword).state;
      var s6 := Login(s5, "b", "Bob", Some("1"), false, gate).state;
      AtMostOneHost(s5) && !AtMostOneHost(s6)
  {
    var s2 := Connect(Connect(Initial, "a", defaults), "b", defaults);
    ConnectTwo(defaults);
    var claimed := defaults.(isHost := true);
    var s3 := RequestHost(s2, "b", hostPassword, hostPassword).state;
    ClaimStep(s2, "b", defaults, defaults, hostPassword);
    var ann := defaults.(name := "Ann", loggedIn := true);
    var s4 := Login(s3, "a", "Ann", Some("1"), false, gate).state;
    LoginStep(s3, "a", "Ann", defaults, claimed, gate);
    var s5 := RequestHost(s4, "a", hostPassword, hostPassword).state;
    ClaimStep(s4, "a", ann, claimed, hostPassword);
    TwoSessionsOneHostIff(s5, ann.(isHost := true), claimed);
    var s6 := Login(s5, "b", "Bob", Some("1"), false, gate).state;
    LoginStep(s5, "b", "Bob", ann.(isHost := true), claimed, gate);
    TwoSessionsOneHostIff(s6, ann.(isHost := true), claimed.(name := "Bob", loggedIn := true));
  }
}
