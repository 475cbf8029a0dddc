/**
 What the register holds at any time, whoever talks to the server: exactly the
 sessions between their registration and their removal, each under the hostname
 of a key it has proved to own.
 */
module Registration {
  import opened Basics
  import opened ControlCodec
  import opened Registers
  import opened Sessions

  predicate HasHello(stage: ServerStage) {
    !stage.AwaitHello? && !stage.Closed?
  }

  predicate HasSignature(stage: ServerStage) {
    stage.Authenticated? || stage.Refused? || stage.Registered? || stage.Running? || stage.Leaving?
  }

  predicate OnRegister(stage: ServerStage) {
    stage.Registered? || stage.Running? || stage.Leaving?
  }

  /** Session `i` is between its successful registration and its removal, under the hostname `h`. */
  predicate Holds(s: State, i: nat, h: string) {
    i < |s.sessions| && OnRegister(s.sessions[i].server) && s.sessions[i].server.hello.hostname == h
  }

  ghost predicate RegisterExact(s: State) {
    forall i: nat, h :: Holds(s, i, h) <==> Find(s.servers, h) == Some(i)
  }

  /** The session received its hello, then the signature, and this signature answers the challenge it was sent. */
  ghost predicate Proved(c: Crypto, x: Session) {
    && x.taken <= |x.toServer| && x.read <= |x.toClient|
    && (HasHello(x.server) ==>
          exists a :: 0 <= a < x.taken && x.toServer[a] == ProxyHello(x.server.hello))
    && (HasHello(x.server) && !x.server.GotHello? ==> ProxyAuthRequest(x.server.challenge) in x.toClient)
    && (HasSignature(x.server) ==>
          && ProxyAuthResponse(x.server.signature) in x.toServer[..x.taken]
          && c.verify(x.server.hello.publicKey, x.server.challenge, x.server.signature)
          && Hostname(c, x.server.hello.publicKey) == x.server.hello.hostname)
  }

  lemma ServeProves(c: Crypto, x: Session, challenge: Bytes64, servers: Servers)
    requires Proved(c, x) && ServerCanMove(x)
    ensures Proved(c, Serve(c, x, challenge, servers))
  {
    hide Hostname;
    match x.server {
      case AwaitHello => HelloProves(c, x, challenge, servers);
      case AwaitSignature(_, _) => SignatureProves(c, x, challenge, servers);
      case _ =>
    }
  }

  lemma HelloProves(c: Crypto, x: Session, challenge: Bytes64, servers: Servers)
    requires Proved(c, x) && x.server.AwaitHello?
    ensures Proved(c, Serve(c, x, challenge, servers))
  {
    var y := Serve(c, x, challenge, servers);
    if y.server.GotHello? {
      assert y.toServer[x.taken] == ProxyHello(y.server.hello);
    }
  }

  lemma SignatureProves(c: Crypto, x: Session, challenge: Bytes64, servers: Servers)
    requires Proved(c, x) && x.server.AwaitSignature?
    ensures Proved(c, Serve(c, x, challenge, servers))
  {
    var y := Serve(c, x, challenge, servers);
    if y.server.Authenticated? {
      var a :| 0 <= a < x.taken && x.toServer[a] == ProxyHello(x.server.hello);
      assert y.toServer[a] == x.toServer[a];
      assert y.toServer[..y.taken][x.taken] == ProxyAuthResponse(y.server.signature);
    }
  }

  lemma MoreSent(c: Crypto, x: Session, y: Session)
    requires Proved(c, x)
    requires x.toServer <= y.toServer && y.taken == x.taken && y.toClient == x.toClient && y.server == x.server
    requires y.read <= |y.toClient|
    ensures Proved(c, y)
  {
    assert y.toServer[..y.taken] == x.toServer[..x.taken];
    if HasHello(x.server) {
      var a :| 0 <= a < x.taken && x.toServer[a] == ProxyHello(x.server.hello);
      assert y.toServer[a] == x.toServer[a];
    }
  }

  lemma AffectProves(c: Crypto, x: Session, e: Event, servers: Servers)
    requires Proved(c, x) && Possible(x, e)
    ensures Proved(c, Affect(c, x, e, servers))
  {
    if e.ServerMoves? {
      ServeProves(c, x, e.challenge, servers);
    } else if !e.ServerFails? && !e.SessionEnds? {
      hide Proved;
      assert x.read <= |x.toClient| by { Bounds(c, x); }
      MoreSent(c, x, Affect(c, x, e, servers));
    } else {
      hide HasSignature, HasHello;
      FailProves(c, x, Affect(c, x, e, servers));
    }
  }

  lemma Bounds(c: Crypto, x: Session)
    requires Proved(c, x)
    ensures x.read <= |x.toClient|
  {
  }

  lemma FailProves(c: Crypto, x: Session, y: Session)
    requires Proved(c, x) && (y == Fail(x) || (x.server.Running? && y == End(x)))
    ensures Proved(c, y)
  {
  }

  // The two events that change the register

  /**
   One event either leaves the register alone, or adds the one session it moves
   where there was none, or removes that session's own entry.
   */
  ghost predicate RegisterStep(s: State, e: Event, t: State) {
    || t.servers == s.servers
    || (e.ServerMoves? && e.i < |s.sessions| && s.sessions[e.i].server.Authenticated? &&
        var h := s.sessions[e.i].server.hello.hostname;
        h !in s.servers && t.servers == s.servers[h := e.i] && Holds(t, e.i, h))
    || (e.ServerMoves? && e.i < |s.sessions| && s.sessions[e.i].server.Leaving? &&
        var h := s.sessions[e.i].server.hello.hostname;
        Find(s.servers, h) == Some(e.i) && t.servers == s.servers - {h} &&
        e.i < |t.sessions| && t.sessions[e.i].server.Closed?)
  }

  lemma StepExact(c: Crypto, s: State, e: Event)
    requires RegisterExact(s)
    ensures RegisterExact(Step(c, s, e)) && RegisterStep(s, e, Step(c, s, e))
  {
    var t := Step(c, s, e);
    if Enabled(s, e) && !e.Opens? {
      var x, y := s.sessions[e.i], t.sessions[e.i];
      if e.ServerMoves? && x.server.Authenticated? {
        AddExact(c, s, e, t);
      } else if e.ServerMoves? && x.server.Leaving? {
        RemoveExact(s, e, t);
      } else {
        StageKept(c, x, e, s.servers);
        assert forall j: nat, g :: Holds(t, j, g) == Holds(s, j, g);
      }
    } else {
      assert forall j: nat, g :: Holds(t, j, g) == Holds(s, j, g);
    }
  }

  lemma AddExact(c: Crypto, s: State, e: Event, t: State)
    requires RegisterExact(s) && e.ServerMoves? && e.i < |s.sessions| && s.sessions[e.i].server.Authenticated?
    requires var x := s.sessions[e.i];
             t == State(s.sessions[e.i := Serve(c, x, e.challenge, s.servers)], ServeRegister(x, e.i, s.servers))
    ensures RegisterExact(t) && RegisterStep(s, e, t)
  {
    var h := s.sessions[e.i].server.hello.hostname;
    forall j: nat, g ensures Holds(t, j, g) <==> Find(t.servers, g) == Some(j) {
      assert Holds(s, j, g) <==> Find(s.servers, g) == Some(j);
      assert !Holds(s, e.i, g);
      if h !in s.servers && g == h { assert !Holds(s, j, h); }
    }
  }

  lemma RemoveExact(s: State, e: Event, t: State)
    requires RegisterExact(s) && e.ServerMoves? && e.i < |s.sessions| && s.sessions[e.i].server.Leaving?
    requires var x := s.sessions[e.i];
             t == State(s.sessions[e.i := x.(server := Closed)], ServeRegister(x, e.i, s.servers))
    ensures RegisterExact(t) && RegisterStep(s, e, t)
  {
    var h := s.sessions[e.i].server.hello.hostname;
    assert Holds(s, e.i, h);
    forall j: nat, g ensures Holds(t, j, g) <==> Find(t.servers, g) == Some(j) {
      assert Holds(s, j, g) <==> Find(s.servers, g) == Some(j);
    }
  }

  /** Any other event keeps the session on the register or off it. */
  lemma StageKept(c: Crypto, x: Session, e: Event, servers: Servers)
    requires Possible(x, e) && !(e.ServerMoves? && (x.server.Authenticated? || x.server.Leaving?))
    ensures var y := Affect(c, x, e, servers);
            && (OnRegister(y.server) <==> OnRegister(x.server))
            && (OnRegister(x.server) ==> y.server.hello == x.server.hello)
  {
  }

  ghost predicate Inv(c: Crypto, s: State) {
    RegisterExact(s) && forall i | 0 <= i < |s.sessions| :: Proved(c, s.sessions[i])
  }

  lemma StepInv(c: Crypto, s: State, e: Event)
    requires Inv(c, s)
    ensures Inv(c, Step(c, s, e))
  {
    hide RegisterExact, Holds, Affect, Proved, ServeRegister;
    StepExact(c, s, e);
    if Enabled(s, e) {
      if e.Opens? {
        FreshProved(c, e.peer);
      } else {
        AffectProves(c, s.sessions[e.i], e, s.servers);
      }
    }
  }

  lemma FreshProved(c: Crypto, peer: Peer)
    ensures Proved(c, Fresh(peer))
  {
  }

  lemma {:induction false} RunInv(c: Crypto, es: seq<Event>)
    ensures Inv(c, Run(c, es))
  {
    hide Inv, Step;
    if es == [] {
      assert Inv(c, Start()) by { StartInv(c); }
    } else {
      RunInv(c, es[..|es| - 1]);
      StepInv(c, Run(c, es[..|es| - 1]), es[|es| - 1]);
    }
  }

  lemma StartInv(c: Crypto)
    ensures Inv(c, Start())
  {
  }

  // The results

  /**
   In every reachable state a hostname is registered to a session exactly while
   that session is between its registration and its removal, so no two sessions
   are ever there under one name; and it is there with a key that hashes to the
   name and that signed the very challenge the session sent.
   */
  lemma RegisterHoldsLiveSessions(c: Crypto, es: seq<Event>)
    ensures var s := Run(c, es);
            && (forall i: nat, h :: Holds(s, i, h) <==> Find(s.servers, h) == Some(i))
            && (forall i: nat, j: nat, h | Holds(s, i, h) && Holds(s, j, h) :: i == j)
            && (forall i: nat, h | Holds(s, i, h) ::
                  var x := s.sessions[i];
                  && Hostname(c, x.server.hello.publicKey) == h
                  && c.verify(x.server.hello.publicKey, x.server.challenge, x.server.signature)
                  && ProxyAuthRequest(x.server.challenge) in x.toClient
                  && ProxyHello(x.server.hello) in x.toServer && ProxyAuthResponse(x.server.signature) in x.toServer)
  {
    hide Run;
    RunInv(c, es);
    var s := Run(c, es);
    forall i: nat, h | Holds(s, i, h)
      ensures var x := s.sessions[i];
              ProxyHello(x.server.hello) in x.toServer && ProxyAuthResponse(x.server.signature) in x.toServer
    {
      assert Proved(c, s.sessions[i]);
    }
  }

  /**
   Whatever happens next, another session's entry stays: a duplicate never
   evicts, and each removal is of the leaver's own entry.
   */
  lemma NoEviction(c: Crypto, es: seq<Event>, e: Event, j: nat, h: string)
    requires Holds(Run(c, es), j, h) && !(e.ServerMoves? && e.i == j)
    ensures RegisterStep(Run(c, es), e, Step(c, Run(c, es), e))
    ensures Holds(Step(c, Run(c, es), e), j, h)
    ensures Find(Step(c, Run(c, es), e).servers, h) == Some(j)
  {
    hide Run, Step;
    RunInv(c, es);
    StepExact(c, Run(c, es), e);
    assert Find(Run(c, es).servers, h) == Some(j);
  }

  /**
   A player who asks for a key's hostname in any decorated form reaches the
   live session that holds the hostname, if there is one.
   */
  lemma PlayersReachTheOwner(c: Crypto, es: seq<Event>, key: Bytes32, random: string, dots: string, i: nat)
    requires HostsAreBase36(c) && '.' !in random && OnlyDots(dots)
    ensures var s, h := Run(c, es), Hostname(c, key);
            && (Find(s.servers, CleanUpHostname(h + dots)) == Some(i) <==> Holds(s, i, h))
            && (Find(s.servers, CleanUpHostname(RANDOM_PREFIX + random + "." + h + dots)) == Some(i) <==>
                Holds(s, i, h))
  {
    hide Run, CleanUpHostname, Holds;
    RunInv(c, es);
    assert Base36(c.host(key));
    DecoratedLookup(Run(c, es).servers, c.host(key), random, dots);
  }
}
