/**
 How the handshake of an honest client ends, when neither its connection fails
 nor its user gives up: always, after a bounded number of its own steps, however
 the other sessions behave, and with a result that depends only on its hostname
 and on what the register held when its turn came.
 */
module Completion {
  import opened ControlCodec
  import opened Registers
  import opened Sessions
  import opened Registration

  /** Nothing goes wrong with session `i` from outside. */
  predicate Untroubled(es: seq<Event>, i: nat) {
    forall n | 0 <= n < |es| :: es[n] != ServerFails(i) && es[n] != PeerCloses(i)
  }

  function SentByClient(c: Crypto, x: Session): seq<SocketPacket>
    requires x.peer.Honest?
  {
    var hello := HelloOf(c, x.peer.secret, x.peer.hostname);
    match x.peer.stage
    case Begin => []
    case AwaitChallenge => [hello]
    case _ =>
      if x.toClient != [] && x.toClient[0].ProxyAuthRequest?
      then [hello, ProxyAuthResponse(c.sign(x.peer.secret, x.toClient[0].challenge))]
      else [hello]
  }

  predicate Verdict(p: SocketPacket) {
    p in {ProxyHelloResponse(PROTOCOL_VERSION), ProxyError(ALREADY_CONNECTED), ProxyError(NOT_AUTHENTICATED)}
  }

  /** How far the server has come fixes what it has received and sent. */
  predicate ServerInStep(c: Crypto, x: Session)
    requires x.peer.Honest?
  {
    var hello := HelloOf(c, x.peer.secret, x.peer.hostname).hello;
    match x.server
    case AwaitHello => x.taken == 0 && x.toClient == []
    case GotHello(h) => x.taken == 1 && h == hello && x.toClient == []
    case AwaitSignature(h, challenge) => x.taken == 1 && h == hello && x.toClient == [ProxyAuthRequest(challenge)]
    case Authenticated(h, challenge, _) => x.taken == 2 && h == hello && x.toClient == [ProxyAuthRequest(challenge)]
    case Refused(h, challenge, _) => x.taken == 2 && h == hello && x.toClient == [ProxyAuthRequest(challenge)]
    case Registered(h, challenge, _) => x.taken == 2 && h == hello && x.toClient == [ProxyAuthRequest(challenge)]
    case Running(h, challenge, _) =>
      x.taken == 2 && h == hello && x.toClient == [ProxyAuthRequest(challenge), ProxyHelloResponse(PROTOCOL_VERSION)]
    case Leaving(h, challenge, _) =>
      x.taken == 2 && h == hello && x.toClient == [ProxyAuthRequest(challenge), ProxyHelloResponse(PROTOCOL_VERSION)]
    case Closed =>
      x.taken == 2 && |x.toClient| == 2 && x.toClient[0].ProxyAuthRequest? && Verdict(x.toClient[1])
  }

  /** How far the client has come fixes what it has read and concluded. */
  predicate ClientInStep(x: Session)
    requires x.peer.Honest?
  {
    match x.peer.stage
    case Begin => x.read == 0 && !x.gone
    case AwaitChallenge => x.read == 0 && !x.gone
    case AwaitResult => x.read == 1 && !x.gone
    case Finished(r) => x.read == 2 && |x.toClient| == 2 && r == ResultOf(x.toClient[1])
  }

  predicate InStep(c: Crypto, x: Session) {
    && x.peer.Honest? && x.toServer == SentByClient(c, x)
    && x.taken <= |x.toServer| && x.read <= |x.toClient|
    && ServerInStep(c, x) && ClientInStep(x)
  }

  lemma ServeInStep(c: Crypto, x: Session, challenge: Bytes64, servers: Servers)
    requires SignaturesVerify(c) && InStep(c, x) && ServerCanMove(x)
    ensures InStep(c, Serve(c, x, challenge, servers))
    ensures x.server.AwaitSignature? ==>
              (Serve(c, x, challenge, servers).server.Authenticated? <==>
               Hostname(c, c.publicKey(x.peer.secret)) == x.peer.hostname)
  {
  }

  lemma AuthenticateInStep(c: Crypto, x: Session)
    requires InStep(c, x) && ClientCanMove(x)
    ensures InStep(c, Authenticate(c, x))
  {
  }

  lemma AffectInStep(c: Crypto, x: Session, e: Event, servers: Servers)
    requires SignaturesVerify(c) && InStep(c, x) && Possible(x, e) && !e.ServerFails? && !e.PeerCloses?
    ensures InStep(c, Affect(c, x, e, servers))
  {
    hide SentByClient, Serve, Authenticate;
    if e.ServerMoves? { ServeInStep(c, x, e.challenge, servers); }
    if e.ClientMoves? { AuthenticateInStep(c, x); }
    if e.SessionEnds? { EndInStep(c, x); }
  }

  lemma EndInStep(c: Crypto, x: Session)
    requires InStep(c, x) && x.server.Running?
    ensures InStep(c, End(x))
  {
  }

  lemma {:induction false} RunInStep(c: Crypto, es: seq<Event>, i: nat)
    requires SignaturesVerify(c) && Untroubled(es, i)
    requires i < |Run(c, es).sessions| && Run(c, es).sessions[i].peer.Honest?
    ensures InStep(c, Run(c, es).sessions[i])
  {
    hide InStep, Affect, SignaturesVerify;
    var m := |es| - 1;
    var before, e := Run(c, es[..m]), es[m];
    if i >= |before.sessions| {
      FreshInStep(c, e.peer);
    } else {
      if Enabled(before, e) && !e.Opens? && e.i == i {
        PeerKept(c, before.sessions[i], e, before.servers);
        RunInStep(c, es[..m], i);
        AffectInStep(c, before.sessions[i], e, before.servers);
      } else {
        RunInStep(c, es[..m], i);
      }
    }
  }

  lemma FreshInStep(c: Crypto, peer: Peer)
    requires peer.Honest? && peer.stage.Begin?
    ensures InStep(c, Fresh(peer))
  {
  }

  lemma PeerKept(c: Crypto, x: Session, e: Event, servers: Servers)
    requires Possible(x, e)
    ensures var p, q := x.peer, Affect(c, x, e, servers).peer;
            p.Honest? == q.Honest? && (p.Honest? ==> p.secret == q.secret && p.hostname == q.hostname)
  {
  }

  // It ends

  /** The steps a handshake and its session have left. */
  function Measure(x: Session): nat {
    (match x.server
     case AwaitHello => 7
     case GotHello(_) => 6
     case AwaitSignature(_, _) => 5
     case Authenticated(_, _, _) => 4
     case Refused(_, _, _) => 1
     case Registered(_, _, _) => 3
     case Running(_, _, _) => 2
     case Leaving(_, _, _) => 1
     case Closed => 0) +
    (if x.peer.Stranger? then 0
     else match x.peer.stage
       case Begin => 3
       case AwaitChallenge => 2
       case AwaitResult => 1
       case Finished(_) => 0)
  }

  const HANDSHAKE_STEPS: nat := 10

  /** The events of session `i` that really happened. */
  function StepsOf(c: Crypto, es: seq<Event>, i: nat): nat {
    if es == [] then 0
    else
      var before, e := Run(c, es[..|es| - 1]), es[|es| - 1];
      StepsOf(c, es[..|es| - 1], i) + if !e.Opens? && e.i == i && Enabled(before, e) then 1 else 0
  }

  lemma ShrinksMeasure(c: Crypto, x: Session, e: Event, servers: Servers)
    requires InStep(c, x) && Possible(x, e) && !e.ServerFails? && !e.PeerCloses?
    ensures Measure(Affect(c, x, e, servers)) < Measure(x)
  {
  }

  lemma {:induction false} NoSteps(c: Crypto, es: seq<Event>, i: nat)
    requires i >= |Run(c, es).sessions|
    ensures StepsOf(c, es, i) == 0
  {
    hide Affect, ServeRegister;
    if es != [] { NoSteps(c, es[..|es| - 1], i); }
  }

  /** Every step of the session uses up some of a fixed allowance. */
  lemma {:induction false} BoundedSteps(c: Crypto, es: seq<Event>, i: nat)
    requires SignaturesVerify(c) && Untroubled(es, i)
    requires i < |Run(c, es).sessions| && Run(c, es).sessions[i].peer.Honest?
    ensures StepsOf(c, es, i) + Measure(Run(c, es).sessions[i]) <= HANDSHAKE_STEPS
  {
    hide Measure, Affect, SignaturesVerify, InStep;
    var m := |es| - 1;
    var before, e := Run(c, es[..m]), es[m];
    if i >= |before.sessions| {
      NoSteps(c, es[..m], i);
      FreshMeasure(e.peer);
    } else if Enabled(before, e) && !e.Opens? && e.i == i {
      PeerKept(c, before.sessions[i], e, before.servers);
      RunInStep(c, es[..m], i);
      BoundedSteps(c, es[..m], i);
      ShrinksMeasure(c, before.sessions[i], e, before.servers);
    } else {
      BoundedSteps(c, es[..m], i);
    }
  }

  lemma FreshMeasure(peer: Peer)
    requires peer.Honest? && peer.stage.Begin?
    ensures Measure(Fresh(peer)) <= HANDSHAKE_STEPS
  {
  }

  /** Until the client has finished, it or the server's task can move. */
  lemma NoDeadlock(c: Crypto, x: Session)
    requires InStep(c, x) && !x.peer.stage.Finished?
    ensures ClientCanMove(x) || ServerCanMove(x)
  {
  }

  /**
   No handshake of an honest client hangs: as long as it has not finished, a
   step of its own session is possible whatever the other sessions do, at most
   ten such steps happen, and after ten it has finished.
   */
  lemma HandshakesComplete(c: Crypto, es: seq<Event>, i: nat, challenge: Bytes64)
    requires SignaturesVerify(c) && Untroubled(es, i)
    requires i < |Run(c, es).sessions| && Run(c, es).sessions[i].peer.Honest?
    ensures var s := Run(c, es);
            && StepsOf(c, es, i) <= 10
            && (s.sessions[i].peer.stage.Finished? ||
                Enabled(s, ClientMoves(i)) || Enabled(s, ServerMoves(i, challenge)))
            && (StepsOf(c, es, i) == 10 ==> s.sessions[i].peer.stage.Finished?)
  {
    hide Run, InStep, StepsOf, SignaturesVerify;
    RunInStep(c, es, i);
    BoundedSteps(c, es, i);
    if !Run(c, es).sessions[i].peer.stage.Finished? { NoDeadlock(c, Run(c, es).sessions[i]); }
  }

  // How it ends

  datatype Fate = Open | Accepted | Duplicate | Imposter

  function FateOf(x: Session): Fate {
    if |x.toClient| >= 2 then
      match x.toClient[1]
      case ProxyHelloResponse(_) => Accepted
      case ProxyError(message) => if message == ALREADY_CONNECTED then Duplicate else Imposter
      case _ => Open
    else
      match x.server
      case Registered(_, _, _) => Accepted
      case Refused(_, _, _) => Duplicate
      case _ => Open
  }

  /** The event number `n` is the session's turn at the register. */
  ghost predicate TurnAt(c: Crypto, es: seq<Event>, n: nat, i: nat) {
    && n < |es| && es[n].ServerMoves? && es[n].i == i
    && var s := Run(c, es[..n]);
    i < |s.sessions| && s.sessions[i].server.Authenticated?
  }

  /** What decided the fate of the session. */
  ghost predicate Decided(c: Crypto, es: seq<Event>, i: nat, x: Session)
    requires x.peer.Honest?
  {
    var own := Hostname(c, c.publicKey(x.peer.secret)) == x.peer.hostname;
    match FateOf(x)
    case Open => true
    case Accepted => own && exists n: nat :: TurnAt(c, es, n, i) && x.peer.hostname !in Run(c, es[..n]).servers
    case Duplicate => own && exists n: nat :: TurnAt(c, es, n, i) && x.peer.hostname in Run(c, es[..n]).servers
    case Imposter => !own
  }

  lemma FateKept(c: Crypto, x: Session, e: Event, servers: Servers)
    requires InStep(c, x) && Possible(x, e) && !e.ServerFails? && !e.PeerCloses?
    requires !(e.ServerMoves? && (x.server.AwaitSignature? || x.server.Authenticated?))
    ensures FateOf(Affect(c, x, e, servers)) == FateOf(x)
  {
  }

  lemma FateAtSignature(c: Crypto, x: Session, challenge: Bytes64, servers: Servers)
    requires SignaturesVerify(c) && InStep(c, x) && ServerCanMove(x) && x.server.AwaitSignature?
    ensures FateOf(Serve(c, x, challenge, servers)) ==
            if Hostname(c, c.publicKey(x.peer.secret)) == x.peer.hostname then Open else Imposter
  {
  }

  lemma FateAtTurn(c: Crypto, x: Session, challenge: Bytes64, servers: Servers)
    requires InStep(c, x) && x.server.Authenticated?
    ensures FateOf(Serve(c, x, challenge, servers)) == if x.peer.hostname in servers then Duplicate else Accepted
  {
  }

  lemma DecidedEarlier(c: Crypto, es: seq<Event>, m: nat, i: nat, x: Session, y: Session)
    requires x.peer.Honest? && y.peer.Honest? && x.peer.secret == y.peer.secret && x.peer.hostname == y.peer.hostname
    requires m <= |es| && Decided(c, es[..m], i, x) && FateOf(x) == FateOf(y)
    ensures Decided(c, es, i, y)
  {
    hide Run, FateOf, Hostname;
    forall n: nat | TurnAt(c, es[..m], n, i) ensures TurnAt(c, es, n, i) && es[..m][..n] == es[..n] {
      assert es[..m][..n] == es[..n];
    }
    if FateOf(x).Accepted? {
      var n: nat :| TurnAt(c, es[..m], n, i) && x.peer.hostname !in Run(c, es[..m][..n]).servers;
      assert TurnAt(c, es, n, i);
    }
    if FateOf(x).Duplicate? {
      var n: nat :| TurnAt(c, es[..m], n, i) && x.peer.hostname in Run(c, es[..m][..n]).servers;
      assert TurnAt(c, es, n, i);
    }
  }

  lemma OwnHostname(c: Crypto, es: seq<Event>, i: nat)
    requires i < |Run(c, es).sessions| && Run(c, es).sessions[i].peer.Honest?
    requires InStep(c, Run(c, es).sessions[i]) && Run(c, es).sessions[i].server.Authenticated?
    ensures var p := Run(c, es).sessions[i].peer; Hostname(c, c.publicKey(p.secret)) == p.hostname
  {
    hide Run;
    RunInv(c, es);
    assert Proved(c, Run(c, es).sessions[i]);
  }

  lemma {:induction false} RunDecided(c: Crypto, es: seq<Event>, i: nat)
    requires SignaturesVerify(c) && Untroubled(es, i)
    requires i < |Run(c, es).sessions| && Run(c, es).sessions[i].peer.Honest?
    ensures Decided(c, es, i, Run(c, es).sessions[i])
  {
    hide InStep, Affect, SignaturesVerify, Decided, FateOf, Hostname, ServeRegister;
    var m := |es| - 1;
    var before, e := Run(c, es[..m]), es[m];
    if i >= |before.sessions| {
      FreshDecided(c, es, i, e.peer);
    } else if Enabled(before, e) && !e.Opens? && e.i == i {
      var x := before.sessions[i];
      PeerKept(c, x, e, before.servers);
      RunInStep(c, es[..m], i);
      RunDecided(c, es[..m], i);
      StepDecided(c, es, i);
    } else {
      RunDecided(c, es[..m], i);
      DecidedEarlier(c, es, m, i, before.sessions[i], before.sessions[i]);
    }
  }

  lemma FreshDecided(c: Crypto, es: seq<Event>, i: nat, peer: Peer)
    requires peer.Honest?
    ensures Decided(c, es, i, Fresh(peer))
  {
  }

  lemma StepDecided(c: Crypto, es: seq<Event>, i: nat)
    requires SignaturesVerify(c) && es != []
    requires var before, e := Run(c, es[..|es| - 1]), es[|es| - 1];
             && Enabled(before, e) && !e.Opens? && e.i == i && !e.ServerFails? && !e.PeerCloses?
             && InStep(c, before.sessions[i]) && Decided(c, es[..|es| - 1], i, before.sessions[i])
    ensures Run(c, es).sessions[i].peer.Honest? && Decided(c, es, i, Run(c, es).sessions[i])
  {
    var m := |es| - 1;
    var before, e := Run(c, es[..m]), es[m];
    var x, y := before.sessions[i], Run(c, es).sessions[i];
    assert y == Affect(c, x, e, before.servers);
    PeerKept(c, x, e, before.servers);
    if e.ServerMoves? && x.server.AwaitSignature? {
      FateAtSignature(c, x, e.challenge, before.servers);
    } else if e.ServerMoves? && x.server.Authenticated? {
      FateAtTurn(c, x, e.challenge, before.servers);
      OwnHostname(c, es[..m], i);
      assert TurnAt(c, es, m, i);
    } else {
      FateKept(c, x, e, before.servers);
      DecidedEarlier(c, es, m, i, x, y);
    }
  }

  /** The server's task only ever moves on. */
  function Ahead(stage: ServerStage): nat {
    match stage
    case AwaitHello => 5
    case GotHello(_) => 5
    case AwaitSignature(_, _) => 5
    case Authenticated(_, _, _) => 4
    case _ => 3
  }

  lemma MovesOn(c: Crypto, x: Session, e: Event, servers: Servers)
    requires Possible(x, e)
    ensures Ahead(Affect(c, x, e, servers).server) <= Ahead(x.server)
    ensures e.ServerMoves? && x.server.Authenticated? ==> Ahead(Affect(c, x, e, servers).server) == 3
  {
  }

  lemma {:induction false} NeverBack(c: Crypto, es: seq<Event>, n: nat, i: nat)
    requires n <= |es| && i < |Run(c, es[..n]).sessions|
    ensures i < |Run(c, es).sessions|
    ensures Ahead(Run(c, es).sessions[i].server) <= Ahead(Run(c, es[..n]).sessions[i].server)
    decreases |es|
  {
    hide Affect, Ahead, ServeRegister;
    if n == |es| {
      assert es[..n] == es;
    } else {
      var m := |es| - 1;
      assert es[..m][..n] == es[..n];
      NeverBack(c, es[..m], n, i);
      var before, e := Run(c, es[..m]), es[m];
      if Enabled(before, e) && !e.Opens? && e.i == i { MovesOn(c, before.sessions[i], e, before.servers); }
    }
  }

  /** A session has one turn at the register. */
  lemma OneTurn(c: Crypto, es: seq<Event>, n: nat, m: nat, i: nat)
    requires TurnAt(c, es, n, i) && TurnAt(c, es, m, i)
    ensures n == m
  {
    if n < m { TurnTaken(c, es, n, m, i); }
    if m < n { TurnTaken(c, es, m, n, i); }
  }

  lemma TurnTaken(c: Crypto, es: seq<Event>, n: nat, m: nat, i: nat)
    requires TurnAt(c, es, n, i) && n < m <= |es|
    ensures i < |Run(c, es[..m]).sessions| && !Run(c, es[..m]).sessions[i].server.Authenticated?
  {
    var s := Run(c, es[..n]);
    assert es[..n + 1][..n] == es[..n];
    assert Run(c, es[..n + 1]) == Step(c, s, es[n]);
    MovesOn(c, s.sessions[i], es[n], s.servers);
    assert es[..m][..n + 1] == es[..n + 1];
    NeverBack(c, es[..m], n + 1, i);
  }

  /**
   The result of a handshake nobody disturbs: refused as an impostor exactly when
   the client asks for a hostname its key does not have, and otherwise connected
   or refused as a duplicate according to whether the hostname was free at the
   session's turn.
   */
  lemma OutcomeOfHandshake(c: Crypto, es: seq<Event>, i: nat)
    requires SignaturesVerify(c) && Untroubled(es, i)
    requires i < |Run(c, es).sessions| && Run(c, es).sessions[i].peer.Honest?
    requires Run(c, es).sessions[i].peer.stage.Finished?
    ensures var p := Run(c, es).sessions[i].peer;
            if Hostname(c, c.publicKey(p.secret)) != p.hostname then
              p.stage.result == ProxyRefused("Could not authenticate")
            else
              && (exists n: nat :: TurnAt(c, es, n, i))
              && forall n: nat | TurnAt(c, es, n, i) ::
                   p.stage.result ==
                   if p.hostname in Run(c, es[..n]).servers then ProxyRefused("Already connected?") else Connected
  {
    hide Run;
    RunInStep(c, es, i);
    RunDecided(c, es, i);
    var x := Run(c, es).sessions[i];
    assert FateOf(x) != Open;
    if Hostname(c, c.publicKey(x.peer.secret)) == x.peer.hostname {
      var turn: nat :| TurnAt(c, es, turn, i) &&
                       (FateOf(x) == if x.peer.hostname in Run(c, es[..turn]).servers then Duplicate else Accepted);
      forall n: nat | TurnAt(c, es, n, i) ensures n == turn { OneTurn(c, es, n, turn, i); }
    }
  }
}
