/**
 All the proxy sessions of one server, from the first packet to the removal from
 the register, and the client's half of the handshake. Sessions are known by
 their number; each is a connection with one packet stream either way, and
 steps of any number of them interleave over one register.

 A session is opened by an honest client, which follows the protocol with the
 key it has, or by a stranger, who sends whatever it likes.
 */
module Sessions {
  import opened Basics
  import opened ControlCodec
  import opened Registers

  const PROTOCOL_VERSION: u16 := 1

  const BAD_PROCEDURE := "Client did follow the auth procedure"
  const NOT_AUTHENTICATED := "Could not authenticate"
  const ALREADY_CONNECTED := "Already connected?"

  // Keys

  type Secret = seq<byte>

  /** What is taken from the cryptographic library: key pairs, signatures and the digest a hostname is made of. */
  datatype Crypto = Crypto(
    publicKey: Secret -> Bytes32,
    sign: (Secret, Bytes64) -> Bytes64,
    verify: (Bytes32, Bytes64, Bytes64) -> bool,
    host: Bytes32 -> string)

  function Hostname(c: Crypto, key: Bytes32): string {
    c.host(key) + KEY_SERVER_SUFFIX
  }

  /** A signature made with the private half of a key is accepted for it. */
  ghost predicate SignaturesVerify(c: Crypto) {
    forall secret, challenge :: c.verify(c.publicKey(secret), challenge, c.sign(secret, challenge))
  }

  /** Hosts are written in base 36. */
  ghost predicate HostsAreBase36(c: Crypto) {
    forall key :: Base36(c.host(key))
  }

  // One session

  datatype ClientResult = Connected | ProxyClosedConnection | UnexpectedPacket | ProxyRefused(message: string) | Failed

  datatype ClientStage = Begin | AwaitChallenge | AwaitResult | Finished(result: ClientResult)

  datatype Peer = Honest(secret: Secret, hostname: string, stage: ClientStage) | Stranger

  datatype ServerStage =
    | AwaitHello
    | GotHello(hello: ProxyHelloPacket)
    | AwaitSignature(hello: ProxyHelloPacket, challenge: Bytes64)
    | Authenticated(hello: ProxyHelloPacket, challenge: Bytes64, signature: Bytes64)
    | Refused(hello: ProxyHelloPacket, challenge: Bytes64, signature: Bytes64)
    | Registered(hello: ProxyHelloPacket, challenge: Bytes64, signature: Bytes64)
    | Running(hello: ProxyHelloPacket, challenge: Bytes64, signature: Bytes64)
    | Leaving(hello: ProxyHelloPacket, challenge: Bytes64, signature: Bytes64)
    | Closed

  /** The streams keep every packet ever sent; `taken` and `read` count those received. */
  datatype Session = Session(
    peer: Peer, toServer: seq<SocketPacket>, taken: nat, gone: bool,
    toClient: seq<SocketPacket>, read: nat, server: ServerStage)

  function Fresh(peer: Peer): Session {
    Session(peer, [], 0, false, [], 0, AwaitHello)
  }

  function Reply(x: Session, p: SocketPacket, stage: ServerStage): Session {
    x.(toClient := x.toClient + [p], server := stage)
  }

  /**
   The next step of the server's task, given what the register holds. A packet
   that does not decode counts as unexpected.
   */
  function Serve(c: Crypto, x: Session, challenge: Bytes64, servers: Servers): Session {
    match x.server
    case AwaitHello =>
      if x.taken >= |x.toServer| then x.(server := Closed)
      else
        var y := x.(taken := x.taken + 1);
        (match x.toServer[x.taken]
         case ProxyHello(hello) => y.(server := GotHello(hello))
         case ProxyPing(n) => Reply(y, ProxyPong(n), AwaitHello)
         case _ => y.(server := Closed))
    case GotHello(hello) => Reply(x, ProxyAuthRequest(challenge), AwaitSignature(hello, challenge))
    case AwaitSignature(hello, sent) =>
      if x.taken >= |x.toServer| then Reply(x, ProxyError(BAD_PROCEDURE), Closed)
      else
        var y := x.(taken := x.taken + 1);
        (match x.toServer[x.taken]
         case ProxyAuthResponse(signature) =>
           if !c.verify(hello.publicKey, sent, signature) || Hostname(c, hello.publicKey) != hello.hostname
           then Reply(y, ProxyError(NOT_AUTHENTICATED), Closed)
           else y.(server := Authenticated(hello, sent, signature))
         case _ => Reply(y, ProxyError(BAD_PROCEDURE), Closed))
    case Authenticated(hello, sent, signature) =>
      x.(server := if hello.hostname in servers then Refused(hello, sent, signature)
                   else Registered(hello, sent, signature))
    case Refused(_, _, _) => Reply(x, ProxyError(ALREADY_CONNECTED), Closed)
    case Registered(hello, sent, signature) =>
      Reply(x, ProxyHelloResponse(PROTOCOL_VERSION), Running(hello, sent, signature))
    case Running(_, _, _) => x
    case Leaving(_, _, _) => x.(server := Closed)
    case Closed => x
  }

  /** What the same step does to the register. */
  function ServeRegister(x: Session, i: Tx, servers: Servers): Servers {
    match x.server
    case Authenticated(hello, _, _) => Added(servers, hello.hostname, i)
    case Leaving(hello, _, _) => servers - {hello.hostname}
    case _ => servers
  }

  function HelloOf(c: Crypto, secret: Secret, hostname: string): SocketPacket {
    ProxyHello(ProxyHelloPacket(PROTOCOL_VERSION, hostname, c.publicKey(secret)))
  }

  /** A client that fails to connect hangs up. */
  function Finish(x: Session, result: ClientResult): Session
    requires x.peer.Honest?
  {
    x.(peer := x.peer.(stage := Finished(result)), gone := result != Connected)
  }

  function ResultOf(p: SocketPacket): ClientResult {
    match p
    case ProxyHelloResponse(_) => Connected
    case ProxyError(message) => ProxyRefused(message)
    case _ => UnexpectedPacket
  }

  /** The next step of an honest client in `auth`. */
  function Authenticate(c: Crypto, x: Session): Session
    requires x.peer.Honest?
  {
    match x.peer.stage
    case Begin =>
      x.(peer := x.peer.(stage := AwaitChallenge),
         toServer := x.toServer + [HelloOf(c, x.peer.secret, x.peer.hostname)])
    case AwaitChallenge =>
      if x.read >= |x.toClient| then Finish(x, ProxyClosedConnection)
      else
        var y := x.(read := x.read + 1);
        (match x.toClient[x.read]
         case ProxyAuthRequest(challenge) =>
           y.(peer := x.peer.(stage := AwaitResult),
              toServer := x.toServer + [ProxyAuthResponse(c.sign(x.peer.secret, challenge))])
         case _ => Finish(y, UnexpectedPacket))
    case AwaitResult =>
      if x.read >= |x.toClient| then Finish(x, ProxyClosedConnection)
      else Finish(x.(read := x.read + 1), ResultOf(x.toClient[x.read]))
    case Finished(_) => x
  }

  // All sessions

  datatype State = State(sessions: seq<Session>, servers: Servers)

  function Start(): State {
    State([], map[])
  }

  datatype Event =
    | Opens(peer: Peer)
    | StrangerSends(i: nat, packet: SocketPacket)
    | PeerCloses(i: nat)
    | ClientMoves(i: nat)
    | ServerMoves(i: nat, challenge: Bytes64)
    | ServerFails(i: nat)
    | SessionEnds(i: nat)

  predicate ServerCanMove(x: Session) {
    match x.server
    case AwaitHello => x.taken < |x.toServer| || x.gone
    case AwaitSignature(_, _) => x.taken < |x.toServer| || x.gone
    case Running(_, _, _) => false
    case Closed => false
    case _ => true
  }

  predicate ClientCanMove(x: Session) {
    && x.peer.Honest? && !x.gone
    && match x.peer.stage
       case Begin => true
       case Finished(_) => false
       case _ => x.read < |x.toClient| || x.server.Closed?
  }

  /** Where a failed read or write, a timeout or a failed challenge leaves the server's task. */
  function Fail(x: Session): Session {
    match x.server
    case AwaitHello => x.(server := Closed)
    case GotHello(_) => x.(server := Closed)
    case AwaitSignature(_, _) => x.(server := Closed)
    case Refused(_, _, _) => x.(server := Closed)
    case Registered(hello, challenge, signature) => x.(server := Leaving(hello, challenge, signature))
    case _ => x
  }

  /** Whether an event can happen to a session. */
  predicate Possible(x: Session, e: Event) {
    match e
    case Opens(_) => false
    case StrangerSends(_, _) => x.peer.Stranger? && !x.gone
    case PeerCloses(_) => !x.gone
    case ClientMoves(_) => ClientCanMove(x)
    case ServerMoves(_, _) => ServerCanMove(x)
    case ServerFails(_) => true
    case SessionEnds(_) => x.server.Running?
  }

  predicate Enabled(s: State, e: Event) {
    if e.Opens? then e.peer.Honest? ==> e.peer.stage.Begin?
    else e.i < |s.sessions| && Possible(s.sessions[e.i], e)
  }

  function Close(x: Session): Session {
    if x.peer.Honest? && !x.peer.stage.Finished? then Finish(x, Failed) else x.(gone := true)
  }

  function End(x: Session): Session
    requires x.server.Running?
  {
    x.(server := Leaving(x.server.hello, x.server.challenge, x.server.signature))
  }

  /** What an event makes of the session it is about. */
  function Affect(c: Crypto, x: Session, e: Event, servers: Servers): Session
    requires Possible(x, e)
  {
    match e
    case StrangerSends(_, p) => x.(toServer := x.toServer + [p])
    case PeerCloses(_) => Close(x)
    case ClientMoves(_) => Authenticate(c, x)
    case ServerMoves(_, challenge) => Serve(c, x, challenge, servers)
    case ServerFails(_) => Fail(x)
    case SessionEnds(_) => End(x)
  }

  function Step(c: Crypto, s: State, e: Event): State {
    if !Enabled(s, e) then s
    else if e.Opens? then s.(sessions := s.sessions + [Fresh(e.peer)])
    else State(s.sessions[e.i := Affect(c, s.sessions[e.i], e, s.servers)],
               if e.ServerMoves? then ServeRegister(s.sessions[e.i], e.i, s.servers) else s.servers)
  }

  function Run(c: Crypto, es: seq<Event>): State {
    if es == [] then Start() else Step(c, Run(c, es[..|es| - 1]), es[|es| - 1])
  }

  // Failures

  /** Before its registration a session that fails is over; a registered one has still to be removed. */
  lemma FailureOutcomes(x: Session)
    ensures match x.server
            case Registered(hello, challenge, signature) =>
              Fail(x) == x.(server := Leaving(hello, challenge, signature))
            case Authenticated(_, _, _) => Fail(x) == x
            case Running(_, _, _) => Fail(x) == x
            case Leaving(_, _, _) => Fail(x) == x
            case _ => Fail(x) == x.(server := Closed)
  {
  }

  /** A peer that hangs up says nothing more, and a client in its handshake has failed. */
  lemma HangUpOutcomes(x: Session)
    ensures Close(x).gone && Close(x).toServer == x.toServer && Close(x).server == x.server
    ensures x.peer.Honest? ==>
              && Close(x).peer.Honest?
              && Close(x).peer.stage == if x.peer.stage.Finished? then x.peer.stage else Finished(Failed)
  {
  }
}
