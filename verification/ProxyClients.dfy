/**
 The server's task for one proxy session and the client's `auth` as they run,
 against the steps of the session machine. The connection is given what the
 other side will have sent; when that is used up, the other side has closed.
 */
module ProxyClients {
  import opened Basics
  import opened ControlCodec
  import opened Registers
  import opened Sessions

  class Framed {
    const incoming: seq<SocketPacket>
    var taken: nat
    var sent: seq<SocketPacket>

    constructor (incoming: seq<SocketPacket>)
      ensures this.incoming == incoming && taken == 0 && sent == []
    {
      this.incoming := incoming;
      taken, sent := 0, [];
    }

    method Next() returns (p: Option<SocketPacket>)
      modifies this`taken
      ensures p == if old(taken) < |incoming| then Some(incoming[old(taken)]) else None
      ensures taken == old(taken) + if p.Some? then 1 else 0
    {
      if taken < |incoming| {
        p := Some(incoming[taken]);
        taken := taken + 1;
      } else {
        p := None;
      }
    }

    method Send(p: SocketPacket)
      modifies this`sent
      ensures sent == old(sent) + [p]
    {
      sent := sent + [p];
    }

    /** The session this connection is the server's end of. */
    ghost function AsServer(stage: ServerStage): Session
      reads this
    {
      Session(Stranger, incoming, taken, true, sent, 0, stage)
    }

    /** The session this connection is a client's end of, its server gone once everything is read. */
    ghost function AsClient(secret: Secret, hostname: string, stage: ClientStage): Session
      reads this
    {
      Session(Honest(secret, hostname, stage), sent, 0, stage.Finished? && stage.result != Connected,
              incoming, taken, Closed)
    }
  }

  // The server

  /** The steps of the server's task up to a hello or the end. */
  function AfterHello(c: Crypto, x: Session, challenge: Bytes64, servers: Servers): Session
    decreases |x.toServer| - x.taken, if x.server.AwaitHello? then 1 else 0
  {
    if x.server.AwaitHello? then AfterHello(c, Serve(c, x, challenge, servers), challenge, servers) else x
  }

  function Pings(ns: seq<u16>): seq<SocketPacket> {
    seq(|ns|, i requires 0 <= i < |ns| => ProxyPing(ns[i]))
  }

  function Pongs(ns: seq<u16>): seq<SocketPacket> {
    seq(|ns|, i requires 0 <= i < |ns| => ProxyPong(ns[i]))
  }

  /** Any number of pings before the hello are each answered, in order, and nothing after the hello is touched. */
  lemma {:induction false} PingsThenHello(c: Crypto, x: Session, ns: seq<u16>, hello: ProxyHelloPacket,
                                          challenge: Bytes64, servers: Servers)
    requires x.server.AwaitHello? && x.taken + |ns| < |x.toServer|
    requires x.toServer[x.taken..x.taken + |ns| + 1] == Pings(ns) + [ProxyHello(hello)]
    ensures AfterHello(c, x, challenge, servers) ==
            x.(taken := x.taken + |ns| + 1, toClient := x.toClient + Pongs(ns), server := GotHello(hello))
    decreases |ns|
  {
    var y := Serve(c, x, challenge, servers);
    var slice := x.toServer[x.taken..x.taken + |ns| + 1];
    if ns == [] {
      assert slice[0] == ProxyHello(hello);
      assert x.toClient + Pongs(ns) == x.toClient;
    } else {
      assert slice[0] == Pings(ns)[0] == ProxyPing(ns[0]);
      assert Pings(ns)[1..] == Pings(ns[1..]) && Pongs(ns) == [ProxyPong(ns[0])] + Pongs(ns[1..]);
      assert slice[1..] == Pings(ns[1..]) + [ProxyHello(hello)];
      PingsThenHello(c, y, ns[1..], hello, challenge, servers);
      assert y.toClient + Pongs(ns[1..]) == x.toClient + Pongs(ns);
    }
  }

  lemma HelloStep(c: Crypto, x: Session, challenge: Bytes64, servers: Servers)
    requires x.server.AwaitHello?
    ensures AfterHello(c, x, challenge, servers) ==
            if x.taken >= |x.toServer| then x.(server := Closed)
            else
              var y := x.(taken := x.taken + 1);
              match x.toServer[x.taken]
              case ProxyHello(hello) => y.(server := GotHello(hello))
              case ProxyPing(n) => AfterHello(c, y.(toClient := x.toClient + [ProxyPong(n)]), challenge, servers)
              case _ => y.(server := Closed)
  {
  }

  /** The next `n` packets are there and are pings. */
  predicate Pinged(incoming: seq<SocketPacket>, from: nat, n: nat) {
    (n == 0 || from + n <= |incoming|) && forall i | from <= i < from + n :: i < |incoming| && incoming[i].ProxyPing?
  }

  function PongsFor(incoming: seq<SocketPacket>, from: nat, n: nat): seq<SocketPacket>
    requires Pinged(incoming, from, n)
  {
    seq(n, i requires 0 <= i < n => ProxyPong(incoming[from + i].ping))
  }

  /**
   Waits for a hello while answering pings: the first packet that is no ping
   decides, and nothing behind it is taken.
   */
  method New(framed: Framed, ghost c: Crypto, ghost challenge: Bytes64, ghost servers: Servers)
    returns (hello: Option<ProxyHelloPacket>)
    modifies framed
    ensures framed.AsServer(if hello.Some? then GotHello(hello.value) else Closed) ==
            AfterHello(c, old(framed.AsServer(AwaitHello)), challenge, servers)
    ensures exists n: nat ::
              && Pinged(framed.incoming, old(framed.taken), n)
              && framed.sent == old(framed.sent) + PongsFor(framed.incoming, old(framed.taken), n)
              && var next := old(framed.taken) + n;
              if next >= |framed.incoming| then hello.None? && framed.taken == next
              else
                && framed.taken == next + 1 && !framed.incoming[next].ProxyPing?
                && hello == if framed.incoming[next].ProxyHello? then Some(framed.incoming[next].hello) else None
  {
    hide AfterHello, Serve;
    ghost var start, first := framed.AsServer(AwaitHello), framed.taken;
    ghost var n: nat := 0;
    assert framed.sent == framed.sent + PongsFor(framed.incoming, first, 0);
    while true
      invariant framed.taken == first + n && Pinged(framed.incoming, first, n)
      invariant framed.sent == old(framed.sent) + PongsFor(framed.incoming, first, n)
      invariant AfterHello(c, framed.AsServer(AwaitHello), challenge, servers) ==
                AfterHello(c, start, challenge, servers)
      decreases |framed.incoming| - framed.taken
    {
      HelloStep(c, framed.AsServer(AwaitHello), challenge, servers);
      var p := framed.Next();
      match p {
        case Some(ProxyHello(packet)) =>
          return Some(packet);
        case Some(ProxyPing(ping)) =>
          framed.Send(ProxyPong(ping));
          assert PongsFor(framed.incoming, first, n + 1) == PongsFor(framed.incoming, first, n) + [ProxyPong(ping)];
          n := n + 1;
        case _ =>
          return None;
      }
    }
  }

  /** Sends the challenge and checks the signature that comes back. */
  method CheckSignature(c: Crypto, framed: Framed, hello: ProxyHelloPacket, challenge: Bytes64, ghost servers: Servers)
    returns (signature: Option<Bytes64>)
    modifies framed
    ensures var x := Serve(c, old(framed.AsServer(GotHello(hello))), challenge, servers);
            framed.AsServer(if signature.Some? then Authenticated(hello, challenge, signature.value) else Closed) ==
            Serve(c, x, challenge, servers)
    ensures var a := old(framed.taken);
            var answered := a < |framed.incoming| && framed.incoming[a].ProxyAuthResponse?;
            && framed.taken == a + (if a < |framed.incoming| then 1 else 0)
            && (signature.Some? <==>
                && answered && c.verify(hello.publicKey, challenge, framed.incoming[a].signature)
                && c.host(hello.publicKey) + ".t.craftip.net" == hello.hostname)
            && (signature.Some? ==> signature.value == framed.incoming[a].signature)
            && framed.sent == old(framed.sent) + [ProxyAuthRequest(challenge)] +
                 if signature.Some? then []
                 else if answered then [ProxyError("Could not authenticate")]
                 else [ProxyError("Client did follow the auth procedure")]
  {
    framed.Send(ProxyAuthRequest(challenge));
    var p := framed.Next();
    if p.None? || !p.value.ProxyAuthResponse? {
      framed.Send(ProxyError(BAD_PROCEDURE));
      return None;
    }
    var answer := p.value.signature;
    if !c.verify(hello.publicKey, challenge, answer) || Hostname(c, hello.publicKey) != hello.hostname {
      framed.Send(ProxyError(NOT_AUTHENTICATED));
      return None;
    }
    return Some(answer);
  }

  /** Registers the session and confirms it, or refuses it; `sendOk` says whether the answer could be sent. */
  method Enter(c: Crypto, register: Register, framed: Framed, i: Tx, hello: ProxyHelloPacket,
               challenge: Bytes64, signature: Bytes64, sendOk: bool)
    returns (stage: ServerStage)
    modifies register`servers, framed
    ensures var before := old(framed.AsServer(Authenticated(hello, challenge, signature)));
            var x := Serve(c, before, challenge, old(register.servers));
            && register.servers == ServeRegister(before, i, old(register.servers))
            && framed.AsServer(stage) == if sendOk then Serve(c, x, challenge, register.servers) else Fail(x)
    ensures framed.taken == old(framed.taken)
    ensures if hello.hostname in old(register.servers) then
              && stage == Closed && register.servers == old(register.servers)
              && framed.sent == old(framed.sent) + if sendOk then [ProxyError("Already connected?")] else []
            else
              && stage == (if sendOk then Running(hello, challenge, signature)
                           else Leaving(hello, challenge, signature))
              && register.servers == old(register.servers)[hello.hostname := i]
              && framed.sent == old(framed.sent) + if sendOk then [ProxyHelloResponse(1)] else []
  {
    var added := register.AddServer(hello.hostname, i);
    if !added {
      if sendOk {
        framed.Send(ProxyError(ALREADY_CONNECTED));
      }
      return Closed;
    }
    if !sendOk {
      return Leaving(hello, challenge, signature);
    }
    framed.Send(ProxyHelloResponse(PROTOCOL_VERSION));
    return Running(hello, challenge, signature);
  }

  /**
   From its registration to its end. While the session runs, others change the
   register, until it is `meanwhile`, but none of them touches this session's
   entry (`Registration.NoEviction`); a session that was refused has nothing to remove.
   */
  method Handle(c: Crypto, register: Register, framed: Framed, i: Tx, hello: ProxyHelloPacket,
                challenge: Bytes64, signature: Bytes64, sendOk: bool, meanwhile: Servers)
    returns (ran: bool)
    requires hello.hostname !in register.servers ==> Find(meanwhile, hello.hostname) == Some(i)
    modifies register`servers, framed
    ensures ran <==> hello.hostname !in old(register.servers) && sendOk
    ensures hello.hostname !in old(register.servers) ==> register.servers == meanwhile - {hello.hostname}
    ensures hello.hostname in old(register.servers) ==> register.servers == old(register.servers)
  {
    var stage := Enter(c, register, framed, i, hello, challenge, signature, sendOk);
    ran := stage.Running?;
    if ran || stage.Leaving? {
      // the session's tasks run here until one of them ends
      register.servers := meanwhile;
      register.RemoveServer(hello.hostname);
    }
  }

  // The client

  /** The three steps of the handshake on the client's side. */
  method Auth(c: Crypto, framed: Framed, secret: Secret, hostname: string) returns (r: ClientResult)
    modifies framed
    ensures var x := Authenticate(c, old(framed.AsClient(secret, hostname, Begin)));
            var y := Authenticate(c, x);
            framed.AsClient(secret, hostname, Finished(r)) == Authenticate(c, y)
    ensures var a, packets := old(framed.taken), framed.incoming;
            r == if a >= |packets| then ProxyClosedConnection
                 else if !packets[a].ProxyAuthRequest? then UnexpectedPacket
                 else if a + 1 >= |packets| then ProxyClosedConnection
                 else if packets[a + 1].ProxyHelloResponse? then Connected
                 else if packets[a + 1].ProxyError? then ProxyRefused(packets[a + 1].message)
                 else UnexpectedPacket
    ensures var a, packets := old(framed.taken), framed.incoming;
            framed.sent ==
            old(framed.sent) + [ProxyHello(ProxyHelloPacket(1, hostname, c.publicKey(secret)))] +
            if a < |packets| && packets[a].ProxyAuthRequest? then
              [ProxyAuthResponse(c.sign(secret, packets[a].challenge))]
            else []
  {
    framed.Send(HelloOf(c, secret, hostname));
    var p := framed.Next();
    match p {
      case None =>
        return ProxyClosedConnection;
      case Some(ProxyAuthRequest(challenge)) =>
        framed.Send(ProxyAuthResponse(c.sign(secret, challenge)));
      case _ =>
        return UnexpectedPacket;
    }
    var verdict := framed.Next();
    match verdict {
      case None =>
        return ProxyClosedConnection;
      case Some(packet) =>
        return ResultOf(packet);
    }
  }
}
