/** The handshake over the byte stream: everything either side says fits a frame, but for the name a client asks for. */
module HandshakeWire {
  import opened Basics
  import opened Unicode
  import opened ControlCodec
  import opened SocketPackets
  import opened Registers
  import opened Sessions

  /** The longest hostname a hello has room for, in bytes. */
  const MAX_HOSTNAME: nat := 32717

  lemma {:induction false} AtMostFourBytes(s: string)
    ensures |EncodeUtf8(s)| <= 4 * |s|
  {
    if s != [] { AtMostFourBytes(s[1..]); }
  }

  predicate ServerSays(p: SocketPacket) {
    p.ProxyPong? || p.ProxyAuthRequest? || p.ProxyHelloResponse? ||
    p == ProxyError(BAD_PROCEDURE) || p == ProxyError(NOT_AUTHENTICATED) || p == ProxyError(ALREADY_CONNECTED)
  }

  ghost predicate Speak(c: Crypto, x: Session) {
    && (forall a | 0 <= a < |x.toClient| :: ServerSays(x.toClient[a]))
    && (x.peer.Honest? ==> forall a | 0 <= a < |x.toServer| ::
          x.toServer[a].ProxyAuthResponse? || x.toServer[a] == HelloOf(c, x.peer.secret, x.peer.hostname))
  }

  lemma AffectSpeaks(c: Crypto, x: Session, e: Event, servers: Servers)
    requires Speak(c, x) && Possible(x, e)
    ensures Speak(c, Affect(c, x, e, servers))
  {
    hide Serve;
    if e.ServerMoves? { ServeSpeaks(c, x, e.challenge, servers); }
  }

  lemma ServeSpeaks(c: Crypto, x: Session, challenge: Bytes64, servers: Servers)
    requires Speak(c, x)
    ensures Speak(c, Serve(c, x, challenge, servers))
  {
    hide Hostname;
  }

  lemma {:induction false} RunSpeaks(c: Crypto, es: seq<Event>, i: nat)
    requires i < |Run(c, es).sessions|
    ensures Speak(c, Run(c, es).sessions[i])
  {
    hide Speak, Affect, ServeRegister;
    var before, e := Run(c, es[..|es| - 1]), es[|es| - 1];
    if i < |before.sessions| {
      RunSpeaks(c, es[..|es| - 1], i);
      if Enabled(before, e) && !e.Opens? && e.i == i { AffectSpeaks(c, before.sessions[i], e, before.servers); }
    } else {
      assert Speak(c, Fresh(e.peer)) by { FreshSpeaks(c, e.peer); }
    }
  }

  lemma FreshSpeaks(c: Crypto, peer: Peer)
    ensures Speak(c, Fresh(peer))
  {
  }

  lemma ServerSaysEncodable(p: SocketPacket)
    requires ServerSays(p)
    ensures Encodable(p)
  {
    hide EncodeUtf8;
    if p.ProxyError? { ShortErrorFits(p.message); }
  }

  lemma ShortErrorFits(message: string)
    requires |message| < 100
    ensures Encodable(ProxyError(message))
  {
    hide EncodeUtf8;
    AtMostFourBytes(message);
  }

  /** A hello is carried exactly when the hostname in it leaves room for the other fields. */
  lemma HelloFits(c: Crypto, secret: Secret, hostname: string)
    requires |EncodeUtf8(hostname)| <= USIZE_MAX
    ensures Encodable(HelloOf(c, secret, hostname)) <==> |EncodeUtf8(hostname)| <= 32717
  {
    hide EncodeUtf8;
  }

  /**
   However the network cuts the streams of a handshake and however much has
   arrived, each side has decoded the first packets the other sent, and in the
   end all, as long as the hostname fits.
   */
  lemma HandshakeCrossesTheWire(c: Crypto, es: seq<Event>, i: nat, toClient: seq<seq<byte>>, toServer: seq<seq<byte>>)
    requires i < |Run(c, es).sessions|
    ensures var x := Run(c, es).sessions[i];
            Flatten(toClient) <= EncodeFrames(x.toClient) ==>
              var d := FeedAll(FRESH, toClient);
              && d.packets <= x.toClient && d.stop == NeedMore
              && (Flatten(toClient) == EncodeFrames(x.toClient) ==> d == Decoded(x.toClient, [], NeedMore))
    ensures var x := Run(c, es).sessions[i];
            x.peer.Honest? && |EncodeUtf8(x.peer.hostname)| <= MAX_HOSTNAME &&
            Flatten(toServer) <= EncodeFrames(x.toServer) ==>
              var d := FeedAll(FRESH, toServer);
              && d.packets <= x.toServer && d.stop == NeedMore
              && (Flatten(toServer) == EncodeFrames(x.toServer) ==> d == Decoded(x.toServer, [], NeedMore))
  {
    hide Run, EncodeFrames, FeedAll, Encodable, Flatten, EncodeUtf8;
    RunSpeaks(c, es, i);
    var x := Run(c, es).sessions[i];
    if Flatten(toClient) <= EncodeFrames(x.toClient) {
      forall p | p in x.toClient ensures Encodable(p) { ServerSaysEncodable(p); }
      StreamRoundTripSoFar(x.toClient, toClient);
    }
    if x.peer.Honest? && |EncodeUtf8(x.peer.hostname)| <= MAX_HOSTNAME &&
       Flatten(toServer) <= EncodeFrames(x.toServer) {
      HelloFits(c, x.peer.secret, x.peer.hostname);
      forall p | p in x.toServer ensures Encodable(p) { ResponseEncodable(p); }
      StreamRoundTripSoFar(x.toServer, toServer);
    }
  }

  lemma ResponseEncodable(p: SocketPacket)
    ensures p.ProxyAuthResponse? ==> Encodable(p)
  {
  }
}
