/**
 The client's handshake against the server's: what a client may conclude when it
 is told that it is connected, and how every handshake of an honest client ends.
 */
module Handshake {
  import opened Basics
  import opened ControlCodec
  import opened Registers
  import opened Sessions
  import opened Registration

  // Agreement, in every run

  /** The event number `n` confirms the session's registration, and the register names this session. */
  ghost predicate ConfirmedAt(c: Crypto, es: seq<Event>, n: nat, i: nat) {
    && n < |es| && es[n].ServerMoves? && es[n].i == i
    && var s := Run(c, es[..n]);
    && i < |s.sessions| && s.sessions[i].server.Registered?
    && Find(s.servers, s.sessions[i].server.hello.hostname) == Some(i)
  }

  /** As `ConfirmedAt`, with the hostname and the key of the session's honest client. */
  ghost predicate ConfirmedForClient(c: Crypto, es: seq<Event>, n: nat, i: nat) {
    && ConfirmedAt(c, es, n, i)
    && var x := Run(c, es[..n]).sessions[i];
    && x.peer.Honest?
    && x.server.hello.hostname == x.peer.hostname && x.server.hello.publicKey == c.publicKey(x.peer.secret)
    && Hostname(c, c.publicKey(x.peer.secret)) == x.peer.hostname
  }

  /** What an honest client has sent and concluded. */
  ghost predicate ClientHonest(c: Crypto, x: Session) {
    x.peer.Honest? ==>
      && (forall a | 0 <= a < |x.toServer| && x.toServer[a].ProxyHello? ::
            x.toServer[a] == HelloOf(c, x.peer.secret, x.peer.hostname))
      && x.read <= |x.toClient|
      && (x.peer.stage == Finished(Connected) ==> exists a :: 0 <= a < x.read && x.toClient[a].ProxyHelloResponse?)
  }

  lemma AffectHonest(c: Crypto, x: Session, e: Event, servers: Servers)
    requires ClientHonest(c, x) && Possible(x, e)
    ensures var y := Affect(c, x, e, servers);
            ClientHonest(c, y) && y.peer.Honest? == x.peer.Honest? && x.toClient <= y.toClient
    ensures x.peer.Honest? ==>
              var y := Affect(c, x, e, servers);
              y.peer.secret == x.peer.secret && y.peer.hostname == x.peer.hostname
    ensures var y := Affect(c, x, e, servers);
            forall a | |x.toClient| <= a < |y.toClient| && y.toClient[a].ProxyHelloResponse? ::
              e.ServerMoves? && x.server.Registered?
  {
    var y := Affect(c, x, e, servers);
    if x.peer.Honest? && y.peer.stage == Finished(Connected) {
      if x.peer.stage == Finished(Connected) {
        var a :| 0 <= a < x.read && x.toClient[a].ProxyHelloResponse?;
        assert y.toClient[a] == x.toClient[a];
      } else {
        assert y.toClient[x.read].ProxyHelloResponse?;
      }
    }
  }

  lemma {:induction false} RunHonest(c: Crypto, es: seq<Event>, i: nat)
    requires i < |Run(c, es).sessions|
    ensures ClientHonest(c, Run(c, es).sessions[i])
  {
    hide ClientHonest, Affect;
    var before, e := Run(c, es[..|es| - 1]), es[|es| - 1];
    if i < |before.sessions| {
      RunHonest(c, es[..|es| - 1], i);
      if Enabled(before, e) && !e.Opens? && e.i == i {
        AffectHonest(c, before.sessions[i], e, before.servers);
      }
    } else {
      FreshHonest(c, e.peer);
    }
  }

  lemma FreshHonest(c: Crypto, peer: Peer)
    requires peer.Honest? ==> peer.stage.Begin?
    ensures ClientHonest(c, Fresh(peer))
  {
  }

  /** A confirmation in the stream was sent while the register named this very session. */
  lemma {:induction false} ResponseMeansConfirmed(c: Crypto, es: seq<Event>, i: nat, a: nat)
    requires var s := Run(c, es);
             i < |s.sessions| && a < |s.sessions[i].toClient| && s.sessions[i].toClient[a].ProxyHelloResponse?
    ensures exists n :: ConfirmedAt(c, es, n, i)
  {
    hide Affect, ConfirmedAt, ClientHonest, ServeRegister;
    var m := |es| - 1;
    var before, e := Run(c, es[..m]), es[m];
    assert i < |before.sessions|;
    if a < |before.sessions[i].toClient| {
      if Enabled(before, e) && !e.Opens? && e.i == i {
        RunHonest(c, es[..m], i);
        AffectHonest(c, before.sessions[i], e, before.servers);
      }
      ResponseMeansConfirmed(c, es[..m], i, a);
      var n :| ConfirmedAt(c, es[..m], n, i);
      StillConfirmed(c, es, m, n, i);
    } else {
      RunHonest(c, es[..m], i);
      AffectHonest(c, before.sessions[i], e, before.servers);
      ConfirmedNow(c, es, m, i);
    }
  }

  lemma StillConfirmed(c: Crypto, es: seq<Event>, m: nat, n: nat, i: nat)
    requires m <= |es| && ConfirmedAt(c, es[..m], n, i)
    ensures ConfirmedAt(c, es, n, i)
  {
    assert es[..m][..n] == es[..n];
  }

  lemma ConfirmedNow(c: Crypto, es: seq<Event>, m: nat, i: nat)
    requires m < |es| && es[m].ServerMoves? && es[m].i == i
    requires i < |Run(c, es[..m]).sessions| && Run(c, es[..m]).sessions[i].server.Registered?
    ensures ConfirmedAt(c, es, m, i)
  {
    hide Run;
    RunInv(c, es[..m]);
    var s := Run(c, es[..m]);
    assert Holds(s, i, s.sessions[i].server.hello.hostname);
  }

  /** The peer of a session is who opened it. */
  lemma {:induction false} SamePeer(c: Crypto, es: seq<Event>, n: nat, i: nat)
    requires n <= |es| && i < |Run(c, es[..n]).sessions|
    ensures i < |Run(c, es).sessions|
    ensures var p, q := Run(c, es[..n]).sessions[i].peer, Run(c, es).sessions[i].peer;
            p.Honest? == q.Honest? && (p.Honest? ==> p.secret == q.secret && p.hostname == q.hostname)
    decreases |es|
  {
    hide Affect, ServeRegister;
    if n == |es| {
      assert es[..n] == es;
    } else {
      var m := |es| - 1;
      assert es[..m][..n] == es[..n];
      SamePeer(c, es[..m], n, i);
      RunHonest(c, es[..m], i);
      var before, e := Run(c, es[..m]), es[m];
      if Enabled(before, e) && !e.Opens? && e.i == i {
        AffectHonest(c, before.sessions[i], e, before.servers);
      }
    }
  }

  /**
   A client is told that it is connected only if, when the server said so, the
   register mapped the client's own hostname to this session and the session
   had checked the client's own key.
   */
  lemma ConnectedMeansRegistered(c: Crypto, es: seq<Event>, i: nat)
    requires var s := Run(c, es);
             i < |s.sessions| && s.sessions[i].peer.Honest? && s.sessions[i].peer.stage == Finished(Connected)
    ensures exists n :: ConfirmedForClient(c, es, n, i)
    ensures forall n | ConfirmedAt(c, es, n, i) :: ConfirmedForClient(c, es, n, i)
  {
    hide Run;
    RunHonest(c, es, i);
    var x := Run(c, es).sessions[i];
    var a :| 0 <= a < x.read && x.toClient[a].ProxyHelloResponse?;
    ResponseMeansConfirmed(c, es, i, a);
    forall n | ConfirmedAt(c, es, n, i) ensures ConfirmedForClient(c, es, n, i) {
      OwnHello(c, es, n, i);
    }
  }

  lemma OwnHello(c: Crypto, es: seq<Event>, n: nat, i: nat)
    requires ConfirmedAt(c, es, n, i) && i < |Run(c, es).sessions| && Run(c, es).sessions[i].peer.Honest?
    ensures ConfirmedForClient(c, es, n, i)
  {
    hide Run;
    SamePeer(c, es, n, i);
    RunHonest(c, es[..n], i);
    RunInv(c, es[..n]);
    var x := Run(c, es[..n]).sessions[i];
    assert Proved(c, x);
    var a :| 0 <= a < x.taken && x.toServer[a] == ProxyHello(x.server.hello);
    assert x.toServer[a] == HelloOf(c, x.peer.secret, x.peer.hostname);
  }
}
