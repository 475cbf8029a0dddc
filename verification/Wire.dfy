/**
 The multiplexer over the byte stream: which frames of a session the codec
 carries, and the one kind it does not.
 */
module Wire {
  import opened Basics
  import opened Unicode
  import opened ControlCodec
  import opened SocketPackets
  import Mc = Minecraft
  import FirstPacket
  import opened Slots
  import Mux = Multiplexer

  /** The longest chunk a data frame carries: fifteen bits of length, two bytes of them for the id. */
  const MAX_CHUNK: nat := 0x7FFF - 2

  function DownPacket(f: Mux.DownFrame): SocketPacket
    requires f.id < MAXIMUM_CLIENTS && (f.Data? ==> |f.chunk| <= MAX_CHUNK)
  {
    match f
    case Join(id, _) => ProxyJoin(id)
    case Data(id, chunk, _) => ProxyData(id, chunk)
    case Disconnect(id) => ProxyDisconnect(id)
  }

  function UpPacket(f: Mux.UpFrame): SocketPacket
    requires f.id < MAXIMUM_CLIENTS && (f.UpData? ==> |f.chunk| <= MAX_CHUNK)
  {
    match f
    case UpData(id, chunk, _) => ProxyData(id, chunk)
    case UpDisconnect(id) => ProxyDisconnect(id)
  }

  /** On the wire a join, a disconnect and data are the packets of these names, under the same id. */
  lemma WirePackets(id: nat, chunk: Mux.Chunk, k: nat)
    requires id < 255 && |chunk| <= 32765
    ensures DownPacket(Mux.Join(id, k)) == ProxyJoin(id)
    ensures DownPacket(Mux.DownFrame.Disconnect(id)) == ProxyDisconnect(id)
    ensures DownPacket(Mux.Data(id, chunk, k)) == ProxyData(id, chunk)
    ensures UpPacket(Mux.UpData(id, chunk, k)) == ProxyData(id, chunk)
    ensures UpPacket(Mux.UpDisconnect(id)) == ProxyDisconnect(id)
  {
  }

  // What the frames of a session hold

  /** A chunk from one read of the player's socket, or the player's first data. */
  predicate FromPlayer(chunk: Mux.Chunk, owner: nat, ps: seq<Mux.Player>) {
    owner < |ps| && (|chunk| <= 2048 || chunk == ps[owner].first)
  }

  predicate DownFits(t: seq<Mux.DownFrame>, ps: seq<Mux.Player>) {
    forall i | 0 <= i < |t| ::
      t[i].id < 255 && (t[i].Data? ==> FromPlayer(t[i].chunk, t[i].owner, ps))
  }

  predicate QueueFits(q: seq<Mux.ToProxy>, ps: seq<Mux.Player>) {
    forall i | 0 <= i < |q| && !q[i].AddClient? ::
      q[i].id < 255 && (q[i].Forward? ==> FromPlayer(q[i].chunk, q[i].owner, ps))
  }

  predicate UpFits(t: seq<Mux.UpFrame>) {
    forall i | 0 <= i < |t| :: t[i].id < 255 && (t[i].UpData? ==> |t[i].chunk| <= 16384)
  }

  predicate LeaveFits(q: seq<Mux.ToServer>) {
    forall i | 0 <= i < |q| && !q[i].Death? ::
      q[i].id < 255 && (q[i].Packet? ==> |q[i].chunk| <= 16384)
  }

  predicate PlayersFit(ps: seq<Mux.Player>) {
    forall k | 0 <= k < |ps| ::
      ps[k].stage.Assigned? || ps[k].stage.Running? ==> ps[k].stage.id < 255
  }

  predicate ConnsFit(cs: seq<Mux.Conn>) {
    forall j | 0 <= j < |cs| :: cs[j].id < 255
  }

  ghost predicate Fits(s: Mux.State) {
    && PlayersFit(s.players) && QueueFits(s.toProxy, s.players) && DownFits(s.down, s.players)
    && ConnsFit(s.connections) && LeaveFits(s.toServer) && UpFits(s.up)
  }

  /** Players come to stay in the list, and their first data never changes. */
  predicate FirstsKept(ps: seq<Mux.Player>, qs: seq<Mux.Player>) {
    |ps| <= |qs| && forall k | 0 <= k < |ps| :: qs[k].first == ps[k].first
  }

  predicate NewcomersBring(ps: seq<Mux.Player>, qs: seq<Mux.Player>, e: Mux.Event) {
    forall k | |ps| <= k < |qs| :: e.Connect? && qs[k].first == e.first
  }

  lemma StepKeepsFirsts(s: Mux.State, e: Mux.Event)
    requires Mux.WellFormed(s)
    ensures FirstsKept(s.players, Mux.Step(s, e).players) && NewcomersBring(s.players, Mux.Step(s, e).players, e)
  {
    hide FirstFreeFrom, Mux.ClientReads, Mux.ClientWrites, Mux.ServerWrites, Mux.ServerReads, Mux.Listening;
    if Mux.Enabled(s, e) {
      match e {
        case ClientReader => ClientKeepsServer(s);
        case ClientWriter => ClientKeepsServer(s);
        case ServerWriter => ServerKeepsFirsts(s);
        case ServerReader => ServerKeepsFirsts(s);
        case _ =>
      }
    }
  }

  lemma ServerKeepsFirsts(s: Mux.State)
    requires Mux.WellFormed(s)
    ensures s.toProxy != [] ==>
              var t := Mux.ServerWrites(s); |t.players| == |s.players| && FirstsKept(s.players, t.players)
    ensures s.upSeen < |s.up| ==>
              var t := Mux.ServerReads(s); |t.players| == |s.players| && FirstsKept(s.players, t.players)
  {
    hide FirstFreeFrom;
  }

  lemma StillFits(q: seq<Mux.ToProxy>, t: seq<Mux.DownFrame>, ps: seq<Mux.Player>, qs: seq<Mux.Player>)
    requires FirstsKept(ps, qs) && QueueFits(q, ps) && DownFits(t, ps)
    ensures QueueFits(q, qs) && DownFits(t, qs)
  {
  }

  lemma ServerStepFits(s: Mux.State, e: Mux.Event)
    requires Mux.WellFormed(s) && Mux.Enabled(s, e) && Fits(s)
    ensures var t := Mux.Step(s, e);
            PlayersFit(t.players) && QueueFits(t.toProxy, t.players) && DownFits(t.down, t.players)
  {
    hide ConnsFit, LeaveFits, UpFits, FirstsKept;
    hide Mux.ClientReads, Mux.ClientWrites, Mux.ServerWrites, Mux.ServerReads, Mux.Listening;
    var t := Mux.Step(s, e);
    StepKeepsFirsts(s, e);
    StillFits(s.toProxy, s.down, s.players, t.players);
    match e {
      case ClientReader => ClientKeepsServer(s);
      case ClientWriter => ClientKeepsServer(s);
      case ServerWriter => ServerWritesFit(s);
      case ServerReader => ServerReadsFit(s);
      case _ => PlayerStepFits(s, e);
    }
  }

  lemma PlayerStepFits(s: Mux.State, e: Mux.Event)
    requires Mux.WellFormed(s) && Mux.Enabled(s, e) && !e.ServerWriter? && !e.ServerReader?
    requires !e.ClientReader? && !e.ClientWriter?
    requires PlayersFit(s.players) && QueueFits(s.toProxy, s.players) && FirstsKept(s.players, Mux.Step(s, e).players)
    ensures var t := Mux.Step(s, e);
            PlayersFit(t.players) && QueueFits(t.toProxy, t.players) && t.down == s.down
  {
    hide Mux.WellFormed;
  }

  lemma ServerWritesFit(s: Mux.State)
    requires Mux.WellFormed(s) && s.toProxy != [] && FirstsKept(s.players, Mux.ServerWrites(s).players)
    requires PlayersFit(s.players) && QueueFits(s.toProxy, s.players) && DownFits(s.down, s.players)
    ensures var t := Mux.ServerWrites(s);
            PlayersFit(t.players) && QueueFits(t.toProxy, t.players) && DownFits(t.down, t.players)
  {
    var t := Mux.ServerWrites(s);
    hide FirstFreeFrom, Mux.WellFormed;
    StillFits(s.toProxy, s.down, s.players, t.players);
    assert t.toProxy == s.toProxy[1..];
  }

  lemma ServerReadsFit(s: Mux.State)
    requires Mux.WellFormed(s) && s.upSeen < |s.up| && PlayersFit(s.players)
    ensures var t := Mux.ServerReads(s); PlayersFit(t.players) && t.toProxy == s.toProxy && t.down == s.down
  {
  }

  lemma ClientKeepsServer(s: Mux.State)
    requires Mux.WellFormed(s)
    ensures s.seen < |s.down| ==>
              var t := Mux.ClientReads(s); t.players == s.players && t.toProxy == s.toProxy && t.down == s.down
    ensures s.toServer != [] ==>
              var t := Mux.ClientWrites(s); t.players == s.players && t.toProxy == s.toProxy && t.down == s.down
  {
  }

  lemma ClientStepFits(s: Mux.State, e: Mux.Event)
    requires Mux.WellFormed(s) && Mux.Enabled(s, e) && Fits(s)
    ensures var t := Mux.Step(s, e); ConnsFit(t.connections) && LeaveFits(t.toServer) && UpFits(t.up)
  {
    hide PlayersFit, QueueFits, FromPlayer, Mux.WellFormed;
    hide Mux.ServerWrites, Mux.ServerReads, Mux.ClientReads, Mux.ClientWrites, Mux.Listening;
    if e.ServerWriter? || e.ServerReader? { ServerKeepsClient(s); }
    if e.ClientReader? { ClientReadsFit(s); }
    if e.ClientWriter? { ClientWritesFit(s); }
  }

  lemma ClientReadsFit(s: Mux.State)
    requires Mux.WellFormed(s) && s.seen < |s.down| && DownFits(s.down, s.players) && ConnsFit(s.connections)
    ensures var t := Mux.ClientReads(s); ConnsFit(t.connections) && t.toServer == s.toServer && t.up == s.up
  {
    hide Mux.Listening, FromPlayer;
  }

  lemma ClientWritesFit(s: Mux.State)
    requires s.toServer != [] && LeaveFits(s.toServer) && UpFits(s.up)
    ensures var t := Mux.ClientWrites(s);
            t.connections == s.connections && LeaveFits(t.toServer) && UpFits(t.up)
  {
  }

  lemma ServerKeepsClient(s: Mux.State)
    requires Mux.WellFormed(s)
    ensures s.toProxy != [] ==>
              var t := Mux.ServerWrites(s); t.connections == s.connections && t.toServer == s.toServer && t.up == s.up
    ensures s.upSeen < |s.up| ==>
              var t := Mux.ServerReads(s); t.connections == s.connections && t.toServer == s.toServer && t.up == s.up
  {
  }

  /**
   In every run all ids are below 255, data going down is at most one read of a
   player's socket, or that player's first data, and data going up at most one
   read of a connection's socket.
   */
  lemma {:induction false} RunFits(es: seq<Mux.Event>)
    ensures Fits(Mux.Run(es))
  {
    hide Fits, Mux.Step, Mux.WellFormed;
    if es == [] {
      assert Fits(Mux.Start()) by { StartFits(); }
    } else {
      RunFits(es[..|es| - 1]);
      StepFits(Mux.Run(es[..|es| - 1]), es[|es| - 1]);
    }
  }

  lemma StartFits()
    ensures Fits(Mux.Start())
  {
  }

  lemma StepFits(s: Mux.State, e: Mux.Event)
    requires Mux.WellFormed(s) && Fits(s)
    ensures Fits(Mux.Step(s, e))
  {
    hide Mux.Apply, Mux.WellFormed;
    if Mux.Enabled(s, e) {
      ServerStepFits(s, e);
      ClientStepFits(s, e);
    }
  }

  // When every frame can be carried

  predicate ShortFirst(e: Mux.Event) {
    e.Connect? ==> |e.first| <= MAX_CHUNK
  }

  predicate DownCarried(t: seq<Mux.DownFrame>) {
    forall i | 0 <= i < |t| :: t[i].id < MAXIMUM_CLIENTS && (t[i].Data? ==> |t[i].chunk| <= MAX_CHUNK)
  }

  predicate UpCarried(t: seq<Mux.UpFrame>) {
    forall i | 0 <= i < |t| :: t[i].id < MAXIMUM_CLIENTS && (t[i].UpData? ==> |t[i].chunk| <= MAX_CHUNK)
  }

  predicate ShortFirsts(ps: seq<Mux.Player>) {
    forall k | 0 <= k < |ps| :: |ps[k].first| <= MAX_CHUNK
  }

  lemma {:induction false} FirstsShort(es: seq<Mux.Event>)
    requires forall e | e in es :: ShortFirst(e)
    ensures ShortFirsts(Mux.Run(es).players)
  {
    hide Mux.Step, Mux.WellFormed;
    if es != [] {
      var before, e := Mux.Run(es[..|es| - 1]), es[|es| - 1];
      FirstsShort(es[..|es| - 1]);
      StepKeepsFirsts(before, e);
      NewFirstShort(before.players, Mux.Step(before, e).players, e);
    }
  }

  lemma NewFirstShort(ps: seq<Mux.Player>, qs: seq<Mux.Player>, e: Mux.Event)
    requires ShortFirsts(ps) && FirstsKept(ps, qs) && ShortFirst(e)
    requires NewcomersBring(ps, qs, e)
    ensures ShortFirsts(qs)
  {
    forall k | 0 <= k < |qs| ensures |qs[k].first| <= MAX_CHUNK {
      if k < |ps| { assert qs[k].first == ps[k].first; }
    }
  }

  lemma RunCarried(es: seq<Mux.Event>)
    requires forall e | e in es :: ShortFirst(e)
    ensures DownCarried(Mux.Run(es).down) && UpCarried(Mux.Run(es).up)
  {
    hide Mux.Run;
    RunFits(es);
    FirstsShort(es);
  }

  function DownPackets(t: seq<Mux.DownFrame>): seq<SocketPacket>
    requires DownCarried(t)
  {
    seq(|t|, i requires 0 <= i < |t| => DownPacket(t[i]))
  }

  function UpPackets(t: seq<Mux.UpFrame>): seq<SocketPacket>
    requires UpCarried(t)
  {
    seq(|t|, i requires 0 <= i < |t| => UpPacket(t[i]))
  }

  lemma SmallPacketsEncodable(p: SocketPacket)
    requires p.ProxyJoin? || p.ProxyDisconnect? ||
             (p.ProxyData? && p.clientId < MAXIMUM_CLIENTS && |p.data| <= MAX_CHUNK)
    ensures Encodable(p)
  {
  }

  /**
   Whatever the players and the Minecraft server do, however the network cuts the
   two streams and however much of them has arrived, each side has decoded
   exactly the first frames the other wrote, and all of them once everything is
   there, provided every player's first data is short enough.
   */
  lemma SessionCrossesTheWire(es: seq<Mux.Event>, downChunks: seq<seq<byte>>, upChunks: seq<seq<byte>>)
    requires forall e | e in es :: ShortFirst(e)
    ensures var s := Mux.Run(es);
            DownCarried(s.down) && UpCarried(s.up)
    ensures var sent := DownPackets(Mux.Run(es).down);
            Flatten(downChunks) <= EncodeFrames(sent) ==>
              var d := FeedAll(FRESH, downChunks);
              && d.packets <= sent && d.stop == NeedMore && EncodeFrames(d.packets) + d.rest == Flatten(downChunks)
              && (Flatten(downChunks) == EncodeFrames(sent) ==> d == Decoded(sent, [], NeedMore))
    ensures var sent := UpPackets(Mux.Run(es).up);
            Flatten(upChunks) <= EncodeFrames(sent) ==>
              var d := FeedAll(FRESH, upChunks);
              && d.packets <= sent && d.stop == NeedMore && EncodeFrames(d.packets) + d.rest == Flatten(upChunks)
              && (Flatten(upChunks) == EncodeFrames(sent) ==> d == Decoded(sent, [], NeedMore))
  {
    hide Mux.Run, EncodeFrames, FeedAll, Encodable, Flatten;
    RunCarried(es);
    var down, up := DownPackets(Mux.Run(es).down), UpPackets(Mux.Run(es).up);
    forall p | p in down ensures Encodable(p) { SmallPacketsEncodable(p); }
    forall p | p in up ensures Encodable(p) { SmallPacketsEncodable(p); }
    if Flatten(downChunks) <= EncodeFrames(down) { StreamRoundTripSoFar(down, downChunks); }
    if Flatten(upChunks) <= EncodeFrames(up) { StreamRoundTripSoFar(up, upChunks); }
  }

  // The first data of a player has no limit of its own

  /** Forwarding a player's first data is faithful exactly when it is no longer than a frame carries. */
  lemma FirstDataLimit(id: nat, data: seq<byte>, suffix: seq<byte>)
    requires id < MAXIMUM_CLIENTS && |data| <= USIZE_MAX
    ensures DecodeFrame(EncodeFrame(ProxyData(id, data)) + suffix) == (Packet(ProxyData(id, data)), suffix) <==>
            |data| <= 32765
  {
    FaithfulExactlyWhenEncodable(ProxyData(id, data), suffix);
  }

  /**
   The limit is reached: a legacy login with a user name of n letters is a
   complete first packet for every n, but from 16378 letters on (the longest
   name has 65535) the frame it is forwarded in is not read back.
   */
  lemma LongLogin(id: nat, n: nat)
    requires id < MAXIMUM_CLIENTS && n < 0x1_0000
    ensures |EncodeUtf16(Letters(n))| == n && |EncodeUtf16("")| == 0
    ensures var login := Mc.EncodeOldConnect(73, Letters(n), "", 25565);
            && FirstPacket.Search([], [FirstPacket.Bytes(login)]).Found?
            && FirstPacket.Search([], [FirstPacket.Bytes(login)]).data == login
            && (DecodeFrame(EncodeFrame(ProxyData(id, login))) == (Packet(ProxyData(id, login)), []) <==> n < 16378)
  {
    LettersTakeOne(n);
    var name := Letters(n);
    var login := Mc.EncodeOldConnect(73, name, "", 25565);
    LoginLength(73, name, "", 25565);
    hide EncodeFrame, DecodeFrame, Mc.EncodeOldConnect, Mc.ParseHello, EncodeUtf16;
    Mc.OldConnectRoundTrip(73, name, "", 25565, []);
    assert login + [] == login && [] + login == login;
    FirstDataLimit(id, login, []);
    var frame := EncodeFrame(ProxyData(id, login));
    assert frame + [] == frame;
  }

  lemma LoginLength(version: byte, user: string, host: string, port: u32)
    requires |EncodeUtf16(user)| < 0x1_0000 && |EncodeUtf16(host)| < 0x1_0000
    ensures |Mc.EncodeOldConnect(version, user, host, port)| == 10 + 2 * |EncodeUtf16(user)| + 2 * |EncodeUtf16(host)|
  {
    hide EncodeUtf16;
  }
}
