/**
 What reaches the Minecraft server. As long as no tunnelled connection is ended
 from the Minecraft server's side, every player talks to a connection of its
 own and that connection sees a prefix of what the player sent.
 */
module Isolation {
  import opened Basics
  import opened Slots
  import opened Multiplexer
  import Endings

  /** No connection fails, is reset or is closed from the far side. */
  predicate FarSideStays(es: seq<Event>) {
    forall e | e in es :: !e.ConnEnds? && !e.ConnFails?
  }

  // The stream as a list of sessions, each opened, used and closed by one player

  /** Who holds each id, and who ever held one. */
  datatype View = View(slots: Table, used: set<nat>)

  function TrackFrame(v: View, f: DownFrame): Option<View> {
    match f
    case Join(id, k) =>
      if id < MAXIMUM_CLIENTS && v.slots[id].None? && k !in v.used then
        Some(View(v.slots[id := Some(k)], v.used + {k}))
      else None
    case Data(id, _, k) => if Lookup(v.slots, id) == Some(k) then Some(v) else None
    case Disconnect(id) => if Lookup(v.slots, id).Some? then Some(View(Removed(v.slots, id), v.used)) else None
  }

  /**
   None unless every id is opened while free and closed while open, and every
   data frame on it comes from the player it was opened for.
   */
  function Track(t: seq<DownFrame>): Option<View> {
    if t == [] then Some(View(Empty(), {}))
    else match Track(t[..|t| - 1])
      case None => None
      case Some(v) => TrackFrame(v, t[|t| - 1])
  }

  lemma TrackAppend(t: seq<DownFrame>, f: DownFrame)
    requires Track(t).Some?
    ensures Track(t + [f]) == TrackFrame(Track(t).value, f)
  {
    assert (t + [f])[..|t|] == t;
  }

  lemma {:induction false} TrackPrefix(t: seq<DownFrame>, n: nat)
    requires n <= |t| && Track(t).Some?
    ensures Track(t[..n]).Some?
    ensures n < |t| ==> Track(t[..n + 1]) == TrackFrame(Track(t[..n]).value, t[n])
    decreases |t| - n
  {
    if n == |t| {
      assert t[..n] == t;
    } else {
      TrackPrefix(t, n + 1);
      assert t[..n + 1][..n] == t[..n];
    }
  }

  lemma {:induction false} HoldersAreUsed(t: seq<DownFrame>)
    requires Track(t).Some?
    ensures var v := Track(t).value;
            forall id | 0 <= id < MAXIMUM_CLIENTS && v.slots[id].Some? :: v.slots[id].value in v.used
  {
    if t != [] { HoldersAreUsed(t[..|t| - 1]); }
  }

  // The wire trace of one id

  function OfId(t: seq<DownFrame>, id: nat): seq<DownFrame> {
    if t == [] then []
    else
      var f := t[|t| - 1];
      OfId(t[..|t| - 1], id) + if f.id == id then [f] else []
  }

  /** (Join Data* Disconnect)* with an optional open tail, all data by the player that joined. */
  ghost predicate Sessions(t: seq<DownFrame>, open: Option<nat>) {
    if t == [] then open.None?
    else
      var f, before := t[|t| - 1], t[..|t| - 1];
      match f
      case Join(_, k) => Sessions(before, None) && open == Some(k)
      case Data(_, _, k) => Sessions(before, Some(k)) && open == Some(k)
      case Disconnect(_) => open.None? && exists k :: Sessions(before, Some(k))
  }

  ghost predicate ProperSessions(t: seq<DownFrame>, id: nat) {
    exists open: Option<nat> :: Sessions(OfId(t, id), open)
  }

  lemma SessionsAppend(t: seq<DownFrame>, f: DownFrame, open: Option<nat>)
    requires Sessions(t, open)
    ensures f.Join? && open.None? ==> Sessions(t + [f], Some(f.owner))
    ensures f.Data? && open == Some(f.owner) ==> Sessions(t + [f], open)
    ensures f.Disconnect? && open.Some? ==> Sessions(t + [f], None)
  {
    assert (t + [f])[..|t|] == t;
  }

  lemma {:induction false} TrackedIdsAreSessions(t: seq<DownFrame>, id: nat)
    requires Track(t).Some? && id < MAXIMUM_CLIENTS
    ensures Sessions(OfId(t, id), Track(t).value.slots[id])
  {
    hide Sessions;
    if t == [] {
      assert Sessions([], None) by { EmptySessions(); }
    } else {
      var f, before := t[|t| - 1], t[..|t| - 1];
      TrackedIdsAreSessions(before, id);
      SessionsAppend(OfId(before, id), f, Track(before).value.slots[id]);
      assert OfId(before, id) + [] == OfId(before, id);
      assert f.id != id ==> Track(t).value.slots[id] == Track(before).value.slots[id];
    }
  }

  lemma EmptySessions()
    ensures Sessions([], None)
  {
  }

  // The queue of the server's writer, looked at as if it had been written already

  datatype Future = Stuck | Full | Settled(view: View)

  function FutureStep(v: View, m: ToProxy): Future {
    match m
    case AddClient(k) =>
      if k in v.used then Stuck
      else if FirstFree(v.slots) == MAXIMUM_CLIENTS then Full
      else Settled(View(Inserted(v.slots, k), v.used + {k}))
    case Forward(id, _, k) => if Lookup(v.slots, id) == Some(k) then Settled(v) else Stuck
    case RemoveClient(id, k) =>
      if Lookup(v.slots, id) == Some(k) then Settled(View(Removed(v.slots, id), v.used)) else Stuck
  }

  function FutureOf(v: View, q: seq<ToProxy>): Future
    decreases |q|
  {
    if q == [] then Settled(v)
    else match FutureStep(v, q[0])
      case Settled(w) => FutureOf(w, q[1..])
      case Stuck => Stuck
      case Full => Full
  }

  lemma {:induction false} FutureAppend(v: View, q: seq<ToProxy>, m: ToProxy)
    ensures FutureOf(v, q + [m]) ==
            var f := FutureOf(v, q); if f.Settled? then FutureStep(f.view, m) else f
    decreases |q|
  {
    hide FutureStep;
    if q == [] {
      assert [m][1..] == [];
    } else {
      assert (q + [m])[1..] == q[1..] + [m];
      var f := FutureStep(v, q[0]);
      if f.Settled? { FutureAppend(f.view, q[1..], m); }
    }
  }

  /** A player that was let in and still holds an id at the end holds it all along. */
  lemma {:induction false} FutureKeeps(v: View, q: seq<ToProxy>, id: nat, k: nat)
    requires FutureOf(v, q).Settled? && k in v.used
    requires Lookup(FutureOf(v, q).view.slots, id) == Some(k)
    ensures Lookup(v.slots, id) == Some(k)
    decreases |q|
  {
    if q != [] { FutureKeeps(FutureStep(v, q[0]).view, q[1..], id, k); }
  }

  // Chunks on their way

  function DownChunks(t: seq<DownFrame>, k: nat): seq<Chunk> {
    if t == [] then []
    else
      var f := t[|t| - 1];
      DownChunks(t[..|t| - 1], k) + if f.Data? && f.owner == k then [f.chunk] else []
  }

  function QueuedChunks(q: seq<ToProxy>, k: nat): seq<Chunk> {
    if q == [] then []
    else (if q[0].Forward? && q[0].owner == k then [q[0].chunk] else []) + QueuedChunks(q[1..], k)
  }

  lemma DownAppend(t: seq<DownFrame>, f: DownFrame, k: nat)
    ensures DownChunks(t + [f], k) == DownChunks(t, k) + if f.Data? && f.owner == k then [f.chunk] else []
  {
    assert (t + [f])[..|t|] == t;
  }

  lemma {:induction false} QueueAppend(q: seq<ToProxy>, m: ToProxy, k: nat)
    ensures QueuedChunks(q + [m], k) == QueuedChunks(q, k) + if m.Forward? && m.owner == k then [m.chunk] else []
  {
    if q == [] {
      assert [m][1..] == [];
    } else {
      assert (q + [m])[1..] == q[1..] + [m];
      QueueAppend(q[1..], m, k);
    }
  }

  /** A player that never held an id has nothing on the stream. */
  lemma {:induction false} UnusedHasNoChunks(t: seq<DownFrame>, k: nat)
    requires Track(t).Some? && k !in Track(t).value.used
    ensures DownChunks(t, k) == []
  {
    if t != [] {
      UnusedHasNoChunks(t[..|t| - 1], k);
      HoldersAreUsed(t[..|t| - 1]);
    }
  }

  lemma {:induction false} DownChunksPrefix(t: seq<DownFrame>, n: nat, k: nat)
    requires n <= |t|
    ensures DownChunks(t[..n], k) <= DownChunks(t, k)
    decreases |t|
  {
    if n == |t| {
      assert t[..n] == t;
    } else {
      assert t[..|t| - 1][..n] == t[..n];
      DownChunksPrefix(t[..|t| - 1], n, k);
    }
  }

  // The server's half of the invariant

  function SentOf(s: State, k: nat): seq<Chunk> {
    if k < |s.players| then s.players[k].sent else []
  }

  /** How a player's stage shows in the slots once everything queued has been written. */
  ghost predicate Fits(p: Player, k: nat, now: View, later: View) {
    match p.stage
    case Waiting => k !in now.used && exists id | 0 <= id < MAXIMUM_CLIENTS :: later.slots[id] == Some(k)
    case Assigned(id) => k in now.used && Lookup(later.slots, id) == Some(k)
    case Running(id) => k in now.used && Lookup(later.slots, id) == Some(k)
    case Gone => k in now.used
  }

  ghost predicate PlayersFit(ps: seq<Player>, now: View, later: View) {
    && (forall k | k in later.used :: k < |ps|)
    && forall k | 0 <= k < |ps| :: Fits(ps[k], k, now, later)
  }

  ghost predicate Accounted(s: State) {
    forall k: nat :: SentOf(s, k) == DownChunks(s.down, k) + QueuedChunks(s.toProxy, k)
  }

  ghost predicate ServerInv(s: State) {
    && Track(s.down).Some?
    && var now := Track(s.down).value;
    && now.slots == s.slots
    && !FutureOf(now, s.toProxy).Stuck?
    && (FutureOf(now, s.toProxy).Settled? ==> PlayersFit(s.players, now, FutureOf(now, s.toProxy).view))
  }

  lemma {:induction false} UsedGrows(v: View, q: seq<ToProxy>)
    requires FutureOf(v, q).Settled?
    ensures v.used <= FutureOf(v, q).view.used
    decreases |q|
  {
    if q != [] { UsedGrows(FutureStep(v, q[0]).view, q[1..]); }
  }

  /** A change to other players' slots does not concern player `k`. */
  lemma FitsStays(p: Player, k: nat, now: View, later: View, next: View, after: View)
    requires Fits(p, k, now, later)
    requires k in next.used <==> k in now.used
    requires forall id | 0 <= id < MAXIMUM_CLIENTS && later.slots[id] == Some(k) :: after.slots[id] == Some(k)
    ensures Fits(p, k, next, after)
  {
    if p.stage.Waiting? {
      var id :| 0 <= id < MAXIMUM_CLIENTS && later.slots[id] == Some(k);
      assert after.slots[id] == Some(k);
    }
  }

  lemma ConnectServer(s: State, first: Chunk)
    requires WellFormed(s) && !s.ended && ServerInv(s)
    ensures ServerInv(Apply(s, Connect(first)))
  {
    hide Fits;
    var now, k, m := Track(s.down).value, |s.players|, AddClient(|s.players|);
    FutureAppend(now, s.toProxy, m);
    var t := Apply(s, Connect(first));
    var later, after := FutureOf(now, s.toProxy), FutureOf(now, t.toProxy);
    if later.Settled? && after.Settled? {
      UsedGrows(now, s.toProxy);
      NewcomerFits(t.players[k], k, now, later.view);
      forall i | 0 <= i < k ensures Fits(t.players[i], i, now, after.view) {
        FitsStays(s.players[i], i, now, later.view, now, after.view);
      }
    }
  }

  lemma NewcomerFits(p: Player, k: nat, now: View, later: View)
    requires p.stage.Waiting? && k !in now.used && FirstFree(later.slots) < MAXIMUM_CLIENTS
    ensures Fits(p, k, now, View(Inserted(later.slots, k), later.used + {k}))
  {
    assert Inserted(later.slots, k)[FirstFree(later.slots)] == Some(k);
  }

  lemma HandServer(s: State, k: nat, id: nat, chunk: Chunk)
    requires WellFormed(s) && ServerInv(s)
    requires k < |s.players| && s.players[k].stage == Running(id)
    ensures ServerInv(Hand(s, k, id, chunk))
  {
    FutureAppend(Track(s.down).value, s.toProxy, Forward(id, chunk, k));
  }

  lemma LeaveServer(s: State, k: nat)
    requires WellFormed(s) && ServerInv(s) && IsRunning(s, k)
    ensures ServerInv(LeaveProxy(s, k))
  {
    var now, id := Track(s.down).value, s.players[k].stage.id;
    FutureAppend(now, s.toProxy, RemoveClient(id, k));
    var t := LeaveProxy(s, k);
    var later, after := FutureOf(now, s.toProxy), FutureOf(now, t.toProxy);
    if later.Settled? {
      assert Fits(s.players[k], k, now, later.view);
      assert Fits(t.players[k], k, now, after.view);
      hide Fits;
      forall i | 0 <= i < |s.players| && i != k ensures Fits(t.players[i], i, now, after.view) {
        FitsStays(s.players[i], i, now, later.view, now, after.view);
      }
    }
  }

  lemma WriteAdd(s: State)
    requires WellFormed(s) && ServerInv(s) && s.toProxy != [] && s.toProxy[0].AddClient?
    ensures !ServerWrites(s).ended ==> ServerInv(ServerWrites(s))
  {
    var t, k := ServerWrites(s), s.toProxy[0].player;
    var now, id := Track(s.down).value, FirstFree(s.slots);
    if id < MAXIMUM_CLIENTS {
      TrackAppend(s.down, Join(id, k));
      HoldersAreUsed(s.down);
      var next := Track(t.down).value;
      var f := FutureOf(next, t.toProxy);
      if f.Settled? {
        assert Fits(s.players[k], k, now, f.view);
        var at :| 0 <= at < MAXIMUM_CLIENTS && f.view.slots[at] == Some(k);
        FutureKeeps(next, t.toProxy, at, k);
        assert at == id;
        hide Fits;
        forall i | 0 <= i < |s.players| && i != k ensures Fits(t.players[i], i, next, f.view) {
          FitsStays(s.players[i], i, now, f.view, next, f.view);
        }
        AdmittedFits(t.players[k], k, id, next, f.view);
      }
    }
  }

  lemma AdmittedFits(p: Player, k: nat, id: nat, now: View, later: View)
    requires p.stage == Assigned(id) && k in now.used && Lookup(later.slots, id) == Some(k)
    ensures Fits(p, k, now, later)
  {
  }

  lemma WriteOther(s: State)
    requires WellFormed(s) && ServerInv(s) && s.toProxy != [] && !s.toProxy[0].AddClient?
    ensures ServerInv(ServerWrites(s))
  {
    hide Fits;
    var t, m := ServerWrites(s), s.toProxy[0];
    var f := if m.Forward? then Data(m.id, m.chunk, m.owner) else Disconnect(m.id);
    var now := Track(s.down).value;
    assert t.down == s.down + [f];
    TrackAppend(s.down, f);
    var later := FutureOf(now, s.toProxy);
    if later.Settled? {
      forall i | 0 <= i < |s.players| ensures Fits(t.players[i], i, Track(t.down).value, later.view) {
        FitsStays(s.players[i], i, now, later.view, Track(t.down).value, later.view);
      }
    }
  }

  // Every chunk a player handed over is on the queue or on the stream, in order

  lemma HandAccounted(s: State, k: nat, id: nat, chunk: Chunk)
    requires Accounted(s) && k < |s.players|
    ensures Accounted(Hand(s, k, id, chunk))
  {
    hide DownChunks, QueuedChunks;
    var t := Hand(s, k, id, chunk);
    forall i: nat ensures SentOf(t, i) == DownChunks(t.down, i) + QueuedChunks(t.toProxy, i) {
      var more := if i == k then [chunk] else [];
      QueueAppend(s.toProxy, Forward(id, chunk, k), i);
      assert SentOf(t, i) == SentOf(s, i) + more;
      assert DownChunks(s.down, i) + QueuedChunks(s.toProxy, i) + more ==
             DownChunks(s.down, i) + (QueuedChunks(s.toProxy, i) + more);
    }
  }

  lemma QuietAccounted(s: State, t: State, m: ToProxy)
    requires Accounted(s) && !m.Forward? && t.toProxy == s.toProxy + [m] && t.down == s.down
    requires forall i: nat :: SentOf(t, i) == SentOf(s, i)
    ensures Accounted(t)
  {
    forall i: nat { QueueAppend(s.toProxy, m, i); }
  }

  lemma ChunkMoves(down: seq<DownFrame>, q: seq<ToProxy>, f: DownFrame, k: nat)
    requires q != [] && (q[0].Forward? <==> f.Data?) && (f.Data? ==> f.owner == q[0].owner && f.chunk == q[0].chunk)
    ensures DownChunks(down + [f], k) + QueuedChunks(q[1..], k) == DownChunks(down, k) + QueuedChunks(q, k)
  {
    hide DownChunks;
    DownAppend(down, f, k);
    var moved := if f.Data? && f.owner == k then [f.chunk] else [];
    assert QueuedChunks(q, k) == moved + QueuedChunks(q[1..], k);
  }

  lemma FrameAccounted(s: State, t: State, f: DownFrame)
    requires Accounted(s) && s.toProxy != [] && t.toProxy == s.toProxy[1..] && t.down == s.down + [f]
    requires var m := s.toProxy[0];
             (m.Forward? <==> f.Data?) && (m.Forward? ==> f.owner == m.owner && f.chunk == m.chunk)
    requires forall i: nat :: SentOf(t, i) == SentOf(s, i)
    ensures Accounted(t)
  {
    hide DownChunks, QueuedChunks, SentOf;
    forall i: nat ensures SentOf(t, i) == DownChunks(t.down, i) + QueuedChunks(t.toProxy, i) {
      assert SentOf(s, i) == DownChunks(s.down, i) + QueuedChunks(s.toProxy, i);
      ChunkMoves(s.down, s.toProxy, f, i);
    }
  }

  lemma PopAccounted(s: State, t: State)
    requires Accounted(s) && s.toProxy != [] && !s.toProxy[0].Forward?
    requires t.toProxy == s.toProxy[1..] && t.down == s.down
    requires forall i: nat :: SentOf(t, i) == SentOf(s, i)
    ensures Accounted(t)
  {
    hide DownChunks, SentOf;
    assert forall i: nat :: QueuedChunks(s.toProxy, i) == [] + QueuedChunks(t.toProxy, i);
  }

  lemma WriteAccounted(s: State)
    requires WellFormed(s) && Accounted(s) && s.toProxy != []
    ensures Accounted(ServerWrites(s))
  {
    hide Accounted, FirstFreeFrom;
    var t := ServerWrites(s);
    SentSame(s, t);
    match s.toProxy[0] {
      case AddClient(k) =>
        if FirstFree(s.slots) == MAXIMUM_CLIENTS {
          PopAccounted(s, t);
        } else {
          FrameAccounted(s, t, Join(FirstFree(s.slots), k));
        }
      case Forward(id, chunk, k) => FrameAccounted(s, t, Data(id, chunk, k));
      case RemoveClient(id, _) =>
        if id < MAXIMUM_CLIENTS {
          FrameAccounted(s, t, DownFrame.Disconnect(id));
        } else {
          PopAccounted(s, t);
        }
    }
  }

  // The client's half

  /** Connection `j` belongs to player `k` and is listening. */
  ghost predicate Serves(cs: seq<Conn>, j: nat, id: nat, k: nat) {
    j < |cs| && cs[j].owner == k && cs[j].id == id && !cs[j].stage.Closed?
  }

  /** The client's table names, for every open id, the connection made for the player holding it. */
  ghost predicate Mirrors(table: Table, cs: seq<Conn>, slots: Table) {
    forall id | 0 <= id < MAXIMUM_CLIENTS ::
      match slots[id]
      case None => table[id].None?
      case Some(k) => table[id].Some? && Serves(cs, table[id].value, id, k)
  }

  ghost predicate OwnersDistinct(cs: seq<Conn>) {
    forall i, j | 0 <= i < j < |cs| :: cs[i].owner != cs[j].owner
  }

  /** What a connection got is all its player has on the stream so far. */
  ghost predicate Delivered(cs: seq<Conn>, seen: seq<DownFrame>) {
    forall j | 0 <= j < |cs| :: cs[j].delivered + cs[j].inbox == DownChunks(seen, cs[j].owner)
  }

  ghost predicate ClientInv(s: State) {
    && s.seen <= |s.down|
    && var seen := s.down[..s.seen];
    && Track(seen).Some?
    && Mirrors(s.conns.table, s.connections, Track(seen).value.slots)
    && (forall j | 0 <= j < |s.connections| :: s.connections[j].owner in Track(seen).value.used)
    && OwnersDistinct(s.connections)
    && Delivered(s.connections, seen)
  }

  /** Nobody on the far side has hung up. */
  ghost predicate UpQuiet(s: State) {
    && !s.clientNotFound && s.disconnects == []
    && (forall m | m in s.toServer :: m.Packet?)
    && (forall f | f in s.up :: f.UpData?)
  }

  lemma ReadJoin(s: State, id: nat, k: nat)
    requires WellFormed(s) && ClientInv(s) && Track(s.down).Some? && UpQuiet(s)
    requires s.seen < |s.down| && s.down[s.seen] == Join(id, k)
    ensures var t := ClientReads(s); ClientInv(t) && UpQuiet(t) && t.ended == s.ended
  {
    hide Track, DownChunks;
    var seen, f := s.down[..s.seen], s.down[s.seen];
    TrackPrefix(s.down, s.seen);
    TrackPrefix(s.down, s.seen + 1);
    assert s.down[..s.seen + 1] == seen + [f];
    forall i: nat { DownAppend(seen, f, i); }
    UnusedHasNoChunks(seen, k);
  }

  lemma ReadData(s: State, id: nat, chunk: Chunk, k: nat)
    requires WellFormed(s) && ClientInv(s) && Track(s.down).Some? && UpQuiet(s)
    requires s.seen < |s.down| && s.down[s.seen] == Data(id, chunk, k)
    ensures var t := ClientReads(s); ClientInv(t) && UpQuiet(t) && t.ended == s.ended
  {
    hide Track, DownChunks;
    var seen, f := s.down[..s.seen], s.down[s.seen];
    TrackPrefix(s.down, s.seen);
    TrackPrefix(s.down, s.seen + 1);
    assert s.down[..s.seen + 1] == seen + [f];
    forall i: nat { DownAppend(seen, f, i); }
    var j := s.conns.table[id].value;
    assert Serves(s.connections, j, id, k);
    assert SendOutcome(s.conns, id, Listening(s)) == Sent(j);
  }

  lemma ReadDisconnect(s: State, id: nat)
    requires WellFormed(s) && ClientInv(s) && Track(s.down).Some? && UpQuiet(s)
    requires s.seen < |s.down| && s.down[s.seen] == DownFrame.Disconnect(id)
    ensures var t := ClientReads(s); ClientInv(t) && UpQuiet(t) && t.ended == s.ended
  {
    hide Track, DownChunks;
    var seen, f := s.down[..s.seen], s.down[s.seen];
    TrackPrefix(s.down, s.seen);
    TrackPrefix(s.down, s.seen + 1);
    assert s.down[..s.seen + 1] == seen + [f];
    forall i: nat { DownAppend(seen, f, i); }
  }

  // The whole session

  ghost predicate Inv(s: State) {
    && WellFormed(s) && Accounted(s) && Track(s.down).Some? && (!s.ended ==> ServerInv(s))
    && ClientInv(s) && UpQuiet(s)
  }

  /** Steps of the server leave what the client has seen alone. */
  lemma ServerSide(s: State, t: State)
    requires ClientInv(s) && UpQuiet(s) && s.down <= t.down
    requires t.seen == s.seen && t.conns == s.conns && t.connections == s.connections
    requires t.toServer == s.toServer && t.disconnects == s.disconnects && t.up == s.up
    requires t.clientNotFound == s.clientNotFound
    ensures ClientInv(t) && UpQuiet(t)
  {
    assert t.down[..t.seen] == s.down[..s.seen];
  }

  /** A connection changes, but neither its id nor its owner nor the sequence of its chunks. */
  lemma ConnSide(s: State, j: nat, c: Conn)
    requires ClientInv(s) && j < |s.connections|
    requires c.id == s.connections[j].id && c.owner == s.connections[j].owner
    requires c.delivered + c.inbox == s.connections[j].delivered + s.connections[j].inbox
    requires c.stage.Closed? ==> s.connections[j].stage.Closed? || Lookup(s.conns.table, c.id) != Some(j)
    ensures ClientInv(SetConn(s, j, c))
  {
    hide Track, DownChunks;
    var t := SetConn(s, j, c);
    var slots := Track(s.down[..s.seen]).value.slots;
    forall id | 0 <= id < MAXIMUM_CLIENTS && slots[id].Some?
      ensures Serves(t.connections, t.conns.table[id].value, id, slots[id].value)
    {
      assert Serves(s.connections, s.conns.table[id].value, id, slots[id].value);
    }
  }

  lemma ServerStepKeeps(s: State, e: Event)
    requires Inv(s) && Enabled(s, e)
    requires e.Connect? || e.SendFirst? || e.PlayerSends? || e.PlayerLeaves? || e.PlayerDropped? || e.ServerWriter?
    ensures Inv(Step(s, e))
  {
    hide Track, DownChunks, QueuedChunks, FutureOf, ClientInv, Accounted, ServerInv;
    StepWellFormed(s, e);
    var t := Step(s, e);
    match e {
      case Connect(first) =>
        ConnectServer(s, first);
        QuietAccounted(s, t, AddClient(|s.players|)) by { SentSame(s, t); }
      case SendFirst(k) => SendFirstKeeps(s, k);
      case PlayerSends(k, chunk) =>
        HandServer(s, k, s.players[k].stage.id, chunk);
        HandAccounted(s, k, s.players[k].stage.id, chunk);
      case PlayerLeaves(k) =>
        LeaveServer(s, k);
        QuietAccounted(s, t, RemoveClient(s.players[k].stage.id, k)) by { SentSame(s, t); }
      case PlayerDropped(k) =>
        LeaveServer(s, k);
        QuietAccounted(s, t, RemoveClient(s.players[k].stage.id, k)) by { SentSame(s, t); }
      case ServerWriter =>
        if s.toProxy[0].AddClient? { WriteAdd(s); } else { WriteOther(s); }
        WriteAccounted(s);
        if !t.ended { TrackOfInv(t); }
    }
    ServerSide(s, t);
  }

  lemma TrackOfInv(s: State)
    requires ServerInv(s)
    ensures Track(s.down).Some?
  {
  }

  lemma SentSame(s: State, t: State)
    requires |s.players| <= |t.players|
    requires forall k | 0 <= k < |s.players| :: t.players[k].sent == s.players[k].sent
    requires forall k | |s.players| <= k < |t.players| :: t.players[k].sent == []
    ensures forall i: nat :: SentOf(t, i) == SentOf(s, i)
  {
  }

  lemma SendFirstKeeps(s: State, k: nat)
    requires Inv(s) && Enabled(s, SendFirst(k))
    ensures var t := Apply(s, SendFirst(k)); ServerInv(t) && Accounted(t)
  {
    hide Track, DownChunks, QueuedChunks, FutureOf, ClientInv;
    var id, first := s.players[k].stage.id, s.players[k].first;
    var t := SetStage(s, k, Running(id));
    assert ServerInv(t);
    SentSame(s, t);
    assert Accounted(t);
    HandServer(t, k, id, first);
    HandAccounted(t, k, id, first);
  }

  lemma OtherStepKeeps(s: State, e: Event)
    requires Inv(s) && Enabled(s, e) && !e.ConnEnds? && !e.ConnFails?
    requires !e.Connect? && !e.SendFirst? && !e.PlayerSends? && !e.PlayerLeaves? && !e.PlayerDropped?
    requires !e.ServerWriter? && !e.ClientReader?
    ensures Inv(Step(s, e))
  {
    hide Track, DownChunks, QueuedChunks, FutureOf, ClientInv, ServerWrites, ClientReads, ServerReads, Listening;
    StepWellFormed(s, e);
    var t := Step(s, e);
    match e {
      case PlayerReceives(k) =>
        SentSame(s, t);
        ServerSide(s, t);
      case ServerReader => ReadUpKeeps(s);
      case ConnOpens(j) => ConnSide(s, j, s.connections[j].(stage := Open));
      case ConnReceives(j) => ConnSide(s, j, t.connections[j]);
      case ConnDropped(j) => ConnSide(s, j, s.connections[j].(stage := Closed));
      case ConnSends(j, chunk) =>
        ConnSide(s, j, t.connections[j]);
        UpSide(SetConn(s, j, t.connections[j]), t);
      case ClientWriter =>
        assert s.toServer[0].Packet?;
        UpSide(s, t);
    }
  }

  lemma ReadUpKeeps(s: State)
    requires Inv(s) && s.upSeen < |s.up|
    ensures Inv(ServerReads(s))
  {
    hide Track, DownChunks, QueuedChunks, FutureOf, ClientInv;
    ServerReadsWellFormed(s);
    var t := ServerReads(s);
    assert s.up[s.upSeen].UpData?;
    SentSame(s, t);
    ServerSide(s, t);
  }

  /** The client sends upwards. */
  lemma UpSide(s: State, t: State)
    requires ClientInv(s) && t.down == s.down && t.seen == s.seen
    requires t.conns == s.conns && t.connections == s.connections
    ensures ClientInv(t)
  {
  }

  lemma ReadStepKeeps(s: State)
    requires Inv(s) && Enabled(s, ClientReader)
    ensures Inv(Step(s, ClientReader))
  {
    hide Track, DownChunks, QueuedChunks, FutureOf, ClientInv;
    StepWellFormed(s, ClientReader);
    SentSame(s, Step(s, ClientReader));
    match s.down[s.seen] {
      case Join(id, k) => ReadJoin(s, id, k);
      case Data(id, chunk, k) => ReadData(s, id, chunk, k);
      case Disconnect(id) => ReadDisconnect(s, id);
    }
  }

  lemma StepKeeps(s: State, e: Event)
    requires Inv(s) && !e.ConnEnds? && !e.ConnFails?
    ensures Inv(Step(s, e))
  {
    hide Inv, Apply;
    assert WellFormed(s) by { InvWellFormed(s); }
    if Enabled(s, e) {
      if e.ClientReader? {
        ReadStepKeeps(s);
      } else if e.Connect? || e.SendFirst? || e.PlayerSends? || e.PlayerLeaves? || e.PlayerDropped? || e.ServerWriter? {
        ServerStepKeeps(s, e);
      } else {
        OtherStepKeeps(s, e);
      }
    }
  }

  lemma InvWellFormed(s: State)
    requires Inv(s)
    ensures WellFormed(s)
  {
  }

  lemma StartInv()
    ensures Inv(Start())
  {
    var s := Start();
    assert FutureOf(View(Empty(), {}), []) == Settled(View(Empty(), {}));
  }

  lemma {:induction false} RunInv(es: seq<Event>)
    requires FarSideStays(es)
    ensures Inv(Run(es))
  {
    hide Inv, Apply;
    if es == [] {
      StartInv();
    } else {
      RunInv(es[..|es| - 1]);
      StepKeeps(Run(es[..|es| - 1]), es[|es| - 1]);
    }
  }

  lemma InvTraces(s: State)
    requires Inv(s)
    ensures !s.clientNotFound
    ensures forall id | 0 <= id < MAXIMUM_CLIENTS :: ProperSessions(s.down, id)
  {
    hide Track, Sessions, ClientInv, Accounted, ServerInv;
    forall id | 0 <= id < MAXIMUM_CLIENTS
      ensures ProperSessions(s.down, id)
    {
      TrackedIdsAreSessions(s.down, id);
      var open := Track(s.down).value.slots[id];
      assert Sessions(OfId(s.down, id), open);
    }
  }

  lemma InvPrefix(s: State)
    requires Inv(s)
    ensures s.seen <= |s.down| && OwnersDistinct(s.connections)
    ensures forall j | 0 <= j < |s.connections| ::
              var c := s.connections[j];
              && c.delivered + c.inbox == DownChunks(s.down[..s.seen], c.owner)
              && c.delivered + c.inbox <= SentOf(s, c.owner)
  {
    hide Track, DownChunks, QueuedChunks, ServerInv, Mirrors;
    forall j | 0 <= j < |s.connections|
      ensures s.connections[j].delivered + s.connections[j].inbox <= SentOf(s, s.connections[j].owner)
    {
      var k := s.connections[j].owner;
      DownChunksPrefix(s.down, s.seen, k);
      assert SentOf(s, k) == DownChunks(s.down, k) + QueuedChunks(s.toProxy, k);
    }
  }

  /**
   In every run, at every moment: the stream is a list of proper sessions on
   each id; each connection belongs to a player of its own; what it has been
   given is exactly what that player has on the stream up to here, hence a
   prefix, in order, of what the player sent; and no frame finds its slot empty.
   */
  lemma DownStreamIsolation(es: seq<Event>)
    requires FarSideStays(es)
    ensures var s := Run(es);
            && !s.clientNotFound
            && (forall id | 0 <= id < MAXIMUM_CLIENTS :: ProperSessions(s.down, id))
            && OwnersDistinct(s.connections)
            && (forall j | 0 <= j < |s.connections| ::
                  var c := s.connections[j];
                  && c.delivered + c.inbox == DownChunks(s.down[..s.seen], c.owner)
                  && c.delivered + c.inbox <= SentOf(s, c.owner))
  {
    hide *;
    RunInv(es);
    InvTraces(Run(es));
    InvPrefix(Run(es));
  }

  /**
   Nothing is lost or left waiting: once the tunnel has come to rest, every
   player has been let in and has started, the two tables agree on which ids
   are in use, and an open connection has delivered all its player ever sent.
   */
  lemma RestDeliversEverything(es: seq<Event>)
    requires FarSideStays(es) && Quiescent(Run(es)) && !Run(es).ended
    ensures var s := Run(es);
            && (forall k | 0 <= k < |s.players| :: s.players[k].stage.Running? || s.players[k].stage.Gone?)
            && (forall id | 0 <= id < MAXIMUM_CLIENTS :: s.slots[id].Some? <==> s.conns.table[id].Some?)
            && (forall j | 0 <= j < |s.connections| && s.connections[j].stage.Open? ::
                  s.connections[j].delivered == SentOf(s, s.connections[j].owner))
  {
    hide Run, Inv, Enabled;
    var s := Run(es);
    RunInv(es);
    RestEmpties(s);
    RestPlayers(s);
    RestConnections(s);
  }

  lemma RestEmpties(s: State)
    requires WellFormed(s) && Quiescent(s) && !s.ended
    ensures s.toProxy == [] && s.down[..s.seen] == s.down
    ensures forall k | 0 <= k < |s.players| :: !s.players[k].stage.Assigned?
    ensures forall j | 0 <= j < |s.connections| && s.connections[j].stage.Open? :: s.connections[j].inbox == []
  {
    assert !Enabled(s, ServerWriter) && !Enabled(s, ClientReader);
    assert forall k: nat :: !Enabled(s, SendFirst(k)) && !Enabled(s, ConnReceives(k));
    forall k | 0 <= k < |s.players| ensures !s.players[k].stage.Assigned? {
      assert !Enabled(s, SendFirst(k));
    }
    forall j | 0 <= j < |s.connections| && s.connections[j].stage.Open? ensures s.connections[j].inbox == [] {
      assert !Enabled(s, ConnReceives(j));
    }
  }

  lemma RestPlayers(s: State)
    requires Inv(s) && !s.ended && s.toProxy == []
    requires forall k | 0 <= k < |s.players| :: !s.players[k].stage.Assigned?
    ensures forall k | 0 <= k < |s.players| :: s.players[k].stage.Running? || s.players[k].stage.Gone?
  {
    hide Track, DownChunks, QueuedChunks, ClientInv, Accounted;
    var now := Track(s.down).value;
    HoldersAreUsed(s.down);
    forall k | 0 <= k < |s.players|
      ensures s.players[k].stage.Running? || s.players[k].stage.Gone?
    {
      assert Fits(s.players[k], k, now, now);
    }
  }

  lemma RestConnections(s: State)
    requires Inv(s) && !s.ended && s.toProxy == [] && s.down[..s.seen] == s.down
    requires forall j | 0 <= j < |s.connections| && s.connections[j].stage.Open? :: s.connections[j].inbox == []
    ensures forall id | 0 <= id < MAXIMUM_CLIENTS :: s.slots[id].Some? <==> s.conns.table[id].Some?
    ensures forall j | 0 <= j < |s.connections| && s.connections[j].stage.Open? ::
              s.connections[j].delivered == SentOf(s, s.connections[j].owner)
  {
    hide Track, DownChunks, FutureOf, PlayersFit;
    forall j | 0 <= j < |s.connections| && s.connections[j].stage.Open?
      ensures s.connections[j].delivered == SentOf(s, s.connections[j].owner)
    {
      assert s.connections[j].delivered + [] == s.connections[j].delivered;
      var k := s.connections[j].owner;
      assert SentOf(s, k) == DownChunks(s.down, k) + [];
    }
  }

  // The end of a session

  /** In the regime a session has one way to end. */
  lemma OnlyFullEnds(es: seq<Event>, n: nat)
    requires FarSideStays(es) && Endings.EndsAt(es, n)
    ensures es[n].ServerWriter? && Endings.TurnsAway(Run(es[..n]))
  {
    hide Run, Step, Track, Accounted, ServerInv, ClientInv, Endings.TurnsAway, Endings.FindsNothing;
    var s := Run(es[..n]);
    assert s.toServer != [] ==> s.toServer[0] in s.toServer;
    RunInv(es[..n]);
    RunInv(es[..n + 1]);
    assert es[..n + 1] == es[..n] + [es[n]];
    RunAppend(es[..n], es[n]);
    Endings.StepEnds(s, es[n]);
  }

  /** While the far side stays, a session ends exactly when one player too many is to be let in, and then for all. */
  lemma EndsWhenFull(es: seq<Event>)
    requires FarSideStays(es)
    ensures Run(es).ended <==>
            exists n: nat :: Endings.EndsAt(es, n) && es[n].ServerWriter? && Endings.TurnsAway(Run(es[..n]))
  {
    hide Run, Endings.EndsAt, Endings.TurnsAway;
    Endings.SessionEndsExactly(es);
    if n: nat :| Endings.EndsAt(es, n) { OnlyFullEnds(es, n); }
  }

  // Why the far side has to stay: an id given up by the far side is reused too soon

  const REUSE: seq<Event> := [
    Connect([1]), ServerWriter, ClientReader, ConnOpens(0), ConnEnds(0), ClientWriter, ServerReader,
    Connect([2]), ServerWriter, ClientReader, ClientDisconnect, SendFirst(1), ServerWriter, ClientReader
  ]

  lemma ReuseStep(n: nat, s: State, t: State)
    requires n < |REUSE| && WellFormed(s)
    requires Run(REUSE[..n]) == s && Step(s, REUSE[n]) == t
    ensures Run(REUSE[..n + 1]) == t
  {
    RunAppend(REUSE[..n], REUSE[n]);
    assert REUSE[..n + 1] == REUSE[..n] + [REUSE[n]];
  }

  const FIRST_IN: State :=
    Start().(players := [Player(Assigned(0), [1], [], [], [])], slots := Empty()[0 := Some(0)],
             down := [Join(0, 0)], seen := 1,
             conns := Connections(Empty()[0 := Some(0)], 1), connections := [Conn(0, Connecting, [], [], 0, 0, [])])

  const FIRST_ENDED: State :=
    FIRST_IN.(slots := Empty(), connections := [Conn(0, Closed, [], [], 0, 0, [])],
              disconnects := [0], up := [UpDisconnect(0)], upSeen := 1)

  const REUSED: State :=
    FIRST_ENDED.(players := [Player(Assigned(0), [1], [], [], []), Player(Assigned(0), [2], [], [], [])],
                 slots := Empty()[0 := Some(1)], down := [Join(0, 0), Join(0, 1)])

  const FIRST_WAITS: State :=
    Start().(players := [Player(Waiting, [1], [], [], [])], toProxy := [AddClient(0)])

  const FIRST_ADMITTED: State :=
    Start().(players := [Player(Assigned(0), [1], [], [], [])], slots := Empty()[0 := Some(0)], down := [Join(0, 0)])

  lemma ReuseConnects()
    ensures Run(REUSE[..1]) == FIRST_WAITS
  {
    assert REUSE[..0] == [];
    assert Run(REUSE[..0]) == Start();
    hide Run;
    ReuseStep(0, Start(), FIRST_WAITS);
  }

  lemma ReuseAdmits()
    ensures Run(REUSE[..2]) == FIRST_ADMITTED
  {
    assert FirstFree(Empty()) == 0;
    hide Run, FirstFreeFrom;
    ReuseConnects();
    ReuseStep(1, FIRST_WAITS, FIRST_ADMITTED);
  }

  lemma ReuseStart()
    ensures Run(REUSE[..3]) == FIRST_IN
  {
    hide Run;
    ReuseAdmits();
    ReuseStep(2, FIRST_ADMITTED, FIRST_IN);
  }

  lemma ReuseEnds()
    ensures Run(REUSE[..7]) == FIRST_ENDED
  {
    hide Run;
    ReuseStart();
    var s4 := FIRST_IN.(connections := [Conn(0, Open, [], [], 0, 0, [])]);
    ReuseStep(3, FIRST_IN, s4);
    var s5 := s4.(connections := [Conn(0, Closed, [], [], 0, 0, [])], toServer := [Leave(0)]);
    ReuseStep(4, s4, s5);
    var s6 := s5.(toServer := [], disconnects := [0], up := [UpDisconnect(0)]);
    ReuseStep(5, s5, s6);
    assert Removed(s6.slots, 0) == Empty();
    ReuseStep(6, s6, FIRST_ENDED);
  }

  lemma ReuseHappens()
    ensures Run(REUSE[..9]) == REUSED
  {
    hide Run;
    ReuseEnds();
    var both := FIRST_ENDED.players + [Player(Waiting, [2], [], [], [])];
    var s8 := FIRST_ENDED.(players := both, toProxy := [AddClient(1)]);
    ReuseStep(7, FIRST_ENDED, s8);
    assert both[1 := both[1].(stage := Assigned(0))] == REUSED.players;
    ReuseStep(8, s8, REUSED);
  }

  /**
   The first connection is ended by the Minecraft server. The server's slot is
   freed and given to a second player before the client has cleared its own;
   the late clearing then hits the second player's connection, whose first
   data finds an empty slot and ends the whole session.
   */
  lemma ReuseLosesAConnection()
    ensures !FarSideStays(REUSE) && Run(REUSE).clientNotFound && Run(REUSE).ended
  {
    hide Run;
    ReuseHappens();
    var s10 := Step(REUSED, ClientReader);
    assert s10.conns.table[0] == Some(1);
    ReuseStep(9, REUSED, s10);
    var s11 := Step(s10, ClientDisconnect);
    assert s11.conns.table[0].None?;
    ReuseStep(10, s10, s11);
    var s12 := Step(s11, SendFirst(1));
    assert s12.toProxy == [Forward(0, [2], 1)];
    ReuseStep(11, s11, s12);
    var s13 := Step(s12, ServerWriter);
    assert s13.down[2] == Data(0, [2], 1);
    ReuseStep(12, s12, s13);
    ReuseStep(13, s13, Step(s13, ClientReader));
    assert REUSE[..14] == REUSE && ConnEnds(0) in REUSE;
  }
}
