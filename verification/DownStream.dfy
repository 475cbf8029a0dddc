/**
 What reaches the Minecraft server in any run, endings from its own side included.
 The client's reader looks only at the id of a frame, so one player's data can
 reach the next player's connection under the same id, or the previous one's;
 these are the exact circumstances, and what holds when they do not arise.
 */
module DownStream {
  import opened Basics
  import opened Slots
  import opened Multiplexer
  import Acks
  import Isolation
  import UpStream

  // What every run keeps

  ghost predicate Joined(t: seq<DownFrame>, id: nat, k: nat) {
    exists p :: 0 <= p < |t| && t[p] == Join(id, k)
  }

  /** Nobody sends under an id before having joined under it. */
  ghost predicate AfterJoin(s: State) {
    && (forall n | 0 <= n < |s.down| && s.down[n].Data? :: Joined(s.down[..n], s.down[n].id, s.down[n].owner))
    && (forall i | 0 <= i < |s.toProxy| && s.toProxy[i].Forward? ::
          Joined(s.down, s.toProxy[i].id, s.toProxy[i].owner))
    && (forall k | 0 <= k < |s.players| && (s.players[k].stage.Assigned? || s.players[k].stage.Running?) ::
          Joined(s.down, s.players[k].stage.id, k))
  }

  /** An occupied slot of the client names the connection of the last join that was read under its id. */
  ghost predicate TableNamesLast(s: State) {
    && s.seen <= |s.down|
    && forall id | 0 <= id < MAXIMUM_CLIENTS && s.conns.table[id].Some? ::
         var j := s.conns.table[id].value;
         j < |s.connections| && s.connections[j].id == id &&
         UpStream.LastOwner(s.down[..s.seen], id) == Some(s.connections[j].owner)
  }

  /** The last join of the id before the next frame is the one of the player the frame comes from. */
  ghost predicate SameJoin(s: State, f: DownFrame)
    requires f.Data? && s.seen <= |s.down|
  {
    exists p :: 0 <= p < s.seen && s.down[p] == Join(f.id, f.owner) &&
      Acks.JoinCount(s.down[..s.seen], f.id) == Acks.JoinCount(s.down[..p + 1], f.id)
  }

  predicate Listens(s: State, j: nat) {
    j < |s.connections| && !s.connections[j].stage.Closed?
  }

  /** If the next frame reaches a connection, it comes from the player that joined last under its id. */
  ghost predicate OwnRead(s: State) {
    s.seen < |s.down| && s.down[s.seen].Data? ==>
      match Lookup(s.conns.table, s.down[s.seen].id)
      case None => true
      case Some(j) => Listens(s, j) ==> SameJoin(s, s.down[s.seen])
  }

  ghost predicate OwnReads(es: seq<Event>) {
    forall n | 0 <= n < |es| && es[n].ClientReader? && !Run(es[..n]).ended :: OwnRead(Run(es[..n]))
  }

  function Got(s: State, j: nat): seq<Chunk> {
    if j < |s.connections| then s.connections[j].delivered + s.connections[j].inbox else []
  }

  predicate InTable(s: State, j: nat) {
    Listens(s, j) && Lookup(s.conns.table, s.connections[j].id) == Some(j)
  }

  /** Connection `j` was given a beginning of what was read of its player, and all of it while it is in its slot. */
  ghost predicate GotOf(s: State, j: nat)
    requires j < |s.connections| && s.seen <= |s.down|
  {
    var read := Isolation.DownChunks(s.down[..s.seen], s.connections[j].owner);
    Got(s, j) <= read && (InTable(s, j) ==> Got(s, j) == read)
  }

  ghost predicate GotInOrder(s: State)
    requires s.seen <= |s.down|
  {
    forall j | 0 <= j < |s.connections| :: GotOf(s, j)
  }

  ghost predicate Inv(s: State, own: bool) {
    && AfterJoin(s) && TableNamesLast(s) && Isolation.Accounted(s)
    && (own ==> GotInOrder(s))
  }

  // For whom a frame is

  lemma JoinedOnce(s: State, p: nat, q: nat, id: nat, other: nat, k: nat)
    requires UpStream.JoinsOnce(s) && p < |s.down| && q < |s.down|
    requires s.down[p] == Join(id, k) && s.down[q] == Join(other, k)
    ensures p == q
  {
    assert s.down[p].Join? && s.down[q].Join?;
  }

  /** The last to have joined is a given player exactly if nobody has joined since this player. */
  lemma LastIsOwn(t: seq<DownFrame>, id: nat, p: nat, k: nat)
    requires p < |t| && t[p] == Join(id, k)
    requires forall i, j | 0 <= i < j < |t| && t[i].Join? && t[j].Join? :: t[i].owner != t[j].owner
    ensures UpStream.LastOwner(t, id) == Some(k) <==> Acks.JoinCount(t, id) == Acks.JoinCount(t[..p + 1], id)
  {
    hide Acks.JoinCount, UpStream.LastOwner;
    var q := UpStream.LastJoin(t, id, p);
    UpStream.CountStands(t, p + 1, id);
    assert UpStream.IsJoin(t[q], id);
  }

  lemma JoinsOfPrefix(s: State, n: nat)
    requires UpStream.JoinsOnce(s) && n <= |s.down|
    ensures var t := s.down[..n]; forall i, j | 0 <= i < j < |t| && t[i].Join? && t[j].Join? :: t[i].owner != t[j].owner
  {
    var t := s.down[..n];
    assert forall i | 0 <= i < n :: t[i] == s.down[i];
  }

  /** The connection in the slot belongs to the player the data comes from exactly if nobody has joined since. */
  lemma ForPlayer(s: State, f: DownFrame, j: nat)
    requires UpStream.JoinsOnce(s) && AfterJoin(s) && TableNamesLast(s)
    requires s.seen < |s.down| && s.down[s.seen] == f && f.Data? && Lookup(s.conns.table, f.id) == Some(j)
    ensures j < |s.connections| && s.connections[j].id == f.id
    ensures s.connections[j].owner == f.owner <==> SameJoin(s, f)
  {
    assert Joined(s.down[..s.seen], f.id, f.owner);
    JoinsOfPrefix(s, s.seen);
    hide Acks.JoinCount, UpStream.LastOwner, UpStream.JoinsOnce, AfterJoin;
    var seen := s.down[..s.seen];
    var p :| 0 <= p < |seen| && seen[p] == Join(f.id, f.owner);
    LastIsOwn(seen, f.id, p, f.owner);
    assert seen[..p + 1] == s.down[..p + 1] && s.down[p] == seen[p];
    if SameJoin(s, f) {
      var r :| 0 <= r < s.seen && s.down[r] == Join(f.id, f.owner) &&
               Acks.JoinCount(seen, f.id) == Acks.JoinCount(s.down[..r + 1], f.id);
      assert seen[..r + 1] == s.down[..r + 1] && s.down[r] == seen[r];
      LastIsOwn(seen, f.id, r, f.owner);
    }
  }

  // Steps of the server

  lemma JoinedGrows(t: seq<DownFrame>, u: seq<DownFrame>, id: nat, k: nat)
    requires t <= u && Joined(t, id, k)
    ensures Joined(u, id, k)
  {
    var p :| 0 <= p < |t| && t[p] == Join(id, k);
    assert u[p] == t[p];
  }

  /** The stream grows by a frame that is no data or comes off the queue. */
  lemma WriteAfterJoin(s: State, t: State, f: DownFrame)
    requires AfterJoin(s) && s.toProxy != [] && t.toProxy == s.toProxy[1..] && t.down == s.down + [f]
    requires f.Data? ==> s.toProxy[0] == Forward(f.id, f.chunk, f.owner)
    requires |t.players| == |s.players|
    requires forall k | 0 <= k < |s.players| ::
               t.players[k].stage == s.players[k].stage ||
               (f.Join? && f.owner == k && t.players[k].stage == Assigned(f.id))
    ensures AfterJoin(t)
  {
    hide Joined;
    forall n | 0 <= n < |t.down| && t.down[n].Data? ensures Joined(t.down[..n], t.down[n].id, t.down[n].owner) {
      assert t.down[..n] == s.down[..n];
      assert s.down[..|s.down|] == s.down;
    }
    forall i | 0 <= i < |t.toProxy| && t.toProxy[i].Forward?
      ensures Joined(t.down, t.toProxy[i].id, t.toProxy[i].owner)
    {
      assert t.toProxy[i] == s.toProxy[i + 1];
      JoinedGrows(s.down, t.down, t.toProxy[i].id, t.toProxy[i].owner);
    }
    forall k | 0 <= k < |t.players| && (t.players[k].stage.Assigned? || t.players[k].stage.Running?)
      ensures Joined(t.down, t.players[k].stage.id, k)
    {
      if t.players[k].stage == s.players[k].stage {
        JoinedGrows(s.down, t.down, t.players[k].stage.id, k);
      } else {
        JustJoined(s.down, f.id, k);
      }
    }
  }

  lemma JustJoined(t: seq<DownFrame>, id: nat, k: nat)
    ensures Joined(t + [Join(id, k)], id, k)
  {
    assert (t + [Join(id, k)])[|t|] == Join(id, k);
  }

  lemma PopAfterJoin(s: State, t: State)
    requires AfterJoin(s) && s.toProxy != [] && t.toProxy == s.toProxy[1..]
    requires t.down == s.down && t.players == s.players
    ensures AfterJoin(t)
  {
    hide Joined;
    assert forall i | 0 <= i < |t.toProxy| :: t.toProxy[i] == s.toProxy[i + 1];
  }

  lemma ServerWritesKeeps(s: State)
    requires WellFormed(s) && AfterJoin(s) && s.toProxy != []
    ensures AfterJoin(ServerWrites(s))
  {
    var t := ServerWrites(s);
    hide AfterJoin, FirstFreeFrom, WellFormed;
    match s.toProxy[0] {
      case AddClient(k) =>
        if FirstFree(s.slots) == MAXIMUM_CLIENTS {
          PopAfterJoin(s, t);
        } else {
          WriteAfterJoin(s, t, Join(FirstFree(s.slots), k));
        }
      case Forward(id, chunk, k) => WriteAfterJoin(s, t, Data(id, chunk, k));
      case RemoveClient(id, _) =>
        if id < MAXIMUM_CLIENTS {
          WriteAfterJoin(s, t, DownFrame.Disconnect(id));
        } else {
          PopAfterJoin(s, t);
        }
    }
  }

  lemma PlayerStepKeeps(s: State, e: Event)
    requires WellFormed(s) && AfterJoin(s) && Enabled(s, e)
    requires e.Connect? || e.SendFirst? || e.PlayerSends? || e.PlayerReceives? || e.PlayerLeaves? || e.PlayerDropped?
    ensures AfterJoin(Step(s, e))
  {
    hide Joined, WellFormed;
  }

  lemma PlayerStepAccounted(s: State, e: Event)
    requires WellFormed(s) && Isolation.Accounted(s) && Enabled(s, e)
    requires e.Connect? || e.SendFirst? || e.PlayerSends? || e.PlayerReceives? || e.PlayerLeaves? || e.PlayerDropped?
    ensures Isolation.Accounted(Step(s, e))
  {
    hide Isolation.DownChunks, Isolation.QueuedChunks, WellFormed;
    var t := Step(s, e);
    match e {
      case Connect(_) =>
        Isolation.QuietAccounted(s, t, AddClient(|s.players|)) by { Isolation.SentSame(s, t); }
      case SendFirst(k) =>
        var u := SetStage(s, k, Running(s.players[k].stage.id));
        Isolation.SentSame(s, u);
        Isolation.HandAccounted(u, k, s.players[k].stage.id, s.players[k].first);
      case PlayerSends(k, chunk) => Isolation.HandAccounted(s, k, s.players[k].stage.id, chunk);
      case PlayerReceives(_) => Isolation.SentSame(s, t);
      case PlayerLeaves(k) =>
        Isolation.QuietAccounted(s, t, RemoveClient(s.players[k].stage.id, k)) by { Isolation.SentSame(s, t); }
      case PlayerDropped(k) =>
        Isolation.QuietAccounted(s, t, RemoveClient(s.players[k].stage.id, k)) by { Isolation.SentSame(s, t); }
    }
  }

  lemma ServerReadsKeeps(s: State)
    requires WellFormed(s) && s.upSeen < |s.up| && AfterJoin(s) && Isolation.Accounted(s)
    ensures AfterJoin(ServerReads(s)) && Isolation.Accounted(ServerReads(s))
  {
    hide Joined, Isolation.DownChunks, Isolation.QueuedChunks;
    Isolation.SentSame(s, ServerReads(s));
  }

  // What the server does leaves the client alone, but for the stream

  lemma {:induction false} SameGot(s: State, t: State)
    requires s.seen <= |s.down| && t.seen <= |t.down| && GotInOrder(s)
    requires |t.connections| == |s.connections| && t.down[..t.seen] == s.down[..s.seen]
    requires forall j | 0 <= j < |s.connections| ::
               && t.connections[j].owner == s.connections[j].owner && Got(t, j) == Got(s, j)
               && (InTable(t, j) ==> InTable(s, j))
    ensures GotInOrder(t)
  {
    hide Got, InTable, Isolation.DownChunks;
    forall j | 0 <= j < |t.connections| ensures GotOf(t, j) { assert GotOf(s, j); }
  }

  lemma ServerSide(s: State, t: State, own: bool)
    requires Inv(s, own) && AfterJoin(t) && Isolation.Accounted(t)
    requires s.down <= t.down && t.seen == s.seen && t.conns == s.conns && t.connections == s.connections
    ensures Inv(t, own)
  {
    hide AfterJoin, Isolation.Accounted, UpStream.LastOwner;
    assert t.down[..t.seen] == s.down[..s.seen];
    if own { SameGot(s, t); }
  }

  // Steps of the client

  lemma SameServer(s: State, t: State)
    requires AfterJoin(s) && Isolation.Accounted(s)
    requires t.down == s.down && t.players == s.players && t.toProxy == s.toProxy
    ensures AfterJoin(t) && Isolation.Accounted(t)
  {
    hide Joined, Isolation.DownChunks, Isolation.QueuedChunks;
    assert forall k: nat :: Isolation.SentOf(t, k) == Isolation.SentOf(s, k);
  }

  /** No connection changes its origin or forgets a chunk, and slots are at most emptied. */
  lemma ClientMoves(s: State, t: State, own: bool)
    requires Inv(s, own)
    requires t.down == s.down && t.seen == s.seen && t.players == s.players && t.toProxy == s.toProxy
    requires |t.connections| == |s.connections|
    requires forall j | 0 <= j < |s.connections| ::
               && t.connections[j].id == s.connections[j].id && t.connections[j].owner == s.connections[j].owner
               && (s.connections[j].stage.Closed? ==> t.connections[j].stage.Closed?) && Got(t, j) == Got(s, j)
    requires forall id | 0 <= id < MAXIMUM_CLIENTS && t.conns.table[id].Some? :: t.conns.table[id] == s.conns.table[id]
    ensures Inv(t, own)
  {
    hide AfterJoin, Isolation.Accounted, UpStream.LastOwner, Got;
    SameServer(s, t);
    if own { SameGot(s, t); }
  }

  lemma ConnStep(s: State, e: Event, own: bool)
    requires Inv(s, own) && WellFormed(s) && Enabled(s, e)
    requires e.ConnOpens? || e.ConnFails? || e.ConnSends? || e.ConnReceives? || e.ConnEnds? || e.ConnDropped?
    ensures Inv(Step(s, e), own)
  {
    hide Inv, WellFormed;
    ClientMoves(s, Step(s, e), own);
  }

  /** Slots named by the stream up to a frame are named by it up to the next, if this is no join. */
  lemma TableStays(s: State, t: State)
    requires TableNamesLast(s) && s.seen < |s.down| && t.down == s.down && t.seen == s.seen + 1
    requires !s.down[s.seen].Join?
    requires |t.connections| == |s.connections|
    requires forall j | 0 <= j < |s.connections| ::
               t.connections[j].id == s.connections[j].id && t.connections[j].owner == s.connections[j].owner
    requires forall id | 0 <= id < MAXIMUM_CLIENTS && t.conns.table[id].Some? :: t.conns.table[id] == s.conns.table[id]
    ensures TableNamesLast(t)
  {
    hide UpStream.LastOwner;
    var f := s.down[s.seen];
    assert s.down[..t.seen] == s.down[..s.seen] + [f];
    forall id: nat { UpStream.LastOwnerAppend(s.down[..s.seen], f, id); }
  }

  lemma ReadJoin(s: State, t: State, id: nat, k: nat, own: bool)
    requires Inv(s, own) && UpStream.JoinsOnce(s) && UpStream.ConnsJoined(s)
    requires s.seen < |s.down| && s.down[s.seen] == Join(id, k)
    requires t == s.(seen := s.seen + 1, conns := t.conns,
                     connections := s.connections + [Conn(id, Connecting, [], [], k, s.seen, [])])
    requires t.conns.table == if id < MAXIMUM_CLIENTS then s.conns.table[id := Some(|s.connections|)] else s.conns.table
    ensures Inv(t, own)
  {
    hide AfterJoin, Isolation.Accounted, UpStream.LastOwner, GotInOrder;
    SameServer(s, t);
    var f := s.down[s.seen];
    assert s.down[..t.seen] == s.down[..s.seen] + [f];
    forall i: nat { UpStream.LastOwnerAppend(s.down[..s.seen], f, i); }
    assert TableNamesLast(t);
    if own { NewConnGot(s, t, f); }
  }

  lemma NewConnGot(s: State, t: State, f: DownFrame)
    requires AfterJoin(s) && UpStream.JoinsOnce(s) && s.seen < |s.down| && s.down[s.seen] == f && f.Join?
    requires GotInOrder(s) && t.down == s.down && t.seen == s.seen + 1
    requires t.connections == s.connections + [Conn(f.id, Connecting, [], [], f.owner, s.seen, [])]
    requires forall j | 0 <= j < |s.connections| :: InTable(t, j) ==> InTable(s, j)
    ensures GotInOrder(t)
  {
    hide Isolation.DownChunks, InTable, AfterJoin;
    var seen, n := s.down[..s.seen], |s.connections|;
    assert s.down[..t.seen] == seen + [f];
    NoData(s, f.owner);
    forall j | 0 <= j < |t.connections| ensures GotOf(t, j) {
      Isolation.DownAppend(seen, f, t.connections[j].owner);
      if j < n { assert GotOf(s, j); }
    }
  }

  /** Before its join nothing of a player is on the stream. */
  lemma NoData(s: State, k: nat)
    requires AfterJoin(s) && UpStream.JoinsOnce(s) && s.seen < |s.down|
    requires s.down[s.seen].Join? && s.down[s.seen].owner == k
    ensures Isolation.DownChunks(s.down[..s.seen], k) == []
  {
    forall n | 0 <= n < s.seen && s.down[n].Data? ensures s.down[n].owner != k {
      assert Joined(s.down[..n], s.down[n].id, s.down[n].owner);
      var p :| 0 <= p < n && s.down[..n][p] == Join(s.down[n].id, s.down[n].owner);
      assert s.down[p].Join?;
    }
    NoChunks(s.down[..s.seen], k);
  }

  lemma {:induction false} NoChunks(t: seq<DownFrame>, k: nat)
    requires forall n | 0 <= n < |t| && t[n].Data? :: t[n].owner != k
    ensures Isolation.DownChunks(t, k) == []
  {
    if t != [] { NoChunks(t[..|t| - 1], k); }
  }

  /** A frame that is given to no connection. */
  lemma ReadUngiven(s: State, t: State, own: bool)
    requires Inv(s, own) && UpStream.JoinsOnce(s) && UpStream.ConnsJoined(s)
    requires s.seen < |s.down| && !s.down[s.seen].Join?
    requires t == s.(seen := s.seen + 1, conns := t.conns, ended := t.ended, clientNotFound := t.clientNotFound)
    requires forall id | 0 <= id < MAXIMUM_CLIENTS && t.conns.table[id].Some? :: t.conns.table[id] == s.conns.table[id]
    requires Lookup(t.conns.table, s.down[s.seen].id).None?
    ensures Inv(t, own)
  {
    hide AfterJoin, Isolation.Accounted, GotInOrder, UpStream.LastOwner;
    SameServer(s, t);
    TableStays(s, t);
    if own { UngivenInOrder(s, t, s.down[s.seen]); }
  }

  lemma UngivenInOrder(s: State, t: State, f: DownFrame)
    requires AfterJoin(s) && UpStream.JoinsOnce(s) && UpStream.ConnsJoined(s)
    requires s.seen < |s.down| && s.down[s.seen] == f && GotInOrder(s)
    requires t.down == s.down && t.seen == s.seen + 1 && t.connections == s.connections
    requires forall id | 0 <= id < MAXIMUM_CLIENTS && t.conns.table[id].Some? :: t.conns.table[id] == s.conns.table[id]
    requires Lookup(t.conns.table, f.id).None?
    ensures GotInOrder(t)
  {
    hide Isolation.DownChunks, AfterJoin;
    var seen := s.down[..s.seen];
    assert s.down[..t.seen] == seen + [f];
    forall j | 0 <= j < |t.connections| ensures GotOf(t, j) {
      assert GotOf(s, j);
      Isolation.DownAppend(seen, f, s.connections[j].owner);
      if f.Data? && f.owner == s.connections[j].owner { IdOfPlayer(s, f, j); }
    }
  }

  /** A player's data and its connection are under the same id. */
  lemma IdOfPlayer(s: State, f: DownFrame, j: nat)
    requires AfterJoin(s) && UpStream.JoinsOnce(s) && UpStream.ConnsJoined(s)
    requires s.seen < |s.down| && s.down[s.seen] == f && f.Data?
    requires j < |s.connections| && s.connections[j].owner == f.owner
    ensures s.connections[j].id == f.id
  {
    assert Joined(s.down[..s.seen], f.id, f.owner);
    var p :| 0 <= p < s.seen && s.down[..s.seen][p] == Join(f.id, f.owner);
    JoinedOnce(s, p, s.connections[j].joinedAt, f.id, s.connections[j].id, f.owner);
  }

  /** A frame is given to the connection in the slot. */
  lemma ReadGiven(s: State, t: State, f: DownFrame, j: nat, own: bool)
    requires Inv(s, own) && UpStream.JoinsOnce(s) && UpStream.ConnsJoined(s) && (own ==> OwnRead(s))
    requires s.seen < |s.down| && s.down[s.seen] == f && f.Data?
    requires Lookup(s.conns.table, f.id) == Some(j) && Listens(s, j)
    requires t == s.(seen := s.seen + 1,
                     connections := s.connections[j := s.connections[j].(inbox := s.connections[j].inbox + [f.chunk])])
    ensures Inv(t, own)
  {
    hide Isolation.Accounted, GotInOrder, SameJoin, UpStream.LastOwner;
    SameServer(s, t);
    TableStays(s, t);
    if own {
      ForPlayer(s, f, j);
      forall i | 0 <= i < |s.connections| && i != j ensures s.connections[i].owner != f.owner {
        UpStream.OwnersDiffer(s, i, j);
      }
      GivenInOrder(s, t, f, j);
    }
  }

  lemma GivenInOrder(s: State, t: State, f: DownFrame, j: nat)
    requires s.seen < |s.down| && s.down[s.seen] == f && f.Data? && GotInOrder(s)
    requires InTable(s, j) && s.connections[j].owner == f.owner
    requires forall i | 0 <= i < |s.connections| && i != j :: s.connections[i].owner != f.owner
    requires t == s.(seen := s.seen + 1,
                     connections := s.connections[j := s.connections[j].(inbox := s.connections[j].inbox + [f.chunk])])
    ensures GotInOrder(t)
  {
    hide Isolation.DownChunks;
    var seen := s.down[..s.seen];
    assert s.down[..t.seen] == seen + [f];
    forall i | 0 <= i < |t.connections| ensures GotOf(t, i) {
      assert GotOf(s, i);
      Isolation.DownAppend(seen, f, s.connections[i].owner);
    }
    assert Got(t, j) == Got(s, j) + [f.chunk];
  }

  /** What one frame does to the client, by what it finds. */
  lemma FrameDoes(s: State)
    requires WellFormed(s) && s.seen < |s.down|
    ensures var t, f := ClientReads(s), s.down[s.seen];
            match f
            case Join(id, k) =>
              && t == s.(seen := s.seen + 1, conns := t.conns,
                         connections := s.connections + [Conn(id, Connecting, [], [], k, s.seen, [])])
              && t.conns.table ==
                 if id < MAXIMUM_CLIENTS then s.conns.table[id := Some(|s.connections|)] else s.conns.table
            case Disconnect(id) =>
              && t == s.(seen := s.seen + 1, conns := t.conns)
              && t.conns.table == if id < MAXIMUM_CLIENTS then s.conns.table[id := None] else s.conns.table
            case Data(id, chunk, _) =>
              match Lookup(s.conns.table, id)
              case Some(j) =>
                && j < |s.connections|
                && if Listens(s, j) then
                     t == s.(seen := s.seen + 1, connections :=
                               s.connections[j := s.connections[j].(inbox := s.connections[j].inbox + [chunk])])
                   else
                     && t == s.(seen := s.seen + 1, conns := t.conns)
                     && id < MAXIMUM_CLIENTS && t.conns.table == s.conns.table[id := None]
              case None => t == s.(seen := s.seen + 1, ended := true, clientNotFound := true)
  {
    var f := s.down[s.seen];
    if f.Disconnect? && f.id < MAXIMUM_CLIENTS && s.conns.table[f.id].None? {
      assert s.conns.table[f.id := None] == s.conns.table;
    }
  }

  lemma ReadStep(s: State, own: bool)
    requires Inv(s, own) && UpStream.JoinsOnce(s) && UpStream.ConnsJoined(s) && (own ==> OwnRead(s))
    requires WellFormed(s) && s.seen < |s.down|
    ensures Inv(ClientReads(s), own)
  {
    FrameDoes(s);
    hide Inv, WellFormed, OwnRead, UpStream.JoinsOnce, UpStream.ConnsJoined, ClientReads;
    var t, f := ClientReads(s), s.down[s.seen];
    match f {
      case Join(id, k) => ReadJoin(s, t, id, k, own);
      case Disconnect(id) => ReadUngiven(s, t, own);
      case Data(id, chunk, _) =>
        var slot := Lookup(s.conns.table, id);
        if slot.Some? && Listens(s, slot.value) {
          ReadGiven(s, t, f, slot.value, own);
        } else {
          ReadUngiven(s, t, own);
        }
    }
  }

  lemma StepKeeps(s: State, e: Event, own: bool)
    requires Inv(s, own) && WellFormed(s) && UpStream.JoinsOnce(s) && UpStream.ConnsJoined(s)
    requires own && e.ClientReader? && !s.ended ==> OwnRead(s)
    ensures Inv(Step(s, e), own)
  {
    if Enabled(s, e) {
      assert AfterJoin(s) && Isolation.Accounted(s);
      hide Inv, OwnRead, WellFormed, AfterJoin, Isolation.Accounted, UpStream.JoinsOnce, UpStream.ConnsJoined;
      hide ServerWrites, ServerReads, ClientReads, ClientWrites;
      match e {
        case ServerWriter =>
          ServerWritesKeeps(s);
          Isolation.WriteAccounted(s);
          WritesDown(s);
          ServerSide(s, Step(s, e), own);
        case ServerReader =>
          ServerReadsKeeps(s);
          ReadsUp(s);
          ServerSide(s, Step(s, e), own);
        case ClientReader => ReadStep(s, own);
        case ClientWriter => WritesUp(s, own);
        case ClientDisconnect => ClientMoves(s, Step(s, e), own);
        case ConnOpens(_) => ConnStep(s, e, own);
        case ConnFails(_) => ConnStep(s, e, own);
        case ConnSends(_, _) => ConnStep(s, e, own);
        case ConnReceives(_) => ConnStep(s, e, own);
        case ConnEnds(_) => ConnStep(s, e, own);
        case ConnDropped(_) => ConnStep(s, e, own);
        case _ =>
          PlayerStepKeeps(s, e);
          PlayerStepAccounted(s, e);
          ServerSide(s, Step(s, e), own);
      }
    }
  }

  lemma WritesDown(s: State)
    requires WellFormed(s) && s.toProxy != []
    ensures var t := ServerWrites(s);
            s.down <= t.down && t.seen == s.seen && t.conns == s.conns && t.connections == s.connections
  {
    hide FirstFreeFrom;
  }

  lemma ReadsUp(s: State)
    requires WellFormed(s) && s.upSeen < |s.up|
    ensures var t := ServerReads(s);
            t.down == s.down && t.seen == s.seen && t.conns == s.conns && t.connections == s.connections
  {
  }

  lemma WritesUp(s: State, own: bool)
    requires Inv(s, own) && s.toServer != []
    ensures Inv(ClientWrites(s), own)
  {
    hide Inv;
    ClientMoves(s, ClientWrites(s), own);
  }

  lemma {:induction false} RunInv(es: seq<Event>, own: bool)
    requires own ==> OwnReads(es)
    ensures Inv(Run(es), own)
  {
    hide Inv, Step, OwnRead, UpStream.JoinsOnce, UpStream.ConnsJoined;
    if es == [] {
      assert Inv(Start(), own) by { StartInv(own); }
    } else {
      if own { OwnBefore(es); }
      RunInv(es[..|es| - 1], own);
      UpStream.RunInv(es[..|es| - 1], false);
      StepKeeps(Run(es[..|es| - 1]), es[|es| - 1], own);
    }
  }

  lemma OwnBefore(es: seq<Event>)
    requires OwnReads(es) && es != []
    ensures OwnReads(es[..|es| - 1])
  {
    hide Run, OwnRead;
    assert forall n | 0 <= n < |es| :: es[..|es| - 1][..n] == es[..n];
  }

  lemma StartInv(own: bool)
    ensures Inv(Start(), own)
  {
  }

  // The results

  /**
   In every run: data that is read while the client's slot of its id is occupied
   goes to the connection in the slot, if it still listens, and this is the
   connection of the player the data comes from exactly if nobody has joined
   under the id since this player.
   */
  lemma GivenToOwnerExactly(es: seq<Event>)
    requires var s := Run(es);
             && !s.ended && s.seen < |s.down| && s.down[s.seen].Data?
             && Lookup(s.conns.table, s.down[s.seen].id).Some?
    ensures var s, t := Run(es), Run(es + [ClientReader]);
            var f := s.down[s.seen];
            var j := Lookup(s.conns.table, f.id).value;
            && j < |s.connections| && s.connections[j].id == f.id && Joined(s.down[..s.seen], f.id, f.owner)
            && (forall i: nat :: Got(t, i) == Got(s, i) + if i == j && Listens(s, j) then [f.chunk] else [])
            && (s.connections[j].owner == f.owner <==> SameJoin(s, f))
  {
    hide Run, SameJoin, Joined, Isolation.Accounted, UpStream.LastOwner, UpStream.JoinsOnce, ClientReads;
    RunInv(es, false);
    UpStream.RunInv(es, false);
    var s := Run(es);
    RunAppend(es, ClientReader);
    assert Joined(s.down[..s.seen], s.down[s.seen].id, s.down[s.seen].owner);
    ForPlayer(s, s.down[s.seen], Lookup(s.conns.table, s.down[s.seen].id).value);
    FrameGives(s, s.down[s.seen], Lookup(s.conns.table, s.down[s.seen].id).value);
  }

  lemma FrameGives(s: State, f: DownFrame, j: nat)
    requires WellFormed(s) && !s.ended && s.seen < |s.down| && s.down[s.seen] == f && f.Data?
    requires Lookup(s.conns.table, f.id) == Some(j)
    ensures forall i: nat ::
              Got(Step(s, ClientReader), i) == Got(s, i) + if i == j && Listens(s, j) then [f.chunk] else []
  {
    FrameDoes(s);
    hide WellFormed, ClientReads;
  }

  /**
   In every run whose data reads all meet this condition, endings and failures on
   the far side included: each connection has a player of its own, and has been
   given, in order, a beginning of what this player sent.
   */
  lemma DownStreamInOrder(es: seq<Event>)
    requires OwnReads(es)
    ensures var s := Run(es);
            && (forall j | 0 <= j < |s.connections| :: Got(s, j) <= Isolation.SentOf(s, s.connections[j].owner))
            && (forall i, j | 0 <= i < j < |s.connections| :: s.connections[i].owner != s.connections[j].owner)
  {
    hide Run, OwnReads, Isolation.DownChunks, Isolation.QueuedChunks, Got, AfterJoin, UpStream.LastOwner;
    RunInv(es, true);
    UpStream.RunInv(es, false);
    var s := Run(es);
    forall j | 0 <= j < |s.connections| ensures Got(s, j) <= Isolation.SentOf(s, s.connections[j].owner) {
      assert GotOf(s, j);
      Isolation.DownChunksPrefix(s.down, s.seen, s.connections[j].owner);
    }
    forall i, j | 0 <= i < j < |s.connections| ensures s.connections[i].owner != s.connections[j].owner {
      UpStream.OwnersDiffer(s, i, j);
    }
  }

  /**
   Nothing is lost on the way down: once such a run has come to rest, every open
   connection still in the slot of its id has delivered all its player sent.
   */
  lemma RestGivesEverything(es: seq<Event>)
    requires OwnReads(es) && Quiescent(Run(es)) && !Run(es).ended
    ensures var s := Run(es);
            forall j | 0 <= j < |s.connections| ::
              var c := s.connections[j];
              c.stage.Open? && Lookup(s.conns.table, c.id) == Some(j) ==>
                c.delivered == Isolation.SentOf(s, c.owner)
  {
    hide Run, OwnReads, AfterJoin, UpStream.LastOwner, Enabled, Isolation.DownChunks;
    var s := Run(es);
    RunInv(es, true);
    UpStream.RunInv(es, false);
    Isolation.RestEmpties(s);
    forall j | 0 <= j < |s.connections| && s.connections[j].stage.Open? && InTable(s, j)
      ensures s.connections[j].delivered == Isolation.SentOf(s, s.connections[j].owner)
    {
      assert GotOf(s, j);
      var all := Isolation.DownChunks(s.down, s.connections[j].owner);
      assert s.connections[j].delivered + [] == s.connections[j].delivered && all + [] == all;
    }
  }

  /** The condition is met as long as no id is joined twice. */
  lemma IdsOnceReadOwn(es: seq<Event>)
    requires UpStream.NoIdTwice(Run(es).down)
    ensures OwnReads(es)
  {
    hide Run, Isolation.Accounted, UpStream.LastOwner;
    forall n | 0 <= n < |es| && es[n].ClientReader? && !Run(es[..n]).ended ensures OwnRead(Run(es[..n])) {
      UpStream.StreamGrows(es, n);
      RunInv(es[..n], false);
      NoJoinSince(Run(es[..n]), Run(es).down);
    }
  }

  lemma NoJoinSince(s: State, down: seq<DownFrame>)
    requires AfterJoin(s) && s.down <= down && UpStream.NoIdTwice(down)
    ensures OwnRead(s)
  {
    hide Acks.JoinCount;
    if s.seen < |s.down| && s.down[s.seen].Data? {
      var f, seen := s.down[s.seen], s.down[..s.seen];
      assert Joined(seen, f.id, f.owner);
      hide AfterJoin, Listens;
      assert forall i | 0 <= i < |seen| :: seen[i] == down[i];
      SameJoinOnce(s, f, down);
    }
  }

  lemma SameJoinOnce(s: State, f: DownFrame, down: seq<DownFrame>)
    requires f.Data? && s.seen <= |s.down| && Joined(s.down[..s.seen], f.id, f.owner)
    requires s.seen <= |down| && s.down[..s.seen] == down[..s.seen] && UpStream.NoIdTwice(down)
    ensures SameJoin(s, f)
  {
    hide Acks.JoinCount;
    var seen := s.down[..s.seen];
    var p :| 0 <= p < |seen| && seen[p] == Join(f.id, f.owner);
    assert forall i | 0 <= i < |seen| :: seen[i] == down[i];
    UpStream.CountStands(seen, p + 1, f.id);
    assert seen[..p + 1] == s.down[..p + 1] && s.down[p] == seen[p];
  }

  /** It is met as well as long as nothing ends or fails on the far side, however often ids are used again. */
  lemma RegimeReadsOwn(es: seq<Event>)
    requires Isolation.FarSideStays(es)
    ensures OwnReads(es)
  {
    hide Run, OwnRead;
    forall n | 0 <= n < |es| && es[n].ClientReader? && !Run(es[..n]).ended ensures OwnRead(Run(es[..n])) {
      var s := Run(es[..n]);
      RunInv(es[..n], false);
      UpStream.RunInv(es[..n], false);
      Isolation.RunInv(es[..n]);
      MirroredReadsOwn(s);
    }
  }

  lemma MirroredReadsOwn(s: State)
    requires Isolation.Inv(s) && Inv(s, false) && UpStream.JoinsOnce(s)
    ensures OwnRead(s)
  {
    hide Isolation.Accounted, Isolation.ServerInv, Isolation.Track, SameJoin, AfterJoin, UpStream.LastOwner;
    if s.seen < |s.down| && s.down[s.seen].Data? && Lookup(s.conns.table, s.down[s.seen].id).Some? {
      var f := s.down[s.seen];
      Isolation.TrackPrefix(s.down, s.seen);
      Isolation.TrackPrefix(s.down, s.seen + 1);
      ForPlayer(s, f, Lookup(s.conns.table, f.id).value);
      assert Lookup(Isolation.Track(s.down[..s.seen]).value.slots, f.id) == Some(f.owner);
    }
  }
}
