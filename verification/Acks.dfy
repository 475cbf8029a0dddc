/**
 Joins and disconnects balance in every run, slot reuse and far-side endings
 included: nothing is acknowledged more often than it happened, and without
 new input the session comes to rest.
 */
module Acks {
  import opened Basics
  import opened Slots
  import opened Multiplexer

  // What is counted, per id

  function Joins(id: nat): DownFrame -> nat {
    (f: DownFrame) => if f.Join? && f.id == id then 1 else 0
  }

  function Disconnects(id: nat): DownFrame -> nat {
    (f: DownFrame) => if f.Disconnect? && f.id == id then 1 else 0
  }

  function Removals(id: nat): ToProxy -> nat {
    (m: ToProxy) => if m.RemoveClient? && m.id == id then 1 else 0
  }

  /** Players that were given `id` and have not left. */
  function Holders(id: nat): Player -> nat {
    (p: Player) => if (p.stage.Assigned? || p.stage.Running?) && p.stage.id == id then 1 else 0
  }

  function Leaves(id: nat): ToServer -> nat {
    (m: ToServer) => if m.Leave? && m.id == id then 1 else 0
  }

  function UpDisconnects(id: nat): UpFrame -> nat {
    (f: UpFrame) => if f.UpDisconnect? && f.id == id then 1 else 0
  }

  function Alive(id: nat): Conn -> nat {
    (c: Conn) => if !c.stage.Closed? && c.id == id then 1 else 0
  }

  function JoinCount(t: seq<DownFrame>, id: nat): nat {
    Sum(t, Joins(id))
  }

  function DisconnectCount(t: seq<DownFrame>, id: nat): nat {
    Sum(t, Disconnects(id))
  }

  // The server: every join is undone at most once, by the player it was for

  /** Each player that joined either still holds the id, or has one removal queued, or one disconnect sent. */
  ghost predicate DownBalance(s: State, id: nat) {
    DisconnectCount(s.down, id) + Sum(s.toProxy, Removals(id)) + Sum(s.players, Holders(id)) == JoinCount(s.down, id)
  }

  ghost predicate Sane(t: seq<DownFrame>, id: nat) {
    && (forall n | 0 <= n <= |t| :: DisconnectCount(t[..n], id) <= JoinCount(t[..n], id))
    && (forall n | 0 <= n < |t| && t[n].Data? && t[n].id == id :: JoinCount(t[..n], id) >= 1)
  }

  predicate Given(down: seq<DownFrame>, id: nat) {
    id < MAXIMUM_CLIENTS && JoinCount(down, id) >= 1
  }

  /** Messages, stages and frames only mention ids that were given out. */
  ghost predicate IdsGiven(s: State) {
    && (forall i | 0 <= i < |s.toProxy| && !s.toProxy[i].AddClient? :: Given(s.down, s.toProxy[i].id))
    && (forall k | 0 <= k < |s.players| && (s.players[k].stage.Assigned? || s.players[k].stage.Running?) ::
          Given(s.down, s.players[k].stage.id))
    && (forall i | 0 <= i < |s.down| :: s.down[i].id < MAXIMUM_CLIENTS)
  }

  /** Exactly the waiting players have their request queued, each once. */
  ghost predicate WaitersQueued(s: State) {
    && (forall k | 0 <= k < |s.players| && s.players[k].stage.Waiting? :: AddClient(k) in s.toProxy)
    && (forall i | 0 <= i < |s.toProxy| && s.toProxy[i].AddClient? ::
          s.toProxy[i].player < |s.players| && s.players[s.toProxy[i].player].stage.Waiting?)
    && (forall i, j | 0 <= i < j < |s.toProxy| && s.toProxy[i].AddClient? :: s.toProxy[i] != s.toProxy[j])
  }

  ghost predicate ServerInv(s: State) {
    && WellFormed(s) && IdsGiven(s) && WaitersQueued(s)
    && forall id: nat :: DownBalance(s, id) && Sane(s.down, id)
  }

  lemma JoinAppend(t: seq<DownFrame>, f: DownFrame, id: nat)
    ensures JoinCount(t + [f], id) == JoinCount(t, id) + Joins(id)(f)
    ensures DisconnectCount(t + [f], id) == DisconnectCount(t, id) + Disconnects(id)(f)
  {
    SumAppend(t, f, Joins(id));
    SumAppend(t, f, Disconnects(id));
  }

  lemma SaneAppend(t: seq<DownFrame>, f: DownFrame, id: nat)
    requires Sane(t, id)
    requires DisconnectCount(t + [f], id) <= JoinCount(t + [f], id)
    requires f.Data? && f.id == id ==> JoinCount(t, id) >= 1
    ensures Sane(t + [f], id)
  {
    hide JoinCount, DisconnectCount;
    var u := t + [f];
    assert forall n | 0 <= n <= |t| :: u[..n] == t[..n];
    assert u[..|u|] == u && t[..|t|] == t;
  }

  lemma DropFirst<T>(q: seq<T>, w: T -> nat)
    requires q != []
    ensures Sum(q, w) == w(q[0]) + Sum(q[1..], w)
  {
  }

  // Each way the queue and the players change

  lemma PlayerUpdate(s: State, t: State, k: nat, id: nat)
    requires k < |s.players| && |t.players| == |s.players|
    requires t.players == s.players[k := t.players[k]]
    ensures Sum(t.players, Holders(id)) + Holders(id)(s.players[k]) ==
            Sum(s.players, Holders(id)) + Holders(id)(t.players[k])
  {
    SumUpdate(s.players, k, t.players[k], Holders(id));
  }

  /** A player's data moves on but its stage stays, and so do the queue and the stream. */
  lemma SameStage(s: State, t: State, k: nat)
    requires ServerInv(s) && WellFormed(t) && k < |s.players| && |t.players| == |s.players|
    requires t.players == s.players[k := t.players[k]] && t.players[k].stage == s.players[k].stage
    requires t.toProxy == s.toProxy && t.down == s.down
    ensures ServerInv(t)
  {
    hide Sane, Given;
    forall id: nat ensures DownBalance(t, id) && Sane(t.down, id) {
      assert DownBalance(s, id) && Sane(s.down, id);
      PlayerUpdate(s, t, k, id);
    }
  }

  lemma SameServer(s: State, t: State)
    requires ServerInv(s) && WellFormed(t)
    requires t.players == s.players && t.toProxy == s.toProxy && t.down == s.down
    ensures ServerInv(t)
  {
    hide Sane, Given;
    forall id: nat ensures DownBalance(t, id) && Sane(t.down, id) {
      assert DownBalance(s, id) && Sane(s.down, id);
    }
  }

  lemma ConnectKeeps(s: State, first: Chunk)
    requires ServerInv(s) && !s.ended && WellFormed(Apply(s, Connect(first)))
    ensures ServerInv(Apply(s, Connect(first)))
  {
    hide Sane, Given;
    var t := Apply(s, Connect(first));
    var p, m := t.players[|s.players|], AddClient(|s.players|);
    forall id: nat ensures DownBalance(t, id) && Sane(t.down, id) {
      assert DownBalance(s, id) && Sane(s.down, id);
      SumAppend(s.players, p, Holders(id));
      SumAppend(s.toProxy, m, Removals(id));
    }
    assert t.toProxy[|s.toProxy|] == m;
  }

  lemma HandKeeps(s: State, k: nat, id: nat, chunk: Chunk)
    requires ServerInv(s) && k < |s.players| && s.players[k].stage == Running(id) && WellFormed(Hand(s, k, id, chunk))
    ensures ServerInv(Hand(s, k, id, chunk))
  {
    hide Sane, Given;
    var t := Hand(s, k, id, chunk);
    forall at: nat ensures DownBalance(t, at) && Sane(t.down, at) {
      assert DownBalance(s, at) && Sane(s.down, at);
      PlayerUpdate(s, t, k, at);
      SumAppend(s.toProxy, Forward(id, chunk, k), Removals(at));
    }
  }

  lemma StartedKeeps(s: State, k: nat)
    requires ServerInv(s) && k < |s.players| && s.players[k].stage.Assigned?
    ensures ServerInv(SetStage(s, k, Running(s.players[k].stage.id)))
  {
    hide Sane, Given;
    var t := SetStage(s, k, Running(s.players[k].stage.id));
    forall id: nat ensures DownBalance(t, id) && Sane(t.down, id) {
      assert DownBalance(s, id) && Sane(s.down, id);
      PlayerUpdate(s, t, k, id);
    }
  }

  lemma LeaveKeeps(s: State, k: nat)
    requires ServerInv(s) && IsRunning(s, k) && WellFormed(LeaveProxy(s, k))
    ensures ServerInv(LeaveProxy(s, k))
  {
    hide Sane, Given;
    var t := LeaveProxy(s, k);
    forall id: nat ensures DownBalance(t, id) && Sane(t.down, id) {
      assert DownBalance(s, id) && Sane(s.down, id);
      PlayerUpdate(s, t, k, id);
      SumAppend(s.toProxy, RemoveClient(s.players[k].stage.id, k), Removals(id));
    }
  }

  /** The writer turns a queued message into a frame, or ends the session. */
  lemma WriteBalances(s: State, id: nat)
    requires WellFormed(s) && IdsGiven(s) && WaitersQueued(s) && s.toProxy != []
    requires DownBalance(s, id) && Sane(s.down, id)
    ensures DownBalance(ServerWrites(s), id) && Sane(ServerWrites(s).down, id)
  {
    hide IdsGiven, WaitersQueued, JoinCount, DisconnectCount, FirstFreeFrom;
    var t, m := ServerWrites(s), s.toProxy[0];
    DropFirst(s.toProxy, Removals(id));
    HeadGiven(s);
    match m {
      case AddClient(k) =>
        if FirstFree(s.slots) < MAXIMUM_CLIENTS { JoinBalances(s, id, k); }
      case Forward(at, chunk, owner) =>
        JoinAppend(s.down, Data(at, chunk, owner), id);
        SaneAppend(s.down, Data(at, chunk, owner), id);
      case RemoveClient(at, _) =>
        JoinAppend(s.down, DownFrame.Disconnect(at), id);
        SaneAppend(s.down, DownFrame.Disconnect(at), id);
    }
  }

  lemma JoinBalances(s: State, id: nat, k: nat)
    requires WellFormed(s) && s.toProxy != [] && s.toProxy[0] == AddClient(k) && FirstFree(s.slots) < MAXIMUM_CLIENTS
    requires k < |s.players| && s.players[k].stage.Waiting?
    requires DownBalance(s, id) && Sane(s.down, id)
    ensures DownBalance(ServerWrites(s), id) && Sane(ServerWrites(s).down, id)
  {
    hide JoinCount, DisconnectCount, FirstFreeFrom, Sane;
    var t, f := ServerWrites(s), Join(FirstFree(s.slots), k);
    DropFirst(s.toProxy, Removals(id));
    JoinAppend(s.down, f, id);
    PlayerUpdate(s, t, k, id);
    SaneAppend(s.down, f, id);
  }

  lemma HeadGiven(s: State)
    requires IdsGiven(s) && WaitersQueued(s) && s.toProxy != []
    ensures var m := s.toProxy[0];
            && (m.AddClient? ==> m.player < |s.players| && s.players[m.player].stage.Waiting?)
            && (!m.AddClient? ==> Given(s.down, m.id))
  {
  }

  lemma GivenStays(s: State, f: DownFrame)
    ensures forall id | Given(s.down, id) :: Given(s.down + [f], id)
    ensures f.Join? && f.id < MAXIMUM_CLIENTS ==> Given(s.down + [f], f.id)
  {
    hide JoinCount;
    forall id | Given(s.down, id) ensures Given(s.down + [f], id) {
      JoinAppend(s.down, f, id);
    }
    JoinAppend(s.down, f, f.id);
  }

  lemma WriteGiven(s: State)
    requires WellFormed(s) && IdsGiven(s) && WaitersQueued(s) && s.toProxy != []
    ensures IdsGiven(ServerWrites(s))
  {
    hide Given, FirstFreeFrom, WaitersQueued;
    var t := ServerWrites(s);
    assert forall i | 0 <= i < |t.toProxy| :: t.toProxy[i] == s.toProxy[i + 1];
    HeadGiven(s);
    if t.down != s.down {
      var f := t.down[|s.down|];
      assert t.down == s.down + [f];
      GivenStays(s, f);
      assert s.toProxy[0].RemoveClient? || s.toProxy[0].Forward? ==> f.id < MAXIMUM_CLIENTS by { GivenInRange(s); }
    }
  }

  lemma GivenInRange(s: State)
    requires IdsGiven(s)
    ensures forall i | 0 <= i < |s.toProxy| && !s.toProxy[i].AddClient? :: s.toProxy[i].id < MAXIMUM_CLIENTS
  {
  }

  lemma WriteWaiters(s: State)
    requires WellFormed(s) && WaitersQueued(s) && s.toProxy != [] && !ServerWrites(s).ended
    ensures WaitersQueued(ServerWrites(s))
  {
    hide ServerWrites, WellFormed;
    var t := ServerWrites(s);
    WriteServesFirst(s);
    assert forall i | 0 <= i < |t.toProxy| :: t.toProxy[i] == s.toProxy[i + 1];
    forall k | 0 <= k < |t.players| && t.players[k].stage.Waiting? ensures AddClient(k) in t.toProxy {
      assert AddClient(k) in s.toProxy && s.toProxy[0] != AddClient(k);
    }
  }

  /** Only the player who asked first stops waiting. */
  lemma WriteServesFirst(s: State)
    requires WellFormed(s) && s.toProxy != [] && !ServerWrites(s).ended
    ensures var t := ServerWrites(s);
            && t.toProxy == s.toProxy[1..] && |t.players| == |s.players|
            && forall k | 0 <= k < |s.players| ::
                 t.players[k].stage.Waiting? <==> s.players[k].stage.Waiting? && s.toProxy[0] != AddClient(k)
  {
    hide FirstFreeFrom;
  }

  lemma WriteKeeps(s: State)
    requires ServerInv(s) && s.toProxy != [] && !ServerWrites(s).ended
    ensures ServerInv(ServerWrites(s))
  {
    hide DownBalance, Sane, Given, ServerWrites;
    ServerWritesWellFormed(s);
    WriteGiven(s);
    WriteWaiters(s);
    forall id: nat ensures DownBalance(ServerWrites(s), id) && Sane(ServerWrites(s).down, id) {
      assert DownBalance(s, id) && Sane(s.down, id);
      WriteBalances(s, id);
    }
  }

  lemma ServerStepKeeps(s: State, e: Event)
    requires ServerInv(s) && Enabled(s, e) && !Step(s, e).ended
    ensures ServerInv(Step(s, e))
  {
    StepWellFormed(s, e);
    hide ServerInv, WellFormed, ServerWrites, ServerReads, ClientReads, ClientWrites;
    if e.ClientReader? || e.ClientWriter? { ClientLeavesServer(s); }
    var t := Step(s, e);
    match e {
      case Connect(first) => ConnectKeeps(s, first);
      case SendFirst(k) =>
        var id := s.players[k].stage.id;
        StartedKeeps(s, k);
        HandKeeps(SetStage(s, k, Running(id)), k, id, s.players[k].first);
      case PlayerSends(k, chunk) => HandKeeps(s, k, s.players[k].stage.id, chunk);
      case PlayerReceives(k) => SameStage(s, t, k);
      case PlayerLeaves(k) => LeaveKeeps(s, k);
      case PlayerDropped(k) => LeaveKeeps(s, k);
      case ServerWriter => WriteKeeps(s);
      case ServerReader => ReaderKeeps(s);
      case _ => SameServer(s, t);
    }
  }

  lemma ClientLeavesServer(s: State)
    requires WellFormed(s)
    ensures s.seen < |s.down| ==>
              var t := ClientReads(s); t.players == s.players && t.toProxy == s.toProxy && t.down == s.down
    ensures s.toServer != [] ==>
              var t := ClientWrites(s); t.players == s.players && t.toProxy == s.toProxy && t.down == s.down
  {
  }

  lemma ReaderKeeps(s: State)
    requires ServerInv(s) && s.upSeen < |s.up|
    ensures ServerInv(ServerReads(s))
  {
    ServerReadsWellFormed(s);
    hide ServerInv;
    var t := ServerReads(s);
    if t.players == s.players {
      SameServer(s, t);
    } else {
      SameStage(s, t, Lookup(s.slots, s.up[s.upSeen].id).value);
    }
  }

  // The client: a connection announces its end at most once

  ghost predicate UpBalance(s: State, id: nat) {
    && s.seen <= |s.down|
    && Sum(s.up, UpDisconnects(id)) + Sum(s.toServer, Leaves(id)) + Sum(s.connections, Alive(id))
       <= JoinCount(s.down[..s.seen], id)
  }

  lemma UpSame(s: State, t: State, id: nat)
    requires UpBalance(s, id) && s.down <= t.down && t.seen == s.seen
    requires t.up == s.up && t.toServer == s.toServer && t.connections == s.connections
    ensures UpBalance(t, id)
  {
    assert t.down[..t.seen] == s.down[..s.seen];
  }

  lemma ConnUpdate(s: State, t: State, j: nat, id: nat)
    requires UpBalance(s, id) && t.down == s.down && t.seen == s.seen && t.up == s.up
    requires j < |s.connections| && |t.connections| == |s.connections|
    requires t.connections == s.connections[j := t.connections[j]]
    requires Sum(t.toServer, Leaves(id)) + Alive(id)(t.connections[j]) <=
             Sum(s.toServer, Leaves(id)) + Alive(id)(s.connections[j])
    ensures UpBalance(t, id)
  {
    SumUpdate(s.connections, j, t.connections[j], Alive(id));
  }

  /** A frame taken by the client adds a connection, fills one inbox, or leaves the connections alone. */
  lemma ClientReadsEffect(s: State) returns (t: State, j: nat)
    requires WellFormed(s) && s.seen < |s.down|
    ensures t == ClientReads(s) && t.seen == s.seen + 1 && t.down == s.down
    ensures t.up == s.up && t.upSeen == s.upSeen && t.toServer == s.toServer && t.disconnects == s.disconnects
    ensures t.players == s.players && t.toProxy == s.toProxy
    ensures var f := s.down[s.seen];
            if f.Join? then t.connections == s.connections + [Conn(f.id, Connecting, [], [], f.owner, s.seen, [])]
            else t.connections == s.connections ||
                 (f.Data? && j < |s.connections| &&
                  t.connections == s.connections[j := s.connections[j].(inbox := s.connections[j].inbox + [f.chunk])])
  {
    t, j := ClientReads(s), 0;
    var f := s.down[s.seen];
    if f.Data? && t.connections != s.connections {
      j := s.conns.table[f.id].value;
    }
  }

  lemma ClientReadsBalances(s: State, id: nat)
    requires WellFormed(s) && UpBalance(s, id) && s.seen < |s.down|
    ensures UpBalance(ClientReads(s), id)
  {
    hide JoinCount, DisconnectCount, ClientReads, WellFormed;
    var f := s.down[s.seen];
    var t, j := ClientReadsEffect(s);
    assert s.down[..s.seen + 1] == s.down[..s.seen] + [f];
    JoinAppend(s.down[..s.seen], f, id);
    if f.Join? {
      SumAppend(s.connections, t.connections[|s.connections|], Alive(id));
    } else if t.connections != s.connections {
      SumUpdate(s.connections, j, t.connections[j], Alive(id));
    }
  }

  lemma ClientWritesBalances(s: State, id: nat)
    requires UpBalance(s, id) && s.toServer != []
    ensures UpBalance(ClientWrites(s), id)
  {
    hide JoinCount;
    var t := ClientWrites(s);
    DropFirst(s.toServer, Leaves(id));
    if t.up != s.up {
      assert t.up == s.up + [t.up[|s.up|]];
      SumAppend(s.up, t.up[|s.up|], UpDisconnects(id));
    }
  }

  lemma QueueTwo(q: seq<ToServer>, m: ToServer, n: ToServer, id: nat)
    ensures Sum(q + [m, n], Leaves(id)) == Sum(q, Leaves(id)) + Leaves(id)(m) + Leaves(id)(n)
  {
    SumAppend(q, m, Leaves(id));
    SumAppend(q + [m], n, Leaves(id));
    assert q + [m, n] == q + [m] + [n];
  }

  lemma ConnStepBalances(s: State, e: Event, id: nat)
    requires WellFormed(s) && UpBalance(s, id) && Enabled(s, e)
    requires e.ConnOpens? || e.ConnFails? || e.ConnSends? || e.ConnReceives? || e.ConnEnds? || e.ConnDropped?
    ensures UpBalance(Step(s, e), id)
  {
    hide UpBalance, WellFormed, ServerWrites, ServerReads, ClientReads, ClientWrites;
    var t := Step(s, e);
    var leave := Leave(s.connections[e.j].id);
    match e {
      case ConnFails(_) => QueueTwo(s.toServer, Death, leave, id);
      case ConnEnds(_) => SumAppend(s.toServer, leave, Leaves(id));
      case ConnSends(j, chunk) =>
        SumAppend(s.toServer, Packet(s.connections[j].id, chunk, j), Leaves(id));
      case _ =>
    }
    ConnUpdate(s, t, e.j, id);
  }

  lemma UpStepKeeps(s: State, e: Event, id: nat)
    requires WellFormed(s) && UpBalance(s, id) && Enabled(s, e)
    ensures UpBalance(Step(s, e), id)
  {
    hide UpBalance, WellFormed;
    match e {
      case ConnOpens(_) => ConnStepBalances(s, e, id);
      case ConnFails(_) => ConnStepBalances(s, e, id);
      case ConnSends(_, _) => ConnStepBalances(s, e, id);
      case ConnReceives(_) => ConnStepBalances(s, e, id);
      case ConnEnds(_) => ConnStepBalances(s, e, id);
      case ConnDropped(_) => ConnStepBalances(s, e, id);
      case ClientWriter => ClientWritesBalances(s, id);
      case ClientReader => ClientReadsBalances(s, id);
      case _ => UpSame(s, Step(s, e), id);
    }
  }

  // Every run

  ghost predicate Inv(s: State) {
    && WellFormed(s) && (!s.ended ==> ServerInv(s))
    && (forall id: nat :: Sane(s.down, id))
    && (forall id: nat :: UpBalance(s, id))
  }

  lemma StartInv()
    ensures Inv(Start())
  {
  }

  /** A step that ends the session adds nothing to the stream. */
  lemma EndingStep(s: State, e: Event)
    requires WellFormed(s) && Enabled(s, e) && Step(s, e).ended
    ensures Step(s, e).down == s.down
  {
  }

  lemma StepKeeps(s: State, e: Event)
    requires Inv(s)
    ensures Inv(Step(s, e))
  {
    StepWellFormed(s, e);
    hide WellFormed, Sane, UpBalance, Apply, IdsGiven, WaitersQueued;
    if Enabled(s, e) {
      var t := Step(s, e);
      if t.ended {
        EndingStep(s, e);
      } else {
        ServerStepKeeps(s, e);
      }
      forall id: nat ensures UpBalance(t, id) {
        UpStepKeeps(s, e, id);
      }
    }
  }

  lemma {:induction false} RunInv(es: seq<Event>)
    ensures Inv(Run(es))
  {
    hide Inv, Step;
    if es == [] {
      StartInv();
    } else {
      RunInv(es[..|es| - 1]);
      StepKeeps(Run(es[..|es| - 1]), es[|es| - 1]);
    }
  }

  /**
   In every run, races included, and at every point of the stream: an id was
   never disconnected more often than it was joined, and data for it came after
   a join. Going up, no more endings are announced than joins were received.
   */
  lemma NoInfiniteAcks(es: seq<Event>, id: nat)
    ensures var s := Run(es);
            && (forall n | 0 <= n <= |s.down| :: DisconnectCount(s.down[..n], id) <= JoinCount(s.down[..n], id))
            && (forall n | 0 <= n < |s.down| && s.down[n].Data? && s.down[n].id == id ::
                  JoinCount(s.down[..n], id) >= 1)
            && s.seen <= |s.down|
            && Sum(s.up, UpDisconnects(id)) <= JoinCount(s.down[..s.seen], id)
  {
    hide Run, WellFormed, ServerInv, JoinCount, DisconnectCount;
    RunInv(es);
    assert Sane(Run(es).down, id) && UpBalance(Run(es), id);
  }

  // Coming to rest

  function QueueWeight(): ToProxy -> nat {
    (m: ToProxy) => match m case AddClient(_) => 10 case Forward(_, _, _) => 3 case RemoveClient(_, _) => 2
  }

  function DownWeight(): DownFrame -> nat {
    (f: DownFrame) => if f.Disconnect? then 1 else 2
  }

  function PlayerWeight(): Player -> nat {
    (p: Player) =>
      |p.inbox| + match p.stage case Waiting => 0 case Assigned(_) => 7 case Running(_) => 3 case Gone => 0
  }

  function ConnWeight(): Conn -> nat {
    (c: Conn) => |c.inbox| + if c.stage.Closed? then 0 else 1
  }

  function LeaveWeight(): ToServer -> nat {
    (m: ToServer) => if m.Death? then 1 else 3
  }

  function UpWeight(): UpFrame -> nat {
    (f: UpFrame) => if f.UpData? then 2 else 1
  }

  /** How much can still happen without new input. */
  function Measure(s: State): nat
    requires WellFormed(s)
  {
    Sum(s.toProxy, QueueWeight()) + Sum(s.players, PlayerWeight()) + Sum(s.down[s.seen..], DownWeight()) +
    Sum(s.connections, ConnWeight()) + Sum(s.toServer, LeaveWeight()) + |s.disconnects| +
    Sum(s.up[s.upSeen..], UpWeight())
  }

  lemma PlayerWeighs(s: State, t: State, k: nat)
    requires k < |s.players| && |t.players| == |s.players| && t.players == s.players[k := t.players[k]]
    ensures Sum(t.players, PlayerWeight()) + PlayerWeight()(s.players[k]) ==
            Sum(s.players, PlayerWeight()) + PlayerWeight()(t.players[k])
  {
    SumUpdate(s.players, k, t.players[k], PlayerWeight());
  }

  lemma ConnWeighs(s: State, t: State, j: nat)
    requires j < |s.connections| && |t.connections| == |s.connections|
    requires t.connections == s.connections[j := t.connections[j]]
    ensures Sum(t.connections, ConnWeight()) + ConnWeight()(s.connections[j]) ==
            Sum(s.connections, ConnWeight()) + ConnWeight()(t.connections[j])
  {
    SumUpdate(s.connections, j, t.connections[j], ConnWeight());
  }

  lemma PlayerStepShrinks(s: State, e: Event)
    requires WellFormed(s) && WellFormed(Step(s, e)) && Enabled(s, e)
    requires e.SendFirst? || e.PlayerReceives? || e.PlayerDropped?
    ensures Measure(Step(s, e)) < Measure(s)
  {
    hide WellFormed;
    var t := Step(s, e);
    if t.toProxy != s.toProxy {
      assert t.toProxy == s.toProxy + [t.toProxy[|s.toProxy|]];
      SumAppend(s.toProxy, t.toProxy[|s.toProxy|], QueueWeight());
    }
    PlayerWeighs(s, t, e.k);
  }

  /** Taking one message off the queue and putting one frame on the stream. */
  lemma QueueToStream(s: State, t: State, f: DownFrame)
    requires s.toProxy != [] && t.toProxy == s.toProxy[1..] && s.seen <= |s.down|
    requires t.down == s.down + [f] && t.seen == s.seen
    ensures Sum(t.toProxy, QueueWeight()) + QueueWeight()(s.toProxy[0]) == Sum(s.toProxy, QueueWeight())
    ensures Sum(t.down[t.seen..], DownWeight()) == Sum(s.down[s.seen..], DownWeight()) + DownWeight()(f)
  {
    DropFirst(s.toProxy, QueueWeight());
    assert t.down[t.seen..] == s.down[s.seen..] + [f];
    SumAppend(s.down[s.seen..], f, DownWeight());
  }

  lemma WriteAddShrinks(s: State, k: nat)
    requires WellFormed(s) && s.toProxy != [] && s.toProxy[0] == AddClient(k) && WellFormed(ServerWrites(s))
    requires s.players[k].stage.Waiting?
    ensures Measure(ServerWrites(s)) < Measure(s)
  {
    var t := ServerWrites(s);
    hide WellFormed, FirstFreeFrom;
    if FirstFree(s.slots) == MAXIMUM_CLIENTS {
      DropFirst(s.toProxy, QueueWeight());
    } else {
      QueueToStream(s, t, Join(FirstFree(s.slots), k));
      PlayerWeighs(s, t, k);
    }
  }

  lemma ServerWritesShrinks(s: State)
    requires WellFormed(s) && WaitersQueued(s) && s.toProxy != [] && WellFormed(ServerWrites(s))
    ensures Measure(ServerWrites(s)) < Measure(s)
  {
    var t := ServerWrites(s);
    match s.toProxy[0] {
      case AddClient(k) =>
        assert s.players[k].stage.Waiting?;
        WriteAddShrinks(s, k);
      case Forward(id, chunk, owner) =>
        hide WellFormed, WaitersQueued;
        QueueToStream(s, t, Data(id, chunk, owner));
      case RemoveClient(id, _) =>
        hide WellFormed, WaitersQueued;
        DropFirst(s.toProxy, QueueWeight());
        if id < MAXIMUM_CLIENTS { QueueToStream(s, t, DownFrame.Disconnect(id)); }
    }
  }

  lemma ServerReadsShrinks(s: State)
    requires WellFormed(s) && s.upSeen < |s.up| && WellFormed(ServerReads(s))
    ensures Measure(ServerReads(s)) < Measure(s)
  {
    hide ServerReads, WellFormed;
    var t := ServerReads(s);
    ReadDelivers(s);
    DropFirst(s.up[s.upSeen..], UpWeight());
    assert s.up[s.upSeen..][1..] == t.up[t.upSeen..];
    if t.players != s.players {
      PlayerWeighs(s, t, Lookup(s.slots, s.up[s.upSeen].id).value);
    }
  }

  /** Reading a frame delivers it to one player at most. */
  lemma ReadDelivers(s: State)
    requires WellFormed(s) && s.upSeen < |s.up|
    ensures var t := ServerReads(s);
            && t == s.(upSeen := s.upSeen + 1, slots := t.slots, players := t.players)
            && (t.players != s.players ==>
                  && Lookup(s.slots, s.up[s.upSeen].id).Some?
                  && var k := Lookup(s.slots, s.up[s.upSeen].id).value;
                  && s.up[s.upSeen].UpData? && k < |s.players| && !s.players[k].stage.Gone?
                  && t.players == s.players[k := s.players[k].(inbox := s.players[k].inbox + [s.up[s.upSeen].chunk])])
  {
    hide Removed;
  }

  lemma ConnStepShrinks(s: State, e: Event)
    requires WellFormed(s) && WellFormed(Step(s, e)) && Enabled(s, e)
    requires e.ConnReceives? || e.ConnDropped?
    ensures Measure(Step(s, e)) < Measure(s)
  {
    hide WellFormed;
    ConnWeighs(s, Step(s, e), e.j);
  }

  lemma ClientWritesShrinks(s: State)
    requires WellFormed(s) && s.toServer != [] && WellFormed(ClientWrites(s))
    ensures Measure(ClientWrites(s)) < Measure(s)
  {
    var t := ClientWrites(s);
    UpSeenInRange(s);
    hide WellFormed;
    DropFirst(s.toServer, LeaveWeight());
    match s.toServer[0] {
      case Packet(id, chunk, source) => UpGrows(s, t, UpData(id, chunk, source));
      case Leave(id) => UpGrows(s, t, UpDisconnect(id));
      case Death =>
    }
  }

  lemma UpGrows(s: State, t: State, f: UpFrame)
    requires s.upSeen <= |s.up| && t.up == s.up + [f] && t.upSeen == s.upSeen
    ensures Sum(t.up[t.upSeen..], UpWeight()) == Sum(s.up[s.upSeen..], UpWeight()) + UpWeight()(f)
  {
    assert t.up[t.upSeen..] == s.up[s.upSeen..] + [f];
    SumAppend(s.up[s.upSeen..], f, UpWeight());
  }

  lemma UpSeenInRange(s: State)
    requires WellFormed(s)
    ensures s.upSeen <= |s.up|
  {
  }

  lemma ClientReadsShrinks(s: State)
    requires WellFormed(s) && s.seen < |s.down| && WellFormed(ClientReads(s))
    ensures Measure(ClientReads(s)) < Measure(s)
  {
    var f := s.down[s.seen];
    var t, j := ClientReadsEffect(s);
    hide ClientReads, WellFormed;
    DropFirst(s.down[s.seen..], DownWeight());
    assert s.down[s.seen..][1..] == t.down[t.seen..];
    if f.Join? {
      SumAppend(s.connections, t.connections[|s.connections|], ConnWeight());
    } else if t.connections != s.connections {
      ConnWeighs(s, t, j);
    }
  }

  /** Every step the tunnel takes by itself brings it closer to rest. */
  lemma InternalStepShrinks(s: State, e: Event)
    requires Inv(s) && Internal(e) && Enabled(s, e)
    ensures WellFormed(Step(s, e)) && Measure(Step(s, e)) < Measure(s)
  {
    StepWellFormed(s, e);
    assert WaitersQueued(s);
    hide WellFormed, IdsGiven, WaitersQueued, Inv;
    match e {
      case ServerWriter => ServerWritesShrinks(s);
      case ServerReader => ServerReadsShrinks(s);
      case ClientWriter => ClientWritesShrinks(s);
      case ClientReader => ClientReadsShrinks(s);
      case ConnReceives(_) => ConnStepShrinks(s, e);
      case ConnDropped(_) => ConnStepShrinks(s, e);
      case ClientDisconnect =>
      case _ => PlayerStepShrinks(s, e);
    }
  }

  /** Possible internal steps, one after the other. */
  ghost predicate RunsInside(s: State, es: seq<Event>)
    requires WellFormed(s)
    decreases |es|
  {
    es == [] ||
    (Internal(es[0]) && Enabled(s, es[0]) && (StepWellFormed(s, es[0]); RunsInside(Step(s, es[0]), es[1..])))
  }

  lemma {:induction false} InsideIsBounded(s: State, es: seq<Event>)
    requires Inv(s) && RunsInside(s, es)
    ensures |es| <= Measure(s)
    decreases |es|
  {
    hide Inv, Measure, Step;
    InvWellFormed(s);
    if es != [] {
      InternalStepShrinks(s, es[0]);
      StepKeeps(s, es[0]);
      InsideIsBounded(Step(s, es[0]), es[1..]);
    }
  }

  lemma InvWellFormed(s: State)
    requires Inv(s)
    ensures WellFormed(s)
  {
  }

  /** Once input stops, a session takes at most `Measure` more steps, in whatever order its tasks run. */
  lemma ComesToRest(es: seq<Event>, more: seq<Event>)
    requires RunsInside(Run(es), more)
    ensures |more| <= Measure(Run(es))
  {
    hide Inv, Measure, RunsInside;
    RunInv(es);
    InsideIsBounded(Run(es), more);
  }

  // At rest

  lemma {:induction false} SumSingle<T>(s: seq<T>, u: nat, w: T -> nat)
    requires u < |s| && forall i | 0 <= i < |s| && i != u :: w(s[i]) == 0
    ensures Sum(s, w) == w(s[u])
    decreases |s|
  {
    if u > 0 {
      SumSingle(s[1..], u - 1, w);
    } else {
      SumZero(s[1..], w);
    }
  }

  lemma {:induction false} SumZero<T>(s: seq<T>, w: T -> nat)
    requires forall i | 0 <= i < |s| :: w(s[i]) == 0
    ensures Sum(s, w) == 0
  {
    if s != [] { SumZero(s[1..], w); }
  }

  /**
   At rest, in every run that has not ended: every player has started or gone,
   every running player still holds its slot, and the joins of an id exceed
   its disconnects by one if a running player holds it and by none otherwise.
   */
  lemma RestIsBalanced(es: seq<Event>, id: nat)
    requires Quiescent(Run(es)) && !Run(es).ended && id < MAXIMUM_CLIENTS
    ensures var s := Run(es);
            && (forall k | 0 <= k < |s.players| :: s.players[k].stage.Running? || s.players[k].stage.Gone?)
            && (forall k | 0 <= k < |s.players| && s.players[k].stage.Running? ::
                  Lookup(s.slots, s.players[k].stage.id) == Some(k))
            && JoinCount(s.down, id) == DisconnectCount(s.down, id) +
               if exists k :: 0 <= k < |s.players| && s.players[k].stage == Running(id) then 1 else 0
  {
    var s := Run(es);
    RunInv(es);
    hide Run, WellFormed, IdsGiven;
    RestStages(s);
    assert DownBalance(s, id);
    hide Inv, JoinCount, DisconnectCount;
    assert !Enabled(s, ServerWriter);
    if k :| 0 <= k < |s.players| && s.players[k].stage == Running(id) {
      SumSingle(s.players, k, Holders(id));
    } else {
      SumZero(s.players, Holders(id));
    }
  }

  lemma RestStages(s: State)
    requires WaitersQueued(s) && Quiescent(s) && !s.ended
    ensures forall k | 0 <= k < |s.players| :: s.players[k].stage.Running? || s.players[k].stage.Gone?
    ensures forall k | 0 <= k < |s.players| && s.players[k].stage.Running? ::
              Lookup(s.slots, s.players[k].stage.id) == Some(k)
  {
    assert !Enabled(s, ServerWriter);
    forall k | 0 <= k < |s.players|
      ensures s.players[k].stage.Running? || s.players[k].stage.Gone?
      ensures s.players[k].stage.Running? ==> Lookup(s.slots, s.players[k].stage.id) == Some(k)
    {
      assert !Enabled(s, SendFirst(k)) && !Enabled(s, PlayerReceives(k)) && !Enabled(s, PlayerDropped(k));
    }
  }
}
