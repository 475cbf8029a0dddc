/**
 What the Minecraft server's side can do to a tunnel by ending a connection or by
 not accepting one: the frames a player had already sent find the connection
 gone, and end the session of every player.
 */
module FarSide {
  import opened Basics
  import opened Slots
  import opened Multiplexer
  import Endings

  /** The Minecraft server drops connection `j`; before the proxy has learned of it, player `k` sends once more. */
  function DropAndSend(j: nat, k: nat, chunk: Chunk): seq<Event> {
    [ConnEnds(j), ClientWriter, ClientDisconnect, PlayerSends(k, chunk), ServerWriter, ClientReader]
  }

  /** At rest no queue holds anything. */
  predicate QueuesEmpty(s: State) {
    s.toProxy == [] && s.toServer == [] && s.disconnects == [] && s.seen == |s.down|
  }

  lemma RestHasEmptyQueues(s: State)
    requires Quiescent(s) && !s.ended && WellFormed(s)
    ensures QueuesEmpty(s)
  {
    assert !Enabled(s, ServerWriter) && !Enabled(s, ClientWriter);
    assert !Enabled(s, ClientReader) && !Enabled(s, ClientDisconnect);
  }

  lemma EndStep(s: State, j: nat)
    requires WellFormed(s) && !s.ended && IsOpen(s, j) && s.toServer == []
    ensures Step(s, ConnEnds(j)) ==
            SetConn(s, j, s.connections[j].(stage := Closed)).(toServer := [Leave(s.connections[j].id)])
  {
  }

  lemma LeaveStep(s: State, id: nat)
    requires WellFormed(s) && !s.ended && s.toServer == [Leave(id)] && s.disconnects == []
    ensures Step(s, ClientWriter) == s.(toServer := [], disconnects := [id], up := s.up + [UpDisconnect(id)])
  {
    hide WellFormed, ServerWrites, ClientReads, ServerReads;
    assert s.toServer[1..] == [] && s.disconnects + [id] == [id];
  }

  lemma ClearStep(s: State, id: nat)
    requires WellFormed(s) && !s.ended && s.disconnects == [id]
    ensures Step(s, ClientDisconnect) == s.(disconnects := [], conns := RemoveConnection(s.conns, id))
  {
    hide WellFormed, ServerWrites, ClientReads, ServerReads;
    assert s.disconnects[1..] == [];
  }

  lemma ClearedByDrop(es: seq<Event>, j: nat)
    requires var s := Run(es); !s.ended && QueuesEmpty(s) && IsOpen(s, j)
    ensures var s, t := Run(es), Run(es + [ConnEnds(j)] + [ClientWriter] + [ClientDisconnect]);
            && Lookup(t.conns.table, s.connections[j].id).None?
            && t.players == s.players && QueuesEmpty(t) && !t.ended
  {
    hide Run, Step, WellFormed;
    var id := Run(es).connections[j].id;
    RunAppend(es, ConnEnds(j));
    EndStep(Run(es), j);
    RunAppend(es + [ConnEnds(j)], ClientWriter);
    LeaveStep(Run(es + [ConnEnds(j)]), id);
    RunAppend(es + [ConnEnds(j)] + [ClientWriter], ClientDisconnect);
    ClearStep(Run(es + [ConnEnds(j)] + [ClientWriter]), id);
  }

  lemma MoreStep(s: State, k: nat, id: nat, chunk: Chunk)
    requires WellFormed(s) && !s.ended && k < |s.players| && s.players[k].stage == Running(id)
    requires 0 < |chunk| <= PLAYER_BUFFER
    ensures var t := Step(s, PlayerSends(k, chunk));
            && !t.ended && t.toProxy == s.toProxy + [Forward(id, chunk, k)] && t.down == s.down && t.seen == s.seen
            && t.conns == s.conns && t.connections == s.connections
  {
    hide WellFormed;
  }

  lemma ForwardStep(s: State, id: nat, chunk: Chunk, k: nat)
    requires WellFormed(s) && !s.ended && s.toProxy == [Forward(id, chunk, k)]
    ensures var t := Step(s, ServerWriter);
            t.down == s.down + [Data(id, chunk, k)] && t.seen == s.seen && t.conns == s.conns && !t.ended
  {
    hide WellFormed, FirstFreeFrom;
  }

  lemma LostStep(s: State, id: nat, chunk: Chunk, k: nat)
    requires WellFormed(s) && !s.ended && s.seen < |s.down| && s.down[s.seen] == Data(id, chunk, k)
    requires Lookup(s.conns.table, id).None?
    ensures Step(s, ClientReader).clientNotFound && Step(s, ClientReader).ended
  {
    hide WellFormed, Listening;
  }

  lemma LostBySend(es: seq<Event>, k: nat, chunk: Chunk)
    requires 0 < |chunk| <= PLAYER_BUFFER
    requires var s := Run(es);
             && !s.ended && QueuesEmpty(s) && IsRunning(s, k)
             && Lookup(s.conns.table, s.players[k].stage.id).None?
    ensures var t := Run(es + [PlayerSends(k, chunk)] + [ServerWriter] + [ClientReader]); t.clientNotFound && t.ended
  {
    hide Run, Step, WellFormed;
    var id := Run(es).players[k].stage.id;
    RunAppend(es, PlayerSends(k, chunk));
    MoreStep(Run(es), k, id, chunk);
    assert Run(es).toProxy + [Forward(id, chunk, k)] == [Forward(id, chunk, k)];
    RunAppend(es + [PlayerSends(k, chunk)], ServerWriter);
    ForwardStep(Run(es + [PlayerSends(k, chunk)]), id, chunk, k);
    RunAppend(es + [PlayerSends(k, chunk)] + [ServerWriter], ClientReader);
    LostStep(Run(es + [PlayerSends(k, chunk)] + [ServerWriter]), id, chunk, k);
  }

  /**
   From every session at rest, races before it or not: if the Minecraft server
   drops an open connection whose player is still there, one more chunk from
   this player can end the session, and with it every other player's.
   */
  lemma FarEndingCanEndSession(es: seq<Event>, j: nat, k: nat, chunk: Chunk)
    requires 0 < |chunk| <= PLAYER_BUFFER
    requires var s := Run(es);
             && Quiescent(s) && !s.ended && IsOpen(s, j)
             && IsRunning(s, k) && s.players[k].stage.id == s.connections[j].id
    ensures var t := Run(es + DropAndSend(j, k, chunk)); t.clientNotFound && t.ended
  {
    hide Run, Quiescent;
    RestHasEmptyQueues(Run(es));
    ClearedByDrop(es, j);
    var dropped := es + [ConnEnds(j)] + [ClientWriter] + [ClientDisconnect];
    LostBySend(dropped, k, chunk);
    assert dropped + [PlayerSends(k, chunk)] + [ServerWriter] + [ClientReader] == es + DropAndSend(j, k, chunk);
  }

  // A connection that cannot be made

  /** A new player sends twice before its connection to the Minecraft server fails. */
  function JoinAndFail(s: State, first: Chunk, chunk: Chunk): seq<Event> {
    var k, j := |s.players|, |s.connections|;
    [Connect(first), ServerWriter, ClientReader, SendFirst(k), PlayerSends(k, chunk), ServerWriter, ServerWriter,
     ConnFails(j), ClientReader, ClientReader]
  }

  /** The newcomer `k` has been given `id`, and its connection `j` is being made. */
  ghost predicate Arrived(s: State, id: nat, k: nat, j: nat) {
    && !s.ended && s.toProxy == [] && s.seen == |s.down| && Lookup(s.conns.table, id) == Some(j)
    && k < |s.players| && s.players[k].stage == Assigned(id)
    && j < |s.connections| && s.connections[j].stage.Connecting? && s.toServer == []
  }

  lemma Arrives(es: seq<Event>, first: Chunk)
    requires var s := Run(es); !s.ended && QueuesEmpty(s) && FirstFree(s.slots) < MAXIMUM_CLIENTS
    ensures var s, t := Run(es), Run(es + [Connect(first)] + [ServerWriter] + [ClientReader]);
            Arrived(t, FirstFree(s.slots), |s.players|, |s.connections|) && t.players[|s.players|].first == first
  {
    hide Run, Step, WellFormed, FirstFreeFrom;
    var s := Run(es);
    RunAppend(es, Connect(first));
    ConnectStep(s, first);
    var a := Run(es + [Connect(first)]);
    RunAppend(es + [Connect(first)], ServerWriter);
    AdmitStep(a, |s.players|);
    var b := Run(es + [Connect(first)] + [ServerWriter]);
    RunAppend(es + [Connect(first)] + [ServerWriter], ClientReader);
    BeginStep(b, FirstFree(s.slots), |s.players|);
  }

  lemma ConnectStep(s: State, first: Chunk)
    requires WellFormed(s) && !s.ended && s.toProxy == []
    ensures Step(s, Connect(first)) ==
            s.(players := s.players + [Player(Waiting, first, [], [], [])], toProxy := [AddClient(|s.players|)])
  {
  }

  lemma AdmitStep(s: State, k: nat)
    requires WellFormed(s) && !s.ended && s.toProxy == [AddClient(k)] && FirstFree(s.slots) < MAXIMUM_CLIENTS
    ensures k < |s.players|
    ensures var t, id := Step(s, ServerWriter), FirstFree(s.slots);
            && !t.ended && t.toProxy == [] && t.down == s.down + [Join(id, k)] && t.seen == s.seen
            && t.conns == s.conns && t.connections == s.connections && t.toServer == s.toServer
            && t.players == s.players[k := s.players[k].(stage := Assigned(id))]
  {
    hide FirstFreeFrom;
  }

  lemma BeginStep(s: State, id: nat, k: nat)
    requires WellFormed(s) && !s.ended && s.seen < |s.down| && s.down[s.seen] == Join(id, k) && id < MAXIMUM_CLIENTS
    ensures var t := Step(s, ClientReader);
            && !t.ended && t.toProxy == s.toProxy && t.down == s.down && t.seen == s.seen + 1 && t.players == s.players
            && Lookup(t.conns.table, id) == Some(|s.connections|) && t.toServer == s.toServer
            && |t.connections| == |s.connections| + 1 && t.connections[|s.connections|].stage.Connecting?
  {
    hide WellFormed, Listening;
  }

  /** Two chunks are on the stream, and the connection they are for has failed. */
  ghost predicate Failed(s: State, id: nat, j: nat) {
    && !s.ended && s.seen + 2 == |s.down| && s.down[s.seen].Data? && s.down[s.seen + 1].Data?
    && s.down[s.seen].id == id && s.down[s.seen + 1].id == id
    && Lookup(s.conns.table, id) == Some(j) && j < |s.connections| && s.connections[j].stage.Closed?
  }

  lemma Fails(es: seq<Event>, id: nat, k: nat, j: nat, chunk: Chunk)
    requires Arrived(Run(es), id, k, j) && 0 < |chunk| <= PLAYER_BUFFER
    ensures var fs := es + [SendFirst(k)] + [PlayerSends(k, chunk)];
            Failed(Run(fs + [ServerWriter] + [ServerWriter] + [ConnFails(j)]), id, j)
  {
    hide Run, Step, WellFormed;
    var s := Run(es);
    RunAppend(es, SendFirst(k));
    StartStep(s, k, id);
    RunAppend(es + [SendFirst(k)], PlayerSends(k, chunk));
    var a := Run(es + [SendFirst(k)]);
    MoreStep(a, k, id, chunk);
    var fs := es + [SendFirst(k)] + [PlayerSends(k, chunk)];
    var b := Run(fs);
    RunAppend(fs, ServerWriter);
    OutStep(b);
    RunAppend(fs + [ServerWriter], ServerWriter);
    OutStep(Run(fs + [ServerWriter]));
    RunAppend(fs + [ServerWriter] + [ServerWriter], ConnFails(j));
    FailStep(Run(fs + [ServerWriter] + [ServerWriter]), j);
  }

  lemma StartStep(s: State, k: nat, id: nat)
    requires WellFormed(s) && !s.ended && k < |s.players| && s.players[k].stage == Assigned(id) && s.toProxy == []
    ensures var t := Step(s, SendFirst(k));
            && !t.ended && t.toProxy == [Forward(id, s.players[k].first, k)] && t.down == s.down && t.seen == s.seen
            && t.conns == s.conns && t.connections == s.connections
            && k < |t.players| && t.players[k].stage == Running(id)
  {
    hide WellFormed;
  }

  lemma OutStep(s: State)
    requires WellFormed(s) && !s.ended && s.toProxy != [] && s.toProxy[0].Forward?
    ensures var t, m := Step(s, ServerWriter), s.toProxy[0];
            && !t.ended && t.toProxy == s.toProxy[1..] && t.down == s.down + [Data(m.id, m.chunk, m.owner)]
            && t.seen == s.seen && t.conns == s.conns && t.connections == s.connections
  {
    hide WellFormed, FirstFreeFrom;
  }

  lemma FailStep(s: State, j: nat)
    requires WellFormed(s) && !s.ended && j < |s.connections| && s.connections[j].stage.Connecting?
    ensures var t := Step(s, ConnFails(j));
            && !t.ended && t.down == s.down && t.seen == s.seen && t.conns == s.conns
            && |t.connections| == |s.connections| && t.connections[j].stage.Closed?
  {
    hide WellFormed;
  }

  lemma SecondChunkLost(es: seq<Event>, id: nat, j: nat)
    requires Failed(Run(es), id, j)
    ensures var t := Run(es + [ClientReader] + [ClientReader]); t.clientNotFound && t.ended
  {
    hide Run, Step, WellFormed;
    var s := Run(es);
    RunAppend(es, ClientReader);
    DropStep(s, id, j);
    RunAppend(es + [ClientReader], ClientReader);
    var t := Run(es + [ClientReader]);
    LostStep(t, id, t.down[t.seen].chunk, t.down[t.seen].owner);
  }

  /** The first chunk finds the dead receiver and empties the slot. */
  lemma DropStep(s: State, id: nat, j: nat)
    requires WellFormed(s) && !s.ended && s.seen < |s.down| && s.down[s.seen].Data? && s.down[s.seen].id == id
    requires Lookup(s.conns.table, id) == Some(j) && j < |s.connections| && s.connections[j].stage.Closed?
    ensures var t := Step(s, ClientReader);
            !t.ended && t.down == s.down && t.seen == s.seen + 1 && Lookup(t.conns.table, id).None?
  {
    hide WellFormed;
  }

  /**
   From every session at rest with a slot to spare: a new player whose connection
   to the Minecraft server fails can end the session for everybody with its
   second chunk.
   */
  lemma FailedConnectCanEndSession(es: seq<Event>, first: Chunk, chunk: Chunk)
    requires 0 < |chunk| <= PLAYER_BUFFER
    requires var s := Run(es); Quiescent(s) && !s.ended && FirstFree(s.slots) < MAXIMUM_CLIENTS
    ensures var t := Run(es + JoinAndFail(Run(es), first, chunk)); t.clientNotFound && t.ended
  {
    hide Run, Quiescent, FirstFreeFrom, Arrived, Failed;
    var s := Run(es);
    RestHasEmptyQueues(s);
    var id, k, j := FirstFree(s.slots), |s.players|, |s.connections|;
    Arrives(es, first);
    var fs := es + [Connect(first)] + [ServerWriter] + [ClientReader];
    Fails(fs, id, k, j, chunk);
    var gs := fs + [SendFirst(k)] + [PlayerSends(k, chunk)] + [ServerWriter] + [ServerWriter] + [ConnFails(j)];
    SecondChunkLost(gs, id, j);
    assert gs + [ClientReader] + [ClientReader] == es + JoinAndFail(s, first, chunk);
  }

  /** The first player of a session, and nothing ended by the far side but this failure. */
  lemma FirstPlayerFails()
    ensures var es := JoinAndFail(Start(), [1], [2]);
            Run(es).clientNotFound && (forall e | e in es :: !e.ConnEnds?) && ConnFails(0) in es
  {
    var es := JoinAndFail(Start(), [1], [2]);
    StartAtRest();
    assert Run([]) == Start() && [] + es == es;
    FailedConnectCanEndSession([], [1], [2]);
    assert es[7] == ConnFails(0);
  }

  lemma StartAtRest()
    ensures Quiescent(Start()) && FirstFree(Start().slots) < MAXIMUM_CLIENTS
  {
  }

  /** Without a single chunk: the writer has only to take the message that the connection could not be made. */
  lemma FailureAloneEndsSession()
    ensures Run([Connect([1]), ServerWriter, ClientReader, ConnFails(0), ClientWriter]).ended
  {
    StartAtRest();
    StartRuns();
    hide Run, Step, WellFormed, FirstFreeFrom, Quiescent;
    var es := [Connect([1]), ServerWriter, ClientReader];
    assert [] + [Connect([1])] + [ServerWriter] + [ClientReader] == es;
    Arrives([], [1]);
    RunAppend(es, ConnFails(0));
    RunAppend(es + [ConnFails(0)], ClientWriter);
    DeathFirst(Run(es), 0);
    Endings.StepEnds(Run(es + [ConnFails(0)]), ClientWriter);
    assert es + [ConnFails(0)] + [ClientWriter] ==
           [Connect([1]), ServerWriter, ClientReader, ConnFails(0), ClientWriter];
  }

  lemma StartRuns()
    ensures Run([]) == Start() && QueuesEmpty(Start()) && !Start().ended
  {
  }

  lemma DeathFirst(s: State, j: nat)
    requires WellFormed(s) && !s.ended && j < |s.connections| && s.connections[j].stage.Connecting? && s.toServer == []
    ensures !Step(s, ConnFails(j)).ended && Endings.TakesDeath(Step(s, ConnFails(j)))
  {
    hide WellFormed;
  }
}
