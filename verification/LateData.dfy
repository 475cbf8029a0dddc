/**
 Two runs in which data goes astray. In the first nothing ever goes wrong on the
 far side: a player leaves, another is let in under the same id, and only then the
 first one's connection says something more. In the second the far side ends the
 first player's connection, and it is the player who sends too late.
 */
module LateData {
  import opened Basics
  import opened Slots
  import opened Multiplexer
  import opened Isolation
  import DownStream
  import UpStream

  const LATE: seq<Event> := [
    Connect([1]), ServerWriter, ClientReader, ConnOpens(0), SendFirst(0), PlayerLeaves(0), ServerWriter, ServerWriter,
    Connect([2]), ServerWriter, SendFirst(1), ConnSends(0, [9]), ClientWriter, ServerReader, PlayerReceives(1)
  ]

  lemma LateStep(n: nat, s: State, t: State)
    requires n < |LATE| && WellFormed(s)
    requires Run(LATE[..n]) == s && Step(s, LATE[n]) == t
    ensures Run(LATE[..n + 1]) == t
  {
    RunAppend(LATE[..n], LATE[n]);
    assert LATE[..n + 1] == LATE[..n] + [LATE[n]];
  }

  /** A player that was given an id hands over its first data. */
  lemma Handed(s: State, k: nat, id: nat, t: State)
    requires WellFormed(s) && !s.ended && k < |s.players| && s.toProxy == []
    requires s.players[k].stage == Assigned(id) && s.players[k].sent == []
    requires t == s.(players := t.players, toProxy := [Forward(id, s.players[k].first, k)])
    requires |t.players| == |s.players| && forall i | 0 <= i < |s.players| && i != k :: t.players[i] == s.players[i]
    requires t.players[k] == s.players[k].(stage := Running(id), sent := [s.players[k].first])
    ensures Step(s, SendFirst(k)) == t
  {
    hide WellFormed;
    var none: seq<Chunk> := [];
    assert none + [s.players[k].first] == [s.players[k].first];
    assert Step(s, SendFirst(k)).players == t.players;
  }

  lemma Spoken(s: State, chunk: Chunk, t: State)
    requires WellFormed(s) && !s.ended && s.toServer == [] && 0 < |chunk| <= CONN_BUFFER
    requires s.connections == [Conn(0, Open, [], [], 0, 0, [])]
    requires t == s.(connections := [Conn(0, Open, [], [], 0, 0, [chunk])], toServer := [Packet(0, chunk, 0)])
    ensures Step(s, ConnSends(0, chunk)) == t
  {
    hide WellFormed;
    var none: seq<Chunk> := [];
    assert none + [chunk] == [chunk];
    assert Step(s, ConnSends(0, chunk)).connections == t.connections;
  }

  lemma Delivered(s: State, t: State)
    requires WellFormed(s) && !s.ended && s.upSeen == 0 && s.up == [UpData(0, [9], 0)] && s.slots[0] == Some(1)
    requires |s.players| == 2 && s.players[1].inbox == [] && s.players[1].stage.Running?
    requires t == s.(upSeen := 1, players := [s.players[0], s.players[1].(inbox := [[9]])])
    ensures Step(s, ServerReader) == t
  {
    var none: seq<Chunk> := [];
    assert none + [[9]] == [[9]];
    assert s.players[1 := s.players[1].(inbox := [[9]])] == t.players;
  }

  lemma Received(s: State)
    requires WellFormed(s) && !s.ended && |s.players| == 2 && s.players[1].stage.Running?
    requires s.players[1].inbox == [[9]] && s.players[1].received == []
    ensures Step(s, PlayerReceives(1)) ==
            s.(players := [s.players[0], s.players[1].(inbox := [], received := [[9]])])
  {
    var p, none: seq<Chunk> := s.players[1], [];
    assert none + [[9]] == [[9]] && p.inbox[1..] == none;
    assert s.players[1 := p.(inbox := [], received := [[9]])] == [s.players[0], p.(inbox := [], received := [[9]])];
  }

  const FIRST_LEAVES: State :=
    FIRST_IN.(players := [Player(Gone, [1], [], [], [[1]])], toProxy := [Forward(0, [1], 0), RemoveClient(0, 0)],
              connections := [Conn(0, Open, [], [], 0, 0, [])])

  lemma LateStart()
    ensures Run(LATE[..6]) == FIRST_LEAVES
  {
    hide Run;
    ReuseStart();
    assert LATE[..3] == REUSE[..3];
    var s4 := FIRST_IN.(connections := [Conn(0, Open, [], [], 0, 0, [])]);
    LateStep(3, FIRST_IN, s4);
    var s5 := s4.(players := [Player(Running(0), [1], [], [], [[1]])], toProxy := [Forward(0, [1], 0)]);
    Handed(s4, 0, 0, s5);
    LateStep(4, s4, s5);
    LateStep(5, s5, FIRST_LEAVES);
  }

  const FIRST_GONE: State :=
    FIRST_LEAVES.(toProxy := [], slots := Empty(), down := [Join(0, 0), Data(0, [1], 0), DownFrame.Disconnect(0)])

  lemma LateLeaves()
    ensures Run(LATE[..8]) == FIRST_GONE
  {
    hide Run;
    LateStart();
    var s7 := FIRST_LEAVES.(toProxy := [RemoveClient(0, 0)], down := [Join(0, 0), Data(0, [1], 0)]);
    LateStep(6, FIRST_LEAVES, s7);
    assert Removed(s7.slots, 0) == Empty();
    LateStep(7, s7, FIRST_GONE);
  }

  const SECOND_IN: State :=
    FIRST_GONE.(players := [Player(Gone, [1], [], [], [[1]]), Player(Assigned(0), [2], [], [], [])],
                slots := Empty()[0 := Some(1)],
                down := [Join(0, 0), Data(0, [1], 0), DownFrame.Disconnect(0), Join(0, 1)])

  lemma LateJoins()
    ensures Run(LATE[..10]) == SECOND_IN
  {
    hide Run;
    LateLeaves();
    var both := FIRST_GONE.players + [Player(Waiting, [2], [], [], [])];
    var s9 := FIRST_GONE.(players := both, toProxy := [AddClient(1)]);
    LateStep(8, FIRST_GONE, s9);
    assert both[1 := both[1].(stage := Assigned(0))] == SECOND_IN.players;
    LateStep(9, s9, SECOND_IN);
  }

  const SECOND_RUNS: State :=
    SECOND_IN.(players := [Player(Gone, [1], [], [], [[1]]), Player(Running(0), [2], [], [], [[2]])],
               toProxy := [Forward(0, [2], 1)],
               connections := [Conn(0, Open, [], [], 0, 0, [[9]])], toServer := [Packet(0, [9], 0)])

  lemma LateSays()
    ensures Run(LATE[..12]) == SECOND_RUNS
  {
    hide Run;
    LateJoins();
    var s11 := SECOND_IN.(players := SECOND_RUNS.players, toProxy := SECOND_RUNS.toProxy);
    Handed(SECOND_IN, 1, 0, s11);
    LateStep(10, SECOND_IN, s11);
    Spoken(s11, [9], SECOND_RUNS);
    LateStep(11, s11, SECOND_RUNS);
  }

  /** The second player receives what the first one's connection said; its own connection does not exist yet. */
  lemma LateDataReachesNextPlayer()
    ensures FarSideStays(LATE) && !UpStream.OwnReads(LATE)
    ensures var s := Run(LATE);
            && |s.players| == 2 && s.players[1].received == [[9]]
            && |s.connections| == 1 && s.connections[0].owner == 0 && s.connections[0].sent == [[9]]
  {
    hide Run;
    LateSays();
    var s13 := SECOND_RUNS.(toServer := [], up := [UpData(0, [9], 0)]);
    LateStep(12, SECOND_RUNS, s13);
    LateHeard(s13);
    assert LATE[..15] == LATE;
    NotOwn();
  }

  lemma LateHeard(s: State)
    requires s == SECOND_RUNS.(toServer := [], up := [UpData(0, [9], 0)]) && Run(LATE[..13]) == s
    ensures var t := Run(LATE[..15]);
            && |t.players| == 2 && t.players[1].received == [[9]] && t.connections == s.connections
  {
    hide Run;
    var p := s.players[1];
    var t := s.(upSeen := 1, players := [s.players[0], p.(inbox := [[9]])]);
    Delivered(s, t);
    LateStep(13, s, t);
    Received(t);
    LateStep(14, t, t.(players := [s.players[0], p.(inbox := [], received := [[9]])]));
  }

  lemma NotOwn()
    requires Run(LATE).connections == [Conn(0, Open, [], [], 0, 0, [[9]])] && |Run(LATE).players| == 2
    requires Run(LATE).players[1].received == [[9]]
    ensures !UpStream.OwnReads(LATE)
  {
    hide Run;
    assert !UpStream.Owned(Run(LATE).connections, 1);
    assert UpStream.Heard(Run(LATE), 1) != [];
    if UpStream.OwnReads(LATE) { UpStream.UpStreamIsolation(LATE); }
  }

  // The other way

  /** The far side ends the first connection, the second player is given its id, and only then the first one sends. */
  const MIXED: seq<Event> := REUSE[..9] + [ClientDisconnect, ClientReader, SendFirst(0), ServerWriter, ClientReader]

  lemma MixedStep(n: nat, s: State, t: State)
    requires n < |MIXED| && WellFormed(s)
    requires Run(MIXED[..n]) == s && Step(s, MIXED[n]) == t
    ensures Run(MIXED[..n + 1]) == t
  {
    RunAppend(MIXED[..n], MIXED[n]);
    assert MIXED[..n + 1] == MIXED[..n] + [MIXED[n]];
  }

  const FIRST_CLEARED: State := REUSED.(conns := Connections(Empty(), 0), disconnects := [])

  const SECOND_SERVED: State :=
    FIRST_CLEARED.(seen := 2, conns := Connections(Empty()[0 := Some(1)], 1),
                   connections := [Conn(0, Closed, [], [], 0, 0, []), Conn(0, Connecting, [], [], 1, 1, [])])

  lemma MixedServed()
    ensures Run(MIXED[..11]) == SECOND_SERVED
  {
    hide Run;
    ReuseHappens();
    assert MIXED[..9] == REUSE[..9];
    assert Empty()[0 := Some(0)][0 := None] == Empty();
    MixedStep(9, REUSED, FIRST_CLEARED);
    MixedStep(10, FIRST_CLEARED, SECOND_SERVED);
  }

  const FIRST_SENDS: State :=
    SECOND_SERVED.(players := [Player(Running(0), [1], [], [], [[1]]), Player(Assigned(0), [2], [], [], [])],
                   down := [Join(0, 0), Join(0, 1), Data(0, [1], 0)])

  lemma MixedSends()
    ensures Run(MIXED[..13]) == FIRST_SENDS
  {
    hide Run;
    MixedServed();
    var s12 := SECOND_SERVED.(players := FIRST_SENDS.players, toProxy := [Forward(0, [1], 0)]);
    Handed(SECOND_SERVED, 0, 0, s12);
    MixedStep(11, SECOND_SERVED, s12);
    assert Step(s12, ServerWriter).down == FIRST_SENDS.down;
    MixedStep(12, s12, FIRST_SENDS);
  }

  /** The second player's connection is given what the first one sent, and the session goes on. */
  lemma DataReachesNextConnection()
    ensures !DownStream.OwnReads(MIXED)
    ensures var s := Run(MIXED);
            && !s.ended && |s.connections| == 2 && |s.players| == 2
            && s.connections[1].owner == 1 && s.connections[1].inbox == [[1]]
            && s.players[0].sent == [[1]] && s.players[1].sent == []
  {
    hide Run;
    MixedSends();
    Given(FIRST_SENDS);
    MixedStep(13, FIRST_SENDS, Step(FIRST_SENDS, ClientReader));
    assert MIXED[..14] == MIXED;
    var s := Run(MIXED);
    assert !(DownStream.Got(s, 1) <= Isolation.SentOf(s, 1));
    if DownStream.OwnReads(MIXED) { DownStream.DownStreamInOrder(MIXED); }
  }

  lemma Given(s: State)
    requires s == FIRST_SENDS && WellFormed(s)
    ensures var t := Step(s, ClientReader);
            && !t.ended && |t.connections| == 2 && t.players == s.players
            && t.connections[1] == Conn(0, Connecting, [[1]], [], 1, 1, [])
  {
    DownStream.FrameDoes(s);
    var none: seq<Chunk> := [];
    assert none + [[1]] == [[1]];
  }
}
