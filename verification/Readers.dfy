/**
 The two stream readers as they run. Each is given what its socket and its
 channels will produce, in order, and what the other tasks do in between.
 */
module Readers {
  import opened Basics
  import opened Slots
  import opened Multiplexer

  // The server's stream reader

  /** What the writer does to the shared slots before the reader has them again, and the next frame. */
  datatype Round = Round(meanwhile: seq<SlotOp>, frame: UpFrame)

  function AfterOps(slots: Table, ops: seq<SlotOp>): Table {
    if ops == [] then slots else ApplyOp(AfterOps(slots, ops[..|ops| - 1]), ops[|ops| - 1])
  }

  function ReadRound(r: ReadUp, round: Round): ReadUp {
    ReadUpFrame(r.(slots := AfterOps(r.slots, round.meanwhile)), round.frame)
  }

  function ReadUpAll(slots: Table, rounds: seq<Round>): ReadUp {
    if rounds == [] then ReadUp(slots, [])
    else ReadRound(ReadUpAll(slots, rounds[..|rounds| - 1]), rounds[|rounds| - 1])
  }

  /** The writer at work on the slots it shares with the reader. */
  method WriterMeanwhile(d: Distributor, ops: seq<SlotOp>)
    requires d.Valid()
    modifies d.clientsId
    ensures d.Contents() == AfterOps(old(d.Contents()), ops)
  {
    assert ops[..0] == [];
    for i := 0 to |ops|
      invariant d.Contents() == AfterOps(old(d.Contents()), ops[..i])
    {
      assert ops[..i + 1][..i] == ops[..i];
      match ops[i] {
        case Insert(tx) =>
          var id := d.Insert(tx);
        case Remove(id) =>
          var inRange := d.RemoveById(id);
      }
    }
    assert ops[..|ops|] == ops;
  }

  /** Data for an empty slot is dropped and the session goes on. */
  method HandleReader(d: Distributor, rounds: seq<Round>) returns (deliveries: seq<(Channel, Chunk)>)
    requires d.Valid()
    modifies d.clientsId
    ensures ReadUp(d.Contents(), deliveries) == ReadUpAll(old(d.Contents()), rounds)
  {
    hide AfterOps;
    deliveries := [];
    assert rounds[..0] == [];
    for i := 0 to |rounds|
      invariant ReadUp(d.Contents(), deliveries) == ReadUpAll(old(d.Contents()), rounds[..i])
    {
      assert rounds[..i + 1][..i] == rounds[..i];
      WriterMeanwhile(d, rounds[i].meanwhile);
      match rounds[i].frame {
        case UpDisconnect(id) =>
          var inRange := d.RemoveById(id);
        case UpData(id, chunk, _) =>
          var tx := d.GetById(id);
          if tx.Some? {
            deliveries := deliveries + [(tx.value, chunk)];
          }
      }
    }
    assert rounds[..|rounds|] == rounds;
  }

  function Freed(f: UpFrame): seq<SlotOp> {
    if f.UpDisconnect? then [Remove(f.id)] else []
  }

  /** What both tasks have done to the slots up to the frame of round `i`, in order. */
  function OpsBefore(rounds: seq<Round>, i: nat): seq<SlotOp>
    requires i < |rounds|
  {
    if i == 0 then rounds[0].meanwhile
    else OpsBefore(rounds, i - 1) + Freed(rounds[i - 1].frame) + rounds[i].meanwhile
  }

  /** The slot was given to `k`, or `k` held it from the start, and nobody has freed it since. */
  ghost predicate Holds(slots: Table, ops: seq<SlotOp>, id: nat, k: Channel) {
    exists n :: 0 <= n <= |ops| && GotId(slots, ops, n, id, k) && forall m | n <= m < |ops| :: ops[m] != Remove(id)
  }

  ghost predicate GotId(slots: Table, ops: seq<SlotOp>, n: nat, id: nat, k: Channel) {
    if n == 0 then Lookup(slots, id) == Some(k)
    else n <= |ops| && ops[n - 1] == Insert(k) && id < MAXIMUM_CLIENTS &&
         FirstFree(AfterOps(slots, ops[..n - 1])) == id
  }

  lemma {:induction false} HoldsExactly(slots: Table, ops: seq<SlotOp>, id: nat, k: Channel)
    ensures Lookup(AfterOps(slots, ops), id) == Some(k) <==> Holds(slots, ops, id, k)
    decreases |ops|
  {
    hide FirstFreeFrom, AfterOps;
    if ops == [] {
      assert AfterOps(slots, ops) == slots by { NoOpsYet(slots); }
      assert GotId(slots, ops, 0, id, k) <==> Lookup(slots, id) == Some(k);
    } else {
      var before, op := ops[..|ops| - 1], ops[|ops| - 1];
      HoldsExactly(slots, before, id, k);
      NextSlotOp(slots, ops);
      if Lookup(AfterOps(slots, ops), id) == Some(k) {
        HolderGot(slots, ops, id, k);
      }
      if Holds(slots, ops, id, k) {
        HolderStays(slots, ops, id, k);
      }
    }
  }

  lemma NoOpsYet(slots: Table)
    ensures AfterOps(slots, []) == slots
  {
  }

  lemma NextSlotOp(slots: Table, ops: seq<SlotOp>)
    requires ops != []
    ensures AfterOps(slots, ops) == ApplyOp(AfterOps(slots, ops[..|ops| - 1]), ops[|ops| - 1])
  {
  }

  lemma HolderGot(slots: Table, ops: seq<SlotOp>, id: nat, k: Channel)
    requires ops != [] && Lookup(AfterOps(slots, ops), id) == Some(k)
    requires AfterOps(slots, ops) == ApplyOp(AfterOps(slots, ops[..|ops| - 1]), ops[|ops| - 1])
    requires Lookup(AfterOps(slots, ops[..|ops| - 1]), id) == Some(k) ==> Holds(slots, ops[..|ops| - 1], id, k)
    ensures Holds(slots, ops, id, k)
  {
    hide FirstFreeFrom, AfterOps;
    var before := ops[..|ops| - 1];
    if Lookup(AfterOps(slots, before), id) == Some(k) {
      var n :| 0 <= n <= |before| && GotId(slots, before, n, id, k) &&
               forall m | n <= m < |before| :: before[m] != Remove(id);
      if n > 0 { assert before[..n - 1] == ops[..n - 1]; }
      assert GotId(slots, ops, n, id, k);
    } else {
      assert GotId(slots, ops, |ops|, id, k);
    }
  }

  lemma HolderStays(slots: Table, ops: seq<SlotOp>, id: nat, k: Channel)
    requires ops != [] && Holds(slots, ops, id, k)
    requires AfterOps(slots, ops) == ApplyOp(AfterOps(slots, ops[..|ops| - 1]), ops[|ops| - 1])
    requires Holds(slots, ops[..|ops| - 1], id, k) ==> Lookup(AfterOps(slots, ops[..|ops| - 1]), id) == Some(k)
    ensures Lookup(AfterOps(slots, ops), id) == Some(k)
  {
    hide AfterOps;
    var before := ops[..|ops| - 1];
    var n :| 0 <= n <= |ops| && GotId(slots, ops, n, id, k) && forall m | n <= m < |ops| :: ops[m] != Remove(id);
    if n < |ops| {
      if n > 0 { assert before[..n - 1] == ops[..n - 1]; }
      assert GotId(slots, before, n, id, k);
      assert ops[|ops| - 1] != Remove(id);
    }
  }

  lemma {:induction false} OpsConcat(slots: Table, a: seq<SlotOp>, b: seq<SlotOp>)
    ensures AfterOps(slots, a + b) == AfterOps(AfterOps(slots, a), b)
    decreases |b|
  {
    if b == [] {
      assert a + b == a;
    } else {
      assert (a + b)[..|a + b| - 1] == a + b[..|b| - 1];
      OpsConcat(slots, a, b[..|b| - 1]);
    }
  }

  lemma {:induction false} SlotsAtFrame(slots: Table, rounds: seq<Round>, i: nat)
    requires i < |rounds|
    ensures AfterOps(slots, OpsBefore(rounds, i)) ==
            AfterOps(ReadUpAll(slots, rounds[..i]).slots, rounds[i].meanwhile)
    decreases i
  {
    hide AfterOps;
    if i == 0 {
      assert rounds[..0] == [];
    } else {
      SlotsAtFrame(slots, rounds, i - 1);
      var earlier, freed := OpsBefore(rounds, i - 1), Freed(rounds[i - 1].frame);
      assert rounds[..i][..i - 1] == rounds[..i - 1];
      OpsConcat(slots, earlier, freed);
      OpsConcat(slots, earlier + freed, rounds[i].meanwhile);
      FreedByFrame(AfterOps(slots, earlier), rounds[i - 1].frame);
    }
  }

  lemma FreedByFrame(slots: Table, f: UpFrame)
    ensures forall deliveries :: ReadUpFrame(ReadUp(slots, deliveries), f).slots == AfterOps(slots, Freed(f))
  {
    if f.UpDisconnect? { assert [Remove(f.id)][..0] == []; }
  }

  /**
   With the writer at work on the same slots: a chunk is handed to a player only
   by a frame of an id which that player had been given, or held from the start,
   and which neither task had freed since.
   */
  lemma {:induction false} DeliveriesGoToHolders(slots: Table, rounds: seq<Round>, k: Channel, chunk: Chunk)
    requires (k, chunk) in ReadUpAll(slots, rounds).deliveries
    ensures exists i :: 0 <= i < |rounds| && rounds[i].frame.UpData? && rounds[i].frame.chunk == chunk &&
                        Holds(slots, OpsBefore(rounds, i), rounds[i].frame.id, k)
    decreases |rounds|
  {
    hide AfterOps, Holds;
    var n := |rounds| - 1;
    if rounds != [] {
      if (k, chunk) in ReadUpAll(slots, rounds[..n]).deliveries {
        DeliveriesGoToHolders(slots, rounds[..n], k, chunk);
        var i :| 0 <= i < n && rounds[..n][i].frame.UpData? && rounds[..n][i].frame.chunk == chunk &&
                 Holds(slots, OpsBefore(rounds[..n], i), rounds[..n][i].frame.id, k);
        OpsOfPrefix(rounds, n, i);
        assert rounds[i] == rounds[..n][i];
      } else {
        SlotsAtFrame(slots, rounds, n);
        HoldsExactly(slots, OpsBefore(rounds, n), rounds[n].frame.id, k);
      }
    }
  }

  lemma {:induction false} OpsOfPrefix(rounds: seq<Round>, n: nat, i: nat)
    requires i < n <= |rounds|
    ensures OpsBefore(rounds[..n], i) == OpsBefore(rounds, i)
    decreases i
  {
    if i > 0 { OpsOfPrefix(rounds, n, i - 1); }
  }

  /** The reader's step of the session machine does what the loop does with one frame. */
  lemma StepIsReadUpFrame(s: State)
    requires WellFormed(s) && s.upSeen < |s.up|
    ensures var t, r := ServerReads(s), ReadUpFrame(ReadUp(s.slots, []), s.up[s.upSeen]);
            && t.slots == r.slots && t.upSeen == s.upSeen + 1 && |t.players| == |s.players|
            && (forall k | 0 <= k < |s.players| && !s.players[k].stage.Gone? ::
                  t.players[k].inbox ==
                  s.players[k].inbox +
                  if r.deliveries != [] && r.deliveries[0].0 == k then [r.deliveries[0].1] else [])
  {
    hide Removed;
  }

  // The client's stream reader

  /** A frame from the server, with the receivers alive at that time, or an id handed over by the writer. */
  datatype ReaderInput = FromServer(frame: DownFrame, listening: set<Channel>) | FromWriter(id: nat)

  /** The connection operation an input stands for; connections are numbered as they are opened. */
  function OpOf(input: ReaderInput, next: Channel): ConnectionOp {
    match input
    case FromWriter(id) => OnDisconnect(id)
    case FromServer(Join(id, _), _) => OnJoin(id, next)
    case FromServer(Disconnect(id), _) => OnDisconnect(id)
    case FromServer(Data(id, _, _), listening) => OnSend(id, listening)
  }

  function OpsOf(inputs: seq<ReaderInput>): seq<ConnectionOp> {
    if inputs == [] then []
    else
      var before := inputs[..|inputs| - 1];
      OpsOf(before) + [OpOf(inputs[|inputs| - 1], Opened(before))]
  }

  function Opened(inputs: seq<ReaderInput>): nat {
    if inputs == [] then 0
    else
      var last := inputs[|inputs| - 1];
      Opened(inputs[..|inputs| - 1]) + if last.FromServer? && last.frame.Join? then 1 else 0
  }

  /** What reaches which connection's channel. */
  function DeliveredBy(inputs: seq<ReaderInput>): seq<(Channel, Chunk)> {
    if inputs == [] then []
    else
      var before, last := inputs[..|inputs| - 1], inputs[|inputs| - 1];
      DeliveredBy(before) +
      if last.FromServer? && last.frame.Data? then
        match SendOutcome(ConnectionsAfter(OpsOf(before)), last.frame.id, last.listening)
        case Sent(channel) => [(channel, last.frame.chunk)]
        case ClientNotFound => []
        case Dropped(_) => []
      else []
  }

  /** A chunk is delivered exactly if its slot holds a connection that listens. */
  lemma DeliveredNext(inputs: seq<ReaderInput>, i: nat)
    requires i < |inputs|
    ensures var table := ConnectionsAfter(OpsOf(inputs[..i])).table;
            DeliveredBy(inputs[..i + 1]) ==
            DeliveredBy(inputs[..i]) +
            (if inputs[i].FromServer? && inputs[i].frame.Data? && inputs[i].frame.id < 255 &&
                table[inputs[i].frame.id].Some? && table[inputs[i].frame.id].value in inputs[i].listening
             then [(table[inputs[i].frame.id].value, inputs[i].frame.chunk)] else [])
  {
    assert inputs[..i + 1][..i] == inputs[..i];
    hide OpsOf, ConnectionsAfter;
  }

  lemma NextOp(inputs: seq<ReaderInput>, i: nat)
    requires i < |inputs|
    ensures ConnectionsAfter(OpsOf(inputs[..i + 1])) ==
            ApplyConnectionOp(ConnectionsAfter(OpsOf(inputs[..i])), OpOf(inputs[i], Opened(inputs[..i])))
    ensures Opened(inputs[..i + 1]) ==
            Opened(inputs[..i]) + if inputs[i].FromServer? && inputs[i].frame.Join? then 1 else 0
  {
    assert inputs[..i + 1][..i] == inputs[..i];
    var ops := OpsOf(inputs[..i + 1]);
    assert ops[..|ops| - 1] == OpsOf(inputs[..i]);
  }

  /**
   Runs from a fresh table until the input ends or data finds no connection;
   the array and the counter are what the operations make of them.
   */
  method ReaderHandler(client: Client, inputs: seq<ReaderInput>)
    returns (handled: nat, joined: nat, delivered: seq<(Channel, Chunk)>, notFound: bool)
    requires client.Valid() && client.State() == Connections(Empty(), 0)
    modifies client, client.connections
    ensures handled <= |inputs|
    ensures client.State() == ConnectionsAfter(OpsOf(inputs[..handled]))
    ensures joined == Opened(inputs[..handled]) && delivered == DeliveredBy(inputs[..handled])
    ensures notFound ==> handled < |inputs| && inputs[handled].FromServer? && inputs[handled].frame.Data? &&
                         Lookup(client.State().table, inputs[handled].frame.id).None?
    ensures !notFound ==> handled == |inputs|
  {
    hide OpsOf, ConnectionsAfter, Opened;
    handled, joined, delivered, notFound := 0, 0, [], false;
    assert inputs[..0] == [];
    NoOps();
    while handled < |inputs|
      invariant handled <= |inputs|
      invariant client.State() == ConnectionsAfter(OpsOf(inputs[..handled]))
      invariant joined == Opened(inputs[..handled]) && delivered == DeliveredBy(inputs[..handled])
    {
      NextOp(inputs, handled);
      assert inputs[..handled + 1][..handled] == inputs[..handled];
      match inputs[handled] {
        case FromWriter(id) => client.Remove(id);
        case FromServer(Join(id, _), _) =>
          client.Add(id, joined);
          joined := joined + 1;
        case FromServer(Disconnect(id), _) => client.Remove(id);
        case FromServer(Data(id, chunk, _), listening) =>
          var r := client.SendTo(id, listening);
          match r {
            case ClientNotFound =>
              notFound := true;
              return;
            case Dropped(_) =>
            case Sent(channel) => delivered := delivered + [(channel, chunk)];
          }
      }
      handled := handled + 1;
    }
  }

  /** The reader's step of the session machine does to the connections what the loop does with one frame. */
  lemma StepIsReaderInput(s: State)
    requires WellFormed(s) && s.seen < |s.down|
    ensures var t, op := ClientReads(s), OpOf(FromServer(s.down[s.seen], Listening(s)), |s.connections|);
            && t.conns == ApplyConnectionOp(s.conns, op)
            && (t.clientNotFound && !s.clientNotFound <==>
                !s.clientNotFound && op.OnSend? && Lookup(s.conns.table, op.id).None?)
            && (match SendOutcome(s.conns, op.id, Listening(s))
                case Sent(j) =>
                  j < |s.connections| &&
                  (op.OnSend? ==>
                     var c := s.connections[j];
                     t.connections == s.connections[j := c.(inbox := c.inbox + [s.down[s.seen].chunk])])
                case ClientNotFound => op.OnSend? ==> t.connections == s.connections
                case Dropped(_) => op.OnSend? ==> t.connections == s.connections)
            && (op.OnDisconnect? ==> t.connections == s.connections)
            && (op.OnJoin? ==>
                  t.connections ==
                  s.connections + [Conn(op.id, Connecting, [], [], s.down[s.seen].owner, s.seen, [])])
  {
  }

  lemma NoOps()
    ensures ConnectionsAfter(OpsOf([])) == Connections(Empty(), 0) && Opened([]) == 0
  {
  }
}
