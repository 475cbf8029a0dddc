/**
 One proxy session as a state machine. The server gives every Minecraft player
 a slot and forwards what the player sends down one framed stream; the client
 opens a connection to the real Minecraft server for every slot it is told of.
 Every task is a set of steps over first-in-first-out queues, and steps of
 different tasks interleave freely.

 A player is known by its index in `players`, which is also its channel in the
 server's slots, and a connection by its index in `connections`, which is also
 its channel in the client's table. The fields `owner`, `source`, `joinedAt` and
 `sent` are history: they say which player or connection a message belongs to, which
 frame opened a connection and what was handed over, and no step reads them.
 */
module Multiplexer {
  import opened Basics
  import opened Slots

  type Chunk = seq<byte>

  // Players, on the server

  /** A player asks for an id, is given it, hands over its first data, and leaves once. */
  datatype Stage = Waiting | Assigned(id: nat) | Running(id: nat) | Gone

  datatype Player = Player(stage: Stage, first: Chunk, inbox: seq<Chunk>, received: seq<Chunk>, sent: seq<Chunk>)

  /** What players put on the queue of the session's writer. */
  datatype ToProxy =
    | AddClient(player: nat)
    | Forward(id: nat, chunk: Chunk, owner: nat)
    | RemoveClient(id: nat, owner: nat)

  datatype DownFrame = Join(id: nat, owner: nat) | Data(id: nat, chunk: Chunk, owner: nat) | Disconnect(id: nat)

  // Connections, on the client

  datatype ConnStage = Connecting | Open | Closed

  /** `joinedAt` is the position of the frame on the stream from the server that opened the connection. */
  datatype Conn = Conn(
    id: nat, stage: ConnStage, inbox: seq<Chunk>, delivered: seq<Chunk>, owner: nat, joinedAt: nat, sent: seq<Chunk>)

  /** What connections put on the queue of the client's writer. */
  datatype ToServer = Packet(id: nat, chunk: Chunk, source: nat) | Leave(id: nat) | Death

  datatype UpFrame = UpData(id: nat, chunk: Chunk, source: nat) | UpDisconnect(id: nat)

  /** The streams keep all frames ever sent; `seen` and `upSeen` count those taken off. */
  datatype State = State(
    ended: bool, clientNotFound: bool,
    players: seq<Player>, toProxy: seq<ToProxy>, slots: Table,
    down: seq<DownFrame>, seen: nat,
    conns: Connections, connections: seq<Conn>, toServer: seq<ToServer>, disconnects: seq<nat>,
    up: seq<UpFrame>, upSeen: nat)

  function Start(): State {
    State(false, false, [], [], Empty(), [], 0, Connections(Empty(), 0), [], [], [], [], 0)
  }

  /** Channels in the tables and in the queue belong to somebody. */
  ghost predicate WellFormed(s: State) {
    && s.seen <= |s.down| && s.upSeen <= |s.up|
    && (forall i | 0 <= i < |s.toProxy| && s.toProxy[i].AddClient? :: s.toProxy[i].player < |s.players|)
    && (forall i | 0 <= i < MAXIMUM_CLIENTS && s.slots[i].Some? :: s.slots[i].value < |s.players|)
    && (forall i | 0 <= i < MAXIMUM_CLIENTS && s.conns.table[i].Some? :: s.conns.table[i].value < |s.connections|)
  }

  datatype Event =
    // a player connects, sends, hangs up; the server's tasks move on
    | Connect(first: Chunk)
    | SendFirst(k: nat)
    | PlayerSends(k: nat, chunk: Chunk)
    | PlayerReceives(k: nat)
    | PlayerLeaves(k: nat)
    | PlayerDropped(k: nat)
    | ServerWriter
    | ServerReader
    // the Minecraft server accepts, sends, hangs up; the client's tasks move on
    | ConnOpens(j: nat)
    | ConnFails(j: nat)
    | ConnSends(j: nat, chunk: Chunk)
    | ConnReceives(j: nat)
    | ConnEnds(j: nat)
    | ConnDropped(j: nat)
    | ClientWriter
    | ClientReader
    | ClientDisconnect

  const PLAYER_BUFFER: nat := 2048
  const CONN_BUFFER: nat := 16 * 1024

  predicate IsRunning(s: State, k: nat) {
    k < |s.players| && s.players[k].stage.Running?
  }

  predicate IsOpen(s: State, j: nat) {
    j < |s.connections| && s.connections[j].stage.Open?
  }

  predicate Enabled(s: State, e: Event) {
    && !s.ended
    && match e
       case Connect(_) => true
       case SendFirst(k) => k < |s.players| && s.players[k].stage.Assigned?
       case PlayerSends(k, chunk) => IsRunning(s, k) && 0 < |chunk| <= PLAYER_BUFFER
       case PlayerReceives(k) => IsRunning(s, k) && s.players[k].inbox != []
       case PlayerLeaves(k) => IsRunning(s, k)
       // the sending half lived in the slot; the writer ends once it has drained its queue
       case PlayerDropped(k) =>
         IsRunning(s, k) && Lookup(s.slots, s.players[k].stage.id) != Some(k) && s.players[k].inbox == []
       case ServerWriter => s.toProxy != []
       case ServerReader => s.upSeen < |s.up|
       case ConnOpens(j) => j < |s.connections| && s.connections[j].stage.Connecting?
       case ConnFails(j) => j < |s.connections| && s.connections[j].stage.Connecting?
       case ConnSends(j, chunk) => IsOpen(s, j) && 0 < |chunk| <= CONN_BUFFER
       case ConnReceives(j) => IsOpen(s, j) && s.connections[j].inbox != []
       case ConnEnds(j) => IsOpen(s, j)
       case ConnDropped(j) =>
         IsOpen(s, j) && Lookup(s.conns.table, s.connections[j].id) != Some(j) && s.connections[j].inbox == []
       case ClientWriter => s.toServer != []
       case ClientReader => s.seen < |s.down|
       case ClientDisconnect => s.disconnects != []
  }

  /** Steps that need nothing from outside the tunnel. */
  predicate Internal(e: Event) {
    e.SendFirst? || e.PlayerReceives? || e.PlayerDropped? || e.ServerWriter? || e.ServerReader? ||
    e.ConnReceives? || e.ConnDropped? || e.ClientWriter? || e.ClientReader? || e.ClientDisconnect?
  }

  // The server's steps

  function SetStage(s: State, k: nat, stage: Stage): State
    requires k < |s.players|
  {
    s.(players := s.players[k := s.players[k].(stage := stage)])
  }

  /** A player hands a chunk to the session's writer. */
  function Hand(s: State, k: nat, id: nat, chunk: Chunk): State
    requires k < |s.players|
  {
    s.(players := s.players[k := s.players[k].(sent := s.players[k].sent + [chunk])],
       toProxy := s.toProxy + [Forward(id, chunk, k)])
  }

  function LeaveProxy(s: State, k: nat): State
    requires IsRunning(s, k)
  {
    SetStage(s, k, Gone).(toProxy := s.toProxy + [RemoveClient(s.players[k].stage.id, k)])
  }

  /** What the session's writer has done: the slots, the frames, the ids answered, and whether it had to give up. */
  datatype Written = Written(slots: Table, frames: seq<DownFrame>, replies: seq<(nat, nat)>, ended: bool)

  function WriteOne(w: Written, m: ToProxy): Written {
    if w.ended then w
    else match m
      case AddClient(k) =>
        var id := FirstFree(w.slots);
        if id == MAXIMUM_CLIENTS then w.(ended := true)
        else Written(Inserted(w.slots, k), w.frames + [Join(id, k)], w.replies + [(k, id)], false)
      case Forward(id, chunk, owner) => w.(frames := w.frames + [Data(id, chunk, owner)])
      case RemoveClient(id, _) =>
        if id < MAXIMUM_CLIENTS then w.(slots := Removed(w.slots, id), frames := w.frames + [DownFrame.Disconnect(id)])
        else w
  }

  /** `handle_writer` takes one message off its queue; a player it answers has its id. */
  function ServerWrites(s: State): State
    requires WellFormed(s) && s.toProxy != []
  {
    var w := WriteOne(Written(s.slots, s.down, [], false), s.toProxy[0]);
    var t := s.(toProxy := s.toProxy[1..], slots := w.slots, down := w.frames, ended := s.ended || w.ended);
    if w.replies == [] then t else SetStage(t, w.replies[0].0, Assigned(w.replies[0].1))
  }

  /** What the session's reader has done: the slots, and what went into which player's channel. */
  datatype ReadUp = ReadUp(slots: Table, deliveries: seq<(Channel, Chunk)>)

  function ReadUpFrame(r: ReadUp, f: UpFrame): ReadUp {
    match f
    case UpDisconnect(id) => r.(slots := Removed(r.slots, id))
    case UpData(id, chunk, _) =>
      match Lookup(r.slots, id)
      case None => r
      case Some(k) => r.(deliveries := r.deliveries + [(k, chunk)])
  }

  /** `handle_reader` takes one frame off the stream from the client; a player who has gone receives nothing. */
  function ServerReads(s: State): State
    requires WellFormed(s) && s.upSeen < |s.up|
  {
    var r := ReadUpFrame(ReadUp(s.slots, []), s.up[s.upSeen]);
    var next := s.(upSeen := s.upSeen + 1, slots := r.slots);
    if r.deliveries == [] then next
    else
      var (k, chunk) := r.deliveries[0];
      var p := s.players[k];
      if p.stage.Gone? then next else next.(players := s.players[k := p.(inbox := p.inbox + [chunk])])
  }

  // The client's steps

  function Listening(s: State): set<Channel> {
    set j | 0 <= j < |s.connections| && !s.connections[j].stage.Closed?
  }

  /** `reader_handler` takes one frame off the stream from the server. */
  function ClientReads(s: State): State
    requires WellFormed(s) && s.seen < |s.down|
  {
    var next := s.(seen := s.seen + 1);
    match s.down[s.seen]
    case Join(id, owner) =>
      next.(conns := AddConnection(s.conns, id, |s.connections|),
            connections := s.connections + [Conn(id, Connecting, [], [], owner, s.seen, [])])
    case Disconnect(id) => next.(conns := RemoveConnection(s.conns, id))
    case Data(id, chunk, _) =>
      match SendOutcome(s.conns, id, Listening(s))
      case ClientNotFound => next.(ended := true, clientNotFound := true)
      case Dropped(_) => next.(conns := AfterSend(s.conns, id, Listening(s)))
      case Sent(j) =>
        var c := s.connections[j];
        next.(connections := s.connections[j := c.(inbox := c.inbox + [chunk])])
  }

  /** What the client's writer has done: the frames, the ids handed back to the reader, and whether a death ended it. */
  datatype SentUp = SentUp(frames: seq<UpFrame>, disconnects: seq<nat>, ended: bool)

  function SendOne(u: SentUp, m: ToServer): SentUp {
    if u.ended then u
    else match m
      case Packet(id, chunk, source) => u.(frames := u.frames + [UpData(id, chunk, source)])
      case Leave(id) => u.(frames := u.frames + [UpDisconnect(id)], disconnects := u.disconnects + [id])
      case Death => u.(ended := true)
  }

  /** `writer_handler` takes one message off the client's queue. */
  function ClientWrites(s: State): State
    requires s.toServer != []
  {
    var u := SendOne(SentUp(s.up, s.disconnects, false), s.toServer[0]);
    s.(toServer := s.toServer[1..], up := u.frames, disconnects := u.disconnects, ended := s.ended || u.ended)
  }

  function SetConn(s: State, j: nat, c: Conn): State
    requires j < |s.connections|
  {
    s.(connections := s.connections[j := c])
  }

  function Apply(s: State, e: Event): State
    requires WellFormed(s) && Enabled(s, e)
  {
    match e
    case Connect(first) =>
      s.(players := s.players + [Player(Waiting, first, [], [], [])], toProxy := s.toProxy + [AddClient(|s.players|)])
    case SendFirst(k) =>
      var id := s.players[k].stage.id;
      Hand(SetStage(s, k, Running(id)), k, id, s.players[k].first)
    case PlayerSends(k, chunk) => Hand(s, k, s.players[k].stage.id, chunk)
    case PlayerReceives(k) =>
      var p := s.players[k];
      s.(players := s.players[k := p.(inbox := p.inbox[1..], received := p.received + [p.inbox[0]])])
    case PlayerLeaves(k) => LeaveProxy(s, k)
    case PlayerDropped(k) => LeaveProxy(s, k)
    case ServerWriter => ServerWrites(s)
    case ServerReader => ServerReads(s)
    case ConnOpens(j) => SetConn(s, j, s.connections[j].(stage := Open))
    case ConnFails(j) =>
      SetConn(s, j, s.connections[j].(stage := Closed)).(toServer := s.toServer + [Death, Leave(s.connections[j].id)])
    case ConnSends(j, chunk) =>
      var c := s.connections[j];
      SetConn(s, j, c.(sent := c.sent + [chunk])).(toServer := s.toServer + [Packet(c.id, chunk, j)])
    case ConnReceives(j) =>
      var c := s.connections[j];
      SetConn(s, j, c.(inbox := c.inbox[1..], delivered := c.delivered + [c.inbox[0]]))
    case ConnEnds(j) =>
      SetConn(s, j, s.connections[j].(stage := Closed)).(toServer := s.toServer + [Leave(s.connections[j].id)])
    case ConnDropped(j) => SetConn(s, j, s.connections[j].(stage := Closed))
    case ClientWriter => ClientWrites(s)
    case ClientReader => ClientReads(s)
    case ClientDisconnect =>
      s.(disconnects := s.disconnects[1..], conns := RemoveConnection(s.conns, s.disconnects[0]))
  }

  /** An event that is not possible leaves the session as it is. */
  function Step(s: State, e: Event): State
    requires WellFormed(s)
  {
    if Enabled(s, e) then Apply(s, e) else s
  }

  lemma ServerWritesWellFormed(s: State)
    requires WellFormed(s) && s.toProxy != []
    ensures WellFormed(ServerWrites(s))
  {
    var t := ServerWrites(s);
    assert forall i | 0 <= i < |t.toProxy| :: t.toProxy[i] == s.toProxy[i + 1];
  }

  lemma ClientReadsWellFormed(s: State)
    requires WellFormed(s) && s.seen < |s.down|
    ensures WellFormed(ClientReads(s))
  {
  }

  lemma ServerReadsWellFormed(s: State)
    requires WellFormed(s) && s.upSeen < |s.up|
    ensures WellFormed(ServerReads(s))
  {
  }

  lemma ClientWritesWellFormed(s: State)
    requires WellFormed(s) && s.toServer != []
    ensures WellFormed(ClientWrites(s))
  {
  }

  lemma StepWellFormed(s: State, e: Event)
    requires WellFormed(s)
    ensures WellFormed(Step(s, e))
  {
    hide ServerWrites, ClientReads, ServerReads, ClientWrites;
    if Enabled(s, e) {
      if e.ServerWriter? { ServerWritesWellFormed(s); }
      if e.ClientReader? { ClientReadsWellFormed(s); }
      if e.ServerReader? { ServerReadsWellFormed(s); }
      if e.ClientWriter? { ClientWritesWellFormed(s); }
    }
  }

  /** The state after a sequence of events. */
  ghost function Run(es: seq<Event>): (s: State)
    ensures WellFormed(s)
  {
    if es == [] then Start()
    else
      var s := Run(es[..|es| - 1]);
      StepWellFormed(s, es[|es| - 1]);
      Step(s, es[|es| - 1])
  }

  lemma RunAppend(es: seq<Event>, e: Event)
    ensures Run(es + [e]) == Step(Run(es), e)
  {
    assert (es + [e])[..|es|] == es;
  }

  /** Nothing is left to do without new input. */
  ghost predicate Quiescent(s: State) {
    forall e: Event | Internal(e) :: !Enabled(s, e)
  }
}
