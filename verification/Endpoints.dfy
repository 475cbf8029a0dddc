/**
 The two ends of a tunnelled connection as they run, the one at the Minecraft
 server and the one at the player. Each is given what its sockets and channels
 will produce, in order, and each is shown to take steps of the session machine.
 */
module Endpoints {
  import opened Basics
  import opened Multiplexer

  ghost function StepsFrom(s: State, es: seq<Event>): (t: State)
    requires WellFormed(s)
    ensures WellFormed(t)
  {
    if es == [] then s
    else
      var t := StepsFrom(s, es[..|es| - 1]);
      StepWellFormed(t, es[|es| - 1]);
      Step(t, es[|es| - 1])
  }

  // One tunnelled connection

  /** What `select!` picks next. */
  datatype ConnInput =
    | ProxyChunk(chunk: Chunk, writeOk: bool)
    | ProxyHungUp
    | ServerChunk(chunk: Chunk, sendOk: bool)
    | ServerHungUp

  datatype ConnResult = ConnectFailed | ClosedByProxy | ClosedByServer | StillOpen

  /** The input is a chunk that could be handed on. */
  predicate Carries(input: ConnInput) {
    (input.ProxyChunk? && input.writeOk) || (input.ServerChunk? && input.chunk != [] && input.sendOk)
  }

  function ToMinecraft(inputs: seq<ConnInput>): seq<Chunk> {
    if inputs == [] then []
    else
      var last := inputs[|inputs| - 1];
      ToMinecraft(inputs[..|inputs| - 1]) + if last.ProxyChunk? then [last.chunk] else []
  }

  function FromMinecraft(id: nat, number: nat, inputs: seq<ConnInput>): seq<ToServer> {
    if inputs == [] then []
    else
      var last := inputs[|inputs| - 1];
      FromMinecraft(id, number, inputs[..|inputs| - 1]) +
      if last.ServerChunk? then [Packet(id, last.chunk, number)] else []
  }

  /**
   Which input yields what, one at a time and in order: a chunk of the proxy goes to
   the Minecraft server, a chunk of the Minecraft server goes up under the id.
   */
  lemma {:induction false} CopiedInOrder(id: nat, number: nat, a: seq<ConnInput>, b: seq<ConnInput>)
    ensures ToMinecraft(a + b) == ToMinecraft(a) + ToMinecraft(b)
    ensures FromMinecraft(id, number, a + b) == FromMinecraft(id, number, a) + FromMinecraft(id, number, b)
    ensures forall c, ok ::
              && ToMinecraft([ProxyChunk(c, ok)]) == [c] && FromMinecraft(id, number, [ProxyChunk(c, ok)]) == []
              && FromMinecraft(id, number, [ServerChunk(c, ok)]) == [Packet(id, c, number)]
              && ToMinecraft([ServerChunk(c, ok)]) == []
    decreases |b|
  {
    assert forall x: ConnInput :: [x][..0] == [];
    if b == [] {
      assert a + b == a;
    } else {
      assert (a + b)[..|a + b| - 1] == a + b[..|b| - 1];
      CopiedInOrder(id, number, a, b[..|b| - 1]);
    }
  }

  /** The number of a connection is its index in the session machine. */
  class ClientConnection {
    const clientId: nat
    const number: nat
    var needForClose: bool
    var toProxy: seq<ToServer>

    constructor (clientId: nat, number: nat)
      ensures this.clientId == clientId && this.number == number && needForClose && toProxy == []
    {
      this.clientId, this.number := clientId, number;
      needForClose := true;
      toProxy := [];
    }

    /**
     Copies both ways, in order, up to the first input that ends the connection:
     the proxy hanging up, or a failed write, an empty read, a failed send or the
     Minecraft server hanging up. The flag remembers which of the two it was.
     */
    method HandleClient(connects: bool, inputs: seq<ConnInput>)
      returns (r: ConnResult, written: seq<Chunk>, n: nat)
      requires needForClose && toProxy == []
      modifies this
      ensures r.ConnectFailed? <==> !connects
      ensures n <= |inputs| && forall i | 0 <= i < n ::
                || (inputs[i].ProxyChunk? && inputs[i].writeOk)
                || (inputs[i].ServerChunk? && inputs[i].chunk != [] && inputs[i].sendOk)
      ensures toProxy == FromMinecraft(clientId, number, inputs[..n]) && written == ToMinecraft(inputs[..n])
      ensures r.ConnectFailed? ==> n == 0
      ensures r.StillOpen? <==> connects && n == |inputs|
      ensures r.ClosedByProxy? <==> connects && n < |inputs| && inputs[n].ProxyHungUp?
      ensures r.ClosedByServer? <==>
                && connects && n < |inputs|
                && (inputs[n].ServerHungUp? || (inputs[n].ProxyChunk? && !inputs[n].writeOk) ||
                    (inputs[n].ServerChunk? && (inputs[n].chunk == [] || !inputs[n].sendOk)))
      ensures needForClose <==> !r.ClosedByProxy?
    {
      written, n := [], 0;
      if !connects {
        return ConnectFailed, written, n;
      }
      while n < |inputs|
        invariant n <= |inputs| && needForClose && forall i | 0 <= i < n :: Carries(inputs[i])
        invariant toProxy == FromMinecraft(clientId, number, inputs[..n]) && written == ToMinecraft(inputs[..n])
      {
        assert inputs[..n + 1][..n] == inputs[..n];
        match inputs[n] {
          case ProxyChunk(chunk, writeOk) =>
            if !writeOk {
              return ClosedByServer, written, n;
            }
            written := written + [chunk];
          case ProxyHungUp =>
            needForClose := false;
            return ClosedByProxy, written, n;
          case ServerChunk(chunk, sendOk) =>
            if chunk == [] || !sendOk {
              needForClose := true;
              return ClosedByServer, written, n;
            }
            toProxy := toProxy + [Packet(clientId, chunk, number)];
          case ServerHungUp =>
            needForClose := true;
            return ClosedByServer, written, n;
        }
        n := n + 1;
      }
      return StillOpen, written, n;
    }

    method Drop()
      modifies this
      ensures needForClose == old(needForClose)
      ensures toProxy == old(toProxy) + if needForClose then [Leave(clientId)] else []
    {
      if needForClose {
        toProxy := toProxy + [Leave(clientId)];
      }
    }

    /**
     A whole life: the data of the Minecraft server, and after it one closing
     message exactly when it was not the proxy that closed, announced as a death
     when there was no connection to begin with.
     */
    method Live(connects: bool, inputs: seq<ConnInput>) returns (r: ConnResult, n: nat)
      requires needForClose && toProxy == []
      modifies this
      ensures n <= |inputs| && forall i | 0 <= i < n :: Carries(inputs[i])
      ensures n < |inputs| ==> !connects || !Carries(inputs[n])
      ensures toProxy == FromMinecraft(clientId, number, inputs[..n]) +
                         if !connects then [Death, Leave(clientId)]
                         else if n == |inputs| || inputs[n].ProxyHungUp? then []
                         else [Leave(clientId)]
      ensures r == if !connects then ConnectFailed
                   else if n == |inputs| then StillOpen
                   else if inputs[n].ProxyHungUp? then ClosedByProxy
                   else ClosedByServer
    {
      var written;
      r, written, n := HandleClient(connects, inputs);
      if r.ConnectFailed? {
        toProxy := toProxy + [Death];
      }
      if !r.StillOpen? {
        Drop();
      }
    }
  }

  /** An input that keeps the connection open, as an event of the session machine. */
  function ConnEvent(j: nat, input: ConnInput): Event {
    if input.ServerChunk? then ConnSends(j, input.chunk) else ConnReceives(j)
  }

  function ConnEvents(j: nat, inputs: seq<ConnInput>): seq<Event> {
    seq(|inputs|, i requires 0 <= i < |inputs| => ConnEvent(j, inputs[i]))
  }

  /** The inputs keep the connection open, fit the read buffer, and find what they take in the inbox. */
  ghost predicate Feasible(s: State, j: nat, inputs: seq<ConnInput>) {
    && IsOpen(s, j) && !s.ended
    && (forall i | 0 <= i < |inputs| ::
          Carries(inputs[i]) && (inputs[i].ServerChunk? ==> |inputs[i].chunk| <= CONN_BUFFER))
    && ToMinecraft(inputs) <= s.connections[j].inbox
  }

  /** The copying loop takes the machine's steps: same messages, same deliveries, in the same order. */
  lemma {:induction false} CopyingIsSteps(s: State, j: nat, inputs: seq<ConnInput>)
    requires WellFormed(s) && Feasible(s, j, inputs)
    ensures var c, t := s.connections[j], StepsFrom(s, ConnEvents(j, inputs));
            && IsOpen(t, j) && !t.ended
            && t.toServer == s.toServer + FromMinecraft(c.id, j, inputs)
            && t.connections[j].delivered == c.delivered + ToMinecraft(inputs)
            && t.connections[j].inbox == c.inbox[|ToMinecraft(inputs)|..]
            && t.connections[j].id == c.id
    decreases |inputs|
  {
    hide Step, WellFormed;
    var c, es := s.connections[j], ConnEvents(j, inputs);
    if inputs == [] {
      assert s.toServer + [] == s.toServer && c.delivered + [] == c.delivered;
    } else {
      var before, last := inputs[..|inputs| - 1], inputs[|inputs| - 1];
      assert ToMinecraft(before) <= ToMinecraft(inputs);
      CopyingIsSteps(s, j, before);
      assert es[..|es| - 1] == ConnEvents(j, before);
      CopyStep(StepsFrom(s, ConnEvents(j, before)), j, last);
      assert last.ProxyChunk? ==> c.inbox[|ToMinecraft(before)|] == ToMinecraft(inputs)[|ToMinecraft(before)|];
    }
  }

  lemma CopyStep(t: State, j: nat, input: ConnInput)
    requires WellFormed(t) && IsOpen(t, j) && !t.ended && Carries(input)
    requires input.ServerChunk? ==> |input.chunk| <= CONN_BUFFER
    requires input.ProxyChunk? ==> t.connections[j].inbox != []
    ensures var c, u := t.connections[j], Step(t, ConnEvent(j, input));
            && IsOpen(u, j) && !u.ended && u.connections[j].id == c.id
            && (input.ServerChunk? ==>
                  && u.toServer == t.toServer + [Packet(c.id, input.chunk, j)]
                  && u.connections[j].delivered == c.delivered && u.connections[j].inbox == c.inbox)
            && (input.ProxyChunk? ==>
                  && u.toServer == t.toServer
                  && u.connections[j].delivered == c.delivered + [c.inbox[0]]
                  && u.connections[j].inbox == c.inbox[1..])
  {
    hide WellFormed;
  }

  /** Each way a connection ends sends its closing messages in one step of the machine. */
  lemma EndingIsStep(s: State, j: nat, r: ConnResult)
    requires WellFormed(s) && j < |s.connections| && !r.StillOpen?
    requires var e := EndEvent(j, r); Enabled(s, e)
    ensures var t := Step(s, EndEvent(j, r));
            && t.toServer == s.toServer + (if r.ConnectFailed? then [Death, Leave(s.connections[j].id)]
                                           else if r.ClosedByProxy? then [] else [Leave(s.connections[j].id)])
            && j < |t.connections| && t.connections[j].stage.Closed?
            && t.connections[j].delivered == s.connections[j].delivered
  {
    hide WellFormed;
  }

  function EndEvent(j: nat, r: ConnResult): Event {
    match r
    case ConnectFailed => ConnFails(j)
    case ClosedByProxy => ConnDropped(j)
    case _ => ConnEnds(j)
  }

  // One player

  datatype PlayerInput = PlayerChunk(chunk: Chunk, sendOk: bool) | ReadEnds | WriterEnds

  function Chat(id: nat, player: nat, inputs: seq<PlayerInput>): seq<ToProxy> {
    if inputs == [] then []
    else
      var last := inputs[|inputs| - 1];
      Chat(id, player, inputs[..|inputs| - 1]) + if last.PlayerChunk? then [Forward(id, last.chunk, player)] else []
  }

  lemma {:induction false} ChatInOrder(id: nat, player: nat, a: seq<PlayerInput>, b: seq<PlayerInput>)
    ensures Chat(id, player, a + b) == Chat(id, player, a) + Chat(id, player, b)
    ensures forall c, ok :: Chat(id, player, [PlayerChunk(c, ok)]) == [Forward(id, c, player)]
    decreases |b|
  {
    assert forall x: PlayerInput :: [x][..0] == [];
    if b == [] {
      assert a + b == a;
    } else {
      assert (a + b)[..|a + b| - 1] == a + b[..|b| - 1];
      ChatInOrder(id, player, a, b[..|b| - 1]);
    }
  }

  class MCClient {
    const player: nat
    var id: Option<nat>
    var proxyTx: seq<ToProxy>

    /** Asks for an id. */
    constructor (player: nat)
      ensures this.player == player && id == None && proxyTx == [AddClient(player)]
    {
      this.player, id := player, None;
      proxyTx := [AddClient(player)];
    }

    /** Waits for the writer's reply; with an id, hands over what was read so far, and without one gives up. */
    method Start(reply: Option<nat>, startData: Chunk) returns (ok: bool)
      requires id.None?
      modifies this
      ensures ok <==> reply.Some?
      ensures id == reply
      ensures proxyTx == old(proxyTx) + if ok then [Forward(reply.value, startData, player)] else []
    {
      if reply.None? {
        return false;
      }
      id := reply;
      proxyTx := proxyTx + [Forward(reply.value, startData, player)];
      return true;
    }

    /**
     Forwards every read in order up to the first input that ends the player: an
     error or a timeout, the end of the half that writes, an empty read, or a
     closed queue. Then it leaves once; of a closed queue nobody hears.
     */
    method Handle(inputs: seq<PlayerInput>) returns (n: nat)
      requires id.Some?
      modifies this`proxyTx
      ensures n <= |inputs| && forall i | 0 <= i < n ::
                inputs[i].PlayerChunk? && inputs[i].chunk != [] && inputs[i].sendOk
      ensures n < |inputs| ==>
                inputs[n].ReadEnds? || inputs[n].WriterEnds? || inputs[n].chunk == [] || !inputs[n].sendOk
      ensures proxyTx == old(proxyTx) + Chat(id.value, player, inputs[..n]) +
                         if n < |inputs| && (inputs[n].ReadEnds? || inputs[n].WriterEnds? || inputs[n].chunk == [])
                         then [RemoveClient(id.value, player)] else []
    {
      n := 0;
      assert inputs[..0] == [] && proxyTx + [] == proxyTx;
      while n < |inputs|
        invariant n <= |inputs| && forall i | 0 <= i < n ::
                    inputs[i].PlayerChunk? && inputs[i].chunk != [] && inputs[i].sendOk
        invariant proxyTx == old(proxyTx) + Chat(id.value, player, inputs[..n])
      {
        assert inputs[..n + 1][..n] == inputs[..n];
        match inputs[n] {
          case PlayerChunk(chunk, sendOk) =>
            if chunk == [] {
              proxyTx := proxyTx + [RemoveClient(id.value, player)];
              return;
            }
            if !sendOk {
              return;
            }
            proxyTx := proxyTx + [Forward(id.value, chunk, player)];
          case ReadEnds =>
            proxyTx := proxyTx + [RemoveClient(id.value, player)];
            return;
          case WriterEnds =>
            proxyTx := proxyTx + [RemoveClient(id.value, player)];
            return;
        }
        n := n + 1;
      }
    }
  }

  function ChatEvents(k: nat, inputs: seq<PlayerInput>): seq<Event>
    requires forall i | 0 <= i < |inputs| :: inputs[i].PlayerChunk?
  {
    seq(|inputs|, i requires 0 <= i < |inputs| => PlayerSends(k, inputs[i].chunk))
  }

  lemma ChatStep(t: State, k: nat, id: nat, chunk: Chunk)
    requires WellFormed(t) && !t.ended && k < |t.players| && t.players[k].stage == Running(id)
    requires 0 < |chunk| <= PLAYER_BUFFER
    ensures var u := Step(t, PlayerSends(k, chunk));
            && !u.ended && k < |u.players| && u.players[k].stage == Running(id)
            && u.toProxy == t.toProxy + [Forward(id, chunk, k)]
  {
    hide WellFormed;
  }

  /** The reading loop takes the machine's steps. */
  lemma {:induction false} ChatIsSteps(s: State, k: nat, id: nat, inputs: seq<PlayerInput>)
    requires WellFormed(s) && !s.ended && k < |s.players| && s.players[k].stage == Running(id)
    requires forall i | 0 <= i < |inputs| ::
               inputs[i].PlayerChunk? && 0 < |inputs[i].chunk| <= PLAYER_BUFFER
    ensures var t := StepsFrom(s, ChatEvents(k, inputs));
            && !t.ended && k < |t.players| && t.players[k].stage == Running(id)
            && t.toProxy == s.toProxy + Chat(id, k, inputs)
    decreases |inputs|
  {
    hide Step, WellFormed;
    var es := ChatEvents(k, inputs);
    if inputs == [] {
      assert s.toProxy + [] == s.toProxy;
    } else {
      var before := inputs[..|inputs| - 1];
      ChatIsSteps(s, k, id, before);
      assert es[..|es| - 1] == ChatEvents(k, before);
      ChatStep(StepsFrom(s, ChatEvents(k, before)), k, id, inputs[|inputs| - 1].chunk);
    }
  }

  /** What ends a player is one step of the machine, and puts one last message on the queue. */
  lemma PlayerEndingIsStep(s: State, k: nat, id: nat, input: PlayerInput)
    requires WellFormed(s) && !s.ended && k < |s.players| && s.players[k].stage == Running(id)
    requires input.ReadEnds? || input.WriterEnds? || input.chunk == []
    requires input.WriterEnds? ==> Enabled(s, PlayerDropped(k))
    ensures var t := Step(s, if input.WriterEnds? then PlayerDropped(k) else PlayerLeaves(k));
            t.toProxy == s.toProxy + [RemoveClient(id, k)] && k < |t.players| && t.players[k].stage.Gone?
  {
    hide WellFormed;
  }

  /** Asking for an id, starting with it and leaving put the same messages on the queue as the steps of the machine. */
  lemma PlayerIsSteps(s: State, k: nat, first: Chunk)
    requires WellFormed(s) && !s.ended
    ensures Step(s, Connect(first)).toProxy == s.toProxy + [AddClient(|s.players|)]
    ensures k < |s.players| && s.players[k].stage.Assigned? ==>
              var t := Step(s, SendFirst(k));
              && t.toProxy == s.toProxy + [Forward(s.players[k].stage.id, s.players[k].first, k)]
              && t.players[k].stage == Running(s.players[k].stage.id)
    ensures IsRunning(s, k) ==>
              var t := Step(s, PlayerLeaves(k));
              && t.toProxy == s.toProxy + [RemoveClient(s.players[k].stage.id, k)] && t.players[k].stage.Gone?
    ensures Enabled(s, PlayerDropped(k)) ==> Step(s, PlayerDropped(k)) == Step(s, PlayerLeaves(k))
  {
    hide WellFormed;
  }
}
