/** The order of things in every run: what a player and a connection have done tells how far they have come. */
module Lifecycle {
  import opened Slots
  import opened Multiplexer

  /** Nothing goes either way before a player has its id, and its first data goes first. */
  predicate PlayerInOrder(p: Player) {
    if p.stage.Waiting? || p.stage.Assigned? then p.sent == [] && p.received == []
    else p.sent != [] && p.sent[0] == p.first
  }

  /** Nothing goes either way before the Minecraft server has accepted the connection. */
  predicate ConnInOrder(c: Conn) {
    c.stage.Connecting? ==> c.sent == [] && c.delivered == []
  }

  ghost predicate InOrder(s: State) {
    && (forall k | 0 <= k < |s.players| :: PlayerInOrder(s.players[k]))
    && (forall j | 0 <= j < |s.connections| :: ConnInOrder(s.connections[j]))
    && (forall i | 0 <= i < |s.toProxy| && s.toProxy[i].AddClient? ::
          s.toProxy[i].player < |s.players| && s.players[s.toProxy[i].player].stage.Waiting?)
    && (forall i, j | 0 <= i < j < |s.toProxy| && s.toProxy[i].AddClient? :: s.toProxy[i] != s.toProxy[j])
  }

  lemma WriteKeeps(s: State)
    requires WellFormed(s) && InOrder(s) && s.toProxy != []
    ensures InOrder(ServerWrites(s))
  {
    hide FirstFreeFrom, WellFormed;
    var t := ServerWrites(s);
    assert forall i | 0 <= i < |t.toProxy| :: t.toProxy[i] == s.toProxy[i + 1];
  }

  lemma ReadUpKeeps(s: State)
    requires WellFormed(s) && InOrder(s) && s.upSeen < |s.up|
    ensures InOrder(ServerReads(s))
  {
  }

  lemma ReadKeeps(s: State)
    requires WellFormed(s) && InOrder(s) && s.seen < |s.down|
    ensures InOrder(ClientReads(s))
  {
    hide Listening;
  }

  lemma SendKeeps(s: State)
    requires InOrder(s) && s.toServer != []
    ensures InOrder(ClientWrites(s))
  {
  }

  lemma ConnectKeeps(s: State, e: Event)
    requires WellFormed(s) && InOrder(s) && e.Connect? && Enabled(s, e)
    ensures InOrder(Step(s, e))
  {
    var t := Step(s, e);
    assert forall i | 0 <= i < |s.toProxy| :: t.toProxy[i] == s.toProxy[i];
  }

  lemma PlayerKeeps(s: State, e: Event)
    requires WellFormed(s) && InOrder(s) && Enabled(s, e)
    requires e.SendFirst? || e.PlayerSends? || e.PlayerReceives? || e.PlayerLeaves? || e.PlayerDropped?
    ensures InOrder(Step(s, e))
  {
    hide WellFormed, ConnInOrder;
    var t := Step(s, e);
    assert forall i | 0 <= i < |t.toProxy| && t.toProxy[i].AddClient? ::
             i < |s.toProxy| && t.toProxy[i] == s.toProxy[i];
  }

  lemma ConnKeeps(s: State, e: Event)
    requires WellFormed(s) && InOrder(s) && Enabled(s, e)
    requires e.ConnOpens? || e.ConnFails? || e.ConnSends? || e.ConnReceives? || e.ConnEnds? || e.ConnDropped?
    ensures InOrder(Step(s, e))
  {
    hide WellFormed, PlayerInOrder;
  }

  lemma StepKeeps(s: State, e: Event)
    requires WellFormed(s) && InOrder(s)
    ensures InOrder(Step(s, e))
  {
    hide ServerWrites, ServerReads, ClientReads, ClientWrites, WellFormed, PlayerInOrder, ConnInOrder;
    if Enabled(s, e) {
      match e {
        case ServerWriter => WriteKeeps(s);
        case ServerReader => ReadUpKeeps(s);
        case ClientReader => ReadKeeps(s);
        case ClientWriter => SendKeeps(s);
        case Connect(_) => ConnectKeeps(s, e);
        case ConnOpens(_) => ConnKeeps(s, e);
        case ConnFails(_) => ConnKeeps(s, e);
        case ConnSends(_, _) => ConnKeeps(s, e);
        case ConnReceives(_) => ConnKeeps(s, e);
        case ConnEnds(_) => ConnKeeps(s, e);
        case ConnDropped(_) => ConnKeeps(s, e);
        case ClientDisconnect =>
        case _ => PlayerKeeps(s, e);
      }
    }
  }

  /**
   In every run: a player has sent nothing before it was given an id, and since then
   its first data before all else; a connection has carried nothing before it was
   accepted.
   */
  lemma EverythingInOrder(es: seq<Event>)
    ensures var s := Run(es);
            && (forall k | 0 <= k < |s.players| ::
                  var p := s.players[k];
                  match p.stage
                  case Waiting => p.sent == [] && p.received == []
                  case Assigned(_) => p.sent == [] && p.received == []
                  case Running(_) => p.sent != [] && p.sent[0] == p.first
                  case Gone => p.sent != [] && p.sent[0] == p.first)
            && (forall j | 0 <= j < |s.connections| && s.connections[j].stage.Connecting? ::
                  s.connections[j].sent == [] && s.connections[j].delivered == [])
  {
    assert InOrder(Run(es)) by { RunKeeps(es); }
  }

  lemma {:induction false} RunKeeps(es: seq<Event>)
    ensures InOrder(Run(es))
  {
    hide Step, InOrder;
    if es == [] {
      assert InOrder(Start()) by { Begins(); }
    } else {
      RunKeeps(es[..|es| - 1]);
      StepKeeps(Run(es[..|es| - 1]), es[|es| - 1]);
    }
  }

  lemma Begins()
    ensures InOrder(Start())
  {
  }
}
