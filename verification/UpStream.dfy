/**
 What reaches the players. The server's reader looks only at the id of a frame, so
 data of one player's connection can reach the next player under the same id; these
 are the exact circumstances, in every run, and what holds when they do not arise.
 */
module UpStream {
  import opened Basics
  import opened Slots
  import opened Multiplexer
  import Acks

  // Joins of an id

  predicate IsJoin(f: DownFrame, id: nat) {
    f.Join? && f.id == id
  }

  /** Whom the last join of an id was for. */
  function LastOwner(t: seq<DownFrame>, id: nat): Option<nat> {
    if t == [] then None
    else if IsJoin(t[|t| - 1], id) then Some(t[|t| - 1].owner)
    else LastOwner(t[..|t| - 1], id)
  }

  lemma LastOwnerAppend(t: seq<DownFrame>, f: DownFrame, id: nat)
    ensures LastOwner(t + [f], id) == if IsJoin(f, id) then Some(f.owner) else LastOwner(t, id)
  {
    assert (t + [f])[..|t|] == t;
  }

  lemma {:induction false} LastJoin(t: seq<DownFrame>, id: nat, p: nat) returns (q: nat)
    requires p < |t| && IsJoin(t[p], id)
    ensures p <= q < |t| && IsJoin(t[q], id) && LastOwner(t, id) == Some(t[q].owner)
    ensures forall i | q < i < |t| :: !IsJoin(t[i], id)
    decreases |t|
  {
    if IsJoin(t[|t| - 1], id) {
      q := |t| - 1;
    } else {
      q := LastJoin(t[..|t| - 1], id, p);
    }
  }

  /** The number of joins stands still exactly as long as nobody joins. */
  lemma {:induction false} CountStands(t: seq<DownFrame>, n: nat, id: nat)
    requires n <= |t|
    ensures Acks.JoinCount(t[..n], id) <= Acks.JoinCount(t, id)
    ensures Acks.JoinCount(t[..n], id) == Acks.JoinCount(t, id) <==> forall i | n <= i < |t| :: !IsJoin(t[i], id)
    decreases |t|
  {
    hide Acks.JoinCount;
    if n == |t| {
      assert t[..n] == t;
    } else {
      var before := t[..|t| - 1];
      assert before[..n] == t[..n] && t == before + [t[|t| - 1]];
      CountStands(before, n, id);
      Acks.JoinAppend(before, t[|t| - 1], id);
      assert forall i | n <= i < |before| :: before[i] == t[i];
    }
  }

  // What players have heard and connections have said

  function Heard(s: State, k: nat): seq<Chunk> {
    if k < |s.players| then s.players[k].received + s.players[k].inbox else []
  }

  function Said(t: seq<UpFrame>, j: nat): seq<Chunk> {
    if t == [] then []
    else
      var f := t[|t| - 1];
      Said(t[..|t| - 1], j) + if f.UpData? && f.source == j then [f.chunk] else []
  }

  function StillToSay(q: seq<ToServer>, j: nat): seq<Chunk> {
    if q == [] then []
    else (if q[0].Packet? && q[0].source == j then [q[0].chunk] else []) + StillToSay(q[1..], j)
  }

  lemma SaidAppend(t: seq<UpFrame>, f: UpFrame, j: nat)
    ensures Said(t + [f], j) == Said(t, j) + if f.UpData? && f.source == j then [f.chunk] else []
  {
    assert (t + [f])[..|t|] == t;
  }

  lemma {:induction false} QueueAppend(q: seq<ToServer>, m: ToServer, j: nat)
    ensures StillToSay(q + [m], j) == StillToSay(q, j) + if m.Packet? && m.source == j then [m.chunk] else []
  {
    if q == [] {
      assert [m][1..] == [];
    } else {
      assert (q + [m])[1..] == q[1..] + [m];
      QueueAppend(q[1..], m, j);
    }
  }

  lemma {:induction false} SaidPrefix(t: seq<UpFrame>, n: nat, j: nat)
    requires n <= |t|
    ensures Said(t[..n], j) <= Said(t, j)
    decreases |t|
  {
    if n == |t| {
      assert t[..n] == t;
    } else {
      assert t[..|t| - 1][..n] == t[..n];
      SaidPrefix(t[..|t| - 1], n, j);
    }
  }

  lemma {:induction false} NothingSaid(t: seq<UpFrame>, j: nat)
    requires forall i | 0 <= i < |t| && t[i].UpData? :: t[i].source != j
    ensures Said(t, j) == []
  {
    if t != [] { NothingSaid(t[..|t| - 1], j); }
  }

  lemma {:induction false} NothingToSay(q: seq<ToServer>, j: nat)
    requires forall i | 0 <= i < |q| && q[i].Packet? :: q[i].source != j
    ensures StillToSay(q, j) == []
  {
    if q != [] { NothingToSay(q[1..], j); }
  }

  // What every run keeps

  /** Every player joins once, and an occupied slot names the player of the last join of its id. */
  ghost predicate JoinsOnce(s: State) {
    && (forall p | 0 <= p < |s.down| && s.down[p].Join? ::
          s.down[p].owner < |s.players| && !s.players[s.down[p].owner].stage.Waiting?)
    && (forall p, q | 0 <= p < q < |s.down| && s.down[p].Join? && s.down[q].Join? :: s.down[p].owner != s.down[q].owner)
  }

  ghost predicate SlotsNameLast(s: State) {
    forall id | 0 <= id < MAXIMUM_CLIENTS && s.slots[id].Some? :: LastOwner(s.down, id) == s.slots[id]
  }

  /** Every connection stems from a join of its own. */
  ghost predicate ConnsJoined(s: State) {
    && s.seen <= |s.down|
    && (forall j | 0 <= j < |s.connections| ::
          var c := s.connections[j]; c.joinedAt < s.seen && s.down[c.joinedAt] == Join(c.id, c.owner))
    && (forall i, j | 0 <= i < j < |s.connections| :: s.connections[i].joinedAt < s.connections[j].joinedAt)
  }

  /** Data going up names the connection it comes from. */
  ghost predicate Sourced(s: State) {
    && (forall i | 0 <= i < |s.toServer| && s.toServer[i].Packet? ::
          var m := s.toServer[i]; m.source < |s.connections| && s.connections[m.source].id == m.id)
    && (forall i | 0 <= i < |s.up| && s.up[i].UpData? ::
          var f := s.up[i]; f.source < |s.connections| && s.connections[f.source].id == f.id)
  }

  ghost predicate AllSaid(s: State) {
    forall j | 0 <= j < |s.connections| ::
      s.connections[j].sent == Said(s.up, j) + StillToSay(s.toServer, j)
  }

  /** The id of a frame has not been joined again since the join that opened the connection it comes from. */
  ghost predicate SameGeneration(s: State, f: UpFrame)
    requires f.UpData?
  {
    && f.source < |s.connections| && s.connections[f.source].joinedAt < |s.down|
    && Acks.JoinCount(s.down, f.id) == Acks.JoinCount(s.down[..s.connections[f.source].joinedAt + 1], f.id)
  }

  /** If the next frame reaches a player, it is of the generation the player belongs to. */
  ghost predicate OwnRead(s: State) {
    s.upSeen < |s.up| && s.up[s.upSeen].UpData? && Reaches(s, s.up[s.upSeen].id) ==>
      SameGeneration(s, s.up[s.upSeen])
  }

  /** The id is held by a player that is still there. */
  predicate Reaches(s: State, id: nat) {
    var holder := Lookup(s.slots, id);
    holder.Some? && holder.value < |s.players| && !s.players[holder.value].stage.Gone?
  }

  ghost predicate OwnReads(es: seq<Event>) {
    forall n | 0 <= n < |es| && es[n].ServerReader? && !Run(es[..n]).ended :: OwnRead(Run(es[..n]))
  }

  ghost predicate Owned(cs: seq<Conn>, k: nat) {
    exists j :: 0 <= j < |cs| && cs[j].owner == k
  }

  predicate InSlot(s: State, c: Conn) {
    Lookup(s.slots, c.id) == Some(c.owner) && c.owner < |s.players| && !s.players[c.owner].stage.Gone?
  }

  /** The owner of connection `j` has heard a beginning of what was read of it, and all while it is in its slot. */
  ghost predicate HeardOf(s: State, j: nat)
    requires j < |s.connections| && s.upSeen <= |s.up|
  {
    var c := s.connections[j];
    && Heard(s, c.owner) <= Said(s.up[..s.upSeen], j)
    && (InSlot(s, c) ==> Heard(s, c.owner) == Said(s.up[..s.upSeen], j))
  }

  ghost predicate HeardInOrder(s: State)
    requires s.upSeen <= |s.up|
  {
    && (forall j | 0 <= j < |s.connections| :: HeardOf(s, j))
    && (forall k: nat | !Owned(s.connections, k) :: Heard(s, k) == [])
  }

  ghost predicate Inv(s: State, own: bool) {
    && s.upSeen <= |s.up|
    && JoinsOnce(s) && SlotsNameLast(s) && ConnsJoined(s) && Sourced(s) && AllSaid(s)
    && (own ==> HeardInOrder(s))
  }

  lemma OwnersDiffer(s: State, i: nat, j: nat)
    requires JoinsOnce(s) && ConnsJoined(s) && i < |s.connections| && j < |s.connections| && i != j
    ensures s.connections[i].owner != s.connections[j].owner
  {
    assert i < j ==> s.connections[i].joinedAt < s.connections[j].joinedAt;
    assert j < i ==> s.connections[j].joinedAt < s.connections[i].joinedAt;
  }

  /**
   Data of connection `j` that finds the slot of its id occupied is for the
   connection's own player exactly if nobody has joined under the id since.
   */
  lemma ForOwner(s: State, id: nat, j: nat)
    requires JoinsOnce(s) && SlotsNameLast(s) && ConnsJoined(s)
    requires Lookup(s.slots, id).Some? && j < |s.connections| && s.connections[j].id == id
    ensures var c := s.connections[j];
            Lookup(s.slots, id) == Some(c.owner) <==>
            Acks.JoinCount(s.down, id) == Acks.JoinCount(s.down[..c.joinedAt + 1], id)
  {
    var p := s.connections[j].joinedAt;
    var q := LastJoin(s.down, id, p);
    CountStands(s.down, p + 1, id);
    assert IsJoin(s.down[q], id);
  }

  // Steps

  /** The same players with the same connections have heard the same, and at most fewer are in their slots. */
  lemma HeardSame(s: State, t: State)
    requires s.upSeen <= |s.up| && t.upSeen <= |t.up| && HeardInOrder(s)
    requires |t.connections| == |s.connections|
    requires forall j | 0 <= j < |s.connections| ::
               && t.connections[j].owner == s.connections[j].owner && t.connections[j].id == s.connections[j].id
               && Said(t.up[..t.upSeen], j) == Said(s.up[..s.upSeen], j)
    requires forall k: nat :: Heard(t, k) == Heard(s, k)
    requires forall j | 0 <= j < |s.connections| :: InSlot(t, t.connections[j]) ==> InSlot(s, s.connections[j])
    ensures HeardInOrder(t)
  {
    hide Said, Heard, InSlot;
    forall j | 0 <= j < |t.connections| ensures HeardOf(t, j) { assert HeardOf(s, j); }
    forall k: nat | Owned(s.connections, k) ensures Owned(t.connections, k) {
      var j :| 0 <= j < |s.connections| && s.connections[j].owner == k;
      assert t.connections[j].owner == k;
    }
  }

  /** Players move on, and nobody hears or forgets anything. */
  lemma PlayersMove(s: State, t: State, own: bool)
    requires Inv(s, own) && t == s.(players := t.players, toProxy := t.toProxy)
    requires |s.players| <= |t.players| && forall k: nat :: Heard(t, k) == Heard(s, k)
    requires forall k | 0 <= k < |s.players| ::
               && (t.players[k].stage.Waiting? ==> s.players[k].stage.Waiting?)
               && (s.players[k].stage.Gone? ==> t.players[k].stage.Gone?)
    ensures Inv(t, own)
  {
    hide LastOwner, Said, StillToSay, HeardInOrder;
    OwnersKnown(s);
    if own { HeardSame(s, t); }
  }

  lemma OwnersKnown(s: State)
    requires JoinsOnce(s) && ConnsJoined(s)
    ensures forall j | 0 <= j < |s.connections| :: s.connections[j].owner < |s.players|
  {
    forall j | 0 <= j < |s.connections| ensures s.connections[j].owner < |s.players| {
      assert s.down[s.connections[j].joinedAt].Join?;
    }
  }

  lemma PlayerStep(s: State, e: Event, own: bool)
    requires Inv(s, own) && WellFormed(s) && Enabled(s, e)
    requires e.Connect? || e.SendFirst? || e.PlayerSends? || e.PlayerReceives? || e.PlayerLeaves? || e.PlayerDropped?
    ensures Inv(Step(s, e), own)
  {
    hide Inv, WellFormed;
    PlayersMove(s, Step(s, e), own);
  }

  /** The writer frees a slot, or writes a frame that is no join. */
  lemma WriteQuietly(s: State, t: State, f: DownFrame, own: bool)
    requires Inv(s, own) && !f.Join?
    requires t == s.(toProxy := t.toProxy, slots := t.slots, down := s.down + [f])
    requires forall id | 0 <= id < MAXIMUM_CLIENTS && t.slots[id].Some? :: t.slots[id] == s.slots[id]
    ensures Inv(t, own)
  {
    hide LastOwner, Said, StillToSay, HeardInOrder;
    forall id: nat { LastOwnerAppend(s.down, f, id); }
    if own { HeardSame(s, t); }
  }

  /** A waiting player is let in. */
  lemma WriteJoin(s: State, t: State, k: nat, own: bool)
    requires Inv(s, own) && k < |s.players| && s.players[k].stage.Waiting? && FirstFree(s.slots) < MAXIMUM_CLIENTS
    requires var id := FirstFree(s.slots);
             t == s.(toProxy := t.toProxy, slots := Inserted(s.slots, k), down := s.down + [Join(id, k)],
                     players := s.players[k := s.players[k].(stage := Assigned(id))])
    ensures Inv(t, own)
  {
    hide LastOwner, Said, StillToSay, HeardInOrder, FirstFreeFrom;
    var f := Join(FirstFree(s.slots), k);
    forall id: nat { LastOwnerAppend(s.down, f, id); }
    OwnersKnown(s);
    assert forall j | 0 <= j < |s.connections| :: s.down[s.connections[j].joinedAt].Join?;
    assert forall i: nat :: Heard(t, i) == Heard(s, i);
    if own { HeardSame(s, t); }
  }

  lemma WriteStep(s: State, own: bool)
    requires Inv(s, own) && WellFormed(s) && s.toProxy != [] && Acks.WaitersQueued(s)
    ensures Inv(ServerWrites(s), own)
  {
    var t := ServerWrites(s);
    hide Inv, WellFormed, FirstFreeFrom;
    match s.toProxy[0] {
      case AddClient(k) =>
        if FirstFree(s.slots) < MAXIMUM_CLIENTS {
          WriteJoin(s, t, k, own);
        } else {
          Stops(s, t, own);
        }
      case Forward(id, chunk, owner) => WriteQuietly(s, t, Data(id, chunk, owner), own);
      case RemoveClient(id, _) =>
        if id < MAXIMUM_CLIENTS {
          WriteQuietly(s, t, DownFrame.Disconnect(id), own);
        } else {
          Stops(s, t, own);
        }
    }
  }

  /** Nothing of interest changes. */
  lemma Stops(s: State, t: State, own: bool)
    requires Inv(s, own)
    requires t == s.(toProxy := t.toProxy, conns := t.conns, disconnects := t.disconnects,
                     ended := t.ended, clientNotFound := t.clientNotFound)
    ensures Inv(t, own)
  {
    hide LastOwner, Said, StillToSay, HeardInOrder;
    if own { HeardSame(s, t); }
  }

  /** A frame is read that reaches nobody. */
  lemma ReadUnheard(s: State, t: State, own: bool)
    requires Inv(s, own) && s.upSeen < |s.up| && t == s.(upSeen := s.upSeen + 1, slots := t.slots)
    requires forall id | 0 <= id < MAXIMUM_CLIENTS && t.slots[id].Some? :: t.slots[id] == s.slots[id]
    requires var f := s.up[s.upSeen];
             f.UpData? ==> match Lookup(s.slots, f.id)
                           case None => true
                           case Some(k) => k >= |s.players| || s.players[k].stage.Gone?
    ensures Inv(t, own)
  {
    hide LastOwner, Said, StillToSay, HeardInOrder;
    var f := s.up[s.upSeen];
    assert s.up[..t.upSeen] == s.up[..s.upSeen] + [f];
    if own { UnheardInOrder(s, t); }
  }

  lemma UnheardInOrder(s: State, t: State)
    requires s.upSeen < |s.up| && t.connections == s.connections && t.players == s.players
    requires t.up == s.up && t.upSeen == s.upSeen + 1 && HeardInOrder(s)
    requires forall j | 0 <= j < |s.connections| && InSlot(t, s.connections[j]) :: InSlot(s, s.connections[j])
    requires var f := s.up[s.upSeen];
             f.UpData? ==> f.source < |s.connections| && !InSlot(t, s.connections[f.source])
    ensures HeardInOrder(t)
  {
    hide Said, Heard, InSlot;
    assert forall k: nat :: Heard(t, k) == Heard(s, k) by { SamePlayers(s, t); }
    assert s.up[..t.upSeen] == s.up[..s.upSeen] + [s.up[s.upSeen]];
    forall j | 0 <= j < |t.connections| ensures HeardOf(t, j) {
      assert HeardOf(s, j);
      SaidAppend(s.up[..s.upSeen], s.up[s.upSeen], j);
    }
  }

  lemma SamePlayers(s: State, t: State)
    requires t.players == s.players
    ensures forall k: nat :: Heard(t, k) == Heard(s, k)
  {
  }

  /** A frame reaches the player in the slot. */
  lemma ReadHeard(s: State, t: State, k: nat, own: bool)
    requires own ==> OwnRead(s)
    requires Inv(s, own) && s.upSeen < |s.up| && s.up[s.upSeen].UpData?
    requires var f := s.up[s.upSeen];
             && Lookup(s.slots, f.id) == Some(k) && k < |s.players| && !s.players[k].stage.Gone?
             && t == s.(upSeen := s.upSeen + 1,
                        players := s.players[k := s.players[k].(inbox := s.players[k].inbox + [f.chunk])])
    ensures Inv(t, own)
  {
    hide LastOwner, Said, StillToSay, HeardInOrder;
    var f := s.up[s.upSeen];
    assert s.up[..t.upSeen] == s.up[..s.upSeen] + [f];
    assert forall i: nat :: Heard(t, i) == Heard(s, i) + if i == k then [f.chunk] else [];
    if own {
      ForOwner(s, f.id, f.source);
      forall j | 0 <= j < |s.connections| && j != f.source ensures s.connections[j].owner != k {
        OwnersDiffer(s, j, f.source);
      }
      HeardByOwner(s, t, f.source);
    }
  }

  lemma HeardByOwner(s: State, t: State, j: nat)
    requires s.upSeen < |s.up| && t.connections == s.connections && t.up == s.up && t.upSeen == s.upSeen + 1
    requires HeardInOrder(s) && j < |s.connections| && InSlot(s, s.connections[j])
    requires s.up[s.upSeen].UpData? && s.up[s.upSeen].source == j
    requires forall i | 0 <= i < |s.connections| && i != j :: s.connections[i].owner != s.connections[j].owner
    requires forall i: nat ::
               Heard(t, i) == Heard(s, i) + if i == s.connections[j].owner then [s.up[s.upSeen].chunk] else []
    requires forall i | 0 <= i < |s.connections| && InSlot(t, s.connections[i]) :: InSlot(s, s.connections[i])
    ensures HeardInOrder(t)
  {
    hide Said, Heard, InSlot;
    var f := s.up[s.upSeen];
    assert s.up[..t.upSeen] == s.up[..s.upSeen] + [f];
    forall i | 0 <= i < |t.connections| ensures HeardOf(t, i) {
      assert HeardOf(s, i);
      SaidAppend(s.up[..s.upSeen], f, i);
    }
    assert Owned(s.connections, s.connections[j].owner);
  }

  lemma ReadStep(s: State, own: bool)
    requires Inv(s, own) && WellFormed(s) && s.upSeen < |s.up| && (own ==> OwnRead(s))
    ensures Inv(ServerReads(s), own)
  {
    var t, f := ServerReads(s), s.up[s.upSeen];
    var holder := Lookup(s.slots, f.id);
    assert holder.Some? ==> holder.value < |s.players|;
    hide Inv, WellFormed, OwnRead;
    if f.UpData? && holder.Some? && !s.players[holder.value].stage.Gone? {
      ReadHeard(s, t, holder.value, own);
    } else {
      ReadUnheard(s, t, own);
    }
  }

  /** A connection changes neither its origin nor what it has said. */
  lemma ConnMoves(s: State, t: State, j: nat, c: Conn, own: bool)
    requires Inv(s, own) && j < |s.connections|
    requires c.id == s.connections[j].id && c.owner == s.connections[j].owner
    requires c.joinedAt == s.connections[j].joinedAt && c.sent == s.connections[j].sent
    requires t == SetConn(s, j, c).(toServer := t.toServer)
    requires |s.toServer| <= |t.toServer| && forall i | 0 <= i < |s.toServer| :: t.toServer[i] == s.toServer[i]
    requires forall i | |s.toServer| <= i < |t.toServer| :: !t.toServer[i].Packet?
    ensures Inv(t, own)
  {
    hide LastOwner, Said, StillToSay, HeardInOrder;
    forall i: nat { QuietQueue(s.toServer, t.toServer, i); }
    if own { HeardSame(s, t); }
  }

  lemma {:induction false} QuietQueue(q: seq<ToServer>, r: seq<ToServer>, j: nat)
    requires |q| <= |r| && forall i | 0 <= i < |q| :: r[i] == q[i]
    requires forall i | |q| <= i < |r| :: !r[i].Packet?
    ensures StillToSay(r, j) == StillToSay(q, j)
    decreases |r|
  {
    if |r| > |q| {
      var m := r[|r| - 1];
      assert r == r[..|r| - 1] + [m];
      QueueAppend(r[..|r| - 1], m, j);
      QuietQueue(q, r[..|r| - 1], j);
    } else {
      assert r == q;
    }
  }

  lemma ConnSays(s: State, j: nat, chunk: Chunk, own: bool)
    requires Inv(s, own) && WellFormed(s) && Enabled(s, ConnSends(j, chunk))
    ensures Inv(Step(s, ConnSends(j, chunk)), own)
  {
    hide LastOwner, Said, StillToSay, HeardInOrder, WellFormed;
    var t, m := Step(s, ConnSends(j, chunk)), Packet(s.connections[j].id, chunk, j);
    assert t.toServer == s.toServer + [m] && t.up[..t.upSeen] == s.up[..s.upSeen];
    forall i: nat { QueueAppend(s.toServer, m, i); }
    forall i | 0 <= i < |t.connections|
      ensures t.connections[i].sent == Said(t.up, i) + StillToSay(t.toServer, i)
    {
      assert s.connections[i].sent + [chunk] == Said(s.up, i) + (StillToSay(s.toServer, i) + [chunk]);
      assert Said(s.up, i) + StillToSay(s.toServer, i) == Said(s.up, i) + (StillToSay(s.toServer, i) + []);
    }
    if own { HeardSame(s, t); }
  }

  lemma ConnStep(s: State, e: Event, own: bool)
    requires Inv(s, own) && WellFormed(s) && Enabled(s, e)
    requires e.ConnOpens? || e.ConnFails? || e.ConnReceives? || e.ConnEnds? || e.ConnDropped?
    ensures Inv(Step(s, e), own)
  {
    hide Inv, WellFormed;
    var t := Step(s, e);
    ConnMoves(s, t, e.j, t.connections[e.j], own);
  }

  lemma SendStep(s: State, own: bool)
    requires Inv(s, own) && s.toServer != []
    ensures Inv(ClientWrites(s), own)
  {
    hide LastOwner, Said, StillToSay, HeardInOrder;
    var t, m := ClientWrites(s), s.toServer[0];
    assert forall i | 0 <= i < |t.toServer| :: t.toServer[i] == s.toServer[i + 1];
    forall j | 0 <= j < |t.connections|
      ensures t.connections[j].sent == Said(t.up, j) + StillToSay(t.toServer, j)
    {
      Pushed(s.up, s.toServer, t.up, j);
    }
    assert t.up[..t.upSeen] == s.up[..s.upSeen];
    if own { HeardSame(s, t); }
  }

  /** What was to be said first is said now. */
  lemma Pushed(up: seq<UpFrame>, q: seq<ToServer>, after: seq<UpFrame>, j: nat)
    requires q != [] && after == SendOne(SentUp(up, [], false), q[0]).frames
    ensures Said(after, j) + StillToSay(q[1..], j) == Said(up, j) + StillToSay(q, j)
  {
    var next := if q[0].Packet? && q[0].source == j then [q[0].chunk] else [];
    assert StillToSay(q, j) == next + StillToSay(q[1..], j);
    hide Said, StillToSay;
    assert Said(after, j) == Said(up, j) + next by {
      match q[0] {
        case Packet(id, chunk, source) => SaidAppend(up, UpData(id, chunk, source), j);
        case Leave(id) => SaidAppend(up, UpDisconnect(id), j);
        case Death => assert Said(up, j) + [] == Said(up, j);
      }
    }
    Regrouped(Said(up, j), next, StillToSay(q[1..], j));
  }

  lemma Regrouped(a: seq<Chunk>, b: seq<Chunk>, c: seq<Chunk>)
    ensures (a + b) + c == a + (b + c)
  {
  }

  /** The client opens a connection for the join it has come to. */
  lemma ConnBegins(s: State, t: State, f: DownFrame, own: bool)
    requires Inv(s, own) && s.seen < |s.down| && s.down[s.seen] == f && f.Join?
    requires t == s.(seen := s.seen + 1, conns := t.conns,
                     connections := s.connections + [Conn(f.id, Connecting, [], [], f.owner, s.seen, [])])
    ensures Inv(t, own)
  {
    hide LastOwner, Said, StillToSay, HeardInOrder;
    var n := |s.connections|;
    NothingSaid(s.up, n);
    NothingSaid(s.up[..s.upSeen], n);
    NothingToSay(s.toServer, n);
    if own {
      forall j | 0 <= j < n ensures s.connections[j].owner != f.owner {
        assert s.down[s.connections[j].joinedAt].Join?;
      }
      NewConnHeard(s, t);
    }
  }

  lemma NewConnHeard(s: State, t: State)
    requires s.upSeen <= |s.up| && HeardInOrder(s)
    requires t.players == s.players && t.slots == s.slots && t.up == s.up && t.upSeen == s.upSeen
    requires var n := |s.connections|;
             && |t.connections| == n + 1 && t.connections[..n] == s.connections
             && (forall j | 0 <= j < n :: s.connections[j].owner != t.connections[n].owner)
             && Said(s.up[..s.upSeen], n) == []
    ensures HeardInOrder(t)
  {
    hide Said, Heard, InSlot;
    var n := |s.connections|;
    assert forall j | 0 <= j < n :: t.connections[j] == s.connections[j];
    assert forall k: nat :: Heard(t, k) == Heard(s, k) by { SamePlayers(s, t); }
    assert forall c :: InSlot(t, c) == InSlot(s, c) by { SameSlots(s, t); }
    assert !Owned(s.connections, t.connections[n].owner);
    forall j | 0 <= j <= n ensures HeardOf(t, j) {
      if j < n { assert HeardOf(s, j); }
    }
    forall k: nat | Owned(s.connections, k) ensures Owned(t.connections, k) {
      var j :| 0 <= j < n && s.connections[j].owner == k;
      assert t.connections[j].owner == k;
    }
  }

  lemma SameSlots(s: State, t: State)
    requires t.players == s.players && t.slots == s.slots
    ensures forall c :: InSlot(t, c) == InSlot(s, c)
  {
  }

  lemma FrameRead(s: State, t: State, j: nat, own: bool)
    requires Inv(s, own) && s.seen < |s.down|
    requires t == s.(seen := s.seen + 1, conns := t.conns, connections := t.connections,
                     ended := t.ended, clientNotFound := t.clientNotFound)
    requires t.connections == s.connections ||
             (j < |s.connections| == |t.connections| &&
              t.connections == s.connections[j := s.connections[j].(inbox := t.connections[j].inbox)])
    ensures Inv(t, own)
  {
    hide LastOwner, Said, StillToSay, HeardInOrder;
    assert forall i | 0 <= i < |s.connections| ::
        t.connections[i] == s.connections[i].(inbox := t.connections[i].inbox);
    if own { HeardSame(s, t); }
  }

  lemma ClientReadStep(s: State, own: bool)
    requires Inv(s, own) && WellFormed(s) && s.seen < |s.down|
    ensures Inv(ClientReads(s), own)
  {
    hide Inv, WellFormed, Listening;
    var f := s.down[s.seen];
    var t, j := ReadsOnly(s);
    if f.Join? { ConnBegins(s, t, f, own); } else { FrameRead(s, t, j, own); }
  }

  lemma ReadsOnly(s: State) returns (t: State, j: nat)
    requires WellFormed(s) && s.seen < |s.down|
    ensures t == ClientReads(s)
    ensures var f := s.down[s.seen];
            if f.Join? then
              t == s.(seen := s.seen + 1, conns := t.conns,
                      connections := s.connections + [Conn(f.id, Connecting, [], [], f.owner, s.seen, [])])
            else
              && t == s.(seen := s.seen + 1, conns := t.conns, connections := t.connections,
                         ended := t.ended, clientNotFound := t.clientNotFound)
              && (t.connections == s.connections ||
                  (j < |s.connections| == |t.connections| &&
                   t.connections == s.connections[j := s.connections[j].(inbox := t.connections[j].inbox)]))
  {
    hide Listening;
    t, j := ClientReads(s), 0;
    var f := s.down[s.seen];
    if f.Data? && t.connections != s.connections { j := s.conns.table[f.id].value; }
  }

  lemma StepKeeps(s: State, e: Event, own: bool)
    requires Inv(s, own) && Acks.Inv(s) && (own && e.ServerReader? && !s.ended ==> OwnRead(s))
    ensures Inv(Step(s, e), own)
  {
    if Enabled(s, e) {
      assert WellFormed(s) && Acks.WaitersQueued(s);
      hide Inv, WellFormed, OwnRead, Acks.Inv, Acks.WaitersQueued, ServerWrites, ServerReads, ClientWrites, ClientReads;
      match e {
        case ServerWriter => WriteStep(s, own);
        case ServerReader => ReadStep(s, own);
        case ClientWriter => SendStep(s, own);
        case ClientReader => ClientReadStep(s, own);
        case ClientDisconnect => Stops(s, Step(s, e), own);
        case ConnSends(j, chunk) => ConnSays(s, j, chunk, own);
        case ConnOpens(_) => ConnStep(s, e, own);
        case ConnFails(_) => ConnStep(s, e, own);
        case ConnReceives(_) => ConnStep(s, e, own);
        case ConnEnds(_) => ConnStep(s, e, own);
        case ConnDropped(_) => ConnStep(s, e, own);
        case _ => PlayerStep(s, e, own);
      }
    }
  }

  lemma {:induction false} RunInv(es: seq<Event>, own: bool)
    requires own ==> OwnReads(es)
    ensures Inv(Run(es), own)
  {
    hide Inv, Step, Acks.Inv, OwnRead;
    if es == [] {
      assert Inv(Start(), own) by { StartInv(own); }
    } else {
      if own { OwnBefore(es); }
      RunInv(es[..|es| - 1], own);
      Acks.RunInv(es[..|es| - 1]);
      StepKeeps(Run(es[..|es| - 1]), es[|es| - 1], own);
    }
  }

  lemma OwnBefore(es: seq<Event>)
    requires OwnReads(es) && es != []
    ensures OwnReads(es[..|es| - 1])
  {
    hide Run, OwnRead;
    assert forall n | 0 <= n < |es| :: es[..|es| - 1][..n] == es[..n];
  }

  lemma StartInv(own: bool)
    ensures Inv(Start(), own)
  {
  }

  // The results

  /**
   In every run: data that is read while the slot of its id is occupied goes to
   the player in the slot, if it is still there, and this is the player of the
   connection the data comes from exactly if the id has not been joined again
   since the connection was opened.
   */
  lemma DeliveredToOwnerExactly(es: seq<Event>)
    requires var s := Run(es);
             && !s.ended && s.upSeen < |s.up| && s.up[s.upSeen].UpData?
             && Lookup(s.slots, s.up[s.upSeen].id).Some?
    ensures var s, t := Run(es), Run(es + [ServerReader]);
            var f := s.up[s.upSeen];
            var k := Lookup(s.slots, f.id).value;
            && (forall i: nat ::
                  Heard(t, i) == Heard(s, i) + if i == k && Reaches(s, f.id) then [f.chunk] else [])
            && f.source < |s.connections| && s.connections[f.source].id == f.id
            && (k == s.connections[f.source].owner <==> SameGeneration(s, f))
  {
    hide Run, LastOwner, Acks.JoinCount, HeardInOrder, AllSaid;
    RunInv(es, false);
    var s := Run(es);
    var f := s.up[s.upSeen];
    assert Run(es + [ServerReader]) == Step(s, ServerReader) by { RunAppend(es, ServerReader); }
    ForOwner(s, f.id, f.source);
  }

  /**
   In every run without such a late read, far-side endings and reused ids
   included: every player has heard, in order, a beginning of what its own
   connection sent, and one without a connection has heard nothing.
   */
  lemma UpStreamIsolation(es: seq<Event>)
    requires OwnReads(es)
    ensures var s := Run(es);
            && (forall j | 0 <= j < |s.connections| ::
                  var c := s.connections[j]; c.owner < |s.players| && Heard(s, c.owner) <= c.sent)
            && (forall i, j | 0 <= i < j < |s.connections| :: s.connections[i].owner != s.connections[j].owner)
            && (forall k: nat | !Owned(s.connections, k) :: Heard(s, k) == [])
  {
    hide Run, LastOwner, Said, StillToSay, OwnReads;
    RunInv(es, true);
    var s := Run(es);
    OwnersKnown(s);
    forall j | 0 <= j < |s.connections| ensures Heard(s, s.connections[j].owner) <= s.connections[j].sent {
      assert HeardOf(s, j);
      SaidPrefix(s.up, s.upSeen, j);
    }
    forall i, j | 0 <= i < j < |s.connections| ensures s.connections[i].owner != s.connections[j].owner {
      OwnersDiffer(s, i, j);
    }
  }

  /**
   Nothing is lost on the way up: once such a run has come to rest, every player
   still running in the slot of its connection has received all the connection sent.
   */
  lemma RestHearsEverything(es: seq<Event>)
    requires OwnReads(es) && Quiescent(Run(es)) && !Run(es).ended
    ensures var s := Run(es);
            forall j | 0 <= j < |s.connections| ::
              var c := s.connections[j];
              c.owner < |s.players| && s.players[c.owner].stage.Running? && Lookup(s.slots, c.id) == Some(c.owner) ==>
                s.players[c.owner].received == c.sent
  {
    hide Run, LastOwner, OwnReads, Enabled, Said;
    var s := Run(es);
    RunInv(es, true);
    RestStreams(s);
    forall j | 0 <= j < |s.connections| && InSlot(s, s.connections[j]) &&
               s.players[s.connections[j].owner].stage.Running?
      ensures s.players[s.connections[j].owner].received == s.connections[j].sent
    {
      assert HeardOf(s, j);
      assert Said(s.up, j) + [] == Said(s.up, j);
    }
  }

  lemma RestStreams(s: State)
    requires WellFormed(s) && Quiescent(s) && !s.ended && s.upSeen <= |s.up|
    ensures s.toServer == [] && s.up[..s.upSeen] == s.up
    ensures forall k | 0 <= k < |s.players| && s.players[k].stage.Running? :: s.players[k].inbox == []
  {
    assert !Enabled(s, ServerReader) && !Enabled(s, ClientWriter);
    forall k | 0 <= k < |s.players| && s.players[k].stage.Running? ensures s.players[k].inbox == [] {
      assert !Enabled(s, PlayerReceives(k));
    }
  }

  // While no id is joined twice, every read is of one's own

  predicate NoIdTwice(t: seq<DownFrame>) {
    forall p, q | 0 <= p < q < |t| && t[p].Join? && t[q].Join? :: t[p].id != t[q].id
  }

  lemma DownGrows(s: State, e: Event)
    requires WellFormed(s)
    ensures s.down <= Step(s, e).down
  {
    hide WellFormed, Listening, FirstFreeFrom;
  }

  lemma {:induction false} StreamGrows(es: seq<Event>, n: nat)
    requires n <= |es|
    ensures Run(es[..n]).down <= Run(es).down
    decreases |es|
  {
    hide Step;
    if n == |es| {
      assert es[..n] == es;
    } else {
      assert es[..|es| - 1][..n] == es[..n];
      StreamGrows(es[..|es| - 1], n);
      DownGrows(Run(es[..|es| - 1]), es[|es| - 1]);
    }
  }

  lemma IdsOnceReadOwn(es: seq<Event>)
    requires NoIdTwice(Run(es).down)
    ensures OwnReads(es)
  {
    hide Run, Acks.JoinCount, LastOwner, AllSaid, HeardInOrder;
    forall n | 0 <= n < |es| && es[n].ServerReader? && !Run(es[..n]).ended ensures OwnRead(Run(es[..n])) {
      var s := Run(es[..n]);
      StreamGrows(es, n);
      RunInv(es[..n], false);
      if s.upSeen < |s.up| && s.up[s.upSeen].UpData? {
        var f := s.up[s.upSeen];
        var p := s.connections[f.source].joinedAt;
        CountStands(s.down, p + 1, f.id);
        assert forall i | 0 <= i < |s.down| :: s.down[i] == Run(es).down[i];
      }
    }
  }
}
