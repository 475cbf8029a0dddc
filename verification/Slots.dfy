/**
 The two fixed tables of 255 slots that name tunnelled connections: the
 server's distributor, which hands out ids, and the client's connection array,
 which is told them. A channel's sending half is known by a number.
 */
module Slots {
  import opened Basics

  const MAXIMUM_CLIENTS: nat := 255

  type Channel = nat

  type Table = t: seq<Option<Channel>> | |t| == MAXIMUM_CLIENTS witness seq(MAXIMUM_CLIENTS, _ => None)

  function Empty(): (t: Table)
    ensures forall k | 0 <= k < MAXIMUM_CLIENTS :: t[k].None?
  {
    seq(MAXIMUM_CLIENTS, _ => None)
  }

  function TakenWeight(): Option<Channel> -> nat {
    (slot: Option<Channel>) => if slot.Some? then 1 else 0
  }

  /** The number of occupied slots. */
  function Occupied(t: seq<Option<Channel>>): nat {
    Sum(t, TakenWeight())
  }

  lemma OccupiedUpdate(t: seq<Option<Channel>>, i: nat, slot: Option<Channel>)
    requires i < |t|
    ensures Occupied(t[i := slot]) + TakenWeight()(t[i]) == Occupied(t) + TakenWeight()(slot)
  {
    SumUpdate(t, i, slot, TakenWeight());
  }

  lemma {:induction false} OccupiedPrefix(t: seq<Option<Channel>>, n: nat)
    requires n <= |t| && forall k | 0 <= k < n :: t[k].Some?
    ensures Occupied(t) >= n
  {
    if n > 0 { OccupiedPrefix(t[1..], n - 1); }
  }

  lemma {:induction false} OccupiedNone(t: seq<Option<Channel>>)
    requires forall k | 0 <= k < |t| :: t[k].None?
    ensures Occupied(t) == 0
  {
    if t != [] { OccupiedNone(t[1..]); }
  }

  // The distributor

  function FirstFreeFrom(t: seq<Option<Channel>>, from: nat): (i: nat)
    requires from <= |t|
    ensures from <= i <= |t| && (i < |t| ==> t[i].None?)
    ensures forall k | from <= k < i :: t[k].Some?
    decreases |t| - from
  {
    if from == |t| || t[from].None? then from else FirstFreeFrom(t, from + 1)
  }

  /** The least free id, or the size of the table when there is none. */
  function FirstFree(t: seq<Option<Channel>>): nat {
    FirstFreeFrom(t, 0)
  }

  function Inserted(t: Table, tx: Channel): Table
    requires FirstFree(t) < MAXIMUM_CLIENTS
  {
    t[FirstFree(t) := Some(tx)]
  }

  function Removed(t: Table, id: nat): Table {
    if id < MAXIMUM_CLIENTS then t[id := None] else t
  }

  function Lookup(t: Table, id: nat): Option<Channel> {
    if id < MAXIMUM_CLIENTS then t[id] else None
  }

  class Distributor {
    const clientsId: array<Option<Channel>>

    ghost predicate Valid() {
      clientsId.Length == MAXIMUM_CLIENTS
    }

    ghost function Contents(): Table
      requires Valid()
      reads clientsId
    {
      clientsId[..]
    }

    constructor ()
      ensures Valid() && fresh(clientsId) && Contents() == Empty()
    {
      clientsId := new Option<Channel>[MAXIMUM_CLIENTS](_ => None);
      new;
      assert clientsId[..] == Empty();
    }

    /** Takes the least free id, or fails and changes nothing when every slot is taken. */
    method Insert(tx: Channel) returns (id: Option<nat>)
      requires Valid()
      modifies clientsId
      ensures id.None? <==> forall k | 0 <= k < 255 :: old(Contents())[k].Some?
      ensures id.Some? ==>
                && id.value < 255 && old(Contents())[id.value].None?
                && (forall k | 0 <= k < id.value :: old(Contents())[k].Some?)
                && Contents() == old(Contents())[id.value := Some(tx)]
      ensures id.None? ==> Contents() == old(Contents())
      ensures id.Some? ==> id.value == FirstFree(old(Contents())) < MAXIMUM_CLIENTS
      ensures id.Some? ==> Contents() == Inserted(old(Contents()), tx)
    {
      for i := 0 to clientsId.Length
        invariant Contents() == old(Contents())
        invariant forall k | 0 <= k < i :: clientsId[k].Some?
      {
        if clientsId[i].None? {
          clientsId[i] := Some(tx);
          FirstFreeIs(old(Contents()), i);
          return Some(i);
        }
      }
      return None;
    }

    /** True for every id in range, also when the slot was already empty. */
    method RemoveById(id: nat) returns (inRange: bool)
      requires Valid()
      modifies clientsId
      ensures inRange == (id < 255)
      ensures Contents() == Removed(old(Contents()), id)
      ensures Contents() == if id < 255 then old(Contents())[id := None] else old(Contents())
    {
      if id < clientsId.Length {
        clientsId[id] := None;
        return true;
      }
      return false;
    }

    method GetById(id: nat) returns (tx: Option<Channel>)
      requires Valid()
      ensures tx == Lookup(Contents(), id)
      ensures tx == if id < 255 then Contents()[id] else None
    {
      tx := if id < clientsId.Length then clientsId[id] else None;
    }
  }

  lemma FirstFreeIs(t: Table, i: nat)
    requires i < MAXIMUM_CLIENTS && t[i].None? && forall k | 0 <= k < i :: t[k].Some?
    ensures FirstFree(t) == i
  {
  }

  /** What the distributor is asked to do over a session. */
  datatype SlotOp = Insert(tx: Channel) | Remove(id: nat)

  function ApplyOp(t: Table, op: SlotOp): Table {
    match op
    case Insert(tx) => if FirstFree(t) < MAXIMUM_CLIENTS then Inserted(t, tx) else t
    case Remove(id) => Removed(t, id)
  }

  function TableAfter(ops: seq<SlotOp>): Table {
    if ops == [] then Empty() else ApplyOp(TableAfter(ops[..|ops| - 1]), ops[|ops| - 1])
  }

  /** The largest number of slots held at once. */
  function Peak(ops: seq<SlotOp>): nat {
    if ops == [] then 0
    else
      var before, now := Peak(ops[..|ops| - 1]), Occupied(TableAfter(ops));
      if before < now then now else before
  }

  /**
   Ids stay as small as the load allows: over any sequence of inserts and
   removals no id at or above the peak number of held slots is ever given out.
   */
  lemma {:induction false} IdsBelowPeak(ops: seq<SlotOp>)
    ensures forall id | Peak(ops) <= id < MAXIMUM_CLIENTS :: TableAfter(ops)[id].None?
    ensures ops != [] && ops[|ops| - 1].Insert? && FirstFree(TableAfter(ops[..|ops| - 1])) < MAXIMUM_CLIENTS ==>
              FirstFree(TableAfter(ops[..|ops| - 1])) < Peak(ops)
  {
    if ops != [] {
      var before := TableAfter(ops[..|ops| - 1]);
      IdsBelowPeak(ops[..|ops| - 1]);
      if ops[|ops| - 1].Insert? && FirstFree(before) < MAXIMUM_CLIENTS {
        OccupiedPrefix(TableAfter(ops), FirstFree(before) + 1);
      }
    }
  }

  // The client's connection array

  /** The array and the counter kept beside it. */
  datatype Connections = Connections(table: Table, len: usize)

  function AddConnection(c: Connections, id: nat, tx: Channel): Connections {
    if id < MAXIMUM_CLIENTS then Connections(c.table[id := Some(tx)], SaturatingAdd(c.len, 1)) else c
  }

  function RemoveConnection(c: Connections, id: nat): Connections {
    if Lookup(c.table, id).Some? then Connections(c.table[id := None], SaturatingSub(c.len, 1)) else c
  }

  datatype SendResult = ClientNotFound | Sent(channel: Channel) | Dropped(channel: Channel)

  /** A send succeeds exactly while the receiving half, a member of `listening`, is alive. */
  function SendOutcome(c: Connections, id: nat, listening: set<Channel>): SendResult {
    match Lookup(c.table, id)
    case None => ClientNotFound
    case Some(tx) => if tx in listening then Sent(tx) else Dropped(tx)
  }

  function AfterSend(c: Connections, id: nat, listening: set<Channel>): Connections {
    if SendOutcome(c, id, listening).Dropped? then RemoveConnection(c, id) else c
  }

  class Client {
    const connections: array<Option<Channel>>
    var connectionsLen: usize

    ghost predicate Valid() {
      connections.Length == MAXIMUM_CLIENTS
    }

    ghost function State(): Connections
      requires Valid()
      reads this, connections
    {
      Connections(connections[..], connectionsLen)
    }

    constructor ()
      ensures Valid() && fresh(connections) && State() == Connections(Empty(), 0)
    {
      connections := new Option<Channel>[MAXIMUM_CLIENTS](_ => None);
      connectionsLen := 0;
      new;
      assert connections[..] == Empty();
    }

    method Add(id: nat, tx: Channel)
      requires Valid()
      modifies this, connections
      ensures State() == AddConnection(old(State()), id, tx)
      ensures connections[..] == if id < 255 then old(connections[..])[id := Some(tx)] else old(connections[..])
      ensures connectionsLen == if id < 255 && old(connectionsLen) < USIZE_MAX then old(connectionsLen) + 1
                                else old(connectionsLen)
    {
      if id < connections.Length {
        connections[id] := Some(tx);
        connectionsLen := SaturatingAdd(connectionsLen, 1);
      }
    }

    method Remove(id: nat)
      requires Valid()
      modifies this, connections
      ensures State() == RemoveConnection(old(State()), id)
      ensures connections[..] == if id < 255 then old(connections[..])[id := None] else old(connections[..])
      ensures connectionsLen == if id < 255 && old(connections[..])[id].Some? && old(connectionsLen) > 0
                                then old(connectionsLen) - 1 else old(connectionsLen)
    {
      if id < connections.Length {
        if connections[id].None? {
          return;
        }
        connections[id] := None;
        connectionsLen := SaturatingSub(connectionsLen, 1);
      }
    }

    method SendTo(id: nat, listening: set<Channel>) returns (r: SendResult)
      requires Valid()
      modifies this, connections
      ensures r == SendOutcome(old(State()), id, listening)
      ensures State() == AfterSend(old(State()), id, listening)
      ensures r.ClientNotFound? <==> id >= 255 || old(connections[..])[id].None?
      ensures !r.ClientNotFound? ==>
                var tx := old(connections[..])[id].value;
                if tx in listening then r == Sent(tx) && State() == old(State())
                else r == Dropped(tx) && connections[..] == old(connections[..])[id := None]
    {
      if id >= connections.Length || connections[id].None? {
        return ClientNotFound;
      }
      var channel := connections[id].value;
      if channel in listening {
        return Sent(channel);
      }
      Remove(id);
      return Dropped(channel);
    }
  }

  datatype ConnectionOp =
    | OnJoin(id: nat, tx: Channel)
    | OnDisconnect(id: nat)
    | OnSend(id: nat, listening: set<Channel>)

  function ApplyConnectionOp(c: Connections, op: ConnectionOp): Connections {
    match op
    case OnJoin(id, tx) => AddConnection(c, id, tx)
    case OnDisconnect(id) => RemoveConnection(c, id)
    case OnSend(id, listening) => AfterSend(c, id, listening)
  }

  function ConnectionsAfter(ops: seq<ConnectionOp>): Connections {
    if ops == [] then Connections(Empty(), 0)
    else ApplyConnectionOp(ConnectionsAfter(ops[..|ops| - 1]), ops[|ops| - 1])
  }

  /** Joins whose id was still in use. */
  function Overwrites(ops: seq<ConnectionOp>): nat {
    if ops == [] then 0
    else
      var last := ops[|ops| - 1];
      Overwrites(ops[..|ops| - 1]) +
      if last.OnJoin? && Lookup(ConnectionsAfter(ops[..|ops| - 1]).table, last.id).Some? then 1 else 0
  }

  /**
   The counter is off by exactly the joins that hit an occupied slot, and it is
   never below the number of occupied slots, so subtracting never saturates.
   */
  lemma {:induction false} CounterConservation(ops: seq<ConnectionOp>)
    requires |ops| <= USIZE_MAX
    ensures var c := ConnectionsAfter(ops);
            && c.len == Occupied(c.table) + Overwrites(ops)
            && c.len <= |ops|
            && (forall id: nat | Lookup(c.table, id).Some? :: c.len >= 1)
            && (Overwrites(ops) == 0 ==> c.len == Occupied(c.table))
  {
    if ops == [] {
      OccupiedNone(Empty());
    } else {
      var before, op := ConnectionsAfter(ops[..|ops| - 1]), ops[|ops| - 1];
      CounterConservation(ops[..|ops| - 1]);
      CounterStep(before, op);
      LenCoversSlots(ConnectionsAfter(ops));
    }
  }

  /** One operation moves the counter and the occupied slots together, but for an overwriting join. */
  lemma CounterStep(c: Connections, op: ConnectionOp)
    requires Occupied(c.table) <= c.len < USIZE_MAX
    ensures var after := ApplyConnectionOp(c, op);
            var overwrite := if op.OnJoin? && Lookup(c.table, op.id).Some? then 1 else 0;
            && after.len + Occupied(c.table) == c.len + Occupied(after.table) + overwrite
            && after.len <= c.len + 1
  {
    hide Occupied;
    if op.id < MAXIMUM_CLIENTS {
      OccupiedUpdate(c.table, op.id, None);
      if op.OnJoin? { OccupiedUpdate(c.table, op.id, Some(op.tx)); }
      if c.table[op.id].Some? { LenCoversSlots(c); }
    }
  }

  lemma LenCoversSlots(c: Connections)
    requires Occupied(c.table) <= c.len
    ensures forall id: nat | Lookup(c.table, id).Some? :: c.len >= 1
  {
    forall id: nat | Lookup(c.table, id).Some? ensures c.len >= 1 {
      SumMember(c.table, id, TakenWeight());
    }
  }
}
