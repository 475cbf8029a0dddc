/**
 The three loops that drain a queue into a socket. Each collects what is queued
 and flushes once, and each is shown to do what writing and flushing every
 message by itself would do, whenever it waits. A schedule of arrivals stands for
 the other tasks: before each look at the queue the next batch joins it.
 */
module Writers {
  import opened Basics
  import opened Slots
  import opened Multiplexer

  // The server's session writer

  function WriteSingly(slots: Table, ms: seq<ToProxy>): Written {
    if ms == [] then Written(slots, [], [], false)
    else WriteOne(WriteSingly(slots, ms[..|ms| - 1]), ms[|ms| - 1])
  }

  lemma WriteNext(slots: Table, ms: seq<ToProxy>, m: ToProxy)
    ensures WriteSingly(slots, ms + [m]) == WriteOne(WriteSingly(slots, ms), m)
  {
    assert (ms + [m])[..|ms|] == ms;
  }

  /** What has been written stays written, and giving up is final. */
  lemma {:induction false} WriteGrows(slots: Table, ms: seq<ToProxy>, n: nat)
    requires n <= |ms|
    ensures var a, b := WriteSingly(slots, ms[..n]), WriteSingly(slots, ms);
            a.frames <= b.frames && a.replies <= b.replies && (a.ended ==> b == a)
    decreases |ms|
  {
    if n == |ms| {
      assert ms[..n] == ms;
    } else {
      assert ms[..|ms| - 1][..n] == ms[..n];
      WriteGrows(slots, ms[..|ms| - 1], n);
    }
  }

  /** The machine's writer steps are this writer, one message at a time. */
  lemma {:induction false} StepsAreWriteSingly(s: State, n: nat)
    requires WellFormed(s) && !s.ended && n <= |s.toProxy| && !WriteSingly(s.slots, s.toProxy[..n]).ended
    ensures var w, t := WriteSingly(s.slots, s.toProxy[..n]), WriterSteps(s, n);
            t.slots == w.slots && t.down == s.down + w.frames && t.toProxy == s.toProxy[n..] && !t.ended
    decreases n
  {
    hide Step, WellFormed;
    if n > 0 {
      var before := s.toProxy[..n - 1];
      assert s.toProxy[..n] == before + [s.toProxy[n - 1]];
      assert s.toProxy[..n][..n - 1] == before;
      WriteNext(s.slots, before, s.toProxy[n - 1]);
      StepsAreWriteSingly(s, n - 1);
      assert s.toProxy[n - 1..][0] == s.toProxy[n - 1] && s.toProxy[n - 1..][1..] == s.toProxy[n..];
      StepIsWriteOne(WriterSteps(s, n - 1), WriteSingly(s.slots, before), s.down);
    } else {
      assert s.down + [] == s.down;
    }
  }

  lemma StepIsWriteOne(t: State, w: Written, down: seq<DownFrame>)
    requires WellFormed(t) && !t.ended && t.toProxy != []
    requires t.slots == w.slots && t.down == down + w.frames && !w.ended && !WriteOne(w, t.toProxy[0]).ended
    ensures var u, v := Step(t, ServerWriter), WriteOne(w, t.toProxy[0]);
            u.slots == v.slots && u.down == down + v.frames && u.toProxy == t.toProxy[1..] && !u.ended
  {
    hide FirstFreeFrom;
  }

  ghost function WriterSteps(s: State, n: nat): (t: State)
    requires WellFormed(s)
    ensures WellFormed(t)
  {
    if n == 0 then s
    else
      var t := WriterSteps(s, n - 1);
      StepWellFormed(t, ServerWriter);
      Step(t, ServerWriter)
  }

  /** A moment at which a writer waits: how many messages it has taken and what has left for the socket. */
  datatype Wait<F> = Wait(taken: nat, flushed: seq<F>)

  ghost predicate Unfolds<T>(all: seq<T>, taken: seq<T>, queue: seq<T>, later: seq<seq<T>>) {
    all == taken + (queue + Flatten(later))
  }

  lemma NothingTaken<T>(later: seq<seq<T>>)
    ensures Unfolds(Flatten(later), [], [], later)
  {
  }

  lemma AllTaken<T>(all: seq<T>, taken: seq<T>)
    requires Unfolds(all, taken, [], [])
    ensures taken == all
  {
  }

  /** What was taken is the beginning of everything. */
  lemma TakenFirst<T>(all: seq<T>, taken: seq<T>, queue: seq<T>, later: seq<seq<T>>)
    requires Unfolds(all, taken, queue, later)
    ensures |taken| <= |all| && all[..|taken|] == taken
    ensures |queue| + |Flatten(later)| == |all| - |taken|
  {
  }

  lemma TakeOne<T>(all: seq<T>, taken: seq<T>, queue: seq<T>, later: seq<seq<T>>)
    requires Unfolds(all, taken, queue, later) && queue != []
    ensures Unfolds(all, taken + [queue[0]], queue[1..], later)
    ensures all[..|taken|] == taken && all[..|taken| + 1] == taken + [queue[0]]
  {
    assert queue == [queue[0]] + queue[1..];
  }

  lemma Arrive<T>(all: seq<T>, taken: seq<T>, queue: seq<T>, later: seq<seq<T>>)
    requires Unfolds(all, taken, queue, later) && later != []
    ensures Unfolds(all, taken, queue + later[0], later[1..])
    ensures |queue + later[0]| + |Flatten(later[1..])| == |queue| + |Flatten(later)|
  {
    assert queue + Flatten(later) == (queue + later[0]) + Flatten(later[1..]);
  }

  /** Everything sent down, taken one at a time and flushed in batches. */
  method HandleWriter(d: Distributor, arrivals: seq<seq<ToProxy>>)
    returns (flushed: seq<DownFrame>, replies: seq<(nat, nat)>, waits: seq<Wait<DownFrame>>, overflow: bool)
    requires d.Valid()
    modifies d.clientsId
    ensures forall w | w in waits ::
              w.taken <= |Flatten(arrivals)| &&
              var single := WriteSingly(old(d.Contents()), Flatten(arrivals)[..w.taken]);
              !single.ended && w.flushed == single.frames
    ensures var single := WriteSingly(old(d.Contents()), Flatten(arrivals));
            && overflow == single.ended
            && d.Contents() == single.slots && replies == single.replies
            && flushed <= single.frames
            && (!overflow ==> flushed == single.frames)
    ensures !overflow ==> waits != [] && waits[|waits| - 1] == Wait(|Flatten(arrivals)|, flushed)
  {
    hide WriteSingly, FirstFreeFrom, Flatten, Unfolds;
    NothingTaken(arrivals);
    ghost var start, all := d.Contents(), Flatten(arrivals);
    ghost var taken: seq<ToProxy> := [];
    var queue: seq<ToProxy>, later := [], arrivals;
    var count := 0;
    flushed, replies, waits, overflow := [], [], [], false;
    assert WriteSingly(start, []) == Written(start, [], [], false) by { WriteNothing(start); }
    while true
      invariant Unfolds(all, taken, queue, later) && count == |taken|
      invariant WriteSingly(start, taken) == Written(d.Contents(), flushed, replies, false)
      invariant forall w | w in waits ::
                  w.taken <= |all| && var single := WriteSingly(start, all[..w.taken]);
                  !single.ended && w.flushed == single.frames
      decreases |queue| + |Flatten(later)|
    {
      // wait for a message
      TakenFirst(all, taken, queue, later);
      waits := waits + [Wait(count, flushed)];
      while queue == [] && later != []
        invariant Unfolds(all, taken, queue, later)
        invariant |queue| + |Flatten(later)| == |all| - |taken|
        invariant WriteSingly(start, taken) == Written(d.Contents(), flushed, replies, false)
        decreases |later|
      {
        Arrive(all, taken, queue, later);
        queue, later := queue + later[0], later[1..];
      }
      if queue == [] {
        AllTaken(all, taken);
        return;
      }
      // write what is queued
      var buffered: seq<DownFrame> := [];
      ghost var before := |taken|;
      assert flushed + buffered == flushed;
      while queue != []
        invariant Unfolds(all, taken, queue, later) && count == |taken| >= before
        invariant queue == [] ==> |taken| > before
        invariant |queue| + |Flatten(later)| == |all| - |taken|
        invariant WriteSingly(start, taken) == Written(d.Contents(), flushed + buffered, replies, false)
        decreases |queue| + |Flatten(later)|
      {
        var packet := queue[0];
        WriteNext(start, taken, packet);
        TakeOne(all, taken, queue, later);
        WriteGrows(start, all, |taken| + 1);
        match packet {
          case AddClient(k) =>
            var id := d.Insert(k);
            if id.None? {
              FullTable(d.Contents());
              overflow := true;
              return;
            }
            replies := replies + [(k, id.value)];
            buffered := buffered + [Join(id.value, k)];
          case Forward(id, chunk, owner) => buffered := buffered + [Data(id, chunk, owner)];
          case RemoveClient(id, _) =>
            var known := d.RemoveById(id);
            if known {
              buffered := buffered + [DownFrame.Disconnect(id)];
            }
        }
        count, taken, queue := count + 1, taken + [packet], queue[1..];
        if later != [] {
          Arrive(all, taken, queue, later);
          queue, later := queue + later[0], later[1..];
        }
      }
      flushed := flushed + buffered;
    }
  }

  lemma WriteNothing(slots: Table)
    ensures WriteSingly(slots, []) == Written(slots, [], [], false)
  {
  }

  lemma FullTable(t: Table)
    requires forall k | 0 <= k < MAXIMUM_CLIENTS :: t[k].Some?
    ensures FirstFree(t) == MAXIMUM_CLIENTS
  {
  }

  // The client's session writer

  function SendSingly(ms: seq<ToServer>): SentUp {
    if ms == [] then SentUp([], [], false) else SendOne(SendSingly(ms[..|ms| - 1]), ms[|ms| - 1])
  }

  lemma SendNext(ms: seq<ToServer>, m: ToServer)
    ensures SendSingly(ms + [m]) == SendOne(SendSingly(ms), m)
  {
    assert (ms + [m])[..|ms|] == ms;
  }

  lemma {:induction false} SendGrows(ms: seq<ToServer>, n: nat)
    requires n <= |ms|
    ensures var a, b := SendSingly(ms[..n]), SendSingly(ms);
            a.frames <= b.frames && (a.ended ==> b == a)
    decreases |ms|
  {
    if n == |ms| {
      assert ms[..n] == ms;
    } else {
      assert ms[..|ms| - 1][..n] == ms[..n];
      SendGrows(ms[..|ms| - 1], n);
    }
  }

  /** The machine's client writer is this one. */
  lemma StepIsSendOne(s: State, u: SentUp)
    requires WellFormed(s) && !s.ended && s.toServer != [] && !u.ended
    ensures var t, v := Step(s, ClientWriter), SendOne(u, s.toServer[0]);
            && t.toServer == s.toServer[1..] && t.ended == v.ended
            && t.up == s.up + v.frames[|u.frames|..]
            && t.disconnects == s.disconnects + v.disconnects[|u.disconnects|..]
  {
    assert s.up + [] == s.up && s.disconnects + [] == s.disconnects;
  }

  /** Looks at the queue first and flushes only when it has run dry, just before waiting. */
  method WriterHandler(arrivals: seq<seq<ToServer>>)
    returns (flushed: seq<UpFrame>, disconnects: seq<nat>, waits: seq<Wait<UpFrame>>, died: bool)
    ensures forall w | w in waits ::
              w.taken <= |Flatten(arrivals)| &&
              var single := SendSingly(Flatten(arrivals)[..w.taken]);
              !single.ended && w.flushed == single.frames
    ensures var single := SendSingly(Flatten(arrivals));
            && died == single.ended && disconnects == single.disconnects
            && flushed <= single.frames
            && (!died ==> flushed == single.frames)
    ensures !died ==> waits != [] && waits[|waits| - 1] == Wait(|Flatten(arrivals)|, flushed)
  {
    hide SendSingly, Flatten, Unfolds;
    NothingTaken(arrivals);
    ghost var all := Flatten(arrivals);
    ghost var taken: seq<ToServer> := [];
    var queue: seq<ToServer>, later := [], arrivals;
    var buffered: seq<UpFrame>, count := [], 0;
    flushed, disconnects, waits, died := [], [], [], false;
    assert SendSingly([]) == SentUp([], [], false) by { SendNothing(); }
    while true
      invariant Unfolds(all, taken, queue, later) && count == |taken|
      invariant |queue| + |Flatten(later)| == |all| - |taken|
      invariant SendSingly(taken) == SentUp(flushed + buffered, disconnects, false)
      invariant forall w | w in waits ::
                  w.taken <= |all| && var single := SendSingly(all[..w.taken]);
                  !single.ended && w.flushed == single.frames
      decreases |queue| + |Flatten(later)|
    {
      TakenFirst(all, taken, queue, later);
      // one look at the queue without waiting
      if later != [] {
        Arrive(all, taken, queue, later);
        queue, later := queue + later[0], later[1..];
      }
      if queue == [] {
        flushed, buffered := flushed + buffered, [];
        assert flushed + buffered == flushed && all[..|taken|] == taken;
        waits := waits + [Wait(count, flushed)];
        while queue == [] && later != []
          invariant Unfolds(all, taken, queue, later)
          invariant |queue| + |Flatten(later)| == |all| - |taken|
          decreases |later|
        {
          Arrive(all, taken, queue, later);
          queue, later := queue + later[0], later[1..];
        }
        if queue == [] {
          AllTaken(all, taken);
          return;
        }
      }
      var pkg := queue[0];
      SendNext(taken, pkg);
      TakeOne(all, taken, queue, later);
      SendGrows(all, |taken| + 1);
      match pkg {
        case Packet(id, chunk, source) => buffered := buffered + [UpData(id, chunk, source)];
        case Leave(id) =>
          disconnects := disconnects + [id];
          buffered := buffered + [UpDisconnect(id)];
        case Death =>
          died := true;
          return;
      }
      count, taken, queue := count + 1, taken + [pkg], queue[1..];
    }
  }

  lemma SendNothing()
    ensures SendSingly([]) == SentUp([], [], false)
  {
  }

  // The writer of one player's socket

  /** Bytes reach the player in order, and all that were taken are out whenever the writer waits. */
  method PlayerSocketWriter(arrivals: seq<seq<Chunk>>) returns (flushed: seq<byte>, waits: seq<Wait<byte>>)
    ensures forall w | w in waits ::
              w.taken <= |Flatten(arrivals)| && w.flushed == Flatten(Flatten(arrivals)[..w.taken])
    ensures flushed == Flatten(Flatten(arrivals))
    ensures waits != [] && waits[|waits| - 1] == Wait(|Flatten(arrivals)|, flushed)
  {
    ghost var all := Flatten(arrivals);
    ghost var taken: seq<Chunk> := [];
    var queue: seq<Chunk>, later, count := [], arrivals, 0;
    flushed, waits := [], [];
    while true
      invariant Unfolds(all, taken, queue, later) && count == |taken| && flushed == Flatten(taken)
      invariant forall w | w in waits :: w.taken <= |all| && w.flushed == Flatten(all[..w.taken])
      decreases |queue| + |Flatten(later)|
    {
      assert all[..|taken|] == taken;
      waits := waits + [Wait(count, flushed)];
      while queue == [] && later != []
        invariant Unfolds(all, taken, queue, later)
        invariant |queue| + |Flatten(later)| == |all| - |taken|
        decreases |later|
      {
        Arrive(all, taken, queue, later);
        queue, later := queue + later[0], later[1..];
      }
      if queue == [] {
        AllTaken(all, taken);
        return;
      }
      var buffered: seq<byte> := [];
      ghost var before := |taken|;
      assert flushed + buffered == flushed;
      while queue != []
        invariant Unfolds(all, taken, queue, later) && count == |taken| >= before
        invariant queue == [] ==> |taken| > before
        invariant |queue| + |Flatten(later)| == |all| - |taken|
        invariant flushed + buffered == Flatten(taken)
        decreases |queue| + |Flatten(later)|
      {
        TakeOne(all, taken, queue, later);
        FlattenAppend(taken, queue[0]);
        assert flushed + (buffered + queue[0]) == flushed + buffered + queue[0];
        buffered := buffered + queue[0];
        count, taken, queue := count + 1, taken + [queue[0]], queue[1..];
        if later != [] {
          Arrive(all, taken, queue, later);
          queue, later := queue + later[0], later[1..];
        }
      }
      flushed := flushed + buffered;
    }
  }
}
