/** When a session ends, and what a connection that cannot be made does to it. */
module Endings {
  import opened Slots
  import opened Multiplexer

  // The three ways to end

  /** The next player to be let in finds all slots taken. */
  predicate TurnsAway(s: State) {
    && s.toProxy != [] && s.toProxy[0].AddClient?
    && forall id | 0 <= id < MAXIMUM_CLIENTS :: s.slots[id].Some?
  }

  /** The next frame for the client is data for which it has no connection. */
  predicate FindsNothing(s: State) {
    s.seen < |s.down| && s.down[s.seen].Data? && Lookup(s.conns.table, s.down[s.seen].id).None?
  }

  /** The next message for the client's writer says that a connection could not be made. */
  predicate TakesDeath(s: State) {
    s.toServer != [] && s.toServer[0].Death?
  }

  predicate Ends(s: State, e: Event) {
    || (e.ServerWriter? && TurnsAway(s))
    || (e.ClientReader? && FindsNothing(s))
    || (e.ClientWriter? && TakesDeath(s))
  }

  lemma StepEnds(s: State, e: Event)
    requires WellFormed(s) && !s.ended
    ensures Step(s, e).ended <==> Ends(s, e)
    ensures Step(s, e).clientNotFound <==> s.clientNotFound || (e.ClientReader? && FindsNothing(s))
  {
    hide ServerWrites, ServerReads, ClientReads, ClientWrites;
    if Enabled(s, e) {
      match e {
        case ServerWriter => WriteEnds(s);
        case ServerReader => ReadUpEnds(s);
        case ClientReader => ReadEnds(s);
        case ClientWriter => SendEnds(s);
        case _ =>
      }
    }
  }

  lemma WriteEnds(s: State)
    requires WellFormed(s) && !s.ended && s.toProxy != []
    ensures ServerWrites(s).ended <==> TurnsAway(s)
    ensures ServerWrites(s).clientNotFound == s.clientNotFound
  {
  }

  lemma ReadUpEnds(s: State)
    requires WellFormed(s) && !s.ended && s.upSeen < |s.up|
    ensures !ServerReads(s).ended && ServerReads(s).clientNotFound == s.clientNotFound
  {
  }

  lemma ReadEnds(s: State)
    requires WellFormed(s) && !s.ended && s.seen < |s.down|
    ensures ClientReads(s).ended <==> FindsNothing(s)
    ensures ClientReads(s).clientNotFound <==> s.clientNotFound || FindsNothing(s)
  {
    hide Listening;
  }

  lemma SendEnds(s: State)
    requires !s.ended && s.toServer != []
    ensures ClientWrites(s).ended <==> TakesDeath(s)
    ensures ClientWrites(s).clientNotFound == s.clientNotFound
  {
  }

  /** The event number `n` ends the session. */
  ghost predicate EndsAt(es: seq<Event>, n: nat) {
    n < |es| && !Run(es[..n]).ended && Ends(Run(es[..n]), es[n])
  }

  ghost predicate HasEnded(es: seq<Event>) {
    exists n: nat :: EndsAt(es, n)
  }

  ghost predicate EndedByData(es: seq<Event>) {
    exists n: nat :: EndsAt(es, n) && es[n].ClientReader?
  }

  lemma EndedStays(s: State, e: Event)
    requires WellFormed(s) && s.ended
    ensures Step(s, e) == s
  {
  }

  /** What has ended a run is what had ended it before its last event, or this event. */
  lemma LastEvent(es: seq<Event>, m: nat)
    requires |es| == m + 1
    ensures HasEnded(es) <==> HasEnded(es[..m]) || EndsAt(es, m)
    ensures EndedByData(es) <==> EndedByData(es[..m]) || (EndsAt(es, m) && es[m].ClientReader?)
  {
    hide EndsAt;
    EndsEarlier(es, m);
    EndsInside(es);
    EndsInside(es[..m]);
    assert forall n: nat | n < m :: es[..m][n] == es[n];
  }

  lemma EndsEarlier(es: seq<Event>, m: nat)
    requires m <= |es|
    ensures forall n: nat | n < m :: EndsAt(es, n) == EndsAt(es[..m], n)
  {
    hide Run, Ends;
    assert forall n | 0 <= n < m :: es[..m][..n] == es[..n];
  }

  lemma EndsInside(es: seq<Event>)
    ensures forall n: nat | EndsAt(es, n) :: n < |es|
  {
    hide Run, Ends;
  }

  lemma {:induction false} HasEndedExactly(es: seq<Event>)
    ensures Run(es).ended <==> HasEnded(es)
    ensures Run(es).clientNotFound <==> EndedByData(es)
  {
    hide Step, HasEnded, EndedByData, Ends, FindsNothing;
    if es == [] {
      NothingYet();
    } else {
      var m := |es| - 1;
      HasEndedExactly(es[..m]);
      LastEvent(es, m);
      var s := Run(es[..m]);
      if s.ended {
        EndedStays(s, es[m]);
      } else {
        StepEnds(s, es[m]);
        DataEnds(s, es[m]);
      }
    }
  }

  lemma NothingYet()
    ensures !HasEnded([]) && !EndedByData([])
  {
  }

  lemma DataEnds(s: State, e: Event)
    ensures e.ClientReader? ==> (Ends(s, e) <==> FindsNothing(s))
  {
  }

  /**
   In every run: the session has ended exactly if one event met a full table, data
   without a connection or a death; and ClientNotFound was raised exactly if it
   was data without a connection.
   */
  lemma SessionEndsExactly(es: seq<Event>)
    ensures Run(es).ended <==> exists n: nat :: EndsAt(es, n)
    ensures Run(es).clientNotFound <==> exists n: nat :: EndsAt(es, n) && es[n].ClientReader?
  {
    hide Run, EndsAt;
    HasEndedExactly(es);
  }

  // A connection that cannot be made

  ghost predicate Doomed(s: State) {
    s.ended || exists i :: 0 <= i < |s.toServer| && s.toServer[i].Death?
  }

  lemma FailureDooms(s: State, j: nat)
    requires WellFormed(s) && Enabled(s, ConnFails(j))
    ensures Doomed(Step(s, ConnFails(j)))
  {
    hide WellFormed;
    assert Step(s, ConnFails(j)).toServer[|s.toServer|] == Death;
  }

  lemma DoomStays(s: State, e: Event)
    requires WellFormed(s) && Doomed(s)
    ensures Doomed(Step(s, e))
  {
    hide ServerWrites, ServerReads, ClientReads;
    if !s.ended && Enabled(s, e) {
      var i :| 0 <= i < |s.toServer| && s.toServer[i].Death?;
      var t := Step(s, e);
      if e.ClientWriter? {
        if i > 0 { assert t.toServer[i - 1] == s.toServer[i]; }
      } else {
        QueueOnlyGrows(s, e);
        assert t.toServer[i] == s.toServer[i];
      }
    }
  }

  lemma QueueOnlyGrows(s: State, e: Event)
    requires WellFormed(s) && Enabled(s, e) && !e.ClientWriter?
    ensures s.toServer <= Step(s, e).toServer
  {
    hide FirstFreeFrom, Listening;
  }

  lemma {:induction false} DoomLasts(es: seq<Event>, n: nat)
    requires n <= |es| && Doomed(Run(es[..n]))
    ensures Doomed(Run(es))
    decreases |es|
  {
    hide Step, Doomed;
    if n == |es| {
      assert es[..n] == es;
    } else {
      assert es[..|es| - 1][..n] == es[..n];
      DoomLasts(es[..|es| - 1], n);
      DoomStays(Run(es[..|es| - 1]), es[|es| - 1]);
    }
  }

  /**
   In every run, one connection to the Minecraft server that cannot be made ends
   the session for every player: it has ended when nothing is left to do, whatever
   else happened.
   */
  lemma FailedConnectEndsSession(es: seq<Event>, n: nat)
    requires n < |es| && es[n].ConnFails? && Enabled(Run(es[..n]), es[n])
    requires Quiescent(Run(es))
    ensures Run(es).ended
  {
    hide Run, Step, WellFormed, Quiescent, Doomed;
    FailureDooms(Run(es[..n]), es[n].j);
    RunAppend(es[..n], es[n]);
    assert es[..n + 1] == es[..n] + [es[n]];
    DoomLasts(es, n + 1);
    RestAfterDoom(Run(es));
  }

  lemma RestAfterDoom(s: State)
    requires Quiescent(s) && Doomed(s)
    ensures s.ended
  {
    assert !Enabled(s, ClientWriter);
  }
}
