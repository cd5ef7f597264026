/** Invariants of the playback protocol in every interleaving. */
module ProtocolProperties {
  import opened Common
  import opened SystemStates
  import opened RemotePlayers
  import opened ReplayHelpers
  import opened TestRunners
  import opened BenchSystem

  /** Where the outstanding Play is. */
  datatype Place = ToHelper | AtHelper | ToClient | Received

  /** Where the outstanding Stop is. */
  datatype StopPlace = NoStop | StopToHelper | StopToClient

  function Count(n: nat): (s: seq<nat>)
    ensures |s| == n && forall i | 0 <= i < n :: s[i] == i
  {
    seq(n, i requires 0 <= i < n => i)
  }

  predicate StopOnTarget(endings: seq<Ending>) {
    forall i | 0 <= i < |endings| && endings[i].ByStop? :: endings[i].target == i
  }

  predicate MissedAfterTheEnd(missed: seq<nat>, ended: seq<Ending>) {
    forall i | 0 <= i < |missed| :: missed[i] < |ended| && ended[missed[i]] == Natural
  }

  /** Nothing is outstanding. */
  predicate Quiet(s: System) {
    && !s.client.started && s.blocked.None?
    && s.outbox == [] && s.helper == IDLE_HELPER && s.replies == [] && s.inbox == []
    && s.trace.finished == Count(s.client.plays)
    && |s.trace.ended| == s.client.plays
    && s.trace.begun == s.trace.sent
  }

  /** Exactly the latest Play is outstanding, at one place, and at most one Stop behind it. */
  predicate InFlight(s: System, place: Place, stop: StopPlace) {
    && s.client.started && 0 < s.client.plays <= |s.trace.sent|
    && (s.blocked.None? <==> stop == NoStop)
    && (stop == StopToClient ==> place == ToClient || place == Received)
    && var n := s.client.plays - 1;
    && s.outbox == (if place == ToHelper then [Play(n, s.trace.sent[n])] else [])
                   + (if stop == StopToHelper then [Stop] else [])
    && s.helper == (if place == AtHelper then Helper(Some(n), Some(s.trace.sent[n])) else IDLE_HELPER)
    && |s.replies| == (if place == ToClient then 1 else 0) + (if stop == StopToClient then 1 else 0)
    && (place == ToClient ==> s.replies[0] == PlayReply(n, true))
    && (stop == StopToClient ==> s.replies[|s.replies| - 1].StopReply?)
    && s.inbox == (if place == Received then [n] else [])
    && (stop != NoStop ==> s.trace.stopTarget == n)
    && s.trace.finished == Count(n)
    && |s.trace.ended| == (if place == ToHelper || place == AtHelper then n else n + 1)
    && s.trace.begun == (if place == ToHelper then s.trace.sent[..n] else s.trace.sent)
    && ((place == ToClient || place == Received) && stop != StopToClient && s.runner.phase != Stopping
        ==> s.trace.ended[n] == Natural)
    && (stop == StopToClient ==> s.replies[|s.replies| - 1] == StopReply(s.trace.ended[n] == ByStop(n)))
  }

  /** Phases in which the player is active. */
  predicate Active(phase: Phase) {
    phase != Stopped && phase != Waiting
  }

  ghost predicate Flow(s: System) {
    && |s.trace.sent| == s.client.plays
    && (Quiet(s) || exists place, stop :: InFlight(s, place, stop))
  }

  predicate Bookkeeping(s: System) {
    && s.client.ready && s.client.pending.None? && s.client.criticals == 0 && s.trace.refused == 0
    && StopOnTarget(s.trace.ended) && MissedAfterTheEnd(s.trace.missed, s.trace.ended)
  }

  predicate Phases(s: System) {
    && (s.client.started <==> Active(s.runner.phase))
    && (s.runner.forceStop ==> s.runner.phase == Stopping)
    && (s.blocked.Some? ==>
          && s.runner.phase != Stopping
          && s.blocked.value == s.runner.(phase := Stopping, forceStop := s.blocked.value.forceStop))
  }

  ghost predicate Invariant(s: System) {
    Sane(s) && Flow(s) && Bookkeeping(s) && Phases(s)
  }

  lemma InitialInvariant(levels: Levels)
    ensures Invariant(Initial(levels))
  {
  }

  /** An outcome that agrees with the phase table. */
  predicate FitsPhases(before: Runner, started: bool, o: Outcome) {
    && Coherent(o.runner)
    && (o.call.Some? && o.call.value.PlayCall? ==> !started && Active(o.runner.phase) && !o.runner.forceStop)
    && (o.call.Some? && o.call.value.StopCall? ==>
          && started && before.phase != Stopping
          && o.runner == before.(phase := Stopping, forceStop := o.runner.forceStop))
    && (o.call.None? ==> (started <==> Active(o.runner.phase)) && (started ==> o.runner.phase == before.phase))
    && (o.runner.forceStop ==> o.runner.phase == Stopping)
  }

  lemma CommitPlay(s: System, o: Outcome)
    requires Sane(s) && Flow(s) && Bookkeeping(s) && s.blocked.None?
    requires FitsPhases(s.runner, s.client.started, o) && o.call.Some? && o.call.value.PlayCall?
    ensures Invariant(Commit(s, o))
  {
    var s' := Commit(s, o);
    assert s'.trace.sent[..s.client.plays] == s.trace.sent;
    assert InFlight(s', ToHelper, NoStop);
  }

  lemma CommitStop(s: System, o: Outcome)
    requires Invariant(s) && s.blocked.None?
    requires FitsPhases(s.runner, s.client.started, o) && o.call.Some? && o.call.value.StopCall?
    ensures Invariant(Commit(s, o))
  {
    var place, stop :| InFlight(s, place, stop);
    assert InFlight(Commit(s, o), place, StopToHelper);
  }

  lemma CommitNothing(s: System, o: Outcome)
    requires Sane(s) && Flow(s) && Bookkeeping(s) && s.blocked.None?
    requires FitsPhases(s.runner, s.client.started, o) && o.call.None?
    ensures Invariant(Commit(s, o))
  {
    if !Quiet(s) {
      var place, stop :| InFlight(s, place, stop);
      assert InFlight(Commit(s, o), place, stop);
    }
  }

  /** Committing such an outcome keeps the invariant. */
  lemma CommitKeeps(s: System, o: Outcome)
    requires Sane(s) && Flow(s) && Bookkeeping(s) && s.blocked.None?
    requires FitsPhases(s.runner, s.client.started, o)
    requires o.call.Some? && o.call.value.StopCall? ==> Phases(s)
    ensures Invariant(Commit(s, o))
  {
    match o.call {
      case Some(PlayCall(_)) => CommitPlay(s, o);
      case Some(StopCall) => CommitStop(s, o);
      case None => CommitNothing(s, o);
    }
  }

  lemma HandlersFitPhases(s: System, e: Event)
    requires Invariant(s) && Enabled(s, e) && s.blocked.None?
    ensures e.UserSetRun? ==> FitsPhases(s.runner, s.client.started, SetRun(s.runner, e.run))
    ensures e.UserStart? ==> FitsPhases(s.runner, s.client.started, Start(s.runner))
    ensures e.UserStop? ==> FitsPhases(s.runner, s.client.started, RequestStop(s.runner))
    ensures e.UserForceStop? ==> FitsPhases(s.runner, s.client.started, ForceStop(s.runner))
    ensures e.MonitorChanged? ==>
              FitsPhases(s.runner, s.client.started, PowerChanged(s.runner, e.state, e.wallClock))
    ensures s.client.started ==> FitsPhases(s.runner, false, PlayerFinished(s.runner))
  {
  }

  /** The record of starts and force-stops is not part of the protocol. */
  lemma EpisodeKeeps(s: System, episode: Episode)
    requires Invariant(s)
    ensures Invariant(s.(trace := s.trace.(episode := episode)))
  {
    if !Quiet(s) {
      var place, stop :| InFlight(s, place, stop);
      assert InFlight(s.(trace := s.trace.(episode := episode)), place, stop);
    }
  }

  lemma NotesKeep(s: System)
    requires Invariant(s)
    ensures Invariant(NoteStart(s)) && Invariant(NoteForceStop(s))
  {
    EpisodeKeeps(s, NoteStart(s).trace.episode);
    EpisodeKeeps(s, NoteForceStop(s).trace.episode);
  }

  lemma DispatchKeeps(s: System)
    requires Invariant(s) && s.blocked.None? && s.inbox != []
    ensures Invariant(Dispatch(s))
  {
    var place, stop :| InFlight(s, place, stop);
    var received := s.(client := s.client.(started := false),
                       inbox := s.inbox[1..],
                       trace := s.trace.(finished := s.trace.finished + [s.inbox[0]]));
    assert Quiet(received);
    HandlersFitPhases(s, DispatchFinished);
    CommitKeeps(received, PlayerFinished(s.runner));
  }

  lemma ReceivePlay(s: System, stop: StopPlace)
    requires Invariant(s) && InFlight(s, ToHelper, stop)
    ensures Invariant(Receive(s))
  {
    assert InFlight(Receive(s), AtHelper, stop);
  }

  lemma ReceiveStopInTime(s: System)
    requires Invariant(s) && InFlight(s, AtHelper, StopToHelper)
    ensures Invariant(Receive(s))
  {
    var s', n := Receive(s), s.client.plays - 1;
    assert s'.replies == [PlayReply(n, true), StopReply(true)];
    assert s'.trace.ended == s.trace.ended + [ByStop(n)];
    assert s'.helper == IDLE_HELPER && s'.outbox == [];
    assert InFlight(s', ToClient, StopToClient);
  }

  lemma ReceiveStopTooLate(s: System, place: Place)
    requires Invariant(s) && InFlight(s, place, StopToHelper) && (place == ToClient || place == Received)
    ensures Invariant(Receive(s))
  {
    assert Receive(s).trace.missed == s.trace.missed + [s.client.plays - 1];
    assert InFlight(Receive(s), place, StopToClient);
  }

  lemma ReceiveKeeps(s: System)
    requires Invariant(s) && s.outbox != []
    ensures Invariant(Receive(s))
  {
    var place, stop :| InFlight(s, place, stop);
    if place == ToHelper {
      ReceivePlay(s, stop);
    } else if place == AtHelper {
      ReceiveStopInTime(s);
    } else {
      ReceiveStopTooLate(s, place);
    }
  }

  lemma EndPlaybackKeeps(s: System)
    requires Invariant(s) && s.helper.playing.Some?
    ensures Invariant(EndPlayback(s))
  {
    var place, stop :| InFlight(s, place, stop);
    assert InFlight(EndPlayback(s), ToClient, stop);
  }

  lemma DeliverPlayReply(s: System, stop: StopPlace)
    requires Invariant(s) && InFlight(s, ToClient, stop)
    ensures Invariant(Deliver(s))
  {
    assert InFlight(Deliver(s), Received, stop);
  }

  lemma DeliverStopReply(s: System)
    requires Invariant(s) && InFlight(s, Received, StopToClient)
    ensures Invariant(Deliver(s))
  {
    assert InFlight(Deliver(s), Received, NoStop);
  }

  lemma DeliverKeeps(s: System)
    requires Invariant(s) && s.replies != []
    ensures Invariant(Deliver(s))
  {
    var place, stop :| InFlight(s, place, stop);
    if place == ToClient {
      DeliverPlayReply(s, stop);
    } else {
      DeliverStopReply(s);
    }
  }

  lemma StepKeepsInvariant(s: System, e: Event)
    requires Invariant(s) && Enabled(s, e)
    ensures Invariant(Apply(s, e))
  {
    if s.blocked.None? {
      HandlersFitPhases(s, e);
    }
    match e {
      case UserSetRun(run) => CommitKeeps(s, SetRun(s.runner, run));
      case UserStart =>
        NotesKeep(s);
        CommitKeeps(NoteStart(s), Start(s.runner));
      case UserStop => CommitKeeps(s, RequestStop(s.runner));
      case UserForceStop =>
        NotesKeep(s);
        CommitKeeps(NoteForceStop(s), ForceStop(s.runner));
      case MonitorChanged(state, wallClock) => CommitKeeps(s, PowerChanged(s.runner, state, wallClock));
      case DispatchFinished => DispatchKeeps(s);
      case HelperReceives => ReceiveKeeps(s);
      case PlaybackEnds => EndPlaybackKeeps(s);
      case ClientReceives => DeliverKeeps(s);
    }
  }

  lemma {:induction false} RunKeepsInvariant(s: System, es: seq<Event>)
    requires Invariant(s) && Possible(s, es)
    ensures Invariant(After(s, es))
    decreases |es|
  {
    if es != [] {
      StepKeepsInvariant(s, es[0]);
      RunKeepsInvariant(Apply(s, es[0]), es[1..]);
    }
  }

  // ---------------------------------------------------------------------------------
  // What the invariant says about every run

  lemma FinishedInOrder(s: System)
    requires Invariant(s)
    ensures s.client.started ==> |s.trace.sent| > 0 && s.trace.finished == Count(|s.trace.sent| - 1)
    ensures !s.client.started ==> s.trace.finished == Count(|s.trace.sent|)
    ensures s.trace.begun <= s.trace.sent && |s.trace.begun| >= |s.trace.finished|
  {
    if !Quiet(s) {
      var place, stop :| InFlight(s, place, stop);
    }
  }

  /** Each accepted Play has had exactly one finished signal, in order, except the latest one
      while it is outstanding; and the device plays the files in the order of the calls. */
  lemma EachPlayFinishesOnce(levels: Levels, es: seq<Event>)
    requires Possible(Initial(levels), es)
    ensures var s := After(Initial(levels), es);
            && (s.client.started ==> |s.trace.sent| > 0 && s.trace.finished == Count(|s.trace.sent| - 1))
            && (!s.client.started ==> s.trace.finished == Count(|s.trace.sent|))
            && s.trace.begun <= s.trace.sent && |s.trace.begun| >= |s.trace.finished|
  {
    InitialInvariant(levels);
    RunKeepsInvariant(Initial(levels), es);
    FinishedInOrder(After(Initial(levels), es));
  }

  /** A Stop ends no playback but the one outstanding when it was sent; a Stop that finds
      nothing to end lost the race against the natural end of that same playback. */
  lemma StopEndsOnlyItsTarget(levels: Levels, es: seq<Event>)
    requires Possible(Initial(levels), es)
    ensures var t := After(Initial(levels), es).trace;
            && (forall i | 0 <= i < |t.ended| && t.ended[i].ByStop? :: t.ended[i].target == i)
            && (forall i | 0 <= i < |t.missed| :: t.missed[i] < |t.ended| && t.ended[t.missed[i]] == Natural)
  {
    InitialInvariant(levels);
    RunKeepsInvariant(Initial(levels), es);
  }

  /** When the Stop call returns, the device is idle and the finished signal of the playback
      that was outstanding at the call waits to be dispatched; and the reply says whether the call
      has ended it. */
  lemma StopReturnsAfterTheEnd(levels: Levels, es: seq<Event>)
    requires Possible(Initial(levels), es)
    requires var s := After(Initial(levels), es); s.replies != [] && s.replies[0].StopReply?
    ensures var s := After(Initial(levels), es);
            && s.blocked.Some?
            && Deliver(s).blocked.None? && Deliver(s).runner == s.blocked.value
            && Deliver(s).helper == IDLE_HELPER && Deliver(s).outbox == []
            && Deliver(s).inbox == [s.trace.stopTarget]
            && |s.trace.ended| == s.trace.stopTarget + 1
            && (s.replies[0].ok <==> s.trace.ended[s.trace.stopTarget] == ByStop(s.trace.stopTarget))
  {
    InitialInvariant(levels);
    RunKeepsInvariant(Initial(levels), es);
    var s := After(Initial(levels), es);
    var place, stop :| InFlight(s, place, stop);
  }

  /** Between handlers a Play is outstanding exactly in the active phases; force_stop is set
      only in STOPPING; a running test has a reading; and neither end ever sees a second Play. */
  lemma PhaseTable(levels: Levels, es: seq<Event>)
    requires Possible(Initial(levels), es)
    ensures var s := After(Initial(levels), es);
            && (s.client.started <==> s.runner.phase in {Prologue, Running, Stopping, Epilogue})
            && (s.runner.forceStop ==> s.runner.phase == Stopping)
            && (s.runner.phase == Running ==> s.runner.run.Some? && s.runner.run.value.history != [])
            && s.client.criticals == 0 && s.trace.refused == 0
  {
    InitialInvariant(levels);
    RunKeepsInvariant(Initial(levels), es);
  }

  /** How many protocol steps separate the outstanding messages from the client. */
  function Distance(s: System): nat {
    3 * |s.outbox| + (if s.helper.playing.Some? then 2 else 0) + |s.replies|
  }

  predicate ProtocolEvent(e: Event) {
    e.HelperReceives? || e.PlaybackEnds? || e.ClientReceives?
  }

  lemma ProtocolEventsNearer(s: System, e: Event)
    requires Sane(s) && Enabled(s, e) && ProtocolEvent(e)
    ensures Distance(Apply(s, e)) < Distance(s)
  {
  }

  lemma OutstandingCanMove(s: System)
    requires Invariant(s) && s.client.started
    ensures s.inbox == [] || s.blocked.Some? ==> Distance(s) > 0
    ensures Distance(s) > 0 ==>
              Enabled(s, HelperReceives) || Enabled(s, PlaybackEnds) || Enabled(s, ClientReceives)
  {
    var place, stop :| InFlight(s, place, stop);
  }

  /** A playback always ends: every protocol step brings the outstanding messages nearer, and
      when none is possible any more the finished signal can be dispatched. */
  lemma PlaybackProgress(levels: Levels, es: seq<Event>)
    requires Possible(Initial(levels), es)
    ensures var s := After(Initial(levels), es);
            && (forall e | ProtocolEvent(e) && Enabled(s, e) :: Distance(Apply(s, e)) < Distance(s))
            && (s.client.started ==>
                  || Enabled(s, DispatchFinished)
                  || Enabled(s, HelperReceives) || Enabled(s, PlaybackEnds) || Enabled(s, ClientReceives))
  {
    InitialInvariant(levels);
    RunKeepsInvariant(Initial(levels), es);
    var s := After(Initial(levels), es);
    forall e | ProtocolEvent(e) && Enabled(s, e)
      ensures Distance(Apply(s, e)) < Distance(s)
    {
      ProtocolEventsNearer(s, e);
    }
    if s.client.started {
      OutstandingCanMove(s);
    }
  }
}
