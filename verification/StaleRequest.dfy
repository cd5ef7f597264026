/** A stop request that outlives its run: when that happens, and what it does to the next run. */
module StaleRequests {
  import opened Common
  import opened TestRuns
  import opened SystemStates
  import opened RemotePlayers
  import opened ReplayHelpers
  import opened TestRunners
  import opened BenchSystem
  import opened ProtocolProperties
  import opened RunProperties

  predicate RequestInPlace(r: Runner) {
    r.stopRequested ==> r.phase == Prologue
  }

  /** At every moment a pending stop request belongs to the running prologue. */
  predicate RequestsStayInPlace(s: System, es: seq<Event>)
    requires Sane(s) && Possible(s, es)
    decreases |es|
  {
    && RequestInPlace(Committed(s))
    && (es == [] || RequestsStayInPlace(Apply(s, es[0]), es[1..]))
  }

  /** A force-stop comes while a stop waits for the end of the prologue. */
  predicate ForcesPendingStop(s: System, es: seq<Event>)
    requires Sane(s) && Possible(s, es)
    decreases |es|
  {
    es != [] &&
    ((es[0].UserForceStop? && s.runner.phase == Prologue && s.runner.stopRequested)
     || ForcesPendingStop(Apply(s, es[0]), es[1..]))
  }

  lemma RequestStep(r: Runner, e: Event)
    requires Acceptable(r, e) && RequestInPlace(r) && (r.forceStop ==> r.phase == Stopping)
    ensures RequestInPlace(Reaction(r, e))
            <==> !(e.UserForceStop? && r.phase == Prologue && r.stopRequested)
  {
  }

  lemma {:induction false} RequestsOverRun(s: System, es: seq<Event>)
    requires Invariant(s) && Possible(s, es) && RequestInPlace(Committed(s))
    ensures RequestsStayInPlace(s, es) <==> !ForcesPendingStop(s, es)
    decreases |es|
  {
    if es != [] {
      StepKeepsInvariant(s, es[0]);
      ReactionIsApplied(s, es[0]);
      ForceOnlyStopping(s);
      RequestStep(Committed(s), es[0]);
      if RequestInPlace(Committed(Apply(s, es[0]))) {
        RequestsOverRun(Apply(s, es[0]), es[1..]);
      } else {
        assert !RequestsStayInPlace(Apply(s, es[0]), es[1..]);
      }
    }
  }

  /** A stop request outlives its prologue exactly if a force-stop overtakes it. */
  lemma StaleRequestIff(levels: Levels, es: seq<Event>)
    requires Possible(Initial(levels), es)
    ensures RequestsStayInPlace(Initial(levels), es) <==> !ForcesPendingStop(Initial(levels), es)
  {
    InitialInvariant(levels);
    RequestsOverRun(Initial(levels), es);
  }

  // ---------------------------------------------------------------------------------
  // A run whose prologue finds a request pending

  /** The call that the handler of an event makes. */
  function CallOf(r: Runner, e: Event): Option<Call>
    requires Acceptable(r, e)
  {
    match e
    case UserSetRun(run) => SetRun(r, run).call
    case UserStart => Start(r).call
    case UserStop => RequestStop(r).call
    case UserForceStop => ForceStop(r).call
    case MonitorChanged(state, wallClock) => PowerChanged(r, state, wallClock).call
    case DispatchFinished => PlayerFinished(r).call
    case _ => None
  }

  function PlayedBy(call: Option<Call>): seq<string> {
    if call.Some? && call.value.PlayCall? then [call.value.file] else []
  }

  /** During a run each event adds the file it plays, if any, to those of the run. */
  lemma EpisodeStep(s: System, e: Event)
    requires Invariant(s) && Enabled(s, e) && s.runner.phase != Stopped
    ensures Acceptable(Committed(s), e)
    ensures Apply(s, e).trace.episode.test == s.trace.episode.test
    ensures Apply(s, e).trace.episode.plays == s.trace.episode.plays + PlayedBy(CallOf(Committed(s), e))
  {
    match e {
      case UserSetRun(run) => CommitEpisode(s, SetRun(s.runner, run));
      case UserStart => CommitEpisode(NoteStart(s), Start(s.runner));
      case UserStop => CommitEpisode(s, RequestStop(s.runner));
      case UserForceStop => CommitEpisode(NoteForceStop(s), ForceStop(s.runner));
      case MonitorChanged(state, wallClock) => CommitEpisode(s, PowerChanged(s.runner, state, wallClock));
      case DispatchFinished =>
      case HelperReceives =>
      case PlaybackEnds =>
      case ClientReceives =>
    }
  }

  lemma CommitEpisode(s: System, o: Outcome)
    requires Sane(s) && Coherent(o.runner)
    ensures Commit(s, o).trace.episode == s.trace.episode.(plays := s.trace.episode.plays + PlayedBy(o.call))
  {
  }

  /** The run is on its way from the prologue to STOPPED, past the loop. */
  predicate SkipsLoop(r: Runner, test: BatteryTest, plays: seq<string>) {
    && (r.phase != Stopped ==> r.run.Some? && r.run.value.test == Some(test))
    && match r.phase
       case Prologue => r.stopRequested && !r.forceStop && plays == Files(test, 0, false)
       case Epilogue => !r.forceStop && plays == Files(test, 0, true)
       case Stopping => r.forceStop && (plays == Files(test, 0, false) || plays == Files(test, 0, true))
       case Stopped => plays == Files(test, 0, false) || plays == Files(test, 0, true)
       case _ => false
  }

  lemma SkipsLoopStep(r: Runner, e: Event, test: BatteryTest, plays: seq<string>)
    requires Acceptable(r, e) && r.phase != Stopped && SkipsLoop(r, test, plays)
    ensures SkipsLoop(Reaction(r, e), test, plays + PlayedBy(CallOf(r, e)))
  {
    if PlayedBy(CallOf(r, e)) == [] {
      assert plays + [] == plays;
    } else {
      assert Files(test, 0, false) + FileList(test.epilogueFile) == Files(test, 0, true);
    }
  }

  lemma {:induction false} SkipsLoopOverRun(s: System, es: seq<Event>, test: BatteryTest)
    requires Invariant(s) && Possible(s, es) && NotYetStopped(s, es)
    requires SkipsLoop(Committed(s), test, s.trace.episode.plays)
    ensures SkipsLoop(Committed(After(s, es)), test, After(s, es).trace.episode.plays)
    decreases |es|
  {
    if es != [] {
      StepKeepsInvariant(s, es[0]);
      ReactionIsApplied(s, es[0]);
      ForceOnlyStopping(s);
      EpisodeStep(s, es[0]);
      SkipsLoopStep(Committed(s), es[0], test, s.trace.episode.plays);
      SkipsLoopOverRun(Apply(s, es[0]), es[1..], test);
    }
  }

  /** A stop pending in the prologue keeps the run out of WAITING and RUNNING, and the loop is
      not played, whatever comes before STOPPED. */
  lemma PendingStopSkipsLoop(levels: Levels, before: seq<Event>, es: seq<Event>)
    requires Possible(Initial(levels), before)
    requires var s := After(Initial(levels), before);
             && Committed(s).phase == Prologue && Committed(s).stopRequested
             && Possible(s, es) && NotYetStopped(s, es)
    ensures var s, s' := After(Initial(levels), before), After(After(Initial(levels), before), es);
            && HasTest(Committed(s))
            && Committed(s').phase != Waiting && Committed(s').phase != Running
            && (s'.trace.episode.plays == Files(TestOf(Committed(s)), 0, false)
                || s'.trace.episode.plays == Files(TestOf(Committed(s)), 0, true))
  {
    InitialInvariant(levels);
    RunKeepsTrack(Initial(levels), before);
    var s := After(Initial(levels), before);
    ForceOnlyStopping(s);
    var n, epilogue :| Follows(Committed(s), s.trace.episode, n, epilogue);
    SkipsLoopOverRun(s, es, TestOf(Committed(s)));
  }

  /** A stale request does that to the next run with a prologue. */
  lemma StaleRequestSkipsTest(levels: Levels, before: seq<Event>, es: seq<Event>)
    requires Possible(Initial(levels), before)
    requires var s := After(Initial(levels), before);
             && Enabled(s, UserStart) && s.runner.phase == Stopped && s.runner.stopRequested
             && HasTest(s.runner) && TestOf(s.runner).prologueFile.Some?
             && Possible(Apply(s, UserStart), es) && NotYetStopped(Apply(s, UserStart), es)
    ensures var s := After(Initial(levels), before); var s' := After(Apply(s, UserStart), es);
            && Committed(s').phase != Waiting && Committed(s').phase != Running
            && (s'.trace.episode.plays == Files(TestOf(s.runner), 0, false)
                || s'.trace.episode.plays == Files(TestOf(s.runner), 0, true))
  {
    InitialInvariant(levels);
    RunKeepsInvariant(Initial(levels), before);
    var s := After(Initial(levels), before);
    ForceOnlyStopping(s);
    StepKeepsInvariant(s, UserStart);
    ReactionIsApplied(s, UserStart);
    SkipsLoopOverRun(Apply(s, UserStart), es, TestOf(s.runner));
  }

  // ---------------------------------------------------------------------------------
  // A run that leaves a request behind

  lemma {:induction false} AfterAppend(s: System, es: seq<Event>, e: Event)
    requires Sane(s) && Possible(s, es) && Enabled(After(s, es), e)
    ensures Possible(s, es + [e]) && After(s, es + [e]) == Apply(After(s, es), e)
    decreases |es|
  {
    if es == [] {
      assert es + [e] == [e] && [e][1..] == [];
      assert Possible(Apply(s, e), []);
    } else {
      AfterAppend(Apply(s, es[0]), es[1..], e);
      assert (es + [e])[0] == es[0] && (es + [e])[1..] == es[1..] + [e];
    }
  }

  lemma {:induction false} InPlaceAtTheEnd(s: System, es: seq<Event>)
    requires Sane(s) && Possible(s, es) && RequestsStayInPlace(s, es)
    ensures RequestInPlace(Committed(After(s, es)))
    decreases |es|
  {
    if es != [] {
      InPlaceAtTheEnd(Apply(s, es[0]), es[1..]);
    }
  }

  lemma FirstThree(levels: Levels, run: Run)
    requires run.test.Some? && run.test.value.prologueFile.Some?
    ensures var es := [UserSetRun(run)] + [UserStart] + [UserStop];
            && Possible(Initial(levels), es)
            && var s := After(Initial(levels), es);
               && s.runner.phase == Prologue && s.runner.run == Some(run)
               && s.runner.stopRequested && !s.runner.forceStop
               && s.blocked.None? && s.client.ready && s.client.pending.None? && s.client.plays == 1
               && s.outbox == [Play(0, run.test.value.prologueFile.value)]
               && s.helper == IDLE_HELPER && s.replies == [] && s.inbox == []
  {
    var s0 := Initial(levels);
    AfterAppend(s0, [], UserSetRun(run));
    assert [] + [UserSetRun(run)] == [UserSetRun(run)];
    AfterAppend(s0, [UserSetRun(run)], UserStart);
    AfterAppend(s0, [UserSetRun(run)] + [UserStart], UserStop);
  }

  lemma ForceIt(s0: System, es: seq<Event>, file: string)
    requires Sane(s0) && Possible(s0, es)
    requires var s := After(s0, es);
             && s.runner.phase == Prologue && s.blocked.None? && s.client.pending.None?
             && s.outbox == [Play(0, file)] && s.helper == IDLE_HELPER && s.replies == [] && s.inbox == []
    ensures var s, fs := After(s0, es), es + [UserForceStop];
            && Possible(s0, fs)
            && var t := After(s0, fs);
               && t.blocked == Some(s.runner.(phase := Stopping, forceStop := true))
               && t.outbox == [Play(0, file), Stop] && t.helper == IDLE_HELPER && t.replies == [] && t.inbox == []
  {
    AfterAppend(s0, es, UserForceStop);
  }

  lemma ReceivePlayStop(s0: System, es: seq<Event>, file: string)
    requires Sane(s0) && Possible(s0, es)
    requires var s := After(s0, es);
             && s.outbox == [Play(0, file), Stop] && s.helper == IDLE_HELPER && s.replies == [] && s.inbox == []
    ensures var s, fs := After(s0, es), es + [HelperReceives] + [HelperReceives];
            && Possible(s0, fs)
            && After(s0, fs).blocked == s.blocked
            && After(s0, fs).replies == [PlayReply(0, true), StopReply(true)] && After(s0, fs).inbox == []
  {
    AfterAppend(s0, es, HelperReceives);
    var fs := es + [HelperReceives];
    assert After(s0, fs).outbox == [Stop] && After(s0, fs).helper == Helper(Some(0), Some(file));
    AfterAppend(s0, fs, HelperReceives);
  }

  lemma LastThree(s0: System, es: seq<Event>, runner: Runner)
    requires Sane(s0) && Possible(s0, es) && After(s0, es).blocked == Some(runner) && runner.forceStop
    requires After(s0, es).replies == [PlayReply(0, true), StopReply(true)] && After(s0, es).inbox == []
    ensures var fs := es + [ClientReceives] + [ClientReceives] + [DispatchFinished];
            && Possible(s0, fs)
            && After(s0, fs).blocked.None? && After(s0, fs).runner == SetStopped(runner.(forceStop := false)).runner
  {
    AfterAppend(s0, es, ClientReceives);
    var fs := es + [ClientReceives];
    assert After(s0, fs).replies == [StopReply(true)] && After(s0, fs).inbox == [0];
    AfterAppend(s0, fs, ClientReceives);
    AfterAppend(s0, fs + [ClientReceives], DispatchFinished);
  }

  /** The user starts a test with a prologue, stops it, and then stops it by force. */
  function StopThenForce(run: Run): seq<Event> {
    [UserSetRun(run)] + [UserStart] + [UserStop]
    + [UserForceStop] + [HelperReceives] + [HelperReceives]
    + [ClientReceives] + [ClientReceives] + [DispatchFinished]
  }

  /** This leaves the request behind in STOPPED, with the run ready to be started again. */
  lemma StaleRequestHappens(levels: Levels, run: Run)
    requires run.test.Some? && run.test.value.prologueFile.Some?
    ensures Possible(Initial(levels), StopThenForce(run)) && ForcesPendingStop(Initial(levels), StopThenForce(run))
    ensures var s := After(Initial(levels), StopThenForce(run));
            s.runner.phase == Stopped && s.runner.stopRequested && s.runner.run == Some(run) && Enabled(s, UserStart)
  {
    var s0 := Initial(levels);
    var es := [UserSetRun(run)] + [UserStart] + [UserStop];
    FirstThree(levels, run);
    ForceIt(s0, es, run.test.value.prologueFile.value);
    ReceivePlayStop(s0, es + [UserForceStop], run.test.value.prologueFile.value);
    LastThree(s0, es + [UserForceStop] + [HelperReceives] + [HelperReceives],
              After(s0, es).runner.(phase := Stopping, forceStop := true));
    StaleRequestIff(levels, StopThenForce(run));
    if RequestsStayInPlace(s0, StopThenForce(run)) {
      InPlaceAtTheEnd(s0, StopThenForce(run));
    }
  }
}
