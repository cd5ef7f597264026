/** What one run of a test looks like from its start to STOPPED, and what holds over any
    sequence of runs. */
module RunProperties {
  import opened Common
  import opened PowerMonitor
  import opened TestRuns
  import opened Thinning
  import opened SystemStates
  import opened TestRunners
  import opened BenchSystem
  import opened ProtocolProperties

  // ---------------------------------------------------------------------------------
  // What one event does to the runner

  predicate Acceptable(r: Runner, e: Event) {
    Coherent(r) && (e.UserStart? ==> Startable(r))
  }

  function Reaction(r: Runner, e: Event): (r': Runner)
    requires Acceptable(r, e)
    ensures Coherent(r')
  {
    match e
    case UserSetRun(run) => SetRun(r, run).runner
    case UserStart => Start(r).runner
    case UserStop => RequestStop(r).runner
    case UserForceStop => ForceStop(r).runner
    case MonitorChanged(state, wallClock) => PowerChanged(r, state, wallClock).runner
    case DispatchFinished => PlayerFinished(r).runner
    case _ => r
  }

  lemma CommitCommits(s: System, o: Outcome)
    requires Sane(s) && Coherent(o.runner) && s.blocked.None?
    ensures Committed(Commit(s, o)) == o.runner
  {
  }

  /** Seen from outside, each event changes the committed runner as its handler says, and the
      protocol events do not change it. */
  lemma ReactionIsApplied(s: System, e: Event)
    requires Invariant(s) && Enabled(s, e)
    ensures Acceptable(Committed(s), e)
    ensures Committed(Apply(s, e)) == Reaction(Committed(s), e)
    ensures !ProtocolEvent(e) ==> s.blocked.None?
  {
    match e {
      case UserSetRun(run) => CommitCommits(s, SetRun(s.runner, run));
      case UserStart => CommitCommits(NoteStart(s), Start(s.runner));
      case UserStop => CommitCommits(s, RequestStop(s.runner));
      case UserForceStop => CommitCommits(NoteForceStop(s), ForceStop(s.runner));
      case MonitorChanged(state, wallClock) => CommitCommits(s, PowerChanged(s.runner, state, wallClock));
      case DispatchFinished =>
      case HelperReceives =>
      case PlaybackEnds =>
      case ClientReceives =>
    }
  }

  // ---------------------------------------------------------------------------------
  // The files played: prologue, loops, epilogue

  function Repeat(file: string, n: nat): seq<string> {
    if n == 0 then [] else Repeat(file, n - 1) + [file]
  }

  function FileList(file: Option<string>): seq<string> {
    match file
    case None => []
    case Some(f) => [f]
  }

  /** The prologue if there is one, the loop n times, and the epilogue if wanted. */
  function Files(test: BatteryTest, n: nat, epilogue: bool): seq<string> {
    FileList(test.prologueFile) + Repeat(test.loopFile, n)
    + (if epilogue then FileList(test.epilogueFile) else [])
  }

  /** The phase, the files played since the start and the force-stop record agree. */
  predicate Follows(r: Runner, ep: Episode, n: nat, epilogue: bool) {
    && ep.test.Some?
    && ep.plays == Files(ep.test.value, n, epilogue)
    && (epilogue ==> ep.test.value.epilogueFile.Some?)
    && (ep.forcedAt.Some? ==> ep.forcedAt.value == |ep.plays| && (r.phase == Stopped || r.forceStop))
    && (ep.forcedAt.None? ==>
          && !r.forceStop
          && (r.phase == Prologue ==> n == 0 && !epilogue && ep.test.value.prologueFile.Some?)
          && (r.phase == Waiting ==> n == 0 && !epilogue)
          && (r.phase == Running || r.phase == Stopping ==> n > 0 && !epilogue)
          && (r.phase == Epilogue ==> epilogue)
          && (r.phase == Stopped ==> epilogue == ep.test.value.epilogueFile.Some?))
  }

  ghost predicate OnTrack(s: System) {
    var r, ep := Committed(s), s.trace.episode;
    if ep.test.None? then r.phase == Stopped && !r.forceStop
    else
      && (r.phase != Stopped ==> r.run.Some? && r.run.value.test == ep.test)
      && exists n, epilogue :: Follows(r, ep, n, epilogue)
  }

  lemma TrackHandler(s: System, o: Outcome, n: nat, epilogue: bool)
    requires Sane(s) && s.blocked.None? && Coherent(o.runner)
    requires s.client.ready && s.client.pending.None?
    requires var ep := s.trace.episode;
             var ep' := if o.call.Some? && o.call.value.PlayCall?
                        then ep.(plays := ep.plays + [o.call.value.file]) else ep;
             && Follows(o.runner, ep', n, epilogue)
             && (o.runner.phase != Stopped ==> o.runner.run.Some? && o.runner.run.value.test == ep.test)
    ensures OnTrack(Commit(s, o))
  {
    var s' := Commit(s, o);
    assert Follows(Committed(s'), s'.trace.episode, n, epilogue);
  }

  lemma TrackEpilogue(s: System, r: Runner, n: nat)
    requires Sane(s) && s.blocked.None? && s.client.ready && s.client.pending.None?
    requires Coherent(r) && r.run.Some? && r.run.value.test == s.trace.episode.test && !r.forceStop
    requires s.trace.episode.test.Some? && s.trace.episode.forcedAt.None?
    requires s.trace.episode.plays == Files(s.trace.episode.test.value, n, false)
    ensures OnTrack(Commit(s, SetEpilogue(r)))
  {
    TrackHandler(s, SetEpilogue(r), n, s.trace.episode.test.value.epilogueFile.Some?);
  }

  lemma TrackLoop(s: System, o: Outcome, n: nat)
    requires Sane(s) && s.blocked.None? && s.client.ready && s.client.pending.None?
    requires Coherent(o.runner) && o.runner.phase == Running && !o.runner.forceStop
    requires o.runner.run.value.test == s.trace.episode.test
    requires s.trace.episode.test.Some? && s.trace.episode.forcedAt.None?
    requires s.trace.episode.plays == Files(s.trace.episode.test.value, n, false)
    requires o.call == Some(PlayCall(s.trace.episode.test.value.loopFile))
    ensures OnTrack(Commit(s, o))
  {
    var test := s.trace.episode.test.value;
    assert Files(test, n + 1, false) == Files(test, n, false) + [test.loopFile];
    TrackHandler(s, o, n + 1, false);
  }

  lemma TrackFinished(s: System)
    requires Invariant(s) && OnTrack(s) && s.blocked.None? && s.inbox != []
    ensures OnTrack(Dispatch(s))
  {
    var place, stop :| InFlight(s, place, stop);
    var r, ep := s.runner, s.trace.episode;
    var received := s.(client := s.client.(started := false),
                       inbox := s.inbox[1..],
                       trace := s.trace.(finished := s.trace.finished + [s.inbox[0]]));
    var n, epilogue :| Follows(r, ep, n, epilogue);
    if r.forceStop {
      TrackHandler(received, PlayerFinished(r), n, epilogue);
    } else if r.phase == Prologue && r.stopRequested {
      TrackEpilogue(received, r.(phase := Waiting, stopRequested := false), 0);
    } else if r.phase == Stopping || (r.phase == Running && IsDone(r.run.value)) {
      TrackEpilogue(received, r, n);
    } else if r.phase == Running {
      TrackLoop(received, PlayerFinished(r), n);
    } else {
      TrackHandler(received, PlayerFinished(r), n, epilogue);
    }
  }

  lemma TrackStart(s: System)
    requires Invariant(s) && OnTrack(s) && s.blocked.None? && Startable(s.runner)
    ensures OnTrack(Apply(s, UserStart))
  {
    var r := s.runner;
    if r.phase == Stopped && r.run.Some? {
      TrackHandler(NoteStart(s), Start(r), 0, false);
    }
  }

  lemma TrackStop(s: System)
    requires Invariant(s) && OnTrack(s) && s.blocked.None?
    ensures OnTrack(Apply(s, UserStop))
  {
    var r, ep := s.runner, s.trace.episode;
    if ep.test.Some? {
      var n, epilogue :| Follows(r, ep, n, epilogue);
      if r.phase == Waiting {
        TrackEpilogue(s, r, 0);
      } else {
        TrackHandler(s, RequestStop(r), n, epilogue);
      }
    }
  }

  lemma TrackForceStop(s: System)
    requires Invariant(s) && OnTrack(s) && s.blocked.None?
    ensures OnTrack(Apply(s, UserForceStop))
  {
    var r, ep := s.runner, s.trace.episode;
    if ep.test.Some? {
      var n, epilogue :| Follows(r, ep, n, epilogue);
      TrackHandler(NoteForceStop(s), ForceStop(r), n, epilogue);
    }
  }

  lemma TrackPower(s: System, state: PowerState, wallClock: int)
    requires Invariant(s) && OnTrack(s) && s.blocked.None?
    ensures OnTrack(Apply(s, MonitorChanged(state, wallClock)))
  {
    var r, ep := s.runner, s.trace.episode;
    if ep.test.Some? {
      var n, epilogue :| Follows(r, ep, n, epilogue);
      if r.phase == Waiting && !state.online {
        TrackLoop(s, PowerChanged(r, state, wallClock), 0);
      } else {
        TrackReading(s, state, wallClock, n, epilogue);
      }
    }
  }

  lemma TrackReading(s: System, state: PowerState, wallClock: int, n: nat, epilogue: bool)
    requires Invariant(s) && OnTrack(s) && s.blocked.None? && s.trace.episode.test.Some?
    requires Follows(s.runner, s.trace.episode, n, epilogue) && !(s.runner.phase == Waiting && !state.online)
    ensures OnTrack(Commit(s, PowerChanged(s.runner, state, wallClock)))
  {
    TrackHandler(s, PowerChanged(s.runner, state, wallClock), n, epilogue);
  }

  lemma TrackSetRun(s: System, run: Run)
    requires Invariant(s) && OnTrack(s) && s.blocked.None?
    ensures OnTrack(Apply(s, UserSetRun(run)))
  {
    var ep := s.trace.episode;
    if ep.test.Some? {
      var n, epilogue :| Follows(s.runner, ep, n, epilogue);
      TrackHandler(s, SetRun(s.runner, run), n, epilogue);
    }
  }

  lemma StepKeepsTrack(s: System, e: Event)
    requires Invariant(s) && OnTrack(s) && Enabled(s, e)
    ensures OnTrack(Apply(s, e))
  {
    match e {
      case UserSetRun(run) => TrackSetRun(s, run);
      case UserStart => TrackStart(s);
      case UserStop => TrackStop(s);
      case UserForceStop => TrackForceStop(s);
      case MonitorChanged(state, wallClock) => TrackPower(s, state, wallClock);
      case DispatchFinished => TrackFinished(s);
      case HelperReceives =>
        assert Committed(Apply(s, e)) == Committed(s) && Apply(s, e).trace.episode == s.trace.episode;
      case PlaybackEnds =>
        assert Committed(Apply(s, e)) == Committed(s) && Apply(s, e).trace.episode == s.trace.episode;
      case ClientReceives =>
        assert Committed(Apply(s, e)) == Committed(s) && Apply(s, e).trace.episode == s.trace.episode;
    }
  }

  lemma {:induction false} RunKeepsTrack(s: System, es: seq<Event>)
    requires Invariant(s) && OnTrack(s) && Possible(s, es)
    ensures Invariant(After(s, es)) && OnTrack(After(s, es))
    decreases |es|
  {
    if es != [] {
      StepKeepsInvariant(s, es[0]);
      StepKeepsTrack(s, es[0]);
      RunKeepsTrack(Apply(s, es[0]), es[1..]);
    }
  }

  /** At every moment the files played since the start are the prologue, some loops and maybe
      the epilogue; a run that came to STOPPED without a force-stop has played an existing
      epilogue, last and once; and nothing has been played since the first force-stop. */
  lemma FilesPlayed(levels: Levels, es: seq<Event>)
    requires Possible(Initial(levels), es)
    requires After(Initial(levels), es).trace.episode.test.Some?
    ensures var s := After(Initial(levels), es);
            var ep, test := s.trace.episode, s.trace.episode.test.value;
            exists n: nat, epilogue: bool ::
              && ep.plays == Files(test, n, epilogue)
              && (epilogue ==> test.epilogueFile.Some?)
              && (s.runner.phase == Stopped && ep.forcedAt.None? ==> epilogue == test.epilogueFile.Some?)
              && (ep.forcedAt.Some? ==> |ep.plays| == ep.forcedAt.value)
  {
    InitialInvariant(levels);
    RunKeepsTrack(Initial(levels), es);
    var s := After(Initial(levels), es);
    var n, epilogue :| Follows(Committed(s), s.trace.episode, n, epilogue);
    assert s.trace.episode.plays == Files(s.trace.episode.test.value, n, epilogue);
  }

  // ---------------------------------------------------------------------------------
  // Stopping takes a bounded number of finished signals

  /** The run is on its way to STOPPED, whatever happens next. */
  predicate WindingDown(r: Runner) {
    || r.phase == Stopped || r.phase == Epilogue || r.phase == Stopping
    || (r.phase == Prologue && r.stopRequested)
  }

  /** How many more finished signals reach STOPPED. */
  function Rank(r: Runner): nat
    requires Coherent(r)
  {
    match r.phase
    case Stopped => 0
    case Epilogue => 1
    case _ =>
      if r.forceStop then 1
      else if HasTest(r) && TestOf(r).epilogueFile.Some? then 2 else 1
  }

  function Dispatches(es: seq<Event>): nat {
    if es == [] then 0 else (if es[0].DispatchFinished? then 1 else 0) + Dispatches(es[1..])
  }

  /** STOPPED has not been reached before the last of the events. */
  predicate NotYetStopped(s: System, es: seq<Event>)
    requires Sane(s) && Possible(s, es)
    decreases |es|
  {
    es == [] || (s.runner.phase != Stopped && NotYetStopped(Apply(s, es[0]), es[1..]))
  }

  lemma RankStep(r: Runner, e: Event)
    requires Acceptable(r, e) && (r.forceStop ==> r.phase == Stopping)
    requires r.phase != Stopped && WindingDown(r)
    ensures WindingDown(Reaction(r, e))
    ensures Rank(Reaction(r, e)) + (if e.DispatchFinished? then 1 else 0) <= Rank(r)
  {
  }

  lemma ForceOnlyStopping(s: System)
    requires Invariant(s)
    ensures Committed(s).forceStop ==> Committed(s).phase == Stopping
    ensures Committed(s).phase == Stopped ==> s.runner.phase == Stopped
  {
  }

  lemma {:induction false} RankOverRun(s: System, es: seq<Event>)
    requires Invariant(s) && Possible(s, es) && NotYetStopped(s, es) && WindingDown(Committed(s))
    ensures Dispatches(es) + Rank(Committed(After(s, es))) <= Rank(Committed(s))
    ensures Invariant(After(s, es))
    decreases |es|
  {
    if es != [] {
      StepKeepsInvariant(s, es[0]);
      ReactionIsApplied(s, es[0]);
      ForceOnlyStopping(s);
      RankStep(Committed(s), es[0]);
      RankOverRun(Apply(s, es[0]), es[1..]);
    }
  }

  lemma RankZero(r: Runner)
    requires Coherent(r) && Rank(r) == 0
    ensures r.phase == Stopped
  {
  }

  /** After an event that leaves the runner winding down with a rank, that many finished
      signals reach STOPPED. */
  lemma ReachesStopped(s: System, e: Event, es: seq<Event>)
    requires Invariant(s) && Enabled(s, e) && Possible(Apply(s, e), es) && NotYetStopped(Apply(s, e), es)
    requires Acceptable(Committed(s), e) && WindingDown(Reaction(Committed(s), e))
    ensures var rank := Rank(Reaction(Committed(s), e));
            && Dispatches(es) <= rank
            && (Dispatches(es) == rank ==> After(Apply(s, e), es).runner.phase == Stopped)
  {
    StepKeepsInvariant(s, e);
    ReactionIsApplied(s, e);
    RankOverRun(Apply(s, e), es);
    var end := After(Apply(s, e), es);
    if Rank(Committed(end)) == 0 {
      RankZero(Committed(end));
      ForceOnlyStopping(end);
    }
  }

  lemma StopWindsDown(r: Runner)
    requires Coherent(r) && r.phase in {Prologue, Waiting, Running}
    requires r.forceStop ==> r.phase == Stopping
    ensures WindingDown(RequestStop(r).runner) && Rank(RequestStop(r).runner) <= 2
  {
  }

  lemma ForceStopWindsDown(r: Runner)
    requires Coherent(r)
    ensures WindingDown(ForceStop(r).runner) && Rank(ForceStop(r).runner) <= 1
  {
  }

  /** After a stop in PROLOGUE, WAITING or RUNNING at most two finished signals reach STOPPED,
      however power changes and further stops and force-stops fall in between. */
  lemma StopReachesStopped(levels: Levels, before: seq<Event>, es: seq<Event>)
    requires Possible(Initial(levels), before)
    requires var s := After(Initial(levels), before);
             && Enabled(s, UserStop) && s.runner.phase in {Prologue, Waiting, Running}
             && Possible(Apply(s, UserStop), es) && NotYetStopped(Apply(s, UserStop), es)
    ensures Dispatches(es) <= 2
    ensures Dispatches(es) == 2 ==>
              After(Apply(After(Initial(levels), before), UserStop), es).runner.phase == Stopped
  {
    InitialInvariant(levels);
    RunKeepsInvariant(Initial(levels), before);
    var s := After(Initial(levels), before);
    ForceOnlyStopping(s);
    StopWindsDown(Committed(s));
    ReachesStopped(s, UserStop, es);
  }

  /** After a force-stop, in any phase, at most one finished signal reaches STOPPED. */
  lemma ForceStopReachesStopped(levels: Levels, before: seq<Event>, es: seq<Event>)
    requires Possible(Initial(levels), before)
    requires var s := After(Initial(levels), before);
             && Enabled(s, UserForceStop)
             && Possible(Apply(s, UserForceStop), es) && NotYetStopped(Apply(s, UserForceStop), es)
    ensures Dispatches(es) <= 1
    ensures Dispatches(es) == 1 ==>
              After(Apply(After(Initial(levels), before), UserForceStop), es).runner.phase == Stopped
  {
    InitialInvariant(levels);
    RunKeepsInvariant(Initial(levels), before);
    var s := After(Initial(levels), before);
    ForceStopWindsDown(Committed(s));
    ReachesStopped(s, UserForceStop, es);
  }

  // ---------------------------------------------------------------------------------
  // Without a stop the loop is repeated until the run is done

  predicate NoStops(es: seq<Event>) {
    forall i | 0 <= i < |es| :: !es[i].UserStop? && !es[i].UserForceStop?
  }

  /** Still running, or ended because the run was done. */
  predicate RunsItsCourse(r: Runner)
    requires Coherent(r)
  {
    && !r.forceStop
    && (r.phase == Running
        || ((r.phase == Epilogue || r.phase == Stopped)
            && r.run.Some? && r.run.value.history != [] && IsDone(r.run.value)))
  }

  lemma CourseStep(r: Runner, e: Event)
    requires Acceptable(r, e) && RunsItsCourse(r) && r.phase != Stopped
    requires !e.UserStop? && !e.UserForceStop?
    ensures RunsItsCourse(Reaction(r, e))
  {
  }

  /** A running test that nobody stops leaves RUNNING only once its run is done. */
  lemma {:induction false} RunsUntilDone(s: System, es: seq<Event>)
    requires Invariant(s) && Possible(s, es) && NotYetStopped(s, es) && NoStops(es)
    requires RunsItsCourse(Committed(s))
    ensures RunsItsCourse(Committed(After(s, es)))
    decreases |es|
  {
    if es != [] {
      assert !es[0].UserStop? && !es[0].UserForceStop?;
      StepKeepsInvariant(s, es[0]);
      ReactionIsApplied(s, es[0]);
      ForceOnlyStopping(s);
      CourseStep(Committed(s), es[0]);
      RunsUntilDone(Apply(s, es[0]), es[1..]);
    }
  }

  // ---------------------------------------------------------------------------------
  // Brightness

  /** Outside a run the brightness is the one expected; during a run it is dimmed, and the
      one expected is saved. */
  predicate Lit(r: Runner, expected: Levels) {
    if r.phase == Stopped then r.display.current == expected
    else
      && r.display.saved == expected
      && r.run.Some? && r.display.current == Levels(r.run.value.screenBrightness, 0)
  }

  /** A force-stop in WAITING leaves the dimmed brightness in place. */
  predicate LeavesDimmed(r: Runner, e: Event) {
    e.UserForceStop? && r.phase == Waiting && r.run.Some?
  }

  /** The brightness levels left behind by force-stops in WAITING, in order. */
  function LeftDimmed(s: System, es: seq<Event>): seq<Levels>
    requires Sane(s) && Possible(s, es)
    decreases |es|
  {
    if es == [] then []
    else
      (if LeavesDimmed(s.runner, es[0]) then [Levels(s.runner.run.value.screenBrightness, 0)] else [])
      + LeftDimmed(Apply(s, es[0]), es[1..])
  }

  function ExpectedAfter(r: Runner, e: Event, expected: Levels): Levels {
    if LeavesDimmed(r, e) then Levels(r.run.value.screenBrightness, 0) else expected
  }

  lemma LitStep(r: Runner, e: Event, expected: Levels)
    requires Acceptable(r, e) && Lit(r, expected) && (r.forceStop ==> r.phase == Stopping)
    ensures Lit(Reaction(r, e), ExpectedAfter(r, e, expected))
  {
  }

  lemma {:induction false} LitOverRun(s: System, es: seq<Event>, expected: Levels)
    requires Invariant(s) && Possible(s, es) && Lit(Committed(s), expected)
    ensures Lit(Committed(After(s, es)), Last([expected] + LeftDimmed(s, es)))
    decreases |es|
  {
    if es != [] {
      StepKeepsInvariant(s, es[0]);
      ReactionIsApplied(s, es[0]);
      ForceOnlyStopping(s);
      LitStep(Committed(s), es[0], expected);
      var next := ExpectedAfter(Committed(s), es[0], expected);
      var left := LeftDimmed(Apply(s, es[0]), es[1..]);
      LitOverRun(Apply(s, es[0]), es[1..], next);
      assert LeftDimmed(s, es)
             == (if LeavesDimmed(s.runner, es[0]) then [next] else []) + left;
      LastOfThree(expected, next, left, LeavesDimmed(s.runner, es[0]));
    }
  }

  lemma LastOfThree(first: Levels, next: Levels, left: seq<Levels>, replaced: bool)
    requires !replaced ==> next == first
    ensures Last([first] + ((if replaced then [next] else []) + left)) == Last([next] + left)
  {
  }

  /** Over any sequence of runs, STOPPED shows the brightness held before the first run,
      unless a force-stop in WAITING left a dimmed one behind, which then takes its place. */
  lemma BrightnessRestored(levels: Levels, es: seq<Event>)
    requires Possible(Initial(levels), es) && After(Initial(levels), es).runner.phase == Stopped
    ensures After(Initial(levels), es).runner.display.current
            == Last([levels] + LeftDimmed(Initial(levels), es))
    ensures LeftDimmed(Initial(levels), es) == [] ==>
              After(Initial(levels), es).runner.display.current == levels
  {
    InitialInvariant(levels);
    RunKeepsInvariant(Initial(levels), es);
    LitOverRun(Initial(levels), es, levels);
  }

  /** Such a run: without a prologue, force-stopped before the computer goes off line power. */
  lemma ForceStopLeavesDimmed(levels: Levels, run: Run)
    requires run.test.Some? && run.test.value.prologueFile.None?
    ensures var es := [UserSetRun(run), UserStart, UserForceStop]; var dimmed := Levels(run.screenBrightness, 0);
            && Possible(Initial(levels), es) && LeftDimmed(Initial(levels), es) == [dimmed]
            && After(Initial(levels), es).runner.phase == Stopped
            && After(Initial(levels), es).runner.display.current == dimmed
  {
    var es := [UserSetRun(run), UserStart, UserForceStop];
    var rest, last := es[1..], es[2..];
    assert rest[1..] == last && last[1..] == [];
    var s1 := Apply(Initial(levels), es[0]);
    var s2 := Apply(s1, rest[0]);
    var s3 := Apply(s2, last[0]);
    assert Possible(s3, []) && After(s3, []) == s3 && LeftDimmed(s3, []) == [];
    assert Possible(s2, last) && After(s2, last) == s3 && LeftDimmed(s2, last) == [Levels(run.screenBrightness, 0)];
    assert Possible(s1, rest) && After(s1, rest) == s3 && LeftDimmed(s1, rest) == LeftDimmed(s2, last);
  }

  // ---------------------------------------------------------------------------------
  // The history of the run being recorded

  predicate OffersFreshRuns(es: seq<Event>) {
    forall i | 0 <= i < |es| && es[i].UserSetRun? :: Fresh(es[i].run)
  }

  ghost predicate Recording(r: Runner) {
    r.run.Some? ==> WellBuilt(r.run.value)
  }

  lemma RecordingAdd(run: Run, state: PowerState, wallClock: int)
    requires WellBuilt(run)
    ensures WellBuilt(Add(run, state)) && WellBuilt(Add(run.(startTime := wallClock), state))
  {
    AddKeepsWellBuilt(run, state);
    AddKeepsWellBuilt(run.(startTime := wallClock), state);
  }

  lemma RecordingStep(r: Runner, e: Event)
    requires Acceptable(r, e) && Recording(r) && (e.UserSetRun? ==> Fresh(e.run))
    ensures Recording(Reaction(r, e))
  {
    var run' := Reaction(r, e).run;
    if e.MonitorChanged? && r.run.Some? {
      RecordingAdd(r.run.value, e.state, e.wallClock);
    } else if run' == r.run {
    } else {
      assert e.UserSetRun? && run' == Some(e.run);
    }
  }

  /** In every run of the system the recorded history is thinned and carries its maxima, so
      the bounds on thinned histories hold of the live test run. */
  lemma {:induction false} RecordingOverRun(s: System, es: seq<Event>)
    requires Invariant(s) && Possible(s, es) && Recording(Committed(s)) && OffersFreshRuns(es)
    ensures Recording(Committed(After(s, es)))
    decreases |es|
  {
    if es != [] {
      assert es[0].UserSetRun? ==> Fresh(es[0].run);
      StepKeepsInvariant(s, es[0]);
      ReactionIsApplied(s, es[0]);
      RecordingStep(Committed(s), es[0]);
      RecordingOverRun(Apply(s, es[0]), es[1..]);
    }
  }
}
