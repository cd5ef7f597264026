/** The course of one test: it waits for the battery, records from then on, and ends once its
    run is done, in any interleaving with the playback. */
module TestCourses {
  import opened Common
  import opened PowerMonitor
  import opened TestRuns
  import opened Thinning
  import opened TestRunners
  import opened BenchSystem
  import opened ProtocolProperties
  import opened RunProperties

  /** One "changed" signal of the power monitor. */
  datatype Delivery = Delivery(state: PowerState, wallClock: int)

  function Delivered(es: seq<Event>): seq<Delivery> {
    if es == [] then []
    else (if es[0].MonitorChanged? then [Delivery(es[0].state, es[0].wallClock)] else []) + Delivered(es[1..])
  }

  predicate AllOnline(ds: seq<Delivery>) {
    forall i | 0 <= i < |ds| :: ds[i].state.online
  }

  /** What is left from the first reading off line power on. */
  function FromFirstOffline(ds: seq<Delivery>): (rest: seq<Delivery>)
    ensures |rest| <= |ds|
    ensures rest == [] <==> AllOnline(ds)
    ensures rest != [] ==> !rest[0].state.online
  {
    if ds == [] || !ds[0].state.online then ds else FromFirstOffline(ds[1..])
  }

  function States(ds: seq<Delivery>): (states: seq<PowerState>)
    ensures |states| == |ds| && forall i | 0 <= i < |ds| :: states[i] == ds[i].state
  {
    seq(|ds|, i requires 0 <= i < |ds| => ds[i].state)
  }

  /** The run that a test makes of these signals: it starts at the first one off line power. */
  function RecordedRun(run: Run, ds: seq<Delivery>): Run {
    var kept := FromFirstOffline(ds);
    if kept == [] then run else AddAll(run.(startTime := kept[0].wallClock), States(kept))
  }

  lemma {:induction false} AddAllCons(run: Run, state: PowerState, states: seq<PowerState>)
    ensures AddAll(run, [state] + states) == AddAll(Add(run, state), states)
    decreases |states|
  {
    var all := [state] + states;
    if states == [] {
      assert all[..0] == [] && Last(all) == state;
    } else {
      var front := states[..|states| - 1];
      AddAllCons(run, state, front);
      assert all[..|all| - 1] == [state] + front && Last(all) == Last(states);
    }
  }

  lemma StatesCons(d: Delivery, ds: seq<Delivery>)
    ensures States([d] + ds) == [d.state] + States(ds)
  {
  }

  // ---------------------------------------------------------------------------------
  // The runner by itself

  /** The runner can take these events, and is not in STOPPED before the last of them. */
  predicate Takes(r: Runner, es: seq<Event>)
    decreases |es|
  {
    && Coherent(r) && (r.forceStop ==> r.phase == Stopping)
    && (es == [] || (r.phase != Stopped && Acceptable(r, es[0]) && Takes(Reaction(r, es[0]), es[1..])))
  }

  function Reactions(r: Runner, es: seq<Event>): (r': Runner)
    requires Takes(r, es)
    ensures Coherent(r')
    decreases |es|
  {
    if es == [] then r else Reactions(Reaction(r, es[0]), es[1..])
  }

  /** Until STOPPED, the runner of the system is the runner by itself: the playback decides when
      events come, and not what they do. */
  lemma {:induction false} RunnerByItself(s: System, es: seq<Event>)
    requires Invariant(s) && Possible(s, es) && NotYetStopped(s, es)
    ensures Takes(Committed(s), es) && Reactions(Committed(s), es) == Committed(After(s, es))
    ensures Invariant(After(s, es))
    decreases |es|
  {
    ForceOnlyStopping(s);
    if es != [] {
      StepKeepsInvariant(s, es[0]);
      ReactionIsApplied(s, es[0]);
      RunnerByItself(Apply(s, es[0]), es[1..]);
    }
  }

  // ---------------------------------------------------------------------------------
  // Recording

  /** Readings are recorded in WAITING and RUNNING only. */
  lemma RunIsFrozen(r: Runner, e: Event)
    requires Acceptable(r, e) && r.phase in {Prologue, Stopping, Epilogue}
    ensures Reaction(r, e).run == r.run
  {
  }

  lemma PastRunning(r: Runner, e: Event)
    requires Acceptable(r, e) && r.phase in {Stopping, Epilogue}
    ensures Reaction(r, e).phase in {Stopping, Epilogue, Stopped}
  {
  }

  lemma RunningStep(r: Runner, e: Event)
    requires Acceptable(r, e) && r.phase == Running
    ensures Reaction(r, e).phase in {Running, Stopping, Epilogue, Stopped}
    ensures Reaction(r, e).run == (if e.MonitorChanged? then Some(Add(r.run.value, e.state)) else r.run)
    ensures e.MonitorChanged? ==> Reaction(r, e).phase == Running
  {
  }

  /** Once RUNNING has been left, the run stays as it is until STOPPED. */
  lemma {:induction false} FrozenPastRunning(r: Runner, es: seq<Event>)
    requires Takes(r, es) && r.phase in {Stopping, Epilogue, Stopped}
    ensures Reactions(r, es).run == r.run && Reactions(r, es).phase in {Stopping, Epilogue, Stopped}
    decreases |es|
  {
    if es != [] {
      RunIsFrozen(r, es[0]);
      PastRunning(r, es[0]);
      FrozenPastRunning(Reaction(r, es[0]), es[1..]);
    }
  }

  /** From RUNNING on, the first m signals are recorded, all of them while the test is RUNNING. */
  lemma {:induction false} RunningRecords(r: Runner, es: seq<Event>) returns (m: nat)
    requires Takes(r, es) && r.phase == Running
    ensures m <= |Delivered(es)|
    ensures Reactions(r, es).run == Some(AddAll(r.run.value, States(Delivered(es)[..m])))
    ensures Reactions(r, es).phase == Running ==> m == |Delivered(es)|
    ensures Reactions(r, es).phase in {Running, Stopping, Epilogue, Stopped}
    decreases |es|
  {
    if es == [] {
      m := 0;
    } else {
      var e, next, rest := es[0], Reaction(r, es[0]), es[1..];
      RunningStep(r, e);
      if next.phase != Running {
        FrozenPastRunning(next, rest);
        m := 0;
      } else {
        m := RunningRecords(next, rest);
        if e.MonitorChanged? {
          var d := Delivery(e.state, e.wallClock);
          OneMoreRecorded(r.run.value, d, Delivered(rest), m);
          m := m + 1;
        } else {
          assert Delivered(es) == Delivered(rest);
        }
      }
    }
  }

  lemma OneMoreRecorded(run: Run, d: Delivery, ds: seq<Delivery>, m: nat)
    requires m <= |ds|
    ensures AddAll(run, States(([d] + ds)[..m + 1])) == AddAll(Add(run, d.state), States(ds[..m]))
  {
    assert ([d] + ds)[..m + 1] == [d] + ds[..m];
    StatesCons(d, ds[..m]);
    AddAllCons(run, d.state, States(ds[..m]));
  }

  lemma WaitingStep(r: Runner, e: Event)
    requires Acceptable(r, e) && r.phase == Waiting && !r.forceStop
    requires !e.UserStop? && !e.UserForceStop?
    ensures e.MonitorChanged? && !e.state.online ==>
              && Reaction(r, e).phase == Running && !Reaction(r, e).forceStop
              && Reaction(r, e).run == Some(Add(r.run.value.(startTime := e.wallClock), e.state))
    ensures !(e.MonitorChanged? && !e.state.online) ==>
              Reaction(r, e).phase == Waiting && Reaction(r, e).run == r.run && !Reaction(r, e).forceStop
  {
  }

  /** A waiting runner with this run has become r after these signals, of which m count. */
  ghost predicate WaitedAndRecorded(run: Run, ds: seq<Delivery>, m: nat, r: Runner) {
    && m <= |ds|
    && r.run == Some(RecordedRun(run, ds[..m]))
    && (r.phase == Waiting <==> AllOnline(ds))
    && (r.phase == Waiting || r.phase == Running ==> m == |ds|)
    && (r.phase != Waiting ==> !AllOnline(ds[..m]))
  }

  lemma RecordingStarts(run: Run, d: Delivery, ds: seq<Delivery>, m: nat, r: Runner)
    requires !d.state.online && m <= |ds|
    requires r.run == Some(AddAll(Add(run.(startTime := d.wallClock), d.state), States(ds[..m])))
    requires r.phase == Running ==> m == |ds|
    requires r.phase in {Running, Stopping, Epilogue, Stopped}
    ensures WaitedAndRecorded(run, [d] + ds, m + 1, r)
  {
    OneMoreRecorded(run.(startTime := d.wallClock), d, ds, m);
    assert ([d] + ds)[..m + 1][0] == d && ([d] + ds)[0] == d;
  }

  lemma OnlineSkipped(run: Run, d: Delivery, ds: seq<Delivery>, m: nat, r: Runner)
    requires d.state.online && WaitedAndRecorded(run, ds, m, r)
    ensures WaitedAndRecorded(run, [d] + ds, m + 1, r)
  {
    SkipOnline(d, ds);
    SkipOnline(d, ds[..m]);
    assert ([d] + ds)[..m + 1] == [d] + ds[..m];
  }

  lemma SkipOnline(d: Delivery, ds: seq<Delivery>)
    requires d.state.online
    ensures FromFirstOffline([d] + ds) == FromFirstOffline(ds)
    ensures AllOnline([d] + ds) <==> AllOnline(ds)
  {
    assert ([d] + ds)[1..] == ds;
  }

  /** From WAITING on, without a stop, the run is made of the first m signals: of all of them as
      long as the test is WAITING or RUNNING, and it is WAITING exactly as long as all are on line. */
  lemma {:induction false} WaitingRecords(r: Runner, es: seq<Event>) returns (m: nat)
    requires Takes(r, es) && r.phase == Waiting && NoStops(es)
    ensures WaitedAndRecorded(r.run.value, Delivered(es), m, Reactions(r, es))
    decreases |es|
  {
    if es == [] {
      m := 0;
    } else {
      var e, next, rest := es[0], Reaction(r, es[0]), es[1..];
      NoStopsAfter(es);
      WaitingStep(r, e);
      if e.MonitorChanged? && !e.state.online {
        m := RunningRecords(next, rest);
        RecordingStarts(r.run.value, Delivery(e.state, e.wallClock), Delivered(rest), m, Reactions(r, es));
        m := m + 1;
      } else {
        m := WaitingRecords(next, rest);
        if e.MonitorChanged? {
          OnlineSkipped(r.run.value, Delivery(e.state, e.wallClock), Delivered(rest), m, Reactions(r, es));
          m := m + 1;
        } else {
          assert Delivered(es) == Delivered(rest);
        }
      }
    }
  }

  lemma NoStopsAfter(es: seq<Event>)
    requires NoStops(es) && es != []
    ensures !es[0].UserStop? && !es[0].UserForceStop? && NoStops(es[1..])
  {
    assert forall i | 0 <= i < |es[1..]| :: es[1..][i] == es[i + 1];
  }

  /** Without a stop, RUNNING is left only with a run that is done. */
  lemma {:induction false} LeavesWhenDone(r: Runner, es: seq<Event>)
    requires Takes(r, es) && NoStops(es) && (r.phase == Waiting || RunsItsCourse(r))
    ensures Reactions(r, es).phase == Waiting || RunsItsCourse(Reactions(r, es))
    decreases |es|
  {
    if es != [] {
      NoStopsAfter(es);
      if r.phase == Waiting {
        WaitingStep(r, es[0]);
      } else {
        CourseStep(r, es[0]);
      }
      LeavesWhenDone(Reaction(r, es[0]), es[1..]);
    }
  }

  // ---------------------------------------------------------------------------------
  // In every run of the system

  /** A test is waiting at s, and nobody stops it while the events come, up to STOPPED at most. */
  ghost predicate Unstopped(s: System, es: seq<Event>) {
    Invariant(s) && Possible(s, es) && NotYetStopped(s, es) && NoStops(es) && Committed(s).phase == Waiting
  }

  /** A waiting test waits exactly as long as all readings are on line power, and records none of
      these. */
  lemma WaitsForBattery(s: System, es: seq<Event>)
    requires Unstopped(s, es)
    ensures Committed(After(s, es)).phase == Waiting <==> AllOnline(Delivered(es))
    ensures AllOnline(Delivered(es)) ==> Committed(After(s, es)).run == Committed(s).run
  {
    RunnerByItself(s, es);
    var m := WaitingRecords(Committed(s), es);
    assert AllOnline(Delivered(es)) ==> AllOnline(Delivered(es)[..m]);
  }

  /** As long as the test is WAITING or RUNNING its run is made of all readings from the first one
      off line power on, in order, and of no other. */
  lemma RecordsFromFirstOffline(s: System, es: seq<Event>)
    requires Unstopped(s, es)
    requires Committed(After(s, es)).phase == Waiting || Committed(After(s, es)).phase == Running
    ensures Committed(After(s, es)).run == Some(RecordedRun(Committed(s).run.value, Delivered(es)))
  {
    RunnerByItself(s, es);
    var m := WaitingRecords(Committed(s), es);
    assert Delivered(es)[..m] == Delivered(es);
  }

  /** Such a run starts at the wall clock of that first reading, which is kept. */
  lemma StartsAtFirstOffline(run: Run, ds: seq<Delivery>)
    requires run.history == [] && !AllOnline(ds)
    ensures var first, r := FromFirstOffline(ds)[0], RecordedRun(run, ds);
            && !first.state.online
            && r.startTime == first.wallClock && r.history != [] && r.history[0] == first.state
            && r.duration == run.duration && r.test == run.test
  {
    var kept := FromFirstOffline(ds);
    KeptWereOffered(run.(startTime := kept[0].wallClock), States(kept));
  }

  /** The readings a waiting test has recorded from, and how many of them. */
  lemma CourseRecorded(s: System, es: seq<Event>) returns (m: nat)
    requires Unstopped(s, es)
    ensures WaitedAndRecorded(Committed(s).run.value, Delivered(es), m, Committed(After(s, es)))
    ensures Committed(After(s, es)).phase == Waiting || RunsItsCourse(Committed(After(s, es)))
  {
    RunnerByItself(s, es);
    m := WaitingRecords(Committed(s), es);
    LeavesWhenDone(Committed(s), es);
  }

  lemma {:induction false} PrefixFromFirstOffline(ds: seq<Delivery>, m: nat)
    requires m <= |ds|
    ensures FromFirstOffline(ds[..m]) <= FromFirstOffline(ds)
    decreases m
  {
    if m > 0 && ds[0].state.online {
      var rest := ds[1..];
      PrefixFromFirstOffline(rest, m - 1);
      assert ds == [ds[0]] + rest && ds[..m] == [ds[0]] + rest[..m - 1];
      SkipOnline(ds[0], rest);
      SkipOnline(ds[0], rest[..m - 1]);
    }
  }

  /** Some reading came more than the duration after the first one. */
  predicate PastDuration(seconds: real, ds: seq<Delivery>) {
    exists i | 0 <= i < |ds| :: (ds[i].state.timeUs - ds[0].state.timeUs) as real > seconds * 1000000.0
  }

  /** Some reading is below a percentage. */
  predicate BelowPercent(percent: real, ds: seq<Delivery>) {
    exists i | 0 <= i < |ds| :: Charged(ds[i].state) && Charge(ds[i].state) < percent
  }

  predicate AllCharged(ds: seq<Delivery>) {
    forall i | 0 <= i < |ds| :: Charged(ds[i].state)
  }

  /** What the readings say of the end of a test: for a test down to a percentage, if all of them
      have one. */
  predicate MayEnd(d: Duration, kept: seq<Delivery>) {
    match d
    case Seconds(seconds) => PastDuration(seconds, kept)
    case UntilPercent(percent) => AllCharged(kept) ==> BelowPercent(percent, kept)
  }

  lemma DoneMayEnd(run: Run, ds: seq<Delivery>)
    requires run.history == [] && !AllOnline(ds)
    requires RecordedRun(run, ds).history != [] && IsDone(RecordedRun(run, ds))
    ensures MayEnd(run.duration, FromFirstOffline(ds))
  {
    var kept := FromFirstOffline(ds);
    var started := run.(startTime := kept[0].wallClock);
    KeptWereOffered(started, States(kept));
    if run.duration.Seconds? {
      DoneOnlyPastDuration(started, States(kept));
      var i :| 0 <= i < |kept| && (States(kept)[i].timeUs - States(kept)[0].timeUs) as real
                                  > run.duration.seconds * 1000000.0;
      assert (kept[i].state.timeUs - kept[0].state.timeUs) as real > run.duration.seconds * 1000000.0;
    } else if AllCharged(kept) {
      DoneOnlyBelowTarget(started, States(kept));
      var i :| 0 <= i < |kept| && Charge(States(kept)[i]) < run.duration.percent;
      assert Charged(kept[i].state) && Charge(kept[i].state) < run.duration.percent;
    }
  }

  lemma MayEndGrows(d: Duration, some: seq<Delivery>, kept: seq<Delivery>)
    requires MayEnd(d, some) && some <= kept
    ensures MayEnd(d, kept)
  {
    if d.Seconds? {
      var i :| 0 <= i < |some| && (some[i].state.timeUs - some[0].state.timeUs) as real > d.seconds * 1000000.0;
      assert kept[i] == some[i] && kept[0] == some[0];
    } else if AllCharged(kept) {
      assert forall i | 0 <= i < |some| :: some[i] == kept[i];
      var i :| 0 <= i < |some| && Charged(some[i].state) && Charge(some[i].state) < d.percent;
      assert kept[i] == some[i];
    }
  }

  /** A test that nobody stops has ended only if a reading came more than its duration after the
      first one off line power, or below its percentage. */
  lemma TestLastsItsDuration(s: System, es: seq<Event>)
    requires Unstopped(s, es) && Committed(s).run.value.history == []
    requires Committed(After(s, es)).phase != Waiting && Committed(After(s, es)).phase != Running
    ensures MayEnd(Committed(s).run.value.duration, FromFirstOffline(Delivered(es)))
  {
    var m := CourseRecorded(s, es);
    var run, ds := Committed(s).run.value, Delivered(es);
    DoneMayEnd(run, ds[..m]);
    PrefixFromFirstOffline(ds, m);
    MayEndGrows(run.duration, FromFirstOffline(ds[..m]), FromFirstOffline(ds));
  }

  /** The latest reading came well past the duration, or lies well below the percentage. */
  predicate MustEnd(d: Duration, kept: seq<Delivery>)
    requires kept != []
  {
    var first, latest := kept[0].state, Last(kept).state;
    match d
    case Seconds(seconds) =>
      seconds >= 0.0 && (latest.timeUs - first.timeUs) as real > 1.01 * seconds * 1000000.0
    case UntilPercent(percent) =>
      && AllCharged(kept) && Charge(first) > percent
      && Charge(latest) < percent - 0.005 * (Charge(first) - percent)
  }

  lemma KeptCharged(run: Run, states: seq<PowerState>)
    requires run.history == [] && states != [] && forall i | 0 <= i < |states| :: Charged(states[i])
    ensures AddAll(run, states).history != [] && Charged(Last(AddAll(run, states).history))
  {
    KeptWereOffered(run, states);
    assert Last(AddAll(run, states).history) in states;
  }

  lemma MustEndDone(run: Run, ds: seq<Delivery>)
    requires Fresh(run) && !AllOnline(ds) && MustEnd(run.duration, FromFirstOffline(ds))
    ensures RecordedRun(run, ds).history != [] && IsDone(RecordedRun(run, ds))
  {
    var kept := FromFirstOffline(ds);
    var started, states := run.(startTime := kept[0].wallClock), States(kept);
    var front, latest := states[..|states| - 1], Last(states);
    assert states == front + [latest];
    KeptWereOffered(started, states);
    if run.duration.Seconds? {
      DoneLagTime(started, front, latest);
    } else if front == [] {
      assert false;
    } else {
      KeptWereOffered(started, front);
      KeptCharged(started, front);
      DoneLagPercent(started, front, latest);
    }
  }

  /** While a test that nobody stops is RUNNING, a finished signal plays the loop again if the
      readings do not allow an end, and ends the test if they demand it. */
  lemma NextFinishedSignal(s: System, es: seq<Event>)
    requires Unstopped(s, es) && Fresh(Committed(s).run.value)
    requires Committed(After(s, es)).phase == Running && Enabled(After(s, es), DispatchFinished)
    ensures var kept, next := FromFirstOffline(Delivered(es)), Committed(Apply(After(s, es), DispatchFinished));
            && kept != []
            && (!MayEnd(Committed(s).run.value.duration, kept) ==> next.phase == Running)
            && (MustEnd(Committed(s).run.value.duration, kept) ==> next.phase == Epilogue || next.phase == Stopped)
  {
    RunnerByItself(s, es);
    RecordsFromFirstOffline(s, es);
    WaitsForBattery(s, es);
    var run, ds := Committed(s).run.value, Delivered(es);
    StartsAtFirstOffline(run, ds);
    ReactionIsApplied(After(s, es), DispatchFinished);
    FinishedWhileRunning(Committed(After(s, es)));
    if IsDone(RecordedRun(run, ds)) {
      DoneMayEnd(run, ds);
    } else if MustEnd(run.duration, FromFirstOffline(ds)) {
      MustEndDone(run, ds);
    }
  }

  lemma FinishedWhileRunning(r: Runner)
    requires Coherent(r) && r.phase == Running && !r.forceStop
    ensures Reaction(r, DispatchFinished).phase == Running <==> !IsDone(r.run.value)
    ensures IsDone(r.run.value) ==> Reaction(r, DispatchFinished).phase in {Epilogue, Stopped}
  {
  }

  /** No test leaves WAITING on a reading of adapters one of which is on line. */
  lemma NoStartOnLinePower(s: System, adapters: seq<bool>, batteries: seq<Battery>, now: int, wallClock: int, i: nat)
    requires Invariant(s) && Committed(s).phase == Waiting && i < |adapters| && adapters[i]
    requires Enabled(s, MonitorChanged(Reading(adapters, batteries, now), wallClock))
    ensures var next := Committed(Apply(s, MonitorChanged(Reading(adapters, batteries, now), wallClock)));
            next.phase == Waiting && next.run == Committed(s).run
  {
    ReadingDescribes(adapters, batteries, now);
    ReactionIsApplied(s, MonitorChanged(Reading(adapters, batteries, now), wallClock));
  }

  /** And the first reading with all adapters off line starts it. */
  lemma StartOffLinePower(s: System, adapters: seq<bool>, batteries: seq<Battery>, now: int, wallClock: int)
    requires Invariant(s) && Committed(s).phase == Waiting && forall i | 0 <= i < |adapters| :: !adapters[i]
    requires Enabled(s, MonitorChanged(Reading(adapters, batteries, now), wallClock))
    ensures Committed(Apply(s, MonitorChanged(Reading(adapters, batteries, now), wallClock))).phase == Running
  {
    ReadingDescribes(adapters, batteries, now);
    ReactionIsApplied(s, MonitorChanged(Reading(adapters, batteries, now), wallClock));
  }
}
