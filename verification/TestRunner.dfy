/** src/test-runner.c: the phases of a test. The functions on `Runner` specify the handlers;
    each makes at most one call on the player. */
module TestRunners {
  import opened Common
  import opened PowerMonitor
  import opened TestRuns
  import opened SystemStates
  import opened RemotePlayers

  datatype Phase = Stopped | Prologue | Waiting | Running | Stopping | Epilogue

  datatype Runner = Runner(
    run: Option<Run>,
    phase: Phase,
    stopRequested: bool,
    forceStop: bool,
    display: Display)

  datatype Call = PlayCall(file: string) | StopCall

  /** The runner after a handler, and the call it made on the player. */
  datatype Outcome = Outcome(runner: Runner, call: Option<Call>)

  /** What the code relies on without checking: outside STOPPED there is a run of a known
      test, and in RUNNING the run has a reading. */
  predicate Coherent(r: Runner) {
    && (r.phase != Stopped ==> HasTest(r))
    && (r.phase == Running ==> r.run.value.history != [])
  }

  predicate HasTest(r: Runner) {
    r.run.Some? && r.run.value.test.Some?
  }

  /** Starting a run without a test, as the loader makes it, dereferences a null pointer. */
  predicate Startable(r: Runner) {
    r.phase == Stopped && r.run.Some? ==> HasTest(r)
  }

  function TestOf(r: Runner): BatteryTest
    requires HasTest(r)
  {
    r.run.value.test.value
  }

  function SetStopped(r: Runner): (o: Outcome)
    requires Coherent(r)
    ensures Coherent(o.runner)
  {
    Outcome(r.(display := r.display.(current := r.display.saved), phase := Stopped), None)
  }

  function SetEpilogue(r: Runner): (o: Outcome)
    requires Coherent(r) && HasTest(r)
    ensures Coherent(o.runner)
  {
    match TestOf(r).epilogueFile
    case Some(file) => Outcome(r.(phase := Epilogue), Some(PlayCall(file)))
    case None => SetStopped(r)
  }

  function RequestStop(r: Runner): (o: Outcome)
    requires Coherent(r)
    ensures Coherent(o.runner)
  {
    match r.phase
    case Running => Outcome(r.(phase := Stopping), Some(StopCall))
    case Waiting => SetEpilogue(r)
    case Prologue => Outcome(r.(stopRequested := true), None)
    case _ => Outcome(r, None)
  }

  function PlayerFinished(r: Runner): (o: Outcome)
    requires Coherent(r)
    ensures Coherent(o.runner)
  {
    if r.forceStop then
      SetStopped(r.(forceStop := false))
    else
      match r.phase
      case Prologue =>
        if r.stopRequested then RequestStop(r.(phase := Waiting, stopRequested := false))
        else Outcome(r.(phase := Waiting), None)
      case Running =>
        if IsDone(r.run.value) then SetEpilogue(r)
        else Outcome(r, Some(PlayCall(TestOf(r).loopFile)))
      case Stopping => SetEpilogue(r)
      case Epilogue => SetStopped(r)
      case _ => Outcome(r, None)
  }

  function PowerChanged(r: Runner, state: PowerState, wallClock: int): (o: Outcome)
    requires Coherent(r)
    ensures Coherent(o.runner)
  {
    match r.phase
    case Waiting =>
      if state.online then Outcome(r, None)
      else
        var run := Add(r.run.value.(startTime := wallClock), state);
        Outcome(r.(run := Some(run), phase := Running), Some(PlayCall(TestOf(r).loopFile)))
    case Running => Outcome(r.(run := Some(Add(r.run.value, state))), None)
    case _ => Outcome(r, None)
  }

  function SetRun(r: Runner, run: Run): (o: Outcome)
    requires Coherent(r)
    ensures Coherent(o.runner)
  {
    if r.phase != Stopped then Outcome(r, None) else Outcome(r.(run := Some(run)), None)
  }

  function Start(r: Runner): (o: Outcome)
    requires Coherent(r) && Startable(r)
    ensures Coherent(o.runner)
  {
    if r.phase != Stopped || r.run.None? then Outcome(r, None)
    else
      var dimmed := Display(Levels(r.run.value.screenBrightness, 0), r.display.current);
      match TestOf(r).prologueFile
      case Some(file) => Outcome(r.(display := dimmed, phase := Prologue), Some(PlayCall(file)))
      case None => Outcome(r.(display := dimmed, phase := Waiting), None)
  }

  function ForceStop(r: Runner): (o: Outcome)
    requires Coherent(r)
    ensures Coherent(o.runner)
  {
    match r.phase
    case Stopped => Outcome(r, None)
    case Waiting => Outcome(r.(phase := Stopped), None)
    case Stopping => Outcome(r.(forceStop := true), None)
    case _ => Outcome(r.(phase := Stopping, forceStop := true), Some(StopCall))
  }

  /** What a handler's call does at the client. */
  function Issue(c: Client, call: Option<Call>): (Client, seq<Request>) {
    match call
    case None => (c, [])
    case Some(PlayCall(file)) => PlayFile(c, file)
    case Some(StopCall) => StopPlaying(c)
  }

  class TestRunner {
    const player: RemotePlayer
    const systemState: SystemState
    var run: TestRun?
    var test: Option<BatteryTest>
    var phase: Phase
    var stopRequested: bool
    var forceStop: bool

    function Value(): Runner
      reads this, systemState, run
    {
      Runner(if run == null then None else Some(run.Value()), phase, stopRequested, forceStop, systemState.Value())
    }

    ghost predicate Valid()
      reads this, systemState, run
    {
      && Coherent(Value())
      && (run != null ==> test == run.test)
    }

    /** The new state of runner and client is what the specification says. */
    twostate predicate Did(o: Outcome)
      reads this, systemState, run, player
    {
      && Valid()
      && Value() == o.runner
      && player.Value() == Issue(old(player.Value()), o.call).0
      && player.sent == old(player.sent) + Issue(old(player.Value()), o.call).1
    }

    constructor (player: RemotePlayer, systemState: SystemState)
      ensures Valid() && this.player == player && this.systemState == systemState
      ensures Value() == Runner(None, Stopped, false, false, systemState.Value())
    {
      this.player, this.systemState := player, systemState;
      run, test, phase, stopRequested, forceStop := null, None, Stopped, false, false;
    }

    method RunnerSetStopped()
      requires Valid()
      modifies this`phase, systemState
      ensures Did(SetStopped(old(Value())))
    {
      systemState.Restore();
      phase := Stopped;
    }

    method RunnerSetEpilogue()
      requires Valid() && HasTest(Value())
      modifies this`phase, systemState, player
      ensures Did(SetEpilogue(old(Value())))
    {
      if test.value.epilogueFile.Some? {
        player.PlayFd(test.value.epilogueFile.value);
        phase := Epilogue;
      } else {
        RunnerSetStopped();
      }
    }

    method OnPlayerFinished()
      requires Valid()
      modifies this, systemState, player
      ensures run == old(run) && Did(PlayerFinished(old(Value())))
    {
      if forceStop {
        forceStop := false;
        RunnerSetStopped();
        return;
      }
      if phase == Prologue {
        phase := Waiting;
        if stopRequested {
          stopRequested := false;
          GbbTestRunnerStop();
        }
      } else if phase == Running {
        var done := run.GetIsDone();
        if done {
          RunnerSetEpilogue();
        } else {
          player.PlayFd(test.value.loopFile);
        }
      } else if phase == Stopping {
        RunnerSetEpilogue();
      } else if phase == Epilogue {
        RunnerSetStopped();
      }
    }

    method OnPowerMonitorChanged(currentState: PowerState, wallClock: int)
      requires Valid()
      modifies this, player, run
      ensures run == old(run) && Did(PowerChanged(old(Value()), currentState, wallClock))
    {
      if phase == Waiting {
        if !currentState.online {
          run.SetStartTime(wallClock);
          run.AddState(currentState);
          phase := Running;
          player.PlayFd(test.value.loopFile);
        }
      } else if phase == Running {
        run.AddState(currentState);
      }
    }

    method GbbTestRunnerSetRun(newRun: TestRun)
      requires Valid()
      modifies this
      ensures Did(SetRun(old(Value()), newRun.Value()))
    {
      if phase != Stopped {
        return;
      }
      run := newRun;
      test := newRun.test;
    }

    method GbbTestRunnerStart()
      requires Valid() && Startable(Value())
      modifies this`phase, systemState, player
      ensures Did(Start(old(Value())))
    {
      if phase != Stopped || run == null {
        return;
      }
      systemState.Save();
      systemState.SetBrightnesses(run.screenBrightness, 0);
      if test.value.prologueFile.Some? {
        player.PlayFd(test.value.prologueFile.value);
        phase := Prologue;
      } else {
        phase := Waiting;
      }
    }

    method GbbTestRunnerStop()
      requires Valid()
      modifies this`phase, this`stopRequested, systemState, player
      ensures Did(RequestStop(old(Value())))
    {
      if phase == Waiting || phase == Running {
        if phase == Running {
          player.StopPlayer();
          phase := Stopping;
        } else {
          RunnerSetEpilogue();
        }
      } else if phase == Prologue {
        stopRequested := true;
      }
    }

    method GbbTestRunnerForceStop()
      requires Valid()
      modifies this`phase, this`forceStop, player
      ensures Did(ForceStop(old(Value())))
    {
      match phase {
        case Stopped =>
        case Waiting =>
          phase := Stopped;
        case Stopping =>
          forceStop := true;
        case _ =>
          player.StopPlayer();
          phase := Stopping;
          forceStop := true;
      }
    }
  }
}
