/** src/test-run.c, the live part: a run thins the readings it is offered, keeps two running
    maxima and decides when it is done. `Run` is the value of a `TestRun` object; the functions
    on it specify the methods. */
module TestRuns {
  import opened Common
  import opened Doubles
  import opened PowerMonitor

  /** The event-log files of a battery test; prologue and epilogue are optional. */
  datatype BatteryTest = BatteryTest(prologueFile: Option<string>, loopFile: string, epilogueFile: Option<string>)

  datatype Duration = Seconds(seconds: real) | UntilPercent(percent: real)

  datatype Run = Run(
    test: Option<BatteryTest>,
    screenBrightness: int,
    startTime: int,
    duration: Duration,
    history: seq<PowerState>,
    maxPower: real,
    maxLife: real)

  /** The value of a newly allocated run. */
  const BLANK_RUN := Run(None, 0, 0, Seconds(0.0), [], 0.0, 0.0)

  /** Minimum spacing of kept readings of a timed run, in microseconds. */
  function Spacing(seconds: real): real {
    seconds * 1000000.0 / 100.0
  }

  /** Does a reading go into a history that starts with `start` and ends with `last`? */
  predicate Keeps(d: Duration, start: PowerState, last: PowerState, state: PowerState) {
    match d
    case Seconds(seconds) =>
      (state.timeUs - last.timeUs) as real > Spacing(seconds)
    case UntilPercent(percent) =>
      Exceeds(DividedBy(Minus(Percent(last), Percent(state)), Minus(Percent(start), Finite(percent))), 0.005)
  }

  function Last<T>(s: seq<T>): T
    requires s != []
  {
    s[|s| - 1]
  }

  /** The run after one more reading. */
  function Add(run: Run, state: PowerState): Run {
    var h := run.history;
    if h == [] then
      run.(history := [state])
    else if Keeps(run.duration, h[0], Last(h), state) then
      run.(
        history := h + [state],
        maxLife := MaxReal(ComputeStatistics(h[0], state).batteryLife, run.maxLife),
        maxPower := MaxReal(ComputeStatistics(Last(h), state).power, run.maxPower))
    else
      run
  }

  function AddAll(run: Run, states: seq<PowerState>): Run {
    if states == [] then run else Add(AddAll(run, states[..|states| - 1]), Last(states))
  }

  /** Has the run gone on long enough?  It looks at the kept readings only. */
  predicate IsDone(run: Run)
    requires run.history != []
  {
    match run.duration
    case Seconds(seconds) =>
      (Last(run.history).timeUs - run.history[0].timeUs) as real / 1000000.0 > seconds
    case UntilPercent(percent) =>
      FallsBelow(Percent(Last(run.history)), percent)
  }

  datatype DurationType = DurationTime | DurationPercent

  class TestRun {
    var test: Option<BatteryTest>
    var screenBrightness: int
    var startTime: int
    var durationType: DurationType
    var duration: real
    var history: seq<PowerState>
    var maxPower: real
    var maxLife: real

    function Value(): Run
      reads this
    {
      Run(test, screenBrightness, startTime,
          if durationType.DurationTime? then Seconds(duration) else UntilPercent(duration),
          history, maxPower, maxLife)
    }

    /** A blank object, as the loader starts from. */
    constructor Blank()
      ensures Value() == BLANK_RUN
    {
      test, screenBrightness, startTime := None, 0, 0;
      durationType, duration := DurationTime, 0.0;
      history, maxPower, maxLife := [], 0.0, 0.0;
    }

    constructor ForTest(test: BatteryTest)
      ensures Value() == BLANK_RUN.(test := Some(test))
    {
      this.test, screenBrightness, startTime := Some(test), 0, 0;
      durationType, duration := DurationTime, 0.0;
      history, maxPower, maxLife := [], 0.0, 0.0;
    }

    method SetStartTime(t: int)
      modifies this
      ensures Value() == old(Value()).(startTime := t)
    {
      startTime := t;
    }

    method SetDurationTime(seconds: real)
      modifies this
      ensures Value() == old(Value()).(duration := Seconds(seconds))
    {
      durationType, duration := DurationTime, seconds;
    }

    method SetDurationPercent(percent: real)
      modifies this
      ensures Value() == old(Value()).(duration := UntilPercent(percent))
    {
      durationType, duration := DurationPercent, percent;
    }

    method SetScreenBrightness(brightness: int)
      modifies this
      ensures Value() == old(Value()).(screenBrightness := brightness)
    {
      screenBrightness := brightness;
    }

    method GetIsDone() returns (done: bool)
      requires history != []
      ensures done == IsDone(Value())
    {
      var startState, lastState := history[0], Last(history);
      match durationType {
        case DurationTime =>
          done := (lastState.timeUs - startState.timeUs) as real / 1000000.0 > duration;
        case DurationPercent =>
          done := FallsBelow(Percent(lastState), duration);
      }
    }

    method AddState(state: PowerState)
      modifies this
      ensures Value() == Add(old(Value()), state)
    {
      var useThisState := false;
      if history == [] {
        useThisState := true;
      } else {
        var startState, lastState := history[0], Last(history);
        match durationType {
          case DurationTime =>
            if (state.timeUs - lastState.timeUs) as real > duration * 1000000.0 / 100.0 {
              useThisState := true;
            }
          case DurationPercent =>
            var startPercent := Percent(startState);
            var lastPercent := Percent(lastState);
            var currentPercent := Percent(state);
            if Exceeds(DividedBy(Minus(lastPercent, currentPercent), Minus(startPercent, Finite(duration))), 0.005) {
              useThisState := true;
            }
        }
      }
      if !useThisState {
        return;
      }

      var before := history;
      history := history + [state];
      if before != [] {
        var overall := ComputeStatistics(before[0], state);
        maxLife := MaxReal(overall.batteryLife, maxLife);
        var interval := ComputeStatistics(Last(before), state);
        maxPower := MaxReal(interval.power, maxPower);
      }
    }
  }
}
