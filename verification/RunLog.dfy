/** src/test-run.c, saving and loading: the log array of a run file is delta-encoded and
    quantised to milliseconds and microwatt-hours; loading offers every entry to the thinning. */
module RunLog {
  import opened Common
  import opened PowerMonitor
  import opened TestRuns

  /** The member names that saving and loading look at; every other name is `Other`. */
  datatype Key =
    | DurationSeconds   // "duration-seconds"
    | UntilPercentKey   // "until-percent"
    | LogKey            // "log"
    | TimeMsKey         // "time-ms"
    | OnlineKey         // "online"
    | EnergyKey         // "energy"
    | EnergyFullKey     // "energy-full"
    | EnergyDesignKey   // "energy-full-design"
    | Other(name: string)

  /** A parsed JSON value. */
  datatype Json =
    | JNull
    | JBool(b: bool)
    | JInt(i: int)
    | JDouble(d: real)
    | JString(s: string)
    | JArray(elements: seq<Json>)
    | JObject(members: map<Key, Json>)

  // ---------------------------------------------------------------------------------
  // Saving

  function TimeMs(start: PowerState, state: PowerState): int {
    TruncDiv(500 + state.timeUs - start.timeUs, 1000)
  }

  function Micro(value: real): int {
    Truncate(0.5 + 1000000.0 * value)
  }

  /** The members written for one reading, given the reading written before it. */
  function EncodeState(start: PowerState, last: Option<PowerState>, state: PowerState): map<Key, Json> {
    var m0: map<Key, Json> := map[TimeMsKey := JInt(TimeMs(start, state))];
    var m1 := if last.None? || state.online != last.value.online
              then m0[OnlineKey := JBool(state.online)] else m0;
    var m2 := if state.energyNow >= 0.0
              then m1[EnergyKey := JInt(Micro(state.energyNow))] else m1;
    var m3 := if state.energyFull >= 0.0 && (last.None? || state.energyFull != last.value.energyFull)
              then m2[EnergyFullKey := JInt(Micro(state.energyFull))] else m2;
    if state.energyFullDesign >= 0.0 && (last.None? || state.energyFullDesign != last.value.energyFullDesign)
    then m3[EnergyDesignKey := JInt(Micro(state.energyFullDesign))] else m3
  }

  /** The reading before the last one of a history, if there is one. */
  function Previous(h: seq<PowerState>): Option<PowerState> {
    if |h| <= 1 then None else Some(h[|h| - 2])
  }

  function EncodeLog(h: seq<PowerState>): (log: seq<Json>)
    ensures |log| == |h|
  {
    if h == [] then []
    else EncodeLog(h[..|h| - 1]) + [JObject(EncodeState(h[0], Previous(h), Last(h)))]
  }

  function DurationMember(d: Duration): map<Key, Json> {
    match d
    case Seconds(seconds) => map[DurationSeconds := JDouble(seconds)]
    case UntilPercent(percent) => map[UntilPercentKey := JDouble(percent)]
  }

  /** The root object, restricted to the duration and the log. */
  function SavedFile(run: Run): Json {
    JObject(DurationMember(run.duration)[LogKey := JArray(EncodeLog(run.history))])
  }

  method WriteState(startState: PowerState, lastState: Option<PowerState>, state: PowerState)
    returns (entry: map<Key, Json>)
    ensures entry == EncodeState(startState, lastState, state)
  {
    entry := map[TimeMsKey := JInt(TruncDiv(500 + state.timeUs - startState.timeUs, 1000))];
    if lastState.None? || state.online != lastState.value.online {
      entry := entry[OnlineKey := JBool(state.online)];
    }
    if state.energyNow >= 0.0 {
      entry := entry[EnergyKey := JInt(Micro(state.energyNow))];
    }
    if state.energyFull >= 0.0 && (lastState.None? || state.energyFull != lastState.value.energyFull) {
      entry := entry[EnergyFullKey := JInt(Micro(state.energyFull))];
    }
    if state.energyFullDesign >= 0.0
       && (lastState.None? || state.energyFullDesign != lastState.value.energyFullDesign)
    {
      entry := entry[EnergyDesignKey := JInt(Micro(state.energyFullDesign))];
    }
  }

  method WriteLog(history: seq<PowerState>) returns (log: seq<Json>)
    ensures log == EncodeLog(history)
  {
    log := [];
    var lastState: Option<PowerState> := None;
    for k := 0 to |history|
      invariant lastState == if k == 0 then None else Some(history[k - 1])
      invariant log == EncodeLog(history[..k])
    {
      assert history[..k + 1][..k] == history[..k];
      var entry := WriteState(history[0], lastState, history[k]);
      log := log + [JObject(entry)];
      lastState := Some(history[k]);
    }
    assert history[..|history|] == history;
  }

  method WriteToFile(run: TestRun) returns (root: Json)
    ensures root == SavedFile(run.Value())
  {
    var members: map<Key, Json> := map[];
    match run.durationType {
      case DurationTime =>
        members := members[DurationSeconds := JDouble(run.duration)];
      case DurationPercent =>
        members := members[UntilPercentKey := JDouble(run.duration)];
    }
    var log := WriteLog(run.history);
    members := members[LogKey := JArray(log)];
    root := JObject(members);
  }

  // ---------------------------------------------------------------------------------
  // Loading

  datatype LoadError = RootNotObject | ElementNotObject | WrongType(member: Key)

  /** The outcome of looking up one member. */
  datatype GetResult<+T> = Missing | Error | Ok(value: T)

  function GetDouble(o: map<Key, Json>, name: Key): GetResult<real> {
    if name !in o then Missing
    else match o[name] {
      case JInt(i) => Ok(i as real)
      case JDouble(d) => Ok(d)
      case _ => Error
    }
  }

  function GetInt(o: map<Key, Json>, name: Key): GetResult<int> {
    if name !in o then Missing
    else match o[name] {
      case JInt(i) => Ok(i)
      case _ => Error
    }
  }

  function GetInt1e6(o: map<Key, Json>, name: Key): GetResult<real> {
    if name !in o then Missing
    else match o[name] {
      case JInt(i) => Ok(i as real / 1000000.0)
      case _ => Error
    }
  }

  function GetBoolean(o: map<Key, Json>, name: Key): GetResult<bool> {
    if name !in o then Missing
    else match o[name] {
      case JBool(b) => Ok(b)
      case _ => Error
    }
  }

  function GetArray(o: map<Key, Json>, name: Key): GetResult<seq<Json>> {
    if name !in o then Missing
    else match o[name] {
      case JArray(elements) => Ok(elements)
      case _ => Error
    }
  }

  function ValueOr<T>(r: GetResult<T>, default: T): T {
    if r.Ok? then r.value else default
  }

  /** One entry, read on top of the state that the previous entry left. */
  function DecodeState(carry: PowerState, element: Json): Result<PowerState, LoadError> {
    if !element.JObject? then Failure(ElementNotObject) else
    var o := element.members;
    var time, online := GetInt(o, TimeMsKey), GetBoolean(o, OnlineKey);
    var energy, full, design :=
      GetInt1e6(o, EnergyKey), GetInt1e6(o, EnergyFullKey), GetInt1e6(o, EnergyDesignKey);
    if time.Error? then Failure(WrongType(TimeMsKey))
    else if online.Error? then Failure(WrongType(OnlineKey))
    else if energy.Error? then Failure(WrongType(EnergyKey))
    else if full.Error? then Failure(WrongType(EnergyFullKey))
    else if design.Error? then Failure(WrongType(EnergyDesignKey))
    else Success(PowerState(
                   if time.Ok? then time.value * 1000 else carry.timeUs,
                   ValueOr(online, carry.online),
                   ValueOr(energy, carry.energyNow),
                   ValueOr(full, carry.energyFull),
                   ValueOr(design, carry.energyFullDesign)))
  }

  /** What the next entry is read on top of: the last parsed entry, kept or not. */
  function Carry(parsed: seq<PowerState>): PowerState {
    if parsed == [] then INITIAL_STATE else Last(parsed)
  }

  function DecodeLog(log: seq<Json>): (r: Result<seq<PowerState>, LoadError>)
    ensures r.Success? ==> |r.value| == |log|
  {
    if log == [] then Success([])
    else
      match DecodeLog(log[..|log| - 1])
      case Failure(e) => Failure(e)
      case Success(parsed) =>
        match DecodeState(Carry(parsed), Last(log))
        case Failure(e) => Failure(e)
        case Success(state) => Success(parsed + [state])
  }

  function LoadDuration(o: map<Key, Json>): Result<Duration, LoadError> {
    var seconds, percent := GetDouble(o, DurationSeconds), GetDouble(o, UntilPercentKey);
    if seconds.Error? then Failure(WrongType(DurationSeconds))
    else if percent.Error? then Failure(WrongType(UntilPercentKey))
    else if percent.Ok? then Success(UntilPercent(percent.value))
    else Success(Seconds(ValueOr(seconds, 0.0)))
  }

  function Load(root: Json): Result<Run, LoadError> {
    if !root.JObject? then Failure(RootNotObject) else
    match LoadDuration(root.members)
    case Failure(e) => Failure(e)
    case Success(duration) =>
      var blank := BLANK_RUN.(duration := duration);
      match GetArray(root.members, LogKey)
      case Missing => Success(blank)
      case Error => Failure(WrongType(LogKey))
      case Ok(log) =>
        match DecodeLog(log)
        case Failure(e) => Failure(e)
        case Success(parsed) => Success(AddAll(blank, parsed))
  }

  /** Reads one entry of the log; the members are examined in the order of the source. */
  method ReadState(carry: Option<PowerState>, element: Json) returns (r: Result<PowerState, LoadError>)
    ensures r == DecodeState(if carry.None? then INITIAL_STATE else carry.value, element)
  {
    var state := INITIAL_STATE;
    if carry.Some? {
      state := carry.value;
    }
    if !element.JObject? {
      return Failure(ElementNotObject);
    }
    var o := element.members;
    match GetInt(o, TimeMsKey) {
      case Missing =>
      case Error => return Failure(WrongType(TimeMsKey));
      case Ok(v) => state := state.(timeUs := v * 1000);
    }
    match GetBoolean(o, OnlineKey) {
      case Missing =>
      case Error => return Failure(WrongType(OnlineKey));
      case Ok(v) => state := state.(online := v);
    }
    match GetInt1e6(o, EnergyKey) {
      case Missing =>
      case Error => return Failure(WrongType(EnergyKey));
      case Ok(v) => state := state.(energyNow := v);
    }
    match GetInt1e6(o, EnergyFullKey) {
      case Missing =>
      case Error => return Failure(WrongType(EnergyFullKey));
      case Ok(v) => state := state.(energyFull := v);
    }
    match GetInt1e6(o, EnergyDesignKey) {
      case Missing =>
      case Error => return Failure(WrongType(EnergyDesignKey));
      case Ok(v) => state := state.(energyFullDesign := v);
    }
    r := Success(state);
  }

  method ReadDuration(run: TestRun, o: map<Key, Json>) returns (error: Option<LoadError>)
    requires run.Value() == BLANK_RUN
    modifies run
    ensures error.None? ==> LoadDuration(o).Success?
    ensures error.None? ==> run.Value() == BLANK_RUN.(duration := LoadDuration(o).value)
    ensures error.Some? ==> LoadDuration(o) == Failure(error.value)
  {
    match GetDouble(o, DurationSeconds) {
      case Missing =>
      case Error => return Some(WrongType(DurationSeconds));
      case Ok(v) => run.SetDurationTime(v);
    }
    match GetDouble(o, UntilPercentKey) {
      case Missing =>
      case Error => return Some(WrongType(UntilPercentKey));
      case Ok(v) => run.SetDurationPercent(v);
    }
    error := None;
  }

  /** Offers every entry of the log to the run, stopping at the first malformed one. */
  method ReadLog(run: TestRun, log: seq<Json>) returns (error: Option<LoadError>)
    modifies run
    ensures error.None? ==> DecodeLog(log).Success?
    ensures error.None? ==> run.Value() == AddAll(old(run.Value()), DecodeLog(log).value)
    ensures error.Some? ==> DecodeLog(log) == Failure(error.value)
  {
    var lastState: Option<PowerState> := None;
    ghost var parsed: seq<PowerState> := [];
    for k := 0 to |log|
      invariant DecodeLog(log[..k]) == Success(parsed)
      invariant Carry(parsed) == if lastState.None? then INITIAL_STATE else lastState.value
      invariant run.Value() == AddAll(old(run.Value()), parsed)
    {
      assert log[..k + 1][..k] == log[..k];
      var state := ReadState(lastState, log[k]);
      if state.Failure? {
        FailureStays(log, k + 1);
        return Some(state.error);
      }
      run.AddState(state.value);
      assert (parsed + [state.value])[..|parsed|] == parsed;
      parsed := parsed + [state.value];
      lastState := Some(state.value);
    }
    assert log[..|log|] == log;
    error := None;
  }

  /** Fills a blank run from a file; a run that failed to load is thrown away by the caller. */
  method ReadFromFile(run: TestRun, root: Json) returns (error: Option<LoadError>)
    requires run.Value() == BLANK_RUN
    modifies run
    ensures error.None? <==> Load(root).Success?
    ensures error.None? ==> run.Value() == Load(root).value
    ensures error.Some? ==> Load(root) == Failure(error.value)
  {
    if !root.JObject? {
      return Some(RootNotObject);
    }
    error := ReadDuration(run, root.members);
    if error.Some? {
      return;
    }
    match GetArray(root.members, LogKey) {
      case Missing =>
      case Error => error := Some(WrongType(LogKey));
      case Ok(log) => error := ReadLog(run, log);
    }
  }

  /** An error in the log is final. */
  lemma {:induction false} FailureStays(log: seq<Json>, k: nat)
    requires k <= |log| && DecodeLog(log[..k]).Failure?
    ensures DecodeLog(log) == DecodeLog(log[..k])
  {
    if k == |log| {
      assert log[..k] == log;
    } else {
      var front := log[..|log| - 1];
      assert front[..k] == log[..k];
      FailureStays(front, k);
    }
  }
}
