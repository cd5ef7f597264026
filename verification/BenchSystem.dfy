/** The test runner, the player proxy and the helper together, as one transition system.
    Requests and replies travel in order; a handler of the client runs without interruption,
    except that a Stop call blocks it until the Stop reply has arrived.  Assumed: the player
    is ready before the first start, no message is lost, the helper player is not destroyed,
    and only runs with a test are started.  `Trace` only records what happened; no step looks at it. */
module BenchSystem {
  import opened Common
  import opened PowerMonitor
  import opened TestRuns
  import opened SystemStates
  import opened RemotePlayers
  import opened ReplayHelpers
  import opened TestRunners

  /** How one playback ended: by itself, or by a Stop sent while `target` was outstanding. */
  datatype Ending = Natural | ByStop(target: nat)

  /** One run, from its start on. */
  datatype Episode = Episode(
    test: Option<BatteryTest>,
    plays: seq<string>,          // the files played
    forcedAt: Option<nat>)       // how many had been played at the first force-stop

  datatype Trace = Trace(
    sent: seq<string>,           // files of all Play calls; the index is the serial
    begun: seq<string>,          // files the device player opened
    ended: seq<Ending>,          // how the n-th playback ended
    finished: seq<nat>,          // serials in the order of the finished signals
    refused: nat,                // Play calls answered "Player already playing"
    missed: seq<nat>,            // targets of Stop calls answered "Player stopped"
    stopTarget: nat,             // the Play outstanding when the latest Stop was sent
    episode: Episode)

  datatype System = System(
    runner: Runner,
    client: Client,
    blocked: Option<Runner>,     // in a Stop call; the runner once it returns
    outbox: seq<Request>,        // requests on their way to the helper
    helper: Helper,
    replies: seq<Reply>,         // replies on their way to the client
    inbox: seq<nat>,             // Play replies received and not yet dispatched
    trace: Trace)

  datatype Event =
    | UserSetRun(run: Run)
    | UserStart
    | UserStop
    | UserForceStop
    | MonitorChanged(state: PowerState, wallClock: int)
    | DispatchFinished    // the client's main loop dispatches a Play reply
    | HelperReceives      // the helper handles the next request
    | PlaybackEnds        // the device player reaches the end of its file
    | ClientReceives      // the next reply reaches the client

  function Initial(levels: Levels): System {
    System(
      Runner(None, Stopped, false, false, Display(levels, Levels(0, 0))),
      NEW_CLIENT.(ready := true),
      None, [], IDLE_HELPER, [], [],
      Trace([], [], [], [], 0, [], 0, Episode(None, [], None)))
  }

  predicate Sane(s: System) {
    Coherent(s.runner) && (s.blocked.Some? ==> Coherent(s.blocked.value))
  }

  predicate Enabled(s: System, e: Event) {
    match e
    case UserSetRun(_) => s.blocked.None?
    case UserStart => s.blocked.None? && Startable(s.runner)
    case UserStop => s.blocked.None?
    case UserForceStop => s.blocked.None?
    case MonitorChanged(_, _) => s.blocked.None?
    case DispatchFinished => s.blocked.None? && s.inbox != []
    case HelperReceives => s.outbox != []
    case PlaybackEnds => s.helper.playing.Some?
    case ClientReceives => s.replies != []
  }

  /** Carries out the outcome of a handler. */
  function Commit(s: System, o: Outcome): (s': System)
    requires Sane(s) && Coherent(o.runner)
    ensures Sane(s')
  {
    var (client, requests) := Issue(s.client, o.call);
    var issued := s.(client := client, outbox := s.outbox + requests);
    match o.call
    case None => issued.(runner := o.runner)
    case Some(PlayCall(file)) =>
      var sent := if requests == [] then s.trace.sent else s.trace.sent + [file];
      var episode := s.trace.episode.(plays := s.trace.episode.plays + [file]);
      issued.(runner := o.runner, trace := s.trace.(sent := sent, episode := episode))
    case Some(StopCall) =>
      if requests == [] then issued.(runner := o.runner)
      else
        var target := if s.client.plays > 0 then s.client.plays - 1 else 0;
        issued.(blocked := Some(o.runner), trace := s.trace.(stopTarget := target))
  }

  function NoteStart(s: System): (s': System)
    requires Sane(s)
    ensures Sane(s')
  {
    if s.runner.phase != Stopped || s.runner.run.None? then s
    else s.(trace := s.trace.(episode := Episode(s.runner.run.value.test, [], None)))
  }

  function NoteForceStop(s: System): (s': System)
    requires Sane(s)
    ensures Sane(s')
  {
    var ep := s.trace.episode;
    if s.runner.phase == Stopped || ep.forcedAt.Some? then s
    else s.(trace := s.trace.(episode := ep.(forcedAt := Some(|ep.plays|))))
  }

  function Dispatch(s: System): (s': System)
    requires Sane(s) && s.inbox != []
    ensures Sane(s')
  {
    var received := s.(client := s.client.(started := false),
                       inbox := s.inbox[1..],
                       trace := s.trace.(finished := s.trace.finished + [s.inbox[0]]));
    Commit(received, PlayerFinished(s.runner))
  }

  function Receive(s: System): (s': System)
    requires Sane(s) && s.outbox != []
    ensures Sane(s')
  {
    var taken := s.(outbox := s.outbox[1..]);
    match s.outbox[0]
    case Play(serial, file) =>
      var (helper, replies) := HandlePlay(s.helper, serial, file);
      taken.(helper := helper, replies := s.replies + replies,
             trace := s.trace.(
               begun := if s.helper.playing.None? && helper.playing.Some?
                        then s.trace.begun + [helper.playing.value] else s.trace.begun,
               refused := if PlayReply(serial, false) in replies then s.trace.refused + 1 else s.trace.refused))
    case Stop =>
      var (helper, replies) := HandleStop(s.helper);
      taken.(helper := helper, replies := s.replies + replies,
             trace := s.trace.(
               ended := if s.helper.playing.Some? && helper.playing.None?
                        then s.trace.ended + [ByStop(s.trace.stopTarget)] else s.trace.ended,
               missed := if StopReply(false) in replies
                         then s.trace.missed + [s.trace.stopTarget] else s.trace.missed))
  }

  function EndPlayback(s: System): (s': System)
    requires Sane(s)
    ensures Sane(s')
  {
    var (helper, replies) := StopDevice(s.helper);
    s.(helper := helper, replies := s.replies + replies,
       trace := s.trace.(ended := s.trace.ended + [Natural]))
  }

  function Deliver(s: System): (s': System)
    requires Sane(s) && s.replies != []
    ensures Sane(s')
  {
    var taken := s.(replies := s.replies[1..]);
    match s.replies[0]
    case PlayReply(serial, _) => taken.(inbox := s.inbox + [serial])
    case StopReply(_) =>
      if s.blocked.Some? then taken.(runner := s.blocked.value, blocked := None) else taken
  }

  function Apply(s: System, e: Event): (s': System)
    requires Sane(s) && Enabled(s, e)
    ensures Sane(s')
  {
    match e
    case UserSetRun(run) => Commit(s, SetRun(s.runner, run))
    case UserStart => Commit(NoteStart(s), Start(s.runner))
    case UserStop => Commit(s, RequestStop(s.runner))
    case UserForceStop => Commit(NoteForceStop(s), ForceStop(s.runner))
    case MonitorChanged(state, wallClock) => Commit(s, PowerChanged(s.runner, state, wallClock))
    case DispatchFinished => Dispatch(s)
    case HelperReceives => Receive(s)
    case PlaybackEnds => EndPlayback(s)
    case ClientReceives => Deliver(s)
  }

  /** Every event of the list is possible when it comes. */
  predicate Possible(s: System, es: seq<Event>)
    requires Sane(s)
    decreases |es|
  {
    es == [] || (Enabled(s, es[0]) && Possible(Apply(s, es[0]), es[1..]))
  }

  function After(s: System, es: seq<Event>): (s': System)
    requires Sane(s) && Possible(s, es)
    ensures Sane(s')
    decreases |es|
  {
    if es == [] then s else After(Apply(s, es[0]), es[1..])
  }

  /** The runner as it will be once a pending Stop call has returned. */
  function Committed(s: System): Runner {
    if s.blocked.Some? then s.blocked.value else s.runner
  }
}
