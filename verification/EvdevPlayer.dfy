/** src/evdev-player.c: an event log is read ahead by one event, each event fires from a timer
    set for its scheduled time, and is written to a virtual keyboard or mouse.  Times of the
    clock are in microseconds; the main loop calls the timer some time after it is due. */
module EvdevPlayers {
  import opened Common
  import opened EventLogs

  // ---------------------------------------------------------------------------------
  // The virtual devices

  const EV_SYN := 0
  const EV_KEY := 1
  const EV_REL := 2
  const EV_ABS := 3
  const SYN_REPORT := 0
  const REL_WHEEL := 8
  const ABS_X := 0
  const ABS_Y := 1
  const BTN_LEFT := 0x110
  const BTN_RIGHT := 0x111
  const BTN_MIDDLE := 0x112

  datatype Device = Keyboard | Mouse

  /** One event written to a device. */
  datatype Written = Written(device: Device, kind: int, code: int, value: int)

  function ButtonCode(button: int): int {
    if button == 1 then BTN_LEFT else if button == 2 then BTN_MIDDLE else BTN_RIGHT
  }

  const KEYBOARD_SYNC := Written(Keyboard, EV_SYN, SYN_REPORT, 0)
  const MOUSE_SYNC := Written(Mouse, EV_SYN, SYN_REPORT, 0)

  /** What one log event writes; an unknown name writes nothing. */
  function Inject(e: Event): seq<Written> {
    if e.name == "KeyPress" then [Written(Keyboard, EV_KEY, e.detail, 1), KEYBOARD_SYNC]
    else if e.name == "KeyRelease" then [Written(Keyboard, EV_KEY, e.detail, 0), KEYBOARD_SYNC]
    else if e.name == "ButtonPress" then [Written(Mouse, EV_KEY, ButtonCode(e.detail), 1), MOUSE_SYNC]
    else if e.name == "ButtonRelease" then [Written(Mouse, EV_KEY, ButtonCode(e.detail), 0), MOUSE_SYNC]
    else if e.name == "Wheel" then [Written(Mouse, EV_REL, REL_WHEEL, e.detail), MOUSE_SYNC]
    else if e.name == "MotionNotify" then
      [Written(Mouse, EV_ABS, ABS_X, e.x), Written(Mouse, EV_ABS, ABS_Y, e.y), MOUSE_SYNC]
    else []
  }

  /** The numbers of the Linux input events behind the names: what each kind of line writes. */
  lemma InputCodes(time: int, x: int, y: int, detail: int)
    ensures var sync := Written(Keyboard, 0, 0, 0);
            && Inject(Event("KeyPress", time, x, y, detail)) == [Written(Keyboard, 1, detail, 1), sync]
            && Inject(Event("KeyRelease", time, x, y, detail)) == [Written(Keyboard, 1, detail, 0), sync]
    ensures var sync, code := Written(Mouse, 0, 0, 0), if detail == 1 then 272 else if detail == 2 then 274 else 273;
            && Inject(Event("ButtonPress", time, x, y, detail)) == [Written(Mouse, 1, code, 1), sync]
            && Inject(Event("ButtonRelease", time, x, y, detail)) == [Written(Mouse, 1, code, 0), sync]
    ensures Inject(Event("Wheel", time, x, y, detail)) == [Written(Mouse, 2, 8, detail), Written(Mouse, 0, 0, 0)]
    ensures Inject(Event("MotionNotify", time, x, y, detail))
            == [Written(Mouse, 3, 0, x), Written(Mouse, 3, 1, y), Written(Mouse, 0, 0, 0)]
  {
  }

  /** What is written for an event goes to one device and ends with the only synchronisation. */
  lemma InjectIsOneFrame(e: Event)
    requires Inject(e) != []
    ensures var ws := Inject(e); var n := |ws| - 1;
            && n > 0 && ws[n] == Written(ws[0].device, EV_SYN, SYN_REPORT, 0)
            && forall i | 0 <= i < n :: ws[i].device == ws[0].device && ws[i].kind != EV_SYN
  {
  }

  function InjectAll(events: seq<Event>): seq<Written> {
    if events == [] then []
    else InjectAll(events[..|events| - 1]) + Inject(events[|events| - 1])
  }

  /** The keys and buttons that the devices were created with. */
  predicate HasKey(device: Device, code: int) {
    match device
    case Keyboard => 1 <= code <= 255 - 8
    case Mouse => code == BTN_LEFT || code == BTN_RIGHT || code == BTN_MIDDLE
  }

  /** The codes a device reports as down; it ignores codes it does not have. */
  function Held(ws: seq<Written>, device: Device): set<int> {
    if ws == [] then {}
    else
      var before, w := Held(ws[..|ws| - 1], device), ws[|ws| - 1];
      if w.device != device || w.kind != EV_KEY || !HasKey(device, w.code) then before
      else if w.value == 0 then before - {w.code}
      else before + {w.code}
  }

  // ---------------------------------------------------------------------------------
  // Scheduling

  /** The time an event is scheduled for: the product is a 32-bit unsigned one. */
  function Scheduled(startTime: int, e: Event): int {
    startTime + ToUint32(1000 * e.time)
  }

  /** The delay of the timer, in milliseconds. */
  function Delay(startTime: int, e: Event, now: int): int {
    MaxInt(TruncDiv(Scheduled(startTime, e) - now, 1000), 0)
  }

  /** Waiting `ms` milliseconds from `now` is the longest wait in whole milliseconds that does not
      go past the scheduled time; none at all if that has come. */
  predicate LongestWait(startTime: int, e: Event, now: int, ms: int) {
    && ms >= 0
    && now + 1000 * ms <= MaxInt(Scheduled(startTime, e), now)
    && now + 1000 * ms > Scheduled(startTime, e) - 1000
  }

  lemma DelayIsLongestWait(startTime: int, e: Event, now: int, ms: int)
    ensures LongestWait(startTime, e, now, ms) <==> ms == Delay(startTime, e, now)
  {
  }

  datatype Player = Player(
    startTime: int,
    input: Option<seq<LineResult>>,  // what is left of the open log
    nextEvent: Option<Event>,
    timer: Option<int>,              // when the timer is due
    written: seq<Written>,
    finished: nat,                   // how often "finished" was emitted
    died: bool)                      // the process has ended on a malformed log

  function Queue(p: Player, now: int): Player
    requires p.input.Some? && p.nextEvent.None?
  {
    match NextEvent(p.input.value)
    case EndOfLog => p.(input := Some([]), timer := Some(now))
    case BadLine(rest) => p.(input := Some(rest), died := true)
    case Got(e, rest) =>
      p.(input := Some(rest), nextEvent := Some(e), timer := Some(now + 1000 * Delay(p.startTime, e, now)))
  }

  lemma QueueRead(p: Player, r: ReadResult, rest: seq<LineResult>, now: int)
    requires p.input.Some? && p.nextEvent.None? && IsRead(NextEvent(p.input.value), r, rest)
    ensures Queue(p, now) == p.(
              input := Some(rest),
              nextEvent := if r.ReadOk? then Some(r.event) else None,
              timer := match r
                       case NoEvent => Some(now)
                       case ReadError => p.timer
                       case ReadOk(e) => Some(now + 1000 * Delay(p.startTime, e, now)),
              died := p.died || r.ReadError?)
  {
  }

  function PlayLog(p: Player, log: seq<LineResult>, now: int): Player
    requires p.nextEvent.None?
  {
    Queue(p.(startTime := now, input := Some(log)), now)
  }

  function StopPlay(p: Player): Player
    requires p.input.Some?
  {
    p.(nextEvent := None, timer := None, input := None, finished := p.finished + 1)
  }

  function Timeout(p: Player, now: int): Player
    requires p.input.Some?
  {
    var cleared := p.(nextEvent := None, timer := None);
    match p.nextEvent
    case None => StopPlay(cleared)
    case Some(e) => Queue(cleared.(written := p.written + Inject(e)), now)
  }

  class EvdevPlayer {
    const junk: nat
    var startTime: int
    var input: InputStream?
    var nextEvent: Option<Event>
    var nextEventTimeout: Option<int>
    var written: seq<Written>
    var finished: nat
    var died: bool

    function Value(): Player
      reads this, input
    {
      Player(startTime, if input == null then None else Some(Results(Lines(input.text), junk)),
             nextEvent, nextEventTimeout, written, finished, died)
    }

    constructor (junk: nat)
      ensures this.junk == junk && input == null
      ensures Value() == Player(0, None, None, None, [], 0, false)
    {
      this.junk := junk;
      startTime, input, nextEvent, nextEventTimeout := 0, null, None, None;
      written, finished, died := [], 0, false;
    }

    method Remaining(e: Event, now: int) returns (ms: int)
      ensures LongestWait(startTime, e, now, ms)
    {
      var nextEventTime := startTime + ToUint32(1000 * e.time);
      var remaining := TruncDiv(nextEventTime - now, 1000);
      ms := if remaining > 0 then remaining else 0;
    }

    method QueueEvent(now: int)
      requires input != null && nextEvent.None?
      modifies this`nextEvent, this`nextEventTimeout, this`died, input
      ensures Value() == Queue(old(Value()), now)
    {
      ghost var was := Value();
      var r := GbbEventRead(input, junk);
      QueueRead(was, r, Results(Lines(input.text), junk), now);
      var remaining := 0;
      match r {
        case ReadError =>
          died := true;
          return;
        case ReadOk(e) =>
          nextEvent := Some(e);
          remaining := Remaining(e, now);
          DelayIsLongestWait(startTime, e, now, remaining);
        case NoEvent =>
      }
      nextEventTimeout := Some(now + 1000 * remaining);
    }

    method PlayFd(log: string, now: int)
      requires nextEvent.None?
      modifies this
      ensures Value() == PlayLog(old(Value()), Results(Lines(log), junk), now)
      ensures input != null && fresh(input)
    {
      input := new InputStream(log);
      startTime := now;
      QueueEvent(now);
    }

    method Stop()
      requires input != null
      modifies this
      ensures Value() == StopPlay(old(Value())) && input == null
    {
      nextEvent := None;
      nextEventTimeout := None;
      input := null;
      finished := finished + 1;
    }

    method WriteEvent(device: Device, kind: int, code: int, value: int)
      modifies this`written
      ensures written == old(written) + [Written(device, kind, code, value)]
    {
      written := written + [Written(device, kind, code, value)];
    }

    method WriteLogEvent(e: Event)
      modifies this`written
      ensures written == old(written) + Inject(e)
    {
      if e.name == "KeyPress" {
        WriteEvent(Keyboard, EV_KEY, e.detail, 1);
        WriteEvent(Keyboard, EV_SYN, SYN_REPORT, 0);
      } else if e.name == "KeyRelease" {
        WriteEvent(Keyboard, EV_KEY, e.detail, 0);
        WriteEvent(Keyboard, EV_SYN, SYN_REPORT, 0);
      } else if e.name == "ButtonPress" {
        WriteEvent(Mouse, EV_KEY, ButtonCode(e.detail), 1);
        WriteEvent(Mouse, EV_SYN, SYN_REPORT, 0);
      } else if e.name == "ButtonRelease" {
        WriteEvent(Mouse, EV_KEY, ButtonCode(e.detail), 0);
        WriteEvent(Mouse, EV_SYN, SYN_REPORT, 0);
      } else if e.name == "Wheel" {
        WriteEvent(Mouse, EV_REL, REL_WHEEL, e.detail);
        WriteEvent(Mouse, EV_SYN, SYN_REPORT, 0);
      } else if e.name == "MotionNotify" {
        WriteEvent(Mouse, EV_ABS, ABS_X, e.x);
        WriteEvent(Mouse, EV_ABS, ABS_Y, e.y);
        WriteEvent(Mouse, EV_SYN, SYN_REPORT, 0);
      }
    }

    method NextEventTimeout(now: int)
      requires input != null
      modifies this, input
      ensures Value() == Timeout(old(Value()), now)
    {
      var event := nextEvent;
      nextEvent := None;
      nextEventTimeout := None;
      if event.None? {
        Stop();
        return;
      }
      WriteLogEvent(event.value);
      QueueEvent(now);
    }
  }
}
