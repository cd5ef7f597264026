/** src/event-recorder.c: X events become lines of an event log.  Repeated presses and
    releases of things that are not down are dropped; Super-Q releases everything. */
module EventRecorders {
  import opened Common
  import opened Decimals
  import opened EventLogs

  const KEY_Q := 16
  const KEY_LEFTMETA := 125

  datatype XKind = KeyPress | KeyRelease | ButtonPress | ButtonRelease | MotionNotify | OtherKind

  datatype RawXEvent = XEvent(kind: XKind, detail: int, time: int, rootX: int, rootY: int)

  /** The widths of the fields on the wire. */
  type XEvent = x: RawXEvent |
      0 <= x.detail < 256 && 0 <= x.time < TWO_32
      && -0x8000 <= x.rootX < 0x8000 && -0x8000 <= x.rootY < 0x8000
    witness XEvent(OtherKind, 0, 0, 0, 0)

  /** What the X server hands to the callback. */
  datatype Intercept = StartOfData(serverTime: int) | FromServer(batch: seq<XEvent>) | OtherData

  datatype Recorder = Recorder(startTime: int, keys: seq<int>, buttons: seq<int>, disabled: bool)

  /** A recorder after some input, and the events it dumped for it. */
  datatype Recorded = Recorded(recorder: Recorder, events: seq<Event>)

  function DumpEvent(r: Recorder, name: string, x: XEvent, detail: int): Event {
    Event(name, ToUint32(x.time - r.startTime), x.rootX, x.rootY, detail)
  }

  function DumpAll(r: Recorder, name: string, x: XEvent, details: seq<int>): (events: seq<Event>)
    ensures |events| == |details|
    ensures forall i | 0 <= i < |details| :: events[i] == DumpEvent(r, name, x, details[i])
  {
    seq(|details|, i requires 0 <= i < |details| => DumpEvent(r, name, x, details[i]))
  }

  function RemoveFirst(s: seq<int>, k: int): seq<int> {
    if s == [] then [] else if s[0] == k then s[1..] else [s[0]] + RemoveFirst(s[1..], k)
  }

  /** Super is down and Q is pressed. */
  predicate IsChord(r: Recorder, x: XEvent) {
    x.kind.KeyPress? && KEY_LEFTMETA in r.keys && x.detail - 8 == KEY_Q
  }

  function Flush(r: Recorder, x: XEvent): seq<Event> {
    DumpAll(r, "KeyRelease", x, r.keys) + DumpAll(r, "ButtonRelease", x, r.buttons)
  }

  /** One X event that is not of another kind. */
  function Record(r: Recorder, x: XEvent): Recorded {
    match x.kind
    case KeyPress =>
      var key := x.detail - 8;
      var flushed := if IsChord(r, x) then Flush(r, x) else [];
      var r1 := if IsChord(r, x) then r.(disabled := true) else r;
      if key in r.keys then Recorded(r1, flushed)
      else Recorded(r1.(keys := [key] + r.keys), flushed + [DumpEvent(r, "KeyPress", x, key)])
    case KeyRelease =>
      var key := x.detail - 8;
      if key !in r.keys then Recorded(r, [])
      else Recorded(r.(keys := RemoveFirst(r.keys, key)), [DumpEvent(r, "KeyRelease", x, key)])
    case ButtonPress =>
      var button := x.detail;
      if button == 4 || button == 5 then
        Recorded(r, [DumpEvent(r, "Wheel", x, if button == 4 then 1 else -1)])
      else if button in r.buttons then Recorded(r, [])
      else Recorded(r.(buttons := [button] + r.buttons), [DumpEvent(r, "ButtonPress", x, button)])
    case ButtonRelease =>
      var button := x.detail;
      if button == 4 || button == 5 || button !in r.buttons then Recorded(r, [])
      else Recorded(r.(buttons := RemoveFirst(r.buttons, button)), [DumpEvent(r, "ButtonRelease", x, button)])
    case MotionNotify => Recorded(r, [DumpEvent(r, "MotionNotify", x, 0)])
    case OtherKind => Recorded(r, [])
  }

  function RecordAll(r: Recorder, xs: seq<XEvent>): Recorded {
    if xs == [] then Recorded(r, [])
    else
      var before := RecordAll(r, xs[..|xs| - 1]);
      var last := Record(before.recorder, xs[|xs| - 1]);
      Recorded(last.recorder, before.events + last.events)
  }

  const EVENT_BYTES := 32
  const EVENT_WORDS := 8

  /** How many events of a batch are processed.  The length of the data counts words of four
      bytes, the position in it counts bytes; an event of another kind ends the batch. */
  function TakenLength(batch: seq<XEvent>, from: nat): (n: nat)
    requires from <= |batch|
    ensures from <= n <= |batch|
    decreases |batch| - from
  {
    if EVENT_BYTES * from >= EVENT_WORDS * |batch| || batch[from].kind.OtherKind? then from
    else TakenLength(batch, from + 1)
  }

  /** A batch is processed whole exactly if it has at most one event, of a known kind. */
  lemma BatchTakenWholeIff(batch: seq<XEvent>)
    ensures TakenLength(batch, 0) == |batch| <==> batch == [] || (|batch| == 1 && !batch[0].kind.OtherKind?)
  {
    if |batch| > 1 {
      TakenShort(batch, 0);
    }
  }

  /** Of a batch of events of known kinds a quarter, rounded up, is processed. */
  lemma {:induction false} QuarterTaken(batch: seq<XEvent>, from: nat)
    requires forall i | 0 <= i < |batch| :: !batch[i].kind.OtherKind?
    requires from <= (|batch| + 3) / 4
    ensures (|batch| + 3) / 4 <= |batch| && TakenLength(batch, from) == (|batch| + 3) / 4
    decreases |batch| - from
  {
    if 4 * from < |batch| {
      QuarterTaken(batch, from + 1);
    }
  }

  lemma {:induction false} TakenShort(batch: seq<XEvent>, from: nat)
    requires from < |batch| && |batch| > 1
    ensures TakenLength(batch, from) < |batch|
    decreases |batch| - from
  {
    if from + 1 < |batch| {
      TakenShort(batch, from + 1);
    }
  }

  function Callback(r: Recorder, data: Intercept): Recorded {
    match data
    case StartOfData(serverTime) => Recorded(r.(startTime := serverTime), [])
    case FromServer(batch) => RecordAll(r, batch[..TakenLength(batch, 0)])
    case OtherData => Recorded(r, [])
  }

  ghost predicate IsText(out: string, names: KeyNames, dumped: seq<Event>) {
    out == PrintLog(names, dumped)
  }

  /** The output file is text; `dumped` is the list of events whose lines it holds. */
  class EventRecorder {
    const names: KeyNames
    var startTime: int
    var pressedKeys: seq<int>
    var pressedButtons: seq<int>
    var disabled: bool
    var out: string
    ghost var dumped: seq<Event>

    ghost predicate Valid()
      reads this`out, this`dumped
    {
      IsText(out, names, dumped)
    }

    function Value(): Recorder
      reads this
    {
      Recorder(startTime, pressedKeys, pressedButtons, disabled)
    }

    constructor (names: KeyNames)
      ensures Valid() && this.names == names && dumped == []
      ensures Value() == Recorder(0, [], [], false)
    {
      this.names := names;
      startTime, pressedKeys, pressedButtons, disabled, out, dumped := 0, [], [], false, "", [];
    }

    method Dump(name: string, x: XEvent, detail: int)
      requires Valid()
      modifies this`out, this`dumped
      ensures Valid()
      ensures dumped == old(dumped) + [DumpEvent(Value(), name, x, detail)]
    {
      var comment: Option<string> := None;
      if name == "KeyPress" || name == "KeyRelease" {
        comment := names(detail);
      }
      var time := ToUint32(x.time - startTime);
      var fields := [name, Decimal(time), Decimal(x.rootX), Decimal(x.rootY), Decimal(detail)];
      out := out + (WithComment(Join(fields), comment) + "\n");
      PrintLogAppend(names, dumped, DumpEvent(Value(), name, x, detail));
      dumped := dumped + [DumpEvent(Value(), name, x, detail)];
    }

    method DumpList(name: string, x: XEvent, details: seq<int>)
      requires Valid()
      modifies this`out, this`dumped
      ensures Valid()
      ensures dumped == old(dumped) + DumpAll(Value(), name, x, details)
    {
      ghost var before, all := dumped, DumpAll(Value(), name, x, details);
      for i := 0 to |details|
        invariant Valid() && dumped == before + all[..i]
      {
        Dump(name, x, details[i]);
        AppendTwice(before, all[..i], [all[i]]);
        assert all[..i + 1] == all[..i] + [all[i]];
      }
      assert all[..|details|] == all;
    }

    /** The stop chord: everything pressed is released, and recording is switched off. */
    method ReleaseAll(x: XEvent)
      requires Valid()
      modifies this`out, this`dumped, this`disabled
      ensures Valid() && disabled
      ensures dumped == old(dumped) + Flush(old(Value()), x)
    {
      ghost var before, r := dumped, Value();
      DumpList("KeyRelease", x, pressedKeys);
      DumpList("ButtonRelease", x, pressedButtons);
      AppendTwice(before, DumpAll(r, "KeyRelease", x, r.keys), DumpAll(r, "ButtonRelease", x, r.buttons));
      disabled := true;
    }

    method OnKeyPress(x: XEvent)
      requires x.kind.KeyPress?
      requires Valid()
      modifies this
      ensures Valid()
      ensures Value() == Record(old(Value()), x).recorder
      ensures dumped == old(dumped) + Record(old(Value()), x).events
    {
      var key := x.detail - 8;
      if KEY_LEFTMETA in pressedKeys && key == KEY_Q {
        ReleaseAll(x);
      }
      if key in pressedKeys {
        return;
      }
      pressedKeys := [key] + pressedKeys;
      Dump("KeyPress", x, key);
    }

    method OnKeyRelease(x: XEvent)
      requires x.kind.KeyRelease?
      requires Valid()
      modifies this
      ensures Valid()
      ensures Value() == Record(old(Value()), x).recorder
      ensures dumped == old(dumped) + Record(old(Value()), x).events
    {
      var key := x.detail - 8;
      if key !in pressedKeys {
        return;
      }
      pressedKeys := RemoveFirst(pressedKeys, key);
      Dump("KeyRelease", x, key);
    }

    method OnButtonPress(x: XEvent)
      requires x.kind.ButtonPress?
      requires Valid()
      modifies this
      ensures Valid()
      ensures Value() == Record(old(Value()), x).recorder
      ensures dumped == old(dumped) + Record(old(Value()), x).events
    {
      var button := x.detail;
      if button == 4 || button == 5 {
        Dump("Wheel", x, if button == 4 then 1 else -1);
        return;
      }
      if button in pressedButtons {
        return;
      }
      pressedButtons := [button] + pressedButtons;
      Dump("ButtonPress", x, button);
    }

    method OnButtonRelease(x: XEvent)
      requires x.kind.ButtonRelease?
      requires Valid()
      modifies this
      ensures Valid()
      ensures Value() == Record(old(Value()), x).recorder
      ensures dumped == old(dumped) + Record(old(Value()), x).events
    {
      var button := x.detail;
      if button == 4 || button == 5 {
        return;
      }
      if button !in pressedButtons {
        return;
      }
      pressedButtons := RemoveFirst(pressedButtons, button);
      Dump("ButtonRelease", x, button);
    }

    method OnXEvent(x: XEvent)
      requires !x.kind.OtherKind?
      requires Valid()
      modifies this
      ensures Valid()
      ensures Value() == Record(old(Value()), x).recorder
      ensures dumped == old(dumped) + Record(old(Value()), x).events
    {
      match x.kind {
        case KeyPress => OnKeyPress(x);
        case KeyRelease => OnKeyRelease(x);
        case ButtonPress => OnButtonPress(x);
        case ButtonRelease => OnButtonRelease(x);
        case MotionNotify => Dump("MotionNotify", x, 0);
      }
    }

    method XRecordCallback(data: Intercept)
      requires Valid()
      modifies this
      ensures Valid()
      ensures Value() == Callback(old(Value()), data).recorder
      ensures dumped == old(dumped) + Callback(old(Value()), data).events
    {
      match data {
        case OtherData =>
        case StartOfData(serverTime) => startTime := serverTime;
        case FromServer(batch) => RecordBatch(batch);
      }
    }

    method RecordBatch(batch: seq<XEvent>)
      requires Valid()
      modifies this
      ensures Valid()
      ensures Value() == RecordAll(old(Value()), batch[..TakenLength(batch, 0)]).recorder
      ensures dumped == old(dumped) + RecordAll(old(Value()), batch[..TakenLength(batch, 0)]).events
    {
      var pos := 0;
      ghost var r0, dumped0 := Value(), dumped;
      RecordedAlready(r0, dumped0, batch);
      while EVENT_BYTES * pos < EVENT_WORDS * |batch|
        invariant Valid() && pos <= |batch| && TakenLength(batch, 0) == TakenLength(batch, pos)
        invariant Done(r0, dumped0, batch, pos, Value(), dumped)
      {
        if batch[pos].kind.OtherKind? {
          return;
        }
        ghost var r1, dumped1 := Value(), dumped;
        OnXEvent(batch[pos]);
        OneMoreDone(r0, dumped0, batch, pos, r1, dumped1);
        pos := pos + 1;
      }
    }
  }

  /** The first n events have taken r0 to r, and the dumped events from events0 to events. */
  ghost predicate Done(r0: Recorder, events0: seq<Event>, xs: seq<XEvent>, n: nat, r: Recorder, events: seq<Event>)
    requires n <= |xs|
  {
    RecordAll(r0, xs[..n]).recorder == r && events == events0 + RecordAll(r0, xs[..n]).events
  }

  lemma RecordedAlready(r0: Recorder, events0: seq<Event>, xs: seq<XEvent>)
    ensures Done(r0, events0, xs, 0, r0, events0)
  {
  }

  lemma {:induction false} OneMoreDone(r0: Recorder, events0: seq<Event>, xs: seq<XEvent>, n: nat,
                                       r: Recorder, events: seq<Event>)
    requires n < |xs| && Done(r0, events0, xs, n, r, events)
    ensures Done(r0, events0, xs, n + 1, Record(r, xs[n]).recorder, events + Record(r, xs[n]).events)
  {
    RecordAllStep(r0, xs, n);
    AppendTwice(events0, RecordAll(r0, xs[..n]).events, Record(r, xs[n]).events);
  }

  lemma AppendTwice(a: seq<Event>, b: seq<Event>, c: seq<Event>)
    ensures a + (b + c) == a + b + c
  {
  }

  lemma {:induction false} RecordAllStep(r: Recorder, xs: seq<XEvent>, n: nat)
    requires n < |xs|
    ensures var before := RecordAll(r, xs[..n]); var last := Record(before.recorder, xs[n]);
            RecordAll(r, xs[..n + 1]) == Recorded(last.recorder, before.events + last.events)
  {
    assert xs[..n + 1][..n] == xs[..n];
  }

  lemma {:induction false} RecordAllSnoc(r: Recorder, xs: seq<XEvent>, x: XEvent)
    ensures var before := RecordAll(r, xs); var last := Record(before.recorder, x);
            RecordAll(r, xs + [x]) == Recorded(last.recorder, before.events + last.events)
  {
    assert (xs + [x])[..|xs|] == xs;
  }

  lemma {:induction false} RecordedPrefix(r: Recorder, xs: seq<XEvent>, n: nat)
    requires n <= |xs|
    ensures RecordAll(r, xs[..n]).events <= RecordAll(r, xs).events
    decreases |xs|
  {
    if n < |xs| {
      var front := xs[..|xs| - 1];
      RecordedPrefix(r, front, n);
      assert front[..n] == xs[..n];
    } else {
      assert xs[..n] == xs;
    }
  }

  // ---------------------------------------------------------------------------------
  // Press and release discipline

  /** The presses (true) and releases (false) of one key or button, in order. */
  function Moves(events: seq<Event>, press: string, release: string, k: int): seq<bool> {
    if events == [] then []
    else
      var e := events[|events| - 1];
      Moves(events[..|events| - 1], press, release, k)
      + (if e.detail != k then []
         else if e.name == press then [true]
         else if e.name == release then [false]
         else [])
  }

  function KeyMoves(events: seq<Event>, k: int): seq<bool> {
    Moves(events, "KeyPress", "KeyRelease", k)
  }

  function ButtonMoves(events: seq<Event>, b: int): seq<bool> {
    Moves(events, "ButtonPress", "ButtonRelease", b)
  }

  /** Press, release, press, release, and so on. */
  predicate Alternates(moves: seq<bool>) {
    forall i | 0 <= i < |moves| :: moves[i] == (i % 2 == 0)
  }

  predicate NoDuplicates(s: seq<int>) {
    forall i, j | 0 <= i < j < |s| :: s[i] != s[j]
  }

  /** The moves of every key or button alternate, and exactly those of the list are down. */
  ghost predicate Tracks(events: seq<Event>, press: string, release: string, down: seq<int>) {
    && NoDuplicates(down)
    && forall k: int ::
         && Alternates(Moves(events, press, release, k))
         && (k in down <==> |Moves(events, press, release, k)| % 2 == 1)
  }

  ghost predicate Disciplined(r: Recorder, events: seq<Event>) {
    && Tracks(events, "KeyPress", "KeyRelease", r.keys)
    && Tracks(events, "ButtonPress", "ButtonRelease", r.buttons)
  }

  lemma MovesSnoc(events: seq<Event>, e: Event, press: string, release: string, k: int)
    ensures Moves(events + [e], press, release, k) ==
            Moves(events, press, release, k)
            + (if e.detail != k then []
               else if e.name == press then [true]
               else if e.name == release then [false]
               else [])
  {
    assert (events + [e])[..|events|] == events;
  }

  lemma TracksOther(events: seq<Event>, e: Event, press: string, release: string, down: seq<int>)
    requires Tracks(events, press, release, down) && e.name != press && e.name != release
    ensures Tracks(events + [e], press, release, down)
  {
    forall k: int
      ensures Moves(events + [e], press, release, k) == Moves(events, press, release, k)
    {
      MovesSnoc(events, e, press, release, k);
    }
  }

  lemma TracksPress(events: seq<Event>, e: Event, press: string, release: string, down: seq<int>)
    requires Tracks(events, press, release, down) && e.name == press && e.detail !in down
    ensures Tracks(events + [e], press, release, [e.detail] + down)
  {
    forall k: int
      ensures Alternates(Moves(events + [e], press, release, k))
      ensures k in [e.detail] + down <==> |Moves(events + [e], press, release, k)| % 2 == 1
    {
      MovesSnoc(events, e, press, release, k);
    }
  }

  lemma {:induction false} RemoveFirstIn(s: seq<int>, k: int)
    requires NoDuplicates(s)
    ensures NoDuplicates(RemoveFirst(s, k))
    ensures forall x: int :: x in RemoveFirst(s, k) <==> x in s && x != k
  {
    if s != [] {
      var rest := s[1..];
      assert forall i | 0 <= i < |rest| :: rest[i] == s[i + 1];
      assert s[0] !in rest;
      RemoveFirstIn(rest, k);
      assert s == [s[0]] + rest;
    }
  }

  lemma TracksRelease(events: seq<Event>, e: Event, press: string, release: string,
                      down: seq<int>, down': seq<int>)
    requires Tracks(events, press, release, down) && e.name == release && press != release && e.detail in down
    requires NoDuplicates(down') && forall x: int :: x in down' <==> x in down && x != e.detail
    ensures Tracks(events + [e], press, release, down')
  {
    forall k: int
      ensures Alternates(Moves(events + [e], press, release, k))
      ensures k in down' <==> |Moves(events + [e], press, release, k)| % 2 == 1
    {
      MovesSnoc(events, e, press, release, k);
    }
  }

  /** An ordinary X event prints at most one event, and keeps the discipline. */
  lemma RecordKeepsDiscipline(r: Recorder, events: seq<Event>, x: XEvent)
    requires Disciplined(r, events) && !IsChord(r, x)
    ensures Disciplined(Record(r, x).recorder, events + Record(r, x).events)
    ensures |Record(r, x).events| <= 1
  {
    var printed := Record(r, x).events;
    if printed == [] {
      assert events + printed == events;
    } else {
      var e := printed[0];
      match x.kind {
        case KeyPress =>
          TracksPress(events, e, "KeyPress", "KeyRelease", r.keys);
          TracksOther(events, e, "ButtonPress", "ButtonRelease", r.buttons);
        case KeyRelease =>
          RemoveFirstIn(r.keys, e.detail);
          TracksRelease(events, e, "KeyPress", "KeyRelease", r.keys, RemoveFirst(r.keys, e.detail));
          TracksOther(events, e, "ButtonPress", "ButtonRelease", r.buttons);
        case ButtonPress =>
          TracksOther(events, e, "KeyPress", "KeyRelease", r.keys);
          if e.name == "ButtonPress" {
            TracksPress(events, e, "ButtonPress", "ButtonRelease", r.buttons);
          } else {
            TracksOther(events, e, "ButtonPress", "ButtonRelease", r.buttons);
          }
        case ButtonRelease =>
          RemoveFirstIn(r.buttons, e.detail);
          TracksOther(events, e, "KeyPress", "KeyRelease", r.keys);
          TracksRelease(events, e, "ButtonPress", "ButtonRelease", r.buttons, RemoveFirst(r.buttons, e.detail));
        case _ =>
          TracksOther(events, e, "KeyPress", "KeyRelease", r.keys);
          TracksOther(events, e, "ButtonPress", "ButtonRelease", r.buttons);
      }
    }
  }

  /** The stop chord does not occur. */
  predicate NoChord(r: Recorder, xs: seq<XEvent>) {
    forall i | 0 <= i < |xs| :: !IsChord(RecordAll(r, xs[..i]).recorder, xs[i])
  }

  /** A recorder with nothing down. */
  predicate Idle(r: Recorder) {
    r.keys == [] && r.buttons == []
  }

  /** On the wire the stop chord is a press of code 24 after a press of code 133 that is not
      released. */
  lemma ChordOnWire(r: Recorder, xs: seq<XEvent>, x: XEvent)
    requires Idle(r)
    ensures IsChord(RecordAll(r, xs).recorder, x) <==> x.kind.KeyPress? && x.detail == 24 && KeyDown(xs, 133 - 8)
  {
    PressedListsAreDown(r, xs);
  }

  /** Everything printed for an X event carries its time and place. */
  lemma PrintedWithTimeAndPlace(r: Recorder, x: XEvent)
    ensures forall i | 0 <= i < |Record(r, x).events| ::
              var e := Record(r, x).events[i];
              e.time == ToUint32(x.time - r.startTime) && e.x == x.rootX && e.y == x.rootY
  {
  }

  lemma NoChordPrefix(r: Recorder, xs: seq<XEvent>, n: nat)
    requires NoChord(r, xs) && n <= |xs|
    ensures NoChord(r, xs[..n])
  {
    forall i | 0 <= i < n
      ensures !IsChord(RecordAll(r, xs[..n][..i]).recorder, xs[..n][i])
    {
      assert xs[..n][..i] == xs[..i];
    }
  }

  /** Before the stop chord, presses and releases of each key and button alternate, starting
      with a press, and the pressed lists are the unmatched presses, each once. */
  lemma {:induction false} DisciplineBeforeChord(r: Recorder, xs: seq<XEvent>)
    requires Idle(r) && NoChord(r, xs)
    ensures Disciplined(RecordAll(r, xs).recorder, RecordAll(r, xs).events)
  {
    if xs != [] {
      var n := |xs| - 1;
      NoChordPrefix(r, xs, n);
      DisciplineBeforeChord(r, xs[..n]);
      RecordKeepsDiscipline(RecordAll(r, xs[..n]).recorder, RecordAll(r, xs[..n]).events, xs[n]);
    }
  }

  lemma {:induction false} ReleaseList(events: seq<Event>, r: Recorder, x: XEvent, press: string, release: string,
                                       down: seq<int>)
    requires Tracks(events, press, release, down) && press != release
    ensures Tracks(events + DumpAll(r, release, x, down), press, release, [])
    decreases |down|
  {
    if down == [] {
      assert events + DumpAll(r, release, x, down) == events;
    } else {
      var e, rest := DumpEvent(r, release, x, down[0]), down[1..];
      FirstOfList(down);
      TracksRelease(events, e, press, release, down, rest);
      ReleaseList(events + [e], r, x, press, release, rest);
      assert events + DumpAll(r, release, x, down) == events + [e] + DumpAll(r, release, x, rest);
    }
  }

  lemma FirstOfList(s: seq<int>)
    requires s != [] && NoDuplicates(s)
    ensures NoDuplicates(s[1..]) && forall x: int :: x in s[1..] <==> x in s && x != s[0]
  {
    assert s == [s[0]] + s[1..];
    assert forall i | 0 <= i < |s[1..]| :: s[1..][i] == s[i + 1];
  }

  lemma {:induction false} OtherList(events: seq<Event>, more: seq<Event>, press: string, release: string,
                                     down: seq<int>)
    requires Tracks(events, press, release, down)
    requires forall i | 0 <= i < |more| :: more[i].name != press && more[i].name != release
    ensures Tracks(events + more, press, release, down)
    decreases |more|
  {
    if more == [] {
      assert events + more == events;
    } else {
      TracksOther(events, more[0], press, release, down);
      OtherList(events + [more[0]], more[1..], press, release, down);
      assert events + more == events + [more[0]] + more[1..];
    }
  }

  /** The log up to the end of the Super-Q flush leaves no key and no button down. */
  lemma FlushReleasesAll(r: Recorder, events: seq<Event>, x: XEvent)
    requires Disciplined(r, events)
    ensures Disciplined(r.(keys := [], buttons := []), events + Flush(r, x))
  {
    var keys := DumpAll(r, "KeyRelease", x, r.keys);
    var buttons := DumpAll(r, "ButtonRelease", x, r.buttons);
    ReleaseList(events, r, x, "KeyPress", "KeyRelease", r.keys);
    OtherList(events + keys, buttons, "KeyPress", "KeyRelease", []);
    OtherList(events, keys, "ButtonPress", "ButtonRelease", r.buttons);
    ReleaseList(events + keys, r, x, "ButtonPress", "ButtonRelease", r.buttons);
    assert events + Flush(r, x) == events + keys + buttons;
  }

  /** The keys that the log leaves down after the stop chord. */
  function LeftByChord(r: Recorder): seq<int> {
    if KEY_Q in r.keys then [] else [KEY_Q]
  }

  /** After the chord the log leaves exactly Q down, unless Q was down already, and no button;
      but the lists still hold everything. */
  lemma ChordLeavesQ(r: Recorder, events: seq<Event>, x: XEvent)
    requires Disciplined(r, events) && IsChord(r, x)
    ensures var after := Record(r, x);
            && Tracks(events + after.events, "KeyPress", "KeyRelease", LeftByChord(r))
            && Tracks(events + after.events, "ButtonPress", "ButtonRelease", [])
            && after.recorder == r.(keys := LeftByChord(r) + r.keys, disabled := true)
  {
    FlushReleasesAll(r, events, x);
    var after := Record(r, x);
    if KEY_Q in r.keys {
      assert after.events == Flush(r, x);
    } else {
      var e := DumpEvent(r, "KeyPress", x, KEY_Q);
      TracksPress(events + Flush(r, x), e, "KeyPress", "KeyRelease", []);
      TracksOther(events + Flush(r, x), e, "ButtonPress", "ButtonRelease", []);
      assert events + after.events == events + Flush(r, x) + [e];
      assert [KEY_Q] + [] == [KEY_Q];
    }
  }

  // ---------------------------------------------------------------------------------
  // What is recorded, from the X events alone

  /** The key is down: its latest X event is a press. */
  predicate KeyDown(xs: seq<XEvent>, k: int) {
    xs != [] &&
    var x := xs[|xs| - 1];
    if x.kind.KeyPress? && x.detail - 8 == k then true
    else if x.kind.KeyRelease? && x.detail - 8 == k then false
    else KeyDown(xs[..|xs| - 1], k)
  }

  /** The same for a button; the wheel is never down. */
  predicate ButtonDown(xs: seq<XEvent>, b: int) {
    xs != [] && b != 4 && b != 5 &&
    var x := xs[|xs| - 1];
    if x.kind.ButtonPress? && x.detail == b then true
    else if x.kind.ButtonRelease? && x.detail == b then false
    else ButtonDown(xs[..|xs| - 1], b)
  }

  /** After some X events, one more is news: it moves something, or turns the wheel. */
  predicate IsNews(xs: seq<XEvent>, x: XEvent) {
    match x.kind
    case KeyPress => !KeyDown(xs, x.detail - 8)
    case KeyRelease => KeyDown(xs, x.detail - 8)
    case ButtonPress => !ButtonDown(xs, x.detail)
    case ButtonRelease => ButtonDown(xs, x.detail)
    case MotionNotify => true
    case OtherKind => false
  }

  function News(xs: seq<XEvent>): seq<XEvent> {
    if xs == [] then []
    else
      var front, x := xs[..|xs| - 1], xs[|xs| - 1];
      if IsNews(front, x) then News(front) + [x] else News(front)
  }

  /** An event of the log stands for an X event. */
  predicate StandsFor(startTime: int, e: Event, x: XEvent) {
    && e.time == ToUint32(x.time - startTime) && e.x == x.rootX && e.y == x.rootY
    && match x.kind
       case KeyPress => e.name == "KeyPress" && e.detail == x.detail - 8
       case KeyRelease => e.name == "KeyRelease" && e.detail == x.detail - 8
       case ButtonPress =>
         if x.detail == 4 then e.name == "Wheel" && e.detail == 1
         else if x.detail == 5 then e.name == "Wheel" && e.detail == -1
         else e.name == "ButtonPress" && e.detail == x.detail
       case ButtonRelease => e.name == "ButtonRelease" && e.detail == x.detail
       case MotionNotify => e.name == "MotionNotify" && e.detail == 0
       case OtherKind => false
  }

  /** The lists hold exactly what is down. */
  ghost predicate ListsMatch(r: Recorder, xs: seq<XEvent>) {
    && NoDuplicates(r.keys) && NoDuplicates(r.buttons)
    && (forall k: int :: k in r.keys <==> KeyDown(xs, k))
    && (forall b: int :: b in r.buttons <==> ButtonDown(xs, b))
  }

  lemma {:induction false} RecordKeepsLists(r: Recorder, xs: seq<XEvent>, x: XEvent)
    requires ListsMatch(r, xs)
    ensures ListsMatch(Record(r, x).recorder, xs + [x])
  {
    var r' := Record(r, x).recorder;
    assert (xs + [x])[..|xs|] == xs;
    if x.kind.KeyRelease? {
      RemoveFirstIn(r.keys, x.detail - 8);
    }
    if x.kind.ButtonRelease? {
      RemoveFirstIn(r.buttons, x.detail);
    }
    forall k: int
      ensures k in r'.keys <==> KeyDown(xs + [x], k)
    {
    }
    forall b: int
      ensures b in r'.buttons <==> ButtonDown(xs + [x], b)
    {
    }
  }

  /** At every point, the chord or not, the pressed lists are what is down on the X server. */
  lemma {:induction false} PressedListsAreDown(r: Recorder, xs: seq<XEvent>)
    requires Idle(r)
    ensures ListsMatch(RecordAll(r, xs).recorder, xs)
  {
    if xs != [] {
      var front, x := xs[..|xs| - 1], xs[|xs| - 1];
      PressedListsAreDown(r, front);
      RecordKeepsLists(RecordAll(r, front).recorder, front, x);
      assert front + [x] == xs;
    }
  }

  /** The log stands for these X events, one for one. */
  ghost predicate AllStandFor(startTime: int, events: seq<Event>, xs: seq<XEvent>) {
    |events| == |xs| && forall i | 0 <= i < |xs| :: StandsFor(startTime, events[i], xs[i])
  }

  lemma RecordPrintsNews(r: Recorder, xs: seq<XEvent>, x: XEvent)
    requires ListsMatch(r, xs) && !IsChord(r, x)
    ensures AllStandFor(r.startTime, Record(r, x).events, if IsNews(xs, x) then [x] else [])
    ensures Record(r, x).recorder.startTime == r.startTime
  {
  }

  lemma AllStandForAppend(startTime: int, events: seq<Event>, xs: seq<XEvent>, more: seq<Event>, ys: seq<XEvent>)
    requires AllStandFor(startTime, events, xs) && AllStandFor(startTime, more, ys)
    ensures AllStandFor(startTime, events + more, xs + ys)
  {
  }

  /** One more X event takes the recording from before to after, whichever these are. */
  lemma {:induction false} OneMoreNews(startTime: int, xs: seq<XEvent>, x: XEvent, before: Recorded, after: Recorded)
    requires before.recorder.startTime == startTime && ListsMatch(before.recorder, xs)
    requires AllStandFor(startTime, before.events, News(xs)) && !IsChord(before.recorder, x)
    requires var last := Record(before.recorder, x); after == Recorded(last.recorder, before.events + last.events)
    ensures after.recorder.startTime == startTime
    ensures AllStandFor(startTime, after.events, News(xs + [x]))
  {
    var more, news := Record(before.recorder, x).events, if IsNews(xs, x) then [x] else [];
    RecordPrintsNews(before.recorder, xs, x);
    AllStandForAppend(startTime, before.events, News(xs), more, news);
    assert (xs + [x])[..|xs|] == xs;
    assert News(xs + [x]) == News(xs) + news;
  }

  /** The log so far is the news so far. */
  ghost predicate HoldsTheNews(startTime: int, recorded: Recorded, xs: seq<XEvent>) {
    recorded.recorder.startTime == startTime && AllStandFor(startTime, recorded.events, News(xs))
  }

  lemma {:induction false} NewsStep(r: Recorder, xs: seq<XEvent>, x: XEvent)
    requires Idle(r) && HoldsTheNews(r.startTime, RecordAll(r, xs), xs)
    requires !IsChord(RecordAll(r, xs).recorder, x)
    ensures HoldsTheNews(r.startTime, RecordAll(r, xs + [x]), xs + [x])
  {
    PressedListsAreDown(r, xs);
    RecordAllSnoc(r, xs, x);
    OneMoreNews(r.startTime, xs, x, RecordAll(r, xs), RecordAll(r, xs + [x]));
  }

  lemma NoChordAt(r: Recorder, xs: seq<XEvent>, n: nat)
    requires NoChord(r, xs) && n < |xs|
    ensures !IsChord(RecordAll(r, xs[..n]).recorder, xs[n])
  {
  }

  /** Before the stop chord the log holds one event for each X event that is news, in order,
      and nothing else. */
  lemma {:induction false} RecordsTheNews(r: Recorder, xs: seq<XEvent>)
    requires Idle(r) && NoChord(r, xs)
    ensures HoldsTheNews(r.startTime, RecordAll(r, xs), xs)
  {
    if xs != [] {
      var n := |xs| - 1;
      NoChordPrefix(r, xs, n);
      NoChordAt(r, xs, n);
      RecordsTheNews(r, xs[..n]);
      NewsStep(r, xs[..n], xs[n]);
      assert xs[..n] + [xs[n]] == xs;
    }
  }

  // ---------------------------------------------------------------------------------
  // A whole session: the start of the data, and then any number of callbacks

  lemma {:induction false} RecordAllAppend(r: Recorder, xs: seq<XEvent>, ys: seq<XEvent>)
    ensures var before := RecordAll(r, xs); var after := RecordAll(before.recorder, ys);
            RecordAll(r, xs + ys) == Recorded(after.recorder, before.events + after.events)
    decreases |ys|
  {
    var before := RecordAll(r, xs);
    if ys == [] {
      assert xs + ys == xs && before.events + [] == before.events;
    } else {
      var front, y := ys[..|ys| - 1], ys[|ys| - 1];
      RecordAllAppend(r, xs, front);
      RecordAllSnoc(r, xs + front, y);
      assert xs + ys == xs + front + [y];
      AppendTwice(before.events, RecordAll(before.recorder, front).events,
                  Record(RecordAll(before.recorder, front).recorder, y).events);
    }
  }

  /** The X events that one callback processes. */
  function Taken(data: Intercept): seq<XEvent> {
    if data.FromServer? then data.batch[..TakenLength(data.batch, 0)] else []
  }

  function AllTaken(datas: seq<Intercept>): seq<XEvent> {
    if datas == [] then [] else AllTaken(datas[..|datas| - 1]) + Taken(datas[|datas| - 1])
  }

  /** The callback, called for each piece of data. */
  function Callbacks(r: Recorder, datas: seq<Intercept>): Recorded {
    if datas == [] then Recorded(r, [])
    else
      var before := Callbacks(r, datas[..|datas| - 1]);
      var last := Callback(before.recorder, datas[|datas| - 1]);
      Recorded(last.recorder, before.events + last.events)
  }

  /** Once the start of the data has been seen, the callbacks together record the events of all
      batches as one stream, so all that is said of a stream holds of a session. */
  lemma {:induction false} SessionIsOneRecording(r: Recorder, serverTime: int, datas: seq<Intercept>)
    requires forall i | 0 <= i < |datas| :: !datas[i].StartOfData?
    ensures Callbacks(r, [StartOfData(serverTime)] + datas) == RecordAll(r.(startTime := serverTime), AllTaken(datas))
  {
    var all := [StartOfData(serverTime)] + datas;
    if datas == [] {
      assert all[..0] == [] && all[0] == StartOfData(serverTime);
    } else {
      var front, last := datas[..|datas| - 1], datas[|datas| - 1];
      SessionIsOneRecording(r, serverTime, front);
      assert all[..|all| - 1] == [StartOfData(serverTime)] + front && all[|all| - 1] == last;
      RecordAllAppend(r.(startTime := serverTime), AllTaken(front), Taken(last));
    }
  }

  /** A session before the stop chord: discipline and news, with times since the start. */
  lemma SessionRecordsTheNews(r: Recorder, serverTime: int, datas: seq<Intercept>)
    requires Idle(r) && forall i | 0 <= i < |datas| :: !datas[i].StartOfData?
    requires NoChord(r.(startTime := serverTime), AllTaken(datas))
    ensures var recorded := Callbacks(r, [StartOfData(serverTime)] + datas);
            && Disciplined(recorded.recorder, recorded.events)
            && HoldsTheNews(serverTime, recorded, AllTaken(datas))
  {
    SessionIsOneRecording(r, serverTime, datas);
    DisciplineBeforeChord(r.(startTime := serverTime), AllTaken(datas));
    RecordsTheNews(r.(startTime := serverTime), AllTaken(datas));
  }
}
