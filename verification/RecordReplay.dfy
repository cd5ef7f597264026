/** Record, print, parse and replay together: what the virtual devices hold while a printed
    recording is played is what the recorder held, and what was down on the X server. */
module RecordReplay {
  import opened Common
  import opened EventLogs
  import opened EventRecorders
  import opened EvdevPlayers
  import opened Holding
  import opened Pointers
  import opened Replay

  // ---------------------------------------------------------------------------------
  // Everything recorded can be printed and read back

  predicate Letters(s: string) {
    forall i | 0 <= i < |s| :: 'A' <= s[i] <= 'z'
  }

  lemma LettersArePlain(s: string)
    requires Letters(s)
    ensures PlainName(s)
  {
  }

  lemma PlainNames()
    ensures PlainName("KeyPress") && PlainName("KeyRelease")
    ensures PlainName("ButtonPress") && PlainName("ButtonRelease")
    ensures PlainName("Wheel") && PlainName("MotionNotify")
  {
    LettersArePlain("KeyPress");
    LettersArePlain("KeyRelease");
    LettersArePlain("ButtonPress");
    LettersArePlain("ButtonRelease");
    LettersArePlain("Wheel");
    LettersArePlain("MotionNotify");
  }

  /** Keys and buttons as they come from the wire. */
  ghost predicate OnWire(r: Recorder) {
    && (forall k | k in r.keys :: -8 <= k < 248)
    && (forall b | b in r.buttons :: 0 <= b < 256)
  }

  lemma DumpPrintable(r: Recorder, name: string, x: XEvent, detail: int)
    requires PlainName(name) && -TWO_31 <= detail < TWO_31
    ensures Printable(DumpEvent(r, name, x, detail))
  {
  }

  predicate AllPrintable(events: seq<Event>) {
    forall i | 0 <= i < |events| :: Printable(events[i])
  }

  lemma FlushPrintable(r: Recorder, x: XEvent)
    requires OnWire(r)
    ensures AllPrintable(Flush(r, x))
  {
    PlainNames();
    forall k | k in r.keys
      ensures Printable(DumpEvent(r, "KeyRelease", x, k))
    {
      DumpPrintable(r, "KeyRelease", x, k);
    }
    forall b | b in r.buttons
      ensures Printable(DumpEvent(r, "ButtonRelease", x, b))
    {
      DumpPrintable(r, "ButtonRelease", x, b);
    }
  }

  lemma RecordPrintable(r: Recorder, x: XEvent)
    requires OnWire(r)
    ensures AllPrintable(Record(r, x).events)
  {
    PlainNames();
    match x.kind {
      case KeyPress =>
        FlushPrintable(r, x);
        DumpPrintable(r, "KeyPress", x, x.detail - 8);
      case KeyRelease => DumpPrintable(r, "KeyRelease", x, x.detail - 8);
      case ButtonPress =>
        DumpPrintable(r, "ButtonPress", x, x.detail);
        DumpPrintable(r, "Wheel", x, if x.detail == 4 then 1 else -1);
      case ButtonRelease => DumpPrintable(r, "ButtonRelease", x, x.detail);
      case MotionNotify => DumpPrintable(r, "MotionNotify", x, 0);
      case OtherKind =>
    }
  }

  lemma {:induction false} RemoveFirstWithin(s: seq<int>, k: int)
    ensures forall x | x in RemoveFirst(s, k) :: x in s
  {
    if s != [] {
      RemoveFirstWithin(s[1..], k);
      assert s == [s[0]] + s[1..];
    }
  }

  lemma RecordOnWire(r: Recorder, x: XEvent)
    requires OnWire(r)
    ensures OnWire(Record(r, x).recorder)
  {
    RemoveFirstWithin(r.keys, x.detail - 8);
    RemoveFirstWithin(r.buttons, x.detail);
  }

  lemma AppendPrintable(a: seq<Event>, b: seq<Event>)
    requires AllPrintable(a) && AllPrintable(b)
    ensures AllPrintable(a + b)
  {
  }

  lemma {:induction false} RecordingPrintable(r: Recorder, xs: seq<XEvent>)
    requires OnWire(r)
    ensures OnWire(RecordAll(r, xs).recorder) && AllPrintable(RecordAll(r, xs).events)
  {
    if xs != [] {
      var n := |xs| - 1;
      var before := RecordAll(r, xs[..n]);
      RecordingPrintable(r, xs[..n]);
      RecordOnWire(before.recorder, xs[n]);
      RecordPrintable(before.recorder, xs[n]);
      AppendPrintable(before.events, Record(before.recorder, xs[n]).events);
    }
  }

  // ---------------------------------------------------------------------------------
  // Playing what was recorded

  /** A playback to come: names for the comments of the log, a player at rest, when it starts,
      how late its timers are, and what new memory holds. */
  datatype Setting = Setting(names: KeyNames, player: Player, start: int, latencies: seq<nat>, junk: nat)

  ghost predicate Ready(s: Setting, events: seq<Event>) {
    && OneLineNames(s.names)
    && AtRest(s.player) && s.player.written == [] && s.player.finished == 0
    && |s.latencies| >= |events|
  }

  /** What has been written when the first n events of the printed log have fired. */
  ghost function Writes(s: Setting, events: seq<Event>, n: nat): seq<Written>
    requires Ready(s, events) && n <= |events|
  {
    Played(PlayLog(s.player, Results(Lines(PrintLog(s.names, events)), s.junk), s.start), s.latencies[..n]).written
  }

  lemma WritesFollowEvents(s: Setting, events: seq<Event>, n: nat)
    requires Ready(s, events) && AllPrintable(events) && n <= |events|
    ensures Writes(s, events, n) == InjectAll(events[..n])
  {
    var log := Results(Lines(PrintLog(s.names, events)), s.junk);
    ParsePrintedLog(s.names, events, s.junk);
    PlaybackFollowsLog(s.player, log, s.start, events, s.latencies[..n]);
  }

  /** How many events had been recorded at a point of the stream. */
  function RecordedBy(r: Recorder, xs: seq<XEvent>, point: nat): (n: nat)
    requires point <= |xs|
    ensures n <= |RecordAll(r, xs).events|
  {
    RecordedPrefix(r, xs, point);
    |RecordAll(r, xs[..point]).events|
  }

  /** What has been written of a recording when as many events have fired as had been recorded
      at a point. */
  ghost function WritesAt(s: Setting, r: Recorder, xs: seq<XEvent>, point: nat): seq<Written>
    requires Ready(s, RecordAll(r, xs).events) && point <= |xs|
  {
    Writes(s, RecordAll(r, xs).events, RecordedBy(r, xs, point))
  }

  /** Recording, printing, parsing and playing, the stop chord or not: at every point exactly the
      events recorded by then have been written. */
  lemma WrittenAtPoint(s: Setting, r: Recorder, xs: seq<XEvent>, point: nat)
    requires OnWire(r) && Ready(s, RecordAll(r, xs).events) && point <= |xs|
    ensures WritesAt(s, r, xs, point) == InjectAll(RecordAll(r, xs[..point]).events)
  {
    var events := RecordAll(r, xs).events;
    RecordingPrintable(r, xs);
    RecordedPrefix(r, xs, point);
    WritesFollowEvents(s, events, RecordedBy(r, xs, point));
    assert events[..RecordedBy(r, xs, point)] == RecordAll(r, xs[..point]).events;
  }

  /** The right button of the virtual mouse agrees with the recorder's list at every point. */
  ghost predicate RightReproduced(s: Setting, r: Recorder, xs: seq<XEvent>)
    requires Ready(s, RecordAll(r, xs).events)
  {
    forall point | 0 <= point <= |xs| ::
      ButtonCode(3) in Held(WritesAt(s, r, xs, point), Mouse) <==> 3 in RecordAll(r, xs[..point]).recorder.buttons
  }

  /** Record a stream without the stop chord, print it, and play the text.  At every point the
      virtual devices hold exactly the keys that the virtual keyboard has and the buttons 1 and 2
      that the recorder held there; and button 3 too, at every point, exactly if the side buttons
      nest in it. */
  lemma ReplayReproducesRecording(s: Setting, r: Recorder, xs: seq<XEvent>)
    requires Idle(r) && NoChord(r, xs) && Ready(s, RecordAll(r, xs).events)
    ensures forall point | 0 <= point <= |xs| ::
              HoldsAs(WritesAt(s, r, xs, point), RecordAll(r, xs[..point]).recorder)
    ensures RightReproduced(s, r, xs) <==> SideButtonsNested(xs)
  {
    forall point | 0 <= point <= |xs|
      ensures WritesAt(s, r, xs, point) == InjectAll(RecordAll(r, xs[..point]).events)
      ensures HoldsAs(WritesAt(s, r, xs, point), RecordAll(r, xs[..point]).recorder)
    {
      WrittenAtPoint(s, r, xs, point);
      NoChordPrefix(r, xs, point);
      HeldAsRecorded(r, xs[..point]);
    }
    RightAlwaysAgreesIff(r, xs);
  }

  /** So with an ordinary mouse the three buttons are reproduced. */
  lemma OrdinaryMouseReproduced(s: Setting, r: Recorder, xs: seq<XEvent>)
    requires Idle(r) && NoChord(r, xs) && Ready(s, RecordAll(r, xs).events) && OrdinaryMouse(xs)
    ensures RightReproduced(s, r, xs)
  {
    OrdinaryMouseNests(xs);
    ReplayReproducesRecording(s, r, xs);
  }

  /** The same without the recorder: the virtual devices hold what was down on the X server. */
  lemma ReplayHoldsWhatWasDown(s: Setting, r: Recorder, xs: seq<XEvent>, point: nat)
    requires Idle(r) && NoChord(r, xs) && Ready(s, RecordAll(r, xs).events) && point <= |xs|
    ensures var ws, sofar := WritesAt(s, r, xs, point), xs[..point];
            && (forall k: int :: k in Held(ws, Keyboard) <==> KeyDown(sofar, k) && 1 <= k <= 247)
            && (ButtonCode(1) in Held(ws, Mouse) <==> ButtonDown(sofar, 1))
            && (ButtonCode(2) in Held(ws, Mouse) <==> ButtonDown(sofar, 2))
            && (SideButtonsNested(xs) ==> (ButtonCode(3) in Held(ws, Mouse) <==> ButtonDown(sofar, 3)))
  {
    ReplayReproducesRecording(s, r, xs);
    PressedListsAreDown(r, xs[..point]);
    assert HoldsAs(WritesAt(s, r, xs, point), RecordAll(r, xs[..point]).recorder);
  }

  /** Playing a recording that ends with the stop chord leaves Q down on the virtual keyboard,
      unless it was down before the chord, and nothing else, and no button. */
  lemma ReplayOfChordLeavesQ(s: Setting, r: Recorder, xs: seq<XEvent>, x: XEvent)
    requires Idle(r) && NoChord(r, xs) && IsChord(RecordAll(r, xs).recorder, x)
    requires Ready(s, RecordAll(r, xs + [x]).events)
    ensures var ws := WritesAt(s, r, xs + [x], |xs| + 1);
            && Held(ws, Keyboard) == (if KeyDown(xs, KEY_Q) then {} else {KEY_Q})
            && Held(ws, Mouse) == {}
  {
    var before := RecordAll(r, xs);
    WrittenAtPoint(s, r, xs + [x], |xs| + 1);
    assert (xs + [x])[..|xs| + 1] == xs + [x];
    RecordAllSnoc(r, xs, x);
    DisciplineBeforeChord(r, xs);
    PressedListsAreDown(r, xs);
    HeldAfterChord(before.recorder, before.events, x);
  }

  /** At every point of any stream, the stop chord or not, the virtual pointer is where the pointer
      of the X server was last seen to move, and the virtual wheel has turned as far as the real
      one. */
  lemma ReplayMovesThePointer(s: Setting, r: Recorder, xs: seq<XEvent>, point: nat)
    requires OnWire(r) && Ready(s, RecordAll(r, xs).events) && point <= |xs|
    ensures var ws, sofar := WritesAt(s, r, xs, point), xs[..point];
            && Axis(ws, ABS_X) == (if MovedTo(sofar).Some? then Some(MovedTo(sofar).value.x) else None)
            && Axis(ws, ABS_Y) == (if MovedTo(sofar).Some? then Some(MovedTo(sofar).value.y) else None)
            && Turned(ws) == WheelTurns(sofar)
  {
    WrittenAtPoint(s, r, xs, point);
    MotionRecorded(r, xs[..point]);
    PointerFollows(RecordAll(r, xs[..point]).events);
  }
}
