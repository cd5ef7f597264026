/** Which keys and buttons the virtual devices hold when the events of a log have been written,
    and how that compares with what the recorder held. */
module Holding {
  import opened EventLogs
  import opened EventRecorders
  import opened EvdevPlayers

  predicate EndsDown(moves: seq<bool>) {
    moves != [] && moves[|moves| - 1]
  }

  lemma HeldTwo(ws: seq<Written>, w: Written, sync: Written, device: Device)
    requires sync.kind != EV_KEY
    ensures Held(ws + [w, sync], device) == Held(ws + [w], device)
  {
    assert (ws + [w, sync])[..|ws| + 1] == ws + [w];
  }

  lemma HeldSnoc(ws: seq<Written>, w: Written, device: Device)
    ensures Held(ws + [w], device) ==
            if w.device != device || w.kind != EV_KEY || !HasKey(device, w.code) then Held(ws, device)
            else if w.value == 0 then Held(ws, device) - {w.code}
            else Held(ws, device) + {w.code}
  {
    assert (ws + [w])[..|ws|] == ws;
  }

  /** The state of a device after one more event. */
  function HeldAfter(held: set<int>, device: Device, e: Event): set<int> {
    var code := if device == Keyboard then e.detail else ButtonCode(e.detail);
    var press, release := if device == Keyboard then "KeyPress" else "ButtonPress",
                          if device == Keyboard then "KeyRelease" else "ButtonRelease";
    if !HasKey(device, code) then held
    else if e.name == press then held + {code}
    else if e.name == release then held - {code}
    else held
  }

  lemma HeldInject(ws: seq<Written>, e: Event, device: Device)
    ensures Held(ws + Inject(e), device) == HeldAfter(Held(ws, device), device, e)
  {
    var inject := Inject(e);
    if inject == [] {
      assert ws + inject == ws;
    } else {
      HeldSnoc(ws, inject[0], device);
      if |inject| == 2 {
        HeldTwo(ws, inject[0], inject[1], device);
      } else {
        HeldSnoc(ws + [inject[0]], inject[1], device);
        HeldTwo(ws + [inject[0]], inject[1], inject[2], device);
        assert ws + inject == ws + [inject[0]] + [inject[1], inject[2]];
      }
    }
  }

  /** Whether something is down after one more event, given whether it was before. */
  predicate DownAfter(down: bool, e: Event, press: string, release: string, k: int) {
    if e.detail == k && e.name == press then true
    else if e.detail == k && e.name == release then false
    else down
  }

  lemma EndsDownStep(events: seq<Event>, press: string, release: string, k: int)
    requires events != []
    ensures var front, e := events[..|events| - 1], events[|events| - 1];
            EndsDown(Moves(events, press, release, k))
            == DownAfter(EndsDown(Moves(front, press, release, k)), e, press, release, k)
  {
  }

  lemma HeldStep(events: seq<Event>, device: Device)
    requires events != []
    ensures var front, e := events[..|events| - 1], events[|events| - 1];
            Held(InjectAll(events), device) == HeldAfter(Held(InjectAll(front), device), device, e)
  {
    HeldInject(InjectAll(events[..|events| - 1]), events[|events| - 1], device);
  }

  /** A key is down on the virtual keyboard exactly if its last move was a press. */
  lemma {:induction false} KeyboardHolds(events: seq<Event>, k: int)
    ensures k in Held(InjectAll(events), Keyboard) <==> 1 <= k <= 247 && EndsDown(KeyMoves(events, k))
  {
    if events != [] {
      KeyboardHolds(events[..|events| - 1], k);
      HeldStep(events, Keyboard);
      EndsDownStep(events, "KeyPress", "KeyRelease", k);
    }
  }

  /** Does this log event move the button with this code? */
  predicate Moving(e: Event) {
    e.name == "ButtonPress" || e.name == "ButtonRelease"
  }

  /** A mouse button is down exactly if the last move of its number was a press, provided no
      other number stands for the same button. */
  lemma {:induction false} MouseHolds(events: seq<Event>, b: int)
    requires forall i | 0 <= i < |events| && Moving(events[i]) ::
               events[i].detail == b || ButtonCode(events[i].detail) != ButtonCode(b)
    ensures ButtonCode(b) in Held(InjectAll(events), Mouse) <==> EndsDown(ButtonMoves(events, b))
  {
    if events != [] {
      var front, e := events[..|events| - 1], events[|events| - 1];
      assert forall i | 0 <= i < |front| :: front[i] == events[i];
      MouseHolds(front, b);
      HeldStep(events, Mouse);
      EndsDownStep(events, "ButtonPress", "ButtonRelease", b);
      assert Moving(e) ==> e.detail == b || ButtonCode(e.detail) != ButtonCode(b);
    }
  }

  lemma AlternatingEndsDown(moves: seq<bool>)
    requires Alternates(moves)
    ensures EndsDown(moves) <==> |moves| % 2 == 1
  {
  }

  /** The keys of the virtual keyboard and the buttons 1 and 2 agree with the pressed lists. */
  ghost predicate HoldsAs(ws: seq<Written>, r: Recorder) {
    && (forall k: int :: k in Held(ws, Keyboard) <==> k in r.keys && 1 <= k <= 247)
    && (ButtonCode(1) in Held(ws, Mouse) <==> 1 in r.buttons)
    && (ButtonCode(2) in Held(ws, Mouse) <==> 2 in r.buttons)
  }

  /** After the events recorded up to a point, the devices hold what the recorder held there. */
  lemma HeldAsRecorded(r: Recorder, xs: seq<XEvent>)
    requires Idle(r) && NoChord(r, xs)
    ensures HoldsAs(InjectAll(RecordAll(r, xs).events), RecordAll(r, xs).recorder)
  {
    var now, events := RecordAll(r, xs).recorder, RecordAll(r, xs).events;
    DisciplineBeforeChord(r, xs);
    HeldAsTracked(events, now.keys);
    MouseHolds(events, 1);
    MouseHolds(events, 2);
    AlternatingEndsDown(ButtonMoves(events, 1));
    AlternatingEndsDown(ButtonMoves(events, 2));
  }

  /** What is down on the virtual mouse has been pressed last under some number. */
  lemma {:induction false} HeldHasNumber(events: seq<Event>, code: int) returns (b: int)
    requires code in Held(InjectAll(events), Mouse)
    ensures ButtonCode(b) == code && EndsDown(ButtonMoves(events, b))
  {
    var front, e := events[..|events| - 1], events[|events| - 1];
    HeldStep(events, Mouse);
    if e.name == "ButtonPress" && ButtonCode(e.detail) == code {
      b := e.detail;
    } else {
      b := HeldHasNumber(front, code);
    }
    EndsDownStep(events, "ButtonPress", "ButtonRelease", b);
  }

  lemma HeldAsTracked(events: seq<Event>, keys: seq<int>)
    requires Tracks(events, "KeyPress", "KeyRelease", keys)
    ensures forall k: int :: k in Held(InjectAll(events), Keyboard) <==> k in keys && 1 <= k <= 247
  {
    forall k: int
      ensures k in Held(InjectAll(events), Keyboard) <==> k in keys && 1 <= k <= 247
    {
      KeyboardHolds(events, k);
      AlternatingEndsDown(KeyMoves(events, k));
    }
  }

  lemma NoButtonHeld(events: seq<Event>)
    requires Tracks(events, "ButtonPress", "ButtonRelease", [])
    ensures Held(InjectAll(events), Mouse) == {}
  {
    forall code | code in Held(InjectAll(events), Mouse)
      ensures false
    {
      var b := HeldHasNumber(events, code);
      AlternatingEndsDown(ButtonMoves(events, b));
    }
  }

  lemma AtMostQHeld(events: seq<Event>, keys: seq<int>)
    requires Tracks(events, "KeyPress", "KeyRelease", keys) && (keys == [] || keys == [KEY_Q])
    ensures Held(InjectAll(events), Keyboard) == if keys == [] then {} else {KEY_Q}
  {
    HeldAsTracked(events, keys);
    var held := Held(InjectAll(events), Keyboard);
    forall k | k in held
      ensures k in keys
    {
      KeyboardHolds(events, k);
      assert k in keys;
    }
    if keys != [] {
      assert KEY_Q in held;
    }
  }

  /** After the stop chord the devices hold Q, unless it was down before, and nothing else. */
  lemma HeldAfterChord(r: Recorder, events: seq<Event>, x: XEvent)
    requires Disciplined(r, events) && IsChord(r, x)
    ensures Held(InjectAll(events + Record(r, x).events), Keyboard) == if KEY_Q in r.keys then {} else {KEY_Q}
    ensures Held(InjectAll(events + Record(r, x).events), Mouse) == {}
  {
    ChordLeavesQ(r, events, x);
    AtMostQHeld(events + Record(r, x).events, LeftByChord(r));
    NoButtonHeld(events + Record(r, x).events);
  }

  // ---------------------------------------------------------------------------------
  // The right button, which every button but the first two moves

  /** A button besides the three and the wheel. */
  predicate Side(button: int) {
    button < 1 || button > 5
  }

  /** A side button that goes down finds the right one down, and one that goes up finds it up. */
  predicate Nests(xs: seq<XEvent>, x: XEvent) {
    && (x.kind.ButtonPress? && Side(x.detail) && !ButtonDown(xs, x.detail) ==> ButtonDown(xs, 3))
    && (x.kind.ButtonRelease? && Side(x.detail) && ButtonDown(xs, x.detail) ==> !ButtonDown(xs, 3))
  }

  predicate NestedUpTo(xs: seq<XEvent>, n: nat)
    requires n <= |xs|
  {
    forall i | 0 <= i < n :: Nests(xs[..i], xs[i])
  }

  predicate SideButtonsNested(xs: seq<XEvent>) {
    NestedUpTo(xs, |xs|)
  }

  predicate RightHeld(events: seq<Event>) {
    ButtonCode(3) in Held(InjectAll(events), Mouse)
  }

  /** The virtual right button agrees with the recorder's list. */
  predicate RightAgrees(recorded: Recorded) {
    RightHeld(recorded.events) <==> 3 in recorded.recorder.buttons
  }

  lemma RightAfterEvent(events: seq<Event>, e: Event)
    ensures RightHeld(events + [e])
            <==> (if Moving(e) && e.detail != 1 && e.detail != 2 then e.name == "ButtonPress" else RightHeld(events))
  {
    assert (events + [e])[..|events|] == events;
    HeldStep(events + [e], Mouse);
  }

  /** The lists after an event of a button. */
  lemma ThirdInList(r: Recorder, x: XEvent)
    requires NoDuplicates(r.buttons)
    ensures 3 in Record(r, x).recorder.buttons
            <==> (if x.kind.ButtonPress? && x.detail == 3 then true
                  else if x.kind.ButtonRelease? && x.detail == 3 then false
                  else 3 in r.buttons)
  {
    if x.kind.ButtonRelease? {
      RemoveFirstIn(r.buttons, x.detail);
    }
  }

  /** A recorded move of a button comes from an X event of that button. */
  lemma PrintedMove(r: Recorder, x: XEvent)
    requires !IsChord(r, x)
    ensures |Record(r, x).events| <= 1
    ensures Record(r, x).events != [] ==>
              var e := Record(r, x).events[0];
              && (Moving(e) <==> x.kind.ButtonRelease? || (x.kind.ButtonPress? && x.detail != 4 && x.detail != 5))
              && (Moving(e) ==> e.detail == x.detail && (e.name == "ButtonPress" <==> x.kind.ButtonPress?))
  {
  }

  /** What an ordinary X event prints, as far as the right button is concerned. */
  lemma RightAfterRecord(r: Recorder, events: seq<Event>, x: XEvent)
    requires !IsChord(r, x)
    ensures RightHeld(events + Record(r, x).events)
            <==> (if x.kind.ButtonPress? && (x.detail == 3 || Side(x.detail)) && x.detail !in r.buttons then true
                  else if x.kind.ButtonRelease? && (x.detail == 3 || Side(x.detail)) && x.detail in r.buttons then false
                  else RightHeld(events))
  {
    var printed := Record(r, x).events;
    PrintedMove(r, x);
    if printed == [] {
      assert events + printed == events;
    } else {
      assert printed == [printed[0]];
      RightAfterEvent(events, printed[0]);
    }
  }

  /** One X event keeps the agreement exactly if it nests. */
  lemma RightAgreesStep(before: Recorded, xs: seq<XEvent>, x: XEvent, after: Recorded)
    requires ListsMatch(before.recorder, xs) && !IsChord(before.recorder, x) && RightAgrees(before)
    requires after.recorder == Record(before.recorder, x).recorder
    requires after.events == before.events + Record(before.recorder, x).events
    ensures RightAgrees(after) <==> Nests(xs, x)
  {
    ThirdInList(before.recorder, x);
    RightAfterRecord(before.recorder, before.events, x);
  }

  ghost predicate RightAgreesUpTo(r: Recorder, xs: seq<XEvent>, n: nat)
    requires n <= |xs|
  {
    forall m | 0 <= m <= n :: RightAgrees(RecordAll(r, xs[..m]))
  }

  ghost predicate RightAlwaysAgrees(r: Recorder, xs: seq<XEvent>) {
    RightAgreesUpTo(r, xs, |xs|)
  }

  lemma {:induction false} RightAgreesUpToIff(r: Recorder, xs: seq<XEvent>, n: nat)
    requires Idle(r) && NoChord(r, xs) && n <= |xs|
    ensures RightAgreesUpTo(r, xs, n) <==> NestedUpTo(xs, n)
  {
    if n > 0 {
      var m := n - 1;
      RightAgreesUpToIff(r, xs, m);
      if NestedUpTo(xs, m) {
        NoChordAt(r, xs, m);
        PressedListsAreDown(r, xs[..m]);
        RecordAllStep(r, xs, m);
        RightAgreesStep(RecordAll(r, xs[..m]), xs[..m], xs[m], RecordAll(r, xs[..n]));
      }
    }
  }

  /** Before the stop chord the virtual right button agrees with the recorder at every point of a
      stream exactly if the side buttons nest, a condition on the X events alone. */
  lemma RightAlwaysAgreesIff(r: Recorder, xs: seq<XEvent>)
    requires Idle(r) && NoChord(r, xs)
    ensures RightAlwaysAgrees(r, xs) <==> SideButtonsNested(xs)
  {
    RightAgreesUpToIff(r, xs, |xs|);
  }

  /** No button but the three, and the wheel. */
  predicate OrdinaryMouse(xs: seq<XEvent>) {
    forall i | 0 <= i < |xs| && (xs[i].kind.ButtonPress? || xs[i].kind.ButtonRelease?) :: 1 <= xs[i].detail <= 5
  }

  lemma OrdinaryMouseNests(xs: seq<XEvent>)
    requires OrdinaryMouse(xs)
    ensures SideButtonsNested(xs)
  {
  }

  /** Releasing a side button lifts the right button of the virtual mouse, whatever else is
      held. */
  lemma SideButtonLiftsRight(r: Recorder, events: seq<Event>, x: XEvent)
    requires x.kind.ButtonRelease? && x.detail > 5 && x.detail in r.buttons
    ensures ButtonCode(3) !in Held(InjectAll(events + Record(r, x).events), Mouse)
  {
    var e := DumpEvent(r, "ButtonRelease", x, x.detail);
    assert (events + [e])[..|events|] == events;
    HeldStep(events + [e], Mouse);
  }

  /** So without the condition on buttons the right one can differ: press 3, press 8, and
      release 8. */
  lemma SideButtonReleasesRight(r: Recorder, a: XEvent, b: XEvent, c: XEvent)
    requires Idle(r)
    requires a == XEvent(XKind.ButtonPress, 3, 0, 0, 0)
    requires b == XEvent(XKind.ButtonPress, 8, 0, 0, 0)
    requires c == XEvent(XKind.ButtonRelease, 8, 0, 0, 0)
    ensures var recorded := RecordAll(r, [a, b] + [c]);
            3 in recorded.recorder.buttons && ButtonCode(3) !in Held(InjectAll(recorded.events), Mouse)
  {
    RecordAllSnoc(r, [], a);
    RecordAllSnoc(r, [a], b);
    RecordAllSnoc(r, [a, b], c);
    assert [] + [a] == [a] && [a] + [b] == [a, b];
    SideButtonLiftsRight(RecordAll(r, [a, b]).recorder, RecordAll(r, [a, b]).events, c);
  }
}
