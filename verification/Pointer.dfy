/** Where the virtual pointer is and how far the virtual wheel has turned when the events of a
    log have been written, and what that says about the recorded X events. */
module Pointers {
  import opened Common
  import opened EventLogs
  import opened EventRecorders
  import opened EvdevPlayers

  /** The latest position on one axis of the mouse. */
  function Axis(ws: seq<Written>, code: int): Option<int> {
    if ws == [] then None
    else
      var w := ws[|ws| - 1];
      if w.device == Mouse && w.kind == EV_ABS && w.code == code then Some(w.value) else Axis(ws[..|ws| - 1], code)
  }

  /** How far the wheel has turned up. */
  function Turned(ws: seq<Written>): int {
    if ws == [] then 0
    else
      var w := ws[|ws| - 1];
      Turned(ws[..|ws| - 1]) + if w.device == Mouse && w.kind == EV_REL && w.code == REL_WHEEL then w.value else 0
  }

  datatype Point = Point(x: int, y: int)

  /** The place of the latest motion in a log. */
  function LastMotion(events: seq<Event>): Option<Point> {
    if events == [] then None
    else
      var e := events[|events| - 1];
      if e.name == "MotionNotify" then Some(Point(e.x, e.y)) else LastMotion(events[..|events| - 1])
  }

  function WheelSum(events: seq<Event>): int {
    if events == [] then 0
    else
      var e := events[|events| - 1];
      WheelSum(events[..|events| - 1]) + if e.name == "Wheel" then e.detail else 0
  }

  lemma AxisSnoc(ws: seq<Written>, w: Written, code: int)
    ensures Axis(ws + [w], code) ==
            if w.device == Mouse && w.kind == EV_ABS && w.code == code then Some(w.value) else Axis(ws, code)
    ensures Turned(ws + [w]) ==
            Turned(ws) + if w.device == Mouse && w.kind == EV_REL && w.code == REL_WHEEL then w.value else 0
  {
    assert (ws + [w])[..|ws|] == ws;
  }

  lemma AxisTwo(ws: seq<Written>, w: Written, v: Written, code: int)
    ensures Axis(ws + [w, v], code) == Axis(ws + [w] + [v], code) && Turned(ws + [w, v]) == Turned(ws + [w] + [v])
  {
    assert ws + [w, v] == ws + [w] + [v];
  }

  lemma InjectMoves(ws: seq<Written>, e: Event, code: int)
    ensures Axis(ws + Inject(e), code) ==
            if e.name == "MotionNotify" && code == ABS_X then Some(e.x)
            else if e.name == "MotionNotify" && code == ABS_Y then Some(e.y)
            else Axis(ws, code)
    ensures Turned(ws + Inject(e)) == Turned(ws) + if e.name == "Wheel" then e.detail else 0
  {
    var inject := Inject(e);
    if inject == [] {
      assert ws + inject == ws;
    } else if |inject| == 2 {
      AxisTwo(ws, inject[0], inject[1], code);
      AxisSnoc(ws, inject[0], code);
      AxisSnoc(ws + [inject[0]], inject[1], code);
    } else {
      assert ws + inject == ws + [inject[0]] + [inject[1], inject[2]];
      AxisTwo(ws + [inject[0]], inject[1], inject[2], code);
      AxisSnoc(ws, inject[0], code);
      AxisSnoc(ws + [inject[0]], inject[1], code);
      AxisSnoc(ws + [inject[0]] + [inject[1]], inject[2], code);
    }
  }

  /** After any events the pointer is where the latest motion was, both axes, and the wheel has
      turned by the sum of the wheel events. */
  lemma {:induction false} PointerFollows(events: seq<Event>)
    ensures var ws, last := InjectAll(events), LastMotion(events);
            && Axis(ws, ABS_X) == (if last.Some? then Some(last.value.x) else None)
            && Axis(ws, ABS_Y) == (if last.Some? then Some(last.value.y) else None)
    ensures Turned(InjectAll(events)) == WheelSum(events)
  {
    if events != [] {
      var front, e := events[..|events| - 1], events[|events| - 1];
      PointerFollows(front);
      InjectMoves(InjectAll(front), e, ABS_X);
      InjectMoves(InjectAll(front), e, ABS_Y);
    }
  }

  // ---------------------------------------------------------------------------------
  // The X events

  /** Where the pointer of the X server was last seen to move. */
  function MovedTo(xs: seq<XEvent>): Option<Point> {
    if xs == [] then None
    else
      var x := xs[|xs| - 1];
      if x.kind.MotionNotify? then Some(Point(x.rootX, x.rootY)) else MovedTo(xs[..|xs| - 1])
  }

  /** Turns of the wheel: button 4 is up, button 5 is down. */
  function WheelTurns(xs: seq<XEvent>): int {
    if xs == [] then 0
    else
      var x := xs[|xs| - 1];
      WheelTurns(xs[..|xs| - 1])
      + if x.kind.ButtonPress? && x.detail == 4 then 1 else if x.kind.ButtonPress? && x.detail == 5 then -1 else 0
  }

  lemma MotionSnoc(events: seq<Event>, e: Event)
    ensures LastMotion(events + [e]) == if e.name == "MotionNotify" then Some(Point(e.x, e.y)) else LastMotion(events)
    ensures WheelSum(events + [e]) == WheelSum(events) + if e.name == "Wheel" then e.detail else 0
  {
    assert (events + [e])[..|events|] == events;
  }

  lemma {:induction false} NoMotion(events: seq<Event>, more: seq<Event>)
    requires forall i | 0 <= i < |more| :: more[i].name != "MotionNotify" && more[i].name != "Wheel"
    ensures LastMotion(events + more) == LastMotion(events) && WheelSum(events + more) == WheelSum(events)
    decreases |more|
  {
    if more == [] {
      assert events + more == events;
    } else {
      var front := more[..|more| - 1];
      assert forall i | 0 <= i < |front| :: front[i] == more[i];
      NoMotion(events, front);
      MotionSnoc(events + front, more[|more| - 1]);
      assert events + more == events + front + [more[|more| - 1]];
    }
  }

  /** Only motions and turns of the wheel are recorded as such. */
  lemma RecordMoves(r: Recorder, events: seq<Event>, x: XEvent)
    ensures LastMotion(events + Record(r, x).events) ==
            if x.kind.MotionNotify? then Some(Point(x.rootX, x.rootY)) else LastMotion(events)
    ensures WheelSum(events + Record(r, x).events) == WheelSum(events)
            + if x.kind.ButtonPress? && x.detail == 4 then 1 else if x.kind.ButtonPress? && x.detail == 5 then -1 else 0
  {
    var printed := Record(r, x).events;
    if x.kind.MotionNotify? || (x.kind.ButtonPress? && (x.detail == 4 || x.detail == 5)) {
      assert printed == [printed[0]];
      MotionSnoc(events, printed[0]);
    } else {
      NoMotion(events, printed);
    }
  }

  /** Whatever the stream, the log has its latest motion and all turns of its wheel. */
  lemma {:induction false} MotionRecorded(r: Recorder, xs: seq<XEvent>)
    ensures LastMotion(RecordAll(r, xs).events) == MovedTo(xs)
    ensures WheelSum(RecordAll(r, xs).events) == WheelTurns(xs)
  {
    if xs != [] {
      var n := |xs| - 1;
      MotionRecorded(r, xs[..n]);
      RecordMoves(RecordAll(r, xs[..n]).recorder, RecordAll(r, xs[..n]).events, xs[n]);
    }
  }
}
