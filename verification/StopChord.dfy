/** What the recorder prints after the stop chord.  It goes on with its lists as they were, so
    beside the list there is a second state: what the log leaves down.  As long as nothing
    disturbs it, the list is what was down at the chord together with what the log leaves down. */
module StopChords {
  import opened EventLogs
  import opened EventRecorders

  /** An X event that makes the recorder print a release of something the log does not hold:
      a second press of Q, or a release of what was down at the chord. */
  predicate Disturbs(atChord: Recorder, y: XEvent) {
    || (y.kind.KeyPress? && y.detail - 8 == KEY_Q)
    || (y.kind.KeyRelease? && y.detail - 8 in atChord.keys)
    || (y.kind.ButtonRelease? && y.detail != 4 && y.detail != 5 && y.detail in atChord.buttons)
  }

  ghost predicate AllAlternate(events: seq<Event>) {
    forall k: int :: Alternates(KeyMoves(events, k)) && Alternates(ButtonMoves(events, k))
  }

  /** The list holds what was down at the chord, and besides what the log leaves down. */
  ghost predicate Splits(list: seq<int>, atChord: seq<int>, live: seq<int>) {
    && NoDuplicates(list)
    && (forall k: int :: k in list <==> k in atChord || k in live)
    && (forall k: int :: k in live ==> k !in atChord)
  }

  /** `live` is a recorder that would have printed the log from nothing. */
  ghost predicate Beside(atChord: Recorder, r: Recorder, live: Recorder, log: seq<Event>) {
    && KEY_LEFTMETA in atChord.keys && live.startTime == r.startTime
    && Disciplined(live, log)
    && Splits(r.keys, atChord.keys, live.keys)
    && Splits(r.buttons, atChord.buttons, live.buttons)
  }

  lemma BesideAtChord(r: Recorder, events: seq<Event>, x: XEvent) returns (live: Recorder)
    requires Disciplined(r, events) && IsChord(r, x)
    ensures Beside(r, Record(r, x).recorder, live, events + Record(r, x).events)
  {
    ChordLeavesQ(r, events, x);
    live := r.(keys := LeftByChord(r), buttons := []);
  }

  lemma SplitsAdd(list: seq<int>, atChord: seq<int>, live: seq<int>, k: int)
    requires Splits(list, atChord, live) && k !in list
    ensures Splits([k] + list, atChord, [k] + live)
  {
  }

  lemma SplitsRemove(list: seq<int>, atChord: seq<int>, live: seq<int>, k: int)
    requires Splits(list, atChord, live) && NoDuplicates(live) && k !in atChord
    ensures Splits(RemoveFirst(list, k), atChord, RemoveFirst(live, k))
  {
    RemoveFirstIn(list, k);
    RemoveFirstIn(live, k);
  }

  /** What an undisturbing event does to both states. */
  lemma UndisturbedLists(atChord: Recorder, r: Recorder, live: Recorder, log: seq<Event>, y: XEvent)
    requires Beside(atChord, r, live, log) && !Disturbs(atChord, y) && Record(r, y).events != []
    ensures Record(live, y).events == Record(r, y).events
    ensures Splits(Record(r, y).recorder.keys, atChord.keys, Record(live, y).recorder.keys)
    ensures Splits(Record(r, y).recorder.buttons, atChord.buttons, Record(live, y).recorder.buttons)
  {
    match y.kind {
      case KeyPress => SplitsAdd(r.keys, atChord.keys, live.keys, y.detail - 8);
      case KeyRelease => SplitsRemove(r.keys, atChord.keys, live.keys, y.detail - 8);
      case ButtonPress =>
        if y.detail != 4 && y.detail != 5 {
          SplitsAdd(r.buttons, atChord.buttons, live.buttons, y.detail);
        }
      case ButtonRelease => SplitsRemove(r.buttons, atChord.buttons, live.buttons, y.detail);
      case _ =>
    }
  }

  lemma UndisturbedStep(atChord: Recorder, r: Recorder, live: Recorder, log: seq<Event>, y: XEvent)
    returns (live': Recorder)
    requires Beside(atChord, r, live, log) && !Disturbs(atChord, y)
    ensures Beside(atChord, Record(r, y).recorder, live', log + Record(r, y).events)
  {
    if Record(r, y).events == [] {
      live' := live;
      assert log + [] == log;
    } else {
      live' := Record(live, y).recorder;
      UndisturbedLists(atChord, r, live, log, y);
      RecordKeepsDiscipline(live, log, y);
    }
  }

  lemma {:induction false} Undisturbed(atChord: Recorder, r: Recorder, live: Recorder, log: seq<Event>,
                                       ys: seq<XEvent>)
    returns (live': Recorder)
    requires Beside(atChord, r, live, log) && forall i | 0 <= i < |ys| :: !Disturbs(atChord, ys[i])
    ensures Beside(atChord, RecordAll(r, ys).recorder, live', log + RecordAll(r, ys).events)
  {
    if ys == [] {
      live' := live;
      assert log + [] == log;
    } else {
      var n := |ys| - 1;
      var between := Undisturbed(atChord, r, live, log, ys[..n]);
      var before := RecordAll(r, ys[..n]);
      live' := UndisturbedStep(atChord, before.recorder, between, log + before.events, ys[n]);
      AppendTwice(log, before.events, Record(before.recorder, ys[n]).events);
    }
  }

  // ---------------------------------------------------------------------------------
  // A disturbing event

  lemma {:induction false} MovesGrow(a: seq<Event>, b: seq<Event>, press: string, release: string, k: int)
    ensures Moves(a, press, release, k) <= Moves(a + b, press, release, k)
    decreases |b|
  {
    if b == [] {
      assert a + b == a;
    } else {
      var front := b[..|b| - 1];
      MovesGrow(a, front, press, release, k);
      MovesSnoc(a + front, b[|b| - 1], press, release, k);
      assert a + b == a + front + [b[|b| - 1]];
    }
  }

  lemma {:induction false} MovesOfOthers(a: seq<Event>, b: seq<Event>, press: string, release: string, k: int)
    requires forall i | 0 <= i < |b| :: b[i].detail != k
    ensures Moves(a + b, press, release, k) == Moves(a, press, release, k)
    decreases |b|
  {
    if b == [] {
      assert a + b == a;
    } else {
      var front := b[..|b| - 1];
      assert forall i | 0 <= i < |front| :: front[i] == b[i];
      MovesOfOthers(a, front, press, release, k);
      MovesSnoc(a + front, b[|b| - 1], press, release, k);
      assert a + b == a + front + [b[|b| - 1]];
    }
  }

  /** A log in which something that is not down is released does not alternate, and no
      continuation mends it. */
  lemma ReleaseOfNothing(log: seq<Event>, e: Event, more: seq<Event>, press: string, release: string)
    requires e.name == release && press != release && |Moves(log, press, release, e.detail)| % 2 == 0
    ensures !Alternates(Moves(log + [e] + more, press, release, e.detail))
  {
    var moves := Moves(log, press, release, e.detail);
    MovesSnoc(log, e, press, release, e.detail);
    MovesGrow(log + [e], more, press, release, e.detail);
    assert Moves(log + [e], press, release, e.detail) == moves + [false];
    assert (moves + [false])[|moves|] == false;
  }

  lemma SplitAt(log: seq<Event>, printed: seq<Event>, i: nat)
    requires i < |printed|
    ensures log + printed == log + printed[..i] + [printed[i]] + printed[i + 1..]
  {
  }

  lemma FlushStarts(r: Recorder, y: XEvent)
    requires IsChord(r, y)
    ensures |r.keys| <= |Record(r, y).events|
    ensures forall i | 0 <= i < |r.keys| :: Record(r, y).events[i] == DumpEvent(r, "KeyRelease", y, r.keys[i])
  {
  }

  /** A second flush releases Super, which the log does not hold any more. */
  lemma SecondFlush(r: Recorder, log: seq<Event>, y: XEvent)
    requires IsChord(r, y) && NoDuplicates(r.keys)
    requires |KeyMoves(log, KEY_LEFTMETA)| % 2 == 0
    ensures !Alternates(KeyMoves(log + Record(r, y).events, KEY_LEFTMETA))
  {
    FlushStarts(r, y);
    var i :| 0 <= i < |r.keys| && r.keys[i] == KEY_LEFTMETA;
    var printed := Record(r, y).events;
    MovesOfOthers(log, printed[..i], "KeyPress", "KeyRelease", KEY_LEFTMETA);
    ReleaseOfNothing(log + printed[..i], printed[i], printed[i + 1..], "KeyPress", "KeyRelease");
    SplitAt(log, printed, i);
  }

  lemma DisturbedStep(atChord: Recorder, r: Recorder, live: Recorder, log: seq<Event>, y: XEvent)
    requires Beside(atChord, r, live, log) && Disturbs(atChord, y)
    ensures !AllAlternate(log + Record(r, y).events)
  {
    if y.kind.KeyPress? {
      SecondFlush(r, log, y);
    } else {
      var e := Record(r, y).events[0];
      assert log + Record(r, y).events == log + [e] + [];
      if y.kind.KeyRelease? {
        ReleaseOfNothing(log, e, [], "KeyPress", "KeyRelease");
        assert !Alternates(KeyMoves(log + [e] + [], e.detail));
      } else {
        ReleaseOfNothing(log, e, [], "ButtonPress", "ButtonRelease");
        assert !Alternates(ButtonMoves(log + [e] + [], e.detail));
      }
    }
  }

  lemma NotAlternatingStays(a: seq<Event>, b: seq<Event>)
    requires !AllAlternate(a)
    ensures !AllAlternate(a + b)
  {
    var k: int :| !(Alternates(KeyMoves(a, k)) && Alternates(ButtonMoves(a, k)));
    MovesGrow(a, b, "KeyPress", "KeyRelease", k);
    MovesGrow(a, b, "ButtonPress", "ButtonRelease", k);
    assert !(Alternates(KeyMoves(a + b, k)) && Alternates(ButtonMoves(a + b, k)));
  }

  predicate NoneDisturbs(atChord: Recorder, ys: seq<XEvent>) {
    forall i | 0 <= i < |ys| :: !Disturbs(atChord, ys[i])
  }

  /** One more event, from a log that still alternates. */
  lemma AlternatesStep(atChord: Recorder, r: Recorder, live: Recorder, log: seq<Event>, y: XEvent)
    requires Beside(atChord, r, live, log)
    ensures AllAlternate(log + Record(r, y).events) <==> !Disturbs(atChord, y)
  {
    if Disturbs(atChord, y) {
      DisturbedStep(atChord, r, live, log, y);
    } else {
      var after := UndisturbedStep(atChord, r, live, log, y);
    }
  }

  lemma {:induction false} AlternatesBesideIff(atChord: Recorder, r: Recorder, live: Recorder, log: seq<Event>,
                                               ys: seq<XEvent>)
    requires Beside(atChord, r, live, log)
    ensures AllAlternate(log + RecordAll(r, ys).events) <==> NoneDisturbs(atChord, ys)
    decreases |ys|
  {
    if ys == [] {
      assert log + [] == log;
    } else {
      var n := |ys| - 1;
      var front, before := ys[..n], RecordAll(r, ys[..n]);
      var sofar, printed := log + before.events, Record(before.recorder, ys[n]).events;
      AlternatesBesideIff(atChord, r, live, log, front);
      assert log + RecordAll(r, ys).events == sofar + printed by {
        AppendTwice(log, before.events, printed);
      }
      assert NoneDisturbs(atChord, ys) <==> NoneDisturbs(atChord, front) && !Disturbs(atChord, ys[n]) by {
        assert forall i | 0 <= i < n :: front[i] == ys[i];
      }
      if NoneDisturbs(atChord, front) {
        var between := Undisturbed(atChord, r, live, log, front);
        AlternatesStep(atChord, before.recorder, between, sofar, ys[n]);
      } else {
        NotAlternatingStays(sofar, printed);
      }
    }
  }

  /** After the stop chord the whole output goes on alternating exactly as long as Q is not
      pressed again and nothing is released that was down at the chord. */
  lemma AlternatesAfterChordIff(r: Recorder, events: seq<Event>, x: XEvent, ys: seq<XEvent>)
    requires Disciplined(r, events) && IsChord(r, x)
    ensures var c := Record(r, x);
            AllAlternate(events + c.events + RecordAll(c.recorder, ys).events) <==> NoneDisturbs(r, ys)
  {
    var live := BesideAtChord(r, events, x);
    AlternatesBesideIff(r, Record(r, x).recorder, live, events + Record(r, x).events, ys);
  }

  /** So a first release of Super after the chord ends the discipline. */
  lemma SecondReleaseAfterChord(r: Recorder, events: seq<Event>, x: XEvent, y: XEvent)
    requires Disciplined(r, events) && IsChord(r, x)
    requires y.kind.KeyRelease? && y.detail - 8 == KEY_LEFTMETA
    ensures var c := Record(r, x);
            !AllAlternate(events + c.events + RecordAll(c.recorder, [y]).events)
  {
    assert Disturbs(r, [y][0]);
    AlternatesAfterChordIff(r, events, x, [y]);
  }

  // ---------------------------------------------------------------------------------
  // A whole recording, from the X events alone

  /** Q is pressed, or something is released that was down when `xs` had happened. */
  predicate EndsDiscipline(xs: seq<XEvent>, y: XEvent) {
    || (y.kind.KeyPress? && y.detail - 8 == KEY_Q)
    || (y.kind.KeyRelease? && KeyDown(xs, y.detail - 8))
    || (y.kind.ButtonRelease? && ButtonDown(xs, y.detail))
  }

  /** A recording with the stop chord x in it alternates throughout exactly if nothing ends the
      discipline after x. */
  lemma WholeRecordingAlternatesIff(r: Recorder, xs: seq<XEvent>, x: XEvent, ys: seq<XEvent>)
    requires Idle(r) && NoChord(r, xs) && IsChord(RecordAll(r, xs).recorder, x)
    ensures AllAlternate(RecordAll(r, xs + [x] + ys).events)
            <==> forall i | 0 <= i < |ys| :: !EndsDiscipline(xs, ys[i])
  {
    var before := RecordAll(r, xs);
    DisciplineBeforeChord(r, xs);
    PressedListsAreDown(r, xs);
    RecordAllSnoc(r, xs, x);
    RecordAllAppend(r, xs + [x], ys);
    AlternatesAfterChordIff(before.recorder, before.events, x, ys);
    assert forall i | 0 <= i < |ys| :: Disturbs(before.recorder, ys[i]) <==> EndsDiscipline(xs, ys[i]);
  }
}
