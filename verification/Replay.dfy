/** A whole playback: the player's timer fires again and again, each time some latency after
    it is due.  Playback follows the log and keeps to the schedule. */
module Replay {
  import opened Common
  import opened EventLogs
  import opened EvdevPlayers

  /** The player after its timer has fired once for each latency. */
  function Played(p: Player, latencies: seq<nat>): Player {
    if latencies == [] then p
    else
      Fire(Played(p, latencies[..|latencies| - 1]), latencies[|latencies| - 1])
  }

  /** The timer, if there is one, fires some latency after it is due. */
  function Fire(p: Player, latency: nat): Player {
    if p.timer.None? || p.input.None? then p else Timeout(p, p.timer.value + latency)
  }

  /** A player that is not playing. */
  predicate AtRest(p: Player) {
    p.input.None? && p.nextEvent.None? && p.timer.None? && !p.died
  }

  // ---------------------------------------------------------------------------------
  // The schedule, by itself

  /** When the i-th timer is due; the one after the last event is due at once. */
  function Due(start: int, events: seq<Event>, latencies: seq<nat>, i: nat): int
    requires i <= |latencies|
  {
    DueAfter(start, events, i, if i == 0 then start else Due(start, events, latencies, i - 1) + latencies[i - 1])
  }

  /** When the timer for the i-th event is due that is set at the time `now`. */
  function DueAfter(start: int, events: seq<Event>, i: nat, now: int): int {
    if i < |events| then now + 1000 * Delay(start, events[i], now) else now
  }

  /** When the i-th event fires. */
  function Fired(start: int, events: seq<Event>, latencies: seq<nat>, i: nat): int
    requires i < |latencies|
  {
    Due(start, events, latencies, i) + latencies[i]
  }

  /** The product of the scheduled time does not wrap exactly up to 4294967 ms. */
  lemma ScheduleExactIff(start: int, e: Event)
    requires 0 <= e.time < TWO_32
    ensures Scheduled(start, e) == start + 1000 * e.time <==> e.time <= 4294967
    ensures e.time > 4294967 ==> Scheduled(start, e) <= start + 1000 * e.time - TWO_32
  {
  }

  /** No event fires a millisecond or more before its scheduled time. */
  lemma NeverEarly(start: int, events: seq<Event>, latencies: seq<nat>, i: nat)
    requires i < |latencies| && i < |events| && 0 <= events[i].time <= 4294967
    ensures Fired(start, events, latencies, i) > start + 1000 * events[i].time - 1000
  {
    var now := if i == 0 then start else Due(start, events, latencies, i - 1) + latencies[i - 1];
    DelayIsLongestWait(start, events[i], now, Delay(start, events[i], now));
    ScheduleExactIff(start, events[i]);
  }

  /** Lateness does not add up: an event is late by at most its own latency if the one before
      has fired by its scheduled time. */
  lemma OwnLatencyOnly(start: int, events: seq<Event>, latencies: seq<nat>, i: nat)
    requires i < |latencies| && i < |events| && 0 <= events[i].time <= 4294967
    ensures var before := if i == 0 then start else Fired(start, events, latencies, i - 1);
            Fired(start, events, latencies, i) <= MaxInt(start + 1000 * events[i].time, before) + latencies[i]
  {
    var now := if i == 0 then start else Due(start, events, latencies, i - 1) + latencies[i - 1];
    DelayIsLongestWait(start, events[i], now, Delay(start, events[i], now));
    ScheduleExactIff(start, events[i]);
  }

  /** With timers at most `most` late and events at least that far apart, no event is more
      than `most` late, however long the log. */
  lemma {:induction false} NoDrift(start: int, events: seq<Event>, latencies: seq<nat>, most: nat, i: nat)
    requires i < |latencies| && i < |events|
    requires forall j | 0 <= j < |events| :: 0 <= events[j].time <= 4294967
    requires forall j | 0 <= j < |latencies| :: latencies[j] <= most
    requires forall j | 0 <= j < |events| - 1 :: 1000 * events[j].time + most <= 1000 * events[j + 1].time
    ensures Fired(start, events, latencies, i) <= start + 1000 * events[i].time + most
  {
    OwnLatencyOnly(start, events, latencies, i);
    if i > 0 {
      NoDrift(start, events, latencies, most, i - 1);
      var j := i - 1;
      assert 1000 * events[j].time + most <= 1000 * events[j + 1].time;
    }
  }

  // ---------------------------------------------------------------------------------
  // Playback follows the log

  lemma CollectNext(log: seq<LineResult>, events: seq<Event>)
    requires Collect(log) == Some(events)
    ensures events == [] ==> NextEvent(log).EndOfLog?
    ensures events != [] ==>
              && NextEvent(log).Got? && NextEvent(log).event == events[0]
              && Collect(NextEvent(log).rest) == Some(events[1..])
  {
  }

  /** The player when i events have been fired and the timer for what follows is due at `due`. */
  ghost predicate Underway(p: Player, start: int, events: seq<Event>, i: nat, due: int)
    requires i <= |events|
  {
    && p.startTime == start && p.finished == 0 && !p.died
    && p.written == InjectAll(events[..i])
    && p.nextEvent == (if i < |events| then Some(events[i]) else None)
    && p.timer == Some(due)
    && p.input.Some?
    && Collect(p.input.value) == Some(if i < |events| then events[i + 1..] else [])
  }

  /** Queueing when `i` events have fired, at the time `now`. */
  lemma QueueAt(p: Player, start: int, events: seq<Event>, i: nat, now: int)
    requires i <= |events|
    requires p.startTime == start && p.finished == 0 && !p.died && p.nextEvent.None?
    requires p.written == InjectAll(events[..i])
    requires p.input.Some? && Collect(p.input.value) == Some(events[i..])
    ensures Underway(Queue(p, now), start, events, i, DueAfter(start, events, i, now))
  {
    CollectNext(p.input.value, events[i..]);
    if i < |events| {
      assert events[i..][0] == events[i] && events[i..][1..] == events[i + 1..];
    }
  }

  lemma FireAt(p: Player, start: int, events: seq<Event>, i: nat, due: int, latency: nat)
    requires i < |events| && Underway(p, start, events, i, due)
    ensures Underway(Fire(p, latency), start, events, i + 1, DueAfter(start, events, i + 1, due + latency))
  {
    assert events[..i + 1][..i] == events[..i];
    QueueAt(p.(nextEvent := None, timer := None, written := p.written + Inject(events[i])),
            start, events, i + 1, due + latency);
  }

  /** One more firing takes p to q, whichever players these are. */
  lemma FireNext(p: Player, q: Player, start: int, events: seq<Event>, latencies: seq<nat>, n: nat)
    requires n < |events| && n + 1 == |latencies| && q == Fire(p, latencies[n])
    requires Underway(p, start, events, n, Due(start, events, latencies[..n], n))
    ensures Underway(q, start, events, n + 1, Due(start, events, latencies, n + 1))
  {
    DueIgnoresLater(start, events, latencies, n, n);
    FireAt(p, start, events, n, Due(start, events, latencies, n), latencies[n]);
  }

  lemma {:induction false} DueIgnoresLater(start: int, events: seq<Event>, latencies: seq<nat>, n: nat, i: nat)
    requires i <= n <= |latencies|
    ensures Due(start, events, latencies[..n], i) == Due(start, events, latencies, i)
  {
    if i > 0 {
      DueIgnoresLater(start, events, latencies, n, i - 1);
    }
  }

  lemma PlaybackStarts(p: Player, log: seq<LineResult>, start: int, events: seq<Event>)
    requires AtRest(p) && p.written == [] && p.finished == 0 && Collect(log) == Some(events)
    ensures Underway(PlayLog(p, log, start), start, events, 0, DueAfter(start, events, 0, start))
  {
    assert events[..0] == [] && events[0..] == events;
    QueueAt(p.(startTime := start, input := Some(log)), start, events, 0, start);
  }

  lemma {:induction false} StaysUnderway(p: Player, start: int, events: seq<Event>, latencies: seq<nat>)
    requires |latencies| <= |events| && Underway(p, start, events, 0, DueAfter(start, events, 0, start))
    ensures Underway(Played(p, latencies), start, events, |latencies|,
                     Due(start, events, latencies, |latencies|))
  {
    if |latencies| > 0 {
      var n := |latencies| - 1;
      StaysUnderway(p, start, events, latencies[..n]);
      FireNext(Played(p, latencies[..n]), Played(p, latencies), start, events, latencies, n);
    }
  }

  /** Playing a log that parses to `events`: after i timeouts exactly the first i events have
      been written, in the order of the file. */
  lemma PlaybackFollowsLog(p: Player, log: seq<LineResult>, start: int, events: seq<Event>, latencies: seq<nat>)
    requires AtRest(p) && p.written == [] && p.finished == 0
    requires Collect(log) == Some(events) && |latencies| <= |events|
    ensures Underway(Played(PlayLog(p, log, start), latencies), start, events, |latencies|,
                     Due(start, events, latencies, |latencies|))
  {
    PlaybackStarts(p, log, start, events);
    StaysUnderway(PlayLog(p, log, start), start, events, latencies);
  }

  /** One more timeout after the last event ends the playback, once. */
  lemma PlaybackEnds(p: Player, log: seq<LineResult>, start: int, events: seq<Event>, latencies: seq<nat>)
    requires AtRest(p) && p.written == [] && p.finished == 0
    requires Collect(log) == Some(events) && |latencies| == |events| + 1
    ensures var q := Played(PlayLog(p, log, start), latencies);
            AtRest(q) && q.finished == 1 && q.written == InjectAll(events)
  {
    var before := latencies[..|events|];
    PlaybackFollowsLog(p, log, start, events, before);
    assert events[..|events|] == events;
  }

  lemma {:induction false} NothingFires(p: Player, latencies: seq<nat>)
    requires p.timer.None? || p.input.None?
    ensures Played(p, latencies) == p
  {
    if latencies != [] {
      NothingFires(p, latencies[..|latencies| - 1]);
    }
  }

  /** Stopping in the middle of a log ends the playback there, once: what has fired so far is all
      that is ever written, and no timer is left. */
  lemma StopEndsPlayback(p: Player, log: seq<LineResult>, start: int, events: seq<Event>, latencies: seq<nat>,
                         later: seq<nat>)
    requires AtRest(p) && p.written == [] && p.finished == 0
    requires Collect(log) == Some(events) && |latencies| <= |events|
    ensures var q := Played(PlayLog(p, log, start), latencies);
            && q.input.Some? && q.finished == 0
            && AtRest(StopPlay(q)) && StopPlay(q).finished == 1
            && StopPlay(q).written == InjectAll(events[..|latencies|])
            && Played(StopPlay(q), later) == StopPlay(q)
  {
    PlaybackFollowsLog(p, log, start, events, latencies);
    NothingFires(StopPlay(Played(PlayLog(p, log, start), latencies)), later);
  }

  // ---------------------------------------------------------------------------------
  // A malformed log

  /** The log parses to these events and then has a malformed line. */
  ghost predicate Breaks(log: seq<LineResult>, events: seq<Event>)
    decreases |events|
  {
    match NextEvent(log)
    case EndOfLog => false
    case BadLine(_) => events == []
    case Got(e, rest) => events != [] && e == events[0] && Breaks(rest, events[1..])
  }

  /** The player when i events of such a log have been fired. */
  ghost predicate Breaking(p: Player, events: seq<Event>, i: nat)
    requires i <= |events|
  {
    && p.finished == 0 && p.written == InjectAll(events[..i]) && p.input.Some?
    && p.died == (i == |events|)
    && (i < |events| ==> p.timer.Some? && p.nextEvent == Some(events[i]) && Breaks(p.input.value, events[i + 1..]))
    && (i == |events| ==> p.timer.None? && p.nextEvent.None?)
  }

  lemma BreakingQueue(p: Player, events: seq<Event>, i: nat, now: int)
    requires i <= |events| && p.finished == 0 && p.written == InjectAll(events[..i]) && !p.died
    requires p.input.Some? && p.timer.None? && p.nextEvent.None? && Breaks(p.input.value, events[i..])
    ensures Breaking(Queue(p, now), events, i)
  {
    if i < |events| {
      assert events[i..][0] == events[i] && events[i..][1..] == events[i + 1..];
    }
  }

  lemma BreakingStep(p: Player, q: Player, events: seq<Event>, i: nat, latency: nat)
    requires i < |events| && Breaking(p, events, i) && q == Fire(p, latency)
    ensures Breaking(q, events, i + 1)
  {
    assert events[..i + 1][..i] == events[..i];
    BreakingQueue(p.(nextEvent := None, timer := None, written := p.written + Inject(events[i])),
                  events, i + 1, p.timer.value + latency);
  }

  lemma {:induction false} StaysBreaking(p: Player, events: seq<Event>, latencies: seq<nat>)
    requires |latencies| <= |events| && Breaking(p, events, 0)
    ensures Breaking(Played(p, latencies), events, |latencies|)
  {
    if |latencies| > 0 {
      var n := |latencies| - 1;
      StaysBreaking(p, events, latencies[..n]);
      BreakingStep(Played(p, latencies[..n]), Played(p, latencies), events, n, latencies[n]);
    }
  }

  /** Playing a malformed log writes the events before the malformed line; the process ends when
      the last of them has fired, as it reads ahead, and never reports an end of the playback. */
  lemma MalformedLogEndsProcess(p: Player, log: seq<LineResult>, start: int, events: seq<Event>, latencies: seq<nat>)
    requires AtRest(p) && p.written == [] && p.finished == 0
    requires Breaks(log, events) && |latencies| <= |events|
    ensures var q := Played(PlayLog(p, log, start), latencies);
            && q.written == InjectAll(events[..|latencies|]) && q.finished == 0
            && (q.died <==> |latencies| == |events|)
  {
    assert events[..0] == [] && events[0..] == events;
    BreakingQueue(p.(startTime := start, input := Some(log)), events, 0, start);
    StaysBreaking(PlayLog(p, log, start), events, latencies);
  }
}
