/** What the thinning in src/test-run.c guarantees about every history it builds. */
module Thinning {
  import opened Common
  import opened Doubles
  import opened PowerMonitor
  import opened TestRuns

  // ---------------------------------------------------------------------------------
  // Every history is thinned, and its maxima are functions of it

  /** Each kept reading passed the test against the first and the previous kept reading. */
  ghost predicate Thinned(d: Duration, h: seq<PowerState>) {
    forall i | 0 < i < |h| :: Keeps(d, h[0], h[i - 1], h[i])
  }

  ghost predicate BoundsPower(h: seq<PowerState>, p: real) {
    p >= 0.0 && forall i | 0 < i < |h| :: ComputeStatistics(h[i - 1], h[i]).power <= p
  }

  ghost predicate BoundsLife(h: seq<PowerState>, l: real) {
    l >= 0.0 && forall i | 0 < i < |h| :: ComputeStatistics(h[0], h[i]).batteryLife <= l
  }

  /** p is the maximum of 0 and the powers between neighbouring readings. */
  ghost predicate IsPeakPower(h: seq<PowerState>, p: real) {
    && BoundsPower(h, p)
    && (p == 0.0 || exists i | 0 < i < |h| :: ComputeStatistics(h[i - 1], h[i]).power == p)
  }

  /** l is the maximum of 0 and the lives computed from the first reading to a later one. */
  ghost predicate IsLongestLife(h: seq<PowerState>, l: real) {
    && BoundsLife(h, l)
    && (l == 0.0 || exists i | 0 < i < |h| :: ComputeStatistics(h[0], h[i]).batteryLife == l)
  }

  /** What holds of every run whose readings all went through `Add`. */
  ghost predicate WellBuilt(run: Run) {
    && Thinned(run.duration, run.history)
    && IsPeakPower(run.history, run.maxPower)
    && IsLongestLife(run.history, run.maxLife)
  }

  /** A run that has not been offered a reading yet. */
  predicate Fresh(run: Run) {
    run.history == [] && run.maxPower == 0.0 && run.maxLife == 0.0
  }

  lemma PeakGrows(h: seq<PowerState>, state: PowerState, p: real)
    requires h != [] && IsPeakPower(h, p)
    ensures IsPeakPower(h + [state], MaxReal(ComputeStatistics(Last(h), state).power, p))
  {
    var h' := h + [state];
    assert forall i | 0 <= i < |h| :: h'[i] == h[i];
    assert h'[|h| - 1] == Last(h) && h'[|h|] == state;
  }

  lemma LifeGrows(h: seq<PowerState>, state: PowerState, l: real)
    requires h != [] && IsLongestLife(h, l)
    ensures IsLongestLife(h + [state], MaxReal(ComputeStatistics(h[0], state).batteryLife, l))
  {
    var h' := h + [state];
    assert forall i | 0 <= i < |h| :: h'[i] == h[i];
    assert h'[|h|] == state;
  }

  lemma AddKeepsThinned(run: Run, state: PowerState)
    requires Thinned(run.duration, run.history)
    ensures Thinned(run.duration, Add(run, state).history)
    ensures run.history <= Add(run, state).history
  {
  }

  lemma AddKeepsPeak(run: Run, state: PowerState)
    requires IsPeakPower(run.history, run.maxPower)
    ensures IsPeakPower(Add(run, state).history, Add(run, state).maxPower)
  {
    if run.history != [] {
      PeakGrows(run.history, state, run.maxPower);
    }
  }

  lemma AddKeepsLongest(run: Run, state: PowerState)
    requires IsLongestLife(run.history, run.maxLife)
    ensures IsLongestLife(Add(run, state).history, Add(run, state).maxLife)
  {
    if run.history != [] {
      LifeGrows(run.history, state, run.maxLife);
    }
  }

  lemma AddKeepsWellBuilt(run: Run, state: PowerState)
    requires WellBuilt(run)
    ensures WellBuilt(Add(run, state))
    ensures run.history <= Add(run, state).history
  {
    AddKeepsThinned(run, state);
    AddKeepsPeak(run, state);
    AddKeepsLongest(run, state);
  }

  /** Whatever readings are offered, the run stays thinned, its maxima are the maxima of its
      history, kept readings stay, and nothing but the history and the maxima changes. */
  lemma {:induction false} BuiltRuns(run: Run, states: seq<PowerState>)
    requires WellBuilt(run)
    ensures WellBuilt(AddAll(run, states))
    ensures run.history <= AddAll(run, states).history
    ensures AddAll(run, states) ==
            run.(history := AddAll(run, states).history,
                 maxPower := AddAll(run, states).maxPower,
                 maxLife := AddAll(run, states).maxLife)
  {
    if states != [] {
      BuiltRuns(run, states[..|states| - 1]);
      AddKeepsWellBuilt(AddAll(run, states[..|states| - 1]), Last(states));
    }
  }

  /** Offering a thinned history again keeps all of it. */
  lemma {:induction false} ThinnedIsFixed(run: Run, h: seq<PowerState>)
    requires run.history == [] && Thinned(run.duration, h)
    ensures AddAll(run, h).history == h
    ensures AddAll(run, h).duration == run.duration
  {
    if h != [] {
      var front := h[..|h| - 1];
      ThinnedIsFixed(run, front);
      assert h == front + [Last(h)];
      if front != [] {
        assert Keeps(run.duration, h[0], h[|h| - 2], h[|h| - 1]);
      }
    }
  }

  // ---------------------------------------------------------------------------------
  // Done detection lags by a bounded amount

  /** The last reading offered to a timed run is at most 1 % of the duration ahead of the
      last kept one, so the run is done once a reading lies 1.01 durations past the start. */
  lemma DoneLagTime(run: Run, states: seq<PowerState>, latest: PowerState)
    requires WellBuilt(run) && run.duration.Seconds? && run.duration.seconds >= 0.0
    ensures var r := AddAll(run, states + [latest]);
            && r.history != []
            && (latest.timeUs - r.history[0].timeUs) as real <= (Last(r.history).timeUs - r.history[0].timeUs) as real
                                                              + Spacing(run.duration.seconds)
            && ((latest.timeUs - r.history[0].timeUs) as real > 1.01 * run.duration.seconds * 1000000.0 ==> IsDone(r))
  {
    assert (states + [latest])[..|states|] == states;
    BuiltRuns(run, states);
  }

  /** A reading whose percentage is an ordinary number. */
  predicate Charged(s: PowerState) {
    s.energyFull > 0.0
  }

  function Charge(s: PowerState): real
    requires Charged(s)
  {
    100.0 * s.energyNow / s.energyFull
  }

  /** When a reading of ordinary percentages is kept: for a start above the target if it lies more
      than 0.5 % of the way below the last kept one, for a start on the target if it lies below it
      at all, and for a start under the target unless it lies too far above it. */
  lemma KeepsPercentIff(target: real, start: PowerState, last: PowerState, state: PowerState)
    requires Charged(start) && Charged(last) && Charged(state)
    ensures var drop, span := Charge(last) - Charge(state), Charge(start) - target;
            Keeps(UntilPercent(target), start, last, state)
            <==> (if span > 0.0 then drop > 0.005 * span
                  else if span == 0.0 then drop > 0.0
                  else drop < 0.005 * span)
  {
    var drop, span := Charge(last) - Charge(state), Charge(start) - target;
    if span > 0.0 {
      QuotientExceeds(drop, span, 0.005);
    } else if span < 0.0 {
      QuotientExceeds(-drop, -span, 0.005);
      SameQuotient(drop, span);
    }
  }

  lemma SameQuotient(a: real, b: real)
    requires b != 0.0
    ensures (-a) / (-b) == a / b
  {
  }

  lemma QuotientExceeds(a: real, b: real, c: real)
    requires b > 0.0
    ensures a / b > c <==> a > c * b
  {
    var q := a / b;
    assert q * b == a;
    if q > c {
      assert (q - c) * b > 0.0;
    } else {
      assert (c - q) * b >= 0.0;
    }
  }

  lemma DoneLagPercent(run: Run, states: seq<PowerState>, latest: PowerState)
    requires WellBuilt(run) && run.duration.UntilPercent?
    requires AddAll(run, states).history != []
    requires var h := AddAll(run, states).history;
             Charged(h[0]) && Charged(Last(h)) && Charged(latest) && Charge(h[0]) > run.duration.percent
    ensures var r := AddAll(run, states + [latest]);
            && r.history != [] && r.history[0] == AddAll(run, states).history[0]
            && (Charge(latest) < run.duration.percent - 0.005 * (Charge(r.history[0]) - run.duration.percent)
                ==> IsDone(r))
  {
    assert (states + [latest])[..|states|] == states;
    BuiltRuns(run, states);
    var h := AddAll(run, states).history;
    KeepsPercentIff(run.duration.percent, h[0], Last(h), latest);
  }

  // ---------------------------------------------------------------------------------
  // and it is never early

  /** Every kept reading is one that was offered, the first one offered is kept, and nothing but
      the history and the maxima changes. */
  lemma {:induction false} KeptWereOffered(run: Run, states: seq<PowerState>)
    requires run.history == []
    ensures var r := AddAll(run, states);
            && (forall h | h in r.history :: h in states)
            && (states != [] ==> r.history != [] && r.history[0] == states[0])
            && r == run.(history := r.history, maxPower := r.maxPower, maxLife := r.maxLife)
  {
    if states != [] {
      var front := states[..|states| - 1];
      KeptWereOffered(run, front);
      assert states == front + [Last(states)];
    }
  }

  /** A timed run is done only after its duration: some reading offered lies past it. */
  lemma DoneOnlyPastDuration(run: Run, states: seq<PowerState>)
    requires run.history == [] && run.duration.Seconds? && states != []
    requires AddAll(run, states).history != [] && IsDone(AddAll(run, states))
    ensures exists i | 0 <= i < |states| ::
              (states[i].timeUs - states[0].timeUs) as real > run.duration.seconds * 1000000.0
  {
    KeptWereOffered(run, states);
    var last := Last(AddAll(run, states).history);
    assert last in states;
    var i :| 0 <= i < |states| && states[i] == last;
    assert (states[i].timeUs - states[0].timeUs) as real > run.duration.seconds * 1000000.0;
  }

  /** A run down to a percentage is done only below it: some reading offered lies there. */
  lemma DoneOnlyBelowTarget(run: Run, states: seq<PowerState>)
    requires run.history == [] && run.duration.UntilPercent? && states != []
    requires forall i | 0 <= i < |states| :: Charged(states[i])
    requires AddAll(run, states).history != [] && IsDone(AddAll(run, states))
    ensures exists i | 0 <= i < |states| :: Charge(states[i]) < run.duration.percent
  {
    KeptWereOffered(run, states);
    var last := Last(AddAll(run, states).history);
    assert last in states;
    var i :| 0 <= i < |states| && states[i] == last;
    assert Charge(states[i]) < run.duration.percent;
  }

  /** Readings without an ordinary percentage: with a full energy of zero a run is done exactly if
      the current energy is unknown, and with both unknown they count as full. */
  lemma DoneWithoutCharge(run: Run)
    requires run.history != [] && run.duration.UntilPercent?
    ensures var last := Last(run.history);
            && (last.energyFull == 0.0 ==> (IsDone(run) <==> last.energyNow < 0.0))
            && (last.energyFull == -1.0 && last.energyNow == -1.0 ==> (IsDone(run) <==> run.duration.percent > 100.0))
  {
  }

  // ---------------------------------------------------------------------------------
  // Thinning bounds memory

  lemma {:induction false} TimeGrows(seconds: real, h: seq<PowerState>, k: nat)
    requires Thinned(Seconds(seconds), h) && k < |h|
    ensures (h[k].timeUs - h[0].timeUs) as real >= k as real * Spacing(seconds)
    ensures k > 0 ==> (h[k].timeUs - h[0].timeUs) as real > k as real * Spacing(seconds)
  {
    if k > 0 {
      TimeGrows(seconds, h, k - 1);
      assert Keeps(Seconds(seconds), h[0], h[k - 1], h[k]);
      var t := Spacing(seconds);
      assert k as real * t == (k - 1) as real * t + t;
    }
  }

  lemma SmallIndices(indices: set<int>, bound: nat)
    requires forall i | i in indices :: 0 <= i < bound
    ensures |indices| <= bound
    decreases bound
  {
    if bound == 0 {
      assert forall i :: i !in indices;
    } else {
      SmallIndices(indices - {bound - 1}, bound - 1);
    }
  }

  lemma CancelStep(k: int, n: int, t: real)
    requires t > 0.0 && k as real * t < n as real * t
    ensures k < n
  {
    assert (n - k) as real * t == n as real * t - k as real * t;
  }

  lemma HundredSpacings(seconds: real)
    ensures 100 as real * Spacing(seconds) == seconds * 1000000.0
    ensures seconds > 0.0 ==> Spacing(seconds) > 0.0
  {
  }

  lemma WithinHundred(seconds: real, h: seq<PowerState>, k: nat)
    requires Thinned(Seconds(seconds), h) && seconds > 0.0
    requires k < |h| && (h[k].timeUs - h[0].timeUs) as real <= seconds * 1000000.0
    ensures k < 100
  {
    if k > 0 {
      TimeGrows(seconds, h, k);
      HundredSpacings(seconds);
      CancelStep(k, 100, Spacing(seconds));
    }
  }

  /** At most 100 kept readings of a timed run lie within its duration of the start. */
  lemma AtMostHundredWithinDuration(seconds: real, h: seq<PowerState>)
    requires Thinned(Seconds(seconds), h) && seconds > 0.0
    ensures |set k | 0 <= k < |h| && (h[k].timeUs - h[0].timeUs) as real <= seconds * 1000000.0| <= 100
  {
    var within := set k | 0 <= k < |h| && (h[k].timeUs - h[0].timeUs) as real <= seconds * 1000000.0;
    forall k | k in within
      ensures 0 <= k < 100
    {
      WithinHundred(seconds, h, k);
    }
    SmallIndices(within, 100);
  }

  lemma {:induction false} ChargeFalls(target: real, h: seq<PowerState>, k: nat)
    requires Thinned(UntilPercent(target), h) && k < |h|
    requires forall i | 0 <= i < |h| :: Charged(h[i])
    requires Charge(h[0]) > target
    ensures Charge(h[0]) - Charge(h[k]) >= k as real * (0.005 * (Charge(h[0]) - target))
    ensures k > 0 ==> Charge(h[0]) - Charge(h[k]) > k as real * (0.005 * (Charge(h[0]) - target))
  {
    if k > 0 {
      ChargeFalls(target, h, k - 1);
      assert Keeps(UntilPercent(target), h[0], h[k - 1], h[k]);
      KeepsPercentIff(target, h[0], h[k - 1], h[k]);
      var t := 0.005 * (Charge(h[0]) - target);
      assert k as real * t == (k - 1) as real * t + t;
    }
  }

  lemma FewDrops(k: int, fall: real, span: real)
    requires span > 0.0 && k as real * (0.005 * span) < fall <= span
    ensures k < 200
  {
    var n, t := 200, 0.005 * span;
    assert n as real * t == span;
    CancelStep(k, n, t);
  }

  /** At most 200 kept readings of a run down to a percentage are at or above it. */
  lemma AtMostTwoHundredAboveTarget(target: real, h: seq<PowerState>)
    requires Thinned(UntilPercent(target), h)
    requires forall i | 0 <= i < |h| :: Charged(h[i])
    requires h != [] && Charge(h[0]) > target
    ensures |set k | 0 <= k < |h| && Charge(h[k]) >= target| <= 200
  {
    var above := set k | 0 <= k < |h| && Charge(h[k]) >= target;
    forall k | k in above
      ensures 0 <= k < 200
    {
      ChargeFalls(target, h, k);
      if k > 0 {
        FewDrops(k, Charge(h[0]) - Charge(h[k]), Charge(h[0]) - target);
      }
    }
    SmallIndices(above, 200);
  }

  // ---------------------------------------------------------------------------------
  // Peak power bounds average power

  lemma QuotientAtMost(a: real, b: real, c: real)
    requires b > 0.0
    ensures a / b <= c <==> a <= c * b
  {
    QuotientExceeds(a, b, c);
  }

  lemma PowerAtMost(base: PowerState, current: PowerState, bound: real)
    requires bound >= 0.0 && Elapsed(base, current) >= 0.25
    ensures ComputeStatistics(base, current).power <= bound
            <==> 3600.0 * Used(base, current) <= bound * Elapsed(base, current)
  {
    QuotientAtMost(3600.0 * Used(base, current), Elapsed(base, current), bound);
    NonNegativeProduct(bound, Elapsed(base, current));
  }

  lemma NonNegativeProduct(a: real, b: real)
    requires a >= 0.0 && b >= 0.0
    ensures a * b >= 0.0
  {
  }

  lemma BoundsAdd(p: real, a: real, b: real, x: real, y: real)
    requires x <= p * a && y <= p * b
    ensures x + y <= p * (a + b)
  {
    assert p * (a + b) == p * a + p * b;
  }

  /** In a timed run of at least 25 s no interval is too short for its power to count. */
  lemma LongIntervals(seconds: real, h: seq<PowerState>, k: nat)
    requires seconds >= 25.0 && Thinned(Seconds(seconds), h) && 0 < k < |h|
    ensures Elapsed(h[k - 1], h[k]) >= 0.25
  {
    assert Keeps(Seconds(seconds), h[0], h[k - 1], h[k]);
  }

  /** The energy used between two readings fits a power p. */
  ghost predicate FitsPower(base: PowerState, current: PowerState, p: real) {
    3600.0 * Used(base, current) <= p * Elapsed(base, current)
  }

  ghost predicate IntervalsFit(h: seq<PowerState>, p: real) {
    forall k | 0 < k < |h| :: FitsPower(h[k - 1], h[k], p)
  }

  lemma IntervalFits(seconds: real, h: seq<PowerState>, p: real, k: nat)
    requires seconds >= 25.0 && Thinned(Seconds(seconds), h) && BoundsPower(h, p) && 0 < k < |h|
    ensures FitsPower(h[k - 1], h[k], p)
  {
    LongIntervals(seconds, h, k);
    PowerAtMost(h[k - 1], h[k], p);
  }

  lemma AllIntervalsFit(seconds: real, h: seq<PowerState>, p: real)
    requires seconds >= 25.0 && Thinned(Seconds(seconds), h) && BoundsPower(h, p)
    ensures IntervalsFit(h, p)
  {
    forall k | 0 < k < |h|
      ensures FitsPower(h[k - 1], h[k], p)
    {
      IntervalFits(seconds, h, p, k);
    }
  }

  lemma {:induction false} TimeSinceStart(seconds: real, h: seq<PowerState>, k: nat)
    requires seconds >= 25.0 && Thinned(Seconds(seconds), h) && 0 < k < |h|
    ensures Elapsed(h[0], h[k]) >= 0.25
  {
    LongIntervals(seconds, h, k);
    if k > 1 {
      TimeSinceStart(seconds, h, k - 1);
    }
  }

  lemma FitsAdd(a: PowerState, b: PowerState, c: PowerState, p: real)
    requires FitsPower(a, b, p) && FitsPower(b, c, p)
    ensures FitsPower(a, c, p)
  {
    BoundsAdd(p, Elapsed(a, b), Elapsed(b, c), 3600.0 * Used(a, b), 3600.0 * Used(b, c));
    assert Elapsed(a, c) == Elapsed(a, b) + Elapsed(b, c);
  }

  lemma {:induction false} WholeFits(h: seq<PowerState>, k: nat, p: real)
    requires k < |h| && IntervalsFit(h, p)
    ensures FitsPower(h[0], h[k], p)
  {
    if k > 0 {
      WholeFits(h, k - 1, p);
      FitsAdd(h[0], h[k - 1], h[k], p);
    }
  }

  lemma AverageBelowBound(seconds: real, h: seq<PowerState>, k: nat, p: real)
    requires seconds >= 25.0 && Thinned(Seconds(seconds), h) && k < |h| && BoundsPower(h, p)
    ensures ComputeStatistics(h[0], h[k]).power <= p
  {
    if k > 0 {
      AllIntervalsFit(seconds, h, p);
      WholeFits(h, k, p);
      TimeSinceStart(seconds, h, k);
      PowerAtMost(h[0], h[k], p);
    }
  }

  /** The average power from the start to any kept reading never exceeds `maxPower`. */
  lemma AverageBelowPeak(run: Run, k: nat)
    requires WellBuilt(run) && run.duration.Seconds? && run.duration.seconds >= 25.0
    requires k < |run.history|
    ensures ComputeStatistics(run.history[0], run.history[k]).power <= run.maxPower
  {
    AverageBelowBound(run.duration.seconds, run.history, k, run.maxPower);
  }

  lemma LifeTimesPower(power: real, peak: real, full: real, longest: real)
    requires 0.0 < power <= peak && full / power <= longest && 0.0 <= longest
    ensures longest * peak >= full
  {
    QuotientAtMost(full, power, longest);
    NonNegativeProduct(longest, peak - power);
    assert longest * peak == longest * power + longest * (peak - power);
  }

  lemma LifeOfInterval(base: PowerState, current: PowerState, peak: real, longest: real)
    requires ComputeStatistics(base, current) != NO_STATISTICS && base.energyFull >= 0.0
    requires ComputeStatistics(base, current).power <= peak
    requires ComputeStatistics(base, current).batteryLife <= longest && longest >= 0.0
    ensures longest * peak >= 3600.0 * base.energyFull
  {
    QuotientExceeds(3600.0 * Used(base, current), Elapsed(base, current), 0.0);
    LifeTimesPower(ComputeStatistics(base, current).power, peak, 3600.0 * base.energyFull, longest);
  }

  lemma PowerTimesLife(seconds: real, h: seq<PowerState>, k: nat, p: real, l: real)
    requires seconds >= 25.0 && Thinned(Seconds(seconds), h) && 0 < k < |h| && h[0].energyFull >= 0.0
    requires BoundsPower(h, p) && BoundsLife(h, l)
    requires ComputeStatistics(h[0], h[k]) != NO_STATISTICS
    ensures l * p >= 3600.0 * h[0].energyFull
  {
    AverageBelowBound(seconds, h, k, p);
    LifeOfInterval(h[0], h[k], p, l);
  }

  /** Once a life has been computed, the two maxima multiply to at least a full battery. */
  lemma PeakTimesLife(run: Run, k: nat)
    requires WellBuilt(run) && run.duration.Seconds? && run.duration.seconds >= 25.0
    requires 0 < k < |run.history| && run.history[0].energyFull >= 0.0
    requires ComputeStatistics(run.history[0], run.history[k]) != NO_STATISTICS
    ensures run.maxLife * run.maxPower >= 3600.0 * run.history[0].energyFull
  {
    PowerTimesLife(run.duration.seconds, run.history, k, run.maxPower, run.maxLife);
  }
}
