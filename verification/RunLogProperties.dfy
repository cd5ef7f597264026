/** What saving and loading a run does to its history: an independent description of the
    decoded log, exactness on the grid, the fixed point after one round, and the effect of
    thinning the loaded entries again. */
module RunLogProperties {
  import opened Common
  import opened PowerMonitor
  import opened TestRuns
  import opened Thinning
  import opened RunLog

  // ---------------------------------------------------------------------------------
  // The decoded log, without mentioning the delta encoding

  datatype Field = Now | Full | Design

  function Energy(s: PowerState, f: Field): real {
    match f
    case Now => s.energyNow
    case Full => s.energyFull
    case Design => s.energyFullDesign
  }

  /** A value rounded to the grid of whole microwatt-hours. */
  function OnGrid(value: real): real {
    Micro(value) as real / 1000000.0
  }

  /** The last known value of a field up to and including reading i, on the grid; -1 if the
      field has not been known yet. */
  function LatestKnown(h: seq<PowerState>, f: Field, i: nat): real
    requires i < |h|
  {
    if Energy(h[i], f) >= 0.0 then OnGrid(Energy(h[i], f))
    else if i == 0 then -1.0
    else LatestKnown(h, f, i - 1)
  }

  function QuantisedState(h: seq<PowerState>, i: nat): PowerState
    requires i < |h|
  {
    PowerState(1000 * TimeMs(h[0], h[i]), h[i].online,
               LatestKnown(h, Now, i), LatestKnown(h, Full, i), LatestKnown(h, Design, i))
  }

  function Quantised(h: seq<PowerState>): (q: seq<PowerState>)
    ensures |q| == |h|
    ensures forall i | 0 <= i < |h| :: q[i] == QuantisedState(h, i)
  {
    seq(|h|, i requires 0 <= i < |h| => QuantisedState(h, i))
  }

  lemma DecodeOneState(h: seq<PowerState>)
    requires h != []
    ensures DecodeState(if |h| == 1 then INITIAL_STATE else QuantisedState(h, |h| - 2),
                        JObject(EncodeState(h[0], Previous(h), Last(h))))
            == Success(QuantisedState(h, |h| - 1))
  {
  }

  lemma {:induction false} LatestKnownPrefix(h: seq<PowerState>, f: Field, i: nat, n: nat)
    requires i < n <= |h|
    ensures LatestKnown(h[..n], f, i) == LatestKnown(h, f, i)
  {
    if i > 0 {
      LatestKnownPrefix(h, f, i - 1, n);
    }
  }

  lemma QuantisedPrefix(h: seq<PowerState>)
    requires h != []
    ensures Quantised(h) == Quantised(h[..|h| - 1]) + [QuantisedState(h, |h| - 1)]
  {
    var n := |h| - 1;
    forall i | 0 <= i < n
      ensures QuantisedState(h[..n], i) == QuantisedState(h, i)
    {
      LatestKnownPrefix(h, Now, i, n);
      LatestKnownPrefix(h, Full, i, n);
      LatestKnownPrefix(h, Design, i, n);
    }
  }

  /** Decoding an encoded log gives, for every reading, the rounded offset and the last known
      value of each field, rounded: for every history whatsoever. */
  lemma {:induction false} DecodeEncode(h: seq<PowerState>)
    ensures DecodeLog(EncodeLog(h)) == Success(Quantised(h))
  {
    if h != [] {
      var front := h[..|h| - 1];
      DecodeEncode(front);
      QuantisedPrefix(h);
      var entry := JObject(EncodeState(h[0], Previous(h), Last(h)));
      assert EncodeLog(h) == EncodeLog(front) + [entry];
      assert EncodeLog(h)[..|h| - 1] == EncodeLog(front);
      DecodeOneState(h);
    }
  }

  lemma SavedMembers(d: Duration, log: seq<Json>)
    ensures var o := DurationMember(d)[LogKey := JArray(log)];
            LoadDuration(o) == Success(d) && GetArray(o, LogKey) == Ok(log)
  {
  }

  lemma LoadSaved(run: Run)
    ensures Load(SavedFile(run))
            == Success(AddAll(BLANK_RUN.(duration := run.duration), Quantised(run.history)))
  {
    DecodeEncode(run.history);
    SavedMembers(run.duration, EncodeLog(run.history));
  }

  // ---------------------------------------------------------------------------------
  // Exactness

  function Rebased(h: seq<PowerState>): (r: seq<PowerState>)
    ensures |r| == |h|
    ensures forall i | 0 <= i < |h| :: r[i] == h[i].(timeUs := h[i].timeUs - h[0].timeUs)
  {
    seq(|h|, i requires 0 <= i < |h| => h[i].(timeUs := h[i].timeUs - h[0].timeUs))
  }

  /** Offsets are whole, non-negative milliseconds. */
  predicate WholeMs(h: seq<PowerState>) {
    forall i | 0 <= i < |h| :: h[i].timeUs >= h[0].timeUs && (h[i].timeUs - h[0].timeUs) % 1000 == 0
  }

  /** An energy is unknown or a whole number of microwatt-hours. */
  predicate WholeMicro(value: real) {
    value == -1.0 || (value >= 0.0 && (1000000.0 * value).Floor as real == 1000000.0 * value)
  }

  predicate WholeEnergies(h: seq<PowerState>) {
    forall i, f: Field | 0 <= i < |h| :: WholeMicro(Energy(h[i], f))
  }

  predicate Remembers(last: PowerState, state: PowerState) {
    forall f: Field :: Energy(last, f) >= 0.0 ==> Energy(state, f) >= 0.0
  }

  /** No energy field goes from known back to unknown. */
  predicate KnownStays(h: seq<PowerState>) {
    forall i | 0 < i < |h| :: Remembers(h[i - 1], h[i])
  }

  lemma WholeMicroIsFixed(value: real)
    requires WholeMicro(value) && value >= 0.0
    ensures OnGrid(value) == value
  {
    var n := (1000000.0 * value).Floor;
    assert Micro(value) == n;
  }

  lemma TimeMsExact(start: PowerState, state: PowerState)
    requires state.timeUs >= start.timeUs && (state.timeUs - start.timeUs) % 1000 == 0
    ensures 1000 * TimeMs(start, state) == state.timeUs - start.timeUs
  {
  }

  lemma {:induction false} LatestKnownExact(h: seq<PowerState>, f: Field, i: nat)
    requires i < |h| && WholeEnergies(h) && KnownStays(h)
    ensures LatestKnown(h, f, i) == Energy(h[i], f)
  {
    assert WholeMicro(Energy(h[i], f));
    if Energy(h[i], f) >= 0.0 {
      WholeMicroIsFixed(Energy(h[i], f));
    } else if i > 0 {
      LatestKnownExact(h, f, i - 1);
      assert WholeMicro(Energy(h[i - 1], f));
    }
  }

  lemma OnGridKnown(value: real)
    requires value >= 0.0
    ensures Micro(value) >= 0 && OnGrid(value) >= 0.0
  {
  }

  lemma {:induction false} LatestKnownStays(h: seq<PowerState>, f: Field, i: nat, j: nat)
    requires i <= j < |h| && Energy(h[i], f) >= 0.0
    ensures LatestKnown(h, f, j) >= 0.0
  {
    if Energy(h[j], f) >= 0.0 {
      OnGridKnown(Energy(h[j], f));
    } else {
      LatestKnownStays(h, f, i, j - 1);
    }
  }

  /** On the grid, encoding followed by decoding loses nothing but the time origin exactly
      when no field is forgotten: the log cannot say that a known field became unknown. */
  lemma QuantisedExactIff(h: seq<PowerState>)
    requires WholeMs(h) && WholeEnergies(h)
    ensures Quantised(h) == Rebased(h) <==> KnownStays(h)
  {
    if KnownStays(h) {
      forall i | 0 <= i < |h|
        ensures Quantised(h)[i] == Rebased(h)[i]
      {
        TimeMsExact(h[0], h[i]);
        LatestKnownExact(h, Now, i);
        LatestKnownExact(h, Full, i);
        LatestKnownExact(h, Design, i);
      }
    } else {
      var i :| 0 < i < |h| && !Remembers(h[i - 1], h[i]);
      var f: Field :| Energy(h[i - 1], f) >= 0.0 && Energy(h[i], f) < 0.0;
      LatestKnownStays(h, f, i - 1, i);
      assert Energy(Quantised(h)[i], f) == LatestKnown(h, f, i);
      assert Energy(Rebased(h)[i], f) == Energy(h[i], f);
    }
  }

  lemma RebasedThinned(d: Duration, h: seq<PowerState>)
    requires Thinned(d, h)
    ensures Thinned(d, Rebased(h))
  {
    var r := Rebased(h);
    forall i | 0 < i < |r|
      ensures Keeps(d, r[0], r[i - 1], r[i])
    {
      assert Keeps(d, h[0], h[i - 1], h[i]);
    }
  }

  lemma RebasedPeak(h: seq<PowerState>, p: real)
    ensures IsPeakPower(h, p) ==> IsPeakPower(Rebased(h), p)
  {
    var r := Rebased(h);
    assert forall i | 0 < i < |h| :: ComputeStatistics(r[i - 1], r[i]) == ComputeStatistics(h[i - 1], h[i]);
  }

  lemma RebasedLife(h: seq<PowerState>, l: real)
    ensures IsLongestLife(h, l) ==> IsLongestLife(Rebased(h), l)
  {
    var r := Rebased(h);
    assert forall i | 0 < i < |h| :: ComputeStatistics(r[0], r[i]) == ComputeStatistics(h[0], h[i]);
  }

  /** Two runs with the same thinned history have the same maxima. */
  lemma SameMaxima(h: seq<PowerState>, p: real, q: real, l: real, m: real)
    requires IsPeakPower(h, p) && IsPeakPower(h, q)
    requires IsLongestLife(h, l) && IsLongestLife(h, m)
    ensures p == q && l == m
  {
  }

  lemma {:induction false} HistoryIsNoLonger(run: Run, states: seq<PowerState>)
    ensures |AddAll(run, states).history| <= |run.history| + |states|
    ensures |AddAll(run, states).history| == |run.history| + |states| ==>
              AddAll(run, states).history == run.history + states
  {
    if states != [] {
      var front := states[..|states| - 1];
      HistoryIsNoLonger(run, front);
      assert states == front + [Last(states)];
    }
  }

  /** Loading a saved run on the grid gives back its history with times rebased to zero,
      every reading kept, and the same maxima: exactly when no field was forgotten. */
  lemma LoadSavedExactIff(run: Run)
    requires WellBuilt(run) && WholeMs(run.history) && WholeEnergies(run.history)
    ensures Load(SavedFile(run)).Success?
    ensures Load(SavedFile(run)).value.history == Rebased(run.history) <==> KnownStays(run.history)
    ensures KnownStays(run.history) ==>
              Load(SavedFile(run)).value
              == BLANK_RUN.(duration := run.duration, history := Rebased(run.history),
                            maxPower := run.maxPower, maxLife := run.maxLife)
  {
    LoadSaved(run);
    QuantisedExactIff(run.history);
    var blank := BLANK_RUN.(duration := run.duration);
    var loaded := AddAll(blank, Quantised(run.history));
    HistoryIsNoLonger(blank, Quantised(run.history));
    if KnownStays(run.history) {
      RebasedThinned(run.duration, run.history);
      ThinnedIsFixed(blank, Rebased(run.history));
      BuiltRuns(blank, Rebased(run.history));
      RebasedPeak(run.history, run.maxPower);
      RebasedLife(run.history, run.maxLife);
      SameMaxima(loaded.history, loaded.maxPower, run.maxPower, loaded.maxLife, run.maxLife);
    }
  }

  // ---------------------------------------------------------------------------------
  // Thinning selects entries

  /** The indices of the entries that thinning keeps. */
  function Kept(d: Duration, q: seq<PowerState>): (ks: seq<nat>)
    ensures forall j | 0 <= j < |ks| :: ks[j] < |q|
    ensures forall j | 0 < j < |ks| :: ks[j - 1] < ks[j]
    ensures q != [] ==> ks != [] && ks[0] == 0
  {
    if q == [] then []
    else if |q| == 1 then [0]
    else
      var ks := Kept(d, q[..|q| - 1]);
      if Keeps(d, q[0], q[Last(ks)], Last(q)) then ks + [|q| - 1] else ks
  }

  lemma {:induction false} ThinningKeepsKept(blank: Run, q: seq<PowerState>)
    requires blank.history == []
    ensures var ks, h := Kept(blank.duration, q), AddAll(blank, q).history;
            && |h| == |ks|
            && (forall j | 0 <= j < |ks| :: h[j] == q[ks[j]])
    ensures AddAll(blank, q).duration == blank.duration
  {
    if |q| > 0 {
      ThinningKeepsKept(blank, q[..|q| - 1]);
    }
    if |q| == 1 {
      assert AddAll(blank, q[..0]) == blank;
    }
  }

  // ---------------------------------------------------------------------------------
  // One round of saving and loading reaches a fixed point

  /** What the loader can have produced: times from zero on whole milliseconds, energies on
      the grid, and no field forgotten. */
  ghost predicate Settled(h: seq<PowerState>) {
    && WholeMs(h) && WholeEnergies(h) && KnownStays(h)
    && (h != [] ==> h[0].timeUs == 0)
  }

  lemma GridPoint(n: nat)
    ensures WholeMicro(n as real / 1000000.0)
  {
    assert 1000000.0 * (n as real / 1000000.0) == n as real;
  }

  lemma {:induction false} LatestKnownWhole(h: seq<PowerState>, f: Field, i: nat)
    requires i < |h|
    ensures WholeMicro(LatestKnown(h, f, i))
  {
    if Energy(h[i], f) >= 0.0 {
      OnGridKnown(Energy(h[i], f));
      GridPoint(Micro(Energy(h[i], f)));
    } else if i > 0 {
      LatestKnownWhole(h, f, i - 1);
    }
  }

  lemma QuantisedSettled(h: seq<PowerState>)
    requires forall i | 0 <= i < |h| :: h[i].timeUs >= h[0].timeUs
    ensures Settled(Quantised(h))
  {
    var q := Quantised(h);
    forall i, f: Field | 0 <= i < |q|
      ensures WholeMicro(Energy(q[i], f))
    {
      LatestKnownWhole(h, f, i);
    }
    forall i | 0 < i < |q|
      ensures Remembers(q[i - 1], q[i])
    {
      forall f: Field | Energy(q[i - 1], f) >= 0.0
        ensures Energy(q[i], f) >= 0.0
      {
        if Energy(h[i], f) >= 0.0 {
          OnGridKnown(Energy(h[i], f));
        }
      }
    }
    forall i | 0 <= i < |q|
      ensures q[i].timeUs >= q[0].timeUs && (q[i].timeUs - q[0].timeUs) % 1000 == 0
    {
      assert TimeMs(h[0], h[0]) == 0 <= TimeMs(h[0], h[i]);
    }
  }

  lemma {:induction false} KnownFromThenOn(q: seq<PowerState>, f: Field, i: nat, j: nat)
    requires KnownStays(q) && i <= j < |q| && Energy(q[i], f) >= 0.0
    ensures Energy(q[j], f) >= 0.0
  {
    if i < j {
      KnownFromThenOn(q, f, i, j - 1);
      assert Remembers(q[j - 1], q[j]);
    }
  }

  lemma SelectionRemembers(q: seq<PowerState>, i: nat, j: nat)
    requires KnownStays(q) && i <= j < |q|
    ensures Remembers(q[i], q[j])
  {
    forall f: Field | Energy(q[i], f) >= 0.0
      ensures Energy(q[j], f) >= 0.0
    {
      KnownFromThenOn(q, f, i, j);
    }
  }

  /** Selecting entries of a settled log, the first among them, gives a settled log. */
  lemma SelectionSettled(q: seq<PowerState>, ks: seq<nat>, h: seq<PowerState>)
    requires Settled(q) && |h| == |ks|
    requires forall j | 0 <= j < |ks| :: ks[j] < |q| && h[j] == q[ks[j]]
    requires forall j | 0 < j < |ks| :: ks[j - 1] < ks[j]
    requires ks != [] ==> ks[0] == 0
    ensures Settled(h)
  {
    forall i, f: Field | 0 <= i < |h|
      ensures WholeMicro(Energy(h[i], f))
    {
      assert WholeMicro(Energy(q[ks[i]], f));
    }
    forall j | 0 < j < |h|
      ensures Remembers(h[j - 1], h[j])
    {
      SelectionRemembers(q, ks[j - 1], ks[j]);
    }
  }

  /** Thinning a settled log gives a settled log. */
  lemma ThinningKeepsSettled(blank: Run, q: seq<PowerState>)
    requires blank.history == [] && Settled(q)
    ensures Settled(AddAll(blank, q).history)
  {
    ThinningKeepsKept(blank, q);
    SelectionSettled(q, Kept(blank.duration, q), AddAll(blank, q).history);
  }

  /** Load after save, applied twice, equals load after save applied once. */
  lemma LoadSaveIdempotent(run: Run)
    requires forall i | 0 <= i < |run.history| :: run.history[i].timeUs >= run.history[0].timeUs
    ensures Load(SavedFile(run)).Success?
    ensures Load(SavedFile(Load(SavedFile(run)).value)) == Load(SavedFile(run))
  {
    LoadSaved(run);
    var blank := BLANK_RUN.(duration := run.duration);
    var once := AddAll(blank, Quantised(run.history));
    QuantisedSettled(run.history);
    ThinningKeepsSettled(blank, Quantised(run.history));
    BuiltRuns(blank, Quantised(run.history));
    assert WellBuilt(once);
    LoadSavedExactIff(once);
    assert Rebased(once.history) == once.history;
  }

  // ---------------------------------------------------------------------------------
  // Thinning the loaded entries again

  /** The kept indices start at 0 and never skip two neighbours, inside or at the end. */
  predicate SkipsOnlySingles(ks: seq<nat>, n: nat) {
    && (n > 0 ==> ks != [] && ks[0] == 0 && n - 2 <= Last(ks) < n)
    && (forall j | 0 < j < |ks| :: ks[j - 1] < ks[j] <= ks[j - 1] + 2)
  }

  /** Rounding moves a gap by less than a millisecond. */
  lemma SavedGap(h: seq<PowerState>, i: nat, j: nat)
    requires i < |h| && j < |h|
    requires h[0].timeUs <= h[i].timeUs && h[0].timeUs <= h[j].timeUs
    ensures Quantised(h)[j].timeUs - Quantised(h)[i].timeUs > h[j].timeUs - h[i].timeUs - 1000
  {
  }

  lemma TimesIncrease(seconds: real, h: seq<PowerState>, k: nat)
    requires Thinned(Seconds(seconds), h) && seconds >= 0.0 && k < |h|
    ensures h[k].timeUs >= h[0].timeUs
  {
    TimeGrows(seconds, h, k);
    NonNegativeProduct(k as real, Spacing(seconds));
  }

  lemma {:induction false} RethinPrefix(seconds: real, h: seq<PowerState>, n: nat)
    requires Thinned(Seconds(seconds), h) && seconds >= 0.1 && n <= |h|
    ensures SkipsOnlySingles(Kept(Seconds(seconds), Quantised(h)[..n]), n)
  {
    if n > 1 {
      RethinPrefix(seconds, h, n - 1);
      var q, d := Quantised(h), Seconds(seconds);
      assert q[..n][..n - 1] == q[..n - 1];
      var ks := Kept(d, q[..n - 1]);
      if Last(ks) == n - 3 {
        assert Keeps(d, h[0], h[n - 3], h[n - 2]) && Keeps(d, h[0], h[n - 2], h[n - 1]);
        TimesIncrease(seconds, h, n - 3);
        TimesIncrease(seconds, h, n - 1);
        SavedGap(h, n - 3, n - 1);
        assert Keeps(d, q[0], q[n - 3], q[n - 1]);
      }
    }
  }

  /** For a timed run of at least 0.1 s, thinning the loaded entries keeps the first one and
      never drops two neighbours. */
  lemma RethinSkipsOnlySingles(run: Run)
    requires WellBuilt(run) && run.duration.Seconds? && run.duration.seconds >= 0.1
    ensures SkipsOnlySingles(Kept(run.duration, Quantised(run.history)), |run.history|)
    ensures var ks, q, loaded := Kept(run.duration, Quantised(run.history)), Quantised(run.history),
                                 Load(SavedFile(run));
            && loaded.Success?
            && |loaded.value.history| == |ks|
            && (forall j | 0 <= j < |ks| :: loaded.value.history[j] == q[ks[j]])
  {
    var q := Quantised(run.history);
    RethinPrefix(run.duration.seconds, run.history, |q|);
    assert q[..|q|] == q;
    LoadSaved(run);
    ThinningKeepsKept(BLANK_RUN.(duration := run.duration), q);
  }

  /** Every gap between neighbours, in saved milliseconds, exceeds the spacing. */
  predicate SavedGapsExceed(seconds: real, h: seq<PowerState>) {
    forall i | 0 < i < |h| :: (1000 * (TimeMs(h[0], h[i]) - TimeMs(h[0], h[i - 1]))) as real > Spacing(seconds)
  }

  lemma SavedGapsThinned(seconds: real, h: seq<PowerState>)
    ensures SavedGapsExceed(seconds, h) <==> Thinned(Seconds(seconds), Quantised(h))
  {
    var q := Quantised(h);
    forall i | 0 < i < |h|
      ensures Keeps(Seconds(seconds), q[0], q[i - 1], q[i])
              <==> (1000 * (TimeMs(h[0], h[i]) - TimeMs(h[0], h[i - 1]))) as real > Spacing(seconds)
    {
      assert q[i].timeUs - q[i - 1].timeUs == 1000 * (TimeMs(h[0], h[i]) - TimeMs(h[0], h[i - 1]));
    }
  }

  /** Thinning keeps everything exactly if there is nothing to thin. */
  lemma {:induction false} KeepsAllIff(blank: Run, q: seq<PowerState>)
    requires Fresh(blank)
    ensures |AddAll(blank, q).history| == |q| <==> Thinned(blank.duration, q)
    ensures Thinned(blank.duration, q) ==> AddAll(blank, q).history == q
  {
    if Thinned(blank.duration, q) {
      ThinnedIsFixed(blank, q);
    }
    if |AddAll(blank, q).history| == |q| {
      HistoryIsNoLonger(blank, q);
      assert blank.history + q == q;
      BuiltRuns(blank, q);
    }
  }

  /** Loading a timed run drops none of the saved entries exactly if every saved gap exceeds the
      spacing. */
  lemma RethinDropsNoneIff(run: Run)
    requires run.duration.Seconds?
    ensures Load(SavedFile(run)).Success?
    ensures |Load(SavedFile(run)).value.history| == |run.history|
            <==> SavedGapsExceed(run.duration.seconds, run.history)
    ensures SavedGapsExceed(run.duration.seconds, run.history)
            ==> Load(SavedFile(run)).value.history == Quantised(run.history)
  {
    LoadSaved(run);
    SavedGapsThinned(run.duration.seconds, run.history);
    KeepsAllIff(BLANK_RUN.(duration := run.duration), Quantised(run.history));
  }

  /** So it drops none if every gap of a run is the spacing and a millisecond more. */
  lemma RethinDropsNone(run: Run)
    requires WellBuilt(run) && run.duration.Seconds? && run.duration.seconds >= 0.0
    requires forall i | 0 < i < |run.history| ::
               (run.history[i].timeUs - run.history[i - 1].timeUs) as real
               >= Spacing(run.duration.seconds) + 1000.0
    ensures Load(SavedFile(run)).Success?
    ensures Load(SavedFile(run)).value.history == Quantised(run.history)
  {
    var h, q := run.history, Quantised(run.history);
    forall i | 0 < i < |q|
      ensures (1000 * (TimeMs(h[0], h[i]) - TimeMs(h[0], h[i - 1]))) as real > Spacing(run.duration.seconds)
    {
      TimesIncrease(run.duration.seconds, h, i - 1);
      TimesIncrease(run.duration.seconds, h, i);
      SavedGap(h, i - 1, i);
      assert q[i].timeUs - q[i - 1].timeUs == 1000 * (TimeMs(h[0], h[i]) - TimeMs(h[0], h[i - 1]));
    }
    RethinDropsNoneIff(run);
  }
}
