/** src/power-monitor.c: battery readings, the statistics between two readings, and the
    aggregation of several batteries into one reading. */
module PowerMonitor {
  import opened Doubles

  /** Time between two polls of the batteries, in milliseconds. */
  const UPDATE_FREQUENCY := 250

  /** One reading. An energy below zero is unknown; the monitor writes -1 there. */
  datatype PowerState = PowerState(
    timeUs: int,
    online: bool,
    energyNow: real,
    energyFull: real,
    energyFullDesign: real)

  const INITIAL_STATE := PowerState(0, false, -1.0, -1.0, -1.0)

  function Percent(s: PowerState): Double {
    Quotient(100.0 * s.energyNow, s.energyFull)
  }

  /** Everything but the time stamp agrees. */
  predicate SameReading(a: PowerState, b: PowerState) {
    && a.online == b.online
    && a.energyNow == b.energyNow
    && a.energyFull == b.energyFull
    && a.energyFullDesign == b.energyFullDesign
  }

  /** Figures between two readings; -1 marks a figure that was not computed. */
  datatype Statistics = Statistics(power: real, batteryLife: real, batteryLifeDesign: real)

  const NO_STATISTICS := Statistics(-1.0, -1.0, -1.0)

  function ComputeStatistics(base: PowerState, current: PowerState): Statistics {
    var elapsed := (current.timeUs - base.timeUs) as real / 1000000.0;
    var used := base.energyNow - current.energyNow;
    if elapsed < UPDATE_FREQUENCY as real / 1000.0 || used <= 0.0 then
      NO_STATISTICS
    else
      var power := 3600.0 * used / elapsed;
      Statistics(
        power,
        if base.energyFull >= 0.0 then 3600.0 * base.energyFull / power else -1.0,
        if base.energyFullDesign >= 0.0 then 3600.0 * base.energyFullDesign / power else -1.0)
  }

  /** Seconds between two readings. */
  function Elapsed(base: PowerState, current: PowerState): real {
    (current.timeUs - base.timeUs) as real / 1000000.0
  }

  /** Energy used between two readings. */
  function Used(base: PowerState, current: PowerState): real {
    base.energyNow - current.energyNow
  }

  lemma QuotientTimes(a: real, b: real)
    requires b != 0.0
    ensures a / b * b == a
  {
  }

  lemma SignOfFactor(a: real, b: real)
    requires b > 0.0
    ensures a * b > 0.0 <==> a > 0.0
    ensures a * b >= 0.0 <==> a >= 0.0
  {
  }

  /** At some power, `used` is used up in `elapsed` and `full` in the life computed for it. */
  lemma LifeProportion(full: real, used: real, elapsed: real, power: real, life: real)
    requires elapsed > 0.0 && power > 0.0
    requires power * elapsed == 3600.0 * used && life * power == 3600.0 * full
    ensures life * used == full * elapsed
  {
    var a := life * (power * elapsed);
    assert a == life * (3600.0 * used);
    assert a == (life * power) * elapsed;
  }

  /** A life is known exactly when there is a power and a full energy, and then it is to the
      elapsed time what the full energy is to the energy used. */
  lemma LifeIsProportional(full: real, used: real, elapsed: real)
    requires elapsed > 0.0 && used > 0.0
    ensures var power := 3600.0 * used / elapsed; var life := 3600.0 * full / power;
            && power > 0.0 && power * elapsed == 3600.0 * used
            && life * used == full * elapsed
            && (full >= 0.0 ==> life >= 0.0)
  {
    var power := 3600.0 * used / elapsed;
    QuotientTimes(3600.0 * used, elapsed);
    SignOfFactor(power, elapsed);
    var life := 3600.0 * full / power;
    QuotientTimes(3600.0 * full, power);
    LifeProportion(full, used, elapsed, power, life);
    SignOfFactor(life, power);
  }

  /** What the figures between two readings mean: none is computed for less than a quarter of a
      second or if nothing was used; otherwise the power is the energy used in the time, in units
      of an hour, and a life is to the time what the energy of a full battery is to the one used. */
  lemma StatisticsMeaning(base: PowerState, current: PowerState)
    ensures var s, elapsed, used := ComputeStatistics(base, current), Elapsed(base, current), Used(base, current);
            && (s.power != -1.0 <==> elapsed >= 0.25 && used > 0.0)
            && (s.power != -1.0 ==> s.power > 0.0 && s.power * elapsed == 3600.0 * used)
            && (s.batteryLife != -1.0 <==> elapsed >= 0.25 && used > 0.0 && base.energyFull >= 0.0)
            && (s.batteryLife != -1.0 ==> s.batteryLife * used == base.energyFull * elapsed)
            && (s.batteryLifeDesign != -1.0 <==> elapsed >= 0.25 && used > 0.0 && base.energyFullDesign >= 0.0)
            && (s.batteryLifeDesign != -1.0 ==> s.batteryLifeDesign * used == base.energyFullDesign * elapsed)
  {
    var elapsed, used := Elapsed(base, current), Used(base, current);
    if elapsed >= 0.25 && used > 0.0 {
      LifeIsProportional(base.energyFull, used, elapsed);
      LifeIsProportional(base.energyFullDesign, used, elapsed);
    }
  }

  // ---------------------------------------------------------------------------------
  // Aggregating batteries

  /** What one battery reports at a poll. */
  datatype Battery = Battery(energyNow: real, energyFull: real, energyFullDesign: real)

  function AddTo(total: real, increment: real): real {
    if total >= 0.0 then total + increment else increment
  }

  /** The running total after adding the increments one by one to an unknown total. */
  function Accumulate(xs: seq<real>): real {
    if xs == [] then -1.0 else AddTo(Accumulate(xs[..|xs| - 1]), xs[|xs| - 1])
  }

  function Sum(xs: seq<real>): real {
    if xs == [] then 0.0 else Sum(xs[..|xs| - 1]) + xs[|xs| - 1]
  }

  predicate AllKnown(xs: seq<real>) {
    forall i | 0 <= i < |xs| :: xs[i] >= 0.0
  }

  predicate AllUnknown(xs: seq<real>) {
    forall i | 0 <= i < |xs| :: xs[i] == -1.0
  }

  function NowColumn(bs: seq<Battery>): (col: seq<real>)
    ensures |col| == |bs|
    ensures forall i | 0 <= i < |bs| :: col[i] == bs[i].energyNow
  {
    seq(|bs|, i requires 0 <= i < |bs| => bs[i].energyNow)
  }

  function FullColumn(bs: seq<Battery>): (col: seq<real>)
    ensures |col| == |bs|
    ensures forall i | 0 <= i < |bs| :: col[i] == bs[i].energyFull
  {
    seq(|bs|, i requires 0 <= i < |bs| => bs[i].energyFull)
  }

  function DesignColumn(bs: seq<Battery>): (col: seq<real>)
    ensures |col| == |bs|
    ensures forall i | 0 <= i < |bs| :: col[i] == bs[i].energyFullDesign
  {
    seq(|bs|, i requires 0 <= i < |bs| => bs[i].energyFullDesign)
  }

  /** The design energy is the sum exactly when every battery reports one. */
  function DesignTotal(designs: seq<real>): real {
    if designs != [] && AllKnown(designs) then Sum(designs) else -1.0
  }

  /** The reading that a poll of these adapters and batteries must produce. */
  function Reading(adapters: seq<bool>, batteries: seq<Battery>, now: int): PowerState {
    PowerState(
      now,
      true in adapters,
      Accumulate(NowColumn(batteries)),
      Accumulate(FullColumn(batteries)),
      DesignTotal(DesignColumn(batteries)))
  }

  /** A figure summed over the batteries: the sum if all report it, unknown if none does. */
  predicate SumsUp(total: real, column: seq<real>) {
    && (column != [] && AllKnown(column) ==> total == Sum(column) && total >= 0.0)
    && (AllUnknown(column) ==> total == -1.0)
  }

  /** What a reading says of the adapters and batteries, apart from its time. */
  predicate Describes(state: PowerState, adapters: seq<bool>, batteries: seq<Battery>) {
    && (state.online <==> exists i | 0 <= i < |adapters| :: adapters[i])
    && SumsUp(state.energyNow, NowColumn(batteries))
    && SumsUp(state.energyFull, FullColumn(batteries))
    && (state.energyFullDesign != -1.0 <==> batteries != [] && AllKnown(DesignColumn(batteries)))
    && SumsUp(state.energyFullDesign, DesignColumn(batteries))
  }

  lemma AccumulateSumsUp(column: seq<real>)
    ensures SumsUp(Accumulate(column), column)
  {
    if column != [] && AllKnown(column) {
      AccumulateIsSum(column);
    }
    if AllUnknown(column) {
      AccumulateUnknown(column);
    }
  }

  lemma ReadingDescribes(adapters: seq<bool>, batteries: seq<Battery>, now: int)
    ensures Describes(Reading(adapters, batteries, now), adapters, batteries)
  {
    AccumulateSumsUp(NowColumn(batteries));
    AccumulateSumsUp(FullColumn(batteries));
    var designs := DesignColumn(batteries);
    if designs != [] && AllKnown(designs) {
      SumNonNegative(designs);
    }
  }

  method ReadState(adapters: seq<bool>, batteries: seq<Battery>, now: int) returns (state: PowerState)
    ensures state == Reading(adapters, batteries, now)
    ensures Describes(state, adapters, batteries) && state.timeUs == now
  {
    state := INITIAL_STATE.(timeUs := now);

    for i := 0 to |adapters|
      invariant state == INITIAL_STATE.(timeUs := now, online := true in adapters[..i])
    {
      if adapters[i] {
        state := state.(online := true);
      }
    }
    assert adapters[..|adapters|] == adapters;

    var nBatteries := 0;
    for i := 0 to |batteries|
      invariant nBatteries == i
      invariant state == Reading(adapters, batteries[..i], now)
    {
      ColumnsGrow(batteries, i);
      var battery := batteries[i];
      state := state.(
        energyNow := AddTo(state.energyNow, battery.energyNow),
        energyFull := AddTo(state.energyFull, battery.energyFull));
      ghost var seen := DesignColumn(batteries[..i]);
      DesignStep(seen, battery.energyFullDesign);
      if battery.energyFullDesign >= 0.0 {
        if nBatteries == 0 || state.energyFullDesign >= 0.0 {
          state := state.(energyFullDesign := AddTo(state.energyFullDesign, battery.energyFullDesign));
        }
      } else {
        state := state.(energyFullDesign := -1.0);
      }
      nBatteries := nBatteries + 1;
    }
    assert batteries[..|batteries|] == batteries;
    ReadingDescribes(adapters, batteries, now);
  }

  lemma ColumnsGrow(bs: seq<Battery>, i: nat)
    requires i < |bs|
    ensures NowColumn(bs[..i + 1]) == NowColumn(bs[..i]) + [bs[i].energyNow]
    ensures FullColumn(bs[..i + 1]) == FullColumn(bs[..i]) + [bs[i].energyFull]
    ensures DesignColumn(bs[..i + 1]) == DesignColumn(bs[..i]) + [bs[i].energyFullDesign]
    ensures Accumulate(NowColumn(bs[..i + 1])) == AddTo(Accumulate(NowColumn(bs[..i])), bs[i].energyNow)
    ensures Accumulate(FullColumn(bs[..i + 1])) == AddTo(Accumulate(FullColumn(bs[..i])), bs[i].energyFull)
  {
    AccumulateSnoc(NowColumn(bs[..i]), bs[i].energyNow);
    AccumulateSnoc(FullColumn(bs[..i]), bs[i].energyFull);
  }

  lemma AccumulateSnoc(xs: seq<real>, x: real)
    ensures Accumulate(xs + [x]) == AddTo(Accumulate(xs), x)
    ensures Sum(xs + [x]) == Sum(xs) + x
  {
    assert (xs + [x])[..|xs|] == xs;
  }

  lemma {:induction false} SumNonNegative(xs: seq<real>)
    requires AllKnown(xs)
    ensures Sum(xs) >= 0.0
  {
    if xs != [] {
      SumNonNegative(xs[..|xs| - 1]);
    }
  }

  /** The three branches of the loop on one more design energy. */
  lemma DesignStep(xs: seq<real>, x: real)
    ensures x >= 0.0 && xs == [] ==> DesignTotal(xs + [x]) == AddTo(DesignTotal(xs), x)
    ensures x >= 0.0 && xs != [] && DesignTotal(xs) >= 0.0 ==>
              DesignTotal(xs + [x]) == AddTo(DesignTotal(xs), x)
    ensures x >= 0.0 && xs != [] && DesignTotal(xs) < 0.0 ==> DesignTotal(xs + [x]) == DesignTotal(xs)
    ensures x < 0.0 ==> DesignTotal(xs + [x]) == -1.0
  {
    AccumulateSnoc(xs, x);
    var ys := xs + [x];
    assert ys[|xs|] == x;
    assert forall i | 0 <= i < |xs| :: ys[i] == xs[i];
    if AllKnown(xs) {
      SumNonNegative(xs);
    } else {
      var i :| 0 <= i < |xs| && xs[i] < 0.0;
      assert ys[i] < 0.0;
    }
  }

  // ---------------------------------------------------------------------------------
  // Independence of the discovery order

  lemma {:induction false} AccumulateIsSum(xs: seq<real>)
    requires xs != [] && AllKnown(xs)
    ensures Accumulate(xs) == Sum(xs) >= 0.0
  {
    SumNonNegative(xs);
    if |xs| > 1 {
      AccumulateIsSum(xs[..|xs| - 1]);
    }
  }

  lemma {:induction false} AccumulateUnknown(xs: seq<real>)
    requires AllUnknown(xs)
    ensures Accumulate(xs) == -1.0
  {
    if xs != [] {
      AccumulateUnknown(xs[..|xs| - 1]);
    }
  }

  lemma {:induction false} SumAppend(xs: seq<real>, ys: seq<real>)
    ensures Sum(xs + ys) == Sum(xs) + Sum(ys)
  {
    if ys == [] {
      assert xs + ys == xs;
    } else {
      var front := ys[..|ys| - 1];
      assert xs + ys == (xs + front) + [ys[|ys| - 1]];
      AccumulateSnoc(xs + front, ys[|ys| - 1]);
      SumAppend(xs, front);
    }
  }

  lemma TakeOut<T>(xs: seq<T>, k: nat)
    requires k < |xs|
    ensures multiset(xs) == multiset(xs[..k] + xs[k + 1..]) + multiset{xs[k]}
  {
    assert xs == xs[..k] + [xs[k]] + xs[k + 1..];
  }

  /** A permutation holds the last element somewhere; without it, the rest is a permutation. */
  lemma MatchLast<T>(xs: seq<T>, ys: seq<T>) returns (k: nat)
    requires multiset(xs) == multiset(ys) && xs != []
    ensures k < |ys| && ys[k] == xs[|xs| - 1]
    ensures ys == ys[..k] + [ys[k]] + ys[k + 1..]
    ensures multiset(xs[..|xs| - 1]) == multiset(ys[..k] + ys[k + 1..])
  {
    var n := |xs| - 1;
    assert xs[n] in multiset(ys);
    k :| 0 <= k < |ys| && ys[k] == xs[n];
    TakeOut(xs, n);
    TakeOut(ys, k);
    assert xs[..n] + xs[n + 1..] == xs[..n];
    var front, rest, last := multiset(xs[..n]), multiset(ys[..k] + ys[k + 1..]), multiset{xs[n]};
    assert front + last == rest + last;
    assert front == (front + last) - last == rest;
  }

  lemma {:induction false} SumPermutation(xs: seq<real>, ys: seq<real>)
    requires multiset(xs) == multiset(ys)
    ensures Sum(xs) == Sum(ys)
    decreases |xs|
  {
    if xs == [] {
      assert |multiset(ys)| == 0;
    } else {
      var k := MatchLast(xs, ys);
      var left, right := ys[..k], ys[k + 1..];
      SumPermutation(xs[..|xs| - 1], left + right);
      SumAppend(left, right);
      SumAppend(left + [ys[k]], right);
      AccumulateSnoc(left, ys[k]);
    }
  }

  lemma KnownIsOrderFree(xs: seq<real>, ys: seq<real>)
    requires multiset(xs) == multiset(ys)
    ensures |xs| == |ys|
    ensures AllKnown(xs) <==> AllKnown(ys)
    ensures AllUnknown(xs) <==> AllUnknown(ys)
  {
    assert |xs| == |multiset(xs)| == |multiset(ys)| == |ys|;
    assert forall i | 0 <= i < |xs| :: xs[i] in multiset(ys);
    assert forall i | 0 <= i < |ys| :: ys[i] in multiset(xs);
    assert forall x | x in multiset(xs) :: x in xs && x in ys;
  }

  ghost predicate OrderIndependent(xs: seq<real>) {
    forall ys | multiset(ys) == multiset(xs) :: Accumulate(ys) == Accumulate(xs)
  }

  function Known(xs: seq<real>): seq<real> {
    if xs == [] then [] else (if xs[0] >= 0.0 then [xs[0]] else []) + Known(xs[1..])
  }

  function Unknown(xs: seq<real>): seq<real> {
    if xs == [] then [] else (if xs[0] >= 0.0 then [] else [xs[0]]) + Unknown(xs[1..])
  }

  lemma {:induction false} Partition(xs: seq<real>)
    ensures multiset(Known(xs)) + multiset(Unknown(xs)) == multiset(xs)
  {
    if xs != [] {
      Partition(xs[1..]);
      assert xs == [xs[0]] + xs[1..];
    }
  }

  lemma {:induction false} PartitionSides(xs: seq<real>)
    requires forall i | 0 <= i < |xs| :: xs[i] >= 0.0 || xs[i] == -1.0
    ensures AllKnown(Known(xs)) && AllUnknown(Unknown(xs))
  {
    if xs != [] {
      PartitionSides(xs[1..]);
    }
  }

  lemma {:induction false} UnknownFirst(us: seq<real>, ks: seq<real>)
    requires AllUnknown(us) && AllKnown(ks) && ks != []
    ensures Accumulate(us + ks) == Sum(ks) >= 0.0
  {
    var front := ks[..|ks| - 1];
    assert us + ks == (us + front) + [ks[|ks| - 1]];
    AccumulateSnoc(us + front, ks[|ks| - 1]);
    if front == [] {
      assert us + front == us;
      AccumulateUnknown(us);
    } else {
      UnknownFirst(us, front);
    }
    SumNonNegative(ks);
  }

  lemma {:induction false} UnknownLast(ks: seq<real>, us: seq<real>)
    requires AllUnknown(us) && us != [] && AllKnown(ks) && ks != []
    ensures Accumulate(ks + us) < Sum(ks)
  {
    var front := us[..|us| - 1];
    assert ks + us == (ks + front) + [us[|us| - 1]];
    AccumulateSnoc(ks + front, us[|us| - 1]);
    AccumulateIsSum(ks);
    if front == [] {
      assert ks + front == ks;
    } else {
      UnknownLast(ks, front);
    }
  }

  lemma SameTotal(xs: seq<real>, ys: seq<real>)
    requires multiset(ys) == multiset(xs)
    requires AllKnown(xs) || AllUnknown(xs)
    ensures Accumulate(ys) == Accumulate(xs)
  {
    KnownIsOrderFree(xs, ys);
    if AllUnknown(xs) {
      AccumulateUnknown(xs);
      AccumulateUnknown(ys);
    } else {
      AccumulateIsSum(xs);
      AccumulateIsSum(ys);
      SumPermutation(xs, ys);
    }
  }

  /** Known before unknown and unknown before known give two different totals. */
  lemma MixedDependsOnOrder(xs: seq<real>, ks: seq<real>, us: seq<real>)
    requires multiset(ks) + multiset(us) == multiset(xs)
    requires AllKnown(ks) && AllUnknown(us) && ks != [] && us != []
    ensures !OrderIndependent(xs)
  {
    UnknownFirst(us, ks);
    UnknownLast(ks, us);
    assert multiset(us + ks) == multiset(xs) && multiset(ks + us) == multiset(xs);
  }

  /** A total does not depend on the order in which the batteries were discovered exactly
      when all of them report the figure or none does. */
  lemma OrderIndependentIff(xs: seq<real>)
    requires forall i | 0 <= i < |xs| :: xs[i] >= 0.0 || xs[i] == -1.0
    ensures OrderIndependent(xs) <==> AllKnown(xs) || AllUnknown(xs)
  {
    if AllKnown(xs) || AllUnknown(xs) {
      forall ys | multiset(ys) == multiset(xs)
        ensures Accumulate(ys) == Accumulate(xs)
      {
        SameTotal(xs, ys);
      }
    } else {
      Partition(xs);
      PartitionSides(xs);
      var ks, us := Known(xs), Unknown(xs);
      if ks == [] {
        KnownIsOrderFree(us, xs);
      } else if us == [] {
        KnownIsOrderFree(ks, xs);
      } else {
        MixedDependsOnOrder(xs, ks, us);
      }
    }
  }

  /** With known energies the reading is the sum over the batteries, whatever the order of the
      batteries and of the adapters. */
  lemma ReadingOrderFree(adapters: seq<bool>, others: seq<bool>, bs: seq<Battery>, cs: seq<Battery>, now: int)
    requires multiset(adapters) == multiset(others)
    requires bs != [] && multiset(bs) == multiset(cs)
    requires AllKnown(NowColumn(bs)) && AllKnown(FullColumn(bs))
    ensures Reading(adapters, bs, now) == Reading(others, cs, now)
    ensures Reading(adapters, bs, now).energyNow == Sum(NowColumn(bs))
    ensures Reading(adapters, bs, now).energyFull == Sum(FullColumn(bs))
    ensures Reading(adapters, bs, now).energyFullDesign ==
            if AllKnown(DesignColumn(bs)) then Sum(DesignColumn(bs)) else -1.0
  {
    assert true in multiset(adapters) <==> true in multiset(others);
    ColumnPermutations(bs, cs);
    KnownIsOrderFree(NowColumn(bs), NowColumn(cs));
    KnownIsOrderFree(FullColumn(bs), FullColumn(cs));
    KnownIsOrderFree(DesignColumn(bs), DesignColumn(cs));
    AccumulateIsSum(NowColumn(bs));
    AccumulateIsSum(NowColumn(cs));
    AccumulateIsSum(FullColumn(bs));
    AccumulateIsSum(FullColumn(cs));
    SumPermutation(NowColumn(bs), NowColumn(cs));
    SumPermutation(FullColumn(bs), FullColumn(cs));
    SumPermutation(DesignColumn(bs), DesignColumn(cs));
  }

  lemma {:induction false} ColumnPermutations(bs: seq<Battery>, cs: seq<Battery>)
    requires multiset(bs) == multiset(cs)
    ensures multiset(NowColumn(bs)) == multiset(NowColumn(cs))
    ensures multiset(FullColumn(bs)) == multiset(FullColumn(cs))
    ensures multiset(DesignColumn(bs)) == multiset(DesignColumn(cs))
    decreases |bs|
  {
    if bs == [] {
      assert |multiset(cs)| == 0;
    } else {
      var k := MatchLast(bs, cs);
      var front, left, right := bs[..|bs| - 1], cs[..k], cs[k + 1..];
      assert bs == front + [cs[k]];
      ColumnPermutations(front, left + right);
      ColumnsMove(front, cs[k], left, right);
    }
  }

  lemma ColumnsMove(front: seq<Battery>, b: Battery, left: seq<Battery>, right: seq<Battery>)
    ensures NowColumn(front + [b]) == NowColumn(front) + [b.energyNow]
    ensures FullColumn(front + [b]) == FullColumn(front) + [b.energyFull]
    ensures DesignColumn(front + [b]) == DesignColumn(front) + [b.energyFullDesign]
    ensures NowColumn(left + [b] + right) == NowColumn(left) + [b.energyNow] + NowColumn(right)
    ensures FullColumn(left + [b] + right) == FullColumn(left) + [b.energyFull] + FullColumn(right)
    ensures DesignColumn(left + [b] + right) == DesignColumn(left) + [b.energyFullDesign] + DesignColumn(right)
    ensures NowColumn(left + right) == NowColumn(left) + NowColumn(right)
    ensures FullColumn(left + right) == FullColumn(left) + FullColumn(right)
    ensures DesignColumn(left + right) == DesignColumn(left) + DesignColumn(right)
  {
  }

  // ---------------------------------------------------------------------------------
  // The monitor object

  class Monitor {
    var currentState: PowerState

    constructor (adapters: seq<bool>, batteries: seq<Battery>, now: int)
      ensures currentState == Reading(adapters, batteries, now)
      ensures Describes(currentState, adapters, batteries) && currentState.timeUs == now
    {
      var state := ReadState(adapters, batteries, now);
      currentState := state;
    }

    /** The periodic poll; `changed` says whether the "changed" signal is emitted. It is exactly if
        one of the figures has changed, and only then the time of the reading moves on. */
    method UpdateTimeout(adapters: seq<bool>, batteries: seq<Battery>, now: int) returns (changed: bool)
      modifies this
      ensures changed <==>
                || currentState.online != old(currentState.online)
                || currentState.energyNow != old(currentState.energyNow)
                || currentState.energyFull != old(currentState.energyFull)
                || currentState.energyFullDesign != old(currentState.energyFullDesign)
      ensures currentState == Reading(adapters, batteries, if changed then now else old(currentState.timeUs))
      ensures Describes(currentState, adapters, batteries)
    {
      var state := ReadState(adapters, batteries, now);
      changed := !SameReading(currentState, state);
      if changed {
        currentState := state;
      }
    }
  }
}
