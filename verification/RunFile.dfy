/** What a run file means by itself: which members a saved entry has, which files load at all, and
    what any loaded entry holds, written by the saver or not. */
module RunFiles {
  import opened Common
  import opened PowerMonitor
  import opened TestRuns
  import opened RunLog
  import opened RunLogProperties

  // ---------------------------------------------------------------------------------
  // Saved entries

  lemma {:induction false} EncodedEntry(h: seq<PowerState>, i: nat)
    requires i < |h|
    ensures EncodeLog(h)[i] == JObject(EncodeState(h[0], if i == 0 then None else Some(h[i - 1]), h[i]))
    decreases |h|
  {
    if i < |h| - 1 {
      EncodedEntry(h[..|h| - 1], i);
    }
  }

  /** A known energy is written in the first entry and whenever it changes. */
  predicate IsWritten(h: seq<PowerState>, f: Field, i: nat)
    requires i < |h|
  {
    Energy(h[i], f) >= 0.0 && (f.Now? || i == 0 || Energy(h[i], f) != Energy(h[i - 1], f))
  }

  function KeyOf(f: Field): Key {
    match f
    case Now => EnergyKey
    case Full => EnergyFullKey
    case Design => EnergyDesignKey
  }

  /** Every entry has the offset from the first reading in milliseconds; the line power when it
      changes; each energy in microwatt-hours, the current one always and the others when they
      change, unless they are unknown; and nothing else. */
  lemma SavedEntry(h: seq<PowerState>, i: nat)
    requires i < |h|
    ensures EncodeLog(h)[i].JObject?
    ensures var m := EncodeLog(h)[i].members;
            && (TimeMsKey in m && m[TimeMsKey] == JInt(TimeMs(h[0], h[i])))
            && (OnlineKey in m <==> i == 0 || h[i].online != h[i - 1].online)
            && (OnlineKey in m ==> m[OnlineKey] == JBool(h[i].online))
            && (forall f: Field :: KeyOf(f) in m <==> IsWritten(h, f, i))
            && (forall f: Field | KeyOf(f) in m :: m[KeyOf(f)] == JInt(Micro(Energy(h[i], f))))
            && m.Keys <= {TimeMsKey, OnlineKey, EnergyKey, EnergyFullKey, EnergyDesignKey}
  {
    EncodedEntry(h, i);
  }

  // ---------------------------------------------------------------------------------
  // Rounding

  /** Milliseconds are rounded to the nearest, half up; only for a reading more than half a
      millisecond before the start the cut toward zero leaves up to one and a half. */
  lemma TimeMsIsNearest(start: PowerState, state: PowerState)
    ensures var offset := state.timeUs - start.timeUs; var error := 1000 * TimeMs(start, state) - offset;
            if offset >= -500 then -500 < error <= 500 else 500 <= error < 1500
  {
  }

  /** So are microwatt-hours. */
  lemma MicroIsNearest(value: real)
    ensures var error := Micro(value) as real - 1000000.0 * value;
            if value >= -0.0000005 then -0.5 < error <= 0.5 else 0.5 <= error < 1.5
  {
  }

  lemma OnGridIsNearest(value: real)
    requires value >= 0.0
    ensures -0.0000005 < OnGrid(value) - value <= 0.0000005
  {
    MicroIsNearest(value);
  }

  /** What loading reads back differs from what was saved by at most half a millisecond in the
      time since the start, and by half a microwatt-hour in every known energy. */
  lemma LoadedWithinHalf(h: seq<PowerState>, i: nat)
    requires i < |h| && h[i].timeUs >= h[0].timeUs && KnownStays(h)
    ensures DecodeLog(EncodeLog(h)).Success?
    ensures var loaded := DecodeLog(EncodeLog(h)).value;
            && |loaded| == |h|
            && -500 < loaded[i].timeUs - (h[i].timeUs - h[0].timeUs) <= 500
            && loaded[i].online == h[i].online
            && forall f: Field :: if Energy(h[i], f) >= 0.0
                                  then -0.0000005 < Energy(loaded[i], f) - Energy(h[i], f) <= 0.0000005
                                  else Energy(loaded[i], f) == -1.0
  {
    DecodeEncode(h);
    TimeMsIsNearest(h[0], h[i]);
    forall f: Field
      ensures if Energy(h[i], f) >= 0.0
              then -0.0000005 < Energy(Quantised(h)[i], f) - Energy(h[i], f) <= 0.0000005
              else Energy(Quantised(h)[i], f) == -1.0
    {
      if Energy(h[i], f) >= 0.0 {
        OnGridIsNearest(Energy(h[i], f));
      } else {
        NeverKnown(h, f, i);
      }
    }
  }

  lemma {:induction false} NeverKnown(h: seq<PowerState>, f: Field, i: nat)
    requires i < |h| && KnownStays(h) && Energy(h[i], f) < 0.0
    ensures LatestKnown(h, f, i) == -1.0
  {
    if i > 0 {
      assert Remembers(h[i - 1], h[i]);
      NeverKnown(h, f, i - 1);
    }
  }

  // ---------------------------------------------------------------------------------
  // Which files load

  predicate IsNumber(j: Json) {
    j.JInt? || j.JDouble?
  }

  /** The members of an entry that are looked at have their types. */
  predicate WellFormedEntry(j: Json) {
    && j.JObject?
    && (TimeMsKey in j.members ==> j.members[TimeMsKey].JInt?)
    && (OnlineKey in j.members ==> j.members[OnlineKey].JBool?)
    && forall f: Field :: KeyOf(f) in j.members ==> j.members[KeyOf(f)].JInt?
  }

  predicate WellFormedFile(root: Json) {
    && root.JObject?
    && (DurationSeconds in root.members ==> IsNumber(root.members[DurationSeconds]))
    && (UntilPercentKey in root.members ==> IsNumber(root.members[UntilPercentKey]))
    && (LogKey in root.members ==>
          && root.members[LogKey].JArray?
          && forall i | 0 <= i < |root.members[LogKey].elements| :: WellFormedEntry(root.members[LogKey].elements[i]))
  }

  /** A member of an entry has the wrong type. */
  predicate IsWrong(m: map<Key, Json>, key: Key) {
    && key in m
    && (key == OnlineKey ==> !m[key].JBool?)
    && (key != OnlineKey ==> !m[key].JInt?)
  }

  /** An entry loads exactly if it is well-formed; else the error names a member that is not. */
  lemma EntryLoadsIff(carry: PowerState, j: Json)
    ensures DecodeState(carry, j).Success? <==> WellFormedEntry(j)
    ensures DecodeState(carry, j).Failure? ==>
              (DecodeState(carry, j).error.WrongType? <==> j.JObject?)
              && (j.JObject? ==> IsWrong(j.members, DecodeState(carry, j).error.member))
  {
    if j.JObject? {
      assert KeyOf(Now) == EnergyKey && KeyOf(Full) == EnergyFullKey && KeyOf(Design) == EnergyDesignKey;
    }
  }

  lemma {:induction false} LogLoadsIff(log: seq<Json>)
    ensures DecodeLog(log).Success? <==> forall i | 0 <= i < |log| :: WellFormedEntry(log[i])
  {
    if log != [] {
      var front := log[..|log| - 1];
      LogLoadsIff(front);
      assert forall i | 0 <= i < |front| :: front[i] == log[i];
      if DecodeLog(front).Success? {
        EntryLoadsIff(Carry(DecodeLog(front).value), Last(log));
      }
    }
  }

  /** A file loads exactly if it is well-formed. */
  lemma FileLoadsIff(root: Json)
    ensures Load(root).Success? <==> WellFormedFile(root)
  {
    if root.JObject? && LogKey in root.members && root.members[LogKey].JArray? {
      LogLoadsIff(root.members[LogKey].elements);
    }
  }

  function NumberOf(j: Json): real
    requires IsNumber(j)
  {
    if j.JInt? then j.i as real else j.d
  }

  /** The duration of a loaded run: a percentage if the file has one, else seconds, else none;
      written as an integer or not. */
  lemma LoadedDuration(root: Json)
    requires WellFormedFile(root)
    ensures Load(root).Success?
    ensures var o := root.members;
            Load(root).value.duration ==
            if UntilPercentKey in o then UntilPercent(NumberOf(o[UntilPercentKey]))
            else if DurationSeconds in o then Seconds(NumberOf(o[DurationSeconds]))
            else Seconds(0.0)
  {
    FileLoadsIff(root);
    if LogKey in root.members {
      LogLoadsIff(root.members[LogKey].elements);
      HistoryOnly(BLANK_RUN.(duration := LoadDuration(root.members).value),
                  DecodeLog(root.members[LogKey].elements).value);
    }
  }

  lemma {:induction false} HistoryOnly(run: Run, states: seq<PowerState>)
    ensures AddAll(run, states).duration == run.duration
  {
    if states != [] {
      HistoryOnly(run, states[..|states| - 1]);
    }
  }

  // ---------------------------------------------------------------------------------
  // What a loaded entry holds

  /** The latest value of a member, up to an entry and including it. */
  function Latest(log: seq<Json>, key: Key, i: nat): (j: Option<Json>)
    requires i < |log|
  {
    if log[i].JObject? && key in log[i].members then Some(log[i].members[key])
    else if i > 0 then Latest(log, key, i - 1)
    else None
  }

  lemma {:induction false} LatestPrefix(log: seq<Json>, key: Key, i: nat, n: nat)
    requires i < n <= |log|
    ensures Latest(log[..n], key, i) == Latest(log, key, i)
  {
    if i > 0 {
      LatestPrefix(log, key, i - 1, n);
    }
  }

  /** A reading with the latest values: whole milliseconds since the start, line power, and
      energies in microwatt-hours; 0, false and unknown if there has been none. */
  ghost predicate HoldsLatest(state: PowerState, log: seq<Json>, i: nat)
    requires i < |log|
  {
    && state.timeUs == (match Latest(log, TimeMsKey, i)
                        case None => 0
                        case Some(j) => if j.JInt? then 1000 * j.i else 0)
    && state.online == (Latest(log, OnlineKey, i) == Some(JBool(true)))
    && forall f: Field :: Energy(state, f) == (match Latest(log, KeyOf(f), i)
                                               case None => -1.0
                                               case Some(j) => if j.JInt? then j.i as real / 1000000.0 else -1.0)
  }

  lemma EntryHoldsLatest(carry: PowerState, log: seq<Json>, i: nat)
    requires i < |log| && WellFormedEntry(log[i])
    requires if i == 0 then carry == INITIAL_STATE else HoldsLatest(carry, log, i - 1)
    ensures DecodeState(carry, log[i]).Success? && HoldsLatest(DecodeState(carry, log[i]).value, log, i)
  {
    EntryLoadsIff(carry, log[i]);
    var state := DecodeState(carry, log[i]).value;
    forall f: Field
      ensures Energy(state, f) == (match Latest(log, KeyOf(f), i)
                                   case None => -1.0
                                   case Some(j) => if j.JInt? then j.i as real / 1000000.0 else -1.0)
    {
    }
  }

  /** Every entry of a well-formed log is loaded with the latest values of its members. */
  lemma {:induction false} LoadedEntries(log: seq<Json>)
    requires forall k | 0 <= k < |log| :: WellFormedEntry(log[k])
    ensures DecodeLog(log).Success?
    ensures forall i | 0 <= i < |log| :: HoldsLatest(DecodeLog(log).value[i], log, i)
  {
    LogLoadsIff(log);
    if log != [] {
      var n := |log| - 1;
      var front := log[..n];
      assert forall k | 0 <= k < n :: front[k] == log[k];
      LoadedEntries(front);
      var parsed := DecodeLog(front).value;
      forall i | 0 <= i < n
        ensures HoldsLatest(parsed[i], log, i)
      {
        LatestInFront(parsed[i], log, i, n);
      }
      EntryHoldsLatest(Carry(parsed), log, n);
    }
  }

  lemma LatestInFront(state: PowerState, log: seq<Json>, i: nat, n: nat)
    requires i < n <= |log| && HoldsLatest(state, log[..n], i)
    ensures HoldsLatest(state, log, i)
  {
    LatestPrefix(log, TimeMsKey, i, n);
    LatestPrefix(log, OnlineKey, i, n);
    LatestPrefix(log, EnergyKey, i, n);
    LatestPrefix(log, EnergyFullKey, i, n);
    LatestPrefix(log, EnergyDesignKey, i, n);
  }
}
