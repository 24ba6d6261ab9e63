/** The decaying peak meter and energy totals of audio/audio_level.cc. */
module AudioLevel {
  import opened Common

  const INT16_MAX := 32767
  const UPDATE_FREQUENCY := 10

  type Amplitude = x: int | 0 <= x <= INT16_MAX

  /** The three fields that ResetLevelFullRange clears. */
  datatype Meter = Meter(absMax: Amplitude, count: nat, level: Amplitude)

  const SILENT := Meter(0, 0, 0)

  /** The meter's part of ComputeLevel, for a frame of peak `peak`. */
  function Observe(m: Meter, peak: Amplitude): Meter {
    var absMax: Amplitude := if peak > m.absMax then peak else m.absMax;
    if m.count == UPDATE_FREQUENCY
    then Meter(absMax / 4, 0, absMax)
    else Meter(absMax, m.count + 1, m.level)
  }

  function ObserveAll(m: Meter, peaks: seq<Amplitude>): Meter
    decreases |peaks|
  {
    if peaks == [] then m else Observe(ObserveAll(m, peaks[..|peaks| - 1]), peaks[|peaks| - 1])
  }

  // ------------------------------------------------------- the closed form

  function Pow4(k: nat): (r: nat)
    ensures r > 0
  {
    if k == 0 then 1 else 4 * Pow4(k - 1)
  }

  /** `r` is the largest element of `s`, or 0 when there is none. */
  ghost predicate IsPeak(s: seq<int>, r: int) {
    && (forall i | 0 <= i < |s| :: s[i] <= r)
    && (if s == [] then r == 0 else exists i :: 0 <= i < |s| && s[i] == r)
  }

  // The level is updated on every (UPDATE_FREQUENCY + 1)th call, so a window has
  // eleven calls.

  /** `ws` lists the peak of each complete window of eleven calls in `peaks`. */
  ghost predicate WindowPeaks(peaks: seq<Amplitude>, ws: seq<Amplitude>) {
    && |ws| == |peaks| / 11
    && forall j | 0 <= j < |ws| :: IsPeak(peaks[11 * j..11 * (j + 1)], ws[j])
  }

  /** What window `j` still contributes after the last of `ws` has ended. */
  ghost function Contribution(ws: seq<Amplitude>, j: int): int
    requires 0 <= j < |ws|
  {
    ws[j] / Pow4(|ws| - 1 - j)
  }

  /** `r` is the maximum over j of floor(W_j / 4^(n-j)), 0 when n = 0. */
  ghost predicate DecayedPeak(ws: seq<Amplitude>, r: int) {
    && (forall j | 0 <= j < |ws| :: Contribution(ws, j) <= r)
    && (if ws == [] then r == 0 else exists j :: 0 <= j < |ws| && Contribution(ws, j) == r)
  }

  lemma QuarterOfQuotient(w: nat, k: nat)
    ensures w / Pow4(k) / 4 == w / Pow4(k + 1)
  {
    var p := Pow4(k);
    var q, r := w / p, w % p;
    var a, b := q / 4, q % 4;
    assert w == (4 * a + b) * p + r;
    assert w == a * (4 * p) + (b * p + r);
    assert 0 <= b * p + r < 4 * p by {
      assert b * p <= 3 * p;
    }
    DivUnique(w, 4 * p, a, b * p + r);
  }

  /** One more window: older contributions fade by four, the new one is whole. */
  lemma DecayStep(ws: seq<Amplitude>, r: Amplitude, w: Amplitude)
    requires DecayedPeak(ws, r)
    ensures DecayedPeak(ws + [w], Max(r / 4, w))
  {
    var us := ws + [w];
    forall j | 0 <= j < |ws|
      ensures Contribution(us, j) == Contribution(ws, j) / 4
    {
      QuarterOfQuotient(ws[j], |ws| - 1 - j);
    }
    assert Contribution(us, |ws|) == w;
    if ws != [] {
      var j :| 0 <= j < |ws| && Contribution(ws, j) == r;
      assert Contribution(us, j) == r / 4;
    }
  }

  lemma PeakSnoc(s: seq<int>, r: int, x: int)
    requires IsPeak(s, r) && x >= 0
    ensures IsPeak(s + [x], Max(r, x))
  {
    var t := s + [x];
    assert t[|s|] == x;
    if s != [] {
      var i :| 0 <= i < |s| && s[i] == r;
      assert t[i] == r;
    }
  }

  /** Everything the meter knows after `peaks`, described without its steps. */
  ghost predicate Describes(peaks: seq<Amplitude>, ws: seq<Amplitude>, open: Amplitude, m: Meter) {
    && WindowPeaks(peaks, ws)
    && IsPeak(peaks[11 * |ws|..], open)
    && m.count == |peaks| % 11
    && DecayedPeak(ws, m.level)
    && m.absMax == Max(if ws == [] then 0 else m.level / 4, open)
  }

  lemma WindowsExtend(peaks: seq<Amplitude>, ws: seq<Amplitude>, open: Amplitude, peak: Amplitude)
    requires WindowPeaks(peaks, ws) && IsPeak(peaks[11 * |ws|..], open)
    ensures var w: Amplitude := Max(open, peak);
            if |peaks| % 11 == UPDATE_FREQUENCY
            then WindowPeaks(peaks + [peak], ws + [w])
            else WindowPeaks(peaks + [peak], ws) && IsPeak((peaks + [peak])[11 * |ws|..], w)
  {
    var n := |ws|;
    var w: Amplitude := Max(open, peak);
    var all := peaks + [peak];
    assert all[11 * n..] == peaks[11 * n..] + [peak];
    PeakSnoc(peaks[11 * n..], open, peak);
    forall j | 0 <= j < n ensures all[11 * j..11 * (j + 1)] == peaks[11 * j..11 * (j + 1)] {
    }
    if |peaks| % 11 == UPDATE_FREQUENCY {
      assert all[11 * n..11 * (n + 1)] == all[11 * n..];
    }
  }

  lemma DescribesStep(peaks: seq<Amplitude>, ws: seq<Amplitude>, open: Amplitude, m: Meter, peak: Amplitude)
    returns (ws': seq<Amplitude>, open': Amplitude)
    requires Describes(peaks, ws, open, m)
    ensures Describes(peaks + [peak], ws', open', Observe(m, peak))
  {
    var w: Amplitude := Max(open, peak);
    WindowsExtend(peaks, ws, open, peak);
    if m.count == UPDATE_FREQUENCY {
      DecayStep(ws, m.level, w);
      ws', open' := ws + [w], 0;
      assert (peaks + [peak])[11 * |ws'|..] == [];
    } else {
      ws', open' := ws, w;
    }
  }

  /** The closed form: from silence, after any number of calls, the level is the
      decayed peak of the complete windows. */
  lemma {:induction false} ClosedForm(peaks: seq<Amplitude>)
    returns (ws: seq<Amplitude>, open: Amplitude)
    ensures Describes(peaks, ws, open, ObserveAll(SILENT, peaks))
    decreases |peaks|
  {
    if peaks == [] {
      return [], 0;
    }
    var before, peak := peaks[..|peaks| - 1], peaks[|peaks| - 1];
    assert before + [peak] == peaks;
    ws, open := ClosedForm(before);
    ws, open := DescribesStep(before, ws, open, ObserveAll(SILENT, before), peak);
  }

  lemma {:induction false} WindowPeaksUnique(peaks: seq<Amplitude>, us: seq<Amplitude>, ws: seq<Amplitude>)
    requires WindowPeaks(peaks, us) && WindowPeaks(peaks, ws)
    ensures us == ws
  {
    forall j | 0 <= j < |us| ensures us[j] == ws[j] {
      var s := peaks[11 * j..11 * (j + 1)];
      assert IsPeak(s, us[j]) && IsPeak(s, ws[j]);
    }
  }

  /** The same, for whichever list of window maxima the reader computes. */
  lemma LevelIsDecayedPeak(peaks: seq<Amplitude>, ws: seq<Amplitude>)
    requires WindowPeaks(peaks, ws)
    ensures DecayedPeak(ws, ObserveAll(SILENT, peaks).level)
  {
    var us, open := ClosedForm(peaks);
    WindowPeaksUnique(peaks, us, ws);
  }

  // ------------------------------------------------------- whole runs

  datatype Call = Compute(peak: Amplitude, duration: real) | ResetLevelFullRange | Reset

  datatype Totals = Totals(meter: Meter, energy: real, duration: real)

  const FRESH := Totals(SILENT, 0.0, 0.0)

  /** The energy that a frame of `duration` seconds at `level` adds. */
  function LevelEnergy(level: Amplitude, duration: real): real {
    var amplitude := level as real / 32767.0;
    var energy := amplitude * amplitude;
    energy * duration
  }

  function Apply(t: Totals, c: Call): Totals {
    match c
    case Compute(peak, duration) =>
      var m := Observe(t.meter, peak);
      Totals(m, t.energy + LevelEnergy(m.level, duration), t.duration + duration)
    case ResetLevelFullRange => t.(meter := SILENT)
    case Reset => FRESH
  }

  function Run(calls: seq<Call>): Totals
    decreases |calls|
  {
    if calls == [] then FRESH else Apply(Run(calls[..|calls| - 1]), calls[|calls| - 1])
  }

  /** The peaks measured since the last call that cleared the level. */
  function PeaksSinceReset(calls: seq<Call>): seq<Amplitude>
    decreases |calls|
  {
    if calls == [] then []
    else match calls[|calls| - 1]
      case Compute(peak, _) => PeaksSinceReset(calls[..|calls| - 1]) + [peak]
      case _ => []
  }

  lemma {:induction false} LevelDependsOnPeaksSinceReset(calls: seq<Call>)
    ensures Run(calls).meter == ObserveAll(SILENT, PeaksSinceReset(calls))
    decreases |calls|
  {
    if calls != [] {
      var before := calls[..|calls| - 1];
      LevelDependsOnPeaksSinceReset(before);
      match calls[|calls| - 1]
      case Compute(peak, _) =>
        assert PeaksSinceReset(calls)[..|PeaksSinceReset(before)|] == PeaksSinceReset(before);
      case _ =>
    }
  }

  /** The level after each frame measured since the last full reset, and its duration. */
  ghost function Measured(calls: seq<Call>): seq<(Amplitude, real)>
    decreases |calls|
  {
    if calls == [] then []
    else match calls[|calls| - 1]
      case Compute(_, d) => Measured(calls[..|calls| - 1]) + [(ObserveAll(SILENT, PeaksSinceReset(calls)).level, d)]
      case ResetLevelFullRange => Measured(calls[..|calls| - 1])
      case Reset => []
  }

  ghost function SumOfDurations(ms: seq<(Amplitude, real)>): real
    decreases |ms|
  {
    if ms == [] then 0.0 else SumOfDurations(ms[..|ms| - 1]) + ms[|ms| - 1].1
  }

  /** Squared amplitude times duration, with the amplitude as a fraction of full scale. */
  ghost function SumOfSquares(ms: seq<(Amplitude, real)>): real
    decreases |ms|
  {
    if ms == [] then 0.0
    else
      var (level, d) := ms[|ms| - 1];
      SumOfSquares(ms[..|ms| - 1]) + level as real / 32767.0 * (level as real / 32767.0) * d
  }

  lemma SumsSnoc(ms: seq<(Amplitude, real)>, level: Amplitude, d: real)
    ensures SumOfDurations(ms + [(level, d)]) == SumOfDurations(ms) + d
    ensures SumOfSquares(ms + [(level, d)]) == SumOfSquares(ms) + LevelEnergy(level, d)
  {
    assert (ms + [(level, d)])[..|ms|] == ms;
  }

  /** A frame adds to both, and to the list of what was measured. */
  lemma ComputeAdds(calls: seq<Call>)
    requires calls != [] && calls[|calls| - 1].Compute?
    ensures var before, d := calls[..|calls| - 1], calls[|calls| - 1].duration;
            var level := Run(calls).meter.level;
            && Run(calls).energy == Run(before).energy + LevelEnergy(level, d)
            && Run(calls).duration == Run(before).duration + d
            && Measured(calls) == Measured(before) + [(level, d)]
  {
    LevelDependsOnPeaksSinceReset(calls);
  }

  /** Over every run the totals are sums over the frames since the last full reset. */
  lemma {:induction false} TotalsAreSums(calls: seq<Call>)
    ensures Run(calls).duration == SumOfDurations(Measured(calls))
    ensures Run(calls).energy == SumOfSquares(Measured(calls))
    decreases |calls|
  {
    if calls != [] {
      var before := calls[..|calls| - 1];
      TotalsAreSums(before);
      match calls[|calls| - 1]
      case Compute(_, d) =>
        ComputeAdds(calls);
        SumsSnoc(Measured(before), Run(calls).meter.level, d);
      case _ =>
    }
  }

  lemma EnergyOfLevel(level: Amplitude, duration: real)
    requires duration >= 0.0
    ensures 0.0 <= LevelEnergy(level, duration) <= duration
  {
    var x := level as real / 32767.0;
    assert 0.0 <= x <= 1.0;
    ProductInUnit(x, x);
    var y := x * x;
    ProductInUnit(y, duration);
    assert LevelEnergy(level, duration) == y * duration;
  }

  lemma ProductInUnit(x: real, d: real)
    requires 0.0 <= x <= 1.0 && 0.0 <= d
    ensures 0.0 <= x * d <= d
  {
    var y := 1.0 - x;
    assert y * d >= 0.0;
    assert x * d + y * d == d;
  }

  /** Over every run with non-negative durations the total energy lies between 0
      and the total duration. */
  lemma {:induction false} EnergyBoundedByDuration(calls: seq<Call>)
    requires forall i | 0 <= i < |calls| && calls[i].Compute? :: calls[i].duration >= 0.0
    ensures 0.0 <= Run(calls).energy <= Run(calls).duration
    decreases |calls|
  {
    if calls != [] {
      var before, c := calls[..|calls| - 1], calls[|calls| - 1];
      EnergyBoundedByDuration(before);
      if c.Compute? {
        EnergyOfLevel(Observe(Run(before).meter, c.peak).level, c.duration);
      }
    }
  }

  // ------------------------------------------------------- the object

  type Sample = x: int | -32768 <= x <= 32767

  function Abs(x: int): nat { if x < 0 then -x else x }

  /** WebRtcSpl_MaxAbsValueW16: the largest magnitude, with 32768 cut to 32767. */
  method MaxAbsValue(samples: seq<Sample>) returns (r: Amplitude)
    ensures forall i | 0 <= i < |samples| :: Abs(samples[i]) <= r || (samples[i] == -32768 && r == INT16_MAX)
    ensures r == 0 || exists i :: 0 <= i < |samples| && Min(Abs(samples[i]), INT16_MAX) == r
  {
    var maximum := 0;
    for i := 0 to |samples|
      invariant 0 <= maximum <= 32768
      invariant forall k | 0 <= k < i :: Abs(samples[k]) <= maximum
      invariant maximum == 0 || exists k :: 0 <= k < i && Abs(samples[k]) == maximum
    {
      if Abs(samples[i]) > maximum {
        maximum := Abs(samples[i]);
      }
    }
    r := if maximum > INT16_MAX then INT16_MAX else maximum;
  }

  class AudioLevel {
    var absMax: Amplitude
    var count: nat
    var currentLevelFullRange: Amplitude
    var totalEnergy: real
    var totalDuration: real
    ghost var calls: seq<Call>

    ghost predicate Valid()
      reads this
    {
      Run(calls) == Totals(Meter(absMax, count, currentLevelFullRange), totalEnergy, totalDuration)
    }

    constructor ()
      ensures Valid() && calls == []
    {
      absMax, count, currentLevelFullRange := 0, 0, 0;
      totalEnergy, totalDuration := 0.0, 0.0;
      calls := [];
    }

    method Reset()
      requires Valid()
      modifies this
      ensures Valid() && calls == old(calls) + [Call.Reset]
    {
      absMax, count, currentLevelFullRange := 0, 0, 0;
      totalEnergy, totalDuration := 0.0, 0.0;
      ghost var before := calls;
      calls := calls + [Call.Reset];
      assert calls[..|before|] == before;
    }

    method ResetLevelFullRange()
      requires Valid()
      modifies this
      ensures Valid() && calls == old(calls) + [Call.ResetLevelFullRange]
    {
      absMax, count, currentLevelFullRange := 0, 0, 0;
      ghost var before := calls;
      calls := calls + [Call.ResetLevelFullRange];
      assert calls[..|before|] == before;
    }

    method ComputeLevel(muted: bool, samples: seq<Sample>, duration: real) returns (ghost peak: Amplitude)
      requires Valid()
      modifies this
      ensures Valid() && calls == old(calls) + [Compute(peak, duration)]
      ensures muted ==> peak == 0
      ensures !muted ==> forall i | 0 <= i < |samples| :: Min(Abs(samples[i]), INT16_MAX) <= peak
      ensures !muted && peak != 0 ==> exists i :: 0 <= i < |samples| && Min(Abs(samples[i]), INT16_MAX) == peak
    {
      var absValue: Amplitude := 0;
      if !muted {
        absValue := MaxAbsValue(samples);
      }
      if absValue > absMax {
        absMax := absValue;
      }
      var previous := count;
      count := count + 1;
      if previous == UPDATE_FREQUENCY {
        currentLevelFullRange := absMax;
        count := 0;
        absMax := absMax / 4;
      }
      totalEnergy := totalEnergy + LevelEnergy(currentLevelFullRange, duration);
      totalDuration := totalDuration + duration;
      ghost var before := calls;
      calls := calls + [Compute(absValue, duration)];
      assert calls[..|before|] == before;
      peak := absValue;
    }
  }
}
