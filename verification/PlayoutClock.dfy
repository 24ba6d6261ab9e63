/** The elapsed-time and NTP part of ChannelReceive::GetAudioFrameWithInfo
    (audio/channel_receive.cc) together with the RTP timestamp unwrapper it uses
    (rtc_base/numerics/sequence_number_unwrapper.h).

    RTP timestamps are 32-bit counters that wrap (section 5.1 of RFC 3550).  A
    frame here carries the sender's true, unwrapped media time; the code only
    ever sees it modulo 2^32. */
module PlayoutClock {
  import opened Common

  function Wrap(x: int): (r: nat)
    ensures r < 0x1_0000_0000
  {
    x % 0x1_0000_0000
  }

  /** Division as C++ does it: towards zero. */
  function TruncDiv(a: int, b: int): int
    requires b > 0
  {
    if a >= 0 then a / b else -(-a / b)
  }

  /** It rounds down the magnitude and keeps the sign. */
  lemma TruncDivRoundsDown(a: int, b: int)
    requires b > 0 && a >= 0
    ensures TruncDiv(a, b) * b <= a < (TruncDiv(a, b) + 1) * b
  {
    QuotientBounds(a, b);
  }

  lemma TruncDivIsOdd(a: int, b: int)
    requires b > 0
    ensures TruncDiv(-a, b) == -TruncDiv(a, b)
  {
    DivUnique(0, b, 0, 0);
  }

  // ---------------------------------------------------------- the unwrapper

  /** AheadOrAt: at the maximal distance the larger value is the one ahead. */
  predicate AheadOrAt(a: nat, b: nat) {
    if Wrap(a - b) == 0x8000_0000 then b < a else Wrap(a - b) < 0x8000_0000
  }

  function Delta(last: nat, value: nat): int {
    var forward := Wrap(value - last);
    if AheadOrAt(value, last) then forward else forward - 0x1_0000_0000
  }

  /** A step that the unwrapper reads as it is: shorter than half the range, or exactly
      half of it, forward from the lower half or backward from the upper half. */
  predicate Readable(time: int, time': int) {
    || -0x8000_0000 < time' - time < 0x8000_0000
    || (time' - time == 0x8000_0000 && Wrap(time) < 0x8000_0000)
    || (time' - time == -0x8000_0000 && Wrap(time) >= 0x8000_0000)
  }

  /** The increment is the true one exactly for those steps. */
  lemma DeltaExact(time: int, time': int)
    ensures Delta(Wrap(time), Wrap(time')) == time' - time <==> Readable(time, time')
  {
    var d := time' - time;
    WrapDifference(time, time');
    var f := Wrap(d);
    if -0x8000_0000 <= d < 0 {
      assert f == d + 0x1_0000_0000;
    } else if 0 <= d <= 0x8000_0000 {
      assert f == d;
    }
    if d == 0x8000_0000 || d == -0x8000_0000 {
      HalfRange(time, time');
    }
  }

  lemma WrapDifference(time: int, time': int)
    ensures Wrap(Wrap(time') - Wrap(time)) == Wrap(time' - time)
  {
    var a, b := time / 0x1_0000_0000, time' / 0x1_0000_0000;
    assert time == a * 0x1_0000_0000 + Wrap(time);
    assert time' == b * 0x1_0000_0000 + Wrap(time');
    assert time' - time == (b - a) * 0x1_0000_0000 + (Wrap(time') - Wrap(time));
  }

  lemma HalfRange(time: int, time': int)
    requires time' - time == 0x8000_0000 || time' - time == -0x8000_0000
    ensures Wrap(time) < Wrap(time') <==> Wrap(time) < 0x8000_0000
  {
  }

  // ---------------------------------------------------------- the clock

  /** A decoded frame: true media time, RTP clock rate, and the NTP estimator's
      answer (not positive until two sender reports have arrived). */
  datatype Frame = Frame(time: int, rateHz: int, ntpMs: int)

  datatype Clock = Clock(
    captureStartRtp: int, captureStartNtpMs: int, lastUnwrapped: int, lastValue: Option<nat>)

  const UNSTARTED := Clock(-1, -1, 0, None)

  /** The clock after a decoded frame and the elapsed time written into it. */
  function OnFrame(c: Clock, f: Frame): (Clock, Option<int>)
    requires f.rateHz >= 1000
  {
    var timestamp := Wrap(f.time);
    var start := if c.captureStartRtp < 0 && timestamp != 0 then timestamp else c.captureStartRtp;
    if start < 0 then (c, None)
    else
      var unwrapped := if c.lastValue.None? then timestamp else c.lastUnwrapped + Delta(c.lastValue.value, timestamp);
      var elapsed := TruncDiv(unwrapped - start, f.rateHz / 1000);
      var ntp := if f.ntpMs > 0 then f.ntpMs - elapsed else c.captureStartNtpMs;
      (Clock(start, ntp, unwrapped, Some(timestamp)), Some(elapsed))
  }

  predicate Rates(fs: seq<Frame>) {
    forall i | 0 <= i < |fs| :: fs[i].rateHz >= 1000
  }

  function Play(fs: seq<Frame>): Clock
    requires Rates(fs)
    decreases |fs|
  {
    if fs == [] then UNSTARTED else OnFrame(Play(fs[..|fs| - 1]), fs[|fs| - 1]).0
  }

  /** What the frame at `i` is told about elapsed time. */
  function ElapsedAt(fs: seq<Frame>, i: nat): Option<int>
    requires i < |fs| && Rates(fs)
  {
    OnFrame(Play(fs[..i]), fs[i]).1
  }

  /** `s` is the first frame whose timestamp is not zero. */
  ghost predicate StartsAt(fs: seq<Frame>, s: nat) {
    s < |fs| && Wrap(fs[s].time) != 0 && forall i | 0 <= i < s :: Wrap(fs[i].time) == 0
  }

  /** From `s` on, every step from one media time to the next is readable. */
  ghost predicate ContinuousFrom(fs: seq<Frame>, s: nat) {
    forall i | s < i < |fs| :: Readable(fs[i - 1].time, fs[i].time)
  }

  lemma {:induction false} ZeroTimestampsDoNothing(fs: seq<Frame>)
    requires Rates(fs) && forall i | 0 <= i < |fs| :: Wrap(fs[i].time) == 0
    ensures Play(fs) == UNSTARTED
    decreases |fs|
  {
    if fs != [] {
      ZeroTimestampsDoNothing(fs[..|fs| - 1]);
    }
  }

  /** The unwrapped clock after the frames is as far from its start as the last
      frame's true time is. */
  ghost predicate Parallel(fs: seq<Frame>, s: nat)
    requires Rates(fs) && s < |fs|
  {
    Play(fs).lastUnwrapped - Play(fs).captureStartRtp == fs[|fs| - 1].time - fs[s].time
  }

  /** Whatever the steps, the clock remembers its start and the last timestamp. */
  lemma {:induction false} ClockRemembers(fs: seq<Frame>, s: nat)
    requires Rates(fs) && StartsAt(fs, s)
    ensures Play(fs).captureStartRtp == Wrap(fs[s].time) && Play(fs).lastValue == Some(Wrap(fs[|fs| - 1].time))
    ensures s == |fs| - 1 ==> Play(fs).lastUnwrapped == Play(fs).captureStartRtp
    decreases |fs|
  {
    if s == |fs| - 1 {
      ZeroTimestampsDoNothing(fs[..|fs| - 1]);
    } else {
      ClockRemembers(fs[..|fs| - 1], s);
    }
  }

  /** And one more frame moves it by the unwrapper's increment. */
  lemma ClockAdvances(fs: seq<Frame>, s: nat)
    requires Rates(fs) && StartsAt(fs, s) && s < |fs| - 1
    ensures var before := fs[..|fs| - 1];
            Play(fs).lastUnwrapped == Play(before).lastUnwrapped + Delta(Wrap(fs[|fs| - 2].time), Wrap(fs[|fs| - 1].time))
  {
    ClockRemembers(fs[..|fs| - 1], s);
  }

  /** From a parallel clock, the next frame leaves it parallel iff its step is readable. */
  lemma ParallelStep(fs: seq<Frame>, s: nat)
    requires Rates(fs) && StartsAt(fs, s) && s < |fs| - 1 && Parallel(fs[..|fs| - 1], s)
    ensures Parallel(fs, s) <==> Readable(fs[|fs| - 2].time, fs[|fs| - 1].time)
  {
    ClockRemembers(fs, s);
    ClockRemembers(fs[..|fs| - 1], s);
    ClockAdvances(fs, s);
    DeltaExact(fs[|fs| - 2].time, fs[|fs| - 1].time);
  }

  /** That is so after each frame from `s` on. */
  ghost predicate AlwaysParallel(fs: seq<Frame>, s: nat)
    requires Rates(fs)
  {
    forall n | s < n <= |fs| :: Parallel(fs[..n], s)
  }

  lemma AlwaysSnoc(fs: seq<Frame>, s: nat)
    requires Rates(fs) && s < |fs| - 1
    ensures AlwaysParallel(fs, s) <==> AlwaysParallel(fs[..|fs| - 1], s) && Parallel(fs, s)
  {
    var before := fs[..|fs| - 1];
    assert fs[..|fs|] == fs;
    assert forall n | s < n <= |before| :: before[..n] == fs[..n];
  }

  lemma ContinuousSnoc(fs: seq<Frame>, s: nat)
    requires s < |fs| - 1
    ensures ContinuousFrom(fs, s) <==>
            ContinuousFrom(fs[..|fs| - 1], s) && Readable(fs[|fs| - 2].time, fs[|fs| - 1].time)
  {
  }

  /** The clock is parallel to the true one after each frame, through any number of
      wraps, if and only if every step was readable. */
  lemma {:induction false} ParallelIff(fs: seq<Frame>, s: nat)
    requires Rates(fs) && StartsAt(fs, s)
    ensures AlwaysParallel(fs, s) <==> ContinuousFrom(fs, s)
    decreases |fs|
  {
    var n := |fs|;
    if s == n - 1 {
      ClockRemembers(fs, s);
      assert fs[..n] == fs;
    } else {
      var before := fs[..n - 1];
      ParallelIff(before, s);
      AlwaysSnoc(fs, s);
      ContinuousSnoc(fs, s);
      if AlwaysParallel(before, s) {
        assert before[..n - 1] == before;
        ParallelStep(fs, s);
      }
    }
  }

  /** In particular: the clock, start and last timestamp included, after readable steps. */
  lemma ClockIsParallel(fs: seq<Frame>, s: nat)
    requires Rates(fs) && StartsAt(fs, s) && ContinuousFrom(fs, s)
    ensures var c, last := Play(fs), fs[|fs| - 1].time;
            && c.captureStartRtp == Wrap(fs[s].time)
            && c.lastValue == Some(Wrap(last))
            && c.lastUnwrapped - c.captureStartRtp == last - fs[s].time
  {
    ClockRemembers(fs, s);
    ParallelIff(fs, s);
    assert fs[..|fs|] == fs;
  }

  /** Elapsed time is the true media time since the first stamped frame, in
      milliseconds of that frame's own clock rate, rounded towards zero; frames
      before the first stamped one get none. */
  lemma ElapsedIsTrueTime(fs: seq<Frame>, s: nat, i: nat)
    requires Rates(fs) && StartsAt(fs, s) && ContinuousFrom(fs, s) && i < |fs|
    ensures ElapsedAt(fs, i) ==
            if i < s then None else Some(TruncDiv(fs[i].time - fs[s].time, fs[i].rateHz / 1000))
  {
    var upTo := fs[..i + 1];
    assert upTo[..i] == fs[..i];
    if i < s {
      ZeroTimestampsDoNothing(fs[..i]);
    } else {
      ClockIsParallel(upTo, s);
    }
  }

  /** After the run, the NTP time of capture start plus the elapsed time of the
      latest frame with an NTP estimate is that estimate. */
  lemma {:induction false} NtpAgrees(fs: seq<Frame>, s: nat, i: nat)
    requires Rates(fs) && StartsAt(fs, s) && s <= i < |fs| && fs[i].ntpMs > 0
    requires forall k | i < k < |fs| :: fs[k].ntpMs <= 0
    ensures ElapsedAt(fs, i).Some?
    ensures Play(fs).captureStartNtpMs + ElapsedAt(fs, i).value == fs[i].ntpMs
    decreases |fs|
  {
    var n := |fs|;
    var before := fs[..n - 1];
    if i == n - 1 {
      StartedAfter(before, s, fs[n - 1]);
    } else {
      assert before[..i] == fs[..i];
      NtpAgrees(before, s, i);
      StartedAfter(before, s, fs[n - 1]);
    }
  }

  lemma {:induction false} StartedAfter(fs: seq<Frame>, s: nat, f: Frame)
    requires Rates(fs) && f.rateHz >= 1000 && s <= |fs| && StartsAt(fs + [f], s)
    ensures OnFrame(Play(fs), f).1.Some? && OnFrame(Play(fs), f).0.captureStartRtp >= 0
    decreases |fs|
  {
    assert (fs + [f])[|fs|] == f;
    assert forall i | 0 <= i < |fs| :: (fs + [f])[i] == fs[i];
    if s == |fs| {
      ZeroTimestampsDoNothing(fs);
    } else {
      var before, g := fs[..|fs| - 1], fs[|fs| - 1];
      assert before + [g] == fs;
      StartedAfter(before, s, g);
    }
  }

  // ---------------------------------------------------------- the object

  class ChannelReceive {
    var captureStartRtp: int
    var captureStartNtpMs: int
    var lastUnwrapped: int
    var lastValue: Option<nat>

    ghost function View(): Clock
      reads this
    {
      Clock(captureStartRtp, captureStartNtpMs, lastUnwrapped, lastValue)
    }

    constructor ()
      ensures View() == UNSTARTED
    {
      captureStartRtp, captureStartNtpMs, lastUnwrapped, lastValue := -1, -1, 0, None;
    }

    method Unwrap(value: nat) returns (unwrapped: int)
      requires value < 0x1_0000_0000
      modifies this`lastUnwrapped, this`lastValue
      ensures lastUnwrapped == unwrapped && lastValue == Some(value)
      ensures unwrapped ==
              if old(lastValue).None? then value else old(lastUnwrapped) + Delta(old(lastValue).value, value)
    {
      if lastValue.None? {
        lastUnwrapped := value;
      } else {
        lastUnwrapped := lastUnwrapped + Delta(lastValue.value, value);
      }
      lastValue := Some(value);
      return lastUnwrapped;
    }

    /** The timestamp part of GetAudioFrameWithInfo, for a frame that decoded. */
    method GetAudioFrameWithInfo(timestamp: nat, rateHz: int, ntpEstimateMs: int, ghost time: int)
      returns (elapsedMs: Option<int>, ntpMs: Option<int>)
      requires timestamp == Wrap(time) && rateHz >= 1000
      modifies this
      ensures var r := OnFrame(old(View()), Frame(time, rateHz, ntpEstimateMs));
              View() == r.0 && elapsedMs == r.1
      ensures elapsedMs.Some? && ntpEstimateMs > 0 ==> captureStartNtpMs + elapsedMs.value == ntpEstimateMs
      ensures ntpMs == if elapsedMs.Some? then Some(ntpEstimateMs) else None
    {
      elapsedMs, ntpMs := None, None;
      if captureStartRtp < 0 && timestamp != 0 {
        captureStartRtp := timestamp;
      }
      if captureStartRtp >= 0 {
        var unwrapped := Unwrap(timestamp);
        var elapsed := TruncDiv(unwrapped - captureStartRtp, rateHz / 1000);
        elapsedMs, ntpMs := Some(elapsed), Some(ntpEstimateMs);
        if ntpEstimateMs > 0 {
          captureStartNtpMs := ntpEstimateMs - elapsed;
        }
      }
    }
  }
}
