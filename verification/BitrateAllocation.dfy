/** The bitrate part of audio/audio_send_stream.cc: the constraints that a stream
    computes, how it clamps the allocator's answers to them, and when it is an
    observer of the allocator. */
module BitrateAllocation {
  import opened Common

  // ------------------------------------------------ constraints

  /** What is fixed when the stream is created, from field trials. */
  datatype Settings = Settings(
    noFeedback: bool, legacyOverhead: bool, minBps: Option<nat>, maxBps: Option<nat>,
    priorityBps: nat, rawPriorityBps: Option<nat>, enablePriority: bool, ratePriority: Option<real>)

  datatype Range = Range(min: nat, max: nat)

  /** A DataSize over a TimeDelta, in bits per second. */
  function Rate(bytes: nat, us: int): nat
    requires 0 < us
  {
    bytes * 8_000_000 / us
  }

  predicate Positive(lengths: Option<(int, int)>) {
    lengths.Some? ==> 0 < lengths.value.0 && 0 < lengths.value.1
  }

  /** What an encoder promises about its shortest and longest frame. */
  predicate Ordered(lengths: Option<(int, int)>) {
    lengths.Some? ==> 0 < lengths.value.0 <= lengths.value.1
  }

  /** The limits before overhead: the encoder's range, else the field trials',
      else the config's. */
  function Base(s: Settings, minBps: nat, maxBps: nat, range: Option<(nat, nat)>): (r: (nat, nat)) {
    if range.Some? then range.value
    else (if s.minBps.Some? then s.minBps.value else minBps, if s.maxBps.Some? then s.maxBps.value else maxBps)
  }

  /** GetMinMaxBitrateConstraints. */
  function Constraints(s: Settings, minBps: int, maxBps: int, range: Option<(nat, nat)>,
                       lengths: Option<(int, int)>, overhead: nat): Option<Range>
    requires Positive(lengths)
  {
    if minBps < 0 || maxBps < 0 then None
    else
      var (low, high) := Base(s, minBps, maxBps, range);
      if high < low then None
      else if s.legacyOverhead then Some(Range(low + Rate(50, 60_000), high + Rate(50, 60_000)))
      else if lengths.None? then None
      else Some(Range(low + Rate(overhead, lengths.value.1), high + Rate(overhead, lengths.value.0)))
  }

  lemma AtMostQuotient(q: nat, d: int, x: nat)
    requires 0 < d && q * d <= x
    ensures q <= x / d
  {
    var e := x / d + 1 - q;
    assert e * d == x / d * d + d - q * d;
    if e <= 0 {
      NonpositiveFactor(e, d);
    }
  }

  lemma QuotientMonotone(x: nat, y: nat, d: int)
    requires x <= y && 0 < d
    ensures x / d <= y / d
  {
    AtMostQuotient(x / d, d, y);
  }

  lemma QuotientAntitone(x: nat, d: int, e: int)
    requires 0 < d <= e
    ensures x / e <= x / d
  {
    var q := x / e;
    FactorMonotone(d, e, q);
    assert d * q == q * d && e * q == q * e <= x;
    AtMostQuotient(q, d, x);
  }

  /** What the constraints are: the encoder's limits, else the field trials', else the
      config's, plus the bits per second that one packet's overhead costs when packets
      are as long, or for the maximum as short, as the encoder's frames. */
  lemma ConstraintsValue(s: Settings, minBps: int, maxBps: int, range: Option<(nat, nat)>,
                         lengths: Option<(int, int)>, overhead: nat)
    requires Positive(lengths)
    ensures var c := Constraints(s, minBps, maxBps, range, lengths, overhead);
            var low := if range.Some? then range.value.0 else if s.minBps.Some? then s.minBps.value else minBps;
            var high := if range.Some? then range.value.1 else if s.maxBps.Some? then s.maxBps.value else maxBps;
            && (c.Some? <==> minBps >= 0 && maxBps >= 0 && low <= high && (s.legacyOverhead || lengths.Some?))
            && (c.Some? && s.legacyOverhead ==> c.value.min == low + 6666 && c.value.max == high + 6666)
            && (c.Some? && !s.legacyOverhead ==>
                  var (short, long) := lengths.value;
                  && (c.value.min - low) * long <= overhead * 8_000_000 < (c.value.min - low + 1) * long
                  && (c.value.max - high) * short <= overhead * 8_000_000 < (c.value.max - high + 1) * short)
  {
    if lengths.Some? {
      QuotientBounds(overhead * 8_000_000, lengths.value.0);
      QuotientBounds(overhead * 8_000_000, lengths.value.1);
    }
  }

  /** Whatever the config, overrides, encoder and overhead: nothing, or an ordered
      range that contains the base range shifted by at least the same overhead. */
  lemma ConstraintsAreOrdered(s: Settings, minBps: int, maxBps: int, range: Option<(nat, nat)>,
                              lengths: Option<(int, int)>, overhead: nat)
    requires Ordered(lengths)
    ensures var c := Constraints(s, minBps, maxBps, range, lengths, overhead);
            c.Some? ==>
              && minBps >= 0 && maxBps >= 0 && 0 <= c.value.min <= c.value.max
              && Base(s, minBps, maxBps, range).0 <= c.value.min
              && c.value.max - c.value.min >= Base(s, minBps, maxBps, range).1 - Base(s, minBps, maxBps, range).0
  {
    if !s.legacyOverhead && lengths.Some? {
      QuotientAntitone(overhead * 8_000_000, lengths.value.0, lengths.value.1);
    }
  }

  /** More overhead never lowers a bound, and never makes constraints appear or
      disappear. */
  lemma ConstraintsAreMonotone(s: Settings, minBps: int, maxBps: int, range: Option<(nat, nat)>,
                               lengths: Option<(int, int)>, less: nat, more: nat)
    requires Positive(lengths) && less <= more
    ensures var c, d := Constraints(s, minBps, maxBps, range, lengths, less),
                        Constraints(s, minBps, maxBps, range, lengths, more);
            && (c.Some? <==> d.Some?)
            && (c.Some? ==> c.value.min <= d.value.min && c.value.max <= d.value.max)
  {
    if lengths.Some? {
      QuotientMonotone(less * 8_000_000, more * 8_000_000, lengths.value.0);
      QuotientMonotone(less * 8_000_000, more * 8_000_000, lengths.value.1);
    }
  }

  /** Frame lengths the wrong way round do give an unordered range. */
  lemma UnorderedLengthsBreakOrder(s: Settings)
    requires !s.legacyOverhead && s.minBps.None? && s.maxBps.None?
    ensures var c := Constraints(s, 0, 0, None, Some((60_000, 20_000)), 50);
            c.Some? && c.value.max < c.value.min
  {
  }

  // ------------------------------------------------ clamping

  datatype Update = Update(targetBps: nat, stableTargetBps: nat)

  function Clamped(x: nat, r: Range): nat { Max(r.min, Min(x, r.max)) }

  /** OnBitrateUpdated: what is forwarded to the channel. */
  function Forwarded(c: Option<Range>, u: Update): Update {
    if c.Some? then Update(Clamped(u.targetBps, c.value), Clamped(u.stableTargetBps, c.value)) else u
  }

  predicate Within(x: nat, r: Range) { r.min <= x <= r.max }

  /** Both targets end up inside, are left alone if they are inside already, and
      move only as far as the nearest bound. */
  lemma ForwardedLiesWithin(s: Settings, minBps: int, maxBps: int, range: Option<(nat, nat)>,
                            lengths: Option<(int, int)>, overhead: nat, u: Update)
    requires Ordered(lengths)
    ensures var c := Constraints(s, minBps, maxBps, range, lengths, overhead);
            var f := Forwarded(c, u);
            && (c.None? ==> f == u)
            && (c.Some? ==> Within(f.targetBps, c.value) && Within(f.stableTargetBps, c.value))
            && (c.Some? && Within(u.targetBps, c.value) ==> f.targetBps == u.targetBps)
            && (c.Some? && Within(u.stableTargetBps, c.value) ==> f.stableTargetBps == u.stableTargetBps)
            && (c.Some? && u.targetBps < c.value.min ==> f.targetBps == c.value.min)
            && (c.Some? && u.targetBps > c.value.max ==> f.targetBps == c.value.max)
            && (c.Some? && u.stableTargetBps < c.value.min ==> f.stableTargetBps == c.value.min)
            && (c.Some? && u.stableTargetBps > c.value.max ==> f.stableTargetBps == c.value.max)
            && (u.stableTargetBps <= u.targetBps ==> f.stableTargetBps <= f.targetBps)
  {
    ConstraintsAreOrdered(s, minBps, maxBps, range, lengths, overhead);
  }

  // ------------------------------------------------ the allocator's observer

  /** The part of a config that decides about allocation. */
  datatype Limits = Limits(hasDscp: bool, minBps: int, maxBps: int, priority: real, transportId: int, ana: Option<string>)

  const NO_LIMITS := Limits(false, -1, -1, 1.0, 0, None)

  /** MediaStreamAllocationConfig. */
  datatype Observer = Observer(minBps: nat, maxBps: nat, priorityBps: nat, priority: real)

  /** `observer` is the entry that the allocator keeps for this stream. */
  datatype Allocation = Allocation(
    config: Limits, sending: bool, registered: bool, observer: Option<Observer>, partOfAllocation: bool,
    transportOverhead: nat, overhead: nat, lengths: Option<(int, int)>, range: Option<(nat, nat)>)

  const NEW_ALLOCATION := Allocation(NO_LIMITS, false, false, None, false, 0, 0, None, None)

  predicate HasLimits(c: Limits) { !c.hasDscp && c.minBps != -1 && c.maxBps != -1 }

  /** Start's test. */
  predicate Eligible(s: Settings, c: Limits) { HasLimits(c) && (s.noFeedback || c.transportId != 0) }

  /** ReconfigureBitrateObserver's test, which always asks for the id. */
  predicate EligibleOnChange(c: Limits) { HasLimits(c) && c.transportId != 0 }

  /** ReconfigureBitrateObserver sees nothing to do. */
  predicate SameLimits(a: Limits, b: Limits) {
    a.minBps == b.minBps && a.maxBps == b.maxBps && a.priority == b.priority && a.transportId == b.transportId
    && a.ana == b.ana
  }

  function PriorityBps(s: Settings, lengths: Option<(int, int)>, overhead: nat): nat
    requires Positive(lengths) && (s.legacyOverhead || lengths.Some?)
  {
    if !s.enablePriority then 0
    else if s.rawPriorityBps.Some? then s.rawPriorityBps.value
    else s.priorityBps + if s.legacyOverhead then Rate(50, 20_000) else Rate(overhead, lengths.value.1)
  }

  /** What the stream would register now; None where its check for constraints fails. */
  function Entry(s: Settings, a: Allocation): Option<Observer>
    requires Positive(a.lengths)
  {
    var c := Constraints(s, a.config.minBps, a.config.maxBps, a.range, a.lengths, a.overhead);
    if c.None? then None
    else Some(Observer(c.value.min, c.value.max, PriorityBps(s, a.lengths, a.overhead),
                       if s.ratePriority.Some? then s.ratePriority.value else a.config.priority))
  }

  /** What the allocator is told: the constraints; a priority bitrate that is 0 when
      disabled, the raw one, or the setting plus what overhead costs; and a priority. */
  lemma EntryValue(s: Settings, a: Allocation)
    requires Positive(a.lengths)
    ensures var c, e := Constraints(s, a.config.minBps, a.config.maxBps, a.range, a.lengths, a.overhead), Entry(s, a);
            && (e.Some? <==> c.Some?)
            && (e.Some? ==>
                  && e.value.minBps == c.value.min && e.value.maxBps == c.value.max
                  && e.value.priority == (if s.ratePriority.Some? then s.ratePriority.value else a.config.priority)
                  && (!s.enablePriority ==> e.value.priorityBps == 0)
                  && (s.enablePriority && s.rawPriorityBps.Some? ==> e.value.priorityBps == s.rawPriorityBps.value)
                  && (s.enablePriority && s.rawPriorityBps.None? ==>
                        var extra := e.value.priorityBps - s.priorityBps;
                        if s.legacyOverhead then extra == 20_000
                        else extra * a.lengths.value.1 <= a.overhead * 8_000_000 < (extra + 1) * a.lengths.value.1))
  {
    if a.lengths.Some? {
      QuotientBounds(a.overhead * 8_000_000, a.lengths.value.1);
    }
  }

  /** ConfigureBitrateObserver; None when there are no constraints, which it checks. */
  function Register(s: Settings, a: Allocation): Option<Allocation>
    requires Positive(a.lengths)
  {
    var e := Entry(s, a);
    if e.None? then None else Some(a.(observer := e, registered := true))
  }

  function Unregister(a: Allocation): Allocation { a.(observer := None, registered := false) }

  /** UpdateOverheadPerPacket, with the overhead that the RTP module expects. */
  function UpdateOverhead(s: Settings, a: Allocation, rtpOverhead: nat): Option<Allocation>
    requires Positive(a.lengths)
  {
    var total := a.transportOverhead + rtpOverhead;
    if a.overhead == total then Some(a)
    else if a.registered then Register(s, a.(overhead := total))
    else Some(a.(overhead := total))
  }

  /** ReconfigureBitrateObserver.  The new limits go into the config first. */
  function ChangeObserver(s: Settings, a: Allocation, to: Limits): Option<Allocation>
    requires Positive(a.lengths)
  {
    if SameLimits(a.config, to) then Some(a)
    else if EligibleOnChange(to) then
      var limits := a.config.(minBps := to.minBps, maxBps := to.maxBps, priority := to.priority);
      var r := Register(s, a.(config := limits));
      if r.None? then None else Some(r.value.(partOfAllocation := true))
    else Some(Unregister(a).(partOfAllocation := false))
  }

  /** What a new config brings: its limits, the RTP module's overhead by then, and
      the channel's encoder by then, if there is one. */
  datatype Change = Change(limits: Limits, rtpOverhead: nat, encoder: Option<(Option<(int, int)>, Option<(nat, nat)>)>)

  predicate PositiveChange(c: Change) { c.encoder.Some? ==> Positive(c.encoder.value.0) }

  function Refreshed(a: Allocation, c: Change): Allocation {
    if c.encoder.Some? then a.(lengths := c.encoder.value.0, range := c.encoder.value.1) else a
  }

  /** ConfigureStream: overhead first, then the encoder's ranges, then the observer. */
  function Configure(s: Settings, a: Allocation, c: Change): Option<Allocation>
    requires Positive(a.lengths) && PositiveChange(c)
  {
    var a1 := UpdateOverhead(s, a, c.rtpOverhead);
    if a1.None? then None
    else
      var a2 := Refreshed(a1.value, c);
      var a3 := if a2.sending then ChangeObserver(s, a2, c.limits) else Some(a2);
      if a3.None? then None else Some(a3.value.(config := c.limits))
  }

  function Start(s: Settings, a: Allocation): Option<Allocation>
    requires Positive(a.lengths)
  {
    if a.sending then Some(a)
    else if Eligible(s, a.config) then
      var r := Register(s, a);
      if r.None? then None else Some(r.value.(partOfAllocation := true, sending := true))
    else Some(a.(partOfAllocation := false, sending := true))
  }

  function Stop(a: Allocation): Allocation {
    if a.sending then Unregister(a).(sending := false) else a
  }

  function SetTransportOverhead(s: Settings, a: Allocation, bytes: nat, rtpOverhead: nat): Option<Allocation>
    requires Positive(a.lengths)
  {
    UpdateOverhead(s, a.(transportOverhead := bytes), rtpOverhead)
  }

  // ------------------------------------------------ agreement

  /** The flag, the allocator's entry and the RTP module agree with the config
      while sending, and there is no registration otherwise. */
  predicate Agrees(s: Settings, a: Allocation) {
    && (a.registered <==> a.observer.Some?)
    && (a.registered <==> a.sending && Eligible(s, a.config))
    && (a.sending ==> (a.partOfAllocation <==> Eligible(s, a.config)))
  }

  /** The two ways in which a change of config breaks the agreement: DSCP changes
      alone, which is not noticed; or the id is missing where it does not matter,
      which Start ignores and a change does not. */
  predicate Misjudged(s: Settings, before: Limits, after: Limits) {
    if SameLimits(before, after)
    then before.hasDscp != after.hasDscp && after.minBps != -1 && after.maxBps != -1
         && (s.noFeedback || after.transportId != 0)
    else s.noFeedback && HasLimits(after) && after.transportId == 0
  }

  /** One change of config keeps the agreement if and only if the stream is not
      sending or the change is not one of those two. */
  lemma ConfigureKeepsAgreement(s: Settings, a: Allocation, c: Change)
    requires Positive(a.lengths) && PositiveChange(c) && Agrees(s, a) && Configure(s, a, c).Some?
    ensures Agrees(s, Configure(s, a, c).value) <==> !a.sending || !Misjudged(s, a.config, c.limits)
  {
    var a1 := UpdateOverhead(s, a, c.rtpOverhead).value;
    assert Agrees(s, a1) && a1.config == a.config && a1.sending == a.sending;
    assert Agrees(s, Refreshed(a1, c));
  }

  // ------------------------------------------------ limits in force

  /** A change of limits, priority, transport sequence id or network adaptor, while
      sending, to a config without DSCP and with limits and an id, leaves the allocator
      with what the new config, the new encoder and the current overhead give. */
  lemma NoticedChangeIsFresh(s: Settings, a: Allocation, c: Change)
    requires Positive(a.lengths) && PositiveChange(c) && a.sending && Configure(s, a, c).Some?
    requires c.limits.minBps != a.config.minBps || c.limits.maxBps != a.config.maxBps
             || c.limits.priority != a.config.priority || c.limits.transportId != a.config.transportId
             || c.limits.ana != a.config.ana
    requires !c.limits.hasDscp && c.limits.minBps != -1 && c.limits.maxBps != -1 && c.limits.transportId != 0
    ensures var b := Configure(s, a, c).value;
            Positive(b.lengths) && b.registered && b.observer == Entry(s, b)
  {
  }

  // ------------------------------------------------ every run

  datatype Step =
    | Configured(change: Change)
    | Started
    | Stopped
    | TransportOverheadSet(bytes: nat, rtpOverhead: nat)
    | RtcpDelivered(rtpOverhead: nat)

  function Next(s: Settings, a: Allocation, step: Step): Option<Allocation>
    requires Positive(a.lengths) && (step.Configured? ==> PositiveChange(step.change))
  {
    match step
    case Configured(c) => Configure(s, a, c)
    case Started => Start(s, a)
    case Stopped => Some(Stop(a))
    case TransportOverheadSet(bytes, rtp) => SetTransportOverhead(s, a, bytes, rtp)
    case RtcpDelivered(rtp) => UpdateOverhead(s, a, rtp)
  }

  /** Encoders keep their promise about frame lengths. */
  predicate OrderedStep(step: Step) {
    step.Configured? && step.change.encoder.Some? ==> Ordered(step.change.encoder.value.0)
  }

  /** A stream's life: created with a config, then any steps; None where a check
      in the code fails. */
  function Run(s: Settings, first: Change, steps: seq<Step>): (a: Option<Allocation>)
    requires OrderedStep(Configured(first)) && forall i | 0 <= i < |steps| :: OrderedStep(steps[i])
    ensures a.Some? ==> Ordered(a.value.lengths)
    decreases |steps|
  {
    if steps == [] then Configure(s, NEW_ALLOCATION, first)
    else
      var a := Run(s, first, steps[..|steps| - 1]);
      assert OrderedStep(steps[|steps| - 1]);
      if a.None? then None else Next(s, a.value, steps[|steps| - 1])
  }

  /** The config in force after the steps, whether the stream sends then, and what
      the last start, or the last change that was noticed, decided about taking
      part in allocation. */
  ghost function ConfigAfter(first: Change, steps: seq<Step>): Limits
    decreases |steps|
  {
    if steps == [] then first.limits
    else if steps[|steps| - 1].Configured? then steps[|steps| - 1].change.limits
    else ConfigAfter(first, steps[..|steps| - 1])
  }

  ghost predicate SendingAfter(steps: seq<Step>)
    decreases |steps|
  {
    steps != [] && (steps[|steps| - 1].Started? || (!steps[|steps| - 1].Stopped? && SendingAfter(steps[..|steps| - 1])))
  }

  ghost predicate Decided(s: Settings, first: Change, steps: seq<Step>)
    decreases |steps|
  {
    steps != [] &&
    var before, last := steps[..|steps| - 1], steps[|steps| - 1];
    var config := ConfigAfter(first, before);
    if last.Started? && !SendingAfter(before) then Eligible(s, config)
    else if last.Configured? && SendingAfter(before) && !SameLimits(config, last.change.limits)
    then EligibleOnChange(last.change.limits)
    else Decided(s, first, before)
  }

  /** The stream is as that decision says. */
  predicate Follows(a: Allocation, config: Limits, sending: bool, decided: bool) {
    && a.config == config && a.sending == sending
    && (a.registered <==> sending && decided) && (a.observer.Some? <==> a.registered)
    && (sending ==> (a.partOfAllocation <==> decided))
  }

  lemma ConfigureFollows(s: Settings, a: Allocation, c: Change, decided: bool)
    requires Positive(a.lengths) && PositiveChange(c) && Follows(a, a.config, a.sending, decided)
    requires Configure(s, a, c).Some?
    ensures Follows(Configure(s, a, c).value, c.limits, a.sending,
                    if a.sending && !SameLimits(a.config, c.limits) then EligibleOnChange(c.limits) else decided)
  {
    var a1 := UpdateOverhead(s, a, c.rtpOverhead).value;
    assert Follows(a1, a.config, a.sending, decided);
    assert Follows(Refreshed(a1, c), a.config, a.sending, decided);
  }

  lemma {:induction false} EveryRunFollows(s: Settings, first: Change, steps: seq<Step>)
    requires OrderedStep(Configured(first)) && forall i | 0 <= i < |steps| :: OrderedStep(steps[i])
    requires Run(s, first, steps).Some?
    ensures Follows(Run(s, first, steps).value, ConfigAfter(first, steps), SendingAfter(steps), Decided(s, first, steps))
    decreases |steps|
  {
    if steps == [] {
      ConfigureFollows(s, NEW_ALLOCATION, first, false);
    } else {
      var before, last := steps[..|steps| - 1], steps[|steps| - 1];
      EveryRunFollows(s, first, before);
      var a := Run(s, first, before).value;
      assert OrderedStep(last);
      if last.Configured? {
        ConfigureFollows(s, a, last.change, Decided(s, first, before));
      }
    }
  }

  /** After every run the observer, the flags and the current config agree if and
      only if the stream is not sending, or what was decided last, by a start or by a
      change that was noticed, is what the current config calls for. */
  lemma EveryRunAgrees(s: Settings, first: Change, steps: seq<Step>)
    requires OrderedStep(Configured(first)) && forall i | 0 <= i < |steps| :: OrderedStep(steps[i])
    requires Run(s, first, steps).Some?
    ensures Agrees(s, Run(s, first, steps).value) <==>
            !SendingAfter(steps) || (Decided(s, first, steps) <==> Eligible(s, ConfigAfter(first, steps)))
  {
    EveryRunFollows(s, first, steps);
  }

  /** With feedback and a DSCP setting that never changes, every run agrees. */
  lemma ConstantDscpAgrees(s: Settings, first: Change, steps: seq<Step>)
    requires OrderedStep(Configured(first)) && forall i | 0 <= i < |steps| :: OrderedStep(steps[i])
    requires !s.noFeedback && Run(s, first, steps).Some?
    requires forall i | 0 <= i < |steps| ::
               steps[i].Configured? ==> steps[i].change.limits.hasDscp == first.limits.hasDscp
    ensures Agrees(s, Run(s, first, steps).value)
  {
    ConstantDscpDecides(s, first, steps);
    EveryRunAgrees(s, first, steps);
  }

  lemma {:induction false} ConstantDscpDecides(s: Settings, first: Change, steps: seq<Step>)
    requires !s.noFeedback
    requires forall i | 0 <= i < |steps| ::
               steps[i].Configured? ==> steps[i].change.limits.hasDscp == first.limits.hasDscp
    ensures ConfigAfter(first, steps).hasDscp == first.limits.hasDscp
    ensures SendingAfter(steps) ==> (Decided(s, first, steps) <==> Eligible(s, ConfigAfter(first, steps)))
    decreases |steps|
  {
    if steps != [] {
      ConstantDscpDecides(s, first, steps[..|steps| - 1]);
    }
  }

  // ------------------------------------------------ what the limits are made of

  /** The transport's and the RTP module's last word on overhead, and the ranges of the
      last encoder there was. */
  ghost function TransportBytes(steps: seq<Step>): nat
    decreases |steps|
  {
    if steps == [] then 0
    else if steps[|steps| - 1].TransportOverheadSet? then steps[|steps| - 1].bytes
    else TransportBytes(steps[..|steps| - 1])
  }

  ghost function RtpBytes(first: Change, steps: seq<Step>): nat
    decreases |steps|
  {
    if steps == [] then first.rtpOverhead
    else match steps[|steps| - 1]
      case Configured(c) => c.rtpOverhead
      case TransportOverheadSet(_, rtp) => rtp
      case RtcpDelivered(rtp) => rtp
      case _ => RtpBytes(first, steps[..|steps| - 1])
  }

  ghost function EncoderRanges(first: Change, steps: seq<Step>): Ranges
    decreases |steps|
  {
    if steps == [] then (if first.encoder.Some? then first.encoder.value else (None, None))
    else if steps[|steps| - 1].Configured? && steps[|steps| - 1].change.encoder.Some?
    then steps[|steps| - 1].change.encoder.value
    else EncoderRanges(first, steps[..|steps| - 1])
  }

  lemma OverheadIsSum(s: Settings, a: Allocation, rtp: nat)
    requires Positive(a.lengths) && UpdateOverhead(s, a, rtp).Some?
    ensures var b := UpdateOverhead(s, a, rtp).value;
            && b.overhead == a.transportOverhead + rtp && b.transportOverhead == a.transportOverhead
            && RangesOf(b) == RangesOf(a)
  {
  }

  lemma ConfigureRanges(s: Settings, a: Allocation, c: Change)
    requires Positive(a.lengths) && PositiveChange(c) && Configure(s, a, c).Some?
    ensures RangesOf(Configure(s, a, c).value) == if c.encoder.Some? then c.encoder.value else RangesOf(a)
    ensures Configure(s, a, c).value.sending == a.sending && Configure(s, a, c).value.config == c.limits
  {
    OverheadIsSum(s, a, c.rtpOverhead);
  }

  lemma StepTracksInputs(s: Settings, a: Allocation, step: Step)
    requires Ordered(a.lengths) && OrderedStep(step) && Next(s, a, step).Some?
    ensures var b := Next(s, a, step).value;
            && b.transportOverhead == (if step.TransportOverheadSet? then step.bytes else a.transportOverhead)
            && b.overhead == (match step
                              case Configured(c) => a.transportOverhead + c.rtpOverhead
                              case TransportOverheadSet(bytes, rtp) => bytes + rtp
                              case RtcpDelivered(rtp) => a.transportOverhead + rtp
                              case _ => a.overhead)
            && RangesOf(b) == (if step.Configured? && step.change.encoder.Some? then step.change.encoder.value
                               else RangesOf(a))
  {
    match step
    case Configured(c) => OverheadIsSum(s, a, c.rtpOverhead);
    case TransportOverheadSet(bytes, rtp) => OverheadIsSum(s, a.(transportOverhead := bytes), rtp);
    case RtcpDelivered(rtp) => OverheadIsSum(s, a, rtp);
    case _ =>
  }

  /** In every run the limits are computed from the last of each. */
  lemma {:induction false} EveryRunTracksInputs(s: Settings, first: Change, steps: seq<Step>)
    requires OrderedStep(Configured(first)) && forall i | 0 <= i < |steps| :: OrderedStep(steps[i])
    requires Run(s, first, steps).Some?
    ensures var a := Run(s, first, steps).value;
            && a.transportOverhead == TransportBytes(steps)
            && a.overhead == TransportBytes(steps) + RtpBytes(first, steps)
            && RangesOf(a) == EncoderRanges(first, steps)
    decreases |steps|
  {
    if steps != [] {
      var before, last := steps[..|steps| - 1], steps[|steps| - 1];
      EveryRunTracksInputs(s, first, before);
      assert OrderedStep(last);
      StepTracksInputs(s, Run(s, first, before).value, last);
    }
  }

  // ------------------------------------------------ limits in force, over runs

  /** The frame lengths and the bitrate range that an encoder gave. */
  type Ranges = (Option<(int, int)>, Option<(nat, nat)>)

  function RangesOf(a: Allocation): Ranges { (a.lengths, a.range) }

  /** A changed overhead registers again. */
  predicate Repeats(a: Allocation, total: nat) { a.registered && a.overhead != total }

  /** The ranges at the last registration: a start, a change that is noticed, or a
      changed overhead while registered. */
  function RegisteredBy(s: Settings, a: Allocation, u: Ranges, step: Step): Ranges {
    match step
    case Configured(c) =>
      if a.sending && !SameLimits(a.config, c.limits) && EligibleOnChange(c.limits) then RangesOf(Refreshed(a, c))
      else if Repeats(a, a.transportOverhead + c.rtpOverhead) then RangesOf(a)
      else u
    case Started => if !a.sending && Eligible(s, a.config) then RangesOf(a) else u
    case Stopped => u
    case TransportOverheadSet(bytes, rtp) => if Repeats(a, bytes + rtp) then RangesOf(a) else u
    case RtcpDelivered(rtp) => if Repeats(a, a.transportOverhead + rtp) then RangesOf(a) else u
  }

  function LastRegistered(s: Settings, first: Change, steps: seq<Step>): Ranges
    requires OrderedStep(Configured(first)) && forall i | 0 <= i < |steps| :: OrderedStep(steps[i])
    requires Run(s, first, steps).Some?
    decreases |steps|
  {
    if steps == [] then (None, None)
    else
      var before, last := steps[..|steps| - 1], steps[|steps| - 1];
      RegisteredBy(s, Run(s, first, before).value, LastRegistered(s, first, before), last)
  }

  /** While registered, the allocator holds the entry that these ranges give with the
      current limits and the current overhead. */
  predicate HoldsEntryFor(s: Settings, a: Allocation, u: Ranges) {
    a.registered ==> Positive(u.0) && a.observer == Entry(s, a.(lengths := u.0, range := u.1))
  }

  lemma OverheadHoldsEntry(s: Settings, a: Allocation, u: Ranges, rtp: nat)
    requires Positive(a.lengths) && HoldsEntryFor(s, a, u) && UpdateOverhead(s, a, rtp).Some?
    ensures HoldsEntryFor(s, UpdateOverhead(s, a, rtp).value,
                          if Repeats(a, a.transportOverhead + rtp) then RangesOf(a) else u)
  {
  }

  lemma ChangeHoldsEntry(s: Settings, a: Allocation, u: Ranges, to: Limits)
    requires Positive(a.lengths) && HoldsEntryFor(s, a, u) && ChangeObserver(s, a, to).Some?
    ensures HoldsEntryFor(s, ChangeObserver(s, a, to).value.(config := to),
                          if !SameLimits(a.config, to) && EligibleOnChange(to) then RangesOf(a) else u)
  {
  }

  lemma ConfigureHoldsEntry(s: Settings, a: Allocation, u: Ranges, c: Change)
    requires Positive(a.lengths) && PositiveChange(c) && HoldsEntryFor(s, a, u) && Configure(s, a, c).Some?
    requires a.registered ==> a.sending
    ensures HoldsEntryFor(s, Configure(s, a, c).value, RegisteredBy(s, a, u, Configured(c)))
  {
    var a1 := UpdateOverhead(s, a, c.rtpOverhead).value;
    var u1 := if Repeats(a, a.transportOverhead + c.rtpOverhead) then RangesOf(a) else u;
    OverheadHoldsEntry(s, a, u, c.rtpOverhead);
    assert HoldsEntryFor(s, Refreshed(a1, c), u1) && a1.config == a.config && a1.sending == a.sending;
    assert RangesOf(Refreshed(a1, c)) == RangesOf(Refreshed(a, c));
    if a.sending {
      ChangeHoldsEntry(s, Refreshed(a1, c), u1, c.limits);
    }
  }

  lemma StepHoldsEntry(s: Settings, a: Allocation, u: Ranges, step: Step)
    requires Ordered(a.lengths) && OrderedStep(step) && HoldsEntryFor(s, a, u) && Next(s, a, step).Some?
    requires a.registered ==> a.sending
    ensures HoldsEntryFor(s, Next(s, a, step).value, RegisteredBy(s, a, u, step))
  {
    match step
    case Configured(c) => ConfigureHoldsEntry(s, a, u, c);
    case TransportOverheadSet(bytes, rtp) => OverheadHoldsEntry(s, a.(transportOverhead := bytes), u, rtp);
    case RtcpDelivered(rtp) => OverheadHoldsEntry(s, a, u, rtp);
    case _ =>
  }

  lemma {:induction false} EveryRunHoldsEntry(s: Settings, first: Change, steps: seq<Step>)
    requires OrderedStep(Configured(first)) && forall i | 0 <= i < |steps| :: OrderedStep(steps[i])
    requires Run(s, first, steps).Some?
    ensures HoldsEntryFor(s, Run(s, first, steps).value, LastRegistered(s, first, steps))
    decreases |steps|
  {
    EveryRunFollows(s, first, steps);
    if steps != [] {
      var before, last := steps[..|steps| - 1], steps[|steps| - 1];
      EveryRunHoldsEntry(s, first, before);
      EveryRunFollows(s, first, before);
      assert OrderedStep(last);
      StepHoldsEntry(s, Run(s, first, before).value, LastRegistered(s, first, before), last);
    }
  }

  /** After every run, a registered stream's limits are those that its config, its
      encoder and its overhead give now if and only if the encoder's ranges at the last
      registration give the same as the current ones. */
  lemma LimitsAreFreshIff(s: Settings, first: Change, steps: seq<Step>)
    requires OrderedStep(Configured(first)) && forall i | 0 <= i < |steps| :: OrderedStep(steps[i])
    requires Run(s, first, steps).Some? && Run(s, first, steps).value.registered
    ensures Positive(LastRegistered(s, first, steps).0)
    ensures var a, u := Run(s, first, steps).value, LastRegistered(s, first, steps);
            a.observer == Entry(s, a) <==> Entry(s, a.(lengths := u.0, range := u.1)) == Entry(s, a)
  {
    EveryRunHoldsEntry(s, first, steps);
  }

  // ------------------------------------------------ runs that go wrong

  /** The limits that the first config names, with the first encoder, make a range. */
  predicate Startable(s: Settings, first: Change)
    requires PositiveChange(first)
  {
    var u := RangesOf(Refreshed(NEW_ALLOCATION, first));
    Constraints(s, first.limits.minBps, first.limits.maxBps, u.1, u.0, first.rtpOverhead).Some?
  }

  /** A stream that is created and started is registered with its own limits. */
  lemma StartSucceeds(s: Settings, first: Change)
    requires OrderedStep(Configured(first)) && Eligible(s, first.limits)
    ensures Run(s, first, [Started]).Some? <==> Startable(s, first)
    ensures Startable(s, first) ==>
              var a := Run(s, first, [Started]).value;
              && a.registered && a.sending && a.config == first.limits && a.transportOverhead == 0
              && a.overhead == first.rtpOverhead && RangesOf(a) == RangesOf(Refreshed(NEW_ALLOCATION, first))
              && a.observer == Entry(s, a)
  {
    assert [Started][..0] == [];
  }

  lemma StartedThen(s: Settings, first: Change, c: Change)
    requires OrderedStep(Configured(first)) && OrderedStep(Configured(c)) && Run(s, first, [Started]).Some?
    ensures Run(s, first, [Started, Configured(c)]) == Configure(s, Run(s, first, [Started]).value, c)
  {
    assert [Started, Configured(c)][..1] == [Started];
  }

  /** A stream is created and started, and then DSCP is turned on and nothing else
      changes: it stays registered. */
  lemma DscpAloneIsNotNoticed(s: Settings, first: Change)
    requires OrderedStep(Configured(first)) && Eligible(s, first.limits) && Startable(s, first)
    ensures var c := first.(limits := first.limits.(hasDscp := true));
            var b := Run(s, first, [Started, Configured(c)]);
            b.Some? && b.value.registered && !Eligible(s, b.value.config)
  {
    StartSucceeds(s, first);
    StartedThen(s, first, first.(limits := first.limits.(hasDscp := true)));
  }

  /** Without feedback, a stream that is created without the id and started is
      registered, and then removed by a change of priority. */
  lemma NoFeedbackIsForgotten(s: Settings, first: Change, priority: real)
    requires OrderedStep(Configured(first)) && s.noFeedback && HasLimits(first.limits) && first.limits.transportId == 0
    requires priority != first.limits.priority && Startable(s, first)
    ensures var c := first.(limits := first.limits.(priority := priority));
            var b := Run(s, first, [Started, Configured(c)]);
            && Run(s, first, [Started]).Some? && Run(s, first, [Started]).value.registered
            && b.Some? && !b.value.registered && Eligible(s, b.value.config)
  {
    StartSucceeds(s, first);
    StartedThen(s, first, first.(limits := first.limits.(priority := priority)));
  }

  /** A stream is created with an encoder of one bitrate range and started, and then
      gets an encoder of another: the allocator keeps the first one's limits, until the
      overhead changes. */
  lemma CodecAloneIsStale(s: Settings, first: Change, range: (nat, nat), rtp: nat)
    requires OrderedStep(Configured(first)) && Eligible(s, first.limits) && Startable(s, first)
    requires first.encoder.Some? && first.encoder.value.1.Some? && range != first.encoder.value.1.value
    requires range.0 <= range.1 && rtp != first.rtpOverhead
    ensures var c := first.(encoder := Some((first.encoder.value.0, Some(range))));
            var b := Run(s, first, [Started, Configured(c)]);
            && b.Some? && b.value.registered && b.value.observer != Entry(s, b.value)
            && var d := Run(s, first, [Started, Configured(c), RtcpDelivered(rtp)]);
               d.Some? && d.value.registered && d.value.observer == Entry(s, d.value)
  {
    var c := first.(encoder := Some((first.encoder.value.0, Some(range))));
    StartSucceeds(s, first);
    StartedThen(s, first, c);
    assert [Started, Configured(c), RtcpDelivered(rtp)][..2] == [Started, Configured(c)];
  }

  // ------------------------------------------------ order of the limits

  /** Whatever the changes, the allocator never holds an unordered pair of limits
      for a stream, and holds one iff the stream thinks so. */
  lemma {:induction false} ObserversAreOrdered(s: Settings, first: Change, steps: seq<Step>)
    requires OrderedStep(Configured(first)) && forall i | 0 <= i < |steps| :: OrderedStep(steps[i])
    requires Run(s, first, steps).Some?
    ensures var a := Run(s, first, steps).value;
            && (a.registered <==> a.observer.Some?) && (a.registered ==> a.sending) && OrderedObserver(a.observer)
    decreases |steps|
  {
    EveryRunFollows(s, first, steps);
    if steps != [] {
      var before, last := steps[..|steps| - 1], steps[|steps| - 1];
      ObserversAreOrdered(s, first, before);
      assert OrderedStep(last);
      ObserverStepIsOrdered(s, Run(s, first, before).value, last);
    }
  }

  predicate OrderedObserver(o: Option<Observer>) { o.Some? ==> o.value.minBps <= o.value.maxBps }

  lemma EntryIsOrdered(s: Settings, a: Allocation)
    requires Ordered(a.lengths)
    ensures OrderedObserver(Entry(s, a))
  {
    ConstraintsAreOrdered(s, a.config.minBps, a.config.maxBps, a.range, a.lengths, a.overhead);
  }

  lemma OverheadKeepsOrder(s: Settings, a: Allocation, rtpOverhead: nat)
    requires Ordered(a.lengths) && OrderedObserver(a.observer) && UpdateOverhead(s, a, rtpOverhead).Some?
    ensures OrderedObserver(UpdateOverhead(s, a, rtpOverhead).value.observer)
  {
    EntryIsOrdered(s, a.(overhead := a.transportOverhead + rtpOverhead));
  }

  lemma ChangeKeepsOrder(s: Settings, a: Allocation, to: Limits)
    requires Ordered(a.lengths) && OrderedObserver(a.observer) && ChangeObserver(s, a, to).Some?
    ensures OrderedObserver(ChangeObserver(s, a, to).value.observer)
  {
    EntryIsOrdered(s, a.(config := a.config.(minBps := to.minBps, maxBps := to.maxBps, priority := to.priority)));
  }

  lemma ObserverStepIsOrdered(s: Settings, a: Allocation, step: Step)
    requires Ordered(a.lengths) && OrderedStep(step) && OrderedObserver(a.observer) && Next(s, a, step).Some?
    ensures OrderedObserver(Next(s, a, step).value.observer)
  {
    match step
    case Configured(c) =>
      OverheadKeepsOrder(s, a, c.rtpOverhead);
      var a2 := Refreshed(UpdateOverhead(s, a, c.rtpOverhead).value, c);
      if a2.sending {
        ChangeKeepsOrder(s, a2, c.limits);
      }
    case Started => EntryIsOrdered(s, a);
    case Stopped =>
    case TransportOverheadSet(bytes, rtp) => OverheadKeepsOrder(s, a.(transportOverhead := bytes), rtp);
    case RtcpDelivered(rtp) => OverheadKeepsOrder(s, a, rtp);
  }
}
