/** ChannelSendFrameTransformerDelegate as a transition system.

    Transform and SendFrame run on the encoder queue; the transformer calls
    OnTransformedFrame from any thread; StartShortCircuiting and Reset come from
    others again.  A step is one section under send_lock_ or one unlocked
    statement that other threads can observe, so Transform is two steps and Reset
    three, and the runs below are all interleavings of them. */
module SendDelegate {
  import opened Common
  import opened TransformableFrames

  datatype Packet = Packet(
    frameType: AudioFrameType, payloadType: int, timestamp: int, payload: seq<int>,
    captureMs: int, ssrc: int, mimeType: string)

  /** The arguments of the send callback. */
  datatype SendArgs = SendArgs(
    frameType: AudioFrameType, payloadType: int, timestamp: int, payload: seq<int>, captureMs: int, csrcs: seq<int>)

  datatype Event = Transformed(frame: Frame, args: SendArgs) | Direct(args: SendArgs)

  /** How far Reset has come. */
  datatype Phase = NotReset | Unregistered | TransformerNulled | CallbackCleared

  datatype Delegate = Delegate(
    queue: seq<Frame>,            // SendFrame tasks on the encoder queue
    shortCircuit: bool, hasTransformer: bool, hasCallback: bool, phase: Phase,
    transforming: Option<Packet>, // Transform is between its lock and its unlocked call
    handed: seq<Frame>, log: seq<Event>)

  const INITIAL := Delegate([], false, true, true, NotReset, None, [], [])

  datatype Step =
    | TransformLocked(packet: Packet)
    | TransformCall
    | OnTransformedFrame(frame: Frame)
    | StartShortCircuiting
    | SendFrame
    | ResetUnregister
    | ResetTransformer
    | ResetCallback

  // ------------------------------------------------ the callback's arguments

  function ToUint64(x: int): int { x % 0x1_0000_0000_0000_0000 }

  function ToInt64(x: int): int {
    var u := ToUint64(x);
    if u < 0x8000_0000_0000_0000 then u else u - 0x1_0000_0000_0000_0000
  }

  function DirectArgs(p: Packet): SendArgs {
    SendArgs(p.frameType, p.payloadType, p.timestamp, p.payload, p.captureMs, [])
  }

  /** The frame made of a packet; the capture time becomes unsigned on the way. */
  function Wrapped(p: Packet): Frame {
    Outgoing(p.frameType, p.payloadType, p.timestamp, p.payload, Some(ToUint64(p.captureMs)), p.ssrc, [], p.mimeType, None)
  }

  function FrameArgs(f: Frame): SendArgs {
    SendArgs(ToInternal(f.Type()), f.PayloadType(), f.Timestamp(), f.payload,
             if f.AbsoluteCaptureTimestamp().Some? then ToInt64(f.AbsoluteCaptureTimestamp().value) else 0,
             f.ContributingSources())
  }

  /** A transformer that returns its input, or a clone of it, unchanged sends what
      short-circuiting would have sent. */
  lemma IdentityTransformIsShortCircuit(p: Packet)
    requires -0x8000_0000_0000_0000 <= p.captureMs < 0x8000_0000_0000_0000
    ensures FrameArgs(Wrapped(p)) == DirectArgs(p) == FrameArgs(Clone(Wrapped(p)))
  {
    ClonePreservesFrame(Wrapped(p));
    match p.frameType
    case EmptyFrame =>
    case AudioFrameSpeech =>
    case AudioFrameCN =>
  }

  /** `r` is what `x` is modulo 2^64, in the signed or in the unsigned range. */
  predicate IsSigned(x: int, r: int) {
    -0x8000_0000_0000_0000 <= r < 0x8000_0000_0000_0000 && (r - x) % 0x1_0000_0000_0000_0000 == 0
  }

  predicate IsUnsigned(x: int, r: int) {
    0 <= r < 0x1_0000_0000_0000_0000 && (r - x) % 0x1_0000_0000_0000_0000 == 0
  }

  lemma Conversions(x: int)
    ensures IsUnsigned(x, ToUint64(x)) && IsSigned(x, ToInt64(x))
  {
  }

  /** What a transformed frame is sent with, field by field, for frames of either side. */
  lemma ArgumentsOfFrame(f: Frame)
    ensures var args := FrameArgs(f);
            && args.payload == f.payload
            && (f.Incoming? ==>
                  && args.frameType == (if f.header.voiceActivity then AudioFrameSpeech else AudioFrameCN)
                  && args.payloadType == f.header.payloadType && args.timestamp == f.header.timestamp
                  && args.captureMs == 0 && args.csrcs == f.header.csrcs)
            && (f.Outgoing? ==>
                  && args.frameType == f.frameType && args.payloadType == f.payloadType
                  && args.timestamp == f.timestamp && args.csrcs == f.csrcs
                  && (if f.captureMs.None? then args.captureMs == 0 else IsSigned(f.captureMs.value, args.captureMs)))
  {
    if f.Outgoing? {
      ClonePreservesFrame(f);
      if f.captureMs.Some? {
        Conversions(f.captureMs.value);
      }
    }
  }

  // ------------------------------------------------ the steps

  /** What the threads themselves allow: the encoder queue is one thread, and Reset
      runs its statements in order. */
  predicate Possible(d: Delegate, s: Step) {
    match s
    case TransformLocked(_) => d.transforming.None?
    case TransformCall => d.transforming.Some?
    case SendFrame => d.transforming.None? && d.queue != []
    case ResetUnregister => d.phase == NotReset
    case ResetTransformer => d.phase == Unregistered
    case ResetCallback => d.phase == TransformerNulled
    case _ => true
  }

  /** The owner's discipline: Transform is neither running nor started once Reset
      has begun. */
  predicate Disciplined(d: Delegate, s: Step) {
    match s
    case TransformLocked(_) => d.phase == NotReset
    case ResetUnregister => d.transforming.None?
    case _ => true
  }

  /** The step calls through an empty callback or a null transformer. */
  predicate Crashes(d: Delegate, s: Step) {
    match s
    case TransformLocked(_) => d.shortCircuit && !d.hasCallback
    case TransformCall => !d.hasTransformer
    case _ => false
  }

  function Next(d: Delegate, s: Step): Delegate
    requires Possible(d, s)
  {
    match s
    case TransformLocked(p) =>
      if d.shortCircuit then d.(log := d.log + [Direct(DirectArgs(p))]) else d.(transforming := Some(p))
    case TransformCall => d.(handed := d.handed + [Wrapped(d.transforming.value)], transforming := None)
    case OnTransformedFrame(f) => if d.hasCallback then d.(queue := d.queue + [f]) else d
    case StartShortCircuiting => d.(shortCircuit := true)
    case SendFrame =>
      var f := d.queue[0];
      var d' := d.(queue := d.queue[1..]);
      if d.hasCallback then d'.(log := d.log + [Transformed(f, FrameArgs(f))]) else d'
    case ResetUnregister => d.(phase := Unregistered)
    case ResetTransformer => d.(phase := TransformerNulled, hasTransformer := false)
    case ResetCallback => d.(phase := CallbackCleared, hasCallback := false)
  }

  /** The delegate after the steps, if all were possible and none crashed. */
  function Run(steps: seq<Step>): Option<Delegate>
    decreases |steps|
  {
    if steps == [] then Some(INITIAL)
    else
      var d, s := Run(steps[..|steps| - 1]), steps[|steps| - 1];
      if d.Some? && Possible(d.value, s) && !Crashes(d.value, s) then Some(Next(d.value, s)) else None
  }

  // ------------------------------------------------ what a run asked for

  /** The frames returned by the transformer before Reset cleared the callback. */
  function Accepted(steps: seq<Step>): seq<Frame>
    decreases |steps|
  {
    if steps == [] then []
    else
      var before, s := steps[..|steps| - 1], steps[|steps| - 1];
      Accepted(before) + if s.OnTransformedFrame? && ResetCallback !in before then [s.frame] else []
  }

  function TasksRun(steps: seq<Step>): nat
    decreases |steps|
  {
    if steps == [] then 0
    else TasksRun(steps[..|steps| - 1]) + if steps[|steps| - 1].SendFrame? then 1 else 0
  }

  /** The tasks that ran before Reset cleared the callback. */
  function TasksRunLive(steps: seq<Step>): nat
    decreases |steps|
  {
    if steps == [] then 0
    else TasksRunLive(steps[..|steps| - 1])
         + if steps[|steps| - 1].SendFrame? && ResetCallback !in steps[..|steps| - 1] then 1 else 0
  }

  function SentFrames(log: seq<Event>): seq<Frame>
    decreases |log|
  {
    if log == [] then []
    else SentFrames(log[..|log| - 1]) + if log[|log| - 1].Transformed? then [log[|log| - 1].frame] else []
  }

  lemma LogSnoc(log: seq<Event>, e: Event)
    ensures SentFrames(log + [e]) == SentFrames(log) + if e.Transformed? then [e.frame] else []
  {
    assert (log + [e])[..|log|] == log;
  }

  // ------------------------------------------------ every interleaving

  /** Accepted frames are sent in order, each once, until the callback is cleared;
      those not yet sent are still queued, or were dropped after that point. */
  ghost predicate Conserved(steps: seq<Step>, d: Delegate) {
    Balanced(Accepted(steps), TasksRun(steps), TasksRunLive(steps), ResetCallback in steps, d)
  }

  ghost predicate Balanced(accepted: seq<Frame>, ran: nat, live: nat, cleared: bool, d: Delegate) {
    && live <= ran <= |accepted|
    && d.queue == accepted[ran..]
    && SentFrames(d.log) == accepted[..live]
    && (d.hasCallback <==> !cleared)
    && (d.hasCallback ==> live == ran)
    && (forall i | 0 <= i < |d.log| && d.log[i].Transformed? :: d.log[i].args == FrameArgs(d.log[i].frame))
  }

  /** The flags say which of the steps that change them were taken. */
  ghost predicate Flagged(steps: seq<Step>, d: Delegate) {
    && (d.hasTransformer <==> ResetTransformer !in steps)
    && (d.hasCallback <==> ResetCallback !in steps)
    && (d.shortCircuit <==> StartShortCircuiting in steps)
    && (d.phase.NotReset? <==> ResetUnregister !in steps)
    && (d.hasTransformer <==> d.phase == NotReset || d.phase == Unregistered)
    && (d.hasCallback <==> d.phase != CallbackCleared)
  }

  lemma TaskKeepsBalance(accepted: seq<Frame>, ran: nat, live: nat, cleared: bool, d: Delegate)
    requires Balanced(accepted, ran, live, cleared, d) && Possible(d, SendFrame)
    ensures Balanced(accepted, ran + 1, live + if cleared then 0 else 1, cleared, Next(d, SendFrame))
  {
    assert d.queue[0] == accepted[ran];
    assert accepted[..ran + 1] == accepted[..ran] + [accepted[ran]];
    LogSnoc(d.log, Transformed(d.queue[0], FrameArgs(d.queue[0])));
  }

  lemma CallKeepsBalance(accepted: seq<Frame>, ran: nat, live: nat, cleared: bool, d: Delegate, s: Step)
    requires Balanced(accepted, ran, live, cleared, d) && Possible(d, s) && !s.SendFrame?
    ensures Balanced(accepted + (if s.OnTransformedFrame? && !cleared then [s.frame] else []), ran, live,
                     cleared || s == ResetCallback, Next(d, s))
  {
    if s.OnTransformedFrame? {
      assert (accepted + [s.frame])[..live] == accepted[..live];
    } else if s.TransformLocked? {
      LogSnoc(d.log, Direct(DirectArgs(s.packet)));
    }
  }

  lemma ConservedStep(steps: seq<Step>, d: Delegate, s: Step)
    requires Conserved(steps, d) && Possible(d, s)
    ensures Conserved(steps + [s], Next(d, s))
  {
    assert (steps + [s])[..|steps|] == steps;
    assert ResetCallback in steps + [s] <==> ResetCallback in steps || s == ResetCallback;
    if s.SendFrame? {
      TaskKeepsBalance(Accepted(steps), TasksRun(steps), TasksRunLive(steps), ResetCallback in steps, d);
    } else {
      CallKeepsBalance(Accepted(steps), TasksRun(steps), TasksRunLive(steps), ResetCallback in steps, d, s);
    }
  }

  lemma {:induction false} EveryRunConserves(steps: seq<Step>)
    requires Run(steps).Some?
    ensures Conserved(steps, Run(steps).value)
    decreases |steps|
  {
    if steps == [] {
      assert Accepted(steps)[..0] == [];
    } else {
      var before, last := steps[..|steps| - 1], steps[|steps| - 1];
      assert steps == before + [last];
      EveryRunConserves(before);
      ConservedStep(before, Run(before).value, last);
      assert Run(steps).value == Next(Run(before).value, last);
    }
  }

  lemma InSnoc(steps: seq<Step>, s: Step, x: Step)
    ensures x in steps + [s] <==> x in steps || x == s
  {
  }

  lemma {:induction false} EveryRunIsFlagged(steps: seq<Step>)
    requires Run(steps).Some?
    ensures Flagged(steps, Run(steps).value)
    decreases |steps|
  {
    if steps != [] {
      var before, last := steps[..|steps| - 1], steps[|steps| - 1];
      assert steps == before + [last];
      EveryRunIsFlagged(before);
      InSnoc(before, last, ResetTransformer);
      InSnoc(before, last, ResetCallback);
      InSnoc(before, last, StartShortCircuiting);
      InSnoc(before, last, ResetUnregister);
    }
  }

  /** Before Reset's locked section nothing is lost, duplicated or reordered. */
  lemma NothingLostBeforeReset(steps: seq<Step>)
    requires Run(steps).Some? && ResetCallback !in steps
    ensures Accepted(steps) == SentFrames(Run(steps).value.log) + Run(steps).value.queue
  {
    EveryRunConserves(steps);
  }

  /** Once Reset's locked section is over the send callback is never called again,
      however the run continues and whatever was queued. */
  lemma {:induction false} NothingAfterReset(steps: seq<Step>, n: nat)
    requires n <= |steps| && ResetCallback in steps[..n] && Run(steps).Some?
    ensures Run(steps[..n]).Some? && Run(steps).value.log == Run(steps[..n]).value.log
    decreases |steps|
  {
    if n == |steps| {
      assert steps[..n] == steps;
    } else {
      var before := steps[..|steps| - 1];
      assert before[..n] == steps[..n];
      NothingAfterReset(before, n);
      EveryRunIsFlagged(before);
      assert ResetCallback in before;
    }
  }

  // ------------------------------------------------ where packets go

  /** The packets that Transform was called with. */
  function Packets(steps: seq<Step>): seq<Packet>
    decreases |steps|
  {
    if steps == [] then []
    else Packets(steps[..|steps| - 1])
         + if steps[|steps| - 1].TransformLocked? then [steps[|steps| - 1].packet] else []
  }

  /** What was sent without a transformer. */
  function DirectlySent(log: seq<Event>): seq<SendArgs>
    decreases |log|
  {
    if log == [] then []
    else DirectlySent(log[..|log| - 1]) + if log[|log| - 1].Direct? then [log[|log| - 1].args] else []
  }

  lemma DirectlySnoc(log: seq<Event>, e: Event)
    ensures DirectlySent(log + [e]) == DirectlySent(log) + if e.Direct? then [e.args] else []
  {
    assert (log + [e])[..|log|] == log;
  }

  /** The frame that the transformer is given for a packet. */
  predicate Carries(f: Frame, p: Packet) {
    && f.Outgoing? && f.frameType == p.frameType && f.payloadType == p.payloadType && f.timestamp == p.timestamp
    && f.payload == p.payload && f.captureMs.Some? && IsUnsigned(p.captureMs, f.captureMs.value)
    && f.frameSsrc == p.ssrc && f.csrcs == [] && f.mimeType == p.mimeType && f.sequenceNumber.None?
  }

  /** The call of the send callback for a packet. */
  predicate Sends(args: SendArgs, p: Packet) {
    && args.frameType == p.frameType && args.payloadType == p.payloadType && args.timestamp == p.timestamp
    && args.payload == p.payload && args.captureMs == p.captureMs && args.csrcs == []
  }

  /** The packets are, in order, those handed to the transformer, the one on its way
      there, and those sent directly. */
  ghost predicate SplitsInto(ps: seq<Packet>, handed: seq<Frame>, underWay: Option<Packet>, direct: seq<SendArgs>) {
    var n := if underWay.Some? then 1 else 0;
    && |handed| + n + |direct| == |ps|
    && (forall i | 0 <= i < |handed| :: Carries(handed[i], ps[i]))
    && (underWay.Some? ==> underWay.value == ps[|handed|])
    && (forall i | 0 <= i < |direct| :: Sends(direct[i], ps[|handed| + n + i]))
  }

  ghost predicate Routed(ps: seq<Packet>, d: Delegate) {
    && SplitsInto(ps, d.handed, d.transforming, DirectlySent(d.log))
    && (!d.shortCircuit || d.transforming.Some? ==> DirectlySent(d.log) == [])
  }

  lemma SplitsSnoc(ps: seq<Packet>, handed: seq<Frame>, direct: seq<SendArgs>, p: Packet, args: SendArgs)
    requires SplitsInto(ps, handed, None, direct)
    ensures direct == [] ==> SplitsInto(ps + [p], handed, Some(p), [])
    ensures Sends(args, p) ==> SplitsInto(ps + [p], handed, None, direct + [args])
  {
  }

  lemma TransformRoutes(ps: seq<Packet>, d: Delegate, p: Packet)
    requires Routed(ps, d) && Possible(d, TransformLocked(p))
    ensures Routed(ps + [p], Next(d, TransformLocked(p)))
  {
    SplitsSnoc(ps, d.handed, DirectlySent(d.log), p, DirectArgs(p));
    DirectlySnoc(d.log, Direct(DirectArgs(p)));
  }

  lemma CallRoutes(ps: seq<Packet>, d: Delegate)
    requires Routed(ps, d) && Possible(d, TransformCall)
    ensures Routed(ps, Next(d, TransformCall))
  {
    Conversions(d.transforming.value.captureMs);
  }

  lemma OthersRoute(ps: seq<Packet>, d: Delegate, s: Step)
    requires Routed(ps, d) && Possible(d, s) && !s.TransformLocked? && !s.TransformCall?
    ensures Routed(ps, Next(d, s))
  {
    if s.SendFrame? {
      DirectlySnoc(d.log, Transformed(d.queue[0], FrameArgs(d.queue[0])));
    }
  }

  /** In every run, every packet given to Transform is handed to the transformer as a
      frame of its own, is on its way there, or was sent directly, in order. */
  lemma {:induction false} EveryRunRoutes(steps: seq<Step>)
    requires Run(steps).Some?
    ensures Routed(Packets(steps), Run(steps).value)
    decreases |steps|
  {
    if steps != [] {
      var before, last := steps[..|steps| - 1], steps[|steps| - 1];
      EveryRunRoutes(before);
      var d := Run(before).value;
      match last
      case TransformLocked(p) => TransformRoutes(Packets(before), d, p);
      case TransformCall =>
        assert Packets(before) + [] == Packets(before);
        CallRoutes(Packets(before), d);
      case _ =>
        assert Packets(before) + [] == Packets(before);
        OthersRoute(Packets(before), d, last);
    }
  }

  // ------------------------------------------------ when a step crashes

  /** After any run, a step calls a null object if and only if it ends a Transform
      after Reset nulled the transformer, or starts one that is short-circuited after
      Reset cleared the callback. */
  lemma CrashesExactlyWhen(steps: seq<Step>, s: Step)
    requires Run(steps).Some? && Possible(Run(steps).value, s)
    ensures Run(steps + [s]).None? <==>
            || (s.TransformCall? && ResetTransformer in steps)
            || (s.TransformLocked? && StartShortCircuiting in steps && ResetCallback in steps)
  {
    assert (steps + [s])[..|steps|] == steps;
    EveryRunIsFlagged(steps);
  }

  /** Transform was neither running nor started once Reset had begun. */
  ghost predicate KeepsDiscipline(steps: seq<Step>)
    requires Run(steps).Some?
    decreases |steps|
  {
    steps == [] ||
    (KeepsDiscipline(steps[..|steps| - 1]) && Disciplined(Run(steps[..|steps| - 1]).value, steps[|steps| - 1]))
  }

  lemma {:induction false} DisciplineSeparates(steps: seq<Step>)
    requires Run(steps).Some? && KeepsDiscipline(steps)
    ensures Run(steps).value.transforming.Some? ==> Run(steps).value.phase == NotReset
    decreases |steps|
  {
    if steps != [] {
      DisciplineSeparates(steps[..|steps| - 1]);
    }
  }

  /** So as long as the discipline is kept, nothing crashes. */
  lemma NoDisciplinedStepCrashes(steps: seq<Step>, s: Step)
    requires Run(steps).Some? && KeepsDiscipline(steps)
    requires Possible(Run(steps).value, s) && Disciplined(Run(steps).value, s)
    ensures Run(steps + [s]).Some? && KeepsDiscipline(steps + [s])
  {
    assert (steps + [s])[..|steps|] == steps;
    EveryRunIsFlagged(steps);
    DisciplineSeparates(steps);
  }

  /** Otherwise Reset can null the transformer between Transform's lock and its
      unlocked call, and a short-circuited Transform can find no callback. */
  lemma UndisciplinedResetCrashes(p: Packet)
    ensures var steps := [TransformLocked(p), ResetUnregister, ResetTransformer];
            Run(steps).Some? && Possible(Run(steps).value, TransformCall) && Run(steps + [TransformCall]).None?
    ensures var steps := [StartShortCircuiting, ResetUnregister, ResetTransformer, ResetCallback];
            && Run(steps).Some? && Possible(Run(steps).value, TransformLocked(p))
            && Run(steps + [TransformLocked(p)]).None?
  {
    var a := [TransformLocked(p)];
    assert [] + a == a && a + [ResetUnregister] + [ResetTransformer] == [TransformLocked(p), ResetUnregister, ResetTransformer];
    RunSnoc([], TransformLocked(p));
    RunSnoc(a, ResetUnregister);
    RunSnoc(a + [ResetUnregister], ResetTransformer);
    CrashesExactlyWhen(a + [ResetUnregister] + [ResetTransformer], TransformCall);
    var b := [StartShortCircuiting];
    assert [] + b == b && b + [ResetUnregister] + [ResetTransformer] + [ResetCallback]
           == [StartShortCircuiting, ResetUnregister, ResetTransformer, ResetCallback];
    RunSnoc([], StartShortCircuiting);
    RunSnoc(b, ResetUnregister);
    RunSnoc(b + [ResetUnregister], ResetTransformer);
    RunSnoc(b + [ResetUnregister] + [ResetTransformer], ResetCallback);
    CrashesExactlyWhen(b + [ResetUnregister] + [ResetTransformer] + [ResetCallback], TransformLocked(p));
  }

  // ------------------------------------------------ short-circuiting overtakes

  /** Unlike the receive side, the switch does not go through the queue: the frames
      that a short-circuited packet overtakes are exactly those still queued. */
  lemma DirectOvertakesQueue(steps: seq<Step>, p: Packet)
    requires Run(steps).Some? && Run(steps + [TransformLocked(p)]).Some? && Run(steps).value.shortCircuit
    ensures var d, d' := Run(steps).value, Run(steps + [TransformLocked(p)]).value;
            && d'.log == d.log + [Direct(DirectArgs(p))]
            && (SentFrames(d.log) == Accepted(steps) <==> d.queue == [])
            && Accepted(steps) == SentFrames(d.log) + d.queue
  {
    assert (steps + [TransformLocked(p)])[..|steps|] == steps;
    EveryRunIsFlagged(steps);
    NothingLostBeforeReset(steps);
    WholeIffRestEmpty(SentFrames(Run(steps).value.log), Run(steps).value.queue);
  }

  lemma WholeIffRestEmpty(a: seq<Frame>, b: seq<Frame>)
    ensures a == a + b <==> b == []
  {
    assert |a + b| == |a| + |b|;
  }

  /** A run in which a frame accepted before the switch is sent after a packet that
      came later. */
  lemma OvertakingHappens(f: Frame, p: Packet)
    ensures var steps := [OnTransformedFrame(f), StartShortCircuiting, TransformLocked(p), SendFrame];
            Run(steps).Some? &&
            Run(steps).value.log == [Direct(DirectArgs(p)), Transformed(f, FrameArgs(f))]
  {
    var s0: seq<Step> := [];
    RunSnoc(s0, OnTransformedFrame(f));
    RunSnoc(s0 + [OnTransformedFrame(f)], StartShortCircuiting);
    RunSnoc(s0 + [OnTransformedFrame(f)] + [StartShortCircuiting], TransformLocked(p));
    RunSnoc(s0 + [OnTransformedFrame(f)] + [StartShortCircuiting] + [TransformLocked(p)], SendFrame);
    assert s0 + [OnTransformedFrame(f)] + [StartShortCircuiting] + [TransformLocked(p)] + [SendFrame]
           == [OnTransformedFrame(f), StartShortCircuiting, TransformLocked(p), SendFrame];
  }

  lemma RunSnoc(steps: seq<Step>, s: Step)
    requires Run(steps).Some? && Possible(Run(steps).value, s) && !Crashes(Run(steps).value, s)
    ensures Run(steps + [s]) == Some(Next(Run(steps).value, s))
  {
    assert (steps + [s])[..|steps|] == steps;
  }

  // ------------------------------------------------ the object

  class ChannelSendFrameTransformerDelegate {
    var queue: seq<Frame>
    var shortCircuit: bool
    var frameTransformer: bool
    var sendFrameCallback: bool
    var handed: seq<Frame>
    var log: seq<Event>
    ghost var phase: Phase
    ghost var transforming: Option<Packet>

    ghost function View(): Delegate
      reads this
    {
      Delegate(queue, shortCircuit, frameTransformer, sendFrameCallback, phase, transforming, handed, log)
    }

    constructor ()
      ensures View() == INITIAL
    {
      queue, shortCircuit, frameTransformer, sendFrameCallback, handed, log := [], false, true, true, [], [];
      phase, transforming := NotReset, None;
    }

    /** Reset, when no other thread takes a step in between. */
    method Reset()
      requires Possible(View(), ResetUnregister)
      modifies this
      ensures View() == Next(Next(Next(old(View()), ResetUnregister), ResetTransformer), ResetCallback)
    {
      phase := Unregistered;
      frameTransformer := false;
      phase := TransformerNulled;
      sendFrameCallback := false;
      phase := CallbackCleared;
    }

    /** The part of Transform under the lock; `finished` tells whether it returned. */
    method TransformLocked(p: Packet) returns (finished: bool)
      requires Possible(View(), Step.TransformLocked(p)) && !Crashes(View(), Step.TransformLocked(p))
      modifies this
      ensures View() == Next(old(View()), Step.TransformLocked(p)) && finished == old(shortCircuit)
    {
      if shortCircuit {
        log := log + [Direct(SendArgs(p.frameType, p.payloadType, p.timestamp, p.payload, p.captureMs, []))];
        return true;
      }
      transforming := Some(p);
      return false;
    }

    /** The unlocked call with which Transform ends. */
    method TransformCall(p: Packet)
      requires transforming == Some(p) && !Crashes(View(), Step.TransformCall)
      modifies this
      ensures View() == Next(old(View()), Step.TransformCall)
    {
      handed := handed + [Outgoing(p.frameType, p.payloadType, p.timestamp, p.payload, Some(ToUint64(p.captureMs)),
                                   p.ssrc, [], p.mimeType, None)];
      transforming := None;
    }

    method OnTransformedFrame(f: Frame)
      modifies this
      ensures View() == Next(old(View()), Step.OnTransformedFrame(f))
    {
      if !sendFrameCallback {
        return;
      }
      queue := queue + [f];
    }

    method StartShortCircuiting()
      modifies this
      ensures View() == Next(old(View()), Step.StartShortCircuiting)
    {
      shortCircuit := true;
    }

    /** The encoder queue takes the oldest task. */
    method SendFrame()
      requires Possible(View(), Step.SendFrame)
      modifies this
      ensures View() == Next(old(View()), Step.SendFrame)
    {
      var f := queue[0];
      queue := queue[1..];
      if !sendFrameCallback {
        return;
      }
      var captureMs := 0;
      if f.AbsoluteCaptureTimestamp().Some? {
        captureMs := ToInt64(f.AbsoluteCaptureTimestamp().value);
      }
      var args := SendArgs(ToInternal(f.Type()), f.PayloadType(), f.Timestamp(), f.payload, captureMs, f.ContributingSources());
      log := log + [Transformed(f, args)];
    }
  }
}
