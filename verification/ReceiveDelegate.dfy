/** ChannelReceiveFrameTransformerDelegate as a transition system.

    Received packets are handed to a frame transformer on the worker thread; the
    transformer answers on any thread.  OnTransformedFrame and
    StartShortCircuiting only post tasks to the worker's FIFO queue; everything
    else runs on the worker.  Every method body and every posted task is one
    atomic step, so the runs below are all interleavings. */
module ReceiveDelegate {
  import opened Common
  import opened TransformableFrames

  datatype Task = Receive(frame: Frame) | SwitchToShortCircuit

  /** A call of the receive callback. */
  datatype Event = Transformed(frame: Frame, payload: seq<int>, header: RtpHeader)
                 | Direct(payload: seq<int>, header: RtpHeader)

  datatype Packet = Packet(payload: seq<int>, header: RtpHeader, ssrc: int, mimeType: string)

  datatype Delegate = Delegate(
    queue: seq<Task>, shortCircuit: bool, hasTransformer: bool, hasCallback: bool,
    handed: seq<Frame>,   // frames given to the transformer
    log: seq<Event>)      // calls of the callback

  const INITIAL := Delegate([], false, true, true, [], [])

  datatype Step =
    | Transform(packet: Packet)
    | OnTransformedFrame(frame: Frame)
    | StartShortCircuiting
    | RunTask
    | Reset

  /** The header with which a transformed frame is delivered: frames of the send
      side get a fresh header, others keep theirs. */
  function DeliveredHeader(f: Frame): RtpHeader {
    if f.FromSender()
    then EMPTY_HEADER.(payloadType := f.PayloadType(), timestamp := f.Timestamp(), ssrc := f.frameSsrc,
                      captureTimestamp := f.AbsoluteCaptureTimestamp())
    else f.header
  }

  function Wrapped(p: Packet): Frame { Incoming(p.payload, p.header, p.ssrc, p.mimeType) }

  /** Transform and Reset dereference the transformer, so they are not used once
      the delegate has been reset; tasks run only if there is one. */
  predicate Enabled(d: Delegate, s: Step) {
    match s
    case Transform(_) => d.hasTransformer && d.hasCallback
    case RunTask => d.queue != []
    case Reset => d.hasTransformer
    case _ => true
  }

  function Received(d: Delegate, f: Frame): Delegate {
    if !d.hasCallback then d
    else d.(log := d.log + [Transformed(f, f.payload, DeliveredHeader(f))])
  }

  function Next(d: Delegate, s: Step): Delegate
    requires Enabled(d, s)
  {
    match s
    case Transform(p) =>
      if d.shortCircuit then d.(log := d.log + [Direct(p.payload, p.header)])
      else d.(handed := d.handed + [Wrapped(p)])
    case OnTransformedFrame(f) => d.(queue := d.queue + [Receive(f)])
    case StartShortCircuiting => d.(queue := d.queue + [SwitchToShortCircuit])
    case RunTask =>
      var d' := d.(queue := d.queue[1..]);
      (match d.queue[0]
       case Receive(f) => Received(d', f)
       case SwitchToShortCircuit => d'.(shortCircuit := true))
    case Reset => d.(hasTransformer := false, hasCallback := false)
  }

  function Run(steps: seq<Step>): Option<Delegate>
    decreases |steps|
  {
    if steps == [] then Some(INITIAL)
    else
      var d := Run(steps[..|steps| - 1]);
      if d.Some? && Enabled(d.value, steps[|steps| - 1]) then Some(Next(d.value, steps[|steps| - 1])) else None
  }

  // ------------------------------------------------ what a run asked for

  function PostedBy(s: Step): seq<Task> {
    match s
    case OnTransformedFrame(f) => [Receive(f)]
    case StartShortCircuiting => [SwitchToShortCircuit]
    case _ => []
  }

  function Posted(steps: seq<Step>): seq<Task>
    decreases |steps|
  {
    if steps == [] then [] else Posted(steps[..|steps| - 1]) + PostedBy(steps[|steps| - 1])
  }

  /** How many tasks ran. */
  function TasksRun(steps: seq<Step>): nat
    decreases |steps|
  {
    if steps == [] then 0
    else TasksRun(steps[..|steps| - 1]) + if steps[|steps| - 1].RunTask? then 1 else 0
  }

  /** How many tasks ran before the delegate was reset. */
  function TasksRunLive(steps: seq<Step>): nat
    decreases |steps|
  {
    if steps == [] then 0
    else TasksRunLive(steps[..|steps| - 1])
         + if steps[|steps| - 1].RunTask? && Reset !in steps[..|steps| - 1] then 1 else 0
  }

  function Packets(steps: seq<Step>): seq<Packet>
    decreases |steps|
  {
    if steps == [] then []
    else Packets(steps[..|steps| - 1])
         + if steps[|steps| - 1].Transform? then [steps[|steps| - 1].packet] else []
  }

  function Frames(tasks: seq<Task>): seq<Frame>
    decreases |tasks|
  {
    if tasks == [] then []
    else Frames(tasks[..|tasks| - 1])
         + if tasks[|tasks| - 1].Receive? then [tasks[|tasks| - 1].frame] else []
  }

  function TransformedFrames(log: seq<Event>): seq<Frame>
    decreases |log|
  {
    if log == [] then []
    else TransformedFrames(log[..|log| - 1])
         + if log[|log| - 1].Transformed? then [log[|log| - 1].frame] else []
  }

  function DirectEvents(log: seq<Event>): seq<Event>
    decreases |log|
  {
    if log == [] then []
    else DirectEvents(log[..|log| - 1]) + if log[|log| - 1].Direct? then [log[|log| - 1]] else []
  }

  // ------------------------------------------------ conservation and order

  /** In every run: the queue is what was posted and has not run; the callback saw
      exactly the frames of the tasks that ran before Reset, once each, in posting
      order, with their own payload and header. */
  ghost predicate Conserved(steps: seq<Step>, d: Delegate) {
    Balanced(Posted(steps), TasksRun(steps), TasksRunLive(steps), Reset in steps, d)
  }

  ghost predicate Balanced(posted: seq<Task>, ran: nat, live: nat, wasReset: bool, d: Delegate) {
    && live <= ran <= |posted|
    && d.queue == posted[ran..]
    && TransformedFrames(d.log) == Frames(posted[..live])
    && (d.hasCallback <==> !wasReset)
    && (d.hasCallback <==> d.hasTransformer)
    && (d.hasCallback ==> live == ran)
    && (forall i | 0 <= i < |d.log| && d.log[i].Transformed? ::
          d.log[i].payload == d.log[i].frame.payload && d.log[i].header == DeliveredHeader(d.log[i].frame))
  }

  lemma TaskKeepsBalance(posted: seq<Task>, ran: nat, live: nat, wasReset: bool, d: Delegate)
    requires Balanced(posted, ran, live, wasReset, d) && Enabled(d, RunTask)
    ensures Balanced(posted, ran + 1, live + if wasReset then 0 else 1, wasReset, Next(d, RunTask))
  {
    assert d.queue[0] == posted[ran];
    assert posted[..ran + 1][..ran] == posted[..ran];
    if d.queue[0].Receive? {
      var f := d.queue[0].frame;
      LogSnoc(d.log, Transformed(f, f.payload, DeliveredHeader(f)));
    }
  }

  lemma PostKeepsBalance(posted: seq<Task>, ran: nat, live: nat, wasReset: bool, d: Delegate, t: Task)
    requires Balanced(posted, ran, live, wasReset, d)
    ensures Balanced(posted + [t], ran, live, wasReset, d.(queue := d.queue + [t]))
  {
    assert (posted + [t])[..live] == posted[..live];
    assert (posted + [t])[ran..] == posted[ran..] + [t];
  }

  lemma TransformKeepsBalance(posted: seq<Task>, ran: nat, live: nat, wasReset: bool, d: Delegate, p: Packet)
    requires Balanced(posted, ran, live, wasReset, d) && Enabled(d, Transform(p))
    ensures Balanced(posted, ran, live, wasReset, Next(d, Transform(p)))
  {
    LogSnoc(d.log, Direct(p.payload, p.header));
  }

  lemma CallKeepsBalance(posted: seq<Task>, ran: nat, live: nat, wasReset: bool, d: Delegate, s: Step)
    requires Balanced(posted, ran, live, wasReset, d) && Enabled(d, s) && !s.RunTask?
    ensures Balanced(posted + PostedBy(s), ran, live, wasReset || s == Reset, Next(d, s))
  {
    match s
    case Transform(p) =>
      assert posted + [] == posted;
      TransformKeepsBalance(posted, ran, live, wasReset, d, p);
    case OnTransformedFrame(f) => PostKeepsBalance(posted, ran, live, wasReset, d, Receive(f));
    case StartShortCircuiting => PostKeepsBalance(posted, ran, live, wasReset, d, SwitchToShortCircuit);
    case Reset => assert posted + [] == posted;
  }

  lemma ConservedStep(steps: seq<Step>, d: Delegate, s: Step)
    requires Conserved(steps, d) && Enabled(d, s)
    ensures Conserved(steps + [s], Next(d, s))
  {
    var posted, ran, live, wasReset := Posted(steps), TasksRun(steps), TasksRunLive(steps), Reset in steps;
    StepCounts(steps, s);
    if s.RunTask? {
      assert posted + [] == posted;
      TaskKeepsBalance(posted, ran, live, wasReset, d);
    } else {
      CallKeepsBalance(posted, ran, live, wasReset, d, s);
    }
    assert Balanced(posted + PostedBy(s), TasksRun(steps + [s]), TasksRunLive(steps + [s]), wasReset || s == Reset, Next(d, s));
    assert Reset in steps + [s] <==> wasReset || s == Reset;
  }

  lemma LogSnoc(log: seq<Event>, e: Event)
    ensures TransformedFrames(log + [e]) == TransformedFrames(log) + if e.Transformed? then [e.frame] else []
    ensures DirectEvents(log + [e]) == DirectEvents(log) + if e.Direct? then [e] else []
  {
    assert (log + [e])[..|log|] == log;
  }

  lemma {:induction false} EveryRunConserves(steps: seq<Step>)
    requires Run(steps).Some?
    ensures Conserved(steps, Run(steps).value)
    decreases |steps|
  {
    if steps == [] {
      assert Posted(steps)[..0] == [];
    } else {
      var before, last := steps[..|steps| - 1], steps[|steps| - 1];
      assert steps == before + [last];
      EveryRunConserves(before);
      ConservedStep(before, Run(before).value, last);
      assert Run(steps).value == Next(Run(before).value, last);
    }
  }

  // ------------------------------------------------ short-circuiting

  /** The tasks posted before the first switch. */
  function BeforeSwitch(tasks: seq<Task>): seq<Task>
    decreases |tasks|
  {
    if SwitchToShortCircuit !in tasks then tasks
    else if SwitchToShortCircuit in tasks[..|tasks| - 1] then BeforeSwitch(tasks[..|tasks| - 1])
    else tasks[..|tasks| - 1]
  }

  lemma {:induction false} BeforeSwitchStable(tasks: seq<Task>, n: nat)
    requires n <= |tasks| && SwitchToShortCircuit in tasks[..n]
    ensures BeforeSwitch(tasks) == BeforeSwitch(tasks[..n])
    decreases |tasks|
  {
    if n == |tasks| {
      assert tasks[..n] == tasks;
    } else {
      var t := tasks[..|tasks| - 1];
      assert t[..n] == tasks[..n];
      BeforeSwitchStable(t, n);
    }
  }

  lemma {:induction false} BeforeSwitchIsPrefix(tasks: seq<Task>)
    ensures Frames(BeforeSwitch(tasks)) <= Frames(tasks)
    decreases |tasks|
  {
    if SwitchToShortCircuit in tasks {
      if SwitchToShortCircuit in tasks[..|tasks| - 1] {
        BeforeSwitchIsPrefix(tasks[..|tasks| - 1]);
      }
    }
  }

  /** Short-circuiting is on only once a switch task ran, and every call that
      bypassed the transformer came after every frame posted before the switch. */
  ghost predicate Ordered(steps: seq<Step>, d: Delegate)
    requires TasksRun(steps) <= |Posted(steps)|
  {
    && (d.shortCircuit <==> SwitchToShortCircuit in Posted(steps)[..TasksRun(steps)])
    && (HasDirect(d.log) ==> d.shortCircuit)
    && DirectsOverdue(Posted(steps), d.log)
  }

  ghost predicate HasDirect(log: seq<Event>) { exists i :: 0 <= i < |log| && log[i].Direct? }

  ghost predicate DirectsOverdue(posted: seq<Task>, log: seq<Event>) {
    forall i | 0 <= i < |log| && log[i].Direct? :: Overdue(posted, log[..i])
  }

  /** Everything posted before the first switch is already in the log. */
  ghost predicate Overdue(posted: seq<Task>, log: seq<Event>) {
    Frames(BeforeSwitch(posted)) <= TransformedFrames(log)
  }

  lemma SwitchRan(posted: seq<Task>, ran: nat)
    requires ran < |posted|
    ensures SwitchToShortCircuit in posted[..ran + 1] <==>
            SwitchToShortCircuit in posted[..ran] || posted[ran] == SwitchToShortCircuit
  {
    assert posted[..ran + 1] == posted[..ran] + [posted[ran]];
  }

  lemma OverdueOnceSwitched(posted: seq<Task>, ran: nat, log: seq<Event>)
    requires ran <= |posted| && SwitchToShortCircuit in posted[..ran]
    requires TransformedFrames(log) == Frames(posted[..ran])
    ensures Overdue(posted, log)
  {
    BeforeSwitchStable(posted, ran);
    BeforeSwitchIsPrefix(posted[..ran]);
  }

  lemma OverdueStays(a: seq<Task>, b: seq<Task>, n: nat, log: seq<Event>)
    requires n <= |a| && n <= |b| && a[..n] == b[..n] && SwitchToShortCircuit in a[..n]
    requires Overdue(a, log)
    ensures Overdue(b, log)
  {
    BeforeSwitchStable(a, n);
    BeforeSwitchStable(b, n);
  }

  /** How a step moves the counters. */
  lemma StepCounts(steps: seq<Step>, s: Step)
    requires TasksRun(steps) <= |Posted(steps)|
    ensures TasksRun(steps + [s]) == TasksRun(steps) + if s.RunTask? then 1 else 0
    ensures TasksRunLive(steps + [s]) == TasksRunLive(steps) + if s.RunTask? && Reset !in steps then 1 else 0
    ensures Posted(steps + [s]) == Posted(steps) + PostedBy(s)
    ensures Posted(steps + [s])[..TasksRun(steps)] == Posted(steps)[..TasksRun(steps)]
  {
    assert (steps + [s])[..|steps|] == steps;
  }

  /** What is overdue stays so when more is posted. */
  lemma DirectsStay(a: seq<Task>, b: seq<Task>, n: nat, log: seq<Event>)
    requires n <= |a| && n <= |b| && a[..n] == b[..n] && DirectsOverdue(a, log)
    requires HasDirect(log) ==> SwitchToShortCircuit in a[..n]
    ensures DirectsOverdue(b, log)
  {
    forall i | 0 <= i < |log| && log[i].Direct? ensures Overdue(b, log[..i]) {
      OverdueStays(a, b, n, log[..i]);
    }
  }

  lemma DirectsSnoc(posted: seq<Task>, log: seq<Event>, e: Event)
    requires DirectsOverdue(posted, log) && (e.Direct? ==> Overdue(posted, log))
    ensures DirectsOverdue(posted, log + [e])
    ensures HasDirect(log + [e]) <==> HasDirect(log) || e.Direct?
  {
    var u := log + [e];
    forall i | 0 <= i < |u| && u[i].Direct? ensures Overdue(posted, u[..i]) {
      assert u[..i] == if i < |log| then log[..i] else log;
    }
    if HasDirect(log) {
      var i :| 0 <= i < |log| && log[i].Direct?;
      assert u[i].Direct?;
    }
    assert u[|log|] == e;
  }

  lemma OrderedStep(steps: seq<Step>, d: Delegate, s: Step)
    requires Conserved(steps, d) && Ordered(steps, d) && Enabled(d, s)
    requires Conserved(steps + [s], Next(d, s))
    ensures Ordered(steps + [s], Next(d, s))
  {
    var posted, posted', ran := Posted(steps), Posted(steps + [s]), TasksRun(steps);
    StepCounts(steps, s);
    DirectsStay(posted, posted', ran, d.log);
    match s
    case Transform(p) =>
      if d.shortCircuit {
        OverdueOnceSwitched(posted', ran, d.log);
        DirectsSnoc(posted', d.log, Direct(p.payload, p.header));
      }
    case RunTask =>
      SwitchRan(posted', ran);
      assert d.queue[0] == posted[ran] == posted'[ran];
      if d.queue[0].Receive? {
        var f := d.queue[0].frame;
        DirectsSnoc(posted', d.log, Transformed(f, f.payload, DeliveredHeader(f)));
      }
    case _ =>
  }

  ghost predicate InOrder(steps: seq<Step>) {
    Run(steps).Some? && Conserved(steps, Run(steps).value) && Ordered(steps, Run(steps).value)
  }

  lemma InOrderStep(before: seq<Step>, s: Step)
    requires InOrder(before) && Enabled(Run(before).value, s)
    ensures InOrder(before + [s])
  {
    assert (before + [s])[..|before|] == before;
    ConservedStep(before, Run(before).value, s);
    OrderedStep(before, Run(before).value, s);
  }

  /** Over every interleaving, each frame posted before StartShortCircuiting has
      been delivered before any packet that bypasses the transformer. */
  lemma {:induction false} EveryRunIsOrdered(steps: seq<Step>)
    requires Run(steps).Some?
    ensures InOrder(steps)
    decreases |steps|
  {
    if steps != [] {
      var before := steps[..|steps| - 1];
      assert steps == before + [steps[|steps| - 1]];
      EveryRunIsOrdered(before);
      InOrderStep(before, steps[|steps| - 1]);
    }
  }

  /** The callback's argument list for a packet that bypasses the transformer. */
  function Bypass(p: Packet): Event { Direct(p.payload, p.header) }

  /** No packet is lost: those that arrived before the switch were handed to the
      transformer, the later ones went straight to the callback, in order. */
  ghost predicate Routed(steps: seq<Step>, d: Delegate) {
    RoutedTo(Packets(steps), d.shortCircuit, d.handed, DirectEvents(d.log))
  }

  ghost predicate RoutedTo(ps: seq<Packet>, shortCircuit: bool, handed: seq<Frame>, direct: seq<Event>) {
    (!shortCircuit ==> direct == []) && SplitsInto(ps, handed, direct)
  }

  /** The frame that the transformer is given for a packet. */
  predicate Carries(f: Frame, p: Packet) {
    f.Incoming? && f.payload == p.payload && f.header == p.header && f.frameSsrc == p.ssrc && f.mimeType == p.mimeType
  }

  predicate Delivers(e: Event, p: Packet) { e.Direct? && e.payload == p.payload && e.header == p.header }

  ghost predicate SplitsInto(ps: seq<Packet>, handed: seq<Frame>, direct: seq<Event>) {
    && |handed| + |direct| == |ps|
    && (forall i | 0 <= i < |handed| :: Carries(handed[i], ps[i]))
    && (forall i | 0 <= i < |direct| :: Delivers(direct[i], ps[|handed| + i]))
  }

  lemma SplitsSnoc(ps: seq<Packet>, handed: seq<Frame>, direct: seq<Event>, p: Packet)
    requires SplitsInto(ps, handed, direct)
    ensures SplitsInto(ps + [p], handed, direct + [Bypass(p)])
    ensures direct == [] ==> SplitsInto(ps + [p], handed + [Wrapped(p)], direct)
  {
  }

  lemma RoutedStep(steps: seq<Step>, d: Delegate, s: Step)
    requires Routed(steps, d) && Enabled(d, s)
    ensures Routed(steps + [s], Next(d, s))
  {
    PacketsSnoc(steps, s);
    if s.Transform? {
      SplitsSnoc(Packets(steps), d.handed, DirectEvents(d.log), s.packet);
      LogSnoc(d.log, Bypass(s.packet));
    } else {
      OnlyTransformsRoute(d, s);
    }
  }

  lemma PacketsSnoc(steps: seq<Step>, s: Step)
    ensures Packets(steps + [s]) == if s.Transform? then Packets(steps) + [s.packet] else Packets(steps)
  {
    assert (steps + [s])[..|steps|] == steps;
  }

  lemma OnlyTransformsRoute(d: Delegate, s: Step)
    requires Enabled(d, s) && !s.Transform?
    ensures Next(d, s).handed == d.handed && DirectEvents(Next(d, s).log) == DirectEvents(d.log)
    ensures d.shortCircuit ==> Next(d, s).shortCircuit
  {
    if s.RunTask? && d.queue[0].Receive? {
      var f := d.queue[0].frame;
      LogSnoc(d.log, Transformed(f, f.payload, DeliveredHeader(f)));
    }
  }

  lemma {:induction false} EveryRunRoutes(steps: seq<Step>)
    requires Run(steps).Some?
    ensures Routed(steps, Run(steps).value)
    decreases |steps|
  {
    if steps != [] {
      var before := steps[..|steps| - 1];
      EveryRunRoutes(before);
      RoutedStep(before, Run(before).value, steps[|steps| - 1]);
      assert before + [steps[|steps| - 1]] == steps;
    }
  }

  /** Once the delegate is reset, however the run continues, the callback is never
      called again. */
  lemma {:induction false} NothingAfterReset(steps: seq<Step>, n: nat)
    requires n <= |steps| && Reset in steps[..n] && Run(steps).Some?
    ensures Run(steps[..n]).Some? && Run(steps).value.log == Run(steps[..n]).value.log
    decreases |steps|
  {
    if n == |steps| {
      assert steps[..n] == steps;
    } else {
      var before := steps[..|steps| - 1];
      assert before[..n] == steps[..n];
      NothingAfterReset(before, n);
      EveryRunConserves(before);
    }
  }

  /** A transformer that returns its input unchanged is indistinguishable from
      short-circuiting; a clone made for the send side keeps what that side knows. */
  lemma IdentityTransformIsShortCircuit(p: Packet)
    ensures Wrapped(p).payload == p.payload && DeliveredHeader(Wrapped(p)) == p.header
    ensures var h := DeliveredHeader(Clone(Wrapped(p)));
            h == EMPTY_HEADER.(payloadType := p.header.payloadType, timestamp := p.header.timestamp, ssrc := p.ssrc)
  {
    ClonePreservesFrame(Wrapped(p));
  }

  /** The header of a delivered frame, field by field: a received frame's own, or one
      made of what a sender frame knows. */
  lemma HeaderOfFrame(f: Frame)
    ensures f.Incoming? ==> DeliveredHeader(f) == f.header
    ensures f.Outgoing? ==>
              var h := DeliveredHeader(f);
              && h.payloadType == f.payloadType && h.timestamp == f.timestamp && h.ssrc == f.frameSsrc
              && h.captureTimestamp == f.captureMs
              && h.sequenceNumber == 0 && h.csrcs == [] && !h.voiceActivity
  {
  }

  // ------------------------------------------------ the object

  class ChannelReceiveFrameTransformerDelegate {
    var queue: seq<Task>             // tasks posted to channel_receive_thread_
    var shortCircuit: bool
    var frameTransformer: bool       // frame_transformer_ is not null
    var receiveFrameCallback: bool   // receive_frame_callback_ is not empty
    var handed: seq<Frame>
    var log: seq<Event>

    ghost function View(): Delegate
      reads this
    {
      Delegate(queue, shortCircuit, frameTransformer, receiveFrameCallback, handed, log)
    }

    constructor ()
      ensures View() == INITIAL
    {
      queue, shortCircuit, frameTransformer, receiveFrameCallback, handed, log := [], false, true, true, [], [];
    }

    method Reset()
      requires Enabled(View(), Step.Reset)
      modifies this
      ensures View() == Next(old(View()), Step.Reset)
    {
      frameTransformer := false;
      receiveFrameCallback := false;
    }

    method Transform(p: Packet)
      requires Enabled(View(), Step.Transform(p))
      modifies this
      ensures View() == Next(old(View()), Step.Transform(p))
    {
      if shortCircuit {
        log := log + [Direct(p.payload, p.header)];
      } else {
        handed := handed + [Incoming(p.payload, p.header, p.ssrc, p.mimeType)];
      }
    }

    method OnTransformedFrame(f: Frame)
      modifies this
      ensures View() == Next(old(View()), Step.OnTransformedFrame(f))
    {
      queue := queue + [Receive(f)];
    }

    method StartShortCircuiting()
      modifies this
      ensures View() == Next(old(View()), Step.StartShortCircuiting)
    {
      queue := queue + [SwitchToShortCircuit];
    }

    method ReceiveFrame(f: Frame)
      modifies this`log
      ensures View() == Received(old(View()), f)
    {
      if !receiveFrameCallback {
        return;
      }
      var header := EMPTY_HEADER;
      if f.FromSender() {
        header := header.(payloadType := f.PayloadType());
        header := header.(timestamp := f.Timestamp());
        header := header.(ssrc := f.frameSsrc);
        if f.AbsoluteCaptureTimestamp().Some? {
          header := header.(captureTimestamp := f.AbsoluteCaptureTimestamp());
        }
      } else {
        header := f.header;
      }
      log := log + [Transformed(f, f.payload, header)];
    }

    /** The worker thread takes the oldest task. */
    method RunTask()
      requires Enabled(View(), Step.RunTask)
      modifies this
      ensures View() == Next(old(View()), Step.RunTask)
    {
      var task := queue[0];
      queue := queue[1..];
      match task
      case Receive(f) => ReceiveFrame(f);
      case SwitchToShortCircuit => shortCircuit := true;
    }
  }
}
