/** Any number of send and receive streams sharing one AudioState, and the capture
    thread beside them: what holds over every run of creating, reconfiguring, starting,
    stopping and destroying streams while frames are being captured.

    A captured frame takes the transport's lock twice, first to read the format to aim
    at and later, perhaps after asynchronous processing, to read the senders.  Steps of
    the other threads may come in between. */
module AudioSystem {
  import opened Common
  import opened AudioTransport
  import opened AudioState
  import opened SendStreams
  import Headers = HeaderRegistration
  import Codecs = SendCodec
  import Bitrates = BitrateAllocation

  /** A frame between the two locked sections, and the input that it was made from. */
  datatype Capture = Capture(frame: AudioFrame, inputRateHz: int, inputChannels: int)

  datatype System = System(
    senders: map<StreamId, Sender>, factories: map<StreamId, Codecs.Factory>, receivers: map<StreamId, bool>,
    audio: State, captures: map<int, Capture>, deliveries: seq<Delivery>)

  const NEW_SYSTEM := System(map[], map[], map[], INITIAL, map[], [])

  datatype Step =
    | CreateSender(id: StreamId, make: Codecs.Factory, config: Config, rtpOverhead: nat)
    | ActOn(id: StreamId, act: Act, device: Device)
    | DestroySender(id: StreamId)
    | CreateReceiver(id: StreamId)
    | StartReceiver(id: StreamId, device: Device)
    | StopReceiver(id: StreamId)
    | DestroyReceiver(id: StreamId)
    | EnablePlayout(enabled: bool, startOk: bool)
    | EnableRecording(enabled: bool, startOk: bool)
    | BeginCapture(key: int, content: seq<int>, inputRateHz: int, inputChannels: int)
    | FinishCapture(key: int)

  /** What the environment owes: addresses are of live streams, or new; configs are
      accepted by the stream's collaborators; a sender is stopped before it goes. */
  ghost predicate Enabled(settings: Bitrates.Settings, y: System, step: Step) {
    match step
    case CreateSender(id, make, c, rtp) => id !in y.senders && Accepted(make, settings, NEW_SENDER, true, c, rtp)
    case ActOn(id, act, _) =>
      id in y.senders && id in y.factories && Possible(y.factories[id], settings, y.senders[id], act)
    case DestroySender(id) => id in y.senders && !y.senders[id].allocation.sending
    case CreateReceiver(id) => id !in y.receivers
    case StartReceiver(id, _) => id in y.receivers
    case StopReceiver(id) => id in y.receivers
    case DestroyReceiver(id) => id in y.receivers
    case BeginCapture(key, _, _, _) => key !in y.captures
    case FinishCapture(key) => key in y.captures
    case _ => true
  }

  /** AudioState's own checks: it counts what it inserts and erases. */
  ghost predicate ChecksHold(y: System, step: Step) {
    match step
    case ActOn(id, act, _) =>
      id in y.senders && act.Stopped? && y.senders[id].allocation.sending ==> id in y.audio.sending
    case StartReceiver(id, _) => id in y.receivers && !y.receivers[id] ==> id !in y.audio.receiving
    case StopReceiver(id) => id in y.receivers && y.receivers[id] ==> id in y.audio.receiving
    case DestroyReceiver(id) => id in y.receivers && y.receivers[id] ==> id in y.audio.receiving
    case _ => true
  }

  /** What the first locked section makes of a captured buffer. */
  ghost function Begun(y: System, b: Step): Capture
    requires b.BeginCapture?
  {
    Capture(Captured(y.audio.transport, b.content, b.inputRateHz, b.inputChannels), b.inputRateHz, b.inputChannels)
  }

  ghost function Next(settings: Bitrates.Settings, y: System, step: Step): System
    requires Enabled(settings, y, step)
  {
    match step
    case CreateSender(id, make, c, rtp) =>
      y.(senders := y.senders[id := Configured(make, settings, NEW_SENDER, true, c, rtp)],
         factories := y.factories[id := make])
    case ActOn(id, act, d) =>
      var make, s := y.factories[id], y.senders[id];
      y.(senders := y.senders[id := Acted(make, settings, s, act)], audio := AudioAfter(make, y.audio, id, s, act, d))
    case DestroySender(id) => y.(senders := y.senders - {id})
    case CreateReceiver(id) => y.(receivers := y.receivers[id := false])
    case StartReceiver(id, d) =>
      if y.receivers[id] then y
      else y.(receivers := y.receivers[id := true], audio := AddReceiving(y.audio, id, d))
    case StopReceiver(id) =>
      if y.receivers[id] then y.(receivers := y.receivers[id := false], audio := RemoveReceiving(y.audio, id)) else y
    case DestroyReceiver(id) =>
      y.(receivers := y.receivers - {id},
         audio := if y.receivers[id] then RemoveReceiving(y.audio, id) else y.audio)
    case EnablePlayout(enabled, ok) => y.(audio := PlayoutSet(y.audio, enabled, ok))
    case EnableRecording(enabled, ok) => y.(audio := RecordingSet(y.audio, enabled, ok))
    case BeginCapture(key, _, _, _) => y.(captures := y.captures[key := Begun(y, step)])
    case FinishCapture(key) =>
      y.(captures := y.captures - {key},
         deliveries := y.deliveries + Fanout(y.audio.transport.senders, y.captures[key].frame))
  }

  /** The state after the steps, None if one of them was not possible. */
  ghost function Run(settings: Bitrates.Settings, steps: seq<Step>): Option<System>
    decreases |steps|
  {
    if steps == [] then Some(NEW_SYSTEM)
    else
      var y := Run(settings, steps[..|steps| - 1]);
      if y.None? || !Enabled(settings, y.value, steps[|steps| - 1]) then None
      else Some(Next(settings, y.value, steps[|steps| - 1]))
  }

  lemma RunSnoc(settings: Bitrates.Settings, steps: seq<Step>, step: Step)
    requires Run(settings, steps).Some? && Enabled(settings, Run(settings, steps).value, step)
    ensures Run(settings, steps + [step]) == Some(Next(settings, Run(settings, steps).value, step))
  {
    assert (steps + [step])[..|steps|] == steps;
  }

  lemma {:induction false} RunsPrefix(settings: Bitrates.Settings, steps: seq<Step>, n: nat)
    requires n <= |steps| && Run(settings, steps).Some?
    ensures Run(settings, steps[..n]).Some?
    decreases |steps|
  {
    if n == |steps| {
      assert steps[..n] == steps;
    } else {
      var before := steps[..|steps| - 1];
      assert before[..n] == steps[..n];
      RunsPrefix(settings, before, n);
    }
  }

  // ------------------------------------------------ the invariant

  /** AudioState's senders are the sending streams, with their stored properties. */
  ghost predicate SendersLinked(senders: map<StreamId, Sender>, sending: map<StreamId, Props>) {
    && (forall id :: id in sending <==> id in senders && senders[id].allocation.sending)
    && (forall id | id in sending :: sending[id] == senders[id].props)
    && (forall id | id in senders :: UpToDate(senders[id]))
  }

  /** AudioState's receivers are the playing streams. */
  ghost predicate ReceiversLinked(receivers: map<StreamId, bool>, receiving: set<StreamId>) {
    forall id :: id in receiving <==> id in receivers && receivers[id]
  }

  ghost predicate Consistent(y: System) {
    && SendersLinked(y.senders, y.audio.sending) && ReceiversLinked(y.receivers, y.audio.receiving)
    && Justified(y.audio) && Describes(y.audio.transport, y.audio.sending)
  }

  /** Replacing one sender and, if it sends, its entry. */
  lemma RelinkSender(senders: map<StreamId, Sender>, sending: map<StreamId, Props>, id: StreamId, s: Sender)
    requires SendersLinked(senders, sending) && UpToDate(s)
    ensures s.allocation.sending ==> SendersLinked(senders[id := s], sending[id := s.props])
    ensures !s.allocation.sending ==> SendersLinked(senders[id := s], sending - {id})
  {
  }

  /** What an act means for the map of sending streams. */
  lemma ActRelinks(make: Codecs.Factory, settings: Bitrates.Settings, a: State, id: StreamId, s: Sender, act: Act,
                   d: Device)
    requires Possible(make, settings, s, act) && UpToDate(s)
    requires if s.allocation.sending then id in a.sending && a.sending[id] == s.props else id !in a.sending
    ensures var t := Acted(make, settings, s, act);
            && UpToDate(t)
            && AudioAfter(make, a, id, s, act, d).sending ==
               if t.allocation.sending then a.sending[id := t.props] else a.sending - {id}
  {
    if act.Reconfigured? {
      ConfiguredIsUpToDate(make, settings, s, false, act.config, act.rtpOverhead);
    } else {
      OtherActsKeep(make, settings, s, act);
    }
    assert s.allocation.sending ==> a.sending[id := s.props] == a.sending;
    assert !s.allocation.sending ==> a.sending - {id} == a.sending;
  }

  lemma SenderStep(settings: Bitrates.Settings, y: System, step: Step)
    requires SendersLinked(y.senders, y.audio.sending) && Enabled(settings, y, step)
    ensures step.ActOn? ==> ChecksHold(y, step)
    ensures var z := Next(settings, y, step); SendersLinked(z.senders, z.audio.sending)
  {
    match step
    case CreateSender(id, make, c, rtp) =>
      ConfiguredIsUpToDate(make, settings, NEW_SENDER, true, c, rtp);
      RelinkSender(y.senders, y.audio.sending, id, Configured(make, settings, NEW_SENDER, true, c, rtp));
      assert y.audio.sending - {id} == y.audio.sending;
    case ActOn(id, act, d) =>
      var make, s := y.factories[id], y.senders[id];
      ActRelinks(make, settings, y.audio, id, s, act, d);
      RelinkSender(y.senders, y.audio.sending, id, Acted(make, settings, s, act));
    case _ =>
  }

  lemma ReceiverStep(settings: Bitrates.Settings, y: System, step: Step)
    requires ReceiversLinked(y.receivers, y.audio.receiving) && Enabled(settings, y, step)
    ensures !step.ActOn? ==> ChecksHold(y, step)
    ensures var z := Next(settings, y, step); ReceiversLinked(z.receivers, z.audio.receiving)
  {
  }

  /** The device and the transport. */
  ghost predicate Served(a: State) { Justified(a) && Describes(a.transport, a.sending) }

  lemma MethodsKeepServed(a: State, id: StreamId, p: Props, d: Device, enabled: bool)
    requires Served(a)
    ensures Served(AddSending(a, id, p, d)) && Served(RemoveSending(a, id))
    ensures Served(AddReceiving(a, id, d)) && Served(RemoveReceiving(a, id))
    ensures Served(PlayoutSet(a, enabled, d.startOk)) && Served(RecordingSet(a, enabled, d.startOk))
  {
    MethodsKeepJustified(a, id, p, d, enabled);
    TransportedDescribes(a.sending[id := p]);
    TransportedDescribes(a.sending - {id});
  }

  lemma ActIsServed(make: Codecs.Factory, a: State, id: StreamId, s: Sender, act: Act, d: Device)
    requires Served(a)
    ensures Served(AudioAfter(make, a, id, s, act, d))
  {
    match act
    case Reconfigured(c, _) =>
      var p := Announced(make, s.config, c);
      if p.Some? {
        MethodsKeepServed(a, id, p.value, d, true);
      }
    case _ => MethodsKeepServed(a, id, s.props, d, true);
  }

  lemma StepIsServed(settings: Bitrates.Settings, y: System, step: Step)
    requires Served(y.audio) && Enabled(settings, y, step)
    ensures Served(Next(settings, y, step).audio)
  {
    if step.ActOn? {
      ActIsServed(y.factories[step.id], y.audio, step.id, y.senders[step.id], step.act, step.device);
    } else {
      OtherStepIsServed(settings, y, step);
    }
  }

  lemma OtherStepIsServed(settings: Bitrates.Settings, y: System, step: Step)
    requires Served(y.audio) && Enabled(settings, y, step) && !step.ActOn?
    ensures Served(Next(settings, y, step).audio)
  {
    match step
    case StartReceiver(id, d) => MethodsKeepServed(y.audio, id, NO_PROPS, d, true);
    case StopReceiver(id) => MethodsKeepServed(y.audio, id, NO_PROPS, Device(false, false), true);
    case DestroyReceiver(id) => MethodsKeepServed(y.audio, id, NO_PROPS, Device(false, false), true);
    case EnablePlayout(e, ok) => MethodsKeepServed(y.audio, 0, NO_PROPS, Device(false, ok), e);
    case EnableRecording(e, ok) => MethodsKeepServed(y.audio, 0, NO_PROPS, Device(false, ok), e);
    case _ =>
  }

  /** After every run, for any number of streams: a stream is known to AudioState iff
      it is sending (or playing), with its encoder's rate and channels; the transport
      has exactly the sending streams and the maxima of their rates and channels; the
      device runs only when justified. */
  lemma {:induction false} EveryRunIsConsistent(settings: Bitrates.Settings, steps: seq<Step>)
    requires Run(settings, steps).Some?
    ensures Consistent(Run(settings, steps).value)
    decreases |steps|
  {
    if steps != [] {
      var before, last := steps[..|steps| - 1], steps[|steps| - 1];
      EveryRunIsConsistent(settings, before);
      var y := Run(settings, before).value;
      SenderStep(settings, y, last);
      ReceiverStep(settings, y, last);
      StepIsServed(settings, y, last);
    }
  }

  /** So none of AudioState's count checks ever fails. */
  lemma NoCheckFails(settings: Bitrates.Settings, steps: seq<Step>, step: Step)
    requires Run(settings, steps).Some? && Enabled(settings, Run(settings, steps).value, step)
    ensures ChecksHold(Run(settings, steps).value, step)
  {
    EveryRunIsConsistent(settings, steps);
    SenderStep(settings, Run(settings, steps).value, step);
    ReceiverStep(settings, Run(settings, steps).value, step);
  }

  // ------------------------------------------------ the devices

  /** The streams that were started and not stopped since, as the steps tell. */
  ghost function ReceivingBy(receiving: set<StreamId>, step: Step): set<StreamId> {
    match step
    case StartReceiver(id, _) => receiving + {id}
    case StopReceiver(id) => receiving - {id}
    case DestroyReceiver(id) => receiving - {id}
    case _ => receiving
  }

  ghost function SendingBy(sending: set<StreamId>, step: Step): set<StreamId> {
    match step
    case ActOn(id, Started, _) => sending + {id}
    case ActOn(id, Stopped, _) => sending - {id}
    case _ => sending
  }

  /** Whether a start of the playout device succeeded since it was last stopped.  It is
      tried when a stream starts receiving with playout enabled, and when playout is
      enabled with a stream receiving; it is stopped when playout is disabled, and when
      the last stream stops. */
  ghost predicate PlayoutBy(started: bool, on: bool, receiving: set<StreamId>, step: Step) {
    match step
    case StartReceiver(id, d) => started || (id !in receiving && on && d.initOk && d.startOk)
    case StopReceiver(id) => started && (id !in receiving || receiving - {id} != {})
    case DestroyReceiver(id) => started && (id !in receiving || receiving - {id} != {})
    case EnablePlayout(enabled, ok) => if enabled == on then started else enabled && (started || (receiving != {} && ok))
    case _ => started
  }

  /** The same for recording, which is also tried whenever a sending stream announces a
      new encoder. */
  ghost predicate RecordingBy(started: bool, on: bool, sending: set<StreamId>, announces: bool, step: Step) {
    match step
    case ActOn(id, act, d) =>
      if act.Stopped? then started && (id !in sending || sending - {id} != {})
      else started || (announces && on && d.initOk && d.startOk)
    case EnableRecording(enabled, ok) => if enabled == on then started else enabled && (started || (sending != {} && ok))
    case _ => started
  }

  datatype Devices = Devices(
    receiving: set<StreamId>, sending: set<StreamId>, playoutOn: bool, recordingOn: bool,
    playoutStarted: bool, recordingStarted: bool)

  /** What the steps say about streams and devices. */
  ghost function DevicesAfter(settings: Bitrates.Settings, steps: seq<Step>): Devices
    requires Run(settings, steps).Some?
    decreases |steps|
  {
    if steps == [] then Devices({}, {}, true, true, false, false)
    else
      var before, last := steps[..|steps| - 1], steps[|steps| - 1];
      DevicesBy(DevicesAfter(settings, before),
                NoticeOf(settings, Run(settings, before).value, last).Announcement?, last)
  }

  ghost function DevicesBy(v: Devices, announces: bool, step: Step): Devices {
    Devices(ReceivingBy(v.receiving, step), SendingBy(v.sending, step),
            if step.EnablePlayout? then step.enabled else v.playoutOn,
            if step.EnableRecording? then step.enabled else v.recordingOn,
            PlayoutBy(v.playoutStarted, v.playoutOn, v.receiving, step),
            RecordingBy(v.recordingStarted, v.recordingOn, v.sending, announces, step))
  }

  ghost predicate Shows(a: State, v: Devices) {
    && a.receiving == v.receiving && a.sending.Keys == v.sending
    && a.playoutEnabled == v.playoutOn && a.recordingEnabled == v.recordingOn
    && a.playing == v.playoutStarted && a.recording == v.recordingStarted
  }

  lemma AddShows(a: State, v: Devices, id: StreamId, p: Props, d: Device)
    requires Shows(a, v)
    ensures Shows(AddSending(a, id, p, d),
                  v.(sending := v.sending + {id},
                     recordingStarted := v.recordingStarted || (v.recordingOn && d.initOk && d.startOk)))
  {
    assert a.sending[id := p].Keys == a.sending.Keys + {id};
  }

  lemma RemoveShows(a: State, v: Devices, id: StreamId)
    requires Shows(a, v)
    ensures Shows(RemoveSending(a, id),
                  v.(sending := v.sending - {id}, recordingStarted := v.recordingStarted && v.sending - {id} != {}))
  {
    var rest := a.sending - {id};
    assert rest.Keys == a.sending.Keys - {id};
    assert rest == map[] <==> rest.Keys == {};
  }

  lemma ActShows(make: Codecs.Factory, settings: Bitrates.Settings, a: State, id: StreamId, s: Sender, act: Act,
                 d: Device, v: Devices)
    requires Shows(a, v) && (s.allocation.sending <==> id in a.sending)
    ensures Shows(AudioAfter(make, a, id, s, act, d),
                  DevicesBy(v, ActNotice(make, id, s, act).Announcement?, ActOn(id, act, d)))
  {
    assert id in v.sending ==> v.sending + {id} == v.sending;
    assert id !in v.sending ==> v.sending - {id} == v.sending;
    match act
    case Started => AddShows(a, v, id, s.props, d);
    case Stopped => RemoveShows(a, v, id);
    case Reconfigured(c, _) =>
      var p := Announced(make, s.config, c);
      if p.Some? {
        AddShows(a, v, id, p.value, d);
      }
    case _ =>
  }

  lemma ReceiverShows(a: State, v: Devices, id: StreamId, d: Device)
    requires Shows(a, v)
    ensures Shows(if id in a.receiving then a else AddReceiving(a, id, d), DevicesBy(v, false, StartReceiver(id, d)))
    ensures Shows(if id in a.receiving then RemoveReceiving(a, id) else a, DevicesBy(v, false, StopReceiver(id)))
    ensures Shows(if id in a.receiving then RemoveReceiving(a, id) else a, DevicesBy(v, false, DestroyReceiver(id)))
  {
    assert id in a.receiving ==> a.receiving + {id} == a.receiving;
    assert id !in a.receiving ==> a.receiving - {id} == a.receiving;
  }

  lemma SwitchShows(a: State, v: Devices, enabled: bool, ok: bool)
    requires Shows(a, v)
    ensures Shows(PlayoutSet(a, enabled, ok), DevicesBy(v, false, EnablePlayout(enabled, ok)))
    ensures Shows(RecordingSet(a, enabled, ok), DevicesBy(v, false, EnableRecording(enabled, ok)))
  {
    assert a.sending == map[] <==> a.sending.Keys == {};
  }

  lemma StepShows(settings: Bitrates.Settings, y: System, step: Step, v: Devices)
    requires Consistent(y) && Enabled(settings, y, step) && Shows(y.audio, v)
    ensures Shows(Next(settings, y, step).audio, DevicesBy(v, NoticeOf(settings, y, step).Announcement?, step))
  {
    match step
    case ActOn(id, act, d) => ActShows(y.factories[id], settings, y.audio, id, y.senders[id], act, d, v);
    case StartReceiver(id, d) => ReceiverShows(y.audio, v, id, d);
    case StopReceiver(id) => ReceiverShows(y.audio, v, id, Device(false, false));
    case DestroyReceiver(id) => ReceiverShows(y.audio, v, id, Device(false, false));
    case EnablePlayout(enabled, ok) => SwitchShows(y.audio, v, enabled, ok);
    case EnableRecording(enabled, ok) => SwitchShows(y.audio, v, enabled, ok);
    case _ =>
  }

  /** In every run the streams are those started and not stopped, and each device runs
      iff a start of it succeeded since it was last stopped. */
  lemma {:induction false} DevicesFollow(settings: Bitrates.Settings, steps: seq<Step>)
    requires Run(settings, steps).Some?
    ensures Shows(Run(settings, steps).value.audio, DevicesAfter(settings, steps))
    decreases |steps|
  {
    if steps != [] {
      var before, last := steps[..|steps| - 1], steps[|steps| - 1];
      DevicesFollow(settings, before);
      EveryRunIsConsistent(settings, before);
      StepShows(settings, Run(settings, before).value, last, DevicesAfter(settings, before));
    }
  }

  /** The device does all that is asked of it. */
  predicate DeviceObeys(step: Step) {
    match step
    case ActOn(_, _, d) => d.initOk && d.startOk
    case StartReceiver(_, d) => d.initOk && d.startOk
    case EnablePlayout(_, ok) => ok
    case EnableRecording(_, ok) => ok
    case _ => true
  }

  /** Then it plays exactly when playout is enabled and a stream is receiving, and
      records exactly when recording is enabled and a stream is sending. */
  ghost predicate InUse(v: Devices) {
    && (v.playoutStarted <==> v.playoutOn && v.receiving != {})
    && (v.recordingStarted <==> v.recordingOn && v.sending != {})
  }

  lemma ObeyingStep(v: Devices, announces: bool, step: Step)
    requires InUse(v) && DeviceObeys(step)
    requires step.ActOn? && step.act.Started? && step.id !in v.sending ==> announces
    requires step.ActOn? && announces ==> step.id in SendingBy(v.sending, step)
    ensures InUse(DevicesBy(v, announces, step))
  {
    match step
    case StartReceiver(id, _) => assert id in v.receiving + {id};
    case StopReceiver(id) => assert id !in v.receiving ==> v.receiving - {id} == v.receiving;
    case DestroyReceiver(id) => assert id !in v.receiving ==> v.receiving - {id} == v.receiving;
    case ActOn(id, act, _) =>
      assert act.Stopped? && id !in v.sending ==> v.sending - {id} == v.sending;
      assert act.Started? ==> id in v.sending + {id};
      assert act.Started? && id in v.sending ==> v.sending + {id} == v.sending;
    case _ =>
  }

  lemma {:induction false} ObeyingDeviceIsInUse(settings: Bitrates.Settings, steps: seq<Step>)
    requires Run(settings, steps).Some? && forall i | 0 <= i < |steps| :: DeviceObeys(steps[i])
    ensures InUse(DevicesAfter(settings, steps))
    ensures var a, v := Run(settings, steps).value.audio, DevicesAfter(settings, steps);
            && (a.playing <==> v.playoutOn && v.receiving != {})
            && (a.recording <==> v.recordingOn && v.sending != {})
    decreases |steps|
  {
    DevicesFollow(settings, steps);
    if steps != [] {
      var before, last := steps[..|steps| - 1], steps[|steps| - 1];
      ObeyingDeviceIsInUse(settings, before);
      DevicesFollow(settings, before);
      EveryRunIsConsistent(settings, before);
      assert DeviceObeys(last);
      AnnouncersSend(settings, Run(settings, before).value, last, DevicesAfter(settings, before));
      ObeyingStep(DevicesAfter(settings, before), NoticeOf(settings, Run(settings, before).value, last).Announcement?, last);
    }
  }

  lemma AnnouncersSend(settings: Bitrates.Settings, y: System, step: Step, v: Devices)
    requires Consistent(y) && Enabled(settings, y, step) && Shows(y.audio, v)
    ensures var announces := NoticeOf(settings, y, step).Announcement?;
            && (step.ActOn? && step.act.Started? && step.id !in v.sending ==> announces)
            && (step.ActOn? && announces ==> step.id in SendingBy(v.sending, step))
  {
  }

  // ------------------------------------------------ capture: who is served

  lemma {:induction false} DistinctCount(s: seq<StreamId>, id: StreamId)
    requires Distinct(s)
    ensures multiset(s)[id] == if id in s then 1 else 0
    decreases |s|
  {
    if s != [] {
      var before, last := s[..|s| - 1], s[|s| - 1];
      DistinctCount(before, id);
      assert s == before + [last];
      assert last !in before;
    }
  }

  ghost predicate Sends(y: System, id: StreamId) { id in y.senders && y.senders[id].allocation.sending }

  /** Whenever a captured frame is finished, it reaches each stream that is sending at
      that moment exactly once, and nothing else is delivered. */
  lemma CaptureReachesEverySender(settings: Bitrates.Settings, steps: seq<Step>, key: int, d: Delivery)
    requires Run(settings, steps + [FinishCapture(key)]).Some?
    ensures Run(settings, steps).Some? && key in Run(settings, steps).value.captures
    ensures var y, z := Run(settings, steps).value, Run(settings, steps + [FinishCapture(key)]).value;
            multiset(z.deliveries)[d] ==
            multiset(y.deliveries)[d] + if d.frame == y.captures[key].frame && Sends(y, d.sender) then 1 else 0
  {
    assert (steps + [FinishCapture(key)])[..|steps|] == steps;
    EveryRunIsConsistent(settings, steps);
    var t := Run(settings, steps).value.audio.transport;
    FanoutReachesEverySender(t.senders, Run(settings, steps).value.captures[key].frame, d);
    DistinctCount(t.senders, d.sender);
  }

  // ------------------------------------------------ capture: what is kept

  /** The frame has what the input and an encoder with these properties have in
      common, up to the highest processing rate. */
  predicate Keeps(c: Capture, p: Props) {
    && c.frame.sampleRateHz >= Min(Min(c.inputRateHz, p.sampleRateHz), 48000)
    && c.frame.numChannels >= Min(c.inputChannels, p.numChannels)
  }

  ghost predicate AllKept(c: Capture, m: map<StreamId, Props>) {
    forall id | id in m :: Keeps(c, m[id])
  }

  ghost predicate SendersKept(c: Capture, senders: map<StreamId, Sender>) {
    forall id | id in senders && senders[id].allocation.sending :: Keeps(c, senders[id].props)
  }

  /** A step may tell AudioState of a stream with certain properties, or withdraw it. */
  datatype Notice = Silence | Announcement(id: StreamId, props: Props) | Withdrawal(id: StreamId)

  ghost function ActNotice(make: Codecs.Factory, id: StreamId, s: Sender, act: Act): Notice {
    match act
    case Reconfigured(c, _) =>
      var p := Announced(make, s.config, c);
      if s.allocation.sending && p.Some? then Announcement(id, p.value) else Silence
    case Started => if s.allocation.sending then Silence else Announcement(id, s.props)
    case Stopped => if s.allocation.sending then Withdrawal(id) else Silence
    case _ => Silence
  }

  ghost function NoticeOf(settings: Bitrates.Settings, y: System, step: Step): Notice
    requires Enabled(settings, y, step)
  {
    if step.ActOn? then ActNotice(y.factories[step.id], step.id, y.senders[step.id], step.act) else Silence
  }

  ghost function Heard(m: map<StreamId, Props>, n: Notice): map<StreamId, Props> {
    match n
    case Silence => m
    case Announcement(id, p) => m[id := p]
    case Withdrawal(id) => m - {id}
  }

  lemma ActIsNoticed(make: Codecs.Factory, a: State, id: StreamId, s: Sender, act: Act, d: Device)
    ensures AudioAfter(make, a, id, s, act, d).sending == Heard(a.sending, ActNotice(make, id, s, act))
  {
  }

  lemma NoticesAreAll(settings: Bitrates.Settings, y: System, step: Step)
    requires Enabled(settings, y, step)
    ensures Next(settings, y, step).audio.sending == Heard(y.audio.sending, NoticeOf(settings, y, step))
  {
    match step
    case ActOn(id, act, d) => ActIsNoticed(y.factories[id], y.audio, id, y.senders[id], act, d);
    case _ =>
  }

  /** The streams announced since step `i` and not withdrawn again, each with the
      properties it was last announced with. */
  ghost function AnnouncedSince(settings: Bitrates.Settings, steps: seq<Step>, i: nat): map<StreamId, Props>
    requires Run(settings, steps).Some?
    decreases |steps|
  {
    if |steps| <= i then map[]
    else
      var before, last := steps[..|steps| - 1], steps[|steps| - 1];
      Heard(AnnouncedSince(settings, before, i), NoticeOf(settings, Run(settings, before).value, last))
  }

  /** A sending stream was announced since, or is as it was at step `i`. */
  ghost predicate Explained(since: map<StreamId, Props>, was: map<StreamId, Props>, now: map<StreamId, Props>) {
    && (forall id | id in since :: id in now && now[id] == since[id])
    && (forall id | id in now :: id in since || (id in was && was[id] == now[id]))
  }

  lemma HeardIsExplained(since: map<StreamId, Props>, was: map<StreamId, Props>, now: map<StreamId, Props>, n: Notice)
    requires Explained(since, was, now)
    ensures Explained(Heard(since, n), was, Heard(now, n))
  {
  }

  lemma {:induction false} SendersAreExplained(settings: Bitrates.Settings, steps: seq<Step>, i: nat)
    requires Run(settings, steps).Some? && i <= |steps|
    ensures Run(settings, steps[..i]).Some?
    ensures Explained(AnnouncedSince(settings, steps, i), Run(settings, steps[..i]).value.audio.sending,
                      Run(settings, steps).value.audio.sending)
    decreases |steps|
  {
    RunsPrefix(settings, steps, i);
    if i == |steps| {
      assert steps[..i] == steps;
    } else {
      var before, last := steps[..|steps| - 1], steps[|steps| - 1];
      assert before[..i] == steps[..i];
      SendersAreExplained(settings, before, i);
      var y := Run(settings, before).value;
      NoticesAreAll(settings, y, last);
      HeardIsExplained(AnnouncedSince(settings, before, i), Run(settings, steps[..i]).value.audio.sending,
                       y.audio.sending, NoticeOf(settings, y, last));
    }
  }

  /** Step `i` began the capture `key`, which is still under way. */
  ghost predicate UnderWay(steps: seq<Step>, i: nat, key: int) {
    i < |steps| && steps[i].BeginCapture? && steps[i].key == key && FinishCapture(key) !in steps[i + 1..]
  }

  lemma StepKeepsCapture(settings: Bitrates.Settings, y: System, step: Step, key: int)
    requires Enabled(settings, y, step) && key in y.captures && step != FinishCapture(key)
    ensures var z := Next(settings, y, step); key in z.captures && z.captures[key] == y.captures[key]
  {
  }

  lemma BeginsCapture(settings: Bitrates.Settings, y: System, step: Step)
    requires Enabled(settings, y, step) && step.BeginCapture?
    ensures var z := Next(settings, y, step);
            z.audio == y.audio && z.senders == y.senders && step.key in z.captures && z.captures[step.key] == Begun(y, step)
  {
  }

  lemma {:induction false} CaptureStays(settings: Bitrates.Settings, steps: seq<Step>, i: nat, key: int)
    requires Run(settings, steps).Some? && UnderWay(steps, i, key)
    ensures Run(settings, steps[..i]).Some?
    ensures key in Run(settings, steps).value.captures
    ensures Run(settings, steps).value.captures[key] == Begun(Run(settings, steps[..i]).value, steps[i])
    decreases |steps|
  {
    RunsPrefix(settings, steps, i);
    var before, last := steps[..|steps| - 1], steps[|steps| - 1];
    var y := Run(settings, before).value;
    if i == |steps| - 1 {
      BeginsCapture(settings, y, last);
    } else {
      assert before[..i] == steps[..i] && before[i] == steps[i];
      assert steps[i + 1..] == before[i + 1..] + [last];
      CaptureStays(settings, before, i, key);
      StepKeepsCapture(settings, y, last, key);
    }
  }

  /** What was sending when the format was read is kept. */
  lemma EarlierSendersAreKept(t: Transport, m: map<StreamId, Props>, content: seq<int>, rate: int, channels: int,
                              id: StreamId)
    requires Describes(t, m) && id in m
    ensures Keeps(Capture(Captured(t, content, rate, channels), rate, channels), m[id])
  {
    CapturedKeepsFormat(t, content, rate, channels);
  }

  /** While a frame is under way, it keeps the bandwidth and the channels of every
      stream that would be served now if and only if it keeps those of the streams that
      were announced after its format was read. */
  lemma CaptureKeepsBandwidthIff(settings: Bitrates.Settings, steps: seq<Step>, i: nat, key: int)
    requires Run(settings, steps).Some? && UnderWay(steps, i, key)
    ensures var y, late := Run(settings, steps).value, AnnouncedSince(settings, steps, i + 1);
            && key in y.captures
            && (SendersKept(y.captures[key], y.senders) <==> AllKept(y.captures[key], late))
  {
    var y, late := Run(settings, steps).value, AnnouncedSince(settings, steps, i + 1);
    CaptureStays(settings, steps, i, key);
    var was := Run(settings, steps[..i]).value.audio.sending;
    ExplainedSinceBegin(settings, steps, i, key);
    EarlierAreKept(settings, steps, i, key);
    KeptIff(y.captures[key], late, was, y.audio.sending);
    EveryRunIsConsistent(settings, steps);
    LinkedAreKept(y.captures[key], y.senders, y.audio.sending);
  }

  lemma ExplainedSinceBegin(settings: Bitrates.Settings, steps: seq<Step>, i: nat, key: int)
    requires Run(settings, steps).Some? && UnderWay(steps, i, key) && Run(settings, steps[..i]).Some?
    ensures Explained(AnnouncedSince(settings, steps, i + 1), Run(settings, steps[..i]).value.audio.sending,
                      Run(settings, steps).value.audio.sending)
  {
    SendersAreExplained(settings, steps, i + 1);
    assert steps[..i + 1][..i] == steps[..i];
    BeginsCapture(settings, Run(settings, steps[..i]).value, steps[i]);
  }

  lemma EarlierAreKept(settings: Bitrates.Settings, steps: seq<Step>, i: nat, key: int)
    requires Run(settings, steps).Some? && UnderWay(steps, i, key)
    ensures Run(settings, steps[..i]).Some? && key in Run(settings, steps).value.captures
    ensures var was := Run(settings, steps[..i]).value.audio.sending;
            AllKept(Run(settings, steps).value.captures[key], was)
  {
    CaptureStays(settings, steps, i, key);
    EveryRunIsConsistent(settings, steps[..i]);
    var a, b := Run(settings, steps[..i]).value.audio, steps[i];
    forall id | id in a.sending ensures Keeps(Run(settings, steps).value.captures[key], a.sending[id]) {
      EarlierSendersAreKept(a.transport, a.sending, b.content, b.inputRateHz, b.inputChannels, id);
    }
  }

  lemma KeptIff(c: Capture, late: map<StreamId, Props>, was: map<StreamId, Props>, now: map<StreamId, Props>)
    requires Explained(late, was, now) && AllKept(c, was)
    ensures AllKept(c, now) <==> AllKept(c, late)
  {
    if AllKept(c, late) {
      forall id | id in now ensures Keeps(c, now[id]) {
        assert id in late || (id in was && was[id] == now[id]);
      }
    }
    if AllKept(c, now) {
      forall id | id in late ensures Keeps(c, late[id]) {
        assert id in now && now[id] == late[id];
      }
    }
  }

  lemma LinkedAreKept(c: Capture, senders: map<StreamId, Sender>, sending: map<StreamId, Props>)
    requires SendersLinked(senders, sending)
    ensures AllKept(c, sending) <==> SendersKept(c, senders)
  {
    if AllKept(c, sending) {
      forall id | id in senders && senders[id].allocation.sending ensures Keeps(c, senders[id].props) {
        assert id in sending && sending[id] == senders[id].props;
      }
    }
    if SendersKept(c, senders) {
      forall id | id in sending ensures Keeps(c, sending[id]) {
        assert id in senders && senders[id].allocation.sending;
      }
    }
  }

  /** In particular nothing is lost when no stream is announced in between. */
  lemma UndisturbedCaptureKeepsBandwidth(settings: Bitrates.Settings, steps: seq<Step>, i: nat, key: int, id: StreamId)
    requires Run(settings, steps).Some? && UnderWay(steps, i, key)
    requires AnnouncedSince(settings, steps, i + 1) == map[] && Sends(Run(settings, steps).value, id)
    ensures var y := Run(settings, steps).value;
            && key in y.captures
            && (y.senders[id].codec.encoder.Some? ==>
                  Keeps(y.captures[key], PropsOf(y.senders[id].codec.encoder.value)))
  {
    CaptureKeepsBandwidthIff(settings, steps, i, key);
    EveryRunIsConsistent(settings, steps);
  }

  // ------------------------------------------------ capture: a run that loses bandwidth

  function FixedFactory(rate: int, channels: int): Codecs.Factory {
    (_, _) => Some(Codecs.SpeechInfo(rate, channels, None, None))
  }

  const PLAIN_CONFIG := NO_CONFIG.(
    spec := Some(Codecs.Spec(0, Codecs.Format("codec", 48000, 1, map[]), (false, false, false), None, None, None)))

  /** A sender of a plain config, before it is started. */
  lemma PlainSender(settings: Bitrates.Settings, rate: int, channels: int, rtp: nat)
    ensures var make := FixedFactory(rate, channels);
            && Accepted(make, settings, NEW_SENDER, true, PLAIN_CONFIG, rtp)
            && var s := Configured(make, settings, NEW_SENDER, true, PLAIN_CONFIG, rtp);
               && s.props == Props(rate, channels) && !s.allocation.sending
               && Possible(make, settings, s, Started)
  {
    var spec := PLAIN_CONFIG.spec.value;
    var info := Codecs.SpeechInfo(rate, channels, None, None);
    assert FixedFactory(rate, channels)(spec.payloadType, spec.format) == Some(info);
    assert Codecs.FreshEncoder(FixedFactory(rate, channels), spec) == Some(Codecs.Speech(0, spec.format, info));
    assert HeadersOf(PLAIN_CONFIG) == HeadersOf(NO_CONFIG) == Headers.NO_HEADERS;
  }

  /** A stream is created and started. */
  ghost function Joining(id: StreamId, rate: int, channels: int, rtp: nat, d: Device): seq<Step> {
    [CreateSender(id, FixedFactory(rate, channels), PLAIN_CONFIG, rtp), ActOn(id, Started, d)]
  }

  lemma JoiningWorks(settings: Bitrates.Settings, steps: seq<Step>, id: StreamId, rate: int, channels: int, rtp: nat,
                     d: Device)
    requires Run(settings, steps).Some? && id !in Run(settings, steps).value.senders
    ensures Run(settings, steps + Joining(id, rate, channels, rtp, d)).Some?
    ensures var y, z := Run(settings, steps).value, Run(settings, steps + Joining(id, rate, channels, rtp, d)).value;
            && z.audio.sending == y.audio.sending[id := Props(rate, channels)]
            && Sends(z, id) && z.senders[id].props == Props(rate, channels)
            && z.senders.Keys == y.senders.Keys + {id} && z.captures == y.captures
  {
    var create, start := CreateSender(id, FixedFactory(rate, channels), PLAIN_CONFIG, rtp), ActOn(id, Started, d);
    CreatesPlain(settings, Run(settings, steps).value, id, rate, channels, rtp);
    RunSnoc(settings, steps, create);
    StartsPlain(settings, Run(settings, steps + [create]).value, id, FixedFactory(rate, channels), d);
    RunSnoc(settings, steps + [create], start);
    assert steps + [create] + [start] == steps + Joining(id, rate, channels, rtp, d);
  }

  lemma CreatesPlain(settings: Bitrates.Settings, y: System, id: StreamId, rate: int, channels: int, rtp: nat)
    requires id !in y.senders
    ensures Enabled(settings, y, CreateSender(id, FixedFactory(rate, channels), PLAIN_CONFIG, rtp))
    ensures var make := FixedFactory(rate, channels);
            var z := Next(settings, y, CreateSender(id, make, PLAIN_CONFIG, rtp));
            && z.audio == y.audio && z.captures == y.captures && z.senders.Keys == y.senders.Keys + {id}
            && id in z.factories && z.factories[id] == make && z.senders[id].props == Props(rate, channels)
            && !z.senders[id].allocation.sending && Possible(make, settings, z.senders[id], Started)
  {
    PlainSender(settings, rate, channels, rtp);
  }

  lemma StartsPlain(settings: Bitrates.Settings, y: System, id: StreamId, make: Codecs.Factory, d: Device)
    requires id in y.senders && id in y.factories && y.factories[id] == make
    requires !y.senders[id].allocation.sending && Possible(make, settings, y.senders[id], Started)
    ensures Enabled(settings, y, ActOn(id, Started, d))
    ensures var z := Next(settings, y, ActOn(id, Started, d));
            && z.audio.sending == y.audio.sending[id := y.senders[id].props] && z.captures == y.captures
            && Sends(z, id) && z.senders[id].props == y.senders[id].props && z.senders.Keys == y.senders.Keys
  {
  }

  /** A narrow-band stream sends; a frame of wide-band stereo input is begun; a
      wide-band stereo stream joins before the frame is finished: it is handed 8 kHz
      mono although input and encoder have 48 kHz stereo. */
  lemma LateSenderLosesBandwidth(settings: Bitrates.Settings, content: seq<int>, rtp: nat, d: Device)
    ensures var before := Joining(1, 8000, 1, rtp, d) + [BeginCapture(0, content, 48000, 2)];
            var steps := before + Joining(2, 48000, 2, rtp, d);
            var z := Run(settings, steps + [FinishCapture(0)]);
            && z.Some? && Sends(z.value, 2)
            && z.value.senders[2].props == Props(48000, 2)
            && multiset(z.value.deliveries)[Delivery(2, AudioFrame(8000, 1, content))] == 1
  {
    var before := Joining(1, 8000, 1, rtp, d) + [BeginCapture(0, content, 48000, 2)];
    NarrowCaptureBegins(settings, content, rtp, d);
    NarrowFinishesNothing(content, rtp, d);
    LateJoin(settings, before, rtp, d, AudioFrame(8000, 1, content));
  }

  ghost predicate NoneFinished(steps: seq<Step>) { forall i | 0 <= i < |steps| :: !steps[i].FinishCapture? }

  /** A stream joins while capture 0 is under way, and the capture is finished. */
  lemma LateJoin(settings: Bitrates.Settings, before: seq<Step>, rtp: nat, d: Device, f: AudioFrame)
    requires Run(settings, before).Some? && NoneFinished(before) && 2 !in Run(settings, before).value.senders
    requires var y := Run(settings, before).value; 0 in y.captures && y.captures[0].frame == f
    ensures var z := Run(settings, before + Joining(2, 48000, 2, rtp, d) + [FinishCapture(0)]);
            && z.Some? && Sends(z.value, 2) && z.value.senders[2].props == Props(48000, 2)
            && multiset(z.value.deliveries)[Delivery(2, f)] == 1
  {
    var steps := before + Joining(2, 48000, 2, rtp, d);
    JoiningWorks(settings, before, 2, 48000, 2, rtp, d);
    JoiningFinishesNothing(before, rtp, d);
    FinishesCapture(settings, steps, 0, 2, f);
  }

  lemma JoiningFinishesNothing(before: seq<Step>, rtp: nat, d: Device)
    requires NoneFinished(before)
    ensures NoneFinished(before + Joining(2, 48000, 2, rtp, d))
  {
  }

  lemma NarrowCaptureBegins(settings: Bitrates.Settings, content: seq<int>, rtp: nat, d: Device)
    ensures var y := Run(settings, Joining(1, 8000, 1, rtp, d) + [BeginCapture(0, content, 48000, 2)]);
            && y.Some? && y.value.senders.Keys == {1}
            && 0 in y.value.captures && y.value.captures[0].frame == AudioFrame(8000, 1, content)
  {
    var narrow := Joining(1, 8000, 1, rtp, d);
    assert [] + narrow == narrow;
    JoiningWorks(settings, [], 1, 8000, 1, rtp, d);
    assert map[][1 := Props(8000, 1)] == map[1 := Props(8000, 1)];
    BeginsNarrow(settings, narrow, content);
  }

  lemma BeginsNarrow(settings: Bitrates.Settings, steps: seq<Step>, content: seq<int>)
    requires Run(settings, steps).Some? && Run(settings, steps).value.audio.sending == map[1 := Props(8000, 1)]
    requires 0 !in Run(settings, steps).value.captures
    ensures var y, z := Run(settings, steps).value, Run(settings, steps + [BeginCapture(0, content, 48000, 2)]);
            && z.Some? && z.value.senders == y.senders
            && 0 in z.value.captures && z.value.captures[0].frame == AudioFrame(8000, 1, content)
  {
    var y, begin := Run(settings, steps).value, BeginCapture(0, content, 48000, 2);
    EveryRunIsConsistent(settings, steps);
    NarrowFrame(y.audio.transport, content);
    RunSnoc(settings, steps, begin);
    BeginsCapture(settings, y, begin);
  }

  lemma NarrowFinishesNothing(content: seq<int>, rtp: nat, d: Device)
    ensures NoneFinished(Joining(1, 8000, 1, rtp, d) + [BeginCapture(0, content, 48000, 2)])
  {
  }

  lemma FinishesCapture(settings: Bitrates.Settings, steps: seq<Step>, key: int, id: StreamId, f: AudioFrame)
    requires Run(settings, steps).Some? && NoneFinished(steps)
    requires var y := Run(settings, steps).value; key in y.captures && y.captures[key].frame == f && Sends(y, id)
    ensures var y, z := Run(settings, steps).value, Run(settings, steps + [FinishCapture(key)]);
            z.Some? && z.value.senders == y.senders && multiset(z.value.deliveries)[Delivery(id, f)] == 1
  {
    RunSnoc(settings, steps, FinishCapture(key));
    NothingDelivered(settings, steps);
    CaptureReachesEverySender(settings, steps, key, Delivery(id, f));
  }

  lemma NarrowFrame(t: Transport, content: seq<int>)
    requires Describes(t, map[1 := Props(8000, 1)])
    ensures Captured(t, content, 48000, 2) == AudioFrame(8000, 1, content)
  {
    assert t.sampleRateHz == 8000 && t.numChannels == 1;
    ChosenRateIsLeast(8000, NATIVE_SAMPLE_RATES);
    assert NATIVE_SAMPLE_RATES[0] == 8000;
  }

  lemma {:induction false} NothingDelivered(settings: Bitrates.Settings, steps: seq<Step>)
    requires Run(settings, steps).Some? && NoneFinished(steps)
    ensures Run(settings, steps).value.deliveries == []
    decreases |steps|
  {
    if steps != [] {
      NothingDelivered(settings, steps[..|steps| - 1]);
    }
  }
}
