/** audio/audio_state.cc: which streams send and receive, what the transport is
    told about the senders, and who drives playout, the audio device or the null
    poller. */
module AudioState {
  import opened Common
  import opened AudioTransport

  datatype Props = Props(sampleRateHz: int, numChannels: int)

  /** The state that the rest is derived from.  The audio device is started and
      stopped by this object only; starting may fail, stopping does not. */
  datatype State = State(
    sending: map<StreamId, Props>, receiving: set<StreamId>,
    playoutEnabled: bool, recordingEnabled: bool, playing: bool, recording: bool, transport: Transport)

  const INITIAL := State(map[], {}, true, true, false, false, Transport([], 8000, 1))

  /** The audio device's answers to Init and Start. */
  datatype Device = Device(initOk: bool, startOk: bool)

  // ------------------------------------------------ what the transport is told

  ghost predicate Distinct(s: seq<StreamId>) {
    forall i, j | 0 <= i < j < |s| :: s[i] != s[j]
  }

  /** `r` is the largest of `base` and the sample rates in `m`. */
  ghost predicate IsMaxRate(m: map<StreamId, Props>, base: int, r: int) {
    && r >= base && (forall k | k in m :: r >= m[k].sampleRateHz)
    && (r == base || exists k :: k in m && m[k].sampleRateHz == r)
  }

  ghost predicate IsMaxChannels(m: map<StreamId, Props>, base: int, c: int) {
    && c >= base && (forall k | k in m :: c >= m[k].numChannels)
    && (c == base || exists k :: k in m && m[k].numChannels == c)
  }

  /** The transport knows exactly the sending streams, each once, and the highest
      rate and channel count among them, at least 8000 Hz and one channel. */
  ghost predicate Describes(t: Transport, m: map<StreamId, Props>) {
    && Distinct(t.senders) && (forall k :: k in t.senders <==> k in m)
    && IsMaxRate(m, 8000, t.sampleRateHz) && IsMaxChannels(m, 1, t.numChannels)
  }

  lemma {:induction false} HasLeast(keys: set<StreamId>)
    requires keys != {}
    ensures exists k :: IsLeast(keys, k)
    decreases keys
  {
    HasMember(keys);
    var x :| x in keys;
    if keys == {x} {
      assert IsLeast(keys, x);
    } else {
      var rest := keys - {x};
      HasLeast(rest);
      var y :| IsLeast(rest, y);
      var least := if x <= y then x else y;
      forall j | j in keys ensures least <= j {
        assert j == x || j in rest;
      }
      assert IsLeast(keys, least);
    }
  }

  ghost predicate IsLeast(keys: set<StreamId>, k: StreamId) { k in keys && forall j | j in keys :: k <= j }

  /** The keys of a std::map of pointers, as it iterates: by address. */
  ghost function Listed(keys: set<StreamId>): (ids: seq<StreamId>)
    ensures forall i | 0 <= i < |ids| :: ids[i] in keys
    decreases keys
  {
    if keys == {} then []
    else
      HasLeast(keys);
      var k :| IsLeast(keys, k);
      [k] + Listed(keys - {k})
  }

  lemma ListedFromLeast(keys: set<StreamId>, k: StreamId)
    requires IsLeast(keys, k)
    ensures Listed(keys) == [k] + Listed(keys - {k})
  {
  }

  lemma {:induction false} ListedOnce(keys: set<StreamId>)
    ensures Distinct(Listed(keys)) && forall k :: k in Listed(keys) <==> k in keys
    decreases keys
  {
    if keys != {} {
      HasLeast(keys);
      var k :| IsLeast(keys, k);
      ListedFromLeast(keys, k);
      ListedOnce(keys - {k});
    }
  }

  ghost function MaxRate(m: map<StreamId, Props>, ids: seq<StreamId>): int
    requires forall i | 0 <= i < |ids| :: ids[i] in m
    decreases |ids|
  {
    if ids == [] then 8000
    else
      Max(MaxRate(m, ids[..|ids| - 1]), m[ids[|ids| - 1]].sampleRateHz)
  }

  ghost function MaxChannels(m: map<StreamId, Props>, ids: seq<StreamId>): int
    requires forall i | 0 <= i < |ids| :: ids[i] in m
    decreases |ids|
  {
    if ids == [] then 1
    else
      Max(MaxChannels(m, ids[..|ids| - 1]), m[ids[|ids| - 1]].numChannels)
  }

  /** What the transport is told when these streams send. */
  ghost function Transported(m: map<StreamId, Props>): Transport {
    var ids := Listed(m.Keys);
    Transport(ids, MaxRate(m, ids), MaxChannels(m, ids))
  }

  lemma {:induction false} MaximaOf(m: map<StreamId, Props>, ids: seq<StreamId>)
    requires forall i | 0 <= i < |ids| :: ids[i] in m
    ensures MaxRate(m, ids) >= 8000 && (forall k | k in ids :: MaxRate(m, ids) >= m[k].sampleRateHz)
    ensures MaxRate(m, ids) == 8000 || exists k :: k in ids && m[k].sampleRateHz == MaxRate(m, ids)
    ensures MaxChannels(m, ids) >= 1 && (forall k | k in ids :: MaxChannels(m, ids) >= m[k].numChannels)
    ensures MaxChannels(m, ids) == 1 || exists k :: k in ids && m[k].numChannels == MaxChannels(m, ids)
    decreases |ids|
  {
    if ids != [] {
      var before, last := ids[..|ids| - 1], ids[|ids| - 1];
      assert ids == before + [last];
      MaximaOf(m, before);
      assert last in ids;
    }
  }

  lemma TransportedDescribes(m: map<StreamId, Props>)
    ensures Describes(Transported(m), m)
  {
    ListedOnce(m.Keys);
    MaximaOf(m, Listed(m.Keys));
  }

  lemma MoveOver(done: seq<StreamId>, id: StreamId, rest: seq<StreamId>)
    ensures done + ([id] + rest) == (done + [id]) + rest && (done + [id])[..|done|] == done
  {
  }

  /** The loop over the sending streams, in the order of the map. */
  method Summarize(m: map<StreamId, Props>) returns (senders: seq<StreamId>, maxRate: int, maxChannels: int)
    ensures Transport(senders, maxRate, maxChannels) == Transported(m)
  {
    senders, maxRate, maxChannels := [], 8000, 1;
    var todo := m.Keys;
    while todo != {}
      invariant todo <= m.Keys && forall i | 0 <= i < |senders| :: senders[i] in m
      invariant Listed(m.Keys) == senders + Listed(todo)
      invariant maxRate == MaxRate(m, senders) && maxChannels == MaxChannels(m, senders)
      decreases todo
    {
      HasLeast(todo);
      var id :| id in todo && forall k | k in todo :: id <= k;
      ListedFromLeast(todo, id);
      MoveOver(senders, id, Listed(todo - {id}));
      senders := senders + [id];
      maxRate := Max(maxRate, m[id].sampleRateHz);
      maxChannels := Max(maxChannels, m[id].numChannels);
      todo := todo - {id};
    }
    assert senders + [] == senders;
  }

  // ------------------------------------------------ the methods, on values

  ghost function AddSending(s: State, id: StreamId, p: Props, d: Device): State {
    s.(sending := s.sending[id := p], transport := Transported(s.sending[id := p]),
       recording := s.recording || (d.initOk && s.recordingEnabled && d.startOk))
  }

  ghost function RemoveSending(s: State, id: StreamId): State {
    var rest := s.sending - {id};
    s.(sending := rest, transport := Transported(rest), recording := s.recording && rest != map[])
  }

  ghost function AddReceiving(s: State, id: StreamId, d: Device): State {
    s.(receiving := s.receiving + {id},
       playing := s.playing || (d.initOk && s.playoutEnabled && d.startOk))
  }

  ghost function RemoveReceiving(s: State, id: StreamId): State {
    var rest := s.receiving - {id};
    s.(receiving := rest, playing := s.playing && rest != {})
  }

  ghost function PlayoutSet(s: State, enabled: bool, startOk: bool): State {
    if s.playoutEnabled == enabled then s
    else s.(playoutEnabled := enabled, playing := enabled && (s.playing || (s.receiving != {} && startOk)))
  }

  ghost function RecordingSet(s: State, enabled: bool, startOk: bool): State {
    if s.recordingEnabled == enabled then s
    else s.(recordingEnabled := enabled, recording := enabled && (s.recording || (s.sending != map[] && startOk)))
  }

  /** The device runs only for an enabled direction that has a stream. */
  ghost predicate Justified(s: State) {
    && (s.playing ==> s.playoutEnabled && s.receiving != {})
    && (s.recording ==> s.recordingEnabled && s.sending != map[])
  }

  lemma MethodsKeepJustified(s: State, id: StreamId, p: Props, d: Device, enabled: bool)
    requires Justified(s)
    ensures Justified(AddSending(s, id, p, d)) && Justified(RemoveSending(s, id))
    ensures Justified(AddReceiving(s, id, d)) && Justified(RemoveReceiving(s, id))
    ensures Justified(PlayoutSet(s, enabled, d.startOk)) && Justified(RecordingSet(s, enabled, d.startOk))
  {
    assert id in s.sending[id := p];
    assert id in s.receiving + {id};
  }

  // ------------------------------------------------ playout drivers

  /** The audio device's playout side and the null poller, with everything that
      was ever observable of the two. */
  class Playout {
    var pollerRunning: bool
    var devicePlaying: bool
    ghost var history: seq<(bool, bool)>

    /** At no recorded moment were both active. */
    ghost predicate NeverBoth()
      reads this
    {
      forall i | 0 <= i < |history| :: !(history[i].0 && history[i].1)
    }

    constructor ()
      ensures !pollerRunning && !devicePlaying && history == [(false, false)]
    {
      pollerRunning, devicePlaying, history := false, false, [(false, false)];
    }

    method SetPoller(running: bool)
      modifies this
      ensures pollerRunning == running && devicePlaying == old(devicePlaying)
      ensures history == old(history) + [(running, devicePlaying)]
    {
      pollerRunning := running;
      history := history + [(pollerRunning, devicePlaying)];
    }

    method StartPlayout(ok: bool)
      modifies this
      ensures pollerRunning == old(pollerRunning) && devicePlaying == (old(devicePlaying) || ok)
      ensures history == old(history) + [(pollerRunning, devicePlaying)]
    {
      devicePlaying := devicePlaying || ok;
      history := history + [(pollerRunning, devicePlaying)];
    }

    method StopPlayout()
      modifies this
      ensures pollerRunning == old(pollerRunning) && !devicePlaying
      ensures history == old(history) + [(pollerRunning, false)]
    {
      devicePlaying := false;
      history := history + [(pollerRunning, devicePlaying)];
    }
  }

  // ------------------------------------------------ the object

  class AudioStateImpl {
    var sendingStreams: map<StreamId, Props>
    var receivingStreams: set<StreamId>
    var playoutEnabled: bool
    var recordingEnabled: bool
    var deviceRecording: bool
    const playout: Playout
    const transport: AudioTransportImpl

    ghost function View(): State
      reads this, playout, transport
    {
      State(sendingStreams, receivingStreams, playoutEnabled, recordingEnabled, playout.devicePlaying, deviceRecording,
            transport.View())
    }

    /** The poller runs iff there are receiving streams and playout is disabled; the
        device and the poller were never active together; the transport matches. */
    ghost predicate Valid()
      reads this, playout, transport
    {
      && (playout.pollerRunning <==> receivingStreams != {} && !playoutEnabled)
      && playout.NeverBoth()
      && Justified(View())
      && Describes(transport.View(), sendingStreams)
    }

    constructor ()
      ensures Valid() && View() == INITIAL && fresh(playout) && fresh(transport)
    {
      sendingStreams, receivingStreams := map[], {};
      playoutEnabled, recordingEnabled, deviceRecording := true, true, false;
      playout := new Playout();
      transport := new AudioTransportImpl();
    }

    /** UpdateAudioTransportWithSendingStreams. */
    method UpdateTransport()
      modifies transport
      ensures transport.View() == Transported(sendingStreams) && Describes(transport.View(), sendingStreams)
      ensures transport.deliveries == old(transport.deliveries)
    {
      var senders, maxRate, maxChannels := Summarize(sendingStreams);
      TransportedDescribes(sendingStreams);
      transport.UpdateAudioSenders(senders, maxRate, maxChannels);
    }

    method UpdateNullAudioPollerState()
      modifies playout
      ensures playout.pollerRunning == (receivingStreams != {} && !playoutEnabled)
      ensures playout.devicePlaying == old(playout.devicePlaying)
      ensures old(playout.NeverBoth()) && !(playout.pollerRunning && playout.devicePlaying) ==> playout.NeverBoth()
    {
      if receivingStreams != {} && !playoutEnabled {
        if !playout.pollerRunning {
          playout.SetPoller(true);
        }
      } else {
        playout.SetPoller(false);
      }
    }

    method AddReceivingStream(id: StreamId, d: Device)
      requires Valid() && id !in receivingStreams
      modifies this, playout
      ensures Valid() && View() == AddReceiving(old(View()), id, d)
    {
      receivingStreams := receivingStreams + {id};
      assert id in receivingStreams;
      UpdateNullAudioPollerState();
      if !playout.devicePlaying {
        if d.initOk {
          if playoutEnabled {
            playout.StartPlayout(d.startOk);
          }
        }
      }
    }

    method RemoveReceivingStream(id: StreamId)
      requires Valid() && id in receivingStreams
      modifies this, playout
      ensures Valid() && View() == RemoveReceiving(old(View()), id)
    {
      receivingStreams := receivingStreams - {id};
      UpdateNullAudioPollerState();
      if receivingStreams == {} {
        playout.StopPlayout();
      }
    }

    method AddSendingStream(id: StreamId, p: Props, d: Device)
      requires Valid()
      modifies this, transport
      ensures Valid() && View() == AddSending(old(View()), id, p, d)
      ensures transport.deliveries == old(transport.deliveries)
    {
      sendingStreams := sendingStreams[id := p];
      assert id in sendingStreams;
      UpdateTransport();
      if !deviceRecording {
        if d.initOk {
          if recordingEnabled {
            deviceRecording := d.startOk;
          }
        }
      }
    }

    method RemoveSendingStream(id: StreamId)
      requires Valid() && id in sendingStreams
      modifies this, transport
      ensures Valid() && View() == RemoveSending(old(View()), id)
      ensures transport.deliveries == old(transport.deliveries)
    {
      sendingStreams := sendingStreams - {id};
      UpdateTransport();
      if sendingStreams == map[] {
        deviceRecording := false;
      }
    }

    method SetPlayout(enabled: bool, startOk: bool)
      requires Valid()
      modifies this, playout
      ensures Valid() && View() == PlayoutSet(old(View()), enabled, startOk)
    {
      if playoutEnabled != enabled {
        playoutEnabled := enabled;
        if enabled {
          UpdateNullAudioPollerState();
          if receivingStreams != {} {
            playout.StartPlayout(startOk);
          }
        } else {
          playout.StopPlayout();
          UpdateNullAudioPollerState();
        }
      }
    }

    method SetRecording(enabled: bool, startOk: bool)
      requires Valid()
      modifies this
      ensures Valid() && View() == RecordingSet(old(View()), enabled, startOk)
    {
      if recordingEnabled != enabled {
        recordingEnabled := enabled;
        if enabled {
          if sendingStreams != map[] {
            deviceRecording := deviceRecording || startOk;
          }
        } else {
          deviceRecording := false;
        }
      }
    }
  }

  // ------------------------------------------------ receive streams

  class AudioReceiveStreamImpl {
    const self: StreamId
    const audioState: AudioStateImpl
    var playing: bool

    ghost predicate Valid()
      reads this, audioState, audioState.playout, audioState.transport
    {
      audioState.Valid() && (playing <==> self in audioState.receivingStreams)
    }

    constructor (self: StreamId, audioState: AudioStateImpl)
      requires audioState.Valid() && self !in audioState.receivingStreams
      ensures Valid() && !playing && this.audioState == audioState && this.self == self
    {
      this.self, this.audioState, playing := self, audioState, false;
    }

    method Start(d: Device)
      requires Valid()
      modifies this, audioState, audioState.playout
      ensures Valid() && playing
      ensures audioState.View() == if old(playing) then old(audioState.View()) else AddReceiving(old(audioState.View()), self, d)
    {
      if playing {
        return;
      }
      playing := true;
      audioState.AddReceivingStream(self, d);
    }

    method Stop()
      requires Valid()
      modifies this, audioState, audioState.playout
      ensures Valid() && !playing
      ensures audioState.View() == if old(playing) then RemoveReceiving(old(audioState.View()), self) else old(audioState.View())
    {
      if !playing {
        return;
      }
      playing := false;
      audioState.RemoveReceivingStream(self);
    }
  }
}
