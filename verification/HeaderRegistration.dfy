/** The RTP header extensions that AudioSendStream::ConfigureStream registers with
    the RTP module (audio/audio_send_stream.cc), over the registry's own rules
    (modules/rtp_rtcp/source/rtp_header_extension_map.cc).

    A registration that the registry refuses aborts the process, because the RTP
    module checks the result. */
module HeaderRegistration {
  import opened Common
  import opened RtpExtensions

  const AUDIO_LEVEL := "urn:ietf:params:rtp-hdrext:ssrc-audio-level"
  const ABS_SEND_TIME := "http://www.webrtc.org/experiments/rtp-hdrext/abs-send-time"
  const ABS_CAPTURE_TIME := "http://www.webrtc.org/experiments/rtp-hdrext/abs-capture-time"
  const TRANSPORT_SEQUENCE_NUMBER := "http://www.ietf.org/id/draft-holmer-rmcat-transport-wide-cc-extensions-01"
  const MID := "urn:ietf:params:rtp-hdrext:sdes:mid"
  const RID := "urn:ietf:params:rtp-hdrext:sdes:rtp-stream-id"
  const REPAIRED_RID := "urn:ietf:params:rtp-hdrext:sdes:repaired-rtp-stream-id"

  // ------------------------------------------------ the ids of a config

  /** Zero means not configured. */
  datatype ExtensionIds = ExtensionIds(
    audioLevel: int, absSendTime: int, absCaptureTime: int, transportSequenceNumber: int,
    mid: int, rid: int, repairedRid: int)

  /** The id of the last entry with that uri. */
  ghost function IdOf(s: seq<Extension>, uri: string): int
    decreases |s|
  {
    if s == [] then 0 else if s[|s| - 1].uri == uri then s[|s| - 1].id else IdOf(s[..|s| - 1], uri)
  }

  ghost function IdsOf(s: seq<Extension>): ExtensionIds {
    ExtensionIds(IdOf(s, AUDIO_LEVEL), IdOf(s, ABS_SEND_TIME), IdOf(s, ABS_CAPTURE_TIME),
                 IdOf(s, TRANSPORT_SEQUENCE_NUMBER), IdOf(s, MID), IdOf(s, RID), IdOf(s, REPAIRED_RID))
  }

  /** `id` is that of the last entry with the uri; 0 when there is none. */
  ghost predicate LastIs(s: seq<Extension>, uri: string, id: int) {
    || (exists i :: 0 <= i < |s| && s[i].uri == uri && s[i].id == id && forall j | i < j < |s| :: s[j].uri != uri)
    || (id == 0 && forall j | 0 <= j < |s| :: s[j].uri != uri)
  }

  lemma {:induction false} IdOfIsLast(s: seq<Extension>, uri: string)
    ensures LastIs(s, uri, IdOf(s, uri))
    decreases |s|
  {
    if s != [] {
      var before, n := s[..|s| - 1], |s| - 1;
      IdOfIsLast(before, uri);
      if s[n].uri == uri {
        assert s[n].id == IdOf(s, uri);
      } else if i :| 0 <= i < n && before[i].uri == uri && before[i].id == IdOf(s, uri)
                     && forall j | i < j < n :: before[j].uri != uri {
        assert s[i].uri == uri && s[i].id == IdOf(s, uri);
        assert forall j | i < j < |s| :: s[j].uri != uri;
      }
    }
  }

  lemma LastIsUnique(s: seq<Extension>, uri: string, a: int, b: int)
    requires LastIs(s, uri, a)
    ensures LastIs(s, uri, b) <==> a == b
  {
    if LastIs(s, uri, b) {
      if i :| 0 <= i < |s| && s[i].uri == uri && s[i].id == a && forall j | i < j < |s| :: s[j].uri != uri {
        if k :| 0 <= k < |s| && s[k].uri == uri && s[k].id == b && forall j | k < j < |s| :: s[j].uri != uri {
          assert i == k;
        }
      }
    }
  }

  /** Each id, by the entries of the list. */
  ghost predicate NamedBy(ids: ExtensionIds, s: seq<Extension>) {
    && LastIs(s, AUDIO_LEVEL, ids.audioLevel) && LastIs(s, ABS_SEND_TIME, ids.absSendTime)
    && LastIs(s, ABS_CAPTURE_TIME, ids.absCaptureTime)
    && LastIs(s, TRANSPORT_SEQUENCE_NUMBER, ids.transportSequenceNumber)
    && LastIs(s, MID, ids.mid) && LastIs(s, RID, ids.rid) && LastIs(s, REPAIRED_RID, ids.repairedRid)
  }

  lemma IdsAreNamed(s: seq<Extension>)
    ensures NamedBy(IdsOf(s), s)
  {
    IdOfIsLast(s, AUDIO_LEVEL);
    IdOfIsLast(s, ABS_SEND_TIME);
    IdOfIsLast(s, ABS_CAPTURE_TIME);
    IdOfIsLast(s, TRANSPORT_SEQUENCE_NUMBER);
    IdOfIsLast(s, MID);
    IdOfIsLast(s, RID);
    IdOfIsLast(s, REPAIRED_RID);
  }

  method FindExtensionIds(s: seq<Extension>) returns (ids: ExtensionIds)
    ensures ids == IdsOf(s)
    ensures LastIs(s, AUDIO_LEVEL, ids.audioLevel) && LastIs(s, ABS_SEND_TIME, ids.absSendTime)
    ensures LastIs(s, ABS_CAPTURE_TIME, ids.absCaptureTime)
    ensures LastIs(s, TRANSPORT_SEQUENCE_NUMBER, ids.transportSequenceNumber)
    ensures LastIs(s, MID, ids.mid) && LastIs(s, RID, ids.rid) && LastIs(s, REPAIRED_RID, ids.repairedRid)
  {
    ids := ExtensionIds(0, 0, 0, 0, 0, 0, 0);
    for i := 0 to |s|
      invariant ids == IdsOf(s[..i])
    {
      assert s[..i + 1][..i] == s[..i];
      var uri, id := s[i].uri, s[i].id;
      if uri == AUDIO_LEVEL {
        ids := ids.(audioLevel := id);
      } else if uri == ABS_SEND_TIME {
        ids := ids.(absSendTime := id);
      } else if uri == TRANSPORT_SEQUENCE_NUMBER {
        ids := ids.(transportSequenceNumber := id);
      } else if uri == MID {
        ids := ids.(mid := id);
      } else if uri == RID {
        ids := ids.(rid := id);
      } else if uri == REPAIRED_RID {
        ids := ids.(repairedRid := id);
      } else if uri == ABS_CAPTURE_TIME {
        ids := ids.(absCaptureTime := id);
      }
    }
    assert s[..|s|] == s;
    IdsAreNamed(s);
  }

  // ------------------------------------------------ the registry

  /** One field per uri this stream registers; zero is kInvalidId. */
  datatype Registry = Registry(audioLevel: int, absSendTime: int, absCaptureTime: int, transportSequenceNumber: int, mid: int)

  const EMPTY_REGISTRY := Registry(0, 0, 0, 0, 0)

  datatype Uri = AudioLevel | AbsSendTime | AbsCaptureTime | TransportSequenceNumber | Mid

  function Get(m: Registry, u: Uri): int {
    match u
    case AudioLevel => m.audioLevel
    case AbsSendTime => m.absSendTime
    case AbsCaptureTime => m.absCaptureTime
    case TransportSequenceNumber => m.transportSequenceNumber
    case Mid => m.mid
  }

  function Put(m: Registry, u: Uri, id: int): Registry {
    match u
    case AudioLevel => m.(audioLevel := id)
    case AbsSendTime => m.(absSendTime := id)
    case AbsCaptureTime => m.(absCaptureTime := id)
    case TransportSequenceNumber => m.(transportSequenceNumber := id)
    case Mid => m.(mid := id)
  }

  predicate UsedByOther(m: Registry, u: Uri, id: int) {
    || (u != AudioLevel && m.audioLevel == id)
    || (u != AbsSendTime && m.absSendTime == id)
    || (u != AbsCaptureTime && m.absCaptureTime == id)
    || (u != TransportSequenceNumber && m.transportSequenceNumber == id)
    || (u != Mid && m.mid == id)
  }

  /** Accepted: a valid id that no other uri uses, for a uri that has none or this
      very one. */
  predicate Accepts(m: Registry, u: Uri, id: int) {
    1 <= id <= 255 && !UsedByOther(m, u, id) && (Get(m, u) == 0 || Get(m, u) == id)
  }

  /** RegisterRtpHeaderExtension; None when the process aborts. */
  function Register(m: Registry, u: Uri, id: int): Option<Registry> {
    if Accepts(m, u, id) then Some(Put(m, u, id)) else None
  }

  function Deregister(m: Registry, u: Uri): Registry { Put(m, u, 0) }

  // ------------------------------------------------ one configuration

  /** What the header extensions of a config amount to. */
  datatype Headers = Headers(ids: ExtensionIds, midValue: string)

  const NO_HEADERS := Headers(ExtensionIds(0, 0, 0, 0, 0, 0, 0), "")

  /** Deregister and, if there is an id, register again. */
  function Replace(m: Registry, u: Uri, id: int): Option<Registry> {
    var d := Deregister(m, u);
    if id != 0 then Register(d, u, id) else Some(d)
  }

  /** SetSendAudioLevelIndicationStatus: registers without deregistering first. */
  function SetAudioLevel(m: Registry, id: int): Option<Registry> {
    if id != 0 then Register(m, AudioLevel, id) else Some(Deregister(m, AudioLevel))
  }

  function AfterAudioLevel(m: Registry, first: bool, a: Headers, b: Headers): Option<Registry> {
    if first || b.ids.audioLevel != a.ids.audioLevel then SetAudioLevel(m, b.ids.audioLevel) else Some(m)
  }

  function AfterAbsSendTime(m: Registry, first: bool, a: Headers, b: Headers): Option<Registry> {
    if first || b.ids.absSendTime != a.ids.absSendTime then Replace(m, AbsSendTime, b.ids.absSendTime) else Some(m)
  }

  /** Never deregistered; not registered at all when audio is allocated without feedback. */
  function AfterTransportSequence(m: Registry, first: bool, noFeedback: bool, a: Headers, b: Headers): Option<Registry> {
    var id := b.ids.transportSequenceNumber;
    if (first || (id != a.ids.transportSequenceNumber && !noFeedback)) && !noFeedback && id != 0
    then Register(m, TransportSequenceNumber, id) else Some(m)
  }

  /** Never deregistered either. */
  function AfterMid(m: Registry, first: bool, a: Headers, b: Headers): Option<Registry> {
    if (first || b.ids.mid != a.ids.mid || b.midValue != a.midValue) && b.ids.mid != 0 && b.midValue != ""
    then Register(m, Mid, b.ids.mid) else Some(m)
  }

  function AfterAbsCaptureTime(m: Registry, first: bool, a: Headers, b: Headers): Option<Registry> {
    if first || b.ids.absCaptureTime != a.ids.absCaptureTime
    then Replace(m, AbsCaptureTime, b.ids.absCaptureTime) else Some(m)
  }

  /** ConfigureStream's registrations, in order, from headers `a` to headers `b`. */
  function Configure(m: Registry, first: bool, noFeedback: bool, a: Headers, b: Headers): Option<Registry> {
    var m1 := AfterAudioLevel(m, first, a, b);
    if m1.None? then None else
    var m2 := AfterAbsSendTime(m1.value, first, a, b);
    if m2.None? then None else
    var m3 := AfterTransportSequence(m2.value, first, noFeedback, a, b);
    if m3.None? then None else
    var m4 := AfterMid(m3.value, first, a, b);
    if m4.None? then None else AfterAbsCaptureTime(m4.value, first, a, b)
  }

  predicate HasMid(h: Headers) { h.ids.mid != 0 && h.midValue != "" }

  /** The registry holds these ids for the extensions that are deregistered. */
  predicate Matches(m: Registry, ids: ExtensionIds) {
    m.audioLevel == ids.audioLevel && m.absSendTime == ids.absSendTime && m.absCaptureTime == ids.absCaptureTime
  }

  /** Configuring brings them up to date, whatever they were before the first time. */
  lemma ConfigureMatches(m: Registry, first: bool, noFeedback: bool, a: Headers, b: Headers)
    requires (first || Matches(m, a.ids)) && Configure(m, first, noFeedback, a, b).Some?
    ensures Matches(Configure(m, first, noFeedback, a, b).value, b.ids)
  {
  }

  // ------------------------------------------------ sequences of configurations

  function Current(hs: seq<Headers>): Headers { if hs == [] then NO_HEADERS else hs[|hs| - 1] }

  function Apply(noFeedback: bool, hs: seq<Headers>): Option<Registry>
    decreases |hs|
  {
    if hs == [] then Some(EMPTY_REGISTRY)
    else
      var m := Apply(noFeedback, hs[..|hs| - 1]);
      if m.None? then None
      else Configure(m.value, |hs| == 1, noFeedback, Current(hs[..|hs| - 1]), hs[|hs| - 1])
  }

  /** The id of the latest configuration that had one, 0 if none had. */
  ghost function LatestTransportId(hs: seq<Headers>): int
    decreases |hs|
  {
    if hs == [] then 0
    else if hs[|hs| - 1].ids.transportSequenceNumber != 0 then hs[|hs| - 1].ids.transportSequenceNumber
    else LatestTransportId(hs[..|hs| - 1])
  }

  ghost function LatestMid(hs: seq<Headers>): int
    decreases |hs|
  {
    if hs == [] then 0 else if HasMid(hs[|hs| - 1]) then hs[|hs| - 1].ids.mid else LatestMid(hs[..|hs| - 1])
  }

  /** What the registry holds after any sequence of configurations that did not
      abort: the last config's audio-level, abs-send-time and abs-capture-time ids,
      and for the two that are never deregistered the latest id there was. */
  ghost predicate Holds(noFeedback: bool, hs: seq<Headers>, m: Registry) {
    && Matches(m, Current(hs).ids)
    && m.transportSequenceNumber == (if noFeedback then 0 else LatestTransportId(hs))
    && m.mid == LatestMid(hs)
  }

  /** Configure's effect on the two that are never deregistered. */
  lemma ConfigureKeepsOthers(m: Registry, first: bool, noFeedback: bool, a: Headers, b: Headers)
    requires Configure(m, first, noFeedback, a, b).Some?
    ensures var n, id := Configure(m, first, noFeedback, a, b).value, b.ids.transportSequenceNumber;
            && n.transportSequenceNumber ==
               (if !noFeedback && id != 0 && (first || id != a.ids.transportSequenceNumber) then id
                else m.transportSequenceNumber)
            && n.mid == (if HasMid(b) && (first || b.ids.mid != a.ids.mid || b.midValue != a.midValue) then b.ids.mid
                         else m.mid)
  {
  }

  lemma HoldsStep(noFeedback: bool, hs: seq<Headers>, m: Registry, h: Headers)
    requires Holds(noFeedback, hs, m) && Configure(m, hs == [], noFeedback, Current(hs), h).Some?
    ensures Holds(noFeedback, hs + [h], Configure(m, hs == [], noFeedback, Current(hs), h).value)
  {
    assert (hs + [h])[..|hs|] == hs;
    ConfigureMatches(m, hs == [], noFeedback, Current(hs), h);
    ConfigureKeepsOthers(m, hs == [], noFeedback, Current(hs), h);
    if hs != [] && HasMid(h) && h.ids.mid == Current(hs).ids.mid && h.midValue == Current(hs).midValue {
      assert LatestMid(hs) == h.ids.mid;
    }
  }

  lemma {:induction false} EveryConfigurationHolds(noFeedback: bool, hs: seq<Headers>)
    requires Apply(noFeedback, hs).Some?
    ensures Holds(noFeedback, hs, Apply(noFeedback, hs).value)
    decreases |hs|
  {
    if hs != [] {
      var before := hs[..|hs| - 1];
      EveryConfigurationHolds(noFeedback, before);
      HoldsStep(noFeedback, before, Apply(noFeedback, before).value, hs[|hs| - 1]);
      assert before + [hs[|hs| - 1]] == hs;
    }
  }

  // ------------------------------------------------ no two share an id

  predicate NoClash(m: Registry) {
    && (forall u, v | u != v && Get(m, u) != 0 :: Get(m, u) != Get(m, v))
    && (forall u :: 0 <= Get(m, u) <= 255)
  }

  lemma GetPut(m: Registry, u: Uri, id: int, v: Uri)
    ensures Get(Put(m, u, id), v) == if v == u then id else Get(m, v)
  {
  }

  lemma PutKeepsNoClash(m: Registry, u: Uri, id: int)
    requires NoClash(m) && (id == 0 || (1 <= id <= 255 && !UsedByOther(m, u, id)))
    ensures NoClash(Put(m, u, id))
  {
    var n := Put(m, u, id);
    forall v ensures 0 <= Get(n, v) <= 255 {
      GetPut(m, u, id, v);
    }
    forall v, w | v != w && Get(n, v) != 0 ensures Get(n, v) != Get(n, w) {
      GetPut(m, u, id, v);
      GetPut(m, u, id, w);
      assert v != u && w != u ==> Get(m, v) != Get(m, w);
    }
  }

  lemma RegisterKeepsNoClash(m: Registry, u: Uri, id: int)
    requires NoClash(m)
    ensures NoClash(Deregister(m, u)) && (Register(m, u, id).Some? ==> NoClash(Register(m, u, id).value))
  {
    PutKeepsNoClash(m, u, 0);
    if Accepts(m, u, id) {
      PutKeepsNoClash(m, u, id);
    }
  }

  lemma ReplaceKeepsNoClash(m: Registry, u: Uri, id: int)
    requires NoClash(m)
    ensures Replace(m, u, id).Some? ==> NoClash(Replace(m, u, id).value)
  {
    RegisterKeepsNoClash(m, u, id);
    RegisterKeepsNoClash(Deregister(m, u), u, id);
  }

  lemma ConfigureKeepsNoClash(m: Registry, first: bool, noFeedback: bool, a: Headers, b: Headers)
    requires NoClash(m) && Configure(m, first, noFeedback, a, b).Some?
    ensures NoClash(Configure(m, first, noFeedback, a, b).value)
  {
    RegisterKeepsNoClash(m, AudioLevel, b.ids.audioLevel);
    var m1 := AfterAudioLevel(m, first, a, b).value;
    ReplaceKeepsNoClash(m1, AbsSendTime, b.ids.absSendTime);
    var m2 := AfterAbsSendTime(m1, first, a, b).value;
    RegisterKeepsNoClash(m2, TransportSequenceNumber, b.ids.transportSequenceNumber);
    var m3 := AfterTransportSequence(m2, first, noFeedback, a, b).value;
    RegisterKeepsNoClash(m3, Mid, b.ids.mid);
    ReplaceKeepsNoClash(AfterMid(m3, first, a, b).value, AbsCaptureTime, b.ids.absCaptureTime);
  }

  /** Whatever ids the configs name, no two extensions end up sharing one, and all are
      within the range of ids. */
  lemma {:induction false} NoConfigurationClashes(noFeedback: bool, hs: seq<Headers>)
    requires Apply(noFeedback, hs).Some?
    ensures NoClash(Apply(noFeedback, hs).value)
    decreases |hs|
  {
    if hs != [] {
      var before := hs[..|hs| - 1];
      NoConfigurationClashes(noFeedback, before);
      ConfigureKeepsNoClash(Apply(noFeedback, before).value, |hs| == 1, noFeedback, Current(before), hs[|hs| - 1]);
    }
  }

  // ------------------------------------------------ incremental equals fresh

  /** A config that was accepted in any sequence is accepted as a first one. */
  lemma AcceptedAlone(noFeedback: bool, hs: seq<Headers>)
    requires hs != [] && Apply(noFeedback, hs).Some?
    ensures Apply(noFeedback, [hs[|hs| - 1]]).Some?
  {
    var h, m := hs[|hs| - 1], Apply(noFeedback, hs).value;
    EveryConfigurationHolds(noFeedback, hs);
    NoConfigurationClashes(noFeedback, hs);
    LatestIsCurrent(hs);
    assert Get(m, AudioLevel) == m.audioLevel && Get(m, AbsSendTime) == m.absSendTime
        && Get(m, AbsCaptureTime) == m.absCaptureTime && Get(m, Mid) == m.mid
        && Get(m, TransportSequenceNumber) == m.transportSequenceNumber;
    assert Compatible(noFeedback, [], h);
    AbortsUnlessCompatible(noFeedback, [], h);
    assert [] + [h] == [h];
  }

  /** Reconfiguring to the last config equals configuring it first, for the
      extensions that are deregistered; the transport sequence number is as fresh
      exactly when the last config names one or none ever did, and so is MID. */
  lemma IncrementalEqualsFresh(noFeedback: bool, hs: seq<Headers>)
    requires hs != [] && Apply(noFeedback, hs).Some?
    ensures Apply(noFeedback, [hs[|hs| - 1]]).Some?
    ensures var m, scratch := Apply(noFeedback, hs).value, Apply(noFeedback, [hs[|hs| - 1]]).value;
            && m.audioLevel == scratch.audioLevel
            && m.absSendTime == scratch.absSendTime
            && m.absCaptureTime == scratch.absCaptureTime
            && (m.transportSequenceNumber == scratch.transportSequenceNumber <==>
                noFeedback || hs[|hs| - 1].ids.transportSequenceNumber != 0 || LatestTransportId(hs) == 0)
            && (m.mid == scratch.mid <==> HasMid(hs[|hs| - 1]) || LatestMid(hs) == 0)
  {
    AcceptedAlone(noFeedback, hs);
    EveryConfigurationHolds(noFeedback, hs);
    EveryConfigurationHolds(noFeedback, [hs[|hs| - 1]]);
    assert [hs[|hs| - 1]][..0] == [];
    assert LatestTransportId([]) == 0 && LatestMid([]) == 0;
  }

  /** Giving the audio level, or the transport sequence number, another id aborts:
      neither is deregistered first.  The other extensions of the two configs do
      not matter. */
  lemma ChangedIdAborts(noFeedback: bool, hs: seq<Headers>, h: Headers)
    requires hs != [] && Apply(noFeedback, hs).Some?
    ensures var a, b := Current(hs).ids.audioLevel, h.ids.audioLevel;
            a != 0 && b != 0 && a != b ==> Apply(noFeedback, hs + [h]).None?
    ensures var a, b := LatestTransportId(hs), h.ids.transportSequenceNumber;
            !noFeedback && b != Current(hs).ids.transportSequenceNumber && a != 0 && b != 0 && a != b ==>
              Apply(noFeedback, hs + [h]).None?
  {
    EveryConfigurationHolds(noFeedback, hs);
    assert (hs + [h])[..|hs|] == hs;
  }

  /** `id` can be given to an extension that had `before`, next to the others. */
  predicate Assignable(id: int, before: int, w: int, x: int, y: int, z: int) {
    1 <= id <= 255 && (before == 0 || before == id) && id != w && id != x && id != y && id != z
  }

  /** What the next config, the first one included, must satisfy, said with ids alone: each extension that
      changes gets an id that no other has at that point of the sequence, and audio
      level, transport sequence number and MID do not change from one id to another. */
  ghost predicate Compatible(noFeedback: bool, hs: seq<Headers>, h: Headers)
  {
    var a, b := Current(hs).ids, h.ids;
    var tsn, mid := if noFeedback then 0 else LatestTransportId(hs), LatestMid(hs);
    var newTsn := if noFeedback || b.transportSequenceNumber == 0 then tsn else b.transportSequenceNumber;
    var newMid := if HasMid(h) then b.mid else mid;
    && (b.audioLevel == a.audioLevel || b.audioLevel == 0
        || Assignable(b.audioLevel, a.audioLevel, a.absSendTime, a.absCaptureTime, tsn, mid))
    && (b.absSendTime == a.absSendTime || b.absSendTime == 0
        || Assignable(b.absSendTime, 0, b.audioLevel, a.absCaptureTime, tsn, mid))
    && (b.transportSequenceNumber == a.transportSequenceNumber || b.transportSequenceNumber == 0 || noFeedback
        || Assignable(b.transportSequenceNumber, tsn, b.audioLevel, b.absSendTime, a.absCaptureTime, mid))
    && ((b.mid == a.mid && h.midValue == Current(hs).midValue) || !HasMid(h)
        || Assignable(b.mid, mid, b.audioLevel, b.absSendTime, a.absCaptureTime, newTsn))
    && (b.absCaptureTime == a.absCaptureTime || b.absCaptureTime == 0
        || Assignable(b.absCaptureTime, 0, b.audioLevel, b.absSendTime, newTsn, newMid))
  }

  /** After any configs, the next one is taken if and only if it is compatible. */
  lemma AbortsUnlessCompatible(noFeedback: bool, hs: seq<Headers>, h: Headers)
    requires Apply(noFeedback, hs).Some?
    ensures Apply(noFeedback, hs + [h]).Some? <==> Compatible(noFeedback, hs, h)
  {
    EveryConfigurationHolds(noFeedback, hs);
    assert (hs + [h])[..|hs|] == hs;
    var m := Apply(noFeedback, hs).value;
    if hs == [] {
      FirstIsAsChanged(noFeedback, h);
    }
    ConfigureSucceeds(noFeedback, hs, m, h);
  }

  lemma AcceptsAssignable(m: Registry, id: int)
    ensures Accepts(m, AudioLevel, id) <==>
            Assignable(id, m.audioLevel, m.absSendTime, m.absCaptureTime, m.transportSequenceNumber, m.mid)
    ensures Accepts(m, AbsSendTime, id) <==>
            Assignable(id, m.absSendTime, m.audioLevel, m.absCaptureTime, m.transportSequenceNumber, m.mid)
    ensures Accepts(m, TransportSequenceNumber, id) <==>
            Assignable(id, m.transportSequenceNumber, m.audioLevel, m.absSendTime, m.absCaptureTime, m.mid)
    ensures Accepts(m, Mid, id) <==>
            Assignable(id, m.mid, m.audioLevel, m.absSendTime, m.absCaptureTime, m.transportSequenceNumber)
    ensures Accepts(m, AbsCaptureTime, id) <==>
            Assignable(id, m.absCaptureTime, m.audioLevel, m.absSendTime, m.transportSequenceNumber, m.mid)
  {
  }

  lemma LevelStage(m: Registry, a: Headers, b: Headers)
    requires m.audioLevel == a.ids.audioLevel
    ensures var r, id := AfterAudioLevel(m, false, a, b), b.ids.audioLevel;
            && (r.Some? <==> || id == a.ids.audioLevel || id == 0
                             || Assignable(id, m.audioLevel, m.absSendTime, m.absCaptureTime,
                                           m.transportSequenceNumber, m.mid))
            && (r.Some? ==> r.value == m.(audioLevel := id))
  {
    AcceptsAssignable(m, b.ids.audioLevel);
  }

  lemma SendTimeStage(m: Registry, a: Headers, b: Headers)
    requires m.absSendTime == a.ids.absSendTime
    ensures var r, id := AfterAbsSendTime(m, false, a, b), b.ids.absSendTime;
            && (r.Some? <==> || id == a.ids.absSendTime || id == 0
                             || Assignable(id, 0, m.audioLevel, m.absCaptureTime, m.transportSequenceNumber, m.mid))
            && (r.Some? ==> r.value == m.(absSendTime := id))
  {
    AcceptsAssignable(Deregister(m, AbsSendTime), b.ids.absSendTime);
  }

  lemma TransportStage(m: Registry, noFeedback: bool, a: Headers, b: Headers)
    requires !noFeedback && a.ids.transportSequenceNumber != 0 ==>
               m.transportSequenceNumber == a.ids.transportSequenceNumber
    ensures var r, id := AfterTransportSequence(m, false, noFeedback, a, b), b.ids.transportSequenceNumber;
            && (r.Some? <==> || id == a.ids.transportSequenceNumber || id == 0 || noFeedback
                             || Assignable(id, m.transportSequenceNumber, m.audioLevel, m.absSendTime,
                                           m.absCaptureTime, m.mid))
            && (r.Some? ==>
                  r.value == m.(transportSequenceNumber :=
                                if noFeedback || id == 0 then m.transportSequenceNumber else id))
  {
    AcceptsAssignable(m, b.ids.transportSequenceNumber);
  }

  lemma MidStage(m: Registry, a: Headers, b: Headers)
    requires HasMid(a) ==> m.mid == a.ids.mid
    ensures var r, id := AfterMid(m, false, a, b), b.ids.mid;
            && (r.Some? <==> || (id == a.ids.mid && b.midValue == a.midValue) || !HasMid(b)
                             || Assignable(id, m.mid, m.audioLevel, m.absSendTime, m.absCaptureTime,
                                           m.transportSequenceNumber))
            && (r.Some? ==> r.value == m.(mid := if HasMid(b) then id else m.mid))
  {
    AcceptsAssignable(m, b.ids.mid);
  }

  lemma CaptureTimeStage(m: Registry, a: Headers, b: Headers)
    ensures var r, id := AfterAbsCaptureTime(m, false, a, b), b.ids.absCaptureTime;
            r.Some? <==> || id == a.ids.absCaptureTime || id == 0
                         || Assignable(id, 0, m.audioLevel, m.absSendTime, m.transportSequenceNumber, m.mid)
  {
    AcceptsAssignable(Deregister(m, AbsCaptureTime), b.ids.absCaptureTime);
  }

  lemma ConfigureSucceeds(noFeedback: bool, hs: seq<Headers>, m: Registry, h: Headers)
    requires Holds(noFeedback, hs, m)
    ensures Configure(m, false, noFeedback, Current(hs), h).Some? <==> Compatible(noFeedback, hs, h)
  {
    if hs != [] {
      LatestIsCurrent(hs);
    }
    var a, b := Current(hs), h;
    var m1 := m.(audioLevel := b.ids.audioLevel);
    var m2 := m1.(absSendTime := b.ids.absSendTime);
    var tsn := b.ids.transportSequenceNumber;
    var m3 := m2.(transportSequenceNumber := if noFeedback || tsn == 0 then m.transportSequenceNumber else tsn);
    var m4 := m3.(mid := if HasMid(b) then b.ids.mid else m.mid);
    LevelStage(m, a, b);
    SendTimeStage(m1, a, b);
    TransportStage(m2, noFeedback, a, b);
    MidStage(m3, a, b);
    CaptureTimeStage(m4, a, b);
  }

  /** Configuring for the first time is a change from nothing. */
  lemma FirstIsAsChanged(noFeedback: bool, h: Headers)
    ensures Configure(EMPTY_REGISTRY, true, noFeedback, NO_HEADERS, h)
            == Configure(EMPTY_REGISTRY, false, noFeedback, NO_HEADERS, h)
  {
  }

  /** An id that the current config names is the latest one. */
  lemma LatestIsCurrent(hs: seq<Headers>)
    requires hs != []
    ensures var h := hs[|hs| - 1];
            && (h.ids.transportSequenceNumber != 0 ==> LatestTransportId(hs) == h.ids.transportSequenceNumber)
            && (HasMid(h) ==> LatestMid(hs) == h.ids.mid)
  {
  }

  /** Two configs that are each fine can abort in sequence: exchanging the ids of
      abs-send-time and abs-capture-time registers an id that is still in use. */
  lemma ExchangedIdsAbort(i: int, j: int)
    requires 1 <= i <= 255 && 1 <= j <= 255 && i != j
    ensures var a := Headers(ExtensionIds(0, i, j, 0, 0, 0, 0), "");
            var b := Headers(ExtensionIds(0, j, i, 0, 0, 0, 0), "");
            Apply(false, [a]).Some? && Apply(false, [b]).Some? && Apply(false, [a, b]).None?
  {
    var a := Headers(ExtensionIds(0, i, j, 0, 0, 0, 0), "");
    var b := Headers(ExtensionIds(0, j, i, 0, 0, 0, 0), "");
    assert [a][..0] == [] && [b][..0] == [] && [a, b][..1] == [a];
    assert Apply(false, [a]) == Some(Registry(0, i, j, 0, 0));
  }
}
