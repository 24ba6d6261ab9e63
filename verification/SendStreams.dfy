/** The stream object of audio/audio_send_stream.cc.  Its header extensions, codec
    and bitrate observer are specified in modules of their own; here the object's
    methods are tied to those specifications and to AudioState. */
module SendStreams {
  import opened Common
  import opened AudioTransport
  import opened AudioState
  import RtpExtensions
  import Headers = HeaderRegistration
  import Codecs = SendCodec
  import Bitrates = BitrateAllocation

  // ------------------------------------------------ values

  datatype Config = Config(
    extensions: seq<RtpExtensions.Extension>, mid: string, spec: Option<Codecs.Spec>, ana: Option<string>,
    hasDscp: bool, minBps: int, maxBps: int, priority: real)

  const NO_CONFIG := Config([], "", None, None, false, -1, -1, 1.0)

  ghost function HeadersOf(c: Config): Headers.Headers { Headers.Headers(Headers.IdsOf(c.extensions), c.mid) }

  function RequestOf(c: Config): Codecs.Request { Codecs.Request(c.spec, c.ana) }

  ghost function LimitsOf(c: Config): Bitrates.Limits {
    Bitrates.Limits(c.hasDscp, c.minBps, c.maxBps, c.priority,
                    Headers.IdOf(c.extensions, Headers.TRANSPORT_SEQUENCE_NUMBER), c.ana)
  }

  function PropsOf(e: Codecs.Encoder): Props { Props(e.SampleRateHz(), e.NumChannels()) }

  /** A stream: its config, the channel's encoder, the encoder properties it stored,
      the RTP module's extensions and its dealings with the allocator. */
  datatype Sender = Sender(
    config: Config, codec: Codecs.Codec, props: Props, registry: Headers.Registry, allocation: Bitrates.Allocation)

  const NO_PROPS := Props(0, 0)

  const NEW_SENDER :=
    Sender(NO_CONFIG, Codecs.NO_CODEC, NO_PROPS, Headers.EMPTY_REGISTRY, Bitrates.NEW_ALLOCATION)

  /** The properties of the encoder that a new config makes the stream build, if any. */
  function Announced(make: Codecs.Factory, from: Config, to: Config): Option<Props> {
    var before, after := RequestOf(from), RequestOf(to);
    if after.spec.None? || Codecs.Unchanged(before, after) || !Codecs.NeedsNewEncoder(before, after) then None
    else
      var e := Codecs.FreshEncoder(make, after.spec.value);
      if e.None? then None else Some(PropsOf(e.value))
  }

  ghost function ChangeOf(codec: Codecs.Codec, c: Config, rtpOverhead: nat): Bitrates.Change {
    Bitrates.Change(LimitsOf(c), rtpOverhead,
                    if codec.encoder.None? then None
                    else Some((codec.encoder.value.FrameLengthsUs(), codec.encoder.value.BitrateRangeBps())))
  }

  /** The stream's collaborators accept the config: no check in them or in the
      stream fails. */
  ghost predicate Accepted(make: Codecs.Factory, settings: Bitrates.Settings, s: Sender, first: bool, c: Config,
                           rtpOverhead: nat)
  {
    && Bitrates.Positive(s.allocation.lengths)
    && Headers.Configure(s.registry, first, settings.noFeedback, HeadersOf(s.config), HeadersOf(c)).Some?
    && !Codecs.Crashes(make, s.codec, RequestOf(s.config), RequestOf(c))
    && var change := ChangeOf(Codecs.Reconfigure(make, s.codec, RequestOf(s.config), RequestOf(c)), c, rtpOverhead);
       Bitrates.PositiveChange(change) && Bitrates.Configure(settings, s.allocation, change).Some?
  }

  /** ConfigureStream. */
  ghost function Configured(make: Codecs.Factory, settings: Bitrates.Settings, s: Sender, first: bool, c: Config,
                            rtpOverhead: nat): Sender
    requires Accepted(make, settings, s, first, c, rtpOverhead)
  {
    var codec := Codecs.Reconfigure(make, s.codec, RequestOf(s.config), RequestOf(c));
    var p := Announced(make, s.config, c);
    Sender(c, codec, if p.Some? then p.value else s.props,
           Headers.Configure(s.registry, first, settings.noFeedback, HeadersOf(s.config), HeadersOf(c)).value,
           Bitrates.Configure(settings, s.allocation, ChangeOf(codec, c, rtpOverhead)).value)
  }

  /** What AudioState learns from it. */
  ghost function Reannounced(a: State, id: StreamId, sending: bool, p: Option<Props>, d: Device): State {
    if sending && p.Some? then AddSending(a, id, p.value, d) else a
  }

  // ------------------------------------------------ the life of one stream

  /** What a sender knows about itself is up to date: the stored properties and ranges
      are its encoder's, the registered extension ids its config's. */
  ghost predicate UpToDate(s: Sender) {
    && CodecKnown(s.codec, s.props, Bitrates.RangesOf(s.allocation)) && HeadersKnown(s.registry, s.config)
    && s.allocation.config == LimitsOf(s.config)
  }

  ghost predicate CodecKnown(codec: Codecs.Codec, props: Props, u: Bitrates.Ranges) {
    && (codec.encoder.None? ==> props == NO_PROPS)
    && (codec.encoder.Some? ==>
          var e := codec.encoder.value;
          && e.CngOverMono() && Bitrates.Positive(e.FrameLengthsUs())
          && props.sampleRateHz == e.SampleRateHz() && props.numChannels == e.NumChannels()
          && u == (e.FrameLengthsUs(), e.BitrateRangeBps()))
  }

  ghost predicate HeadersKnown(m: Headers.Registry, c: Config) {
    && Headers.Matches(m, Headers.IdsOf(c.extensions))
    && Headers.LastIs(c.extensions, Headers.AUDIO_LEVEL, m.audioLevel)
    && Headers.LastIs(c.extensions, Headers.ABS_SEND_TIME, m.absSendTime)
    && Headers.LastIs(c.extensions, Headers.ABS_CAPTURE_TIME, m.absCaptureTime)
  }

  lemma ConfiguredHeaders(m: Headers.Registry, first: bool, noFeedback: bool, from: Config, c: Config)
    requires first || HeadersKnown(m, from)
    requires Headers.Configure(m, first, noFeedback, HeadersOf(from), HeadersOf(c)).Some?
    ensures HeadersKnown(Headers.Configure(m, first, noFeedback, HeadersOf(from), HeadersOf(c)).value, c)
  {
    Headers.ConfigureMatches(m, first, noFeedback, HeadersOf(from), HeadersOf(c));
    Headers.IdsAreNamed(c.extensions);
  }

  lemma ConfiguredCodec(make: Codecs.Factory, codec: Codecs.Codec, props: Props, u: Bitrates.Ranges, from: Config,
                        c: Config, rtp: nat)
    requires CodecKnown(codec, props, u) && !Codecs.Crashes(make, codec, RequestOf(from), RequestOf(c))
    requires Bitrates.PositiveChange(ChangeOf(Codecs.Reconfigure(make, codec, RequestOf(from), RequestOf(c)), c, rtp))
    ensures var after := Codecs.Reconfigure(make, codec, RequestOf(from), RequestOf(c));
            var p, e := Announced(make, from, c), ChangeOf(after, c, rtp).encoder;
            CodecKnown(after, if p.Some? then p.value else props, if e.Some? then e.value else u)
  {
    Codecs.OnlyNewEncodersChangeProps(make, codec, RequestOf(from), RequestOf(c));
  }

  lemma ConfiguredIsUpToDate(make: Codecs.Factory, settings: Bitrates.Settings, s: Sender, first: bool, c: Config,
                             rtp: nat)
    requires Accepted(make, settings, s, first, c, rtp)
    requires if first then s == NEW_SENDER else UpToDate(s)
    ensures var t := Configured(make, settings, s, first, c, rtp);
            && UpToDate(t) && t.allocation.sending == s.allocation.sending
            && t.props == if Announced(make, s.config, c).Some? then Announced(make, s.config, c).value else s.props
  {
    var codec := Codecs.Reconfigure(make, s.codec, RequestOf(s.config), RequestOf(c));
    ConfiguredHeaders(s.registry, first, settings.noFeedback, s.config, c);
    ConfiguredCodec(make, s.codec, s.props, Bitrates.RangesOf(s.allocation), s.config, c, rtp);
    Bitrates.ConfigureRanges(settings, s.allocation, ChangeOf(codec, c, rtp));
  }

  datatype Act =
    | Reconfigured(config: Config, rtpOverhead: nat)
    | Started
    | Stopped
    | TransportOverheadSet(bytes: nat, rtpOverhead: nat)
    | RtcpDelivered(rtpOverhead: nat)

  ghost predicate Possible(make: Codecs.Factory, settings: Bitrates.Settings, s: Sender, act: Act) {
    && Bitrates.Positive(s.allocation.lengths)
    && match act
       case Reconfigured(c, rtp) => Accepted(make, settings, s, false, c, rtp)
       case Started => Bitrates.Start(settings, s.allocation).Some?
       case Stopped => true
       case TransportOverheadSet(bytes, rtp) =>
         Bitrates.SetTransportOverhead(settings, s.allocation, bytes, rtp).Some?
       case RtcpDelivered(rtp) => Bitrates.UpdateOverhead(settings, s.allocation, rtp).Some?
  }

  ghost function Acted(make: Codecs.Factory, settings: Bitrates.Settings, s: Sender, act: Act): Sender
    requires Possible(make, settings, s, act)
  {
    match act
    case Reconfigured(c, rtp) => Configured(make, settings, s, false, c, rtp)
    case Started => s.(allocation := Bitrates.Start(settings, s.allocation).value)
    case Stopped => s.(allocation := Bitrates.Stop(s.allocation))
    case TransportOverheadSet(bytes, rtp) =>
      s.(allocation := Bitrates.SetTransportOverhead(settings, s.allocation, bytes, rtp).value)
    case RtcpDelivered(rtp) => s.(allocation := Bitrates.UpdateOverhead(settings, s.allocation, rtp).value)
  }

  /** What AudioState has become by then. */
  ghost function AudioAfter(make: Codecs.Factory, a: State, id: StreamId, s: Sender, act: Act, d: Device): State {
    match act
    case Reconfigured(c, _) => Reannounced(a, id, s.allocation.sending, Announced(make, s.config, c), d)
    case Started => if s.allocation.sending then a else AddSending(a, id, s.props, d)
    case Stopped => if s.allocation.sending then RemoveSending(a, id) else a
    case _ => a
  }

  /** A stream created with `first` after `acts`; None if something was refused. */
  ghost function Live(make: Codecs.Factory, settings: Bitrates.Settings, first: Config, rtp: nat, acts: seq<Act>)
    : Option<Sender>
    decreases |acts|
  {
    if acts == [] then
      if Accepted(make, settings, NEW_SENDER, true, first, rtp)
      then Some(Configured(make, settings, NEW_SENDER, true, first, rtp)) else None
    else
      var s := Live(make, settings, first, rtp, acts[..|acts| - 1]);
      if s.None? || !Possible(make, settings, s.value, acts[|acts| - 1]) then None
      else Some(Acted(make, settings, s.value, acts[|acts| - 1]))
  }

  /** The codec requests and the headers of its configs, in order. */
  ghost function Requests(first: Config, acts: seq<Act>): (rs: seq<Codecs.Request>)
    ensures rs != []
    decreases |acts|
  {
    if acts == [] then [RequestOf(first)]
    else
      var rs := Requests(first, acts[..|acts| - 1]);
      if acts[|acts| - 1].Reconfigured? then rs + [RequestOf(acts[|acts| - 1].config)] else rs
  }

  ghost function HeadersIn(first: Config, acts: seq<Act>): (hs: seq<Headers.Headers>)
    ensures hs != []
    decreases |acts|
  {
    if acts == [] then [HeadersOf(first)]
    else
      var hs := HeadersIn(first, acts[..|acts| - 1]);
      if acts[|acts| - 1].Reconfigured? then hs + [HeadersOf(acts[|acts| - 1].config)] else hs
  }

  /** What an act leaves of the codec and the registry. */
  lemma ActedParts(make: Codecs.Factory, settings: Bitrates.Settings, s: Sender, act: Act)
    requires Possible(make, settings, s, act)
    ensures var t := Acted(make, settings, s, act);
            if act.Reconfigured? then
              && t.config == act.config
              && t.codec == Codecs.Reconfigure(make, s.codec, RequestOf(s.config), RequestOf(act.config))
              && Some(t.registry) == Headers.Configure(s.registry, false, settings.noFeedback, HeadersOf(s.config),
                                                       HeadersOf(act.config))
            else t.config == s.config && t.codec == s.codec && t.registry == s.registry
  {
  }

  lemma CreatedParts(make: Codecs.Factory, settings: Bitrates.Settings, c: Config, rtp: nat)
    requires Accepted(make, settings, NEW_SENDER, true, c, rtp)
    ensures var t := Configured(make, settings, NEW_SENDER, true, c, rtp);
            && t.config == c
            && t.codec == Codecs.Reconfigure(make, Codecs.NO_CODEC, Codecs.NO_REQUEST, RequestOf(c))
            && Some(t.registry) == Headers.Configure(Headers.EMPTY_REGISTRY, true, settings.noFeedback,
                                                     Headers.NO_HEADERS, HeadersOf(c))
  {
    assert HeadersOf(NO_CONFIG) == Headers.NO_HEADERS && RequestOf(NO_CONFIG) == Codecs.NO_REQUEST;
  }

  lemma RequestsSnoc(make: Codecs.Factory, rs: seq<Codecs.Request>, c: Codecs.Codec, r: Codecs.Request)
    requires Codecs.Apply(make, rs) == Some(c) && !Codecs.Crashes(make, c, Codecs.Current(rs), r)
    ensures Codecs.Apply(make, rs + [r]) == Some(Codecs.Reconfigure(make, c, Codecs.Current(rs), r))
  {
    assert (rs + [r])[..|rs|] == rs;
  }

  lemma HeadersSnoc(noFeedback: bool, hs: seq<Headers.Headers>, m: Headers.Registry, h: Headers.Headers)
    requires Headers.Apply(noFeedback, hs) == Some(m)
    ensures Headers.Apply(noFeedback, hs + [h]) == Headers.Configure(m, hs == [], noFeedback, Headers.Current(hs), h)
  {
    assert (hs + [h])[..|hs|] == hs;
  }

  /** Only the configs matter for the codec. */
  lemma {:induction false} CodecOfLife(make: Codecs.Factory, settings: Bitrates.Settings, first: Config, rtp: nat,
                                       acts: seq<Act>)
    requires Live(make, settings, first, rtp, acts).Some?
    ensures var s, rs := Live(make, settings, first, rtp, acts).value, Requests(first, acts);
            Codecs.Apply(make, rs) == Some(s.codec) && rs[|rs| - 1] == RequestOf(s.config)
    decreases |acts|
  {
    if acts == [] {
      CreatedParts(make, settings, first, rtp);
      RequestsSnoc(make, [], Codecs.NO_CODEC, RequestOf(first));
      assert [] + [RequestOf(first)] == [RequestOf(first)];
    } else {
      var before, last := acts[..|acts| - 1], acts[|acts| - 1];
      CodecOfLife(make, settings, first, rtp, before);
      var s := Live(make, settings, first, rtp, before).value;
      ActedParts(make, settings, s, last);
      if last.Reconfigured? {
        RequestsSnoc(make, Requests(first, before), s.codec, RequestOf(last.config));
      }
    }
  }

  lemma {:induction false} ExtensionsOfLife(make: Codecs.Factory, settings: Bitrates.Settings, first: Config, rtp: nat,
                                            acts: seq<Act>)
    requires Live(make, settings, first, rtp, acts).Some?
    ensures var s, hs := Live(make, settings, first, rtp, acts).value, HeadersIn(first, acts);
            Headers.Apply(settings.noFeedback, hs) == Some(s.registry) && hs[|hs| - 1] == HeadersOf(s.config)
    decreases |acts|
  {
    if acts == [] {
      CreatedParts(make, settings, first, rtp);
      HeadersSnoc(settings.noFeedback, [], Headers.EMPTY_REGISTRY, HeadersOf(first));
      assert [] + [HeadersOf(first)] == [HeadersOf(first)];
    } else {
      var before, last := acts[..|acts| - 1], acts[|acts| - 1];
      ExtensionsOfLife(make, settings, first, rtp, before);
      var s := Live(make, settings, first, rtp, before).value;
      ActedParts(make, settings, s, last);
      if last.Reconfigured? {
        HeadersSnoc(settings.noFeedback, HeadersIn(first, before), s.registry, HeadersOf(last.config));
      }
    }
  }

  /** Other acts leave all of that alone. */
  lemma OtherActsKeep(make: Codecs.Factory, settings: Bitrates.Settings, s: Sender, act: Act)
    requires Possible(make, settings, s, act) && !act.Reconfigured?
    ensures var t := Acted(make, settings, s, act);
            && t == s.(allocation := t.allocation) && t.allocation.config == s.allocation.config
            && Bitrates.RangesOf(t.allocation) == Bitrates.RangesOf(s.allocation)
    ensures UpToDate(s) ==> UpToDate(Acted(make, settings, s, act))
  {
  }

  lemma {:induction false} LifeIsUpToDate(make: Codecs.Factory, settings: Bitrates.Settings, first: Config, rtp: nat,
                                          acts: seq<Act>)
    requires Live(make, settings, first, rtp, acts).Some?
    ensures UpToDate(Live(make, settings, first, rtp, acts).value)
    decreases |acts|
  {
    if acts == [] {
      ConfiguredIsUpToDate(make, settings, NEW_SENDER, true, first, rtp);
    } else {
      var before, last := acts[..|acts| - 1], acts[|acts| - 1];
      LifeIsUpToDate(make, settings, first, rtp, before);
      var s := Live(make, settings, first, rtp, before).value;
      if last.Reconfigured? {
        ConfiguredIsUpToDate(make, settings, s, false, last.config, last.rtpOverhead);
      } else {
        OtherActsKeep(make, settings, s, last);
      }
    }
  }

  /** However a stream was reconfigured, started and stopped, its current config would
      be accepted by the RTP module on a new stream, and the extensions that are
      deregistered are those it would have there; the other two are iff the current
      config names them or none ever did. */
  lemma LifeExtensionsEqualFresh(make: Codecs.Factory, settings: Bitrates.Settings, first: Config, rtp: nat,
                                 acts: seq<Act>)
    requires Live(make, settings, first, rtp, acts).Some?
    ensures var s := Live(make, settings, first, rtp, acts).value;
            Headers.Configure(Headers.EMPTY_REGISTRY, true, settings.noFeedback, HeadersOf(NO_CONFIG),
                              HeadersOf(s.config)).Some?
    ensures var s, hs := Live(make, settings, first, rtp, acts).value, HeadersIn(first, acts);
            var scratch := Headers.Configure(Headers.EMPTY_REGISTRY, true, settings.noFeedback, HeadersOf(NO_CONFIG),
                                             HeadersOf(s.config)).value;
            && s.registry.audioLevel == scratch.audioLevel
            && s.registry.absSendTime == scratch.absSendTime
            && s.registry.absCaptureTime == scratch.absCaptureTime
            && (s.registry.transportSequenceNumber == scratch.transportSequenceNumber <==>
                || settings.noFeedback || HeadersOf(s.config).ids.transportSequenceNumber != 0
                || Headers.LatestTransportId(hs) == 0)
            && (s.registry.mid == scratch.mid <==> Headers.HasMid(HeadersOf(s.config)) || Headers.LatestMid(hs) == 0)
  {
    var h := HeadersOf(Live(make, settings, first, rtp, acts).value.config);
    ExtensionsOfLife(make, settings, first, rtp, acts);
    Headers.IncrementalEqualsFresh(settings.noFeedback, HeadersIn(first, acts));
    assert [h][..0] == [];
    assert Headers.Apply(settings.noFeedback, []) == Some(Headers.EMPTY_REGISTRY);
    assert HeadersOf(NO_CONFIG) == Headers.NO_HEADERS;
  }

  /** As long as the encoders that are named can be made, a new stream would accept the
      current config as well, and the encoder stack and the announced properties are the
      ones it would have there iff no codec was ever named, or the current config names
      one and comfort noise was not changed under RED since it was set up. */
  lemma LifeEqualsFresh(make: Codecs.Factory, settings: Bitrates.Settings, first: Config, rtp: nat, acts: seq<Act>,
                        anew: nat)
    requires Live(make, settings, first, rtp, acts).Some? && Codecs.AllMakeable(make, Requests(first, acts))
    ensures Accepted(make, settings, NEW_SENDER, true, Live(make, settings, first, rtp, acts).value.config, anew)
    ensures var s, rs := Live(make, settings, first, rtp, acts).value, Requests(first, acts);
            var t := Configured(make, settings, NEW_SENDER, true, s.config, anew);
            && (s.codec.encoder == t.codec.encoder && s.props == t.props <==>
                Codecs.LastNamed(rs).spec.None? || (s.config.spec.Some? && !Codecs.RedLost(rs)))
            && Headers.Matches(s.registry, Headers.IdsOf(s.config.extensions))
            && Headers.Matches(t.registry, Headers.IdsOf(s.config.extensions))
  {
    var s, rs := Live(make, settings, first, rtp, acts).value, Requests(first, acts);
    CodecOfLife(make, settings, first, rtp, acts);
    Codecs.IncrementalEqualsFresh(make, rs);
    FreshCodec(make, rs, RequestOf(s.config));
    LifeIsUpToDate(make, settings, first, rtp, acts);
    LifeExtensionsEqualFresh(make, settings, first, rtp, acts);
    AcceptedByNew(make, settings, s.config, anew);
    ConfiguredIsUpToDate(make, settings, NEW_SENDER, true, s.config, anew);
  }

  /** What a new stream needs in order to accept a config. */
  lemma AcceptedByNew(make: Codecs.Factory, settings: Bitrates.Settings, c: Config, rtp: nat)
    requires Headers.Configure(Headers.EMPTY_REGISTRY, true, settings.noFeedback, HeadersOf(NO_CONFIG), HeadersOf(c)).Some?
    requires !Codecs.Crashes(make, Codecs.NO_CODEC, Codecs.NO_REQUEST, RequestOf(c))
    requires var e := Codecs.Reconfigure(make, Codecs.NO_CODEC, Codecs.NO_REQUEST, RequestOf(c)).encoder;
             e.Some? ==> Bitrates.Positive(e.value.FrameLengthsUs())
    ensures Accepted(make, settings, NEW_SENDER, true, c, rtp)
  {
    assert RequestOf(NO_CONFIG) == Codecs.NO_REQUEST;
  }

  /** The codec that the last of such requests would get on a new stream. */
  lemma FreshCodec(make: Codecs.Factory, rs: seq<Codecs.Request>, r: Codecs.Request)
    requires rs != [] && Codecs.AllMakeable(make, rs) && r == rs[|rs| - 1]
    ensures !Codecs.Crashes(make, Codecs.NO_CODEC, Codecs.NO_REQUEST, r)
    ensures Codecs.Reconfigure(make, Codecs.NO_CODEC, Codecs.NO_REQUEST, r).encoder ==
            if r.spec.None? then None else Codecs.FreshEncoder(make, r.spec.value)
  {
    if r.spec.Some? {
      Codecs.MakeableIsMono(make, r);
    }
  }

  /** With feedback and a constant DSCP setting, the stream is the allocator's
      observer exactly while it sends with limits and a transport sequence id. */
  lemma {:induction false} LifeAgrees(make: Codecs.Factory, settings: Bitrates.Settings, first: Config, rtp: nat,
                                      acts: seq<Act>)
    requires Live(make, settings, first, rtp, acts).Some? && !settings.noFeedback
    requires forall i | 0 <= i < |acts| :: acts[i].Reconfigured? ==> acts[i].config.hasDscp == first.hasDscp
    ensures var s := Live(make, settings, first, rtp, acts).value;
            Bitrates.Agrees(settings, s.allocation) && s.allocation.config == LimitsOf(s.config)
            && s.config.hasDscp == first.hasDscp
    decreases |acts|
  {
    LifeIsUpToDate(make, settings, first, rtp, acts);
    if acts == [] {
      var codec := Codecs.Reconfigure(make, Codecs.NO_CODEC, RequestOf(NO_CONFIG), RequestOf(first));
      Bitrates.ConfigureKeepsAgreement(settings, Bitrates.NEW_ALLOCATION, ChangeOf(codec, first, rtp));
    } else {
      var before, last := acts[..|acts| - 1], acts[|acts| - 1];
      LifeAgrees(make, settings, first, rtp, before);
      if last.Reconfigured? {
        var s := Live(make, settings, first, rtp, before).value;
        var codec := Codecs.Reconfigure(make, s.codec, RequestOf(s.config), RequestOf(last.config));
        Bitrates.ConfigureKeepsAgreement(settings, s.allocation, ChangeOf(codec, last.config, last.rtpOverhead));
      }
    }
  }

  /** The same, said of the config itself. */
  lemma LifeIsObserverExactlyWhen(make: Codecs.Factory, settings: Bitrates.Settings, first: Config, rtp: nat,
                                  acts: seq<Act>)
    requires Live(make, settings, first, rtp, acts).Some? && !settings.noFeedback
    requires forall i | 0 <= i < |acts| :: acts[i].Reconfigured? ==> acts[i].config.hasDscp == first.hasDscp
    ensures var s := Live(make, settings, first, rtp, acts).value;
            var eligible := && !s.config.hasDscp && s.config.minBps != -1 && s.config.maxBps != -1
                            && !Headers.LastIs(s.config.extensions, Headers.TRANSPORT_SEQUENCE_NUMBER, 0);
            && (s.allocation.registered <==> s.allocation.sending && eligible)
            && (s.allocation.observer.Some? <==> s.allocation.registered)
            && (s.allocation.sending ==> (s.allocation.partOfAllocation <==> eligible))
  {
    var c := Live(make, settings, first, rtp, acts).value.config;
    LifeAgrees(make, settings, first, rtp, acts);
    Headers.IdOfIsLast(c.extensions, Headers.TRANSPORT_SEQUENCE_NUMBER);
    Headers.LastIsUnique(c.extensions, Headers.TRANSPORT_SEQUENCE_NUMBER,
                         Headers.IdOf(c.extensions, Headers.TRANSPORT_SEQUENCE_NUMBER), 0);
  }

  // ------------------------------------------------ the object

  class AudioSendStream {
    const self: StreamId
    const audioState: AudioStateImpl
    const settings: Bitrates.Settings
    const make: Codecs.Factory
    var config: Config
    var sending: bool
    var codec: Codecs.Codec
    var props: Props
    var registry: Headers.Registry
    var registered: bool
    var observer: Option<Bitrates.Observer>
    var partOfAllocation: bool
    var transportOverhead: nat
    var overhead: nat
    var lengths: Option<(int, int)>
    var range: Option<(nat, nat)>

    ghost function Allocation(): Bitrates.Allocation
      reads this
    {
      Bitrates.Allocation(LimitsOf(config), sending, registered, observer, partOfAllocation,
                          transportOverhead, overhead, lengths, range)
    }

    ghost function View(): Sender
      reads this
    {
      Sender(config, codec, props, registry, Allocation())
    }

    /** AudioState holds this stream iff it is sending, with the stored properties. */
    ghost predicate Valid()
      reads this, audioState, audioState.playout, audioState.transport
    {
      && audioState.Valid() && Bitrates.Positive(lengths)
      && (sending <==> self in audioState.sendingStreams)
      && (sending ==> audioState.sendingStreams[self] == props)
    }

    constructor (self: StreamId, audioState: AudioStateImpl, settings: Bitrates.Settings, make: Codecs.Factory,
                 c: Config, rtpOverhead: nat, d: Device)
      requires audioState.Valid() && self !in audioState.sendingStreams
      requires Accepted(make, settings, NEW_SENDER, true, c, rtpOverhead)
      modifies audioState, audioState.transport
      ensures Valid() && View() == Configured(make, settings, NEW_SENDER, true, c, rtpOverhead) && !sending
      ensures audioState.View() == old(audioState.View())
      ensures this.self == self && this.audioState == audioState && this.settings == settings && this.make == make
    {
      this.self, this.audioState, this.settings, this.make := self, audioState, settings, make;
      config, sending, codec, props := NO_CONFIG, false, Codecs.NO_CODEC, NO_PROPS;
      registry, registered, observer, partOfAllocation := Headers.EMPTY_REGISTRY, false, None, false;
      transportOverhead, overhead, lengths, range := 0, 0, None, None;
      new;
      assert View() == NEW_SENDER;
      ConfigureStream(c, true, rtpOverhead, d);
    }

    method Reconfigure(c: Config, rtpOverhead: nat, d: Device)
      requires Valid() && Accepted(make, settings, View(), false, c, rtpOverhead)
      modifies this, audioState, audioState.transport
      ensures Valid() && View() == Configured(make, settings, old(View()), false, c, rtpOverhead)
      ensures audioState.View() ==
              Reannounced(old(audioState.View()), self, old(sending), Announced(make, old(config), c), d)
    {
      ConfigureStream(c, false, rtpOverhead, d);
    }

    method ConfigureStream(c: Config, first: bool, rtpOverhead: nat, d: Device)
      requires Valid() && Accepted(make, settings, View(), first, c, rtpOverhead)
      modifies this, audioState, audioState.transport
      ensures Valid() && View() == Configured(make, settings, old(View()), first, c, rtpOverhead)
      ensures audioState.View() ==
              Reannounced(old(audioState.View()), self, old(sending), Announced(make, old(config), c), d)
    {
      RegisterExtensions(c, first);
      var _ := ReconfigureSendCodec(c, d);
      UpdateAllocation(c, rtpOverhead);
    }

    /** The rest of ConfigureStream: overhead, encoder ranges, observer and config. */
    method UpdateAllocation(c: Config, rtpOverhead: nat)
      requires Bitrates.Positive(lengths) && Bitrates.PositiveChange(ChangeOf(codec, c, rtpOverhead))
      requires Bitrates.Configure(settings, Allocation(), ChangeOf(codec, c, rtpOverhead)).Some?
      modifies this`config, this`overhead, this`observer, this`registered, this`partOfAllocation, this`lengths, this`range
      ensures config == c && Bitrates.Positive(lengths)
      ensures Some(Allocation()) == Bitrates.Configure(settings, old(Allocation()), ChangeOf(codec, c, rtpOverhead))
    {
      UpdateOverheadPerPacket(rtpOverhead);
      if codec.encoder.Some? {
        lengths := codec.encoder.value.FrameLengthsUs();
        range := codec.encoder.value.BitrateRangeBps();
      }
      if sending {
        ReconfigureBitrateObserver(c);
      }
      config := c;
    }

    method RegisterExtensions(c: Config, first: bool)
      requires Headers.Configure(registry, first, settings.noFeedback, HeadersOf(config), HeadersOf(c)).Some?
      modifies this`registry
      ensures registry ==
              Headers.Configure(old(registry), first, settings.noFeedback, HeadersOf(config), HeadersOf(c)).value
    {
      var oldIds := Headers.FindExtensionIds(config.extensions);
      var newIds := Headers.FindExtensionIds(c.extensions);
      RegisterIds(first, Headers.Headers(oldIds, config.mid), Headers.Headers(newIds, c.mid));
    }

    method RegisterIds(first: bool, a: Headers.Headers, b: Headers.Headers)
      requires Headers.Configure(registry, first, settings.noFeedback, a, b).Some?
      modifies this`registry
      ensures registry == Headers.Configure(old(registry), first, settings.noFeedback, a, b).value
    {
      var oldIds, newIds := a.ids, b.ids;
      if first || newIds.audioLevel != oldIds.audioLevel {
        if newIds.audioLevel != 0 {
          registry := Headers.Register(registry, Headers.AudioLevel, newIds.audioLevel).value;
        } else {
          registry := Headers.Deregister(registry, Headers.AudioLevel);
        }
      }
      if first || newIds.absSendTime != oldIds.absSendTime {
        registry := Headers.Deregister(registry, Headers.AbsSendTime);
        if newIds.absSendTime != 0 {
          registry := Headers.Register(registry, Headers.AbsSendTime, newIds.absSendTime).value;
        }
      }
      var transportIdChanged := newIds.transportSequenceNumber != oldIds.transportSequenceNumber;
      if first || (transportIdChanged && !settings.noFeedback) {
        if !settings.noFeedback && newIds.transportSequenceNumber != 0 {
          registry := Headers.Register(registry, Headers.TransportSequenceNumber, newIds.transportSequenceNumber).value;
        }
      }
      if (first || newIds.mid != oldIds.mid || b.midValue != a.midValue) && newIds.mid != 0 && b.midValue != "" {
        registry := Headers.Register(registry, Headers.Mid, newIds.mid).value;
      }
      if first || newIds.absCaptureTime != oldIds.absCaptureTime {
        registry := Headers.Deregister(registry, Headers.AbsCaptureTime);
        if newIds.absCaptureTime != 0 {
          registry := Headers.Register(registry, Headers.AbsCaptureTime, newIds.absCaptureTime).value;
        }
      }
    }

    method StoreEncoderProperties(p: Props, d: Device)
      requires Valid()
      modifies this`props, audioState, audioState.transport
      ensures Valid() && props == p
      ensures audioState.View() == Reannounced(old(audioState.View()), self, sending, Some(p), d)
    {
      props := p;
      if sending {
        audioState.AddSendingStream(self, p, d);
      }
    }

    method SetupSendCodec(spec: Codecs.Spec, d: Device) returns (ok: bool)
      requires Valid()
      requires var e := Codecs.FreshEncoder(make, spec); e.Some? ==> e.value.CngOverMono()
      modifies this`codec, this`props, audioState, audioState.transport
      ensures Valid() && ok == Codecs.FreshEncoder(make, spec).Some?
      ensures codec == Codecs.SetupSendCodec(make, old(codec), spec)
      ensures props == if ok then PropsOf(codec.encoder.value) else old(props)
      ensures audioState.View() ==
              Reannounced(old(audioState.View()), self, sending, if ok then Some(props) else None, d)
    {
      var info := make(spec.payloadType, spec.format);
      if info.None? {
        return false;
      }
      var encoder := Codecs.Speech(spec.payloadType, spec.format, info.value);
      if spec.cng.Some? {
        encoder := Codecs.Cng(spec.cng.value, encoder);
      }
      if spec.red.Some? {
        encoder := Codecs.Red(spec.red.value, encoder);
      }
      StoreEncoderProperties(Props(encoder.SampleRateHz(), encoder.NumChannels()), d);
      codec := Codecs.Codec(Some(encoder), spec.targetBps);
      return true;
    }

    method ReconfigureSendCodec(c: Config, d: Device) returns (ok: bool)
      requires Valid() && !Codecs.Crashes(make, codec, RequestOf(config), RequestOf(c))
      modifies this`codec, this`props, audioState, audioState.transport
      ensures Valid() && codec == Codecs.Reconfigure(make, old(codec), RequestOf(config), RequestOf(c))
      ensures var p := Announced(make, config, c);
              && props == (if p.Some? then p.value else old(props))
              && audioState.View() == Reannounced(old(audioState.View()), self, sending, p, d)
    {
      if c.spec.None? {
        return true;
      }
      if c.spec == config.spec && c.ana == config.ana {
        return true;
      }
      var spec := c.spec.value;
      if config.spec.None? || spec.format != config.spec.value.format
         || spec.payloadType != config.spec.value.payloadType || spec.red != config.spec.value.red {
        ok := SetupSendCodec(spec, d);
        return;
      }
      if spec.targetBps.Some? && spec.targetBps != config.spec.value.targetBps {
        if codec.encoder.Some? {
          codec := codec.(targetBps := spec.targetBps);
        }
      }
      ReconfigureCng(spec);
      return true;
    }

    method ReconfigureCng(spec: Codecs.Spec)
      requires config.spec.Some?
      requires spec.cng != config.spec.value.cng ==>
                 codec.encoder.Some? && (spec.cng.Some? ==> codec.encoder.value.Unwrapped().NumChannels() == 1)
      modifies this`codec
      ensures codec == if spec.cng == config.spec.value.cng then old(codec)
                       else old(codec).(encoder := Some(Codecs.Rewrapped(old(codec).encoder.value, spec.cng)))
    {
      if spec.cng == config.spec.value.cng {
        return;
      }
      var encoder := codec.encoder.value.Unwrapped();
      if spec.cng.Some? {
        encoder := Codecs.Cng(spec.cng.value, encoder);
      }
      codec := codec.(encoder := Some(encoder));
    }

    /** What the allocator is told: at least the source's DCHECK is demanded. */
    method ConfigureBitrateObserver()
      requires Bitrates.Positive(lengths) && Bitrates.Entry(settings, Allocation()).Some?
      modifies this`observer, this`registered
      ensures Some(Allocation()) == Bitrates.Register(settings, old(Allocation()))
    {
      var c := Bitrates.Constraints(settings, config.minBps, config.maxBps, range, lengths, overhead);
      var priorityBps := settings.priorityBps;
      if settings.legacyOverhead {
        priorityBps := priorityBps + Bitrates.Rate(50, 20_000);
      } else {
        priorityBps := priorityBps + Bitrates.Rate(overhead, lengths.value.1);
      }
      if settings.rawPriorityBps.Some? {
        priorityBps := settings.rawPriorityBps.value;
      }
      if !settings.enablePriority {
        priorityBps := 0;
      }
      var priority := if settings.ratePriority.Some? then settings.ratePriority.value else config.priority;
      observer := Some(Bitrates.Observer(c.value.min, c.value.max, priorityBps, priority));
      registered := true;
    }

    method RemoveBitrateObserver()
      modifies this`observer, this`registered
      ensures Allocation() == Bitrates.Unregister(old(Allocation()))
    {
      registered := false;
      observer := None;
    }

    /** Whether ReconfigureBitrateObserver sees nothing to do, and the new transport id. */
    method CompareLimits(c: Config) returns (same: bool, transportId: int)
      ensures same == Bitrates.SameLimits(LimitsOf(config), LimitsOf(c)) && transportId == LimitsOf(c).transportId
    {
      var oldIds := Headers.FindExtensionIds(config.extensions);
      var newIds := Headers.FindExtensionIds(c.extensions);
      transportId := newIds.transportSequenceNumber;
      same := config.minBps == c.minBps && config.maxBps == c.maxBps && config.priority == c.priority
              && oldIds.transportSequenceNumber == transportId && config.ana == c.ana;
    }

    method ReconfigureBitrateObserver(c: Config)
      requires Bitrates.Positive(lengths) && Bitrates.ChangeObserver(settings, Allocation(), LimitsOf(c)).Some?
      modifies this`config, this`observer, this`registered, this`partOfAllocation
      ensures Some(Allocation()) == Bitrates.ChangeObserver(settings, old(Allocation()), LimitsOf(c))
    {
      var same, transportId := CompareLimits(c);
      if same {
        return;
      }
      if !c.hasDscp && c.minBps != -1 && c.maxBps != -1 && transportId != 0 {
        config := config.(minBps := c.minBps, maxBps := c.maxBps, priority := c.priority);
        ConfigureBitrateObserver();
        partOfAllocation := true;
      } else {
        RemoveBitrateObserver();
        partOfAllocation := false;
      }
    }

    method UpdateOverheadPerPacket(rtpOverhead: nat)
      requires Bitrates.Positive(lengths) && Bitrates.UpdateOverhead(settings, Allocation(), rtpOverhead).Some?
      modifies this`overhead, this`observer, this`registered
      ensures Some(Allocation()) == Bitrates.UpdateOverhead(settings, old(Allocation()), rtpOverhead)
    {
      var total := transportOverhead + rtpOverhead;
      if overhead == total {
        return;
      }
      overhead := total;
      if registered {
        ConfigureBitrateObserver();
      }
    }

    method SetTransportOverhead(bytes: nat, rtpOverhead: nat)
      requires Bitrates.Positive(lengths)
      requires Bitrates.SetTransportOverhead(settings, Allocation(), bytes, rtpOverhead).Some?
      modifies this`transportOverhead, this`overhead, this`observer, this`registered
      ensures Some(Allocation()) == Bitrates.SetTransportOverhead(settings, old(Allocation()), bytes, rtpOverhead)
    {
      transportOverhead := bytes;
      UpdateOverheadPerPacket(rtpOverhead);
    }

    /** DeliverRtcp, by the overhead that the RTP module expects afterwards. */
    method DeliverRtcp(rtpOverhead: nat)
      requires Bitrates.Positive(lengths) && Bitrates.UpdateOverhead(settings, Allocation(), rtpOverhead).Some?
      modifies this`overhead, this`observer, this`registered
      ensures Some(Allocation()) == Bitrates.UpdateOverhead(settings, old(Allocation()), rtpOverhead)
    {
      UpdateOverheadPerPacket(rtpOverhead);
    }

    /** The update that reaches the channel's encoder. */
    method OnBitrateUpdated(u: Bitrates.Update) returns (forwarded: Bitrates.Update)
      requires Bitrates.Ordered(lengths)
      ensures var c := Bitrates.Constraints(settings, config.minBps, config.maxBps, range, lengths, overhead);
              if c.None? then forwarded == u
              else && Bitrates.Within(forwarded.targetBps, c.value)
                   && Bitrates.Within(forwarded.stableTargetBps, c.value)
                   && (Bitrates.Within(u.targetBps, c.value) ==> forwarded.targetBps == u.targetBps)
                   && (Bitrates.Within(u.stableTargetBps, c.value) ==> forwarded.stableTargetBps == u.stableTargetBps)
    {
      forwarded := u;
      var c := Bitrates.Constraints(settings, config.minBps, config.maxBps, range, lengths, overhead);
      if c.Some? {
        forwarded := Bitrates.Update(Bitrates.Clamped(u.targetBps, c.value), Bitrates.Clamped(u.stableTargetBps, c.value));
      }
      Bitrates.ForwardedLiesWithin(settings, config.minBps, config.maxBps, range, lengths, overhead, u);
    }

    /** Start's decision whether this stream takes part in bitrate allocation. */
    method JoinAllocation()
      requires !sending && Bitrates.Positive(lengths) && Bitrates.Start(settings, Allocation()).Some?
      modifies this`observer, this`registered, this`partOfAllocation
      ensures Some(Allocation().(sending := true)) == Bitrates.Start(settings, old(Allocation()))
    {
      var ids := Headers.FindExtensionIds(config.extensions);
      if !config.hasDscp && config.minBps != -1 && config.maxBps != -1
         && (settings.noFeedback || ids.transportSequenceNumber != 0) {
        partOfAllocation := true;
        ConfigureBitrateObserver();
      } else {
        partOfAllocation := false;
      }
    }

    method Start(d: Device)
      requires Valid() && Bitrates.Start(settings, Allocation()).Some?
      modifies this, audioState, audioState.transport
      ensures Valid() && sending
      ensures View() == old(View()).(allocation := Bitrates.Start(settings, old(Allocation())).value)
      ensures audioState.View() == if old(sending) then old(audioState.View())
                                   else AddSending(old(audioState.View()), self, props, d)
    {
      if sending {
        return;
      }
      JoinAllocation();
      sending := true;
      audioState.AddSendingStream(self, props, d);
    }

    method Stop()
      requires Valid()
      modifies this, audioState, audioState.transport
      ensures Valid() && !sending
      ensures View() == old(View()).(allocation := Bitrates.Stop(old(Allocation())))
      ensures audioState.View() == if old(sending) then RemoveSending(old(audioState.View()), self)
                                   else old(audioState.View())
    {
      if !sending {
        return;
      }
      RemoveBitrateObserver();
      sending := false;
      audioState.RemoveSendingStream(self);
    }
  }
}
