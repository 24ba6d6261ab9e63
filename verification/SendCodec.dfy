/** The send codec part of audio/audio_send_stream.cc: the stack of encoder
    wrappers that SetupSendCodec builds and ReconfigureSendCodec edits in place. */
module SendCodec {
  import opened Common

  /** SdpAudioFormat; names are compared without case there, so they are taken as
      case-folded here. */
  datatype Format = Format(name: string, clockrateHz: int, numChannels: int, parameters: map<string, string>)

  /** The nack, transport-cc and rtt flags only take part in the comparison. */
  datatype Spec = Spec(
    payloadType: int, format: Format, flags: (bool, bool, bool),
    cng: Option<int>, red: Option<int>, targetBps: Option<int>)

  /** What the factory's encoder says about itself. */
  datatype SpeechInfo = SpeechInfo(
    sampleRateHz: int, numChannels: int, frameLengthsUs: Option<(int, int)>, bitrateRangeBps: Option<(nat, nat)>)

  datatype Encoder =
    | Speech(payloadType: int, format: Format, info: SpeechInfo)
    | Cng(cngPayloadType: int, inner: Encoder)
    | Red(redPayloadType: int, inner: Encoder)
  {
    function SampleRateHz(): int { if Speech? then info.sampleRateHz else inner.SampleRateHz() }

    /** Comfort noise is mono; redundancy passes its encoder's answer on. */
    function NumChannels(): int {
      match this
      case Speech(_, _, i) => i.numChannels
      case Cng(_, _) => 1
      case Red(_, e) => e.NumChannels()
    }

    function FrameLengthsUs(): Option<(int, int)> { if Speech? then info.frameLengthsUs else inner.FrameLengthsUs() }

    /** The wrappers do not forward GetBitrateRange. */
    function BitrateRangeBps(): Option<(nat, nat)> { if Speech? then info.bitrateRangeBps else None }

    /** What the comfort noise encoder checks when it is built. */
    predicate CngOverMono() { Speech? || ((Cng? ==> inner.NumChannels() == 1) && inner.CngOverMono()) }

    predicate HasRed() { Red? || (Cng? && inner.HasRed()) }

    /** ReclaimContainedEncoders: the encoder without its outermost wrapper. */
    function Unwrapped(): Encoder { if Speech? then this else inner }
  }

  /** MakeAudioEncoder, which may fail. */
  type Factory = (int, Format) -> Option<SpeechInfo>

  function WrapCng(e: Encoder, cng: Option<int>): Encoder { if cng.Some? then Cng(cng.value, e) else e }

  function WrapRed(e: Encoder, red: Option<int>): Encoder { if red.Some? then Red(red.value, e) else e }

  /** The stack that setting up `spec` from scratch builds. */
  function FreshEncoder(make: Factory, spec: Spec): Option<Encoder> {
    var info := make(spec.payloadType, spec.format);
    if info.None? then None
    else Some(WrapRed(WrapCng(Speech(spec.payloadType, spec.format, info.value), spec.cng), spec.red))
  }

  /** Redundancy is outside comfort noise, which is outside the speech encoder; rate and
      frame lengths are the speech encoder's, comfort noise makes one channel, and a
      wrapped encoder has no bitrate range of its own. */
  lemma FreshStack(make: Factory, spec: Spec, info: SpeechInfo)
    requires make(spec.payloadType, spec.format) == Some(info)
    ensures var speech := Speech(spec.payloadType, spec.format, info);
            FreshEncoder(make, spec) == Some(
              match (spec.cng, spec.red)
              case (None, None) => speech
              case (Some(c), None) => Cng(c, speech)
              case (None, Some(r)) => Red(r, speech)
              case (Some(c), Some(r)) => Red(r, Cng(c, speech)))
    ensures var e := FreshEncoder(make, spec).value;
            && e.SampleRateHz() == info.sampleRateHz && e.FrameLengthsUs() == info.frameLengthsUs
            && e.NumChannels() == (if spec.cng.Some? then 1 else info.numChannels)
            && e.BitrateRangeBps() == (if spec.cng.None? && spec.red.None? then info.bitrateRangeBps else None)
  {
    var noisy := WrapCng(Speech(spec.payloadType, spec.format, info), spec.cng);
    assert noisy.SampleRateHz() == info.sampleRateHz && noisy.FrameLengthsUs() == info.frameLengthsUs
        && noisy.NumChannels() == (if spec.cng.Some? then 1 else info.numChannels);
  }

  /** The channel's encoder and the bitrate that was last pushed to it. */
  datatype Codec = Codec(encoder: Option<Encoder>, targetBps: Option<int>)

  const NO_CODEC := Codec(None, None)

  /** The part of a stream's config that the codec depends on. */
  datatype Request = Request(spec: Option<Spec>, ana: Option<string>)

  const NO_REQUEST := Request(None, None)

  /** Setting up a codec leaves everything as it was when no encoder can be made. */
  function SetupSendCodec(make: Factory, c: Codec, spec: Spec): Codec {
    var e := FreshEncoder(make, spec);
    if e.None? then c else Codec(e, spec.targetBps)
  }

  /** Nothing the encoder depends on has changed. */
  predicate Unchanged(before: Request, after: Request) { after.spec == before.spec && after.ana == before.ana }

  /** The change calls for a new encoder. */
  predicate NeedsNewEncoder(before: Request, after: Request)
    requires after.spec.Some?
  {
    before.spec.None?
    || after.spec.value.format != before.spec.value.format
    || after.spec.value.payloadType != before.spec.value.payloadType
    || after.spec.value.red != before.spec.value.red
  }

  /** Remove one wrapper, whatever it is, and put comfort noise on if wanted. */
  function Rewrapped(e: Encoder, cng: Option<int>): Encoder { WrapCng(e.Unwrapped(), cng) }

  /** ReconfigureCNG dereferences the encoder it is about to rewrap, and comfort
      noise cannot be put on an encoder that is not mono. */
  predicate Crashes(make: Factory, c: Codec, before: Request, after: Request) {
    && after.spec.Some? && !Unchanged(before, after)
    && var spec := after.spec.value;
       if NeedsNewEncoder(before, after)
       then FreshEncoder(make, spec).Some? && !FreshEncoder(make, spec).value.CngOverMono()
       else spec.cng != before.spec.value.cng
            && (c.encoder.None? || (spec.cng.Some? && c.encoder.value.Unwrapped().NumChannels() != 1))
  }

  function Reconfigure(make: Factory, c: Codec, before: Request, after: Request): Codec
    requires !Crashes(make, c, before, after)
  {
    if after.spec.None? || Unchanged(before, after) then c
    else
      var spec := after.spec.value;
      if NeedsNewEncoder(before, after) then SetupSendCodec(make, c, spec)
      else
        var target :=
          if spec.targetBps.Some? && spec.targetBps != before.spec.value.targetBps && c.encoder.Some?
          then spec.targetBps else c.targetBps;
        if spec.cng == before.spec.value.cng then Codec(c.encoder, target)
        else Codec(Some(Rewrapped(c.encoder.value, spec.cng)), target)
  }

  // ------------------------------------------------ incremental equals fresh

  /** The request names a codec that can be made, mono if comfort noise is wanted. */
  ghost predicate Makeable(make: Factory, r: Request) {
    && r.spec.Some? && FreshEncoder(make, r.spec.value).Some?
    && (r.spec.value.cng.Some? ==> make(r.spec.value.payloadType, r.spec.value.format).value.numChannels == 1)
  }

  lemma MakeableIsMono(make: Factory, r: Request)
    requires Makeable(make, r)
    ensures FreshEncoder(make, r.spec.value).value.CngOverMono()
  {
    var spec := r.spec.value;
    var speech := Speech(spec.payloadType, spec.format, make(spec.payloadType, spec.format).value);
    assert WrapCng(speech, spec.cng).CngOverMono();
  }

  /** The encoder is the one that a first-time setup of the request would build. */
  ghost predicate IsFresh(make: Factory, c: Codec, r: Request) {
    Makeable(make, r) && c.encoder == FreshEncoder(make, r.spec.value)
  }

  /** Editing in place goes wrong exactly when comfort noise changes under RED. */
  predicate LosesRed(before: Request, after: Request) {
    && before.spec.Some? && after.spec.Some? && !NeedsNewEncoder(before, after)
    && after.spec.value.cng != before.spec.value.cng && after.spec.value.red.Some?
  }

  /** One reconfiguration from a fresh stack gives the fresh stack of the new
      request if and only if it does not change comfort noise under RED. */
  lemma ReconfigureIsFreshUnlessRed(make: Factory, c: Codec, before: Request, after: Request)
    requires IsFresh(make, c, before) && Makeable(make, after)
    ensures !Crashes(make, c, before, after)
    ensures IsFresh(make, Reconfigure(make, c, before, after), after) <==> !LosesRed(before, after)
  {
    var prior, spec := before.spec.value, after.spec.value;
    MakeableIsMono(make, after);
    if !Unchanged(before, after) && !NeedsNewEncoder(before, after) {
      var speech := Speech(prior.payloadType, prior.format, make(prior.payloadType, prior.format).value);
      assert c.encoder == Some(WrapRed(WrapCng(speech, prior.cng), prior.red));
      assert FreshEncoder(make, spec) == Some(WrapRed(WrapCng(speech, spec.cng), spec.red));
    }
  }

  /** A stream with RED loses it when comfort noise is switched on. */
  lemma RedIsLost(make: Factory, pt: int, f: Format, info: SpeechInfo, red: int, cng: int)
    requires make(pt, f) == Some(info) && info.numChannels == 1
    ensures var before := Request(Some(Spec(pt, f, (false, false, false), None, Some(red), None)), None);
            var after := Request(Some(before.spec.value.(cng := Some(cng))), None);
            var c := SetupSendCodec(make, NO_CODEC, before.spec.value);
            && c.encoder == Some(Red(red, Speech(pt, f, info)))
            && Reconfigure(make, c, before, after).encoder == Some(Cng(cng, Speech(pt, f, info)))
  {
  }

  // ------------------------------------------------ sequences of requests

  /** The codec and the request in force after the requests, from a new stream. */
  function Apply(make: Factory, rs: seq<Request>): Option<Codec>
    decreases |rs|
  {
    if rs == [] then Some(NO_CODEC)
    else
      var c := Apply(make, rs[..|rs| - 1]);
      if c.None? || Crashes(make, c.value, Current(rs[..|rs| - 1]), rs[|rs| - 1]) then None
      else Some(Reconfigure(make, c.value, Current(rs[..|rs| - 1]), rs[|rs| - 1]))
  }

  function Current(rs: seq<Request>): Request { if rs == [] then NO_REQUEST else rs[|rs| - 1] }

  /** The last request that names a codec; without one, no request at all. */
  ghost function LastNamed(rs: seq<Request>): Request
    decreases |rs|
  {
    if rs == [] then NO_REQUEST
    else if rs[|rs| - 1].spec.Some? then rs[|rs| - 1]
    else LastNamed(rs[..|rs| - 1])
  }

  /** Every codec that is named can be made.  Requests may name no codec: before the
      first one is known, or after one was. */
  ghost predicate AllMakeable(make: Factory, rs: seq<Request>) {
    forall i | 0 <= i < |rs| :: rs[i].spec.Some? ==> Makeable(make, rs[i])
  }

  /** Comfort noise was changed under RED since the last encoder was called for. */
  ghost predicate RedLost(rs: seq<Request>)
    decreases |rs|
  {
    rs != [] &&
    var before, r := rs[..|rs| - 1], rs[|rs| - 1];
    if r.spec.Some? && NeedsNewEncoder(Current(before), r) then false
    else LosesRed(Current(before), r) || RedLost(before)
  }

  /** The bitrate that was named last since an encoder was last called for. */
  ghost function TargetNamed(rs: seq<Request>): Option<int>
    decreases |rs|
  {
    if rs == [] then None
    else
      var before, r := rs[..|rs| - 1], rs[|rs| - 1];
      if r.spec.None? then TargetNamed(before)
      else if NeedsNewEncoder(Current(before), r) || r.spec.value.targetBps.Some? then r.spec.value.targetBps
      else TargetNamed(before)
  }

  /** What the requests so far say about the codec, as long as encoders can be made. */
  ghost predicate Accounts(make: Factory, rs: seq<Request>, c: Codec) {
    var r := LastNamed(rs);
    if r.spec.None? then c == NO_CODEC && !RedLost(rs)
    else
      && Makeable(make, r)
      && c.encoder.Some? && !c.encoder.value.Unwrapped().HasRed() && c.encoder.value.CngOverMono()
      && c.encoder.value.NumChannels() == make(r.spec.value.payloadType, r.spec.value.format).value.numChannels
      && c.encoder.value.FrameLengthsUs() == make(r.spec.value.payloadType, r.spec.value.format).value.frameLengthsUs
      && (if RedLost(rs) then r.spec.value.red.Some? && !c.encoder.value.HasRed() else IsFresh(make, c, r))
      && c.targetBps == TargetNamed(rs) && (r.spec.value.targetBps.Some? ==> c.targetBps == r.spec.value.targetBps)
  }

  lemma RewrappedHasNoRed(e: Encoder, cng: Option<int>)
    requires !e.Unwrapped().HasRed()
    ensures !Rewrapped(e, cng).HasRed() && !Rewrapped(e, cng).Unwrapped().HasRed()
    ensures Rewrapped(e, cng).FrameLengthsUs() == e.FrameLengthsUs()
  {
    assert e.Unwrapped().FrameLengthsUs() == e.FrameLengthsUs();
  }

  lemma FreshRedIsOutermost(make: Factory, spec: Spec)
    requires FreshEncoder(make, spec).Some?
    ensures var e := FreshEncoder(make, spec).value;
            && !e.Unwrapped().HasRed() && (e.HasRed() <==> spec.red.Some?)
            && e.FrameLengthsUs() == make(spec.payloadType, spec.format).value.frameLengthsUs
  {
    var speech := Speech(spec.payloadType, spec.format, make(spec.payloadType, spec.format).value);
    var noisy := WrapCng(speech, spec.cng);
    assert !noisy.HasRed() && noisy.FrameLengthsUs() == speech.info.frameLengthsUs;
  }

  /** A new encoder. */
  lemma BuildAccounts(make: Factory, before: seq<Request>, c: Codec, r: Request)
    requires Makeable(make, r) && NeedsNewEncoder(Current(before), r)
    ensures !Crashes(make, c, Current(before), r)
    ensures Accounts(make, before + [r], Reconfigure(make, c, Current(before), r))
  {
    assert (before + [r])[..|before|] == before;
    MakeableIsMono(make, r);
    FreshRedIsOutermost(make, r.spec.value);
    FreshChannels(make, r.spec.value);
  }

  /** An edit in place. */
  lemma EditAccounts(make: Factory, before: seq<Request>, c: Codec, r: Request)
    requires Accounts(make, before, c) && Makeable(make, r)
    requires Current(before).spec.Some? && !NeedsNewEncoder(Current(before), r)
    ensures !Crashes(make, c, Current(before), r)
    ensures Accounts(make, before + [r], Reconfigure(make, c, Current(before), r))
  {
    assert (before + [r])[..|before|] == before && Current(before) == LastNamed(before);
    UnwrappedChannels(c.encoder.value);
    assert !Crashes(make, c, Current(before), r);
    OnlyNewEncodersChangeProps(make, c, Current(before), r);
    if r.spec.value.cng != Current(before).spec.value.cng {
      RewrappedHasNoRed(c.encoder.value, r.spec.value.cng);
    }
    if !RedLost(before) {
      ReconfigureIsFreshUnlessRed(make, c, Current(before), r);
    }
  }

  lemma {:induction false} EveryCodecIsAccounted(make: Factory, rs: seq<Request>)
    requires AllMakeable(make, rs)
    ensures Apply(make, rs).Some? && Accounts(make, rs, Apply(make, rs).value)
    decreases |rs|
  {
    if rs != [] {
      var before, r := rs[..|rs| - 1], rs[|rs| - 1];
      assert rs == before + [r];
      EveryCodecIsAccounted(make, before);
      var c := Apply(make, before).value;
      if r.spec.Some? {
        if NeedsNewEncoder(Current(before), r) {
          BuildAccounts(make, before, c, r);
        } else {
          EditAccounts(make, before, c, r);
        }
      }
    }
  }

  /** After any sequence of requests whose codecs can be made, the wrapper stack is what
      setting up the last codec named from scratch would give if and only if comfort
      noise was not changed under RED since an encoder was last called for; the bitrate
      in force is the one it names if and only if it names one or none was named since
      then; there is no encoder iff no codec was ever named. */
  lemma IncrementalEqualsFresh(make: Factory, rs: seq<Request>)
    requires AllMakeable(make, rs)
    ensures Apply(make, rs).Some?
    ensures var c, r := Apply(make, rs).value, LastNamed(rs);
            && (c.encoder.None? <==> r.spec.None?)
            && (r.spec.None? ==> c == NO_CODEC)
            && (r.spec.Some? ==>
                  && FreshEncoder(make, r.spec.value).Some?
                  && c.encoder.value.FrameLengthsUs() == FreshEncoder(make, r.spec.value).value.FrameLengthsUs()
                  && (IsFresh(make, c, r) <==> !RedLost(rs))
                  && (c.targetBps == r.spec.value.targetBps <==>
                      r.spec.value.targetBps.Some? || TargetNamed(rs).None?))
  {
    EveryCodecIsAccounted(make, rs);
    if LastNamed(rs).spec.Some? {
      FreshRedIsOutermost(make, LastNamed(rs).spec.value);
    }
  }

  /** A codec cannot be taken back: a request that names none is as a new stream's
      request would be iff none was ever named. */
  lemma CodecIsNotWithdrawn(make: Factory, rs: seq<Request>)
    requires rs != [] && AllMakeable(make, rs) && rs[|rs| - 1].spec.None?
    ensures Apply(make, rs).Some? && Apply(make, [rs[|rs| - 1]]).Some?
    ensures Apply(make, rs).value.encoder == Apply(make, [rs[|rs| - 1]]).value.encoder <==> LastNamed(rs).spec.None?
  {
    IncrementalEqualsFresh(make, rs);
    assert [rs[|rs| - 1]][..0] == [];
  }

  /** Without RED, nothing can be lost. */
  lemma {:induction false} WithoutRedNothingIsLost(rs: seq<Request>)
    requires forall i | 0 <= i < |rs| :: rs[i].spec.Some? ==> rs[i].spec.value.red.None?
    ensures !RedLost(rs)
    decreases |rs|
  {
    if rs != [] {
      WithoutRedNothingIsLost(rs[..|rs| - 1]);
    }
  }

  // ------------------------------------------------ when a request crashes

  /** The request calls for a new encoder, and it can be made. */
  ghost predicate Builds(make: Factory, before: Request, after: Request) {
    && after.spec.Some? && NeedsNewEncoder(before, after)
    && make(after.spec.value.payloadType, after.spec.value.format).Some?
  }

  /** The encoder that the factory made last, as the requests tell. */
  ghost function LastBuilt(make: Factory, rs: seq<Request>): Option<SpeechInfo>
    decreases |rs|
  {
    if rs == [] then None
    else
      var before, r := rs[..|rs| - 1], rs[|rs| - 1];
      if Builds(make, Current(before), r) then make(r.spec.value.payloadType, r.spec.value.format)
      else LastBuilt(make, before)
  }

  /** The request changes comfort noise and nothing that calls for a new encoder. */
  predicate ChangesNoiseInPlace(before: Request, after: Request) {
    && before.spec.Some? && after.spec.Some? && !NeedsNewEncoder(before, after)
    && after.spec.value.cng != before.spec.value.cng
  }

  /** What the requests so far say about the channel's encoder. */
  ghost predicate Tracks(make: Factory, rs: seq<Request>, c: Codec) {
    var built := LastBuilt(make, rs);
    && (c.encoder.Some? <==> built.Some?)
    && (built.Some? ==> c.encoder.value.CngOverMono() && c.encoder.value.NumChannels() == built.value.numChannels)
  }

  lemma UnwrappedChannels(e: Encoder)
    requires e.CngOverMono()
    ensures e.Unwrapped().NumChannels() == e.NumChannels()
  {
  }

  lemma FreshChannels(make: Factory, spec: Spec)
    requires FreshEncoder(make, spec).Some?
    ensures var e, i := FreshEncoder(make, spec).value, make(spec.payloadType, spec.format).value;
            && (e.CngOverMono() <==> spec.cng.None? || i.numChannels == 1)
            && (e.CngOverMono() ==> e.NumChannels() == i.numChannels)
  {
    var i := make(spec.payloadType, spec.format).value;
    var noisy := WrapCng(Speech(spec.payloadType, spec.format, i), spec.cng);
    assert noisy.CngOverMono() <==> spec.cng.None? || i.numChannels == 1;
    assert noisy.CngOverMono() ==> noisy.NumChannels() == i.numChannels;
  }

  lemma {:induction false} EveryCodecIsTracked(make: Factory, rs: seq<Request>)
    requires Apply(make, rs).Some?
    ensures Tracks(make, rs, Apply(make, rs).value)
    decreases |rs|
  {
    if rs != [] {
      var before, r := rs[..|rs| - 1], rs[|rs| - 1];
      EveryCodecIsTracked(make, before);
      OnlyNewEncodersChangeProps(make, Apply(make, before).value, Current(before), r);
      if Builds(make, Current(before), r) {
        FreshChannels(make, r.spec.value);
      }
    }
  }

  /** After any requests, the next one crashes if and only if it changes comfort
      noise in place when no encoder was ever built, or puts comfort noise on an
      encoder that is not mono, the last one built or a new one. */
  lemma CrashesExactlyWhen(make: Factory, rs: seq<Request>, r: Request)
    requires Apply(make, rs).Some?
    ensures Apply(make, rs + [r]).None? <==>
            var built := LastBuilt(make, rs);
            || (ChangesNoiseInPlace(Current(rs), r)
                && (built.None? || (r.spec.value.cng.Some? && built.value.numChannels != 1)))
            || (Builds(make, Current(rs), r) && r.spec.value.cng.Some?
                && make(r.spec.value.payloadType, r.spec.value.format).value.numChannels != 1)
  {
    EveryCodecIsTracked(make, rs);
    var c := Apply(make, rs).value;
    assert (rs + [r])[..|rs|] == rs;
    if c.encoder.Some? {
      UnwrappedChannels(c.encoder.value);
    }
    if Builds(make, Current(rs), r) {
      FreshChannels(make, r.spec.value);
    }
  }

  /** After a setup that failed, a request that only changes comfort noise calls
      through a null encoder. */
  lemma FailedSetupThenCngChangeCrashes(make: Factory, first: Request, cng: Option<int>)
    requires first.spec.Some? && make(first.spec.value.payloadType, first.spec.value.format).None?
    requires cng != first.spec.value.cng
    ensures Apply(make, [first]).Some?
    ensures Apply(make, [first, first.(spec := Some(first.spec.value.(cng := cng)))]).None?
  {
    var next := first.(spec := Some(first.spec.value.(cng := cng)));
    assert [first][..0] == [] && [first] + [next] == [first, next];
    assert Apply(make, [first]) == Some(NO_CODEC);
    CrashesExactlyWhen(make, [first], next);
  }

  // ------------------------------------------------ the pushed bitrate

  /** The pushed bitrate is the fresh one unless a bitrate was named for this
      encoder before and the new request names none. */
  lemma TargetIsFreshUnlessWithdrawn(make: Factory, c: Codec, before: Request, after: Request)
    requires IsFresh(make, c, before) && Makeable(make, after)
    requires before.spec.value.targetBps.Some? ==> c.targetBps == before.spec.value.targetBps
    ensures !Crashes(make, c, before, after)
    ensures Reconfigure(make, c, before, after).targetBps == after.spec.value.targetBps <==>
            || NeedsNewEncoder(before, after)
            || after.spec.value.targetBps.Some?
            || c.targetBps.None?
  {
    ReconfigureIsFreshUnlessRed(make, c, before, after);
  }

  /** A bitrate that was named once stays in force when it is no longer named. */
  lemma WithdrawnTargetStays(make: Factory, first: Request, bps: int)
    requires Makeable(make, first) && first.spec.value.targetBps == Some(bps)
    ensures var next := first.(spec := Some(first.spec.value.(targetBps := None)));
            && Apply(make, [first, next]).Some? && Apply(make, [first, next]).value.targetBps == Some(bps)
            && Apply(make, [next]).Some? && Apply(make, [next]).value.targetBps == None
  {
    var next := first.(spec := Some(first.spec.value.(targetBps := None)));
    MakeableIsMono(make, first);
    assert FreshEncoder(make, next.spec.value) == FreshEncoder(make, first.spec.value);
    assert [first][..0] == [] && [next][..0] == [] && [first, next][..1] == [first];
    assert Apply(make, [first]) == Some(Codec(FreshEncoder(make, first.spec.value), Some(bps)));
  }

  // ------------------------------------------------ announced properties

  lemma UnwrappedKeepsProps(e: Encoder, cng: Option<int>)
    requires e.CngOverMono() && (cng.Some? ==> e.Unwrapped().NumChannels() == 1)
    ensures Rewrapped(e, cng).CngOverMono()
    ensures Rewrapped(e, cng).SampleRateHz() == e.SampleRateHz()
    ensures Rewrapped(e, cng).NumChannels() == e.NumChannels()
  {
    var inner := e.Unwrapped();
    assert inner.CngOverMono() && inner.SampleRateHz() == e.SampleRateHz() && inner.NumChannels() == e.NumChannels();
  }

  /** The stream announces an encoder's rate and channel count only when it builds
      a new one.  That is enough: editing in place, even when it loses RED, leaves
      both as they were. */
  lemma OnlyNewEncodersChangeProps(make: Factory, c: Codec, before: Request, after: Request)
    requires !Crashes(make, c, before, after) && (c.encoder.Some? ==> c.encoder.value.CngOverMono())
    ensures var e := Reconfigure(make, c, before, after).encoder;
            && (e.Some? ==> e.value.CngOverMono())
            && (after.spec.None? || Unchanged(before, after) || !NeedsNewEncoder(before, after)
                || FreshEncoder(make, after.spec.value).None? ==>
                  && e.Some? == c.encoder.Some?
                  && (e.Some? ==> e.value.SampleRateHz() == c.encoder.value.SampleRateHz()
                                  && e.value.NumChannels() == c.encoder.value.NumChannels()))
  {
    if after.spec.Some? && !Unchanged(before, after) && !NeedsNewEncoder(before, after)
       && after.spec.value.cng != before.spec.value.cng {
      UnwrappedKeepsProps(c.encoder.value, after.spec.value.cng);
    }
  }
}
