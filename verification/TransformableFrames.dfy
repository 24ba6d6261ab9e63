/** The frames that a frame transformer sees: the two implementations of
    TransformableAudioFrameInterface in audio/channel_receive_frame_transformer_delegate.cc
    and audio/channel_send_frame_transformer_delegate.cc. */
module TransformableFrames {
  import opened Common

  datatype AudioFrameType = EmptyFrame | AudioFrameSpeech | AudioFrameCN

  datatype IfaceFrameType = IfaceEmpty | IfaceSpeech | IfaceCN

  datatype RtpHeader = RtpHeader(
    payloadType: int, timestamp: int, ssrc: int, sequenceNumber: nat, csrcs: seq<int>,
    voiceActivity: bool, captureTimestamp: Option<int>)

  /** A default-constructed RTPHeader. */
  const EMPTY_HEADER := RtpHeader(0, 0, 0, 0, [], false, None)

  function ToInterface(t: AudioFrameType): IfaceFrameType {
    match t
    case EmptyFrame => IfaceEmpty
    case AudioFrameSpeech => IfaceSpeech
    case AudioFrameCN => IfaceCN
  }

  function ToInternal(t: IfaceFrameType): AudioFrameType {
    match t
    case IfaceEmpty => EmptyFrame
    case IfaceSpeech => AudioFrameSpeech
    case IfaceCN => AudioFrameCN
  }

  datatype Frame =
    | Incoming(payload: seq<int>, header: RtpHeader, frameSsrc: int, mimeType: string)
    | Outgoing(frameType: AudioFrameType, payloadType: int, timestamp: int, payload: seq<int>,
               captureMs: Option<int>, frameSsrc: int, csrcs: seq<int>, mimeType: string,
               sequenceNumber: Option<nat>)
  {
    predicate FromSender() { Outgoing? }

    function Type(): IfaceFrameType {
      match this
      case Incoming(_, h, _, _) => if h.voiceActivity then IfaceSpeech else IfaceCN
      case Outgoing(t, _, _, _, _, _, _, _, _) => ToInterface(t)
    }

    function PayloadType(): int { if Incoming? then header.payloadType else payloadType }

    function Timestamp(): int { if Incoming? then header.timestamp else timestamp }

    function ContributingSources(): seq<int> { if Incoming? then header.csrcs else csrcs }

    function SequenceNumber(): Option<nat> { if Incoming? then Some(header.sequenceNumber) else sequenceNumber }

    /** Not extracted from received headers. */
    function AbsoluteCaptureTimestamp(): Option<int> { if Incoming? then None else captureMs }
  }

  /** CloneSenderAudioFrame, which also accepts frames of the receive side. */
  function Clone(f: Frame): Frame {
    Outgoing(ToInternal(f.Type()), f.PayloadType(), f.Timestamp(), f.payload, f.AbsoluteCaptureTimestamp(),
             f.frameSsrc, f.ContributingSources(), f.mimeType, f.SequenceNumber())
  }

  /** A clone answers every getter as the original does, and differs from an
      original only in its direction. */
  lemma ClonePreservesFrame(f: Frame)
    ensures var c := Clone(f);
            && c.FromSender()
            && c.Type() == f.Type() && c.PayloadType() == f.PayloadType() && c.Timestamp() == f.Timestamp()
            && c.payload == f.payload && c.frameSsrc == f.frameSsrc && c.mimeType == f.mimeType
            && c.ContributingSources() == f.ContributingSources()
            && c.SequenceNumber() == f.SequenceNumber()
            && c.AbsoluteCaptureTimestamp() == f.AbsoluteCaptureTimestamp()
    ensures Clone(f) == f <==> f.FromSender()
  {
    match f.Type()
    case IfaceEmpty =>
    case IfaceSpeech =>
    case IfaceCN =>
  }

  /** A clone of a received frame, field by field. */
  lemma CloneOfIncoming(f: Frame)
    requires f.Incoming?
    ensures Clone(f) == Outgoing(if f.header.voiceActivity then AudioFrameSpeech else AudioFrameCN,
                                 f.header.payloadType, f.header.timestamp, f.payload, None, f.frameSsrc,
                                 f.header.csrcs, f.mimeType, Some(f.header.sequenceNumber))
  {
  }
}
