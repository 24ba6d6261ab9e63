/** The capture side of audio/audio_transport_impl.cc: choosing the processing
    rate and handing each processed frame to every sender. */
module AudioTransport {
  import opened Common

  /** The address of a send stream. */
  type StreamId = int

  /** A captured frame; `content` stands for its samples after remixing and
      processing, which are not part of this model. */
  datatype AudioFrame = AudioFrame(sampleRateHz: int, numChannels: int, content: seq<int>)

  datatype Delivery = Delivery(sender: StreamId, frame: AudioFrame)

  /** AudioProcessing::kNativeSampleRatesHz. */
  const NATIVE_SAMPLE_RATES: seq<int> := [8000, 16000, 32000, 48000]

  ghost predicate Ascending(rates: seq<int>) {
    rates != [] && forall i, j | 0 <= i < j < |rates| :: rates[i] < rates[j]
  }

  /** The first rate of the list that reaches the target, or the last one. */
  ghost function ChosenRate(target: int, rates: seq<int>): int
    requires rates != []
    decreases |rates|
  {
    if |rates| == 1 || rates[0] >= target then rates[0] else ChosenRate(target, rates[1..])
  }

  lemma {:induction false} ChosenRateIsLeast(target: int, rates: seq<int>)
    requires Ascending(rates)
    ensures var rate := ChosenRate(target, rates);
            && rate in rates
            && (rate >= target <==> rates[|rates| - 1] >= target)
            && (forall r | r in rates && r >= target :: rate <= r)
            && (rate < target ==> rate == rates[|rates| - 1])
    decreases |rates|
  {
    if |rates| > 1 && rates[0] < target {
      ChosenRateIsLeast(target, rates[1..]);
      assert rates == [rates[0]] + rates[1..];
    } else {
      forall r | r in rates ensures rates[0] <= r {
        var k :| 0 <= k < |rates| && rates[k] == r;
      }
    }
  }

  /** The lowest rate of the list that is at least the lower of the input and codec
      rates, or the highest when none is. */
  method InitializeCaptureFrame(inputRate: int, sendRate: int, inputChannels: int, sendChannels: int, rates: seq<int>)
    returns (rate: int, channels: int)
    requires Ascending(rates)
    ensures rate == ChosenRate(Min(inputRate, sendRate), rates)
    ensures rate in rates
    ensures rate >= Min(inputRate, sendRate) <==> rates[|rates| - 1] >= Min(inputRate, sendRate)
    ensures forall r | r in rates && r >= Min(inputRate, sendRate) :: rate <= r
    ensures rate < Min(inputRate, sendRate) ==> rate == rates[|rates| - 1]
    ensures channels == Min(inputChannels, sendChannels)
  {
    var target := Min(inputRate, sendRate);
    rate := rates[0];
    var i := 0;
    while i < |rates|
      invariant 0 <= i <= |rates|
      invariant i < |rates| ==> ChosenRate(target, rates) == ChosenRate(target, rates[i..])
      invariant i == |rates| ==> rate == ChosenRate(target, rates)
    {
      rate := rates[i];
      if rate >= target {
        break;
      }
      assert i + 1 < |rates| ==> rates[i..][1..] == rates[i + 1..];
      i := i + 1;
    }
    ChosenRateIsLeast(target, rates);
    channels := Min(inputChannels, sendChannels);
  }

  /** What the capture thread reads under the lock: the senders, and the rate and
      channel count to aim at. */
  datatype Transport = Transport(senders: seq<StreamId>, sampleRateHz: int, numChannels: int)

  /** The frame that a captured buffer is processed into. */
  ghost function Captured(t: Transport, content: seq<int>, inputRate: int, inputChannels: int): AudioFrame {
    AudioFrame(ChosenRate(Min(inputRate, t.sampleRateHz), NATIVE_SAMPLE_RATES),
               Min(inputChannels, t.numChannels), content)
  }

  /** It keeps what the input and the send format have in common, up to 48 kHz. */
  lemma CapturedKeepsFormat(t: Transport, content: seq<int>, inputRate: int, inputChannels: int)
    ensures var f := Captured(t, content, inputRate, inputChannels);
            && f.sampleRateHz >= Min(Min(inputRate, t.sampleRateHz), 48000)
            && f.numChannels == Min(inputChannels, t.numChannels)
  {
    ChosenRateIsLeast(Min(inputRate, t.sampleRateHz), NATIVE_SAMPLE_RATES);
  }

  /** Every sender but the first, in order, and then the first. */
  ghost function Fanout(senders: seq<StreamId>, frame: AudioFrame): seq<Delivery> {
    if senders == [] then [] else Copies(senders[1..], frame) + [Delivery(senders[0], frame)]
  }

  ghost function Copies(senders: seq<StreamId>, frame: AudioFrame): seq<Delivery>
    decreases |senders|
  {
    if senders == [] then []
    else Copies(senders[..|senders| - 1], frame) + [Delivery(senders[|senders| - 1], frame)]
  }

  lemma {:induction false} CopiesCount(senders: seq<StreamId>, frame: AudioFrame, d: Delivery)
    ensures multiset(Copies(senders, frame))[d] == if d.frame == frame then multiset(senders)[d.sender] else 0
    decreases |senders|
  {
    if senders != [] {
      CopiesCount(senders[..|senders| - 1], frame, d);
      assert senders == senders[..|senders| - 1] + [senders[|senders| - 1]];
    }
  }

  /** Each registered sender gets the frame exactly as often as it is registered,
      with equal content, and nobody gets anything else. */
  lemma FanoutReachesEverySender(senders: seq<StreamId>, frame: AudioFrame, d: Delivery)
    ensures multiset(Fanout(senders, frame))[d] == if d.frame == frame then multiset(senders)[d.sender] else 0
  {
    if senders != [] {
      CopiesCount(senders[1..], frame, d);
      assert senders == [senders[0]] + senders[1..];
    }
  }

  lemma {:induction false} CopiesAt(senders: seq<StreamId>, frame: AudioFrame, i: nat)
    requires i < |senders|
    ensures |Copies(senders, frame)| == |senders| && Copies(senders, frame)[i] == Delivery(senders[i], frame)
    decreases |senders|
  {
    if |senders| > 1 {
      CopiesAt(senders[..|senders| - 1], frame, if i < |senders| - 1 then i else 0);
    } else {
      assert senders[..0] == [];
    }
  }

  /** The copies go out in order from the second sender on; the first one gets the
      frame itself, last. */
  lemma FanoutServesFirstLast(senders: seq<StreamId>, frame: AudioFrame)
    ensures var f := Fanout(senders, frame);
            && |f| == |senders|
            && (senders != [] ==> f[|f| - 1] == Delivery(senders[0], frame))
            && forall i | 0 <= i < |f| - 1 :: f[i] == Delivery(senders[i + 1], frame)
  {
    if |senders| > 1 {
      CopiesAt(senders[1..], frame, 0);
      forall i | 0 <= i < |senders| - 1 ensures Copies(senders[1..], frame)[i] == Delivery(senders[i + 1], frame) {
        CopiesAt(senders[1..], frame, i);
      }
    } else if |senders| == 1 {
      assert senders[1..] == [];
    }
  }

  class AudioTransportImpl {
    var audioSenders: seq<StreamId>
    var sendSampleRateHz: int
    var sendNumChannels: int
    var deliveries: seq<Delivery>   // calls of SendAudioData

    ghost function View(): Transport
      reads this
    {
      Transport(audioSenders, sendSampleRateHz, sendNumChannels)
    }

    constructor ()
      ensures audioSenders == [] && sendSampleRateHz == 8000 && sendNumChannels == 1 && deliveries == []
    {
      audioSenders, sendSampleRateHz, sendNumChannels, deliveries := [], 8000, 1, [];
    }

    method UpdateAudioSenders(senders: seq<StreamId>, sampleRateHz: int, numChannels: int)
      modifies this
      ensures audioSenders == senders && sendSampleRateHz == sampleRateHz && sendNumChannels == numChannels
      ensures deliveries == old(deliveries)
    {
      audioSenders, sendSampleRateHz, sendNumChannels := senders, sampleRateHz, numChannels;
    }

    method SendProcessedData(frame: AudioFrame)
      modifies this`deliveries
      ensures deliveries == old(deliveries) + Fanout(audioSenders, frame)
    {
      if audioSenders == [] {
        return;
      }
      ghost var rest := audioSenders[1..];
      var it := 1;
      while it != |audioSenders|
        invariant 1 <= it <= |audioSenders|
        invariant deliveries == old(deliveries) + Copies(rest[..it - 1], frame)
      {
        assert rest[..it][..it - 1] == rest[..it - 1];
        deliveries := deliveries + [Delivery(audioSenders[it], frame)];
        it := it + 1;
      }
      assert rest[..it - 1] == rest;
      deliveries := deliveries + [Delivery(audioSenders[0], frame)];
    }

    /** RecordedDataIsAvailable up to processing: the format is read under the lock,
        which is released before the frame is sent. */
    method CaptureFrame(content: seq<int>, inputChannels: int, inputRate: int) returns (frame: AudioFrame)
      ensures frame.content == content && frame.numChannels == Min(inputChannels, sendNumChannels)
      ensures frame.sampleRateHz == ChosenRate(Min(inputRate, sendSampleRateHz), NATIVE_SAMPLE_RATES)
      ensures frame == Captured(View(), content, inputRate, inputChannels)
    {
      var rate, channels :=
        InitializeCaptureFrame(inputRate, sendSampleRateHz, inputChannels, sendNumChannels, NATIVE_SAMPLE_RATES);
      frame := AudioFrame(rate, channels, content);
    }

    /** The whole of it, when processing is synchronous and no other thread takes the
        lock in between. */
    method RecordedDataIsAvailable(content: seq<int>, inputChannels: int, inputRate: int)
      modifies this`deliveries
      ensures deliveries == old(deliveries) + Fanout(audioSenders, Captured(View(), content, inputRate, inputChannels))
    {
      var frame := CaptureFrame(content, inputChannels, inputRate);
      SendProcessedData(frame);
    }
  }
}
