# A verified model of tg_owt's audio call core and its shared API types

This project models the stateful core of tg_owt (Telegram's packaging of WebRTC)
in Dafny and proves what holds of it over every input, every run or every
interleaving of threads. `dafny verify dfyconfig.toml` checks all of it.

| module | models |
|---|---|
| `ReceiveDelegate`, `SendDelegate`, `TransformableFrames` | the two frame-transformer delegates as transition systems: threads, the FIFO task queue, locked sections, Reset |
| `SendCodec`, `HeaderRegistration`, `BitrateAllocation` | three aspects of a send stream: encoder wrapper stack, registered RTP header extensions, the bitrate allocator's observer |
| `SendStreams` | the send stream object itself, its methods tied to those three aspects and to AudioState; the life of one stream |
| `AudioState`, `AudioTransport`, `AudioSystem` | the shared AudioState object with device, null poller and transport; capture in its two locked sections; any number of streams together with the capture thread |
| `PlayoutClock` | RTP timestamp unwrapping, elapsed time and NTP time of received audio |
| `StatsCollection` | the hand-managed list of owned reports that stands for a map by id |
| `RtpExtensions` | deduplication and lookup of header extensions |
| `RefCounting` | `scoped_refptr` over `RefCountedBase` |
| `AudioLevel`, `FieldTrials`, `CandidatePriority` | the level meter, the field-trial parser, ICE candidate priorities |

How the models are built. Code that updates objects is a class whose methods
follow the source statement by statement; each method's postcondition equates the
new state with a function of the old one, or keeps an invariant. What the source
promises is proved about those functions, as lemmas over sequences of steps.
A check that the code does not survive (`RTC_CHECK`, a null dereference, an
`RTC_DCHECK` right before the use it guards) is a `None` result or a
`Crashes`/`Accepted` predicate, so that the theorems say for which inputs it happens.
Two `RTC_DCHECK`s that the code goes on after are not assumed: the model follows the
code past the one against withdrawing a codec (audio_send_stream.cc:646) and the one
against inserting a report id twice (legacy_stats_types.cc:815), and the theorems cover
what happens then. Those that state a caller's duty are assumed where they stand: a
stream is stopped before it is destroyed (audio_send_stream.cc:181), and the methods'
`requires` clauses.

Collaborators that are not modelled in full, and what is assumed of them:

- A task queue runs its tasks one at a time in posting order.
- The audio device is stopped at first and is started and stopped by AudioState
  only; whether initialising or starting succeeds is a parameter of each call.
- The bitrate allocator keeps one entry per observer.
- The RTP module keeps one id per header extension, with the registration rules of
  `rtp_header_extension_map.cc`; the overhead it expects is a parameter.
- The encoder factory is a function that may fail; an encoder answers with a sample
  rate, a channel count, and optional frame length and bitrate ranges.
- The NTP estimate of a frame is part of that frame.

## Where the code does not do what one would expect

Each of these has a lemma with the failing case, and one that says exactly when, or
how, the behaviour differs.

- A stream that joins between the two locked sections of a capture is handed a frame
  whose format was chosen without it (`LateSenderLosesBandwidth`;
  `CaptureKeepsBandwidthIff` is an if-and-only-if).
- Changing comfort noise in place under RED loses the RED wrapper
  (`RedIsLost`; `ReconfigureIsFreshUnlessRed` and, over sequences,
  `IncrementalEqualsFresh` are if-and-only-if). After a failed
  encoder creation it dereferences null (`FailedSetupThenCngChangeCrashes`), and over
  an encoder that is not mono it ends the process (`CrashesExactlyWhen` is an
  if-and-only-if on the requests).
- A codec that was named once is not taken back by a config that names none
  (`CodecIsNotWithdrawn`), and neither is a codec bitrate (`WithdrawnTargetStays`;
  `TargetIsFreshUnlessWithdrawn` and, over sequences, `IncrementalEqualsFresh`).
- Giving the audio-level or transport-sequence-number extension another id, or
  exchanging the ids of abs-send-time and abs-capture-time, ends the process
  (`ChangedIdAborts`, `ExchangedIdsAbort`; `AbortsUnlessCompatible` is an
  if-and-only-if on the configs' ids). Transport sequence number and MID are never
  deregistered (`HeaderRegistration.IncrementalEqualsFresh`).
- The allocator's observer goes wrong in exactly two cases while sending: DSCP
  changes alone, or audio is allocated without feedback and a config without a
  transport sequence id is noticed (`ConfigureKeepsAgreement`; over whole runs
  `EveryRunAgrees`; the runs are `DscpAloneIsNotNoticed` and `NoFeedbackIsForgotten`).
  A codec change alone leaves the old codec's limits registered until the overhead
  changes (`CodecAloneIsStale`; over whole runs `LimitsAreFreshIff`).
- A Transform on the send side that overlaps Reset can call through a null transformer
  or an empty callback (`UndisciplinedResetCrashes`; `SendDelegate.CrashesExactlyWhen`
  is an if-and-only-if on the steps).
- A short-circuited packet on the send side overtakes exactly the frames that are
  still queued (`DirectOvertakesQueue`, `OvertakingHappens`); the receive side,
  which posts the switch, keeps the order.
- Looking up an extension with "prefer encrypted" falls back to the last
  unencrypted entry where deduplication keeps the first (`LookupCommutes`).
- Candidate priorities are the sum of section 4.1.2.1 of RFC 5245 except for
  component 0 with an odd local preference (`PriorityIsRfcSum`, `ComponentZeroCollides`).
- Ids of different classes that share a type tag make report id equality undefined or
  intransitive, except for typed ids unless a directed one shares its name with one of
  another class (`EqualsIsEquivalenceIff`, `EqualsNeedsOneClassPerType`).
- Inserting a report id that is there already makes a collection stop being a map by id
  (`EveryContainerIsMapUnlessDoubled` is an if-and-only-if).

## Model

| member | source | states |
|---|---|---|
| `ReceiveDelegate.EveryRunConserves` | src/audio/channel_receive_frame_transformer_delegate.cc:90-159 | In every interleaving the queue is what was posted and has not run, and the callback saw exactly the frames of tasks run before Reset, once each, in posting order, with their own payload and header |
| `ReceiveDelegate.EveryRunIsOrdered` | src/audio/channel_receive_frame_transformer_delegate.cc:97-159 | Short-circuiting is on iff a switch task ran, and every frame posted before the switch is delivered before any packet that bypasses the transformer |
| `ReceiveDelegate.EveryRunRoutes` | src/audio/channel_receive_frame_transformer_delegate.cc:97-110 | The packets given to Transform are, in order, those handed to the transformer, each as a frame with its payload, header, source and mime type, followed by those delivered directly with their own payload and header |
| `ReceiveDelegate.NothingAfterReset` | src/audio/channel_receive_frame_transformer_delegate.cc:90-95 | However a run continues after Reset, the callback is never called again |
| `ReceiveDelegate.IdentityTransformIsShortCircuit` | src/audio/channel_receive_frame_transformer_delegate.cc:97-159 | Transforming by identity delivers what short-circuiting delivers; a sender clone is delivered with only the fields that side knows |
| `ReceiveDelegate.HeaderOfFrame` | src/audio/channel_receive_frame_transformer_delegate.cc:129-159 | A received frame is delivered with its own header; a sender frame with payload type, timestamp, source and capture time, and nothing else |
| `ReceiveDelegate.ChannelReceiveFrameTransformerDelegate.Reset` | src/audio/channel_receive_frame_transformer_delegate.cc:90-95 | The object takes the step of the transition system |
| `ReceiveDelegate.ChannelReceiveFrameTransformerDelegate.Transform` | src/audio/channel_receive_frame_transformer_delegate.cc:97-110 | Likewise, directly or through the transformer |
| `ReceiveDelegate.ChannelReceiveFrameTransformerDelegate.OnTransformedFrame` | src/audio/channel_receive_frame_transformer_delegate.cc:112-119 | Likewise, posting a task |
| `ReceiveDelegate.ChannelReceiveFrameTransformerDelegate.StartShortCircuiting` | src/audio/channel_receive_frame_transformer_delegate.cc:121-127 | Likewise, posting the switch |
| `ReceiveDelegate.ChannelReceiveFrameTransformerDelegate.ReceiveFrame` | src/audio/channel_receive_frame_transformer_delegate.cc:129-159 | Delivers with the header of either frame direction, or drops after Reset |
| `SendDelegate.EveryRunConserves` | src/audio/channel_send_frame_transformer_delegate.cc:130-198 | In every interleaving of locked sections that has not crashed, accepted frames are sent once each in order until the callback is cleared; the others are queued or dropped after that |
| `SendDelegate.EveryRunIsFlagged` | src/audio/channel_send_frame_transformer_delegate.cc:130-180 | Transformer, callback and the short-circuit flag are what the steps taken so far make them, and follow Reset's statements |
| `SendDelegate.EveryRunRoutes` | src/audio/channel_send_frame_transformer_delegate.cc:138-163 | In every run the packets given to Transform are, in order, those handed to the transformer, each as a frame of its own fields with the capture time as unsigned 64-bit value; the one on its way there; and those sent directly with their own arguments |
| `SendDelegate.NothingLostBeforeReset` | src/audio/channel_send_frame_transformer_delegate.cc:165-198 | Before Reset's locked section, frames accepted are the frames sent followed by the frames queued |
| `SendDelegate.NothingAfterReset` | src/audio/channel_send_frame_transformer_delegate.cc:130-136 | After it the send callback is never invoked again, even for tasks already queued |
| `SendDelegate.CrashesExactlyWhen` | src/audio/channel_send_frame_transformer_delegate.cc:130-163 | After any run a step crashes iff it ends a Transform after Reset nulled the transformer, or starts a short-circuited one after Reset cleared the callback |
| `SendDelegate.NoDisciplinedStepCrashes` | src/audio/channel_send_frame_transformer_delegate.cc:138-163 | So if Transform is not running or started once Reset begins, nothing crashes |
| `SendDelegate.UndisciplinedResetCrashes` | src/audio/channel_send_frame_transformer_delegate.cc:130-163 | Two runs that crash: Reset between Transform's lock and its call, and a short-circuited Transform after Reset |
| `SendDelegate.DirectOvertakesQueue` | src/audio/channel_send_frame_transformer_delegate.cc:138-180 | A short-circuited packet overtakes exactly the frames still queued |
| `SendDelegate.OvertakingHappens` | src/audio/channel_send_frame_transformer_delegate.cc:138-198 | A run in which that happens |
| `SendDelegate.IdentityTransformIsShortCircuit` | src/audio/channel_send_frame_transformer_delegate.cc:138-211 | A packet, its wrapped frame and a clone of it are sent with the same arguments |
| `SendDelegate.ArgumentsOfFrame` | src/audio/channel_send_frame_transformer_delegate.cc:182-198 | What a frame of either direction is sent with, field by field: a capture time read back as signed, 0 without one; speech or comfort noise by the voice flag of a received one |
| `SendDelegate.ChannelSendFrameTransformerDelegate.Reset` | src/audio/channel_send_frame_transformer_delegate.cc:130-136 | Unregisters, then nulls the transformer, then clears the callback under the lock |
| `SendDelegate.ChannelSendFrameTransformerDelegate.TransformLocked` | src/audio/channel_send_frame_transformer_delegate.cc:138-156 | Takes the step, and says whether Transform is over |
| `SendDelegate.ChannelSendFrameTransformerDelegate.TransformCall` | src/audio/channel_send_frame_transformer_delegate.cc:157-162 | The unlocked hand-over of the packet under way to the transformer, which `EveryRunRoutes` accounts for |
| `SendDelegate.ChannelSendFrameTransformerDelegate.OnTransformedFrame` | src/audio/channel_send_frame_transformer_delegate.cc:165-175 | Posts a task, only while there is a callback |
| `SendDelegate.ChannelSendFrameTransformerDelegate.StartShortCircuiting` | src/audio/channel_send_frame_transformer_delegate.cc:177-180 | Switches at once |
| `SendDelegate.ChannelSendFrameTransformerDelegate.SendFrame` | src/audio/channel_send_frame_transformer_delegate.cc:182-198 | Sends the oldest frame, or drops it when the callback is gone |
| `TransformableFrames.ClonePreservesFrame` | src/audio/channel_send_frame_transformer_delegate.cc:200-211 | A clone answers every getter as the original and equals it iff the original is a sender frame |
| `TransformableFrames.CloneOfIncoming` | src/audio/channel_receive_frame_transformer_delegate.cc:21-73 | The clone of a received frame, field by field from its header |
| `AudioSystem.EveryRunIsConsistent` | src/audio/audio_send_stream.cc:348-380 | Over every run of any number of streams: in AudioState's map iff sending, with the stored rate and channels, which are the encoder's; the transport has exactly those streams, once each, and max(8000, rates) and max(1, channels); receiving iff playing; every stream knows its encoder and registered its list's extensions (as in `LifeIsUpToDate`) |
| `AudioSystem.NoCheckFails` | src/audio/audio_state.cc:54-121 | So no count check of AudioState ever fails |
| `AudioSystem.DevicesFollow` | src/audio/audio_state.cc:54-153 | In every run, whatever the device answers: the streams receiving (sending) are those started and not stopped since, and the device plays (records) iff a start of it succeeded since it was last stopped, by a switch or by the last stream leaving |
| `AudioSystem.ObeyingDeviceIsInUse` | src/audio/audio_state.cc:54-153 | So with a device that always obeys it plays iff playout is enabled and some stream is receiving, and records iff recording is enabled and some stream is sending |
| `AudioSystem.CaptureReachesEverySender` | src/audio/audio_transport_impl.cc:184-200 | In every run, a frame reaches each stream that is sending when its second locked section runs exactly once, and nothing else is delivered |
| `AudioSystem.CaptureKeepsBandwidthIff` | src/audio/audio_transport_impl.cc:127-200 | While a frame is between its locked sections, it keeps the bandwidth and channels common to the input and each sending stream, up to 48 kHz, iff it does for the streams announced since the first one and not withdrawn |
| `AudioSystem.UndisturbedCaptureKeepsBandwidth` | src/audio/audio_transport_impl.cc:127-200 | In particular for every sending stream's encoder when none was announced in between |
| `AudioSystem.LateSenderLosesBandwidth` | src/audio/audio_transport_impl.cc:152-188 | A run in which a wide-band stereo stream that joins in between is handed 8 kHz mono |
| `AudioState.MethodsKeepJustified` | src/audio/audio_state.cc:54-153 | The device plays (records) only when enabled with a receiving (sending) stream, kept by every method |
| `AudioState.TransportedDescribes` | src/audio/audio_state.cc:160-172 | For any map of sending streams, what the transport is told names each of them once and has the maxima |
| `AudioState.Summarize` | src/audio/audio_state.cc:160-172 | The loop over the map, by address, computes that |
| `AudioState.AudioStateImpl.UpdateTransport` | src/audio/audio_state.cc:160-172 | The transport gets exactly the sending streams, once each, max(8000, rates) and max(1, channels), and no frame is sent |
| `AudioState.AudioStateImpl.UpdateNullAudioPollerState` | src/audio/audio_state.cc:174-205 | The poller runs iff there are receiving streams and playout is disabled |
| `AudioState.AudioStateImpl.AddReceivingStream` | src/audio/audio_state.cc:54-76 | New state (over runs: `DevicesFollow`), and: poller and device never active together at any moment, transport and poller in step |
| `AudioState.AudioStateImpl.RemoveReceivingStream` | src/audio/audio_state.cc:78-89 | New state and the same invariant |
| `AudioState.AudioStateImpl.AddSendingStream` | src/audio/audio_state.cc:91-111 | New state and the same invariant |
| `AudioState.AudioStateImpl.RemoveSendingStream` | src/audio/audio_state.cc:113-121 | New state and the same invariant |
| `AudioState.AudioStateImpl.SetPlayout` | src/audio/audio_state.cc:123-138 | New state and the same invariant, through the moments inside the method |
| `AudioState.AudioStateImpl.SetRecording` | src/audio/audio_state.cc:140-153 | New state and the same invariant |
| `AudioState.AudioReceiveStreamImpl.Start` | src/audio/audio_receive_stream.cc:181-190 | Registered iff playing; starting twice does nothing |
| `AudioState.AudioReceiveStreamImpl.Stop` | src/audio/audio_receive_stream.cc:192-201 | Unregistered iff it was playing |
| `AudioTransport.InitializeCaptureFrame` | src/audio/audio_transport_impl.cc:33-47 | For any ascending list, the least rate at or above min(input, send rate), or the highest when there is none |
| `AudioTransport.FanoutReachesEverySender` | src/audio/audio_transport_impl.cc:184-200 | Each sender gets the frame as often as it is registered, with equal content, and nobody gets anything else |
| `AudioTransport.FanoutServesFirstLast` | src/audio/audio_transport_impl.cc:184-200 | Copies go out in order from the second sender on; the first one gets the frame itself, last |
| `AudioTransport.AudioTransportImpl.SendProcessedData` | src/audio/audio_transport_impl.cc:184-200 | Copies go to all senders but the first, the frame itself to the first |
| `AudioTransport.AudioTransportImpl.CaptureFrame` | src/audio/audio_transport_impl.cc:127-173 | The first locked section and the frame made from it |
| `AudioTransport.AudioTransportImpl.RecordedDataIsAvailable` | src/audio/audio_transport_impl.cc:127-182 | Both sections in a row, when nothing comes in between |
| `SendCodec.ReconfigureIsFreshUnlessRed` | src/audio/audio_send_stream.cc:640-751 | One reconfiguration of a fresh stack gives the fresh stack of the new spec iff it does not change comfort noise under RED |
| `SendCodec.IncrementalEqualsFresh` | src/audio/audio_send_stream.cc:570-751 | After any sequence of configs whose named codecs can be made, the stack is that of the last codec named set up from scratch iff comfort noise was not changed under RED since an encoder was last called for; the bitrate in force is the one it names iff it names one or none was named since then; there is no encoder iff none was named |
| `SendCodec.CodecIsNotWithdrawn` | src/audio/audio_send_stream.cc:643-648 | With a last config that names no codec, the encoder is as on a new stream iff none was ever named |
| `SendCodec.WithoutRedNothingIsLost` | src/audio/audio_send_stream.cc:714-751 | So without RED it always is |
| `SendCodec.RedIsLost` | src/audio/audio_send_stream.cc:728-750 | Switching comfort noise on under RED replaces the RED wrapper |
| `SendCodec.CrashesExactlyWhen` | src/audio/audio_send_stream.cc:640-751 | After any configs the next one crashes iff it changes comfort noise in place when no encoder was ever built, or puts comfort noise on an encoder that is not mono, the last built or a new one |
| `SendCodec.EveryCodecIsTracked` | src/audio/audio_send_stream.cc:570-751 | After any configs the channel has an encoder iff one was built, with the channel count of the last one built |
| `SendCodec.FailedSetupThenCngChangeCrashes` | src/audio/audio_send_stream.cc:640-751 | A first config whose codec cannot be made, then a change of comfort noise alone, dereferences null |
| `SendCodec.TargetIsFreshUnlessWithdrawn` | src/audio/audio_send_stream.cc:668-678 | The bitrate in force is the last spec's iff a new encoder is built, a bitrate is named, or none was |
| `SendCodec.WithdrawnTargetStays` | src/audio/audio_send_stream.cc:668-678 | Two configs after which a bitrate is in force that a new stream would not have |
| `SendCodec.OnlyNewEncodersChangeProps` | src/audio/audio_send_stream.cc:559-751 | Editing in place never changes the sample rate or channel count, although it does not announce them again; comfort noise is only ever over a mono encoder |
| `SendCodec.FreshStack` | src/audio/audio_send_stream.cc:570-638 | Redundancy outside comfort noise outside speech; rate and frame lengths are the speech encoder's, comfort noise makes one channel, and a wrapped encoder has no bitrate range |
| `HeaderRegistration.FindExtensionIds` | src/audio/audio_send_stream.cc:197-218 | Each of the seven fields is the id of the last entry of the list that has its uri, 0 if there is none |
| `HeaderRegistration.EveryConfigurationHolds` | src/audio/audio_send_stream.cc:262-317 | After any configs that do not abort, audio level, abs-send-time and abs-capture-time have the last config's ids; transport sequence number and MID the latest id there was |
| `HeaderRegistration.NoConfigurationClashes` | src/modules/rtp_rtcp/source/rtp_header_extension_map.cc:121-167 | No two extensions ever share an id, and all ids are in range |
| `HeaderRegistration.AcceptedAlone` | src/audio/audio_send_stream.cc:262-317 | A config accepted at the end of any sequence is accepted as a first one |
| `HeaderRegistration.IncrementalEqualsFresh` | src/audio/audio_send_stream.cc:262-317 | The deregistered ones equal a first-time configuration of the last config; the other two do iff it names them or nothing ever did |
| `HeaderRegistration.ChangedIdAborts` | src/audio/channel_send.cc:642-650 | Another id for audio level or transport sequence number ends the process |
| `HeaderRegistration.AbortsUnlessCompatible` | src/audio/audio_send_stream.cc:262-317 | After any configs or none, the next one is taken iff its ids are compatible with the earlier configs' ids, each extension that changes getting an id that no other has at that point |
| `HeaderRegistration.ExchangedIdsAbort` | src/audio/audio_send_stream.cc:271-317 | Exchanging two extensions' ids does too, although both configs are fine |
| `BitrateAllocation.ConstraintsAreOrdered` | src/audio/audio_send_stream.cc:833-883 | For frame lengths 0 < first <= second: nothing, or 0 <= min <= max, at least the base limits and no narrower |
| `BitrateAllocation.ConstraintsAreMonotone` | src/audio/audio_send_stream.cc:833-883 | Both bounds are monotone in overhead, and overhead never decides whether there are any |
| `BitrateAllocation.ConstraintsValue` | src/audio/audio_send_stream.cc:833-883 | What they are: the encoder's range, else the field trial's limits, else the config's, plus 6666 bps under legacy overhead, or else the bits per second that the overhead of one packet makes over the longest frame for the minimum and over the shortest for the maximum; and exactly when there are any |
| `BitrateAllocation.EntryValue` | src/audio/audio_send_stream.cc:787-826 | What the allocator is told: those limits; a priority bitrate of 0 when disabled, the raw one, or the setting plus 20000 bps or the overhead over the longest frame; the field trial's priority or the config's |
| `BitrateAllocation.EveryRunTracksInputs` | src/audio/audio_send_stream.cc:327-345 | In every run the overhead is the last transport overhead set plus the RTP module's last one, and the ranges are those of the last config's encoder that had one |
| `BitrateAllocation.UnorderedLengthsBreakOrder` | src/audio/audio_send_stream.cc:865-881 | Frame lengths of 60 and 20 ms the wrong way round do give max < min |
| `BitrateAllocation.ForwardedLiesWithin` | src/audio/audio_send_stream.cc:491-506 | Target and stable target forwarded under constraints lie within them, are unchanged if inside and the nearest bound otherwise, and keep their order; without constraints nothing changes |
| `BitrateAllocation.ConfigureKeepsAgreement` | src/audio/audio_send_stream.cc:753-785 | A change of config keeps observer, flags and config in agreement iff the stream is not sending or the change is not one of two misjudged ones |
| `BitrateAllocation.DscpAloneIsNotNoticed` | src/audio/audio_send_stream.cc:755-766 | Create, start, turn DSCP on alone: the stream stays registered, whatever the settings, limits and overhead |
| `BitrateAllocation.NoFeedbackIsForgotten` | src/audio/audio_send_stream.cc:768-784 | Without feedback: create without the id, start, change the priority: the stream was registered and is removed |
| `BitrateAllocation.EveryRunFollows` | src/audio/audio_send_stream.cc:339-380 | In every run the flag, the allocator's entry and part-of-allocation are what the last start, or the last change that was noticed, decided, while sending; there is no registration otherwise |
| `BitrateAllocation.EveryRunAgrees` | src/audio/audio_send_stream.cc:339-380 | So observer, flags and current config agree iff the stream is not sending or that decision is what the current config calls for |
| `BitrateAllocation.ConstantDscpAgrees` | src/audio/audio_send_stream.cc:753-831 | In particular with feedback and a DSCP setting that never changes |
| `BitrateAllocation.ObserversAreOrdered` | src/audio/audio_send_stream.cc:787-831 | In every run the allocator's entry exists iff the flag is set, only while sending, and has min <= max |
| `BitrateAllocation.NoticedChangeIsFresh` | src/audio/audio_send_stream.cc:768-781 | While sending, a change of limits, priority, transport sequence id or adaptor to a config without DSCP and with limits and an id registers what the new config, encoder and overhead give |
| `BitrateAllocation.EveryRunHoldsEntry` | src/audio/audio_send_stream.cc:327-341 | In every run a registered stream's entry is the one that the encoder's ranges at the last registration give with the current limits and overhead; a registration is a start, a noticed change, or a changed overhead |
| `BitrateAllocation.LimitsAreFreshIff` | src/audio/audio_send_stream.cc:327-341 | So the limits are current iff those ranges give the same entry as the current ones |
| `BitrateAllocation.CodecAloneIsStale` | src/audio/audio_send_stream.cc:327-341 | Create, start, change the encoder's bitrate range alone: the allocator keeps the first range's limits, and a changed overhead repairs that |
| `BitrateAllocation.StartSucceeds` | src/audio/audio_send_stream.cc:348-368 | A first start succeeds iff the limits give constraints, and registers them |
| `SendStreams.LifeEqualsFresh` | src/audio/audio_send_stream.cc:224-380 | However a stream was reconfigured, started and stopped, if the codecs named can be made, a new stream accepts its current config too, and its encoder stack and announced properties are that stream's iff none was ever named, or the current config names one and comfort noise was not changed under RED since |
| `SendStreams.LifeExtensionsEqualFresh` | src/audio/audio_send_stream.cc:262-317 | Whatever its codecs, a new stream registers the current config's extensions too, with the same deregistered ones; transport sequence number and MID iff the current config names them or none did |
| `SendStreams.LifeAgrees` | src/audio/audio_send_stream.cc:339-380 | With feedback and constant DSCP the whole stream is an observer exactly while sending with limits and a transport sequence id |
| `SendStreams.LifeIsObserverExactlyWhen` | src/audio/audio_send_stream.cc:339-380 | The same of the config itself: no DSCP, both limits set, and a list whose last transport sequence number entry has an id other than 0 |
| `SendStreams.LifeIsUpToDate` | src/audio/audio_send_stream.cc:262-345 | In every life the stored rate and channels, frame lengths and bitrate range are the current encoder's, and the registered audio level, abs-send-time and abs-capture-time ids are those of the last such entries of the current config's own list |
| `SendStreams.CodecOfLife` | src/audio/audio_send_stream.cc:640-684 | A stream's encoder depends on its configs only, not on starts, stops and overhead |
| `SendStreams.ExtensionsOfLife` | src/audio/audio_send_stream.cc:262-317 | Likewise its registered extensions |
| `SendStreams.AudioSendStream.constructor` | src/audio/audio_send_stream.cc:136-176 | A first-time configuration; AudioState is untouched |
| `SendStreams.AudioSendStream.ConfigureStream` | src/audio/audio_send_stream.cc:224-346 | The same for first and later times, in the source's order |
| `SendStreams.AudioSendStream.UpdateAllocation` | src/audio/audio_send_stream.cc:327-345 | Overhead is pushed before the ranges are refreshed, then the observer, then the config |
| `SendStreams.AudioSendStream.RegisterExtensions` | src/audio/audio_send_stream.cc:262-317 | The registry becomes the one HeaderRegistration specifies |
| `SendStreams.AudioSendStream.StoreEncoderProperties` | src/audio/audio_send_stream.cc:559-567 | AudioState's entry follows the stored properties while sending |
| `SendStreams.AudioSendStream.SetupSendCodec` | src/audio/audio_send_stream.cc:570-638 | Builds the fresh stack and announces it, or changes nothing and fails |
| `SendStreams.AudioSendStream.ReconfigureSendCodec` | src/audio/audio_send_stream.cc:640-684 | The codec becomes the one SendCodec specifies, announced iff newly built |
| `SendStreams.AudioSendStream.ReconfigureCng` | src/audio/audio_send_stream.cc:714-751 | Takes one wrapper off and puts comfort noise on if wanted |
| `SendStreams.AudioSendStream.ConfigureBitrateObserver` | src/audio/audio_send_stream.cc:787-826 | Registers the current constraints and priority |
| `SendStreams.AudioSendStream.ReconfigureBitrateObserver` | src/audio/audio_send_stream.cc:753-785 | Writes the new limits first, then registers or removes |
| `SendStreams.AudioSendStream.UpdateOverheadPerPacket` | src/audio/audio_send_stream.cc:515-530 | Registers again iff registered and the overhead changed |
| `SendStreams.AudioSendStream.OnBitrateUpdated` | src/audio/audio_send_stream.cc:491-506 | What is forwarded lies within the constraints and is unchanged if it did already |
| `SendStreams.AudioSendStream.Start` | src/audio/audio_send_stream.cc:348-368 | Registered with AudioState with the stored properties; starting twice does nothing |
| `SendStreams.AudioSendStream.Stop` | src/audio/audio_send_stream.cc:370-380 | Removed from the allocator and from AudioState |
| `PlayoutClock.DeltaExact` | src/rtc_base/numerics/sequence_number_unwrapper.h:61-69 | The unwrapper's increment is the true one iff the step is shorter than half the range, or exactly half in the direction that the half of the range decides |
| `PlayoutClock.ParallelIff` | src/audio/channel_receive.cc:449-462 | The unwrapped clock runs parallel to true media time after every frame, through any number of wraps, iff every step meets the unwrapper's condition |
| `PlayoutClock.ClockIsParallel` | src/audio/channel_receive.cc:449-462 | In particular start, last timestamp and distance after such steps |
| `PlayoutClock.ElapsedIsTrueTime` | src/audio/channel_receive.cc:449-462 | Elapsed time is (true - first) / (rate/1000), truncating; frames before the first stamped one get none |
| `PlayoutClock.TruncDivRoundsDown` | src/audio/channel_receive.cc:455-462 | That division of a non-negative distance rounds down |
| `PlayoutClock.TruncDivIsOdd` | src/audio/channel_receive.cc:455-462 | And of a negative one is the negated quotient, so it rounds towards zero |
| `PlayoutClock.NtpAgrees` | src/audio/channel_receive.cc:464-476 | Capture start plus elapsed equals the NTP time of the latest frame with an estimate |
| `PlayoutClock.ChannelReceive.Unwrap` | src/rtc_base/numerics/sequence_number_unwrapper.h:34-43 | The first value as it is, later ones by increments |
| `PlayoutClock.ChannelReceive.GetAudioFrameWithInfo` | src/audio/channel_receive.cc:449-476 | The clock's step, and capture start plus elapsed equals a positive NTP estimate |
| `StatsCollection.EqualsIsEquivalenceIff` | src/api/legacy_stats_types.cc:67-214 | For any ids in use the virtual Equals is defined on all pairs and an equivalence iff no two that share a tag are of different classes, except typed ids of which no directed one shares its name with one of another class; it is equality iff no plain and candidate id share tag and name besides |
| `StatsCollection.EqualsNeedsOneClassPerType` | src/api/legacy_stats_types.cc:74-129 | A plain id equals two directed ids that are not equal |
| `StatsCollection.MergeIsRightBiasedUnion` | src/api/legacy_stats_types.cc:851-867 | Ids stay unique and keep their positions, new ones are appended, and the map is the right-biased union |
| `StatsCollection.MergeConserves` | src/api/legacy_stats_types.cc:851-867 | Every report that went in is in the result or was deleted, once |
| `StatsCollection.DetachThenMergeRestores` | src/api/legacy_stats_types.cc:842-867 | Merging a detached list into an empty collection restores it iff its ids are unique |
| `StatsCollection.EveryProgramIsTidy` | src/api/legacy_stats_types.cc:792-867 | Over every program, ids inserted twice included, each created report is in exactly one container or freed exactly once |
| `StatsCollection.EveryContainerIsMapUnlessDoubled` | src/api/legacy_stats_types.cc:792-867 | And a container's ids are unique iff no id was inserted that was there already, into it or into one whose list it took over |
| `StatsCollection.OperationsMoveReports` | src/api/legacy_stats_types.cc:792-867 | Each operation by what containers hold afterwards and what is freed, position by position, all other containers unchanged |
| `StatsCollection.AsMapLookup` | src/api/legacy_stats_types.cc:871-877 | Finding in the list is lookup in the map it stands for |
| `StatsCollection.StatsCollection.FindIndex` | src/api/legacy_stats_types.cc:871-877 | The first report with that id |
| `StatsCollection.StatsCollection.Lookup` | src/api/legacy_stats_types.cc:871-877 | The map's answer |
| `StatsCollection.StatsCollection.InsertNew` | src/api/legacy_stats_types.cc:813-819 | Appends a new report; ids stay unique iff the id was absent |
| `StatsCollection.StatsCollection.FindOrAddNew` | src/api/legacy_stats_types.cc:821-825 | Changes nothing if present, else appends |
| `StatsCollection.StatsCollection.ReplaceOrAddNew` | src/api/legacy_stats_types.cc:827-840 | Replaces in place and deletes the old report, or appends |
| `StatsCollection.StatsCollection.DetachCollection` | src/api/legacy_stats_types.cc:842-849 | Hands the list out and leaves the collection empty |
| `StatsCollection.StatsCollection.MergeCollection` | src/api/legacy_stats_types.cc:851-867 | The merge, with exactly the displaced reports deleted; ids are unique iff they were |
| `StatsCollection.StatsCollection.Destroy` | src/api/legacy_stats_types.cc:792-796 | Deletes every report once |
| `RtpExtensions.HeaderExtensionWithUriExists` | src/api/rtp_parameters.cc:202-211 | True iff some entry has the uri |
| `RtpExtensions.FindHeaderExtensionByUri` | src/api/rtp_parameters.cc:213-252 | First match of the wanted flag; under prefer the last unencrypted entry as fallback |
| `RtpExtensions.FindHeaderExtensionByUriAndEncryption` | src/api/rtp_parameters.cc:254-264 | The first entry with uri and flag, which is the lookup under the matching filter |
| `RtpExtensions.LookupFinds` | src/api/rtp_parameters.cc:213-264 | The positions meant: no earlier entry with the uri and flag, or, for the fallback under prefer, no later one |
| `RtpExtensions.DeduplicateHeaderExtensions` | src/api/rtp_parameters.cc:266-305 | The canonical form: uris strictly increase, and it holds exactly each uri's first encrypted entry unless discarded, else its first unencrypted one |
| `RtpExtensions.DeduplicatedKeeps` | src/api/rtp_parameters.cc:266-305 | An entry is in the canonical form iff it is at the first position of its uri and flag and its filter keeps that flag: encrypted ones unless discarded, unencrypted ones unless encrypted are required or, preferred, present |
| `RtpExtensions.SortExtensions` | src/api/rtp_parameters.cc:296-302 | Same entries in strictly increasing uri order |
| `RtpExtensions.LessAtDifference` | src/api/rtp_parameters.cc:296-302 | The order of uris is decided by the first character that differs |
| `RtpExtensions.PrefixIsLess` | src/api/rtp_parameters.cc:296-302 | And a proper prefix comes first |
| `RtpExtensions.CanonicalFormDecidesPicks` | src/api/rtp_parameters.cc:266-305 | Two deduplicated lists are equal iff their inputs pick the same entry for every uri |
| `RtpExtensions.Idempotent` | src/api/rtp_parameters.cc:266-305 | Deduplicating twice is deduplicating once |
| `RtpExtensions.CanonicalExists` | src/api/rtp_parameters.cc:266-305 | Every list has a canonical form under every filter |
| `RtpExtensions.OrderIndependence` | src/api/rtp_parameters.cc:266-305 | Every permutation of the input gives the same output iff no uri has two different entries to choose from |
| `RtpExtensions.LookupCommutes` | src/api/rtp_parameters.cc:213-305 | Lookup commutes with deduplication iff the filter is not prefer, the uri has an encrypted entry, or its first unencrypted entry is its last |
| `RtpExtensions.LookupCounterexample` | src/api/rtp_parameters.cc:213-252 | A list where it does not |
| `RefCounting.EveryProgramIsSound` | src/api/scoped_refptr.h:94-176 | Over every program run with counters alone: no counter is touched after its object is gone, and in every reachable state a count is the pointers holding the object plus references handed out by release(), nothing destroyed is held, nothing is destroyed twice |
| `RefCounting.CountersImplementOwnership` | src/api/scoped_refptr.h:94-176 | Each operator's increments and decrements have the effect of its change of ownership, self-assignment and self-move included |
| `RefCounting.OperatorsMovePointers` | src/api/scoped_refptr.h:94-176 | What each operator leaves in its pointers and hands out, in terms of what they held before; every other pointer is unchanged |
| `RefCounting.Perform` | src/api/scoped_refptr.h:94-176 | Any program, run by the operators one after the other, ends in that state |
| `RefCounting.DestroyedWhenLastOwnerLeaves` | src/api/ref_counted_base.h:26-33 | Counting destroys an object exactly when an operator takes its owners to none, and then once |
| `RefCounting.CountersSettle` | src/api/ref_counted_base.h:26-33 | Counting up for what is gained and down for what is lost implements the ownership semantics |
| `RefCounting.Heap.ReleaseRef` | src/api/ref_counted_base.h:27-33 | Decrements and deletes at zero |
| `RefCounting.Heap.ConstructRaw` | src/api/scoped_refptr.h:97-100 | The new pointer holds the given object; the count semantics of the constructor |
| `RefCounting.Heap.ConstructCopy` | src/api/scoped_refptr.h:102-105 | Both hold what the source held |
| `RefCounting.Heap.ConstructMove` | src/api/scoped_refptr.h:114-117 | The new one holds what the source held, the source is null |
| `RefCounting.Heap.Destroy` | src/api/scoped_refptr.h:119-122 | The pointer is gone and its reference given up |
| `RefCounting.Heap.Release` | src/api/scoped_refptr.h:134-138 | The pointer is null and what it held is handed out without being released |
| `RefCounting.Heap.AssignRaw` | src/api/scoped_refptr.h:140-148 | The pointer holds the given object, including the one it held |
| `RefCounting.Heap.AssignCopy` | src/api/scoped_refptr.h:150-152 | Both hold what the source held, self-assignment included |
| `RefCounting.Heap.AssignMove` | src/api/scoped_refptr.h:159-162 | The target holds what the source held, the source is null; a self-move changes nothing |
| `RefCounting.Heap.Swap` | src/api/scoped_refptr.h:170-176 | The two exchange what they held |
| `AudioLevel.LevelIsDecayedPeak` | src/audio/audio_level.cc:55-95 | After n windows of 11 calls since the last level reset the level is the maximum over j of floor(Wj / 4^(n-j)) |
| `AudioLevel.ClosedForm` | src/audio/audio_level.cc:55-95 | The whole meter, open window included, in terms of the peaks seen |
| `AudioLevel.LevelDependsOnPeaksSinceReset` | src/audio/audio_level.cc:24-43 | Over every run the meter depends on the peaks since the last reset only |
| `AudioLevel.EnergyBoundedByDuration` | src/audio/audio_level.cc:80-95 | Over every run with non-negative durations 0 <= total energy <= total duration |
| `AudioLevel.TotalsAreSums` | src/audio/audio_level.cc:84-95 | Over every run total duration is the sum of the durations, and total energy the sum of (level / 32767)^2 times duration, over the frames since the last full reset, each with the level that the peaks up to it give |
| `AudioLevel.MaxAbsValue` | src/common_audio/signal_processing/min_max_operations.c:38-57 | The largest magnitude, with 32768 cut to 32767 |
| `AudioLevel.AudioLevel.ComputeLevel` | src/audio/audio_level.cc:55-95 | The object's fields follow the specification for the frame's peak, 0 when muted |
| `AudioLevel.AudioLevel.Reset` | src/audio/audio_level.cc:24-31 | The specification's reset |
| `AudioLevel.AudioLevel.ResetLevelFullRange` | src/audio/audio_level.cc:38-43 | The specification's level reset |
| `FieldTrials.InsertIntoMap` | src/api/field_trials.cc:21-54 | Accepts exactly the concatenations of non-empty slash-free key/value/ pairs, with the first occurrence of a key deciding; otherwise names the check that fails and where |
| `FieldTrials.ReadGroup` | src/api/field_trials.cc:25-52 | One pair and the rest, or the reason why there is none |
| `FieldTrials.RoundTrip` | src/api/field_trials.cc:21-54 | Parsing undoes printing of any pair list up to first-key-wins |
| `FieldTrials.PrintInjective` | src/api/field_trials.cc:21-54 | A string has one reading |
| `FieldTrials.ConcatLaw` | src/api/field_trials.cc:21-54 | For accepted s, s+t is accepted iff t is, and then means t overridden by s |
| `FieldTrials.GetValueIsFirstMatch` | src/api/field_trials.cc:93-105 | A lookup gives the value of the key's first pair, or the empty string |
| `CandidatePriority.PriorityIsRfcSum` | src/api/candidate.cc:126-167 | Shifts and ors equal the sum of section 4.1.2.1 of RFC 5245 iff the component is not 0 or the local preference is even |
| `CandidatePriority.ComponentZeroCollides` | src/api/candidate.cc:126-167 | A candidate of component 0 that gets 256 instead of 512 |
| `CandidatePriority.PriorityIsLexicographic` | src/api/candidate.cc:126-167 | Priorities order candidates by type, local preference, then lower component |
| `CandidatePriority.LocalPreferenceIsSum` | src/api/candidate.cc:126-167 | The local preference is the sum of its fields |
| `CandidatePriority.StunPriorityIsSum` | src/api/candidate.cc:126-167 | The priority of section 7.1.2.1 of RFC 5245 derived from it |
| `CandidatePriority.RelayNeverBeatsDirect` | src/api/candidate.cc:126-167 | With the adjustment a relay does not beat a non-relay with the same adapter, address class and component iff its relay preference exceeds the other's by at most the number of TURN servers |

## Left out

- Interfaces, factories, option structs and wiring: no algorithm.
- NetEq, mixer, resampler, audio processing, RTP packetization, NTP estimation, encryption and the device itself: only the answers they give appear, as parameters.
- What the audio network adaptor and the overhead do inside an encoder; the adaptor's config takes part in comparisons only.
- Changes of encoder factory or codec pair id between the configs of one stream; different streams may have different factories.
- Case-insensitive comparison of codec names: names are taken as case-folded.
- The comfort noise encoder's checks other than the mono check.
- The MID string that the RTP module stores, congestion controller registration, the CNAME, and the frame encryptor and transformer of a stream's config.
- Callbacks that the allocator makes while an observer is being added: they only reach `OnBitrateUpdated`, which changes no modelled state.
- Truncation of bitrates to 32 bits and overflow of 64-bit arithmetic: numbers are unbounded, except RTP timestamps and the packed priority.
- Infinite data rates.
- `UpdatePlayoutTimestamp` and the other statistics of the receive channel.
- Contents of stats reports, GetStats, ToString functions, logging, tracing, histograms: straight-line plumbing.
- Floating-point rounding in the level meter, which works over the reals, and gain scaling.
- The global field-trial string.
- Destructors that use other smart pointers while they run, custom deleters, and threads in reference counting.
- Failures to stop the audio device.
- `AudioTransportImpl`: samples are opaque, so remixing, processing and copying a frame are an equal content; typing detection and stereo swapping are not modelled.
- The order in which asynchronous processing finishes frames: any order is allowed.
- AudioSystem.CaptureReachesEverySender: a stream's method is one step that takes effect when it calls `UpdateAudioSenders`; in the source `sending_` changes just before that call, so a frame finished in between goes by the transport's list, as it does here, and not by the flag.
- `Transform` on the send side is modelled as two steps, its locked part and the call after it; the transformer itself may answer at any time.
