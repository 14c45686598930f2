# Verified models of the Xperia Z2 Linux port

Dafny models of six parts of this repository, with proofs about every input, run or interleaving.
`dafny verify dfyconfig.toml` checks them all.

**FM capture repair** (`Fm*.dfy`). The plugin of `drivers/audio/fmrepair` keeps a 4096-frame ring, finds outliers
by a 15-sample median, clusters them into bursts, tracks their period, schedules intervals and emits a stream
delayed by 192 frames with those intervals interpolated. `FmDetect`, `FmTracker` and `FmDelivery` give its
meaning on the whole history of a stream: which frames are outliers, which intervals a run schedules and when,
and what is delivered. `FmSchedule`, `FmClusters`, `FmRuns` and `FmOverdue` prove what holds of every run, `FmTheorems`,
`FmAnchors` and `FmLocking` what that means for the output. `FmRepair` is the plugin itself, field by field and loop
by loop, and its `Transfer` is proved to write exactly that output, so every theorem holds of it.

**Touch controller** (`Touch*.dfy`). The report hand-off of `max1187x.c` as a state machine whose steps are the
sections under its mutex and the waits between them; reassembly of multi-packet reports and cutting of commands;
the rounding square root.

**Voice calls** (`Voice*.dfy`). `VoicePath` starts and stops the two directions against a DSP that answers as it
likes, which includes every result that `VoiceSession` allows; `VoiceTrace` is the discipline its commands obey.
`VoiceSession` is the request and reply matching underneath: senders, asynchronous callbacks and reference counts,
with every interleaving of their steps.

**Codec routing** (`IntrusiveLists.dfy`, `CodecRouting.dfy`). The kernel's circular lists as two arrays of links,
and the mixer writes, channel maps and port masks of `wcd9320.c` over them.

**Device trees** (`Dt*.dfy`). The parser and the comparison of `tools/dt-equiv.py`, with an encoder written from
sections 5.2, 5.4 and 5.5 of the Devicetree Specification v0.4.

**Decoders and the clock divider** (`Pm4Decode.dfy`, `Ascii85.dfy`, `ClkDiv.dfy`). PM4 packets and base-85 words
of `tools/ib-at-hang.py`; the rates and register accesses of the PMIC clock divider, with the kernel's
regmap_update_bits as a read and, if the value changes, a write.

## Where the code does less than it says

Each of these is proved below.

- A predicted burst that never showed is not always blanked (the comment in `pcm_fmrepair.c`, line 185, says it
  is). While a cluster is open no miss is noticed, and the predicted interval goes out raw meanwhile: its first frames,
  if the cluster is then rejected, or all of it, if it is a strong one off phase, which is accepted in place of the
  prediction. The interval is honoured whole, or the burst showed after all, if and only if no such cluster was open
  when the tolerance ran out and for three frames more: `FmTheorems.MissedBurstRepaired`,
  `FmLateMiss.LateMissHappens`, `FmLateMiss.SupersededHappens`. A prediction may also be given up earlier, for an
  accepted cluster: `FmOverdue.PredictionKept`.
- A burst is not always replaced by interpolation between good frames (the header, lines 21-22). One that is closed
  for its length less than seven frames after its last outlier is scheduled before the frame after its margin is
  classified, and that frame may turn out an outlier of the next burst: `FmAnchors.AnchorsGood`,
  `FmAnchors.AnchorAtRisk`, `FmAnchors.BadAnchorHappens`, `FmAnchors.SafeAnchorHappens`.
- The update for "a stronger burst two periods late" (line 140) cannot be reached: `FmTracker.LockedCloseIsNear`.
- A send to the DSP can report success for a command the DSP rejected: an idle session expects opcode 0, so a
  stray reply for opcode 0 replaces the status before the sender reads it: `VoiceSession.SuccessMeansReply`,
  `VoiceSession.StrayHidesFailure`. Nor does anything tie a reply to the send that caused it: a late reply to an
  earlier send of the same opcode, which timed out, counts as the answer.
- A rounded rate of 2^31 or more is returned as a negative number: `ClkDiv.NegativeExactly`,
  `ClkDiv.LargeRateIsNegative`. Rounding a rounded rate changes it when the sum in DIV_ROUND_UP wraps, which takes a
  parent above 2^31: `ClkDiv.RoundingIdempotent`, `ClkDiv.WrapBreaksIdempotence`.
- The clock divider can be written while its output is enabled, after a failed read of the enable bit:
  `ClkDiv.Divider.SetRate`, `ClkDiv.WrittenWhileEnabled`.
- The device tree comparison ignores every top-level node whose name begins with "chosen" or "memory", not only
  /chosen and /memory: `DtCompare.SkipMeaning`.

## Model

| member | source | states |
|---|---|---|
| `FmTheorems.AcceptedBurstRepaired` | drivers/audio/fmrepair/pcm_fmrepair.c:127-259 | For every input stream, every frame of every interval scheduled for an accepted burst, margins included, is delivered interpolated: the interval was scheduled before the frame was due and was neither evicted nor dropped while needed |
| `FmLocking.SteadyBurstsRepaired` | drivers/audio/fmrepair/pcm_fmrepair.c:16-25 | End to end: if a stream is heard as bursts of at least 3 outliers whose centres stay at a distance within a window of 150 frames inside the tracker's bounds, with silence between, every frame of every burst, margins included, is delivered interpolated |
| `FmLocking.FlipsRepaired` | drivers/audio/fmrepair/pcm_fmrepair.c:10-25 | On such a stream every sample with its sign bit flipped is repaired, wherever detection completeness applies to it |
| `FmLocking.LockedFromSecond` | drivers/audio/fmrepair/pcm_fmrepair.c:153-158 | On such a stream the tracker is locked after the second burst, at a period within the bursts' own distances |
| `FmLocking.AllHeard` | drivers/audio/fmrepair/pcm_fmrepair.c:127-195 | After any number of such bursts each was on phase and accepted, and exactly those intervals were scheduled |
| `FmTheorems.EveryOutlierJudged` | drivers/audio/fmrepair/pcm_fmrepair.c:91-113 | Every outlier that has been delivered lies in a cluster the tracker closed, with the extent, count and phase the stream gives it; if the cluster was accepted, the outlier was delivered interpolated and never raw |
| `FmClusters.AllAccounted` | drivers/audio/fmrepair/pcm_fmrepair.c:166-195 | On every run every outlier is in the open burst or in a closed cluster; each closed cluster starts at the first outlier after the previous close, has no more than 48 quiet frames in a row, is closed by the first frame that makes it too long or too quiet, and is accepted exactly when dense enough for the tracker's phase; the scheduled seen bursts are the accepted ones, in order |
| `FmClusters.ClustersDetermined` | drivers/audio/fmrepair/pcm_fmrepair.c:166-195 | The outlier flags alone determine the closed clusters: any list of clusters so described, after which nothing more is closed, is the tracker's |
| `FmClusters.ClusterInNumbers` | drivers/audio/fmrepair/pcm_fmrepair.c:127-183 | Each closed cluster was accepted if and only if it has six outliers, or three and lies within 150 frames of the prediction or there was none; it was closed 49 frames after its last outlier or 121 after its first, whichever came first |
| `FmTheorems.MissedBurstRepaired` | drivers/audio/fmrepair/pcm_fmrepair.c:127-195 | Every prediction the tracker is still locked to when its tolerance has run out, 150 frames after it, is honoured, by the burst's showing on phase or by repair of the whole predicted interval, if and only if no other cluster, rejected or off phase, was open from then through frame 154; the comment at line 185 promises it without the condition |
| `FmOverdue.PredictionFate` | drivers/audio/fmrepair/pcm_fmrepair.c:127-195 | How such a prediction is resolved, within 272 frames: by a miss logged then, or by a cluster accepted in its place, the burst itself or one off phase; which of these, and how late, exactly as the clusters say |
| `FmOverdue.PredictionKept` | drivers/audio/fmrepair/pcm_fmrepair.c:127-195 | Before its tolerance runs out a prediction is given up for one reason only: an accepted cluster, on phase or off |
| `FmTheorems.NoticedMissRepaired` | drivers/audio/fmrepair/pcm_fmrepair.c:185-194 | The whole interval of a miss that was logged is repaired if and only if no rejected cluster held its notice up |
| `FmTheorems.MissedFrame` | drivers/audio/fmrepair/pcm_fmrepair.c:185-215 | Frame by frame: a frame of a missed burst's interval is repaired if and only if the miss was noticed before the frame was due; no earlier interval reaches into it |
| `FmOverdue.NoticedLate` | drivers/audio/fmrepair/pcm_fmrepair.c:186-188 | A miss that was logged was noticed 155 frames or more after the prediction if and only if a cluster then rejected held it up |
| `FmLateMiss.LateMissHappens` | drivers/audio/fmrepair/pcm_fmrepair.c:167-195 | A concrete stream where the miss is noticed 200 frames late, behind a stray outlier, and the interval's first frame is delivered raw |
| `FmLateMiss.SupersededHappens` | drivers/audio/fmrepair/pcm_fmrepair.c:133-152 | A concrete stream where a strong off-phase burst takes the place of the predicted one: every cluster is accepted, the miss is never noticed, and the whole predicted interval is delivered raw |
| `FmTheorems.RepairedOrRaw` | drivers/audio/fmrepair/pcm_fmrepair.c:197-218 | Every frame is either interpolated inside a scheduled interval or delivered bit for bit |
| `FmTheorems.RepairedOnRamp` | drivers/audio/fmrepair/pcm_fmrepair.c:197-213 | What a repaired frame is, in integers: on each channel the point nearest to the straight line from the frame before the first interval that covers it to the frame after that interval, halves and negative values rounded as the cast does |
| `FmAnchors.AnchorsGood` | drivers/audio/fmrepair/pcm_fmrepair.c:20-25 | When interpolation is between good frames: the frame after a burst's interval is an outlier only if the burst was cut short, that is closed before that frame was classified, and the frame before it only if an earlier burst, which has that outlier, was |
| `FmAnchors.AnchorAtRisk` | drivers/audio/fmrepair/pcm_fmrepair.c:91-113 | Told when the burst is closed, from the frames that have arrived: some continuation of them makes its far anchor an outlier if and only if the burst was cut short and, in some channel, the anchor's sample is suspect for a median between those that the samples to come give if all are lowest and if all are highest |
| `FmAnchors.RiskExactly` | drivers/audio/fmrepair/pcm_fmrepair.c:91-113 | The same of any frame whose neighbours have arrived: it may still turn out an outlier exactly when it is suspect for a median in that range |
| `FmAnchors.SafeAnchorHappens` | drivers/audio/fmrepair/pcm_fmrepair.c:179-180 | A stream whose accepted burst is cut short and whose far anchor is an outlier in no continuation: being cut short is not enough |
| `FmAnchors.BadAnchorHappens` | drivers/audio/fmrepair/pcm_fmrepair.c:207-212 | A stream of alternating samples in which an accepted burst is cut short and its far anchor is an outlier |
| `FmTheorems.Transparent` | drivers/audio/fmrepair/pcm_fmrepair.c:23-25 | If every 15 consecutive frames of each channel lie in a band of width 6000, the output is 192 frames of silence and then the input, bit for bit |
| `FmTheorems.CuttingIrrelevant` | drivers/audio/fmrepair/pcm_fmrepair.c:225-259 | However the same input is cut into transfer calls, the concatenated output is the same |
| `FmTheorems.OutputCausal` | drivers/audio/fmrepair/pcm_fmrepair.c:235-258 | Frames received later never change what was delivered before |
| `FmTracker.LockedCloseIsNear` | drivers/audio/fmrepair/pcm_fmrepair.c:133-152 | A burst closed while locked has its centre at most 211 frames after the prediction, so the "two periods late" update of line 144 cannot be reached and the period stays strictly between its bounds |
| `FmTracker.After` | drivers/audio/fmrepair/pcm_fmrepair.c:166-195 | On every run from the start: the period stays strictly between P_MIN and P_MAX, an open burst is closed by first + 121, a locked tracker without an open burst is at most 150 frames past its prediction |
| `FmTracker.TrackKeeps` | drivers/audio/fmrepair/pcm_fmrepair.c:166-195 | One classified frame keeps that invariant |
| `FmTracker.PredictedIsNearest` | drivers/audio/fmrepair/pcm_fmrepair.c:134 | The next burst is expected a period after the last centre, to the nearest frame |
| `FmTracker.PeriodMoves` | drivers/audio/fmrepair/pcm_fmrepair.c:129-152 | What an accepted burst does to a locked tracker: a distance between 1050 and 1260 moves the period to it by 15 parts in 100, any other leaves it; the burst becomes the reference and misses are forgotten |
| `FmTracker.LocksExactly` | drivers/audio/fmrepair/pcm_fmrepair.c:153-161 | And to an unlocked one: it locks, to the distance, if and only if that lies between 1050 and 1260 and there was an earlier burst |
| `FmRuns.OneMiss` | drivers/audio/fmrepair/pcm_fmrepair.c:185-192 | In silence a burst that does not come is noticed 151 frames after its time, blanked 30 frames to each side, and counted |
| `FmRuns.SilenceUnlocks` | drivers/audio/fmrepair/pcm_fmrepair.c:185-194 | However long the silence: a locked tracker survives two misses in a row and unlocks at the third, at a time that is stated, having blanked a predicted burst a period after the other, and nothing else |
| `FmSchedule.LogInvariant` | drivers/audio/fmrepair/pcm_fmrepair.c:127-195 | On every run: each interval was scheduled within its cause's bounds (a seen burst by first + 121), seen bursts share no frame, missed ones are 900 frames apart and 900 past any burst seen before |
| `FmSchedule.LogInNumbers` | drivers/audio/fmrepair/pcm_fmrepair.c:115-195 | Each interval reaches from six frames before a burst to six after it, or 30 to each side of a prediction, and was scheduled between the stated numbers of frames later |
| `FmSchedule.FewRecent` | drivers/audio/fmrepair/pcm_fmrepair.c:115-125 | Within the 191 frames an interval can stay pending at most five are scheduled, so the eviction at line 118 never runs |
| `FmDetect.FlipDetected` | drivers/audio/fmrepair/pcm_fmrepair.c:91-113 | Detection completeness: with at most 7 of 15 samples flipped in bit 15 and the true ones in a band at most 12767 wide, the median stays in the band and a flipped centre sample is classified an outlier |
| `FmDetect.BandIsSharp` | drivers/audio/fmrepair/pcm_fmrepair.c:104-108 | 12768 is too wide: a flipped centre that far below constant neighbours passes all three tests |
| `FmDetect.QuietChannel` | drivers/audio/fmrepair/pcm_fmrepair.c:104-110 | A channel that stays within a band of 6000 over the window is never suspected |
| `FmDetect.MedianInBand` | drivers/audio/fmrepair/pcm_fmrepair.c:97-102 | The sorted window's middle is inside a band if at most seven samples lie on either side of it |
| `FmDetect.SortOk` | drivers/audio/fmrepair/pcm_fmrepair.c:101 | The sorting function meets the contract of qsort: ordered, and a permutation |
| `FmDetect.MedianIs` | drivers/audio/fmrepair/pcm_fmrepair.c:97-102 | The base of the verdict is the one value with at most seven of the fifteen samples below it and at most seven above |
| `FmDetect.VerdictInNumbers` | drivers/audio/fmrepair/pcm_fmrepair.c:103-111 | The verdict on a channel as inequalities: more than 20000 from the median; or more than 6000, and with bit 15 inverted less than a third as far; or more than 20000 from the middle of its neighbours |
| `FmDetect.FlipIsBit15` | drivers/audio/fmrepair/pcm_fmrepair.c:106 | Flipping is adding 2^15 modulo 2^16 |
| `FmDelivery.BlendBounded` | drivers/audio/fmrepair/pcm_fmrepair.c:209-212 | The interpolated value lies between its anchors, or one above the higher one when that is negative, so the conversion to 16 bits never wraps |
| `FmDelivery.BlendOnRamp` | drivers/audio/fmrepair/pcm_fmrepair.c:209-212 | The blend in integers: the weighted sum of the anchors over the length, rounded half up where that is not negative and otherwise as truncation does after adding a half |
| `FmDelivery.AnchorsArrived` | drivers/audio/fmrepair/pcm_fmrepair.c:207-210 | Both anchors of any interval in force have arrived when it is needed, and it is at most 134 frames long |
| `FmRepair.FmRepair.constructor` | drivers/audio/fmrepair/pcm_fmrepair.c:261-274 | The initial state satisfies the invariant with nothing received |
| `FmRepair.FmRepair.Transfer` | drivers/audio/fmrepair/pcm_fmrepair.c:225-259 | One transfer call writes exactly the next frames of the reference output of the whole stream received so far, and nothing else of the destination |
| `FmRepair.FmRepair.Step` | drivers/audio/fmrepair/pcm_fmrepair.c:235-257 | One frame in gives the reference output's next frame out |
| `FmRepair.FmRepair.ReadWindow` | drivers/audio/fmrepair/pcm_fmrepair.c:96-99 | Every window read returns the stream's frames at those absolute positions, neither overwritten nor still to come |
| `FmRepair.FmRepair.Classify` | drivers/audio/fmrepair/pcm_fmrepair.c:91-113 | The verdict from the ring is the verdict on the stream |
| `FmRepair.Qsort` | drivers/audio/fmrepair/pcm_fmrepair.c:101 | Sorts in place |
| `FmRepair.FmRepair.AddBlank` | drivers/audio/fmrepair/pcm_fmrepair.c:115-125 | Appends the interval clamped to start at 1, evicting the oldest when full |
| `FmRepair.FmRepair.CloseBurst` | drivers/audio/fmrepair/pcm_fmrepair.c:127-164 | The fields follow the tracker's step, and exactly an accepted burst's interval is appended |
| `FmRepair.FmRepair.Track` | drivers/audio/fmrepair/pcm_fmrepair.c:167-195 | One frame through the tracker refines the value-level step |
| `FmRepair.FmRepair.FewPending` | drivers/audio/fmrepair/pcm_fmrepair.c:118-121 | Between frames at most five intervals are pending |
| `FmRepair.FmRepair.Interpolate` | drivers/audio/fmrepair/pcm_fmrepair.c:209-213 | Interpolation from the ring is interpolation in the stream |
| `FmRepair.FmRepair.Emit` | drivers/audio/fmrepair/pcm_fmrepair.c:198-218 | The frame emitted is the reference delivery of that frame |
| `TouchHandoff.AlwaysBalanced` | drivers/touch/max1187x.c:2460-2542 | In every state of every interleaving the outstanding counter is the number of readers with a grant not yet returned and never wraps; report_sem is 1 exactly when that is 0 and no propagate is inside; every thread's grants and returns balance |
| `TouchHandoff.TimeoutRace` | drivers/touch/max1187x.c:2519-2531 | A reader whose wait failed returns a grant exactly when it was given one, and returns it once |
| `TouchHandoff.FailedWait` | drivers/touch/max1187x.c:2519-2523 | A wait can fail if and only if its reader holds no grant, and it leaves it with none |
| `TouchHandoff.GrantedAfterFailure` | drivers/touch/max1187x.c:2519-2526 | So any grant a failed reader holds was handed out after its wait failed and before it took the mutex |
| `TouchHandoff.LateGrantHappens` | drivers/touch/max1187x.c:2477-2526 | And that happens |
| `TouchHandoff.ReportStable` | drivers/touch/max1187x.c:2460-2497 | The report buffer does not change between a grant and its return, over any run |
| `TouchHandoff.GrantsExactlyTheWanting` | drivers/touch/max1187x.c:2477-2486 | A complete report is granted to exactly the registered readers that asked for its id or for any |
| `TouchHandoff.GrantedByRequest` | drivers/touch/max1187x.c:2477-2486 | In the slots' own terms: a registered reader is granted a complete report if and only if it asked for 0xFFFF or for the report's nonzero id, and every grant is of such a reader |
| `TouchHandoff.RegistersFirstFree` | drivers/touch/max1187x.c:2505-2517 | A reader that finds a free slot takes the first with the id it asks for, and no other slot changes; it finds one if and only if there is one |
| `TouchHandoff.RequestStands` | drivers/touch/max1187x.c:2460-2535 | A request stands as made, through any step of anybody, until its reader leaves the slot |
| `TouchHandoff.NeverStuck` | drivers/touch/max1187x.c:2460-2542 | Unless the next propagate can enter, one inside can finish or every holder has a step of its own left: the hand-off never deadlocks |
| `TouchHandoff.RunKeeps` | drivers/touch/max1187x.c:2460-2542 | Every interleaving of any number of propagators and readers keeps the invariant |
| `TouchReassembly.Reassembles` | drivers/touch/max1187x.c:2421-2458 | Whatever the buffer held, a raw-image report of at most 999 words delivered in order with arbitrary repeats of packets already in is completed exactly once, on its last packet, and then stands word for word in the buffer |
| `TouchReassembly.Receiver.CombineMultipacketReport` | drivers/touch/max1187x.c:2421-2458 | On every packet whose copies stay inside the two buffers, the method on the shared buffer refines the value-level step on which the above is proved |
| `TouchReassembly.FitsExactly` | drivers/touch/max1187x.c:2430-2451 | Which packets those are: sizes up to 245, at most 23 words in a fifth packet and none in a later one; packets that are not combined always |
| `TouchReassembly.RepeatedPacket` | drivers/touch/max1187x.c:2448-2457 | A packet that is already in changes nothing |
| `TouchReassembly.OnePacketReport` | drivers/touch/max1187x.c:2429-2434 | A report of any kind in one packet is complete at once and stands in the buffer behind its header, whatever the buffer held, the rest of which it leaves alone |
| `TouchReassembly.Refused` | drivers/touch/max1187x.c:2439-2457 | Of several packets a first one that is no raw image, and a later one whose number is not the next, fail and leave no trace |
| `TouchReassembly.CmdOnTheWire` | drivers/touch/max1187x.c:573-595 | Each packet of a command: address 0, the number of packets, its own number from 1, its size, nine words but in the last |
| `TouchReassembly.SendMtpCommand` | drivers/touch/max1187x.c:561-606 | Invalid lengths send nothing; otherwise exactly the command's packets go out up to the first the bus refuses, and on success they carry the whole command once, in order |
| `TouchSqrt.Sqrt` | drivers/touch/max1187x.c:608-632 | For every 32-bit number the integer nearest to its square root, or 65535 where that is 65536 |
| `TouchSqrt.NearestRootUnique` | drivers/touch/max1187x.c:625-629 | Exactly one integer is nearest: no tie is possible |
| `VoicePath.VoicePath.Calls` | drivers/audio/q6voice/q6voice.c:224-344 | For every sequence of starts and stops, whatever the DSP, memory and services do: the whole trace obeys the discipline, the path runs exactly when both directions are started, and when none is no session is left on the DSP or in a table |
| `VoicePath.VoicePath.Start` | drivers/audio/q6voice/q6voice.c:224-262 | A second start of a direction is refused without a command; a start succeeds if every command and resource does, and a failure has a cause and leaves that direction off; the discipline and the running state hold either way |
| `VoicePath.VoicePath.PathStart` | drivers/audio/q6voice/q6voice.c:110-222 | Success leaves the path running; it is certain if every command succeeds with a handle and memory and services are there, and a failure returns the code of something that did not; any failure leaves nothing enabled, attached or started, and every session that exists is in the runtime |
| `VoicePath.VoicePath.RaiseAll` | drivers/audio/q6voice/q6voice.c:171-221 | ENABLE, ATTACH, START, then the mute state if asked; the code is that of the first command that failed; on a failure all that was issued, the failed command included, is undone |
| `VoicePath.VoicePath.SetMute` | drivers/audio/q6voice/q6cvp.c:186-203 | One mute command per direction until one fails, only while running, and nothing the discipline tracks changes |
| `VoicePath.VoicePath.Stop` | drivers/audio/q6voice/q6voice.c:322-343 | Stopping one direction stops the path, stopping the last destroys the sessions; stopping one that is not started sends nothing |
| `VoicePath.VoicePath.PathStop` | drivers/audio/q6voice/q6voice.c:265-306 | Everything is undone whatever the DSP answers |
| `VoicePath.VoicePath.PathDestroy` | drivers/audio/q6voice/q6voice.c:308-320 | No session survives; the manager's goes first |
| `VoicePath.VoicePath.SessionCreate` | drivers/audio/q6voice/q6voice-common.c:129-184 | Success means a new entry with a handle; any failure leaves the tables as they were and no orphan on the DSP; a missing service, no memory and an occupied entry are refused without a command, each with its own code |
| `VoicePath.VoicePath.Handshake` | drivers/audio/q6voice/q6voice-common.c:156-183 | A session that failed to be created is destroyed if it got a handle, and unlinked |
| `VoicePath.VoicePath.SessionRelease` | drivers/audio/q6voice/q6voice-common.c:112-126 | The session leaves its table, and the DSP if it ever got a handle |
| `VoicePath.VoicePath.Send` | drivers/audio/q6voice/q6voice-common.c:256-290 | One command the discipline allows extends the trace by it |
| `VoiceTrace.UndoneBefore` | drivers/audio/q6voice/q6voice.c:171-221 | In any disciplined trace, every ENABLE, ATTACH or START issued is undone before the next ENABLE and before any session is created or destroyed |
| `VoiceTrace.UndoneInReverse` | drivers/audio/q6voice/q6voice.c:215-221 | And in exact reverse order |
| `VoiceTrace.ControlledFirst` | drivers/audio/q6voice/q6voice.c:124-137 | The comment's promise: nothing is enabled, attached or started before the manager's session has taken dual control, and that session still exists then |
| `VoiceTrace.RaisedInOrder` | drivers/audio/q6voice/q6voice.c:171-187 | ATTACH is issued only while an ENABLE that succeeded stands, START only while both do |
| `VoiceSession.SuccessMeansReply` | drivers/audio/q6voice/q6voice-common.c:187-290 | What a send's result means, after any run: the first reply for its opcode taken since the command was published answers it (whichever send of that opcode caused it: nothing in a reply says), the last one taken gives the result and is that reply or a stray for opcode 0; success is false news if and only if such a stray with status 0 replaced a failure |
| `VoiceSession.StrayHidesFailure` | drivers/audio/q6voice/q6voice-common.c:200-217 | That happens: for any session, opcode, failure status and port there is a run in which a rejected command is reported as done |
| `VoiceSession.SuccessWithoutStray` | drivers/audio/q6voice/q6voice-common.c:187-290 | With no reply for opcode 0 taken since, a send returns 0 if and only if a status-0 reply to its opcode, from the session's own port, was |
| `VoiceSession.SendEnds` | drivers/audio/q6voice/q6voice-common.c:187-290 | However a send ends, in any run: it reports success only if a status-0 reply to its session was taken since its command was published, failure only if another was; with none taken it reports a refusal if it was refused and otherwise a timeout |
| `VoiceSession.SilenceTimesOut` | drivers/audio/q6voice/q6voice-common.c:276-280 | If the DSP never answers, the only way out of the wait is the timeout, and that is what the send returns |
| `VoiceSession.ReplyTaken` | drivers/audio/q6voice/q6voice-common.c:200-217 | A reply is taken if and only if it is to the opcode expected, from the session's port or while it has none; it then fixes the port, the result and that nothing more is expected |
| `VoiceSession.AnswerEnds` | drivers/audio/q6voice/q6voice-common.c:200-290 | A command answered while its sender waits cannot time out any more, and is done if and only if the status is 0 |
| `VoiceSession.AlwaysSafe` | drivers/audio/q6voice/q6voice-common.c:94-290 | In every reachable state of every interleaving no enabled step touches a freed session, and at most one session is registered per service and path |
| `VoiceSession.HandleFixed` | drivers/audio/q6voice/q6voice-common.c:207-214 | A session's handle, once set, never changes |
| `VoiceSession.RunKeeps` | drivers/audio/q6voice/q6voice-common.c:94-290 | Every run keeps the reference counts, the tables and the evidence for every result |
| `VoiceSession.CountNeverRunsOut` | drivers/audio/q6voice/q6voice-common.c:125-246 | A reference that is due can always be dropped |
| `CodecRouting.Codec.SlimRxMuxPut` | drivers/audio/wcd9320/wcd9320.c:453-504 | The port moves to the end of the selected interface's list and off any other, an unselected or unknown value leaves it on none, an equal value changes nothing; the lists stay well formed and in selection order |
| `CodecRouting.Codec.SlimTxMixerPut` | drivers/audio/wcd9320/wcd9320.c:528-562 | The port joins or leaves a capture list exactly when its bit changes; other interfaces are refused unchanged |
| `CodecRouting.Codec.GetChannelMap` | drivers/audio/wcd9320/wcd9320.c:2688-2738 | Distinct channel numbers, all of the interface's ports in selection order; the bound of the array is never what ends the walk |
| `CodecRouting.Codec.SlimSetHwParams` | drivers/audio/wcd9320/wcd9320.c:2413-2441 | The channel count equals the number of bits in the port mask and of list entries, and the channels are theirs in order |
| `CodecRouting.Codec.constructor` | drivers/audio/wcd9320/wcd9320.c:4185-4204 | All lists start empty and well formed |
| `CodecRouting.MovedRouted` | drivers/audio/wcd9320/wcd9320.c:473-496 | Moving an RX port keeps: a port is on interface k's list if and only if its stored value selects k |
| `CodecRouting.RoutedByValue` | drivers/audio/wcd9320/wcd9320.c:479-492 | Which interface a value means: RX port p is on list 0, 2 or 4 exactly if its value is 1, 2 or 3, and on no other list |
| `CodecRouting.ChannelsByValue` | drivers/audio/wcd9320/wcd9320.c:2700-2730 | The channels an interface is given: 144 + p on exactly the playback interface that port p's value means, 128 + q on a capture interface exactly if TX port q is on, and never on a playback one |
| `CodecRouting.SwitchedRouted` | drivers/audio/wcd9320/wcd9320.c:545-552 | Switching a TX port keeps: it is on exactly one capture list if and only if its bit is set |
| `CodecRouting.MovedOrdered` | drivers/audio/wcd9320/wcd9320.c:476-492 | The lists stay ordered by when their ports were last selected |
| `CodecRouting.ListFits` | drivers/audio/wcd9320/wcd9320.c:2708-2728 | A playback list holds only RX ports and a capture list only TX ports, so neither overflows its slot array |
| `CodecRouting.PortsCount` | drivers/audio/wcd9320/wcd9320.c:2428-2432 | As many port bits as list entries |
| `IntrusiveLists.AddKeeps` | drivers/audio/wcd9320/wcd9320.c:482-491 | Adding a loose node at a tail keeps all lists circular, both ways round, and disjoint |
| `IntrusiveLists.DelKeeps` | drivers/audio/wcd9320/wcd9320.c:476 | Deleting a node keeps them so, whether or not it is on a list |
| `IntrusiveLists.Links.ListAddTail` | drivers/audio/wcd9320/wcd9320.c:482-483 | The link updates append the node to that list and change no other |
| `IntrusiveLists.Links.ListDelInit` | drivers/audio/wcd9320/wcd9320.c:476 | The link updates take the node off whatever list it is on and leave it self-linked |
| `DtPaths.RoundTrip` | tools/dt-equiv.py:34-57 | For every tree with clean, unique sibling names, loading any blob of it in the format of sections 5.2, 5.4 and 5.5 of the Devicetree Specification v0.4, padding and NOP tokens included, gives exactly the map from full path to properties |
| `DtPaths.NodesApart` | tools/dt-equiv.py:48-54 | Different nodes of such a tree have different keys in that map |
| `DtPaths.RoundTripInImage` | tools/dt-equiv.py:36-57 | The same for a blob inside a boot image, if its header gives its size and no magic number comes after its own |
| `DtPaths.KeyInjective` | tools/dt-equiv.py:48-54 | Different paths have different keys |
| `DtParser.Load` | tools/dt-equiv.py:34-57 | On every file the loader terminates with the table of the blob it finds there, or fails where the tool raises an exception |
| `DtParser.NoMagicNoTable` | tools/dt-equiv.py:36-40 | A file without the magic number always ends in an exception |
| `DtParser.WordIsBigEndian` | tools/dt-equiv.py:43 | Words are read most significant byte first |
| `DtCompare.NoDifferenceMeans` | tools/dt-equiv.py:63-109 | What a report of no difference means of the two trees alone: the same paths and property names are kept, and each value has equal bytes, or equal length and cells that are each equal or phandles of the same path in both; whenever that is not so a difference is reported, and only then if phandles are unique |
| `DtCompare.HardwareMeans` | tools/dt-equiv.py:85-109 | The same, cell by cell, for given phandle maps: in exact words what each kept value must be |
| `DtCompare.NoFindingsMeansSame` | tools/dt-equiv.py:85-109 | No difference is reported if and only if the kept paths are equal, the property names are equal, and each value is equal or cell by cell equal up to phandles of the same path |
| `DtCompare.RenumberingInvisible` | tools/dt-equiv.py:63-109 | Any one-to-one renumbering of unique phandles, applied where they are declared and to any cells that refer to them, gives 0 differences, in whatever order nodes are visited |
| `DtCompare.ReorderingInvisible` | tools/dt-equiv.py:34-109 | Two blobs of trees with the same properties at every path, in any order of nodes and properties, load equal and give 0 differences |
| `DtCompare.Compare` | tools/dt-equiv.py:85-108 | The problem count is the number of findings, each counted once |
| `DtCompare.CompareNode` | tools/dt-equiv.py:92-107 | Likewise within one node |
| `DtCompare.CollectPhandles` | tools/dt-equiv.py:63-69 | The loop computes the phandle map, or fails on a phandle that is not four bytes |
| `DtCompare.PhandlesExact` | tools/dt-equiv.py:63-69 | With unique phandles it names the node |
| `DtCompare.LastDeclares` | tools/dt-equiv.py:63-69 | Of several nodes that declare a phandle it names the last one visited |
| `DtCompare.SkipMeaning` | tools/dt-equiv.py:59-61 | Left out are exactly the nodes at or below a child of the root whose name begins with "chosen" or "memory", which is more than the documentation says |
| `Pm4Decode.RoundTrip` | tools/ib-at-hang.py:131-144 | Decoding the encoding of any list of well-formed packets returns that list at the right offsets, whatever the unused header bits hold |
| `Pm4Decode.DecodeTiles` | tools/ib-at-hang.py:131-144 | On arbitrary words the packets tile the stream to its end |
| `Pm4Decode.OffsetsIncrease` | tools/ib-at-hang.py:131-144 | Offsets increase contiguously; only the last packet can be cut short |
| `Pm4Decode.Packets` | tools/ib-at-hang.py:131-144 | The generator yields those packets on any words |
| `Pm4Decode.DecodedByBits` | tools/ib-at-hang.py:131-144 | A packet in terms of its header's bits: type from the top two, length from the next fourteen, register and repeat flag or operation from the lower half, and the words that follow or what there is of them |
| `Pm4Decode.RegisterState` | tools/ib-at-hang.py:227-234 | After a run of packets every register holds the last value written to it, and only written registers are there |
| `Pm4Decode.RegistersAfter` | tools/ib-at-hang.py:232-234 | After a type-0 packet a repeated register holds the last word, otherwise consecutive registers hold a word each, and every other register is as before |
| `Ascii85.Decode` | tools/ib-at-hang.py:99-107 | The loop decodes any text, short last groups included |
| `Ascii85.RoundTrip` | tools/ib-at-hang.py:99-107 | Decoding inverts base-85 encoding, zero written as z, for every sequence of 32-bit words and any white space |
| `Ascii85.FiveDigits` | tools/ib-at-hang.py:104-106 | Five characters are five digits in base 85, most significant first, from an exclamation mark for 0 |
| `Ascii85.StripsAnywhere` | tools/ib-at-hang.py:100 | White space is taken out wherever it stands, and nothing else is |
| `ClkDiv.RoundedIsExact` | drivers/clk/pmic-clkdiv/clk-spmi-pmic-div.c:115-165 | For every rate and parent, setting the rounded rate and reading it back gives exactly what was returned, if and only if that was not negative; it is positive exactly when the quotient is below 2^31 |
| `ClkDiv.NegativeExactly` | drivers/clk/pmic-clkdiv/clk-spmi-pmic-div.c:115-125 | The returned long is negative if and only if the parent is 2^31 or more and is not divided, which is when the rate is at least the parent or the rounding sum wraps |
| `ClkDiv.LargeRateIsNegative` | drivers/clk/pmic-clkdiv/clk-spmi-pmic-div.c:124 | A concrete case: -2^31 for a parent of 2^31 asked for its own rate |
| `ClkDiv.RoundingIdempotent` | drivers/clk/pmic-clkdiv/clk-spmi-pmic-div.c:115-125 | Rounding twice changes nothing if and only if the rounding sum fits 32 bits or the rate was the parent's |
| `ClkDiv.IdempotentBelowHalf` | drivers/clk/pmic-clkdiv/clk-spmi-pmic-div.c:115-125 | It always does for a parent of at most 2^31, and the rate is positive unless it is 2^31 itself |
| `ClkDiv.WrapBreaksIdempotence` | drivers/clk/pmic-clkdiv/clk-spmi-pmic-div.c:120 | It does not for the largest parent: the second rounding returns -1 |
| `ClkDiv.RoundRateIs` | drivers/clk/pmic-clkdiv/clk-spmi-pmic-div.c:115-125 | A rounded rate is, as a long, the parent divided by a power of two up to 64, the largest not above the quotient rounded up |
| `ClkDiv.Divider.SetRate` | drivers/clk/pmic-clkdiv/clk-spmi-pmic-div.c:139-165 | On success the factor is in and every other bit, enable included, is as before; on failure the output is as before or off; the divider is written while the output is enabled if and only if the read of the enable bit failed and the update then went on to change the factor |
| `ClkDiv.WrittenWhileEnabled` | drivers/clk/pmic-clkdiv/clk-spmi-pmic-div.c:52-59 | That happens: a failed status read counts as disabled |
| `ClkDiv.Divider.SetRoundedRate` | drivers/clk/pmic-clkdiv/clk-spmi-pmic-div.c:115-165 | Round, give up if negative, set and read back: the rate promised is the rate read, and the enable bit is kept |
| `ClkDiv.Divider.UpdateFactor` | drivers/clk/pmic-clkdiv/clk-spmi-pmic-div.c:156-159 | One read, then one write if the factor field changes; nothing else is touched |
| `ClkDiv.Divider.UpdateEnable` | drivers/clk/pmic-clkdiv/clk-spmi-pmic-div.c:61-80 | Likewise for the enable bit |
| `ClkDiv.DividerFor` | drivers/clk/pmic-clkdiv/clk-spmi-pmic-div.c:39-50 | The two conversions together give the largest power of two not above a quotient, at most 64 |
| `ClkDiv.FactorTable` | drivers/clk/pmic-clkdiv/clk-spmi-pmic-div.c:39-45 | The dividers of the eight factors: 1, 1, 2, 4, 8, 16, 32 and 64 |
| `ClkDiv.RateFactorIs` | drivers/clk/pmic-clkdiv/clk-spmi-pmic-div.c:139-157 | The divider programmed for a rate is the largest not above the quotient rounded down, and the factor is 0 exactly for rates above the parent |
| `ClkDiv.FactorReadsBack` | drivers/clk/pmic-clkdiv/clk-spmi-pmic-div.c:133-157 | The factor field reads back as written |
| `ClkDiv.FieldsInPlace` | drivers/clk/pmic-clkdiv/clk-spmi-pmic-div.c:61-80 | Bit by bit: the factor is in the low three bits, the enable in the top one, and writing either leaves the others alone |

## Left out

FM capture repair
- Plugin registration, configuration and channel-area pointers; source and destination are arrays of frames, and are not the same array.
- The ring of outlier flags (`outlier` in `fm_t`), which is written and never read.
- The frame counters are unbounded rather than 64 bits wide, and `period` is a real rather than an IEEE double, so rounding of the period and of the interpolation fraction is not modelled.
- The sorting of the window is qsort by its contract.

Touch controller
- TouchHandoff.RunKeeps: the hand-off is a state machine on values, not a class, because its claims are about interleavings of several threads; the shutdown broadcast (a nonzero status), `report_read`, whose early returns do not pair with `release_report`, the return code of a reader that finds no free slot (nothing changes) and `process_rbcmd` are not modelled.
- TouchReassembly.Reassembles: reports of more than 999 words, and one-packet reports in the middle of another report.
- TouchReassembly.Receiver.CombineMultipacketReport: a packet whose copies would leave the buffers, which the source does not look for; `TouchReassembly.FitsExactly` says which those are. The reading of a packet admits at most 245 words (line 493).
- I2C transfers are an oracle for how many packets go through; regulators, sysfs, suspend and firmware updates.

Voice calls
- VoiceSession.RunKeeps: a state machine on values for the same reason; the 300 ms of the timeout (it may end any wait that has no reply yet), replies other than basic results (ignored by the source), removal of a service that has sessions, the packet layouts, and which send caused a reply, which a reply does not say.
- VoicePath.VoicePath.Calls: `require_both=N`, `attach_stream`, `playback_port` and `q6voice_free`; calls on one path are serialised by its lock, as in the source.

Codec routing
- DAPM, register and SLIMbus writes with the `payload` mask made for them, `set_channel_map`, null arguments and the error return for an unknown interface in `get_channel_map`; bit masks are sets of bit positions.

Device trees
- DtParser.Load: decoding names as UTF-8 (names are bytes).
- DtCompare.Compare: `--rename`, printing, and the sorted order of the output.

Decoders
- Parsing of the dump and of the register database, printing, `a85` white space beyond ASCII (Unicode spaces), and the state fold stopping at the indirect buffer's call.

Clock divider
- ClkDiv.RoundedIsExact: a parent rate of 0, which rounds to 0; the delays after switching, a failing register read in `recalc_rate` (it is ignored and the factor is then undefined) and the enable and disable callbacks. `unsigned long` is 32 bits wide, as on this machine.

Not modelled at all: panel drivers, camera sensors, the FM radio control driver, L2 cache and CPU frequency tables, the remaining audio service wrappers, symbol-version and frame-comparison tools, RDS decoding, device tree sources. They are constant tables, hardware plumbing or would add only easy members.
