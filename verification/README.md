# Verification of the AES67 daemon

A Dafny model of the stateful protocols of the AES67 Linux daemon, with proofs of what they
keep. `dafny verify dfyconfig.toml` checks everything.

What is modelled, module by module:

- `PtpSeqlock`: the shared-memory clock segment. The writer records the memory after every
  store of a 32-bit word; a reader is given the moments of its loads, so the theorems quantify
  over all sequentially consistent interleavings.
- `Text`, `TextLaws`, `PacketTime`, `Sdp`, `SdpRoundTrip`, `ParserLaws`, `NmosSdp`, `SdpAgreement`,
  `MarkedNames`: session descriptions (sections 5.2, 5.7, 5.14 and 6 of RFC 4566, section 3 of RFC
  7104), printed and parsed character by character, and the second, text-searching reader of the
  NMOS side.
- `NmosView`, `Activation`, `ActivationRuns`: the sink table, the event queue and the receiver
  table as a state machine over lock boundaries; the IS-05 activation that travels through the
  same queue; and both together, with the critical sections of activations as separate steps.
- `SessionTables`, `SessionManager`: sinks, sources, driver handles and multicast reference
  counts, through updates and failed driver calls.
- `ChannelMap`, `ChannelActions`, `RawOutputs`, `Schedule`, `ScheduledMaps`: IS-08 actions, the
  reported active map, and scheduled activations with output locks and what they do.
- `Register`, `Crc16`, `Aes3Crc`, `Am824`, `Am824Framer`: the checksums against bitwise
  division, and the AM824 framer over whole runs.
- `SapAnnouncer`, `Monitor`, `SinkUpdate`, `SessionVersions`, `Streamer`: announcements and
  deletions, IS-12 notifications and transition counters, automatic sink updates, session
  versions, and the capture ring.

Code that changes objects is a class whose methods are proved against functions on values; the
theorems are about those functions. What the outside world decides (driver and kernel answers,
clocks, fetched descriptions, the order in which ids sort) is a parameter, so the theorems hold
for every choice.

## Where the code falls short of its intention

Each of these is a lemma with the exact condition or a concrete run.

- A packet time that is a whole multiple of 10 ms loses integer digits when the trailing zeros
  are stripped (`PacketTime.WholeTensAreLost`, `PacketTime.AtMostOneIsLost`).
- The daemon rejects its own description of a source whose packets have no samples or which
  sends to 255.255.255.255 (`SdpRoundTrip.RoundTrip`), and one whose name has a line of its own
  that is no field (`SdpRoundTrip.LineInNameIsRead`).
- A codec name is stored with spaces and slashes, which cut it when it is read back: "L16/2" comes
  back as L16 at 2 Hz (`SdpRoundTrip.LegsAreRecovered`, `SdpRoundTrip.NumberAfterSlash`).
- A session name that holds a section, filter or group marker misleads the text search that
  starts from it; an address marker alone does no harm (`MarkedNames.DestinationSeenExactly`,
  `MarkedNames.SourceSeenExactly`, `MarkedNames.DupSeenExactly`, and the same for second legs).
- Several origin lines are read differently by the two readers of origins
  (`SinkUpdate.OriginsAgreeExactly`, `SinkUpdate.TwoOriginsDisagree`).
- When the driver refuses the second leg of a source, the handle rolled back is the old table
  entry's, or for a new source one read through the end iterator; the first leg's stream leaks,
  and a value read there can end another stream (`SessionTables.StepOwns`,
  `SessionTables.StepLeaks`, `SessionTables.LeakStays`).
- The result of a group join is not looked at: after a refused first join the counts are wrong
  (`SessionTables.StepCounts`).
- After an activation that changes its sink the rebuilt receiver never shows the activation
  record, and it keeps its sender only if no other registration of the sink is under way or
  follows, a heartbeat's included (`ActivationRuns.SenderKeptExactly`,
  `ActivationRuns.StateKeptExactly`). A refused sink change leaves a sender behind for a later,
  unrelated change to report (`Activation.RefusedActivationLeavesItsSender`).
- The write at the end of an activation can restore an older sink in the receiver table, exactly
  when the sink changed after it was looked up and the worker does not write the receiver again
  (`NmosView.DrainedMeansEqual`, `NmosView.CopyingBackCanBeLate`).
- Disabling a receiver hands the session manager a sink with an empty URL, which it refuses: the
  stream keeps running, and the next registration shows the receiver as enabled again
  (`Activation.DisablingIsUndone`, `ActivationRuns.StateKeptExactly`).
- An output that occurs twice in a scheduled IS-08 request loses all fragments but its last
  (`ChannelActions.AlikeExactlyWhenHarmless`, `ChannelActions.RepeatedOutputIsLost`).
- Session versions need not go up with two update observers
  (`SessionVersions.ReAddedAfterRefresh`).
- The two counter tests of the clock segment let a mixed copy through when one attempt spans 2^31
  publishes (`PtpSeqlock.CounterTestsExactly`, `PtpSeqlock.WrapLetsAMixThrough`).
- The streamer's output buffer is only large enough when the codec block divides the file
  (`Streamer.BufferIsSafeExactly`), and the first read overruns a buffer of less than one chunk
  (`Streamer.Capture.Turn`).
- A framer with 0 channels behaves as one with 256, because its counter has 8 bits
  (`Am824Framer.Framer.GetAM824Sample`); one with an unsupported bit depth has a wrong check byte
  (`Am824Framer.UnsupportedCheck`); input above the bit depth shows in the marks and can spoil the
  parity (`Am824.AnyWordReads`).

## Model

| member | source | states |
|---|---|---|
| `PtpSeqlock.Writer.constructor` | ptp-clock-manager/main.cpp:43-46 | creating the segment is recorded memory by memory: cleared, then magic, then version, generation 0 |
| `PtpSeqlock.Writer.Publish` | ptp-clock-manager/main.cpp:49-68 | a publish between two counter increments extends the recording store by store and adds exactly one generation; at every even count the memory is a whole generation |
| `PtpSeqlock.WriterTraceIsRecorded` | ptp-clock-manager/main.cpp:49-68 | the memory after every store of any sequence of publishes, in the order of the stores, is a recording in which every single store shows |
| `PtpSeqlock.PublishEnds` | ptp-clock-manager/main.cpp:49-68 | the fifteen word stores of a publish lead from one whole generation to the next |
| `PtpSeqlock.StoresCoverTheSample` | ptp-clock-manager/main.cpp:54-67 | no field of the previous generation survives the stores of a complete publish |
| `PtpSeqlock.Copy` | daemon/ptp_clock_shm.cpp:23 | the copy takes every word at its own moment of the schedule |
| `PtpSeqlock.Try` | daemon/ptp_clock_shm.cpp:21-27 | one attempt reports success exactly when no publish is under way during it, and then its copy is one memory |
| `PtpSeqlock.CopyIsOneGeneration` | daemon/ptp_clock_shm.cpp:21-27 | an undisturbed copy, word by word at any moments, is one generation and no mix |
| `PtpSeqlock.EqualCountersMeanNoWrite` | daemon/ptp_clock_shm.cpp:21-24 | the two tests on the 32-bit counter hold exactly when no publish overlaps the copy, as long as one attempt does not outlast 2^31 publishes |
| `PtpSeqlock.CounterTestsExactly` | daemon/ptp_clock_shm.cpp:21-24 | without any bound, the two tests hold exactly when the count is even before and the total number of increments grew by a multiple of 2^32 |
| `PtpSeqlock.Read` | daemon/ptp_clock_shm.cpp:18-32 | in every interleaving a successful read holds exactly one generation that was complete between the start and the end of the read; a read one of whose five attempts overlaps no publish succeeds |
| `PtpSeqlock.ReadsNeverGoBack` | daemon/ptp_clock_shm.cpp:18-32 | a read that starts after another has ended never reports an older generation |
| `PtpSeqlock.WrapLetsAMixThrough` | daemon/ptp_clock_shm.cpp:21-24 | a recording the writer makes store by store, 2^31 publishes long, in which a copy mixed from two generations passes both counter tests |
| `PtpSeqlock.ReadFresh` | daemon/ptp_clock_shm.cpp:35-43 | success means one complete generation whose published monotonic time, its high word taken as signed, is no older than asked; failure of a readable segment means one that is older |
| `Text.DottedRoundTrip` | daemon/session_manager.cpp:285-291 | every printed IPv4 address is parsed back to itself |
| `Text.LinesOfUnlines` | daemon/session_manager.cpp:100-104 | reading lines gives back the lines a text was built from |
| `PacketTime.PtimeIsSeen` | daemon/session_manager.cpp:771-779 | what remains of the printed packet time after stripping zeros and dots: the same number, or a whole number without its trailing zeros |
| `PacketTime.RoundsToNearestEven` | daemon/session_manager.cpp:772-777 | the printed decimal is the nearest one, and the even one of two that are as near |
| `PacketTime.PacketTimeBound` | daemon/session_manager.cpp:204-209 | for every sample count and rate the parser reads n, or n-1 exactly when rounding to 12 decimals went down, unless the packet time is a whole multiple of 10 ms |
| `PacketTime.WholeTensInTicks` | daemon/session_manager.cpp:771-779 | a packet time is a whole multiple of 10 ms, exactly when a hundred times the samples divide by the rate, if and only if the printed decimal is one |
| `PacketTime.ExactDecimalIsKept` | daemon/session_manager.cpp:771-779 | when the 12-digit decimal is exact the count is read back unchanged |
| `PacketTime.WholeTensAreLost` | daemon/session_manager.cpp:778-779 | for every whole multiple of 10 ms the stripped text loses its trailing zeros: the samples divided by that power of ten are read back, at most a tenth |
| `PacketTime.AtMostOneIsLost` | daemon/session_manager.cpp:204-209 | for every sample count and rate: all samples or all but one are read back if and only if the packet time is no whole multiple of 10 ms, or the packet has a single sample |
| `Sdp.ParseSdp` | daemon/session_manager.cpp:96-333 | the line loop computes the parse function for every text, and only ever touches the two media slots |
| `SdpRoundTrip.ReadOrigin` | daemon/session_manager.cpp:122-136 | the printed origin line is read as its six fields |
| `SdpRoundTrip.ReadMedia` | daemon/session_manager.cpp:242-261 | the printed media line opens the next slot with its port and payload type |
| `SdpRoundTrip.ReadConnection` | daemon/session_manager.cpp:262-312 | the printed connection line sets address and TTL, and is rejected exactly for 255.255.255.255 |
| `SdpRoundTrip.ReadRtpmap` | daemon/session_manager.cpp:171-198 | the printed rtpmap line of any one-line codec: codec and rate as the fields cut at spaces and slashes give them, or rejection where a number is expected and none is there |
| `SdpRoundTrip.CodecIsKept` | daemon/session_manager.cpp:175-188 | the codec is read back exactly when it holds neither space nor slash, and then with the rate |
| `SdpRoundTrip.NumberAfterSlash` | daemon/session_manager.cpp:175-188 | a codec with a number after a slash is read back without it, and the number as the sampling rate |
| `SdpRoundTrip.ReadPtime` | daemon/session_manager.cpp:204-209 | the printed packet time sets the sample count that is read back at the rate the parser has; a packet without samples is rejected |
| `SdpRoundTrip.ReadRefclk` | daemon/session_manager.cpp:219-235 | the printed clock reference is accepted by a parser exactly if it is traceable, the parser is told not to look, or the parser has the same clock and domain |
| `SdpRoundTrip.ReadSection` | daemon/session_manager.cpp:791-815 | a whole printed media section is parsed into its slot |
| `SdpRoundTrip.RoundTrip` | daemon/session_manager.cpp:761-846 | for every stored source with a one-line name and one-line codecs, parsing the printed description, also by a daemon with another clock state, recovers the origin and both legs as the lines are read, with the sample count that the packet time gives, or is rejected; it is rejected exactly when a packet has no samples, a leg goes to 255.255.255.255, a codec with separators leaves no number where one is read, or the clock reference is not accepted |
| `SdpRoundTrip.LegsAreRecovered` | daemon/session_manager.cpp:761-846 | of an accepted description every leg has its address, port, payload type and TTL back, and its codec if and only if that holds neither space nor slash; then also the rate, and the sample count up to what the packet time loses; the bytes of a sample are those of the codec read |
| `SdpRoundTrip.LineInNameIsRead` | daemon/session_manager.cpp:786 | a line break in the session name starts a line of the description; if what follows is no field, the daemon rejects its own description |
| `ParserLaws.ReadAddress` | daemon/session_manager.cpp:262-312 | an address line, with or without TTL, sets its section, or both slots in front of all sections, or nothing behind the time line; 255.255.255.255 is refused where it counts |
| `ParserLaws.SessionAddressReaches` | daemon/session_manager.cpp:299-308 | an address in front of all sections reaches a section that has none of its own |
| `ParserLaws.AudioOpensASlot` | daemon/session_manager.cpp:242-261 | an audio section opens the next slot with its port and first payload type in their widths; the third one ends the reading |
| `ParserLaws.OtherMediaArePassedOver` | daemon/session_manager.cpp:251 | a section of another medium changes nothing |
| `ParserLaws.NothingBehindTheThird` | daemon/session_manager.cpp:104 | nothing behind a third audio section is read |
| `ParserLaws.OtherFormatsAreIgnored` | daemon/session_manager.cpp:182-183 | the format of another payload type than the announced one is ignored |
| `ParserLaws.OffsetsAreRead` | daemon/session_manager.cpp:199-218 | both ways to give an RTP offset set it modulo 2^32 |
| `ParserLaws.UnknownAttributesAreIgnored` | daemon/session_manager.cpp:141-238 | attributes the parser does not know change nothing, in a section or in front of all |
| `ParserLaws.SessionAttributes` | daemon/session_manager.cpp:153-166 | a group counts if it is a duplication; a clock domain that is not PTP is refused |
| `ParserLaws.TooFewFields` | daemon/session_manager.cpp:125-127 | sections, addresses that count and formats with too few fields are refused, origins are skipped |
| `ParserLaws.OtherNetworksAreRefused` | daemon/session_manager.cpp:278-283 | another network or address type is refused where the address counts |
| `ParserLaws.NoFieldIsRefused` | daemon/session_manager.cpp:107-111 | a line without type and equals sign is refused |
| `ParserLaws.OtherLines` | daemon/session_manager.cpp:313-319 | a version other than 0 and types other than lower-case letters are refused, the rest is taken |
| `ParserLaws.TwoLegsExactly` | daemon/session_manager.cpp:322-325 | a stream has two legs exactly with a group and a second section |
| `TextLaws.NumbersAreRead` | daemon/session_manager.cpp:183-189 | a number with spaces in front, a sign and other characters behind is read with its sign, modulo 2^64 where it is read unsigned, and is refused exactly when it does not fit |
| `TextLaws.NoNumberIsRead` | daemon/session_manager.cpp:183-189 | without a digit behind spaces and sign there is no number |
| `TextLaws.DecimalsAreRead` | daemon/session_manager.cpp:204-209 | a decimal with a point keeps all its digits and their places |
| `TextLaws.WholeDecimalsAreRead` | daemon/session_manager.cpp:204-209 | a decimal without a point is read as a whole number |
| `TextLaws.AddressesExactly` | daemon/session_manager.cpp:284-292 | a text is read as an address exactly if it is the one printed for that address |
| `TextLaws.TrimExactly` | daemon/session_manager.cpp:105 | trimming takes the spaces off both ends and nothing else |
| `SdpAgreement.ReadLeg` | daemon/nmos_manager.cpp:1100-1127 | address and port helpers read the media and connection lines of a leg |
| `SdpAgreement.ReadFilterIp` | daemon/nmos_manager.cpp:1130-1144 | the source filter helper reads the sender address of a leg |
| `SdpAgreement.HelpersAgree` | daemon/nmos_manager.cpp:1095-1144 | on every printed description whose session name and codecs hold no section, filter or group marker, the text-search helpers read the printed address, port, source filter and number of legs |
| `SdpAgreement.TpsOfPrinted` | daemon/nmos_manager.cpp:1285-1317 | the transport parameters built from a printed description are those of its legs; a second interface is disabled for a one-leg stream |
| `NmosSdp.NothingSaid` | daemon/nmos_manager.cpp:1285-1296 | a description without section and filter markers gives a leg without multicast address, on port 5004, from any source |
| `NmosSdp.NoSourceSaid` | daemon/nmos_manager.cpp:1130-1144 | no source is read without a filter, or without a space behind its destination |
| `SdpAgreement.ReadersAgree` | daemon/nmos_manager.cpp:1095-1144 | the parser and the text-search helpers agree leg by leg on every such description |
| `MarkedNames.DupSeenExactly` | daemon/nmos_manager.cpp:1095-1097 | on every printed description the text search reports two legs exactly when there are two or the session name holds the group marker |
| `MarkedNames.DestinationSeenExactly` | daemon/nmos_manager.cpp:1100-1127 | for every name: the text searches find destination and port of the first leg if the name holds no section marker, and otherwise read both from the name and the line after it |
| `MarkedNames.NoAddressInName` | daemon/nmos_manager.cpp:1107-1110 | a section marker without an address marker in the name gives no destination |
| `MarkedNames.SourceSeenExactly` | daemon/nmos_manager.cpp:1130-1144 | for every name: the sender address of the first leg is found if the name holds no filter marker, and otherwise read from the name and the line after it |
| `MarkedNames.SecondDestinationSeenExactly` | daemon/nmos_manager.cpp:1100-1127 | destination and port of a second leg, for every name: with one section marker those of the first section, with more those of the name, without any the right ones |
| `MarkedNames.SecondSourceSeenExactly` | daemon/nmos_manager.cpp:1130-1144 | the sender address of a second leg, for every name: with one filter marker that of the first leg, with more what the name has, without any the right one |
| `NmosView.StepKeeps` | daemon/nmos_manager.cpp:2743-2832 | every client, worker and activation step keeps the last queued event of each sink in line with the sink table, what the worker wrote and what the receiver shows in line with both, and versions in order |
| `NmosView.RunKeeps` | daemon/nmos_manager.cpp:2888-2951 | the same at every point of every run |
| `NmosView.ViewFollowsTable` | daemon/session_manager.cpp:1049-1142 | if events for a sink are pending the last one is Added exactly when the sink exists; if nothing is under way the worker has registered what the table holds, and the receiver shows the same version exactly when no outdated copy was written since |
| `NmosView.DrainedMeansEqual` | daemon/nmos_manager.cpp:2912-2951 | a drained queue means the receivers are exactly the sinks, each in its current version if and only if no activation copied an outdated one into it since the worker wrote it |
| `NmosView.WorkerProgress` | daemon/nmos_manager.cpp:2929-2951 | every worker step brings the end of the queue nearer while clients pause |
| `NmosView.DrainMakesEqual` | daemon/nmos_manager.cpp:2929-2951 | from every reachable state the worker alone makes the tables equal |
| `NmosView.CopyingBackCanBeLate` | daemon/nmos_manager.cpp:1713-1721 | a reachable drained state in which a receiver keeps showing an older sink, left by the write at the end of an activation |
| `NmosView.WritesAreOwed` | daemon/nmos_manager.cpp:2888-2951 | while a sink is in the table every request to register it, queued, listed or in the worker's hands, becomes exactly one write of its receiver |
| `NmosView.StoringAsAWhole` | daemon/session_manager.cpp:1049-1113 | a client that stores a sink announces the old one as removed, if there was one, and the new one as added, and leaves it in the table in a version of its own |
| `NmosView.RemovingAsAWhole` | daemon/session_manager.cpp:1116-1142 | a failed update and a removal both leave no entry and one announced removal |
| `NmosView.CallbacksOnlyQueue` | daemon/nmos_manager.cpp:336-342 | a registry that is found queues a new registration of everything; a heartbeat the registry does not know starts one |
| `Activation.Registration.RegisterSinkLocal` | daemon/nmos_manager.cpp:2743-2791 | registers the looked-up sink, taking over a preserved sender once |
| `Activation.Registration.UnregisterSink` | daemon/nmos_manager.cpp:2809-2824 | removes just that receiver |
| `Activation.Registration.FullRegistration` | daemon/nmos_manager.cpp:2826-2832 | registers every sink again, using up preserved senders |
| `Activation.Registration.ProcessEvents` | daemon/nmos_manager.cpp:2933-2951 | handles the queued events in order until none is left |
| `Activation.Registration.PromoteStaged` | daemon/nmos_manager.cpp:1680-1692 | the first critical section: promotes a snapshot of the staged state and leaves its sender to be restored, or finds no receiver |
| `Activation.Registration.ConnectSink` | daemon/nmos_manager.cpp:1694-1712 | the second: hands the sink to the session side, which updates it with two events, loses it with one, or refuses |
| `Activation.Registration.RefreshSink` | daemon/nmos_manager.cpp:1714-1721 | the third: copies the current sink into the receiver if both are there |
| `Activation.Registration.ApplyReceiverActivation` | daemon/nmos_manager.cpp:1612-1722 | promotes the staged state and changes the sink, or changes nothing, when nothing happens between the three critical sections |
| `Activation.RegisteredAsItsSink` | daemon/nmos_manager.cpp:2743-2791 | a registered receiver has staged and active state as its sink says: the description's legs where it has one, one silent leg for each interface where it has none; other receivers stay |
| `Activation.DrainUpdate` | daemon/nmos_manager.cpp:2743-2791 | draining the two events of an update rebuilds the entry, with the preserved sender exactly when no re-registration is queued before or after them |
| `Activation.ActivationSurvivesRebuild` | daemon/nmos_manager.cpp:1612-1711 | after an activation that updates its sink, with any later events that do not name it, and a drained queue: enable flag, transport parameters and sink are as activated; the sender is kept exactly when no re-registration was queued before or after; the activation record is always lost |
| `Activation.WhenTheSinkChanges` | daemon/nmos_manager.cpp:1694-1712 | an activation changes its sink exactly when it enables the receiver with a sender, the description is found and has audio, and it is not refused |
| `Activation.EnablingWithoutSender` | daemon/nmos_manager.cpp:1632-1692 | enabling without a sender promotes what was staged, needs no description and leaves the sink |
| `Activation.ActivationShowsTheSink` | daemon/nmos_manager.cpp:1714-1721 | an activation that goes through ends with the sink as the session side has it |
| `Activation.SinkOutcomes` | daemon/session_manager.cpp:1049-1113 | a sink handed to the session side is refused without a trace, stored with two events, or lost with one |
| `Activation.HasAudioExactly` | daemon/nmos_manager.cpp:1667-1668 | a description has audio exactly if it says so anywhere |
| `Activation.DisablingIsUndone` | daemon/nmos_manager.cpp:1704-1712 | disabling changes no sink and queues no event; the receiver shows as disabled, and as enabled again after the next registration exactly when its sink is connected |
| `Activation.RejectedActivationChangesNothing` | daemon/nmos_manager.cpp:1645-1674 | an unresolved or non-audio description changes no state at all, any other is promoted |
| `Activation.DirectUpdateReports` | daemon/nmos_manager.cpp:2768-2789 | a sink changed from elsewhere reports no sender exactly when none was left waiting |
| `Activation.RefusedActivationLeavesItsSender` | daemon/nmos_manager.cpp:1690-1702 | a refused sink change leaves the preserved sender behind, and the next direct change is reported as a connection to it |
| `Activation.ActivationIsLocal` | daemon/nmos_manager.cpp:1612-1722 | an activation leaves every other receiver as draining alone would have left it |
| `ActivationRuns.RunKeeps` | daemon/nmos_manager.cpp:2743-2832 | with promotions, PATCHes and write-backs between any two steps, the receivers always mirror what the view of the machine shows |
| `ActivationRuns.StagedIsPromoted` | daemon/nmos_manager.cpp:1432-1462 | a PATCH changes the staged state of one receiver only, and an activation takes over exactly that |
| `ActivationRuns.AfterPromotion` | daemon/nmos_manager.cpp:1676-1692 | after any steps following a promotion: the first write takes the sender, later ones clear it; enable flag and transport parameters are as promoted until the first write and the sink's from then on; the record lasts until the receiver is dropped |
| `ActivationRuns.DrainedCounts` | daemon/nmos_manager.cpp:2929-2951 | once the worker has caught up it has written a receiver exactly once per registration under way at the promotion or asked for since |
| `ActivationRuns.OwedNothing` | daemon/nmos_manager.cpp:2743-2765 | no registration is under way exactly when none is queued for the sink or for all, the worker is not listing, and it is not looking this sink up, about to write it or to come to it |
| `ActivationRuns.SenderKeptExactly` | daemon/nmos_manager.cpp:2768-2789 | in every interleaving, for a sink that stays in the table: the drained receiver carries the activated sender if and only if at most one registration was under way at the promotion or asked for since; for an activation that changes its sink, nothing under way and nothing else asked for |
| `ActivationRuns.StateKeptExactly` | daemon/nmos_manager.cpp:1676-1721 | enable flag and transport parameters are as activated exactly until one registration was due, and the sink's own afterwards; the activation record is kept exactly until the receiver is dropped |
| `SessionTables.DropCounts` | daemon/session_manager.cpp:916-930 | giving up an entry with its groups keeps every multicast count equal to its users |
| `SessionTables.PutCounts` | daemon/session_manager.cpp:899-914 | storing an entry with its groups keeps every multicast count equal to its users exactly when the kernel accepts the first joins of groups, and of nothing else |
| `SessionTables.ClearOwned` | daemon/session_manager.cpp:1052-1060 | giving up an old entry leaves exactly the stored and the leaked handles with the driver |
| `SessionTables.StoreOwned` | daemon/session_manager.cpp:1067-1112 | storing an entry with fresh handles leaves exactly the stored and the leaked handles with the driver |
| `SessionTables.AddSinkReplaces` | daemon/session_manager.cpp:1049-1113 | adding a sink amounts to giving up the old entry and, if the driver provides what is needed, storing the new one |
| `SessionTables.AddSourceReplaces` | daemon/session_manager.cpp:665-745 | the same for sources, except when the second leg is refused |
| `SessionTables.StepCounts` | daemon/session_manager.cpp:515-546 | every operation, also one the driver fails, keeps each multicast count equal to the stored live streams that use it plus the PTP join, exactly unless the kernel answers a first join wrongly |
| `SessionTables.RollbackOwned` | daemon/session_manager.cpp:728-735 | after a refused second leg of a source the driver holds the stored and the leaked streams, exactly unless the handle rolled back is that of another stream |
| `SessionTables.StepLeaks` | daemon/session_manager.cpp:548-748 | every operation keeps the driver's streams exactly the stored ones, each stored once, and the leaked ones, stored nowhere; exactly a rollback that hits another stream breaks this |
| `SessionTables.StepOwns` | daemon/session_manager.cpp:548-748 | every operation keeps the driver's streams exactly the stored handles, each stored once, second ones exactly for two-leg entries; the only exception is a missed rollback, and it always breaks this |
| `SessionTables.RunConserves` | daemon/session_manager.cpp:862-1142 | after every run: the counts are right unless the kernel refused a first join; the driver's streams are the stored and the leaked ones unless a rollback hit another stream; nothing is leaked unless a rollback missed |
| `SessionTables.LeakStays` | daemon/session_manager.cpp:728-735 | a leaked stream stays with the driver, stored nowhere, in every continuation until a rollback gives up that very handle |
| `SessionTables.EndReleases` | daemon/session_manager.hpp:180-193 | removing everything after any such run leaves both tables and all counts empty and with the driver exactly what the run leaked |
| `SessionTables.EmptyMeansReleased` | daemon/session_manager.hpp:180-193 | with empty tables and the worker gone no group remains, and no stream that was not leaked |
| `SessionTables.RefusedSecondLegLeaks` | daemon/session_manager.cpp:728-735 | the stream of such a source is leaked: no table refers to it and removing the source changes nothing |
| `SessionTables.SinksStayLive` | daemon/session_manager.cpp:1067-1112 | no run stores a disabled sink |
| `SessionManager.Driver.AddRtpStream` | daemon/fake_driver_manager.cpp:125-134 | adds the answered handle to the live ones |
| `SessionManager.Driver.RemoveRtpStream` | daemon/fake_driver_manager.cpp:154-161 | succeeds exactly for a live handle and removes it |
| `SessionManager.Igmp.JoinGroup` | daemon/igmp.hpp:41-86 | counts up unless the kernel refuses the first join, and says so |
| `SessionManager.Igmp.LeaveGroup` | daemon/igmp.hpp:88-129 | counts down before the kernel is asked; fails for a group that was not joined |
| `SessionManager.Manager.OnAdd` | daemon/session_manager.cpp:899-914 | joins the groups of an entry as far as the kernel accepts, the second leg's only along with a multicast first leg |
| `SessionManager.Manager.OnRemove` | daemon/session_manager.cpp:916-930 | leaves the same groups |
| `SessionManager.SinkAnswers` | daemon/session_manager.cpp:932-1114 | what each answer to adding a sink means: success exactly when the table then has the entry with the new destinations and the handles just given out; a driver error exactly when the driver refused a stream, and then no entry; any other refusal has its own cause and changes nothing |
| `SessionManager.SourceAnswers` | daemon/session_manager.cpp:548-748 | the same for sources, live or disabled |
| `SessionManager.SinkAdditionIsLocal` | daemon/session_manager.cpp:932-1114 | adding a sink leaves every other sink and all sources alone |
| `SessionManager.SourceAdditionIsLocal` | daemon/session_manager.cpp:548-748 | adding a source leaves every other source and all sinks alone |
| `SessionManager.Manager.AddSinkStream` | daemon/session_manager.cpp:932-1114 | new tables, handles, counts and result code of an added or updated sink, for every answer of the driver and the kernel |
| `SessionManager.Manager.AddSourceStream` | daemon/session_manager.cpp:548-748 | the same for a source, with the rollback handle the code reads |
| `SessionManager.Manager.RemoveSinkStream` | daemon/session_manager.cpp:1116-1142 | removes the sink unless the driver does not know one of its handles |
| `SessionManager.Manager.RemoveSourceStream` | daemon/session_manager.cpp:862-892 | the same for a source, live or not |
| `SessionManager.Manager.StartWorker` | daemon/session_manager.cpp:1475-1480 | joins the PTP group on each interface |
| `SessionManager.Manager.EndWorker` | daemon/session_manager.cpp:1623-1627 | leaves it again |
| `SessionManager.Manager.Terminate` | daemon/session_manager.hpp:180-193 | the worker leaves, then every source and every sink is removed in turn, as far as the driver lets go of its streams |
| `ChannelMap.FindSink` | daemon/nmos_is08.cpp:180-192 | finds the first sink, and its first channel, that uses an ALSA channel, in the order of ids, or none does |
| `ChannelMap.SenderIsReported` | daemon/nmos_is08.cpp:204-229 | every sender channel is reported as the first sink channel on the same ALSA channel, or as that ALSA channel |
| `ChannelMap.PlaybackIsReported` | daemon/nmos_is08.cpp:231-245 | every raw output is reported as the first sink channel on it, or as unconnected |
| `ChannelMap.SenderEntryNeutral` | daemon/nmos_is08.cpp:204-229 | the reported entry of a sender channel, asked for again, is accepted exactly when it can be named and then changes nothing |
| `ChannelMap.PlaybackEntryNeutral` | daemon/nmos_is08.cpp:231-245 | the reported entry of a raw output, asked for again, changes nothing |
| `ChannelMap.ReapplyingChangesNothing` | daemon/nmos_is08.cpp:195-248 | re-applying the reported map leaves every source and sink map as it is, also when sinks share an ALSA channel; it is accepted exactly when every channel in use is below the ALSA count or patched |
| `ChannelMap.Effect` | daemon/nmos_is08.cpp:399-424 | items on distinct sender channels: each target takes what it asked for from the maps as they were, everything else stays |
| `ChannelMap.SameItemsSameEffect` | daemon/nmos_is08.cpp:399-443 | two orders of the same such items have the same effect |
| `RawOutputs.AcceptedExactly` | daemon/nmos_is08.cpp:283-375 | an action is accepted exactly when every output exists, every channel is one of its own, and every input exists and is no ALSA channel for a raw output |
| `RawOutputs.ActsInOrder` | daemon/nmos_is08.cpp:399-443 | an accepted action does one part after the other |
| `RawOutputs.LastRawWins` | daemon/nmos_is08.cpp:425-441 | what any accepted action does to the sinks: every channel moves to the raw output of the last fragment that names it and stays if none does |
| `RawOutputs.RawLeavesSources` | daemon/nmos_is08.cpp:425-441 | raw outputs alone leave the sources as they are |
| `RawOutputs.LastSenderWins` | daemon/nmos_is08.cpp:400-424 | what any accepted action does to a sender channel: the last entry for it decides, with the sink maps as the fragments in front have left them |
| `ChannelActions.LastEntryWins` | daemon/nmos_is08.cpp:283-446 | an accepted action on sender outputs, whatever it repeats: every channel takes what the last entry for it asks, from the sink maps as they were, and nothing else changes |
| `ChannelActions.ActionEffect` | daemon/nmos_is08.cpp:283-446 | an accepted action whose items are distinct sender channels sets exactly the requested channels and leaves sinks and other channels alone |
| `ChannelActions.StoredAlike` | daemon/nmos_is08.cpp:376-380 | two entries are stored alike exactly when they are the same or clear the same channel |
| `ChannelActions.StoredFormFiresAlike` | daemon/nmos_is08.cpp:376-395 | in every later state and for every order of the output ids, the stored form of an action on senders is accepted when the request would be and does the same, as long as every entry it leaves out clears a channel at or below a kept one |
| `ChannelActions.DistinctOutputsAreHarmless` | daemon/nmos_is08.cpp:376-395 | an action that names each output once leaves nothing out, whatever channels it repeats |
| `ChannelActions.AlikeExactlyWhenHarmless` | daemon/nmos_is08.cpp:381 | for an action that names no channel twice and is accepted somewhere, the stored form acts like it in every state if and only if every entry it leaves out clears a channel at or below a kept one |
| `ChannelActions.RepeatedOutputIsLost` | daemon/nmos_is08.cpp:381 | an instance: with an output listed twice the stored form loses the first fragment although the channels differ |
| `ChannelActions.Mapper.ApplyAction` | daemon/nmos_is08.cpp:271-446 | accepted exactly when every entry is; a rejected or dry-run action changes nothing |
| `ChannelActions.Mapper.CheckOutput` | daemon/nmos_is08.cpp:291-382 | resolves and checks one output, building its stored fragment |
| `ChannelActions.Mapper.ApplyWork` | daemon/nmos_is08.cpp:399-443 | applies the items one after the other |
| `Schedule.StepKeeps` | daemon/nmos_is08.cpp:700-821 | every request, deletion and pass, and every map change by other clients, keeps pending locks disjoint, numbers used once and fired activations gone |
| `Schedule.FiresOnceInTime` | daemon/nmos_is08.cpp:473-497 | at every point of every run locks are disjoint, and what has fired was due, fired once and is no longer pending |
| `Schedule.PassFiresTheDue` | daemon/nmos_is08.cpp:473-490 | a pass fires exactly the pending activations that are due and keeps the others unchanged |
| `Schedule.PendingUntilDue` | daemon/nmos_is08.cpp:473-490 | a pending activation stays as it is until it is deleted or a pass finds it due |
| `Schedule.GoneStaysGone` | daemon/nmos_is08.cpp:700-708 | a deleted, fired or refused number never becomes pending again and never fires |
| `Schedule.ImmediateRespectsLocks` | daemon/nmos_is08.cpp:744-771 | a request served at once changes no locked sender and moves no sink channel onto a locked raw output |
| `ScheduledMaps.PostAnswers` | daemon/nmos_is08.cpp:710-821 | what each answer to a request means: locked, served, scheduled or malformed each have their cause; only a served one changes the maps, only a scheduled one the pending set |
| `ScheduledMaps.PostedAsAsked` | daemon/nmos_is08.cpp:779-815 | a scheduled request is pending with its stored form, due after the relative or at the absolute time, and locks exactly the outputs it names |
| `ScheduledMaps.DeleteAnswers` | daemon/nmos_is08.cpp:700-708 | deleting takes out one pending activation with its locks |
| `ScheduledMaps.PassDoesTheAction` | daemon/nmos_is08.cpp:473-497 | a pass that finds one activation due does its stored action; one that finds none leaves the maps |
| `ScheduledMaps.PassSetsTheCells` | daemon/nmos_is08.cpp:473-497 | cell by cell: every sender channel takes what the last stored entry for it asks, the rest stays |
| `ScheduledMaps.LockedSenderIsSet` | daemon/nmos_is08.cpp:473-497 | with several activations due in one pass, a sender that one of them locks ends as that one leaves it, from maps in which the sender is as before the pass |
| `ScheduledMaps.RunLocksWhatItStores` | daemon/nmos_is08.cpp:797-815 | in every run pending activations lock all outputs that their stored actions name |
| `ScheduledMaps.ScheduledFiresAsRequested` | daemon/nmos_is08.cpp:473-497 | in every run: a harmless request on senders, found due alone later, does to the maps what the request would do if served at once in place of the pass |
| `Schedule.Scheduler.OutputLocked` | daemon/nmos_is08.cpp:448-458 | says whether any pending activation locks the output |
| `Schedule.Scheduler.AnyOutputLocked` | daemon/nmos_is08.cpp:746-753 | says whether any output of an action is locked |
| `Schedule.Scheduler.PostActivation` | daemon/nmos_is08.cpp:710-821 | new pending set, maps and answer of one request: refused when locked, malformed or not acceptable, served at once, or stored with its deadline and locks |
| `Schedule.Scheduler.DeleteActivation` | daemon/nmos_is08.cpp:700-708 | removes a pending activation or answers that there is none |
| `Schedule.Scheduler.ProcessDue` | daemon/nmos_is08.cpp:473-497 | takes the due activations out and fires them in order |
| `Register.FastByteIsTimesX8` | daemon/utils.cpp:31-35 | one byte of the fast form is eight multiplications by x modulo the polynomial |
| `Crc16.FastByteDivides` | daemon/utils.cpp:31-35 | one byte of the fast form is eight steps of bitwise division |
| `Crc16.Crc` | daemon/utils.cpp:27-38 | for every message the loop computes the division by x^16+x^12+x^5+1 from 0xFFFF |
| `Crc16.BurstIsNoticed` | daemon/utils.cpp:27-38 | messages that differ only within 16 consecutive bits never share a checksum |
| `Crc16.CloseEditIsNoticed` | daemon/session_manager.cpp:1289-1294 | an edit within two adjacent bytes always changes the checksum and the announced hash |
| `Crc16.HashesDiffer` | daemon/session_manager.cpp:1294 | an announced hash holds the source id above the checksum; two are equal exactly when both parts are |
| `Aes3Crc.TableCrcDivides` | wavplay_am824/am824_framer.h:60-85 | the table-driven check byte is bitwise division, for any number of bytes |
| `Aes3Crc.OneByteIsNoticed` | wavplay_am824/am824_framer.h:76-85 | changing any one byte changes the check byte |
| `Am824.Parity` | wavplay_am824/am824_framer.h:51-58 | clearing lowest bits counts the bits set modulo two |
| `Am824.WordReadsBack` | wavplay_am824/am824_framer.h:182-204 | every word of a 24-bit sample has even parity and is read back as its sample and marks |
| `Am824.AnyWordReads` | wavplay_am824/am824_framer.h:182-204 | for every 32-bit sample: its low 24 bits are read back, higher bits show through the marks, and the parity is even exactly unless the sample sets the parity bit of a word that needs it clear |
| `Am824.BytesRoundTrip` | wavplay_am824/am824_framer.h:224-236 | the four bytes rebuild the word in either byte order |
| `Am824Framer.Framer.constructor` | wavplay_am824/am824_framer.h:90-143 | starts at the first subframe of a block with the default channel status; the check byte is right exactly for a supported bit depth |
| `Am824Framer.DefaultStatus` | wavplay_am824/am824_framer.h:110-134 | the default channel status bit by bit: professional, not linear audio, 48 kHz, and word length and auxiliary bits for each depth |
| `Am824Framer.UnsupportedCheck` | wavplay_am824/am824_framer.h:136-139 | the untouched check byte of an unsupported bit depth is wrong for the default status |
| `Am824Framer.Framer.CrcTableInit` | wavplay_am824/am824_framer.h:60-74 | every table entry is eight division steps of its index |
| `Am824Framer.Framer.SetCrc` | wavplay_am824/am824_framer.h:76-85 | byte 23 becomes the check byte of bytes 0 to 22, which stay |
| `Am824Framer.Framer.SetSamplingFrequency` | wavplay_am824/am824_framer.h:145-154 | a valid code is read back from the top bits of byte 0, an invalid one changes nothing; the check byte follows |
| `Am824Framer.Framer.SetProfessionalMode` | wavplay_am824/am824_framer.h:156-159 | sets one bit, keeps the rest, check byte follows |
| `Am824Framer.Framer.SetConsumerMode` | wavplay_am824/am824_framer.h:161-164 | clears one bit, keeps the rest, check byte follows |
| `Am824Framer.Framer.SetAudioMode` | wavplay_am824/am824_framer.h:166-169 | clears one bit, keeps the rest, check byte follows |
| `Am824Framer.Framer.SetDataMode` | wavplay_am824/am824_framer.h:171-174 | sets one bit, keeps the rest, check byte follows |
| `Am824Framer.Framer.GetAM824Sample` | wavplay_am824/am824_framer.h:176-237 | after any number n of calls the state is a closed form in n, and the output is the word of call n |
| `Am824Framer.OutputReads` | wavplay_am824/am824_framer.h:176-237 | from the output of any call for any input: the low 24 bits, a frame mark on each first subframe, a block mark on each subframe of every 192nd frame, the status bit of the frame, all together with bits above the sample; within the bit depth the input itself and even parity |
| `Am824Framer.BlockRebuildsStatus` | wavplay_am824/am824_framer.h:179-180 | the status bits of a block's 192 frames are the 24 channel status bytes |
| `SapAnnouncer.Announcer.ProcessSap` | daemon/session_manager.cpp:1279-1342 | one round sends a deletion for every announced hash that is not active, forgets the ones deleted three times, and leaves one counter per announced hash |
| `SapAnnouncer.StateAfter` | daemon/session_manager.cpp:1328-1339 | after any history the announced hashes are those active in the last three rounds, the counters belong to exactly those and count the rounds since |
| `SapAnnouncer.DeletionsSent` | daemon/session_manager.cpp:1309-1326 | a hash gets a deletion exactly in the three rounds after it was last active, unless it returns; never together with an announcement |
| `Monitor.PushToAll` | daemon/nmos_is12.cpp:855-861 | every subscribed session gets the notification once, the others none |
| `Monitor.NotifyChanges` | daemon/nmos_is12.cpp:834-863 | pushes exactly the changed properties of one object, none without a baseline |
| `Monitor.SentExactly` | daemon/nmos_is12.cpp:834-863 | a session is sent a notification in a round exactly for a property, of an object with a baseline that it subscribes to, whose value is not the one of the round before |
| `Monitor.Worker.Round` | daemon/nmos_is12.cpp:802-879 | every session gains exactly the differences of the objects it subscribes to, in order; exactly the current objects are remembered |
| `Monitor.ReplayOne` | daemon/nmos_is12.cpp:837-844 | replaying the differences gives a property its new value where it changed and leaves it alone otherwise |
| `Monitor.ReplayGivesLastKnown` | daemon/nmos_is12.cpp:802-879 | a client that starts from the baseline and stays subscribed holds every property as the worker last knew it |
| `Monitor.Counter.Observe` | daemon/nmos_is12.cpp:170-177 | a transition counter is the number of changes in the sequence of observed values |
| `Monitor.ChangesExactly` | daemon/nmos_is12.cpp:170-173 | the transitions are the places where an observed value differs from the one before |
| `Monitor.MonitorCounters.Update` | daemon/nmos_is12.cpp:166-178 | one observation adds to all four sequences, whoever makes it |
| `Monitor.MonitorCounters.SetAutoReset` | daemon/nmos_is12.cpp:646-650 | the flag is stored, no counter is reset |
| `SinkUpdate.SdpGetOrigin` | daemon/utils.cpp:102-137 | the loop reads the first origin line, or the defaults where something before it is malformed |
| `SinkUpdate.BrokenOrigin` | daemon/utils.cpp:102-137 | an origin line with too few fields names nothing, one whose version is no number names user and session only |
| `SinkUpdate.OriginsAgree` | daemon/session_manager.cpp:122-136 | on an accepted description with one origin line ahead of the media both readers see the same origin |
| `SinkUpdate.OriginsAgreeExactly` | daemon/session_manager.cpp:122-136 | on any accepted description the readers agree exactly when the last complete origin line up to the third audio section says what the first origin line there says; without one, when nothing behind it is read as an origin |
| `SinkUpdate.TwoOriginsDisagree` | daemon/utils.cpp:102-137 | on two printed origin lines the parser takes the second and the browser's reader the first |
| `SinkUpdate.GetUpdatedSinks` | daemon/session_manager.cpp:1344-1374 | the updates of a pass are those of the per-sink scan |
| `SinkUpdate.SameOriginExactly` | daemon/utils.hpp:49-56 | origins are the same exactly when they differ at most in the version |
| `SinkUpdate.NewerExactly` | daemon/session_manager.cpp:1351-1364 | an announcement is news for a sink exactly if it names a session of the same origin in a higher version |
| `SinkUpdate.ScanFindsNewest` | daemon/session_manager.cpp:1351-1364 | the scan picks the highest newer version among the announcements of the sink's origin |
| `SinkUpdate.ScanTakesTheFirst` | daemon/session_manager.cpp:1351-1364 | among announcements of the highest version the scan takes the first |
| `SinkUpdate.SecondPassFindsNothing` | daemon/utils.hpp:49-56 | under any common reading of origins: after the update the same announcements hold nothing newer, the origin is the same and the version has gone up |
| `SinkUpdate.ReAddedSinkIsUpToDate` | daemon/session_manager.cpp:1376-1391 | parser, browser's reader and scan together: a sink added again with the description the scan found keeps its origin, has the version found, and finds nothing newer; only its old and new description need to name their origin once, up front |
| `SinkUpdate.PrintedOriginFirst` | daemon/session_manager.cpp:783-785 | every printed description names its origin once, up front, and the browser reads it as printed |
| `SinkUpdate.PrintedSourceIsFollowed` | daemon/session_manager.cpp:1344-1391 | printer, parser, browser and scan joined: a sink of a printed description takes the source's new description if and only if its session version is higher, and is then up to date |
| `SessionVersions.AnnouncedIsNewer` | daemon/session_manager.cpp:661-663 | with at most one update observer whatever is announced for a source is newer than everything announced for it before, across removals, failed additions and disabled periods |
| `SessionVersions.StepIncreases` | daemon/session_manager.cpp:1394-1405 | every announced version is above the last one for its source, versions that are not announced stay, and nothing announced reaches what the counter gives next |
| `SessionVersions.AdditionAnswers` | daemon/session_manager.cpp:661-748 | counter, stored and announced version after a refused, failed or successful addition |
| `SessionVersions.RemovalAnswers` | daemon/session_manager.cpp:862-892 | a removal forgets one version and nothing else |
| `SessionVersions.ReAddedAfterRefresh` | daemon/session_manager.cpp:1398-1404 | an addition after a refresh is newer exactly when at most one observer was told |
| `SessionVersions.Publisher.AddSource` | daemon/session_manager.cpp:548-663 | an addition refused early changes nothing; otherwise it takes a version from the global counter, which moves on even when the addition fails; a disabled source stores it without an announcement |
| `SessionVersions.Publisher.OnUpdateSources` | daemon/session_manager.cpp:1394-1405 | increments every source once for every observer |
| `Streamer.Encode` | daemon/streamer.cpp:409-443 | the encode loop returns the encoded blocks of the file one after the other, or nothing when one cannot be encoded |
| `Streamer.BlocksCover` | daemon/streamer.cpp:409-436 | the blocks are the whole file unless the last one has 65536 samples or more, which loses whole multiples of 65536 |
| `Streamer.EncodedFits` | daemon/streamer.cpp:416-424 | the output of an encoder with bounded room per call is bounded by its calls |
| `Streamer.OutputFits` | daemon/streamer.cpp:396-397 | the output buffer takes whatever the encoder may write exactly when the file is a whole number of blocks |
| `Streamer.BufferIsSafeExactly` | daemon/streamer.cpp:396-424 | every encoder that keeps to its room per call stays inside the output buffer if and only if the file is a whole number of blocks; otherwise one that uses all its room writes past its end |
| `Streamer.RoomForAChunk` | daemon/streamer.cpp:264-266 | the buffer takes a chunk exactly when rate times duration is at least one, and is empty otherwise |
| `Streamer.FileLength` | daemon/streamer.cpp:264 | a file has as many whole chunks as fit into its duration |
| `Streamer.Capture.constructor` | daemon/streamer.cpp:264-278 | an empty ring over a buffer of whole chunks, for every rate and duration |
| `Streamer.Capture.Read` | daemon/streamer.cpp:286-287 | a chunk is read into the buffer, never outside it |
| `Streamer.Capture.Save` | daemon/streamer.cpp:324-338 | the channels of the chunk are appended to the open stream |
| `Streamer.Capture.CloseFile` | daemon/streamer.cpp:386-448 | the encoded file replaces the oldest one in its slot, unless a block could not be encoded |
| `Streamer.RingMovesOn` | daemon/streamer.cpp:296-299 | after that the slots hold the encoded latest files |
| `Streamer.Capture.Turn` | daemon/streamer.cpp:284-304 | the read overruns the buffer exactly when rate times duration is below one chunk; otherwise, after any number of turns, slot f holds what the encoder made of the sink's channels of the latest complete file with number f modulo the number of files, unless a block of it could not be encoded |

## Left out

- Weak memory: the clock segment is sequentially consistent, with one writer lifetime.
- Text.GetLines: an empty line makes the parser index past its end; the model treats such a line as rejected, in both readers.
- PacketTime.StoD: reads plain decimals, the only form the printer produces, with exact instead of floating-point arithmetic.
- Sdp.Parse: the size of the codec field comes from the driver's header, which is not part of this model; it is a parameter.
- SdpRoundTrip.RoundTrip: names and codecs of one line; of a name with more, only the first further line is followed, in LineInNameIsRead. A PTP clock identity is hexadecimal digits and dashes, as the formatter writes it.
- SdpAgreement.HelpersAgree: a codec that holds a marker is not followed.
- MarkedNames.SecondDestinationSeenExactly: for two-leg streams; what a search for a second leg finds on a one-leg stream without markers is not stated.
- SessionManager.Driver: handles are fresh and not zero, as the real 64-bit ones; the 16-bit counter of the fake driver, which comes round, is not modelled.
- SessionTables.StepCounts: assumes that the second interface keeps its address.
- SessionTables.StepLeaks: once a rollback has hit another stream's handle, what follows for that stream is not stated.
- Name indexes: whether a name is taken is a parameter, so conservation holds whatever the indexes say; their agreement on renaming updates is not stated.
- NmosView: sinks only, because disabled sources fire no observers; registry traffic and resource JSON are outside.
- Activation.Activate: one atomic step, for the lemmas of its module; ActivationRuns has its critical sections as separate steps, with the promoted snapshot as a parameter.
- ActivationRuns.SenderKeptExactly: for a sink that is erased in between only AfterPromotion applies, which counts the writes.
- Schedule.Post: one request is one atomic step, although the lock check and the insertion are separate critical sections in the code.
- ChannelMap.Act: assumes that the session side accepts each changed source or sink; resource ids are distinct by construction.
- Order independence of actions on raw ALSA outputs: they rewrite sink maps that later items read, so order matters by design.
- SessionVersions.Add: versions and the global counter do not wrap at 32 bits.
- SinkUpdate.ScanFindsNewest: each origin is the one read from its description by a common reading; ReAddedSinkIsUpToDate takes the two real readers, for descriptions with one origin line ahead of the media.
- Streamer.Capture: one sink, present throughout, with captured channels only; the encoder is an arbitrary function of the block and the call, given anew for each file; after an overrun the model stops.
- Streamer.Encode: the 32-bit products and sums of sizes do not wrap.
- The sender side of IS-05, whose activation only copies staged fields.
- Sockets, netlink, Avahi, HTTP, WebSocket and RTSP framing, JSON text, the web interface and logging.
- The kernel driver, ALSA, faac, soxr and PipeWire beyond the contracts above.
- The clock servos, which are floating-point control loops.
