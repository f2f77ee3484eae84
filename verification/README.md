# A verified model of libobs timing, packet and settings logic

libobs sits between capture sources, encoders and outputs. This project models the parts of it in
which order, time and shared state decide whether a recording is right, and proves what they are
relied on for. Loops and in-place updates are methods and classes, each proved against a function of
the old state; the theorems are about those functions, over whole runs.

* **Interleaving** (`libobs/obs-output.c`). Encoders call back in any order; the output holds their
  packets in one sorted buffer and lets the front packet go when no other stream can still bring an
  earlier one. `Packets` is the order itself and the microsecond rounding, `InterleaveSpec` the state
  machine, `InterleaveOutput` the loops that compute it. `InterleaveRuns` has the run theorems: nothing
  lost or doubled; what is sent is a prefix of all packets sorted, however the encoders interleave; and
  when any output at all stays sorted. `InterleaveStartup` and `InterleaveReset` lead from a reset output
  to a started one, `InterleaveOrder` says exactly when a started one keeps its order, `InterleaveMany`
  does the way from reset for any number of video encoders, `InterleavePruning` says what a start
  releases and when it goes through, `InterleaveProgress` that packets do go out, `InterleaveTracks` how
  many audio encoders an output can have, `InterleaveSkips` when an output counts as started without a
  start, and `InterleaveLimits` has the inputs on which the promises fail.
* **Byte streams** (`libobs/obs-nal.c`, `obs-avc.c`, `obs-hevc.c`). `NalScan` is the word-at-a-time
  start-code search, `NalUnits` the loops that rewrite and split an Annex B stream, `NalRoundTrip` what
  they promise: framing reads back if and only if it is well framed, rewriting keeps every unit,
  splitting keeps every byte.
* **Audio ticks** (`libobs/obs-audio.c`). `AudioTicks` is the queue of windows with phantom windows
  pushed in front of it, `AudioCore` the class that runs it and the sample arithmetic around it.
* **Settings** (`libobs/obs-data.c`). `DataItem` is one item's allocation, a byte array that stands for
  three values; `JsonTree` and `JsonSettings` are settings trees against JSON trees.
* **References** (`libobs/obs-internal.h`). `WeakRef` interleaves the atomic steps of any number of
  threads.
* **Encoders and pausing** (`libobs/obs-encoder.c`, `obs-output.c`). `EncoderStart` starts a video and
  an audio encoder at one time and cuts audio into frames, `Pause` drops frames between two points of
  the frame grid.
* **Scenes** (`libobs/obs-scene.c`). `SceneList` is the linked list of items, `SceneVisibility` the count
  of what still needs an item's source.
* **Hotkeys** (`libobs/obs-hotkey.c`). `Hotkeys` counts pressed bindings.

`util_mul_div64` and the conversions between samples and nanoseconds are floor divisions
(`AudioTicks.MulDiv`), a circlebuf is a sequence used at both ends, a DARRAY is a sequence, a hash table
is an association list in insertion order. Clocks, encoder verdicts, source times and the values of
uninitialised variables are parameters.

Some promises turned out to hold only under a condition, and the condition is proved exact:

* `initialize_interleaved_packets` takes the video offset from a pts but lowers the video mark by a dts.
  Over all runs, output times never go back if and only if the packet the offset is taken from is shown
  at most one tick later than it is decoded (`InterleaveLimits.TimesKeptIff`); for a given start,
  `InterleaveReset.StartedRunIff` says which audio times are at risk.
* The gate has no mark per audio track, so a started output keeps its order over all continuations of its
  tracks if and only if it has at most one audio encoder (`InterleaveTracks.OneAudioTrackIff`, with a run
  in `InterleaveLimits.TwoAudioTracksBreakOrder`); one run stays sorted if and only if no packet arrives
  late (`InterleaveRuns.RunSortedIff`).
* The received flag of a track stays set when its packets are thrown away, so with two video tracks the
  start can be skipped (`InterleaveLimits.TwoVideoTracksSkipStart`), and with nothing in video slot 0 it
  always is; `InterleaveSkips.RunSkipsIff` says exactly when, in any configuration.
* Audio that begins further behind the video than a frame is released before an output starts. With one
  encoder of each kind no start follows before the streams are in step (`InterleavePruning.StartIsInTime`);
  with more, what is behind the cut may start the output at once (`InterleaveLimits.StartBehindCut`),
  exactly when it holds all that a start needs (`InterleavePruning.StartsIff`).
* Header extraction can cost a unit its last zero (`NalRoundTrip.ExtractionCommutes`).
* A pause counts frames that were not dropped if it is asked for too late, or before the first frame and
  does not begin on a frame, and else it does not (`Pause.OffsetIsDroppedTime`, with runs in
  `Pause.EarlyPauseMiscounts` and, where the offset falls below zero, `Pause.EarlyPauseWrapsAround`). A
  resume asked for too late never comes (`Pause.ResumeEndsIff`), and neither may one asked for before the
  first frame (`Pause.EarlyPauseEndsIff`).
* An item whose source could not become an active child has its count in step again once its visibility
  is forced, but after a forced show that failed, never (`SceneVisibility.RunCountedIff`); until then it
  is short by one for every failed show (`SceneVisibility.FailedShowSticks`).

`mix_audio` guards against a start point of 1024 frames; on windows cut from the sample clock that guard
never fires (`AudioCore.StartPointInBuffer`).

Check the project with `dafny verify dfyconfig.toml --resource-limit 2000000 --verification-time-limit 0`.

## Model

| member | source | states |
|---|---|---|
| InterleaveRuns.SentIsSortedPrefix | libobs/obs-output.c:1564-1624 | At every moment of every run of a started output, the packets sent are a prefix of all packets, past and future, sorted by time, video before audio, then video track |
| InterleaveRuns.InterleavingDoesNotMatter | libobs/obs-output.c:1992-2062 | Two runs that deliver the same packets in different interleavings end with the same line of packets, and what one has sent is a prefix of what the other has |
| InterleaveRuns.RunIsSorted | libobs/obs-output.c:1992-2062 | After any run, sent and buffered packets together are exactly the sort of everything taken in, and what was sent before stays sent |
| InterleaveRuns.SentTimesNeverDecrease | libobs/obs-output.c:1564-1610 | Output times never go back over a run |
| InterleaveRuns.RunConserves | libobs/obs-output.c:1992-2062 | Over any run, from any state and in any configuration, each packet is exactly once buffered, sent or released |
| InterleaveRuns.StepConserves | libobs/obs-output.c:1992-2062 | One callback adds exactly its own packet to those buffered, sent or released, whichever branch it takes |
| InterleaveRuns.StepKeepsInv | libobs/obs-output.c:2031-2059 | One callback of a started output keeps the line strictly ordered and the marks sound, adds its packet to it, and unsends nothing |
| InterleaveRuns.AcceptKeepsInv | libobs/obs-output.c:1612-1624 | Inserting a packet and raising the marks keeps the invariant when the packet is later than the earlier ones of its stream |
| InterleaveRuns.AcceptKeepsLine | libobs/obs-output.c:1933-1959 | Such a packet lands behind everything already sent, and the line stays strictly ordered |
| InterleaveRuns.SendKeepsInv | libobs/obs-output.c:1446-1464 | A packet the gate lets go is one that no stream can any longer bring a packet before |
| InterleaveReset.WholeRunIsOrdered | libobs/obs-output.c:1850-2062 | From a reset output, through keyframe wait, pruning, start-up and re-sorting, whatever the order of arrival: the packets sent are strictly ordered if the packet the offset is taken from is not shown later than it is decoded, and times never go back if it is at most one tick |
| InterleaveLimits.TimesKeptIff | libobs/obs-output.c:1893-1921 | Every run from a reset output keeps its times from going back if and only if the packet the offset is taken from is shown at most one tick later than it is decoded |
| InterleaveLimits.OrderKeptForDelayIff | libobs/obs-output.c:1893-1921 | Every run keeps the full order, video before audio at equal times, if and only if that packet is not shown later than it is decoded |
| InterleaveReset.StartedRunIff | libobs/obs-output.c:1893-1931 | For any run up to the packet that starts it: all continuations are in order if and only if the state it begins with exposes no audio packet, of the buffer or still to come |
| InterleaveOrder.OrderKeptIff | libobs/obs-output.c:1446-1464 | From any state a start leaves: every continuation stays in order if and only if no audio time lies between the earliest video still to come and the lowered video mark |
| InterleaveOrder.RiskIsReal | libobs/obs-output.c:1564-1624 | Where one does, there is a continuation that sends it and then a video packet from before it |
| InterleaveOrder.RunKeepsOrder | libobs/obs-output.c:1992-2062 | Where none does, none comes to, and every continuation keeps what is sent in order and final |
| InterleaveOrder.GateIsFinal | libobs/obs-output.c:1446-1464 | What the gate then lets go is before everything that can still come |
| InterleaveReset.StartBegins | libobs/obs-output.c:1893-1931 | A start leaves, whatever its marks, a strictly sorted buffer with no packet past its stream |
| InterleaveReset.SmallDelayIsSafe | libobs/obs-output.c:1893-1921 | A delay of at most none, or one tick for times alone, exposes nothing, in spite of two roundings to microseconds |
| InterleaveRuns.RunSortedIff | libobs/obs-output.c:1992-2062 | Any started output, of however many encoders, over any run: sent and buffered packets stay sorted if and only if no packet is late, before the last one sent, when it arrives |
| InterleaveRuns.AcceptSortedIff | libobs/obs-output.c:1933-1959 | One insertion keeps them sorted if and only if its packet is not late |
| InterleaveTracks.OneAudioTrackIff | libobs/obs-output.c:1446-1464 | A started output, with any number of video encoders, sends in order over every continuation in which each track advances if and only if it has at most one audio encoder |
| InterleaveTracks.TwoTracksCanBreak | libobs/obs-output.c:1446-1464 | Any started output with two audio encoders, whatever it holds and however far its tracks have come, has a continuation that goes out of order |
| InterleaveTracks.OneTrackKeepsOrder | libobs/obs-output.c:1446-1464 | With one, none does |
| InterleaveMany.ManyTracksOrdered | libobs/obs-output.c:1850-2062 | From a reset output with any number of video encoders and one audio encoder: what is sent is strictly ordered, unless the start is skipped or takes the offset of some track from a packet shown later than it is decoded |
| InterleaveMany.ManyStartSound | libobs/obs-output.c:1893-1931 | Such a start leaves a state from which the run theorems apply, every track with its own offset and mark |
| InterleaveMany.UnstartedStep | libobs/obs-output.c:1992-2055 | A callback before the start keeps the buffer strictly ordered and no mark ahead of its encoder, failed starts included, or is the one that starts the output |
| InterleaveMany.MarksFollowStreams | libobs/obs-output.c:1893-1921 | From a reset output, over any run up to the packet that starts it: every mark is lowered to how far its stream has come since the packet its time begins with, within a microsecond |
| InterleaveProgress.RunRaises | libobs/obs-output.c:1612-1624 | Over any run of a started output every mark is the highest time its stream has brought, or what it was |
| InterleaveProgress.DueGoesOut | libobs/obs-output.c:1446-1610 | Once every stream is past a time, as many further callbacks as the buffer has packets up to there send all of those, in their order |
| InterleaveSkips.RunSkipsIff | libobs/obs-output.c:1992-2062 | From a reset output, in any configuration, over any run: a packet makes every stream count as received without a start if and only if it was the one missing, and slot 0 has no video encoder or an earlier frame emptied video track 0 and nothing has come for that track since; all offsets are then zero |
| InterleaveSkips.EmptySlotNeverStarts | libobs/obs-output.c:1669-1682 | With nothing in video slot 0 no callback ever starts the output or sets an offset |
| InterleaveSkips.StepSkipsIff | libobs/obs-output.c:2031-2055 | The same for one callback: track 0 has no packet, and is marked as received or has no encoder |
| InterleaveSkips.StepEmptiesIff | libobs/obs-output.c:1975-2014 | Track 0 comes to be so exactly when a frame its own track cannot use yet is later than all of track 0 in the buffer |
| InterleaveSkips.GivenUpIff | libobs/obs-output.c:1669-1682 | A start is given up with every stream still marked if and only if the buffer has no packet of video track 0 |
| InterleaveSkips.OneTrackNeverSkips | libobs/obs-output.c:1992-2014 | With video encoders in no slot but 0 nothing empties track 0 |
| InterleavePruning.StartsIff | libobs/obs-output.c:1634-1931 | When a callback starts the output, in any configuration with audio: exactly when every stream has now been heard from, video track 0 and every audio track have a packet, and what is left from the cut on can start it: a packet of every stream, no audio track that ends before the video begins, and a packet of every stream still from where they begin |
| InterleavePruning.CutIsReleased | libobs/obs-output.c:1669-1772 | A callback that is to start the output releases what comes before the cut: when the audio of the last filled slot begins further behind the video than a frame, or with several audio encoders than their longest packet if that is longer, everything up to and including the latest first packet of a stream |
| InterleavePruning.PruneIs | libobs/obs-output.c:1669-1772 | What pruning does, in terms of the first packets in the buffer; missing audio must be heard from again |
| InterleavePruning.StartIsInTime | libobs/obs-output.c:1669-1728 | From a reset output with one video and one audio encoder: when a packet starts it, the first audio packet of the buffer is at most one frame behind the first video packet |
| InterleavePruning.InitializesIff | libobs/obs-output.c:1850-1931 | When the start goes through behind the cut, in terms of the packets left |
| InterleavePruning.StartIdxIsStart | libobs/obs-output.c:1634-1661 | The streams begin at the earlier one of the first video packet and the first of the audio packets nearest to it in time, and nowhere else |
| InterleaveStartup.VideoMarkSoundIff | libobs/obs-output.c:1893-1921 | After start-up the video mark, on its own, is not ahead of its stream if and only if the first video packet is not shown later than it is decoded |
| InterleaveStartup.MarkSoundIff | libobs/obs-output.c:1893-1921 | The same on the numbers alone, in spite of two roundings to microseconds |
| InterleaveStartup.StreamsStartAtZero | libobs/obs-output.c:1893-1928 | In any configuration, applying the start times makes every video track first shown, and every audio track first decoded, at time zero |
| InterleaveStartup.StartTimesSound | libobs/obs-output.c:1893-1931 | When the offset is taken from a packet not shown later than it is decoded, applying the offsets and sorting again gives a started state from which the run theorems apply |
| InterleaveStartup.StartMarksSound | libobs/obs-output.c:1915-1921 | The lowered marks are then at most one microsecond ahead of the rebased streams |
| InterleaveStartup.RebasedDistinct | libobs/obs-output.c:1421-1444 | Rebasing does not make two packets of one stream fall on the same microsecond |
| InterleaveReset.WaitingStep | libobs/obs-output.c:1992-2055 | A callback before the start, the discarding of packets ahead of the first keyframe included, keeps the waiting state, or is the one that starts the output, with sound streams behind it |
| InterleaveLimits.ReorderedVideoBreaksOrder | libobs/obs-output.c:1893-1921 | A concrete run from reset, with what it sends: a first packet shown five frames late makes times go back |
| InterleaveLimits.TwoAudioTracksBreakOrder | libobs/obs-output.c:1446-1464 | A concrete run from reset, with what it sends: two audio tracks, each in order, leave out of order |
| InterleaveLimits.TwoVideoTracksSkipStart | libobs/obs-output.c:1743-1772 | A concrete run from reset: all streams count as received although the offsets were never set |
| InterleaveLimits.StartBehindCut | libobs/obs-output.c:1743-1772 | A concrete run from reset with two video encoders: audio further behind than a frame is released with the first video, and the packets behind the cut start the output at once |
| Packets.InsertSorted | libobs/obs-output.c:1933-1959 | Insertion keeps a sorted buffer sorted, ties included |
| Packets.InsertStrict | libobs/obs-output.c:1933-1959 | And strictly sorted, when no packet of the same stream has the same time |
| Packets.InsertMembers | libobs/obs-output.c:1933-1959 | The buffer afterwards holds exactly the old packets and the new one |
| Packets.InsertBag | libobs/obs-output.c:1933-1959 | As multisets, too |
| Packets.ResortBag | libobs/obs-output.c:1961-1973 | Sorting the buffer again keeps its multiset of packets |
| Packets.InsertIdx | libobs/obs-output.c:1937-1956 | The insertion stops in front of the first packet that should come later, and at no earlier one |
| Packets.SortedUnique | libobs/obs-output.c:1933-1973 | A strictly ordered list is what any sorted arrangement of its packets is |
| Packets.UsecGrows | libobs/obs-internal.h:56-59 | Truncation to microseconds keeps the order of distinct times that are a tick of at least a microsecond apart |
| Packets.UsecDifference | libobs/obs-internal.h:56-59 | A difference of truncated times is within one microsecond of the truncated difference |
| InterleaveOutput.Output.InsertInterleavedPacket | libobs/obs-output.c:1933-1959 | The in-place insertion puts the packet at the specified position |
| InterleaveOutput.Output.ResortInterleavedPackets | libobs/obs-output.c:1961-1973 | Taking the buffer apart and inserting every packet again gives the specified sort |
| InterleaveOutput.Output.HasHigherOpposingTs | libobs/obs-output.c:1446-1464 | The loop over the video tracks decides the gate |
| InterleaveOutput.Output.SetHigherTs | libobs/obs-output.c:1612-1624 | Raises the mark of the packet's stream, and only that |
| InterleaveOutput.Output.SendInterleaved | libobs/obs-output.c:1564-1610 | Sends the front packet exactly when the gate is open for it |
| InterleaveOutput.Output.DiscardToIdx | libobs/obs-output.c:1730-1739 | Releases a prefix of the buffer |
| InterleaveOutput.Output.FindFirstPacketTypeIdx | libobs/obs-output.c:1774-1786 | The first packet of a stream, or -1 when there is none |
| InterleaveOutput.Output.FindLastPacketTypeIdx | libobs/obs-output.c:1788-1800 | The last packet of a stream, or -1 when there is none |
| InterleaveOutput.Output.GetInterleavedStartIdx | libobs/obs-output.c:1634-1661 | The earlier of the first video packet and the audio packet closest to it in time |
| InterleaveOutput.Output.ScanAudioEncoders | libobs/obs-output.c:1669-1728 | How far the search for premature audio has come after each track |
| InterleaveOutput.Output.PrunePrematurePackets | libobs/obs-output.c:1669-1728 | The loops compute the specified index to prune to, or that a stream is still missing, which `InterleavePruning.PruneIs` puts in terms of the first packets |
| InterleaveOutput.Output.PruneInterleavedPackets | libobs/obs-output.c:1743-1772 | What pruning leaves, and whether the start may go on |
| InterleaveOutput.Output.GetAudioAndVideoPackets | libobs/obs-output.c:1818-1848 | Finds a first packet of every stream, or unmarks the first stream without one |
| InterleaveOutput.Output.GetFirstEncoderIndex | libobs/obs-output.c:632-662 | The first filled encoder slot |
| InterleaveOutput.Output.HasLateAudio | libobs/obs-output.c:1867-1883 | Whether every audio track reaches up to the first video packet |
| InterleaveOutput.Output.SetVideoOffsets | libobs/obs-output.c:1893-1898 | Video offsets are the pts of the first packets |
| InterleaveOutput.Output.SetAudioOffsets | libobs/obs-output.c:1899-1903 | Audio offsets are the dts of the first packets |
| InterleaveOutput.Output.RebaseHighest | libobs/obs-output.c:1915-1921 | The marks go down by the dts of the first packets, video included |
| InterleaveOutput.Output.RebasePackets | libobs/obs-output.c:1923-1928 | Every buffered packet is rebased, none moves |
| InterleaveOutput.Output.ApplyStartTimes | libobs/obs-output.c:1893-1931 | The whole of offsets, marks and rebasing, from one state to the next |
| InterleaveOutput.Output.InitializeInterleavedPackets | libobs/obs-output.c:1850-1931 | All branches of the start: too early, missing streams, trimmed, started |
| InterleaveOutput.Output.DiscardUnusedAudioPackets | libobs/obs-output.c:1975-1990 | Releases what is older than a video packet that is not yet wanted |
| InterleaveOutput.Output.ReceivedAll | libobs/obs-output.c:2017-2024 | Whether every stream has been heard from |
| InterleaveOutput.Output.TryStart | libobs/obs-output.c:2049-2055 | Prune, initialize, sort again and send |
| InterleaveOutput.Output.InterleavePackets | libobs/obs-output.c:1992-2062 | The whole callback is one step of the state machine |
| InterleaveOutput.Output.constructor | libobs/obs-output.c:2228-2242 | A reset output has no packets, no marks and nothing received |
| InterleaveSpec.StartIdx | libobs/obs-output.c:1634-1661 | The start never lies behind the first video packet of track 0 |
| InterleaveSpec.ClosestIsNearest | libobs/obs-output.c:1634-1661 | The audio packet chosen is at the least distance from the video packet, the first among equals |
| NalScan.FindStartcodeInternal | libobs/obs-nal.c:23-59 | For every buffer, bounds and address alignment the three loops return the least position of 0,0,1 that leaves a byte behind it, else the end, and read nothing past it |
| NalScan.FindStartcode | libobs/obs-nal.c:61-67 | And the step back happens exactly when a zero precedes the match |
| NalScan.MayHoldZeroIsExact | libobs/obs-nal.c:34-36 | The bit trick on a word fires exactly when one of its four bytes is zero |
| NalScan.WordMayHoldZero | libobs/obs-nal.c:34-36 | The test of one aligned word says whether any of its four bytes is zero |
| NalScan.FirstCodeIsLeast | libobs/obs-nal.c:23-59 | The naive search is characterised by: a code there, and none before |
| NalScan.FirstCodeInWindow | libobs/obs-nal.c:23-59 | The first code of a part of the buffer is the first code of the whole from there |
| NalScan.FoundIsAtCode | libobs/obs-nal.c:61-67 | Every position found is that of a three-byte or four-byte start code with a byte behind it |
| NalRoundTrip.FramingRoundTrip | libobs/obs-avc.c:68-90 | Any list of units under any mix of start codes reads back as itself if and only if no unit holds a code, a unit ending in zero is followed by a four-byte code, and the last unit is not empty |
| NalRoundTrip.SerializeRoundTrip | libobs/obs-avc.c:68-90 | The rewritten, length-prefixed packet decodes to exactly the units that were framed |
| NalRoundTrip.ParseCovers | libobs/obs-avc.c:68-90 | For every byte buffer, the start codes and units found are, laid end to end, the buffer from its first start code on |
| NalRoundTrip.DecodeEncode | libobs/obs-avc.c:68-90 | Length prefixes and units can be read back, for units below 4 GiB |
| NalRoundTrip.Be32RoundTrip | libobs/obs-avc.c:86-86 | The four length bytes are the length, most significant first |
| NalRoundTrip.StandardIsWellFramed | libobs/obs-avc.c:68-90 | Units as sections 7.3.1 and 7.4.1 of ITU-T H.264 allow them are always well framed |
| NalRoundTrip.ExtractionIsPartition | libobs/obs-avc.c:209-262 | Every byte from the first start code to the end lands in exactly one of packet, header and SEI, and the sizes add up |
| NalRoundTrip.ExtractionCommutes | libobs/obs-avc.c:209-262 | Each output parses back to the units of its kind, unchanged, if and only if among them no unit that ends in a zero stands before a three-byte code, and the last is not empty |
| NalRoundTrip.MovableUnitsCommute | libobs/obs-avc.c:209-262 | That is so when no unit of the packet is empty and only the last may end in a zero |
| NalRoundTrip.SelectWellFramedIff | libobs/obs-hevc.c:139-195 | Taking units out of a well-framed list can spoil it in those two ways only |
| NalRoundTrip.ExtractionCanShortenUnit | libobs/obs-avc.c:209-262 | A concrete stream where it is not so: extraction costs a unit its last zero |
| NalRoundTrip.SelectIsWellFramed | libobs/obs-hevc.c:139-195 | Taking units out of a well-framed list keeps it well framed under that condition |
| NalRoundTrip.KeyframeImpliesFlag | libobs/obs-avc.c:24-47 | A packet that the keyframe test accepts also gets the keyframe flag from the rewriting loop |
| NalRoundTrip.IdrIsKeyframe | libobs/obs-avc.c:24-59 | A framed packet with an IDR slice and no plain slice before it, parameter sets or not, is a key frame and gets the flag |
| NalRoundTrip.PlainIsNoKeyframe | libobs/obs-avc.c:24-59 | One without an IDR slice is no key frame and gets no flag |
| NalUnits.Serialize | libobs/obs-avc.c:50-90 | Every unit comes out behind its length; the flag is up exactly when it was, or some unit's first byte says IDR slice (AVC, type 5) or random access slice (HEVC, types 16 to 23); the priority is the highest three top bits of all units (AVC), or highest with a random access slice, else at least high with a type up to 9 (HEVC) |
| NalUnits.ParsePriority | libobs/obs-avc.c:111-133 | That priority alone |
| NalUnits.Keyframe | libobs/obs-avc.c:24-47 | Yes exactly when some unit is of type 5 with none of type 1 before it (AVC), or of types 16 to 23 with none of types 0 to 15 before it (HEVC) |
| NalUnits.ExtractHeaders | libobs/obs-avc.c:209-262 | For all byte inputs the loop ends, and the outputs are the in-order concatenations, start codes included, of the units of types 7 and 8 (HEVC 32 to 34), of type 6 (HEVC 39 and 40), and of all others |
| NalUnits.SkipStartCode | libobs/obs-avc.c:74-75 | The loop over zeros consumes exactly the start code in front of the cursor |
| NalUnits.NextChunk | libobs/obs-hevc.c:72-94 | What lies between two cursors of the walk is the next unit, and the byte read as its type is its first one, or the next code's when it is empty |
| NalUnits.FirstSliceIff | libobs/obs-hevc.c:24-47 | The first unit that is a slice decides, told by the bits of the units' first bytes |
| NalUnits.PriorityIs | libobs/obs-hevc.c:49-72 | The fold of priorities is the highest one, or the grade, told by the same bits |
| NalUnits.SelectIsPick | libobs/obs-hevc.c:168-185 | The chunks of a kind are those of its types, and pictures those of all others |
| AudioTicks.RunKeepsOrder | libobs/obs-audio.c:518-676 | Over any run of callbacks the times given out are the starts of the windows that came in, in order, and the windows held are exactly the rest |
| AudioTicks.EmittedAreInputs | libobs/obs-audio.c:518-676 | From the beginning: no gap, no repeat, and never more held back than the buffering in force |
| AudioTicks.CallbackKeepsInv | libobs/obs-audio.c:614-676 | Between callbacks the queue is the phantom windows still to be waited for, then the held windows, as long as the total buffering, which is at most the maximum and never shrinks |
| AudioTicks.QueueContiguous | libobs/obs-audio.c:395-421 | When the held windows follow on one another, the whole queue is contiguous, phantom windows included |
| AudioTicks.RunStaysContiguous | libobs/obs-audio.c:518-676 | From the beginning, over any run: contiguous input windows give a contiguous queue |
| AudioTicks.BufferingReachesBack | libobs/obs-audio.c:364-421 | Buffering that is not clipped brings the window start to less than one sample period and one nanosecond after the lagging source, through two roundings down and one up |
| AudioTicks.CallbackBuffers | libobs/obs-audio.c:614-676 | Buffering grows exactly when it is fixed and below its maximum, then to the maximum, or when a source is at least one sample behind the front window, then by the least number of ticks that reaches back to it, up to the maximum; and a time is given out exactly when nothing was added and nothing is waited for |
| AudioTicks.CallbackReachesBack | libobs/obs-audio.c:614-623 | The time a callback comes to is less than one sample period and one nanosecond past every source, unless buffering is fixed or at its maximum |
| AudioTicks.NoSourceLeftBehind | libobs/obs-audio.c:518-676 | Over any run from the beginning: no time is given out that is further past a source, unless buffering is fixed or at its maximum, and none while a source is a sample or more behind the front window |
| AudioTicks.WindowEndSetIff | libobs/obs-audio.c:367-421 | The window given out has a set end if and only if the lag is at least one sample |
| AudioTicks.MulDivInParts | libobs/util/util_uint64.h:23-34 | The division in two parts is the floor of the product by the divisor |
| AudioTicks.PushTicks | libobs/obs-audio.c:398-421 | The push loop lengthens the queue by the ticks added |
| AudioTicks.AddedTicks | libobs/obs-audio.c:371-378 | Added ticks never take the total past the maximum |
| AudioTicks.PhantomsContiguous | libobs/obs-audio.c:398-421 | Phantom windows follow on one another up to the buffered time, although each end is rounded on its own |
| AudioCore.AudioCore.AudioCallback | libobs/obs-audio.c:518-676 | The callback on the fields: gives out the start of the window held longest, or none, and none for a source that lags; buffers for such a source, or up to the maximum when fixed, and else not |
| AudioCore.AudioCore.PushPhantoms | libobs/obs-audio.c:395-421 | The loop of both buffering functions pushes the specified windows and returns the last |
| AudioCore.AudioCore.SetFixedAudioBuffering | libobs/obs-audio.c:300-348 | Fills up to the maximum at once, or leaves everything when it is reached |
| AudioCore.AudioCore.AddAudioBuffering | libobs/obs-audio.c:350-422 | Adds the ticks of the lag, clipped at the maximum |
| AudioCore.AudioCore.BufferFor | libobs/obs-audio.c:614-623 | Which of the two is called, and with what, as `AudioTicks.CallbackBuffers` requires |
| AudioCore.AudioCore.QueueAndBuffer | libobs/obs-audio.c:518-676 | Queueing, buffering and letting go, in one callback |
| AudioCore.DropReaches | libobs/obs-audio.c:101-131 | Dropping the lag rounded up to samples falls short by at most one nanosecond and overshoots by less than one sample period |
| AudioCore.AudioSource.IgnoreAudio | libobs/obs-audio.c:83-152 | With enough samples the source is rendered again, its time at or less than one sample period after the start time; otherwise it is marked pending |
| AudioCore.AudioSource.DiscardIfStopped | libobs/obs-audio.c:154-193 | A leftover is thrown away exactly when it is as long as when last seen and an earlier such sight has put up the flag, whatever its length was then |
| AudioCore.QueueOnClock | libobs/obs-audio.c:398-421 | If the held windows are cut from the sample clock, so is every window in the queue |
| AudioCore.RunStaysOnClock | libobs/obs-audio.c:518-676 | From the beginning, over any run: input windows on the sample clock give a queue on the sample clock |
| AudioCore.WindowLength | libobs/obs-audio.c:398-421 | Such a window is at most one nanosecond longer than its samples |
| AudioCore.StartPointInBuffer | libobs/obs-audio.c:54-62 | A source time inside a window points at a frame of the mix buffer, never past it |
| AudioCore.MixAudio | libobs/obs-audio.c:48-81 | Each mixed sample is the old one plus the source's sample from the start point on, or the old one when the source lies outside the window or starts right behind the buffer |
| WeakRef.Safety | libobs/obs-internal.h:614-645 | Under every interleaving of atomic steps of any number of threads: refs + 1 counts strong handles, nothing is destroyed or freed twice, and a handle keeps what it stands for |
| WeakRef.NoResurrection | libobs/obs-internal.h:634-645 | Taking a strong handle from a weak one cannot succeed once the last strong handle is gone |
| WeakRef.RefusedIffGone | libobs/obs-internal.h:634-645 | It is refused, at a look or at an exchange, if and only if no strong handle is left at that step |
| WeakRef.UndisturbedSucceeds | libobs/obs-internal.h:634-645 | Undisturbed, it succeeds while anyone owns the object |
| WeakRef.ExchangeSucceedsIff | libobs/obs-internal.h:634-645 | Whatever other threads do between the look and the exchange, it succeeds if and only if as many strong handles are left as before, and goes round again if and only if others are left |
| WeakRef.NoStepAfterFree | libobs/obs-encoder.c:1742-1801 | No step of any thread is possible on a control block that was freed |
| WeakRef.QuiescentIsFreed | libobs/obs-encoder.c:1742-1772 | When all handles are given up and all calls have returned, the object was destroyed once and the control block freed once |
| WeakRef.StepKeepsInv | libobs/obs-internal.h:614-645 | Every atomic step of every thread keeps the counters equal to the handles and the pending releases |
| WeakRef.RunKeepsInv | libobs/obs-internal.h:614-645 | So does every interleaved run, and what is destroyed or freed stays so |
| WeakRef.InitInv | libobs/obs-encoder.c:1742-1801 | A new object with one owner starts the count |
| EncoderStart.OffsetIsSharp | libobs/obs-encoder.c:1428-1434 | The first sample kept starts at most one sample period before the video and not after it |
| EncoderStart.OffsetFallsInside | libobs/obs-encoder.c:1428-1434 | A video start before the next chunk falls on one of the samples so far, although both times are rounded on their own |
| EncoderStart.SyncFromChunk | libobs/obs-encoder.c:1459-1509 | Starting at a chunk, or at the first one buffered, keeps from the sample of the audio clock that is playing when the video starts |
| EncoderStart.EncoderPair.ReceiveVideo | libobs/obs-encoder.c:1369-1405 | Video waits for audio that is not later, then fixes the start time and counts its frames |
| EncoderStart.EncoderPair.BufferAudio | libobs/obs-encoder.c:1459-1509 | Every path keeps: frames sent and samples left are all samples from the one in sync on; starts exactly when the video start lies before the end of the chunk |
| EncoderStart.EncoderPair.StartFromBuffer | libobs/obs-encoder.c:1436-1456 | Drops exactly the samples before the video start |
| EncoderStart.EncoderPair.StartFromChunk | libobs/obs-encoder.c:1486-1505 | Keeps the chunk from the sample playing at the video start |
| EncoderStart.EncoderPair.PushBackAudio | libobs/obs-encoder.c:1413-1426 | Appends the chunk |
| EncoderStart.EncoderPair.SendAudioData | libobs/obs-encoder.c:1511-1534 | Frame n has pts n times the frame size and holds the next samples in order; a refused frame is lost and stops the claim |
| EncoderStart.EncoderPair.ReceiveAudio | libobs/obs-encoder.c:1609-1639 | Over a whole call, with chunks timed by the audio clock from any sample on: all retained samples are in frames sent or in the leftover, which is less than one frame |
| EncoderStart.EncoderPair.EncodeBuffered | libobs/obs-encoder.c:1628-1633 | The encode loop stops with less than one frame, or at the first refusal |
| EncoderStart.EncoderPair.FirstAudio | libobs/obs-encoder.c:1616-1620 | The first chunk fixes the time that samples are counted from |
| Pause.OffsetIsDroppedTime | libobs/obs-output.c:604-620 | Over any run of pauses from the reset state, those asked for before the first frame included, whenever none is pending: the offset is one interval for each frame dropped, and dropped time and encoded time add up, if and only if no pause was asked for with the clock more than one interval behind the last frame and one asked for before the first frame began on a frame, which is when the frames had begun by then and run through multiples of the interval; otherwise the offset is off by the frames late and by what the early pause is longer than its frames |
| Pause.LeadIsZeroIff | libobs/obs-output.c:612-620 | A pause asked for before the first frame begins on a frame if and only if the frames had begun by then and run through multiples of the interval |
| Pause.BeginIsSound | libobs/obs-encoder.c:1338-1355 | The first frame finds the accounting in order, whatever was asked for before it |
| Pause.EarlyPauseMiscounts | libobs/obs-output.c:604-620 | A concrete run from the reset state with no late request: 30 ms are taken off for one frame of 10 ms |
| Pause.EarlyPauseWrapsAround | libobs/obs-output.c:604-620 | Another: the resume point is before the pause point, and the offset wraps around to 5 ms below zero |
| Pause.FrameKeepsInv | libobs/obs-encoder.c:1338-1355 | A frame is dropped exactly when it is at or past the pause point and not the resume point; where the resume point is not ahead, every frame from the pause point on is |
| Pause.StopKeepsInv | libobs/obs-output.c:764-783 | A pause point lies on the frame grid, and is late exactly when the clock is more than one interval behind the last frame |
| Pause.ResumeKeepsInv | libobs/obs-output.c:604-620 | A resume point is not before the pause point, or the pause was asked for before the first frame, did not begin on one, and the point is before it by less than an interval; the offset counts dropped and still-to-drop frames and what the pause is longer than them |
| Pause.EventKeepsSound | libobs/obs-output.c:764-783 | Every event keeps the accounting |
| Pause.RunKeepsSound | libobs/obs-output.c:764-783 | So does every run |
| Pause.ClosestOnGrid | libobs/obs-output.c:612-620 | The point chosen is two grid points past the clock, whichever frame was last, and ahead of that frame if and only if the clock is at most one interval behind it |
| Pause.ClosestIsAheadIff | libobs/obs-output.c:612-620 | It is ahead of the last frame if and only if the clock is at most one interval behind that frame |
| Pause.EarlyPoints | libobs/obs-output.c:612-620 | Pausing and resuming before the first frame picks multiples of the interval, the end not before the start |
| Pause.EarlyPauseEndsIff | libobs/obs-output.c:612-620 | Such a pause ends, after some frame, if and only if the frames run through multiples of the interval and the first is not past the resume point |
| Pause.PauseEndsIff | libobs/obs-encoder.c:1338-1355 | A pause ends if and only if a frame falls on its resume point |
| Pause.ResumeEndsIff | libobs/obs-output.c:604-620 | A resume after the first frame ends the pause, wherever that began, if and only if the clock is at most one interval behind the last frame |
| Pause.ResumeNeverComes | libobs/obs-encoder.c:1338-1355 | Otherwise every frame from the pause on is dropped |
| Pause.EarlyPauseDropsEverything | libobs/obs-encoder.c:1338-1355 | A concrete run from the reset state: every frame is dropped for good |
| Pause.PauseData.GetClosestVTs | libobs/obs-output.c:612-620 | The one point of the grid through the last frame that is more than one and at most two intervals past the clock, unless the subtraction wraps around |
| Pause.PauseData.End | libobs/obs-output.c:604-610 | Ends a pause once, wrap-around included |
| Pause.PauseData.VideoPauseCheck | libobs/obs-encoder.c:1338-1355 | Which frames are dropped, and when the pause is over |
| Pause.PauseData.RawOutputPause | libobs/obs-output.c:764-783 | Pausing and resuming succeed only from the opposite state, and change nothing otherwise |
| Pause.EncodedOutputPause | libobs/obs-output.c:664-762 | All encoders of an output pause or resume at one time, or none does; without a video encoder none does |
| DataItem.Item.SetData | libobs/obs-data.c:373-403 | Sets the user value; default and autoselect value keep their bytes though they move |
| DataItem.Item.SetDefaultData | libobs/obs-data.c:405-432 | Sets the default; the other two keep their bytes |
| DataItem.Item.SetAutoselectData | libobs/obs-data.c:435-458 | Sets the autoselect value; the other two keep their bytes |
| DataItem.Item.UnsetUserValue | libobs/obs-data.c:1499-1514 | Removes the user value only |
| DataItem.Item.UnsetDefaultValue | libobs/obs-data.c:1516-1530 | Removes the default only |
| DataItem.Item.UnsetAutoselectValue | libobs/obs-data.c:1532-1539 | Removes the autoselect value only |
| DataItem.Item.ClearItem | libobs/obs-data.c:1053-1079 | Removes the user value and closes the gap |
| DataItem.Item.GetItemData | libobs/obs-data.c:98-103 | The pointer finds the user value, else the default, else the autoselect value, or there is none |
| DataItem.Item.Create | libobs/obs-data.c:266-308 | A new item holds its name and one value in the slot asked for |
| DataItem.Item.EnsureCapacity | libobs/obs-data.c:328-346 | The allocation grows to what is needed and keeps its bytes |
| DataItem.Item.MakeRoomForUser | libobs/obs-data.c:373-395 | What lies behind moves to its new aligned place, inside the allocation, unchanged |
| DataItem.Item.MakeRoomForDefault | libobs/obs-data.c:405-425 | The same for what lies behind the default |
| DataItem.Item.MakeRoomForAutoselect | libobs/obs-data.c:435-450 | The lengths in front become aligned without moving anything |
| DataItem.Item.MoveBytes | libobs/obs-data.c:360-371 | An overlapping move keeps the bytes moved and those outside |
| DataItem.Item.ValuesAligned | libobs/obs-data.c:88-129 | A value behind another starts aligned |
| DataItem.AlignSize | libobs/obs-data.c:69-73 | The least rounding up to the alignment |
| DataItem.NameAlignSize | libobs/obs-data.c:76-86 | The values start on an aligned offset behind header and name |
| JsonTree.RoundTrip | libobs/obs-data.c:462-644 | Loading a JSON object and writing it back gives it without nulls and without array elements that are not objects, members in the same order |
| JsonTree.RoundTripIsExactIff | libobs/obs-data.c:462-612 | The same tree comes back if and only if it has none of those |
| JsonTree.CleanedIsClean | libobs/obs-data.c:462-612 | A second round trip changes nothing |
| JsonTree.ValueRoundTrip | libobs/obs-data.c:508-525 | The same for every value below the top |
| JsonTree.SetLookup | libobs/obs-data.c:895-932 | Setting a name changes the user value of that name and no other, and no default |
| JsonTree.ValuesAt | libobs/obs-data.c:895-932 | With distinct names, the user value and the default of a name are those of its item, or none |
| JsonTree.PutOfPresent | libobs/obs-data.c:585-612 | Writing a member that is there replaces its value in its place |
| JsonTree.ApplyLookup | libobs/obs-data.c:1007-1041 | Applying a tree gives each name the source has a user value for a copy of it, leaves the other names alone, and touches no default |
| JsonTree.ApplyTwice | libobs/obs-data.c:1031-1041 | Applying the same tree again changes nothing |
| JsonTree.CopyKeepsJson | libobs/obs-data.c:971-1005 | A deep copy is written as the same JSON, members in the same order |
| JsonTree.ApplyKeepsJson | libobs/obs-data.c:1031-1041 | So is a whole object applied to an empty one |
| JsonSettings.Settings.SetItem | libobs/obs-data.c:895-932 | The search and the in-place change or append set the name |
| JsonSettings.Settings.AddJsonObjectData | libobs/obs-data.c:465-473 | The loop adds every member in turn |
| JsonSettings.Settings.AddJsonItem | libobs/obs-data.c:508-525 | Every branch on the JSON type, null included |
| JsonSettings.Settings.JsonArrayObjects | libobs/obs-data.c:485-506 | The loop skips elements that are not objects |
| JsonSettings.Settings.ApplyFrom | libobs/obs-data.c:1031-1041 | The loop applies every item, and applying an object to itself is nothing |
| JsonSettings.Settings.CopyValue | libobs/obs-data.c:971-1029 | Copies objects and arrays deeply |
| JsonSettings.Settings.CopyData | libobs/obs-data.c:971-981 | Builds the copy of an object by applying it to a new one |
| JsonSettings.Settings.ToJson | libobs/obs-data.c:585-612 | The loop writes every item that has a user value |
| JsonSettings.Settings.ValueToJson | libobs/obs-data.c:529-583 | Every branch on the item type |
| SceneList.MoveKeepsOthers | libobs/obs-scene.c:2581-2625 | A move takes one item to its target and keeps the other items in order |
| SceneList.MovesLead | libobs/obs-scene.c:2581-2625 | Up and down are single steps towards where top and bottom lead, undo each other, and stop there |
| SceneList.PositionIsTaken | libobs/obs-scene.c:2645-2677 | A position that exists is taken as it is, one past the end is last, one below zero second |
| SceneList.Pigeonhole | libobs/obs-scene.c:2891-2918 | A list without repeats found whole in an array of its length is a rearrangement of it |
| SceneList.PermutationIsDistinct | libobs/obs-scene.c:2891-2918 | So the array has no repeats and holds nothing else |
| SceneList.Scene.Detach | libobs/obs-scene.c:317-328 | The list without the item, still well linked; the item keeps its own links |
| SceneList.Scene.Attach | libobs/obs-scene.c:330-348 | The list with the item behind the one given, still well linked |
| SceneList.Scene.SetOrder | libobs/obs-scene.c:2581-2625 | Down, up, top and bottom, ends of the list included, each to its target position |
| SceneList.Scene.LastItem | libobs/obs-scene.c:2606-2615 | The walk from a detached item's links ends at the last item |
| SceneList.Scene.SetOrderPosition | libobs/obs-scene.c:2645-2677 | The item lands at the position asked for, last if that is too large, second if it is negative |
| SceneList.Scene.ItemsMatch | libobs/obs-scene.c:2891-2918 | Answers yes if and only if the array is a rearrangement of the list, and says whether it is the same order |
| SceneList.Scene.Relink | libobs/obs-scene.c:2942-2953 | Relinking gives a well-linked list in exactly the order of the array |
| SceneList.Scene.LinkInOrder | libobs/obs-scene.c:2944-2953 | The loop links the items in array order and leaves their scenes alone |
| SceneList.Scene.ReorderItems | libobs/obs-scene.c:2920-2960 | Reorders if and only if the array is a different rearrangement, and otherwise changes nothing |
| SceneVisibility.RunInv | libobs/obs-scene.c:2812-2859 | Over any run of shows, hides, forced sets and audio ticks in which no operation fails to add the source, the source is an active child, once, exactly while it is shown or a hide is pending |
| SceneVisibility.SetVisibleInvIff | libobs/obs-scene.c:2812-2859 | A show or hide keeps the count if and only if it changes nothing, hides, is not the first reason, or the source could become a child |
| SceneVisibility.ProcessInv | libobs/obs-scene.c:1299-1350 | Processing actions takes off exactly the hides processed |
| SceneVisibility.ForceInv | libobs/obs-scene.c:942-961 | A forced set keeps the count and the child in step if and only if it hides, is not the first reason, or the source could become a child |
| SceneVisibility.OpInvIff | libobs/obs-scene.c:942-961 | Each operation keeps them in step if and only if it succeeds in that |
| SceneVisibility.HiddenIsReleased | libobs/obs-scene.c:1299-1350 | Once its hides are processed, a hidden item's source is let go |
| SceneVisibility.HideWaitsForItsTime | libobs/obs-scene.c:2812-2859 | A shown item hidden at some time, whatever is pending: after a tick its source is still a child if and only if the tick's 1024 frames end by that time |
| SceneVisibility.ShowIsAtOnce | libobs/obs-scene.c:2812-2859 | A hidden item that is shown has its source as a child at once |
| SceneVisibility.ChangeIsHeardFromItsTime | libobs/obs-scene.c:1299-1350 | With nothing else pending, the frames of the tick's buffer that end by the time of a show or hide hold the old state, and all others the new one |
| SceneVisibility.AddedIsHeardFromItsTime | libobs/obs-scene.c:2150-2155 | So does the buffer of a new item: heard from the time it was added |
| SceneVisibility.HeardIsLatest | libobs/obs-scene.c:1299-1350 | Whatever is pending, what is heard at a frame is what the last action before the first one not reached by its end says |
| SceneVisibility.DueIsReached | libobs/obs-scene.c:1319-1320 | A tick processes what is reached by its last frame, or at time zero all |
| SceneVisibility.RunStamps | libobs/obs-scene.c:2812-2859 | Over any run in which the clock does not go back, pending actions are in order of the times they were asked for |
| SceneVisibility.AnswerIff | libobs/obs-scene.c:2812-2859 | A show or hide answers yes if and only if the item was not so before and the count is in step after |
| SceneVisibility.RunOffBy | libobs/obs-scene.c:2812-2859 | Over any run, whatever fails: the count is short by one for every show that has failed since visibility was last forced, and the source is a child once less for every forced show that ever failed |
| SceneVisibility.RunCountedIff | libobs/obs-scene.c:942-961 | So count and child are in step after a run if and only if no show has failed since visibility was last forced and no forced show ever did |
| SceneVisibility.FailedShowSticks | libobs/obs-scene.c:2812-2859 | After a failed show of a source with audio, over any run of shows, hides and ticks that succeed, the source is a child exactly while two things need it, so never while it is only shown; a forced set ends that exactly unless it fails, too |
| SceneVisibility.FailedShowRecoversEarly | libobs/obs-scene.c:2812-2859 | Hidden again, the source becomes a child by one more show before the hide is processed, and not after |
| SceneVisibility.AddedInv | libobs/obs-scene.c:2135-2157 | A new item starts with one reason and one child |
| SceneVisibility.SceneItem.SetVisibility | libobs/obs-scene.c:942-961 | The forced set on the fields |
| SceneVisibility.SceneItem.SetVisible | libobs/obs-scene.c:2812-2859 | Show and hide on the fields, failure included |
| SceneVisibility.SceneItem.ApplyAudioActions | libobs/obs-scene.c:1299-1350 | Processes the actions due, and the buffer says for each frame whether the item is heard there |
| SceneVisibility.SceneItem.FillUntilAction | libobs/obs-scene.c:1329-1334 | The frames up to the next action still hear the old state, those behind it the new |
| SceneVisibility.SceneItem.DerefAll | libobs/obs-scene.c:1344-1349 | The closing loop removes the child at the last reference |
| SceneVisibility.SceneItem.constructor | libobs/obs-scene.c:2135-2157 | A new item is shown, at once or by an action |
| Hotkeys.CallbacksAlternate | libobs/obs-hotkey.c:1071-1166 | Over any run of polls, injected events and loads, a hotkey's count is the number of its pressed bindings, and its callback hears press and release in strict alternation, beginning with a press |
| Hotkeys.PairExclusive | libobs/obs-hotkey.c:306-334 | Whatever the callbacks answer, the two halves of a pair are never pressed together |
| Hotkeys.PairPressedIff | libobs/obs-hotkey.c:306-334 | A half is pressed exactly while a call that pressed it, accepted with the other half up, is followed by no call that lets it go |
| Hotkeys.QueryPolls | libobs/obs-hotkey.c:1101-1137 | After a poll a binding is pressed exactly when the keyboard shows its modifiers, all and, if strict, only those, and its key or, without one, some modifier; it is armed; and it was pressed before or pressing is enabled |
| Hotkeys.KeyNeedsModifiersFirst | libobs/obs-hotkey.c:1101-1137 | Over two polls: a binding with a key is pressed only if its modifiers were down in the earlier one, or none are asked for |
| Hotkeys.InjectPresses | libobs/obs-hotkey.c:1145-1166 | An injected event presses exactly the bindings it fits, and releases none |
| Hotkeys.LoadReplaces | libobs/obs-hotkey.c:558-576 | Loading leaves the other hotkeys' bindings in order and puts the new ones behind them, not pressed |
| Hotkeys.NobodyIsTold | libobs/obs-hotkey.c:1071-1099 | With hotkeys rerouted to no router, no run tells any callback anything |
| Hotkeys.HandleInv | libobs/obs-hotkey.c:1101-1137 | Polling a binding keeps count and alternation in every branch |
| Hotkeys.InjectInv | libobs/obs-hotkey.c:1145-1166 | So does an injected event |
| Hotkeys.CreateInv | libobs/obs-hotkey.c:511-521 | So does a new binding |
| Hotkeys.RemoveAtInv | libobs/obs-hotkey.c:864-880 | So does removing one, pressed or not |
| Hotkeys.HotkeyTable.PressReleasedBinding | libobs/obs-hotkey.c:1071-1084 | Only the first press is told |
| Hotkeys.HotkeyTable.ReleasePressedBinding | libobs/obs-hotkey.c:1086-1099 | Only the last release is told |
| Hotkeys.HotkeyTable.HandleBinding | libobs/obs-hotkey.c:1101-1137 | All branches of the poll of one binding |
| Hotkeys.HotkeyTable.QueryHotkeys | libobs/obs-hotkey.c:1219-1237 | The poll goes over every binding once |
| Hotkeys.HotkeyTable.InjectHotkeyEvent | libobs/obs-hotkey.c:1168-1180 | The event goes to every binding once |
| Hotkeys.HotkeyTable.FindBinding | libobs/obs-hotkey.c:855-860 | The first binding of a hotkey |
| Hotkeys.HotkeyTable.RemoveBindings | libobs/obs-hotkey.c:864-880 | Removes every binding of a hotkey, releasing those pressed |
| Hotkeys.HotkeyTable.LoadHotkeyBindings | libobs/obs-hotkey.c:558-576 | Replaces the bindings of a hotkey |

## Left out

- InterleaveReset.WholeRunIsOrdered: for one video and one audio encoder, with clock ticks of at least a microsecond; for more audio encoders see `InterleaveTracks.OneAudioTrackIff`
- InterleaveMany.ManyTracksOrdered: one direction for several video encoders; the exact condition on delays is proved for one
- InterleaveStartup.VideoMarkSoundIff: for clock ticks of at least three microseconds, so that rounding to microseconds cannot decide
- InterleaveRuns.StepKeepsInv: from a started state in which audio counts as one stream, because the gate keeps a single audio mark
- InterleaveOutput.Output.InitializeInterleavedPackets: an output without a video encoder in slot 0 is left out, because it is only reached when pruning has found a packet of video track 0, which the start index then reads through
- Hotkeys.HotkeyTable.QueryHotkeys: does not model unregistering a hotkey whose bindings are pressed, which frees the hotkey before its bindings
- EncoderStart.EncoderPair.ReceiveAudio: chunks follow on one another by the audio clock; neither a pause inside a chunk nor the chunk times after one are modelled; one plane of samples
- DataItem.Item.SetDefaultData: the three values are bytes; reference counts of objects and arrays among the values, and what a change of type under an existing default does to them, are not modelled
- JsonSettings.Settings.AddJsonItem: a sub-object is stored by value, so sharing of sub-objects and their reference counts are not modelled; doubles are reals
- JsonSettings.Settings.SetItem: an item that outgrows its allocation is taken out of the table and added again at its end (libobs/obs-data.c:338-343); the model keeps its place. Loading sets every name once, so the order of a round trip does not depend on it
- SceneList.Scene.SetOrderPosition: a list of one item with a position above 1, where the source follows a null pointer, is excluded
- AudioCore.AudioCore.AudioCallback: the rendering and mixing between buffering and output, and the search for the smallest source time, are one parameter
- AudioCore.MixAudio: one channel of one mix, samples as reals; a start point past the mix buffer, where the count of frames would wrap around, is excluded
- WeakRef.Safety: memory ordering weaker than one atomic step at a time is not modelled
- Pause.OffsetIsDroppedTime: requests with the clock more than two intervals behind the last frame, where the unsigned subtraction wraps around, are excluded
- SceneVisibility.RunInv: for runs in which no operation fails to add the source; `SceneVisibility.RunOffBy` has all runs
- an audio encoder that is not paired with a video encoder, which starts at its first sample
- 64-bit overflow, except in the pause arithmetic
- captions and SEI messages added to packets on the way out
- the output delay queue, reconnecting, and video frames that were dropped before they were encoded
- `discard_audio`, and the second check for buffered packets in the start-up path, which changes nothing when nothing was discarded
- parsing the parameter sets of a stream into decoder configuration records
- the text parser and printer of JSON, and the saving of settings to files
- scene rendering, transforms and groups; sources, filters, transitions and services
