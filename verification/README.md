# A verified model of the server-monitor badge

The repository is the firmware of a small badge that watches one server, the Python agent that
serves the measurements, and the tool that checks a merged firmware image. This project models the
parts that decide something and proves what they promise:

- **The trend picture** (`TrendGrid`, `TrendLine`, `TrendHistory`, `TrendRaster`). A 60-slot ring of samples is
  drawn by an integer error-term loop into a bitmap of four pixels a byte. Three refinements are stacked:
  the bytes are an abstract picture, the loop is the ideal line rounded half up, the ring is the last
  sixty accepted samples. `TrendCanvas` puts them together: after any run of updates every pixel is
  what `PictureAt` declares.
- **WebSocket reassembly** (`WsReassembly`, `WsMessages`). A bounded buffer in 32-bit unsigned arithmetic refines a step
  function on values; that function delivers exactly the concatenation of every well-formed
  message that fits (sections 5.2 and 5.4 of RFC 6455), however it was cut, and recovers after any rejection. On any
  traffic whatever, the return code of each chunk says exactly which part of a message the chunks up to it are.
- **State and transports** (`ServerState`, `StatusAgent`, `AgentRecord`, `ReplayFilter`, `RxUnion`, `Coordinator`,
  `ClientStream`). Newest-wins merging over two transports, ageing, the agent's numbering across restarts
  composed with the device's replay filters, the memory both transports share, the interleaving of
  monitor task, callback task and update worker as one step system, and what a client's traffic becomes in it.
- **Audio** (`BspAudio`, `AudioRuns`, `VoiceQueue`, `Cooldown`). The codec's life cycle over a library that swallows
  errors and a board on which any call may fail, call by call and over whole runs; voice queues with
  preemption; the repeat guard of voice events.
- **Texts** (`JsonScanner`, `UniqueKeys`, `FirmwareVersion`, `ServerUrl`). One-pass scanners against the nesting of a printed JSON
  value (sections 2 and 7 of RFC 8259), the duplicate-key check, version strings with their order, and server addresses.
- **Updates and images** (`Ota`, `PartitionTable`, `FirmwareLayout`, `FlashArgs`). What reaches the boot slot, what a
  chain of updates does to the version, the binary partition table, the layout checks, and the whole
  check of a build.
- **Small protocols** (`DnsNames`, `CaptiveDns`, `BleDemo`). A DNS responder (sections 3.1 and 4.1 of RFC 1035), and the
  stop handshake of the Bluetooth demo.

Source that changes variables in place is modelled by methods and classes whose contracts tie them to
specification functions; lemmas then say what those functions mean. Tasks that run side by side are step
systems, one step for each indivisible statement. Calls into foreign code are parameters or methods with an
arbitrary result: network bodies, clocks, drivers, allocation. Hash functions are function parameters,
so nothing is assumed of them.

## Findings

Some properties one would like do not hold of the code as it stands, or hold only because of something
outside it. Each has a concrete case, a run or a value, and the exact condition under which the code
does meet it.

- **The pause handshake.** Statement by statement, the update worker may see a quiescent flag that is about to
  be cleared: `Coordinator.WindowIsReachable` is such a run from power-up. A grant can be trusted exactly
  when the monitor task is not between its look at the pause flag and the store that clears the
  other one: `Coordinator.GrantHoldsExactlyOutsideTheWindow`. On the device the window is closed by scheduling, not by
  the code: on one core, the monitor task (main/server_monitor.c:266, priority 3) does not block inside it, so the
  worker (main/ota/monitor_ota.c:127, priority 2) cannot run there; `Coordinator.WholeWindowsKeepTheHandshake`
  shows that this is enough.
- **Preemption of voice clips.** A critical event empties the warning queue before it fills its own. If the player could
  look in between, an interrupted clip might go on for any number of chunks
  (`VoiceQueue.AnyNumberOfChunks`), and only critical clips and those already noticed would be certain to interrupt
  after one chunk (`VoiceQueue.AtMostOneMoreChunkExactly`). On the device the handler runs at priority 4
  (main/events/monitor_events.c:7), the player at priority 2 (main/audio/monitor_audio.c:83), on one core and with no
  blocking call between reset and send; then every waiting clip of higher priority interrupts after at
  most one more chunk: `VoiceQueue.AtMostOneMoreChunkAsScheduled`.
- **Alert keys across restarts.** Samples a millisecond apart are not enough for them to increase:
  `AgentRecord.AlertKeyReusedWithoutThePause` is a run of the agent that sends one key twice. A record stays increasing
  exactly if the next snapshot continues it: `StatusAgent.RecordStaysIncreasingExactly`, and for the agent
  `AgentRecord.Agent.Broadcast`. The one-second pause in front of the first sample sees to that as long as the wall
  clock, from which the keys are made, moves on by a second meanwhile; the pause itself
  (server/passport_status.py:155) waits on another clock.
- **Formats with a zero part.** A wake restores the last format that was asked for with success exactly if none of its
  three parts is zero: `AudioRuns.WakeRestoresTheLastUse`, `BspAudio.Audio.Wake`; the case is
  `AudioRuns.ZeroPartIsNotRestored`. Whether the codec library takes such a format at all is not known here and is
  assumed.
- **Deep sleep under an open codec.** Preparing a deep sleep stops the channels and leaves the component open; after it,
  asking for the same format succeeds on stopped channels and nothing can be played:
  `AudioRuns.DeepSleepUnderAnOpenCodec`. Open means running throughout a run exactly if every deep sleep is prepared
  while the component is closed (or with two channels that will not stop): `AudioRuns.PlaysThroughoutExactly`. The one
  place that prepares a deep sleep (main/demo_low_power.c:92-95) sleeps first, and that order keeps it:
  `AudioRuns.SleepingFirstKeepsPlaying`.
- **Versions that are not valid.** Comparison is transitive through a string exactly if that string is valid:
  `FirmwareVersion.TransitiveExactlyThroughValidStrings`; a failing triple is `FirmwareVersion.InvalidStringsBreakTransitivity`.

## Model

| member | source | states |
|---|---|---|
| TrendGrid.PackingIsInjective | main/monitor/monitor_logic.c:145 | different pixels never share a byte and a lane, and every pixel's byte lies in the bitmap |
| TrendGrid.PixelIsTwoBits | main/monitor/monitor_logic.c:145-146 | pixel (x, y) is two bits of byte 48 y + x / 4, the leftmost of four pixels in the two highest bits |
| TrendGrid.LaneLaws | main/monitor/monitor_logic.c:146 | a lane written reads back, and the other three lanes of the byte are untouched |
| TrendGrid.PlotPixel | main/monitor/monitor_logic.c:143-147 | exactly the one visible pixel changes; a pixel off the canvas changes nothing |
| TrendGrid.PaintedThenPainted | main/monitor/monitor_logic.c:143-154 | painting in two goes is painting all the points at once |
| TrendLine.IdealOffsetIsNearest | main/monitor/monitor_logic.c:148-154 | the offset used is the only integer within half a pixel of the ideal line, ties going up |
| TrendLine.ErrorTestsAreExact | main/monitor/monitor_logic.c:152 | the two error comparisons advance the minor axis exactly when the ideal line does, and the error stays within bounds |
| TrendLine.OneTurn | main/monitor/monitor_logic.c:150-153 | each turn of the loop is one step along the line in any of the eight directions, and doubling the error cannot overflow |
| TrendLine.LineStartsAndEnds | main/monitor/monitor_logic.c:148-151 | the line begins at the first endpoint and reaches the second after max(dx, dy) steps |
| TrendLine.LineStaysInBox | main/monitor/monitor_logic.c:148-154 | no pixel leaves the box spanned by the endpoints |
| TrendLine.LineIsRoundedIdeal | main/monitor/monitor_logic.c:148-154 | a pixel is drawn if and only if it lies within half a pixel of the ideal segment, for all integer endpoints |
| TrendLine.DrawLine | main/monitor/monitor_logic.c:148-154 | the loop terminates having visited the line's max(dx, dy) + 1 pixels once each in order, and paints exactly those |
| TrendHistory.AcceptedSamplesAreSpaced | main/monitor/monitor_logic.c:8-12 | over any run, accepted samples are at least two seconds apart and the due time is two seconds after the last |
| TrendHistory.SamplesAreTheDueReadings | main/monitor/monitor_logic.c:8-12 | over any run of updates the samples are the floors of the CPU and RAM readings of exactly those updates that had data, were online, and came at least 2000 ms after every one sampled before, in order |
| TrendHistory.VerticesStayOnCanvas | main/monitor/monitor_logic.c:163-164 | every vertex is on the canvas, columns increase, and the newest sample is in column 191 |
| TrendHistory.VertexIsToScale | main/monitor/monitor_logic.c:163-164 | the row is the share of 79 rows that the value lacks to 100 %, rounded down, so that 100 % is on top; the column is its share of 191, counted as if sixty samples were there |
| TrendHistory.ReadingsAreShown | main/monitor/monitor_logic.c:159-168 | every sample held can be read off the bitmap: in its column, at the height of its value, RAM in colour 2 and CPU in colour 1 unless RAM covers it |
| TrendHistory.PushIntoRing | main/monitor/monitor_logic.c:10-11 | writing slot n modulo 60 keeps every one of the last sixty values in its slot |
| TrendHistory.RingIsLastSixty | main/monitor/monitor_logic.c:159-163 | read from its oldest slot the ring is the last sixty values pushed, before and after it has wrapped |
| TrendHistory.History.constructor | main/monitor/monitor_logic.h:3 | a zeroed history holds no sample |
| TrendHistory.History.Add | main/monitor/monitor_logic.c:8-12 | after any run of updates the ring, head, count and due time are those of the accepted samples |
| TrendRaster.PolylinePointsAreThePolyline | main/monitor/monitor_logic.c:162-167 | the points drawn for a series are exactly its geometric polyline, a single sample being one pixel |
| TrendRaster.PolylineStaysOnCanvas | main/monitor/monitor_logic.c:162-167 | nothing of a series is clipped |
| TrendRaster.DrawGuides | main/monitor/monitor_logic.c:157-158 | rows 0, 39 and 78 are colour 3, every other pixel is 0, and no byte outside the bitmap changes |
| TrendRaster.DrawSeries | main/monitor/monitor_logic.c:161-167 | one ring is painted as the polyline of the samples it holds, and nothing else changes |
| TrendRaster.LayersMakeThePicture | main/monitor/monitor_logic.c:157-168 | guides, then CPU, then RAM give the declared picture with its precedence |
| TrendRaster.Raster | main/monitor/monitor_logic.c:155-169 | every pixel is 2 on the RAM line, else 1 on the CPU line, else 3 on a guide row, else 0; bytes past 3840 stay; missing arguments or a short buffer change nothing |
| TrendRaster.TrendCanvas.Refresh | main/monitor_ui.c:99-101 | end to end: after any run of updates the bitmap is the picture of the last sixty accepted samples |
| WsReassembly.Step | main/monitor/monitor_logic.c:128-139 | any chunk, even a malformed one, leaves a buffer with frame offset <= used <= 4096 and no offset when inactive; a rejection resets everything; what it accepts is stated by WsMessages.EveryVerdict |
| WsReassembly.WsBuffer.Receive | main/monitor/monitor_logic.c:128-139 | the C-like buffer refines the step on values; no unsigned subtraction wraps, no write leaves the 4097 bytes, and a complete text is NUL-terminated |
| WsReassembly.RunInTwo | main/monitor/monitor_logic.c:128-139 | a run of chunks can be cut anywhere without changing its outcome |
| WsReassembly.VerdictAt | main/monitor/monitor_logic.c:132-138 | return code 1 only on the very last chunk of a message that fits, 0 before the first overflowing frame, -1 from that frame's first chunk on |
| WsReassembly.MessageIsDelivered | main/monitor/monitor_logic.c:128-139 | a well-formed fragmented message is delivered as its concatenated bytes if and only if it totals at most 4096 and meets an inactive buffer, for every cut |
| WsReassembly.FrameOverflows | main/monitor/monitor_logic.c:130 | a frame that does not fit is refused at its first chunk and nothing of the rest is delivered |
| WsReassembly.StreamIsDelivered | main/monitor/monitor_logic.c:128-139 | a stream of messages delivers exactly those that fit, in order |
| WsReassembly.RejectionResynchronises | main/monitor/monitor_logic.c:138 | after arbitrary traffic that ended in a rejection, all later messages get through intact |
| WsMessages.PartChunkByChunk | main/monitor/monitor_logic.c:129-130 | a part of a message, chunk by chunk: only the first has text opcode at offset 0, the others opcode 0 or 1 and the offset at which the one before ended, each lies within its frame, and none before the last ends a final frame |
| WsMessages.EveryVerdict | main/monitor/monitor_logic.c:128-139 | over any traffic at all, the code of a chunk is 1 if and only if some chunks up to it, from where the buffer was inactive, are a whole message, 0 if and only if they are a part of one, and -1 otherwise |
| WsMessages.TextIsTheMessage | main/monitor/monitor_logic.c:131-136 | every text delivered, over any traffic, is the concatenated data of the chunks of such a whole message |
| ServerState.SharedState.Commit | main/server_state.c:140-148 | a snapshot is stored, with its transport's fields, exactly if it is newer than the stored one |
| ServerState.SharedState.Age | main/server_state.c:104-109 | offline exactly without data or more than 60 s after the last update, stale exactly more than 15 s after it, online otherwise; nothing else changes |
| ServerState.Aged | main/server_state.c:104-109 | offline exactly without data or after more than 60 s, stale exactly after more than 15 s, online otherwise |
| ServerState.MergeKeepsTheNewest | main/server_state.c:140-148 | after any run over both transports the state holds the greatest (timestamp, seq) among all it has seen |
| ServerState.MergeIsOrderIndependent | main/server_state.c:140-148 | two runs that saw the same snapshots in any order, with any repetition and over any transports agree on key and metrics |
| ServerState.MergeKeepsDiagnostics | main/server_state.c:144-146 | no run of commits touches the alert shown or the reconnect counter |
| ServerState.LastAcceptedDecides | main/server_state.c:140-148 | after any run, key, readings, status and error text are those of the last accepted delivery, and so are its transport and time |
| ServerState.LastLiveDeliveryIsRemembered | main/server_state.c:144 | the time of the last live delivery survives any number of later polls |
| ServerState.LastPollIsTimed | main/server_state.c:145 | the latency shown is that of the last accepted poll, whatever came live after it |
| ServerState.TicksDoNotMatter | main/server_state.c:104-148 | ageing at any moments in between never changes what a run of deliveries ends with, except the status |
| ServerState.StatusTellsTheAge | main/server_monitor.c:256 | the status shown is online exactly if the last accepted delivery is at most 15 s old, offline exactly if it is more than 60 s old |
| ServerState.StatusOnlyDegrades | main/server_state.c:104-109 | between commits, under a clock that does not run back, status moves only from online to stale to offline |
| ServerState.AgeingKeepsTheRest | main/server_state.c:104-109 | ageing never changes data, key, alert or counters |
| StatusAgent.Collector.Sample | server/passport_status.py:102-128 | each sample has the next number and the current second; a reading that fails late has used up its number, one that fails early has not |
| StatusAgent.AlertEngine.Edges | server/passport_status.py:169-178 | one alert for each source that has just crossed 90 and for no other, carrying its value, with fresh increasing numbers |
| StatusAgent.AlertsTellTheReadings | server/passport_status.py:169-178 | CPU, RAM and disk are active exactly from 90 per cent of their own reading on; exactly the sources that become active raise an alert, CPU before disk before RAM |
| StatusAgent.AlertTellsItsReading | server/passport_status.py:174-176 | alert number i of a snapshot carries its timestamp, the number i + 1 above both counters, and the reading of its own source |
| StatusAgent.EdgesContinue | server/passport_status.py:172-176 | alert keys raised on a snapshot extend any earlier record strictly |
| StatusAgent.RecordStaysIncreasingExactly | server/passport_status.py:172-176 | alerts on a snapshot keep a whole record strictly increasing if and only if its second is later than that of the last alert, or is the same and one of the counters has reached its number |
| AgentRecord.Agent.Restart | server/passport_status.py:95-100 | a restart that remembers nothing but the wall clock keeps both records as they are |
| AgentRecord.Agent.Sample | server/passport_status.py:149-161 | every stored snapshot has a key greater than all before it, across restarts |
| AgentRecord.Agent.Broadcast | server/passport_status.py:238-250 | alerts are sent for the newly crossed sources of a new, recent snapshot and for nothing else; while the initial pause is kept their record is strictly increasing across restarts, and without it exactly if the snapshot continues the record |
| AgentRecord.AlertKeyReusedWithoutThePause | server/passport_status.py:149-178 | a run of sample, broadcast, restart, sample, broadcast without the pause that sends one alert key twice |
| ReplayFilter.AlertFilter.Accept | main/server_monitor.c:179-188 | a fresh alert is accepted exactly if it is newer than every fresh one before it, a stale one never |
| ReplayFilter.StoredIsNewest | main/server_monitor.c:183-185 | the filter's memory is the greatest key it has considered |
| ReplayFilter.ReplayIsFiltered | main/server_monitor.c:179-188 | for any strictly increasing record, under any duplication, loss and reordering, an item is accepted if and only if it was sent after everything delivered before it |
| ReplayFilter.SharedStateFiltersAlike | main/server_monitor.c:159-166 | snapshots committed to the shared state over either transport are filtered by the same rule |
| ReplayFilter.AcceptStatus | main/server_monitor.c:159-166 | a snapshot is committed if and only if it is at most 15 s old, at most 30 s ahead, and newer than the stored one; otherwise the state stays as it is |
| ReplayFilter.DeliverAlerts | main/server_monitor.c:179-188 | end to end: of everything a paused agent has sent over any restarts, under any duplication, loss, delay and reordering, the device accepts exactly the fresh alerts sent after every fresh one delivered before |
| ReplayFilter.DeliverSnapshots | main/server_monitor.c:159-166 | end to end for snapshots over any mix of transports, and the state ends with the latest fresh one |
| RxUnion.ReceivingIsAStep | main/server_monitor.c:26-28 | a chunk received into the shared memory is exactly a reassembly step on its view as a websocket buffer |
| RxUnion.OverwritingKeepsItIdle | main/server_monitor.c:26-28 | whatever a fetch writes over the shared bytes, the memory is as idle a websocket buffer as before |
| Coordinator.StepKeepsOneOwner | main/server_monitor.c:25-28 | every statement of every task, a fetch writing its body included, keeps a single owner of the shared receive memory |
| Coordinator.StepKeepsOneRevision | main/server_monitor.c:205-210 | client, fetch and parsed message in flight always belong to the revision in force |
| Coordinator.StepKeepsQueueAndLog | main/server_monitor.c:140-153 | queued messages belong to the revision in force, and so does every commit |
| Coordinator.EveryRun | main/server_monitor.c:127-258 | in every interleaving: fetches write the shared memory only with no client, callbacks only between start and joined stop, each client starts unmarked on an idle buffer whatever fetches left in it, each commit is of the current revision, and the pause flag is set exactly while the worker wants it |
| Coordinator.FetchLeavesItIdle | main/server_monitor.c:88-97 | a fetch leaves its body in the shared memory and the memory an idle websocket buffer |
| ClientStream.TextsAreDelivered | main/server_monitor.c:133-148 | during a client's life, in any interleaving, the texts handed to the parser are those of the reassembly of its chunks |
| ClientStream.ClientHearsItsMessages | main/server_monitor.c:127-154 | whatever earlier clients and fetches did: if a client's chunks are those of well-formed messages, exactly its messages that fit reach the parser, in order |
| ClientStream.NothingIsLostInSilence | main/server_monitor.c:145-146 | as long as a client is not marked as failed, every message that parsed has been taken by the monitor task in its order or is still waiting |
| ClientStream.FailsExactly | main/server_monitor.c:130-146 | during a client's life, in any interleaving, it is marked as failed if and only if a chunk was rejected, its connection was lost, or a parsed message found six waiting |
| ClientStream.FailedClientIsClosed | main/server_monitor.c:221-226 | a client that is marked as failed is never passed over by the monitor task: before it is closed no pass goes beyond the look at that mark |
| ClientStream.CloseComesFirst | main/server_monitor.c:150-154 | after a changed revision, a pass that is not ready, the screen saver, a give-up and a failed start, the monitor task does nothing before the close, which leaves no client, no message and an idle buffer |
| ClientStream.MonitorHearsItsMessages | main/server_monitor.c:127-241 | from the wire to the monitor task: if a client's chunks are those of well-formed messages that parse, then at any time it is marked as failed, or the messages taken followed by those waiting are exactly its messages, in order and under its revision |
| ClientStream.EveryAcceptanceIsLogged | main/server_monitor.c:237-252 | over any run, every snapshot or alert accepted is committed once |
| ClientStream.CommitIsLogged | main/server_monitor.c:237-252 | a commit says which client or fetch it came from and which revision was in force, and what is not accepted is not committed |
| Coordinator.RunKeepsHeldBack | main/ota/monitor_ota.c:106-117 | from a good grant to the release the monitor holds no client and fetches nothing |
| Coordinator.GrantHoldsExactlyOutsideTheWindow | main/server_monitor.c:211-218 | that promise holds of a grant if and only if the monitor task is not between the pause check and clearing the quiescent flag |
| Coordinator.WindowIsReachable | main/server_monitor.c:211-218 | a run of statements from power-up, through a first pass that adopts its revision and a second that is ready, that reaches such a bad grant |
| Coordinator.WholeWindowsKeepTheHandshake | main/server_monitor.c:211-218 | if the worker never gets its grant between those two statements, every grant is good for as long as it is held |
| Coordinator.WholePassesKeepTheHandshake | main/server_monitor.c:202-258 | with each pass of the monitor task taken as one step, every grant is good |
| BspAudio.Audio.constructor | components/bsp/src/bsp_audio.c:18-33 | the initial state satisfies the invariant with nothing allocated |
| BspAudio.Audio.Track | components/bsp/src/bsp_audio.c:37-42 | the first error since the last reset is kept and later ones do not replace it |
| BspAudio.Audio.CheckedEnable | components/bsp/src/bsp_audio.c:77-91 | no error remembered means both directions really have the wanted state, whatever the library hid; TX is started before RX and stopped after it |
| BspAudio.Audio.CheckedSetFormat | components/bsp/src/bsp_audio.c:93-109 | no error remembered means both directions have the format |
| BspAudio.Audio.StopBothChannels | components/bsp/src/bsp_audio.c:146-167 | success means that both channels are stopped; an already stopped one is no error |
| BspAudio.Audio.PrepareReopen | components/bsp/src/bsp_audio.c:230-242 | success means that both channels run, TX started first; failure leaves none running if stopping works |
| BspAudio.Audio.DeleteCodec | components/bsp/src/bsp_audio.c:245-264 | no codec object is left in any case; a failed release is remembered |
| BspAudio.Audio.CreateCodec | components/bsp/src/bsp_audio.c:356-385 | all of the codec or none of it, and never after a failed release |
| BspAudio.Audio.SetFormat | components/bsp/src/bsp_audio.c:433-485 | OK only without any checked error or refusal of the library, and with the hardware in that format; unless the format was in force already, in which case nothing changes, the channels then run, the volume is set and the input gain is 30; after failure no codec object, channels stopped if stopping works, and the chip in its forced sleep if that works |
| BspAudio.Audio.Cleanup | components/bsp/src/bsp_audio.c:266-300 | everything is given back except a channel whose deletion fails |
| BspAudio.Audio.Init | components/bsp/src/bsp_audio.c:387-431 | everything or nothing is initialised, a failed attempt leaves the chip in its forced sleep if that works and can be retried once its handles are gone, and never succeeds after a failed release |
| BspAudio.Audio.Sleep | components/bsp/src/bsp_audio.c:487-507 | always ends asleep without a codec object, and with the chip in its forced sleep if that works; success means that the channels are stopped and that the forced sleep came after every other register write, and stays the last for as long as the component sleeps; a repeated call repeats the verdict |
| BspAudio.Audio.Wake | components/bsp/src/bsp_audio.c:536-555 | success restores the volume, both channels, and the last successful format exactly if no part of it is zero, else with defaults for those parts; failure leaves it asleep without a codec object, and the chip in its forced sleep if that works |
| BspAudio.WakeRestoresNonZeroFormats | components/bsp/src/bsp_audio.c:541-543 | a part that is zero comes back as 16 kHz, 16 bits or one channel, every other part as it was |
| BspAudio.Audio.Pcm | components/bsp/src/bsp_audio.c:557-565 | PCM is refused with invalid state whenever the component is not open, and fails while the channel of its direction is stopped |
| BspAudio.Audio.SetVolume | components/bsp/src/bsp_audio.c:567-570 | the volume is capped at 100 and reaches an open codec |
| BspAudio.Audio.PrepareDeepSleep | components/bsp/src/bsp_audio.c:509-534 | open goes on meaning running exactly if it did before and the component is closed or neither channel would stop; success stops both channels |
| AudioRuns.Run | components/bsp/src/bsp_audio.c:387-570 | any calls in any order under any faults keep the invariant, each step being one of the listed ones |
| AudioRuns.PlaysThroughoutExactly | components/bsp/src/bsp_audio.c:509-534 | open means running throughout a run if and only if it does at the start and no deep sleep is prepared under an open codec with a channel that stops |
| AudioRuns.SleepingFirstKeepsPlaying | main/demo_low_power.c:92-95 | so in every run in which each deep sleep follows a sleep without reopening in between |
| AudioRuns.DeepSleepUnderAnOpenCodec | components/bsp/src/bsp_audio.c:436 | the other order: the same format then succeeds on stopped channels, and writing fails |
| AudioRuns.WakeRestoresTheLastUse | components/bsp/src/bsp_audio.c:536-555 | over any run a successful wake restores the last format asked for with success, or 16000/16/1 if there was none; all of it if and only if no part is zero |
| AudioRuns.ZeroPartIsNotRestored | components/bsp/src/bsp_audio.c:541-543 | a run with a format that has a zero part, which the wake does not restore |
| AudioRuns.FailedReleaseIsFinal | components/bsp/src/bsp_audio.c:245-264 | over any run, once a codec release has failed no init, format change, transfer, or wake from sleep ever succeeds |
| VoiceQueue.StepKeepsInv | main/audio/monitor_audio.c:25-77 | queues hold at most four clips of their own priority, and what the handler has cleared stays clear until it sends |
| VoiceQueue.SendingDiscardsLower | main/audio/monitor_audio.c:41-44 | in every run, when a clip is queued no lower clip waits any more, higher ones are untouched, and a full queue drops the new clip |
| VoiceQueue.EventIsQueued | main/audio/monitor_audio.c:41-44 | one whole event, from any state: the lower queues are empty then, the clip is the last of its own unless that held four, higher ones are as they were |
| VoiceQueue.HighestIsPlayedNext | main/audio/monitor_audio.c:52-53 | while the handler leaves the queues alone, the player takes the oldest clip of the highest queue in which one waits, within three looks, and goes on looking if there is none |
| VoiceQueue.PlayerStartsAtTheTop | main/audio/monitor_audio.c:50-74 | the player leaves a clip exactly if it is not permitted or cannot be opened, has ended, fails to play, or has found a higher one waiting; it then looks into the highest queue first, and goes on to the next only past an empty one |
| VoiceQueue.LateChunks | main/audio/monitor_audio.c:66-74 | in every interleaving, once a higher clip waits the current one gets at most the chunk under way plus one for each look taken inside a critical event's reset-to-send gap |
| VoiceQueue.NoGapLooks | main/audio/monitor_audio.c:68 | no such look can happen once a critical clip waits or the player has noticed |
| VoiceQueue.AnyNumberOfChunks | main/audio/monitor_audio.c:42-44 | otherwise, if statements of handler and player interleave freely, a run with any number of further chunks exists |
| VoiceQueue.AtMostOneMoreChunkExactly | main/audio/monitor_audio.c:66-74 | of freely interleaved runs, all write at most one more chunk if and only if the waiting clip is critical or already noticed |
| VoiceQueue.AtMostOneMoreChunkAsScheduled | main/audio/monitor_audio.c:66-74 | with the handler running undisturbed, as its higher priority on one core has it, every waiting clip of higher priority stops the current one after at most the chunk under way |
| VoiceQueue.WarningWaitsBehindInformation | main/audio/monitor_audio.c:25-77 | a run from the start that reaches the unprotected situation |
| Cooldown.Timer.Accept | main/monitor/monitor_logic.c:21-25 | the table with its seen marks refines a map from events to times; only an accepted call changes it |
| Cooldown.AcceptedExactlyAfterTheGap | main/monitor/monitor_logic.c:21-25 | after any run a call is accepted if and only if its event is known and every accepted one of its kind is at least 30 s (60 s if critical) back |
| Cooldown.AcceptedAreSpaced | main/monitor/monitor_logic.c:21-25 | any two accepted events of one kind, neighbours or not, are that far apart |
| JsonScanner.BoundedDepth | main/server_state.c:34-51 | the early-exit loop decides the same as the scanning automaton fed with every character |
| JsonScanner.FlatScan | main/monitor/monitor_logic.c:77-88 | as above for the flat pre-scan, with its length limits |
| JsonScanner.ValueScans | main/server_state.c:34-51 | a printed value with any layout and escapes leaves the scanner where it was, or rejected if it nests too deep |
| JsonScanner.StatusScanIsExact | main/server_state.c:34-51 | the printed text of a value passes if and only if its containers nest at most eight deep |
| JsonScanner.FlatScanIsExact | main/monitor/monitor_logic.c:77-88 | the printed text of a value passes if and only if it has no array and no object inside an object |
| JsonScanner.StatusScanOfAnyText | main/server_state.c:34-51 | any text at all, JSON or not, passes if and only if it consists of finished string literals and single characters without NUL, and its braces and brackets outside the literals balance with at most eight open |
| JsonScanner.FlatScanOfAnyText | main/monitor/monitor_logic.c:77-88 | likewise for the flat scan: no opening bracket outside the literals, and braces that balance with at most one open |
| UniqueKeys.HereAndBelow | main/server_state.c:52-61 | uniqueness along all paths is uniqueness here and in every child; the elements of an array need no keys, the members of an object all differ |
| UniqueKeys.AreUnique | main/server_state.c:52-61 | true if and only if no object reachable by any path has two members with one key |
| FirmwareVersion.ParseIsExact | main/monitor/monitor_logic.c:41-59 | reading finds a version if and only if the string spells it: three numbers up to 65535 and perhaps a beta number, at most 31 characters |
| FirmwareVersion.SpelledShape | main/monitor/monitor_logic.c:41-59 | a valid string has 5 to 31 characters, begins and ends with a digit, and has a digit behind every dot |
| FirmwareVersion.IsValid | main/monitor/monitor_logic.c:41-59 | the C loop accepts a string if and only if it spells some version |
| FirmwareVersion.OrderIsTotal | main/monitor/monitor_logic.c:60-69 | versions are totally ordered: antisymmetric, transitive, and only equal ones tie |
| FirmwareVersion.ComparedIsAPreorder | main/monitor/monitor_logic.c:60-69 | on valid strings the comparison is a total preorder that ties exactly the spellings of one version |
| FirmwareVersion.ComparedIsPrecedence | main/monitor/monitor_logic.c:60-69 | of two strings that spell versions the first compares as 1 if and only if it is above by section 11 of Semantic Versioning 2.0.0: larger in the first number that differs, or equal in all and a release against a beta or the larger of two betas; as -1 if and only if it is below, as 0 if and only if they are the same |
| FirmwareVersion.UnspelledTies | main/monitor/monitor_logic.c:61 | and as 0 if either string spells no version |
| FirmwareVersion.Compare | main/monitor/monitor_logic.c:60-69 | the pointer-walking comparison gives the order of the two versions, and 0 if either string is invalid; which order that is, is stated by FirmwareVersion.ComparedIsPrecedence |
| FirmwareVersion.ShownIsParsed | main/monitor/monitor_logic.c:41-59 | every version in range has a printed form that is valid and reads back as itself |
| FirmwareVersion.TransitiveExactlyThroughValidStrings | main/monitor/monitor_logic.c:60-69 | comparison is transitive through a string, whatever stands on either side, if and only if that string is valid |
| FirmwareVersion.InvalidStringsBreakTransitivity | main/monitor/monitor_logic.c:61 | a concrete triple with an invalid string on which the comparison is not transitive |
| ServerUrl.CheckedIsExact | main/server_state.c:121-137 | reading host, port and path greedily finds them if and only if the address is one at all |
| ServerUrl.IsValidUrl | main/server_state.c:121-137 | an address is accepted if and only if it is https, a host that neither begins nor ends in a dot or hyphen, perhaps a port from 1 to 65535 in at most five digits, and a plain path, in at most 255 characters |
| ServerUrl.PlainAddress | main/server_state.c:121-137 | every host of letters, digits, dots and hyphens that begins and ends with a letter or digit, with any port number from 1 to 65535 or none and any visible path without ? # @ and backslash, is accepted up to 255 characters in all |
| ServerUrl.AddressCharacters | main/server_state.c:121-137 | and an accepted address has no other characters and no other port |
| ServerUrl.AuthorityDecides | main/ota/monitor_ota.c:32-35 | two valid addresses agree up to the first slash if and only if they name the same host and port |
| ServerUrl.SameOrigin | main/ota/monitor_ota.c:32-35 | true if and only if both addresses are valid and name the same host and port as written |
| Ota.Install | main/ota/monitor_ota.c:70-97 | the slot is selected if and only if the address is on the configured server, the version strictly newer, a slot there and large enough, the bytes that the network delivered are of the announced size and digest and call themselves by the announced version and the running project, the download took less than two minutes, and no foreign call failed; the slot then holds exactly those bytes, otherwise the selection is untouched |
| Ota.Download | main/ota/monitor_ota.c:78-87 | the loop ends, and succeeds exactly when nothing failed within two minutes; the slot then holds exactly the bytes that the body reads handed out, in their order and of the announced number |
| Ota.UpgradesCompose | main/ota/monitor_ota.c:71 | an upgrade of an upgrade is an upgrade |
| Ota.UpgradesGoAbove | main/ota/monitor_ota.c:71 | an upgrade goes to a version above in the precedence of section 11 of Semantic Versioning 2.0.0, never below |
| Ota.ChainsIncrease | main/ota/monitor_ota.c:70-97 | along any chain of installs every later version is above every earlier one by that precedence, so none recurs |
| Ota.Device.Update | main/ota/monitor_ota.c:98-119 | an attempt restarts exactly when the network delivered a wanted image as announced in time and nothing failed, and then into the announced version of the same project; otherwise nothing that is booted changes, and the record of booted versions stays a chain of upgrades |
| PartitionTable.Parse | tools/verify_firmware.py:39-75 | the loop with its early exits decides the same as reading entry by entry |
| PartitionTable.ParsedExactly | tools/verify_firmware.py:39-75 | byte by byte: a table parses to a list if and only if it has at least 3072 bytes, its entries describe exactly those partitions, each named, not empty, above the minimum and within 8 MB, and it ends in 0xFF, at its last entry, or in a marker with the right digest; a wrong digest is an error |
| PartitionTable.ReadEntriesInBounds | tools/verify_firmware.py:64-70 | every parsed partition is named, not empty and inside the flash above the minimum offset |
| PartitionTable.EntryReadsBack | tools/verify_firmware.py:62-71 | a written entry reads back, for any field values and any name of 1 to 16 NUL-free ASCII bytes |
| PartitionTable.TableReadsBack | tools/verify_firmware.py:39-75 | a table of 1 to 95 writable partitions with its digest marker parses to the same list with the digest found |
| FirmwareLayout.NeighboursSuffice | tools/verify_firmware.py:115-118 | comparing neighbours after sorting by start is exactly comparing all pairs, for spans that are not empty |
| FirmwareLayout.CheckNeighbours | tools/verify_firmware.py:145-148 | true if and only if all pairs are disjoint |
| FirmwareLayout.VerifyImages | tools/verify_firmware.py:99-125 | passes if and only if all images exist, are not empty, lie in the flash, are pairwise disjoint and equal their part of the merged file |
| FirmwareLayout.VerifyLayout | tools/verify_firmware.py:128-173 | passes if and only if the table parses with its digest, names differ, partitions are disjoint, and the application fits its only partition and starts with its magic byte |
| FirmwareLayout.VerifyExtras | tools/verify_firmware.py:176-186 | passes if and only if every custom image lies within some partition |
| FlashArgs.ParseArgs | tools/verify_firmware.py:78-96 | the arguments parse if and only if every line is empty, an option, or an offset with one name, and no name is repeated; the images are those lines in order |
| FlashArgs.ArgsLineByLine | tools/verify_firmware.py:78-96 | a line is empty, gives an offset and one name, or begins with two hyphens and no number; the images are exactly those the lines give, one for each name |
| FlashArgs.CheckBuild | tools/verify_firmware.py:198-219 | the whole tool passes if and only if the flash size option is there, the arguments parse, and the firmware they describe is good |
| FirmwareLayout.Verify | tools/verify_firmware.py:203-218 | for parsed arguments the checks pass if and only if the firmware is good |
| FirmwareLayout.GoodMeansSound | tools/verify_firmware.py:99-219 | good, in terms of addresses and bytes: at most 8 MB, the three required images with the bootloader at 0, every image in the merged file byte by byte on addresses of its own, a sound table with its digest at its place, one application partition that begins with 0xE9, and each custom image within a partition |
| FirmwareLayout.NothingOverlaps | tools/verify_firmware.py:198-219 | of a good firmware no address is in two images, and none in two partitions |
| FirmwareLayout.EachInOnePartition | tools/verify_firmware.py:176-186 | of a good firmware the application and every custom image lie in exactly one partition |
| FirmwareLayout.BootAreaIsFree | tools/verify_firmware.py:206-217 | of a good firmware the bootloader ends before the table, and no partition reaches back into the table's sector |
| CaptiveDns.IsQuestion | main/network/captive_dns.c:23-25 | the label walk stays in bounds, ends, and accepts exactly where reading a name and its type and class reaches the last byte |
| CaptiveDns.QuestionIsExact | main/network/captive_dns.c:23-25 | that is so if and only if the bytes are one encoded name of 1 to 63-byte labels followed by type A and class IN |
| DnsNames.EncodedIsRead | main/network/captive_dns.c:24 | an encoded name reads back as its labels, whatever follows |
| DnsNames.ReadIsEncoded | main/network/captive_dns.c:24 | only encoded names are read |
| CaptiveDns.Respond | main/network/captive_dns.c:19-28 | a packet is answered if and only if it comes from the access point's clients while enabled and asks for one name's address, a name then of at most 240 bytes; otherwise the buffer is untouched |
| CaptiveDns.WriteReply | main/network/captive_dns.c:26-28 | the reply keeps identifier and question, sets the header, and appends the answer |
| CaptiveDns.ReplyReads | main/network/captive_dns.c:26-28 | every reply re-parses as a response without error to the same identifier and question, with one A record whose name pointer resolves to that question |
| CaptiveDns.RepliesAreNotAnswered | main/network/captive_dns.c:20-26 | no reply, to whatever packet, asks for anything itself: it is never answered |
| BleDemo.Demo.Start | main/demo_ble.c:105-167 | a running host task, or none at all with the error reported; a second start changes nothing in the stack |
| BleDemo.Demo.Stop | main/demo_ble.c:169-218 | the host task is deleted only after it has acknowledged, the stack is asked to stop at most once per task and deinitialised only with no task; success gives everything back, failure keeps ownership for a retry |
| BleDemo.Demo.Run | main/demo_ble.c:105-218 | any calls in any order with the host task working at any time; every deleted task was stopped exactly once, and after a successful stop none is left |

## Left out

- User interface, HTML, Wi-Fi driver, SNTP, sockets, TLS, NVS, power saving: foreign calls or plumbing.
- cJSON itself and the range checks on single fields of a parsed document: one branch each.
- `monitor_wss_url_valid`, `monitor_backoff_ms`, `monitor_alert_edges`, `monitor_volume`, mu-law decoding, retry tables: single-branch helpers and tables.
- Rate and uptime formatting, and the rounding of percentages: floating point output; percentages are integers.
- ES8311 register values: a forced sleep only succeeds or fails.
- TrendHistory.History.Add: times are unbounded, so the wrap of a 64-bit millisecond clock after half a billion years is not modelled.
- ServerState.SharedState.Commit: floating point fields, load averages and service flags travel as one opaque value.
- ServerState.SharedState.Age: times are unbounded integers.
- ReplayFilter.AlertFilter.Accept: wall-clock times are integers; the source compares them as doubles.
- ReplayFilter.ReplayIsFiltered: speaks of deliveries that passed the freshness check; the two end-to-end members include that check. All of them stay within one config revision (a new one clears the filter).
- Coordinator.EveryRun: tasks are steps on values, not code in memory; reading config and revision is one step; events, log lines and latency fields are left out, as is the choice of times at which the monitor task retries and polls, which is arbitrary here.
- Coordinator.WholePassesKeepTheHandshake: the update worker's own deadline is an arbitrary decision to give up.
- BspAudio.Audio.LibraryOpen: the codec library is modelled by what its public interfaces do and which errors it drops, not by its code; any refusal of a format counts as a failure.
- BspAudio.Audio.CheckedSetFormat: called for both directions only; the branch that refuses a single direction is left out.
- VoiceQueue.AnyNumberOfChunks: the run interleaves single statements; task priorities on the one core rule it out, as `VoiceQueue.AtMostOneMoreChunkAsScheduled` says.
- Coordinator.WindowIsReachable: likewise, as `Coordinator.WholeWindowsKeepTheHandshake` says.
- VoiceQueue.StepKeepsInv: permission settings, opening a file and the attention tone in front of a critical clip are arbitrary outcomes of a step; nothing can preempt a critical clip, so the tone is not counted as chunks.
- Cooldown.Timer.Accept: the mask of events seen is the set of its bit numbers.
- UniqueKeys.AreUnique: the linked list of children is a sequence.
- FirmwareVersion.IsValid: a missing (null) string is not modelled.
- ServerUrl.IsValidUrl: a missing (null) string is not modelled.
- Ota.Download: writing a chunk and feeding it to the hash are one outcome; the digest is taken of the bytes written.
- Ota.Device.Update: rollback by the boot loader is not modelled; the manifest download before it is not either.
- PartitionTable.Parse: error messages are not modelled, only that there is an error; the digest is any function.
- FirmwareLayout.Verify: file access errors are missing entries of a map.
- FlashArgs.ParseArgs: shell splitting and Python's reading of numbers are function parameters; the command line is left out.
- CaptiveDns.Respond: the socket and its timeout are left out.
- BleDemo.Demo.Start: advertising, its callbacks and the state shown on the page are left out.
