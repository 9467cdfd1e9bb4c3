# Verification of voice-elf's streaming core

A Dafny model of the parts of voice-elf whose guarantees hold only over whole runs or whole
streams, and proofs of those guarantees. `dafny verify dfyconfig.toml` checks everything.

| Files | What they model |
|---|---|
| `CommandBus.dfy`, `CommandFlow.dfy`, `CommandRestart.dfy`, `CommandDrain.dfy` | the admin process's command log, its streamer, the reconnecting consumer and its memory of applied commands, as one system of atomic steps; what arrives after a restart; a connection left alone falls quiet |
| `Audio.dfy`, `AudioResponse.dfy` | PCM16 frames, the voice clean-up filter in place, the incremental speech quality |
| `RoomProtocol.dfy`, `RoomMixer.dfy`, `MixerRuns.dfy`, `MixerSpeakers.dfy`, `MixerPacing.dfy`, `MixerSpeech.dfy`, `MixerBlocks.dfy`, `MixerNames.dfy` | the room mixer: commands and 32 ms ticks in, Start / Speakers / Audio / End messages out |
| `PipelineSession.dfy`, `SessionLimits.dfy`, `RoomPipeline.dfy` | the session that receives those messages, and mixer and session together |
| `UtteranceStore.dfy`, `StagePipeline.dfy`, `StageWorkers.dfy`, `StageRuns.dfy` | the status column and the three stage workers, over every interleaving |
| `Resampler.dfy` | the browser's FIR filter, streaming resampler and framing |
| `BrowserVad.dfy`, `VadRuns.dfy` | the speech gate, pre-roll and routing |
| `VadWorker.dfy`, `VadSystem.dfy`, `VadHistory.dfy` | the worker that brackets frames into messages, and detector and worker together |
| `Utf8.dfy`, `Utf8Stream.dfy`, `ReplaceMatches.dfy`, `ReplaceText.dfy` | UTF-8 (RFC 3629), decoding it while it arrives, word replacement |
| `GrpcFrames.dfy`, `Protobuf.dfy`, `ApiMessages.dfy` | gRPC-Web frames, varints and fields, headers and responses |
| `ExternalAudio.dfy` | the worklet's chunked buffer |
| `Lease.dfy` | entitlements and offline leases |
| `Common.dfy` | bytes, optional values, concatenation, minimum and maximum |

Code that changes state is a class or a loop proved against a specification function; the
laws are proved about those functions, over all runs. A run is a list of events in any
order. Times, fresh identifiers, the neural model's decisions, engine results, which writes
succeed and how bytes are cut are inputs and may be anything.

Results that the code's own documentation would not lead one to expect:

- After a restart of the admin process a stale cursor can make the consumer skip commands
  (`CommandBus.StaleCursorSkipsCommand`), even after a first connection that replayed the
  whole log (`CommandRestart.ReplayIsNotEnough`). It gets everything the new process
  publishes exactly if no connection is made with a cursor that the process's numbers have
  reached but that counts more of its commands than have arrived, and no fetch comes when
  the log has moved beyond both the cursor and what has arrived
  (`CommandRestart.CompleteAfterRestartIff`). No command is applied twice in any case.
- Without a restart, a streamer that fetches more than 2,048 commands late loses one for
  good (`CommandBus.StalledStreamer`), and that is the only way to
  (`CommandBus.CompleteIffKeepsUp`).
- An instance in its grace period that cannot reach the bus reports a warning, which is a
  better status (`Lease.GraceBecomesWarning`, `Lease.StatusImprovesIff`).
- A segment whose configuration the session refuses gets no outcome at all
  (`RoomPipeline.RefusedSegment`); `RoomPipeline.EverySegmentOneOutcome` is about those
  opened with a supported one.
- Two readers of length-delimited fields add a length to the position from before it was
  read: skipping an unknown field in `grpc-web.ts` never ends where the field ends
  (`Protobuf.SkipsShort`), and the realtime transport's `bytes` is right about empty fields
  only (`Protobuf.RealtimeBytesIff`).
- A header name beginning with a byte order mark is not read back
  (`ApiMessages.HeaderRoundTripIff`).
- An utterance can be left unfinished after the drain (`StageRuns.DrainedUnfinished`),
  exactly if its failure could not be written (`StagePipeline.VerdictUnfinishedIff`,
  `StageRuns.DrainLeavesNothing`); the passes over the rows are what settles it.

Assumptions: publishers of commands are serialised; where a result is about how fast
frames are sent (`MixerPacing.WellTimed`), the period of the mixer's ticker makes any two of
its ticks fall into different 32 ms periods; arithmetic on audio is exact.

## Model

| member | source | states |
|---|---|---|
| CommandBus.RuntimeCommandBus.Publish | server/src/control.rs:85-105 | a command gets the next number and goes to the end of the log, pushing out the oldest of 2,048 |
| CommandBus.RuntimeCommandBus.Snapshot | server/src/control.rs:107-116 | the loop over the log gives the commands beyond the cursor, in order |
| CommandBus.CommandsAfterIsSuffix | server/src/control.rs:107-116 | on a gap-free log that is the suffix after the cursor, everything if the cursor is before it, nothing if it is at the end |
| CommandBus.ProcessedCommands.Insert | server/src/control.rs:423-433 | an id is remembered once, and beyond 4,096 the oldest is forgotten from list and set alike |
| CommandBus.CommandListener.ConsumeStream | server/src/control.rs:388-409 | one connection's messages leave cursor, memory and applied commands as receiving them one by one does |
| CommandBus.ForgottenCannotArrive | server/src/control.rs:98-101 | when a full memory forgets an id, no log, batch or connection can deliver that command any more: the relation of the two capacities |
| CommandBus.AppliedAtMostOnce | server/src/control.rs:338-434 | over every run of publishing, losing connections, restarting the admin process and reconnecting with a reset cursor, no command is applied twice; the memory's set is the set of its list, at most 4,096 long |
| CommandBus.MemoryIsLatest | server/src/control.rs:423-433 | over every run the consumer remembers exactly the last 4,096 ids it applied |
| CommandBus.FetchGapFreeIff | server/src/control.rs:107-116 | a fetch gets everything beyond its cursor exactly if the cursor is at most 2,048 behind |
| CommandBus.DeliveredInOrder | server/src/control.rs:149-176 | within one admin lifetime and never more than 2,048 behind at a fetch, the consumer has received exactly a prefix of what was published, numbered 1, 2, 3, ..., applied the valid ones, and has all of it when the connection is quiet |
| CommandBus.CompleteIffKeepsUp | server/src/control.rs:149-176 | within one admin lifetime, when the connection is quiet the consumer has received everything exactly if no fetch came more than 2,048 behind; after one that did, a command has left the log, is not on its way and was not received |
| CommandBus.GoneForGood | server/src/control.rs:98-116 | such a command is never received, over any run with any restarts |
| CommandBus.StalledStreamer | server/src/control.rs:162-176 | a run without a restart that loses a command: 2,049 published between a connection and its fetch |
| CommandBus.NoLostWakeup | server/src/control.rs:162-168 | a streamer waiting un-notified, with no publisher between storing and notifying, has no command beyond its cursor, over every run |
| CommandBus.ReplayedInFullIff | server/src/control.rs:154-161 | one fetch of a new connection gets the whole log exactly if the consumer's cursor is beyond the process's numbers or before the first it still has |
| CommandRestart.CompleteAfterRestartIff | server/src/control.rs:149-176 | after any run and a restart, whatever happens until the next: when the connection is quiet the consumer has received every command of the new process exactly if no connection was made with a cursor the numbers had reached but counting more of its commands than had arrived, and no fetch came when the log had moved beyond both the cursor and what had arrived; without these, those received are always the first so many |
| CommandRestart.ValidAreApplied | server/src/control.rs:393-406 | over every run with any restarts every valid command received has been applied |
| CommandRestart.ReplayIsNotEnough | server/src/control.rs:154-161 | a run in which the first connection after a restart replays everything and the second skips a command for good |
| CommandBus.StaleCursorSkipsCommand | server/src/control.rs:154-161 | a run with a restart after which the connection is quiet and one published command was never applied |
| CommandDrain.QuietWithin | server/src/control.rs:149-176 | after any run that leaves a connection up, publishers, streamer and consumer take, in any order, at most 8,196 further steps, 4 for each command not notified and 1 for each on its way; when none of them can take one, the connection is quiet, which is what `CommandBus.CompleteIffKeepsUp` and `CommandRestart.CompleteAfterRestartIff` start from |
| CommandDrain.DeliveredOneByOne | server/src/control.rs:388-409 | handling a connection's messages in one loop leaves the consumer as delivering them one at a time does |
| Audio.FrameRoundTrip | server/src/room_hub.rs:634-651 | a byte string decodes to a frame exactly if it is that frame's encoding |
| Audio.DecodedSample | server/src/room_hub.rs:634-651 | a sample is its two bytes, the low one first, as a signed number |
| Audio.CleanedConcat | server/src/audio.rs:77-88 | cleaning in pieces is cleaning the whole: filter and fade state carry over |
| Audio.VoiceConcat | server/src/audio.rs:77-88 | the filter's state after pieces is its state after the whole |
| Audio.VoiceAudioProcessor.Process | server/src/audio.rs:77-88 | the samples are replaced in place by the cleaned ones and the state moves on |
| Audio.ObserveConcat | server/src/audio.rs:99-103 | observing whole frames in pieces counts what observing everything counts |
| Audio.ObserveGrows | server/src/audio.rs:105-107 | audio once accepted stays accepted whatever follows |
| Audio.SpeechQuality.ObserveSamples | server/src/audio.rs:99-127 | the counters after the loop over whole frames are those of the frames so far |
| Audio.FrameFeatures | server/src/audio.rs:135-158 | the accumulator loops decide whether mean power and zero crossings of the frame are within the gate's bounds |
| AudioResponse.CleanedIs | server/src/audio.rs:77-88 | from rest the cleaned stream is that of the two sections' difference equations over the whole input, at a volume that rises over the fade and is then full, rounded and clamped |
| AudioResponse.ToSampleIsNearest | server/src/audio.rs:86 | the sample written is the nearest one, or the nearest end of the 16-bit range |
| AudioResponse.AudibleIff | server/src/audio.rs:135-158 | a frame is audible exactly if its variance is at least (full scale / 100) squared and its deviation from the mean changes sign 8 to 163 times |
| AudioResponse.SquareWaveIff | server/src/audio.rs:135-158 | a square wave is audible exactly from amplitude 328 on and with 8 to 163 changes of sign |
| RoomMixer.SumSplit | server/src/room_hub.rs:656-660 | the sum over speakers does not depend on which is taken first |
| RoomMixer.RunningSumIsSum | server/src/room_hub.rs:656-660 | the running sum over any ordering of the speakers is that sum |
| RoomMixer.MixFrames | server/src/room_hub.rs:653-664 | the loops give, in each of 512 places, the truncated mean, with the clamp never changing it |
| RoomMixer.QuotientTruncates | server/src/room_hub.rs:661 | the mean is the quotient cut towards zero, on either side |
| RoomMixer.SumFitsIff | server/src/room_hub.rs:656-661 | the 32-bit sum cannot overflow on any frames exactly if there are at most 65,536 speakers |
| RoomMixer.MixerTask.Command | server/src/room_hub.rs:482-523 | one command changes queues, activity, configuration and segment as specified, with a shutdown ending the open segment |
| RoomMixer.MixerTask.PopFrames | server/src/room_hub.rs:525-530 | exactly one frame is taken from every non-empty queue, from the front |
| RoomMixer.MixerTask.OnTick | server/src/room_hub.rs:524-603 | one tick takes frames, opens or extends the segment, counts idle ticks and closes it when due |
| MixerRuns.OutputIsBlocks | server/src/room_hub.rs:524-632 | the output of every run, at whatever times, is Start, Speakers and Audio, End blocks with at most one open, never two ids alike; End's count is 512 times the block's audio messages; an open block is the open segment, whose speakers are those last announced |
| MixerSpeakers.AnnouncedAreMixed | server/src/room_hub.rs:556-576 | in every run, whenever a frame is sent and whenever a segment ends, the users last announced are exactly those whose frames were mixed into it so far, where frame k is the mean of the frames of mix k |
| MixerSpeakers.WellAnnouncedAt | server/src/room_hub.rs:561-570 | the same read off for any one message of the output |
| MixerPacing.FramesOnTime | server/src/room_hub.rs:524-603 | with ticks in different 32 ms periods, every block's first audio message is sent with its start, the others in later periods, and none after one that was already at the longest duration; an open block has not reached it by the last tick |
| MixerRuns.AudioIsMean | server/src/room_hub.rs:571-576 | every audio message decodes to the sample means of the frames of its tick, in order |
| MixerRuns.FramesConserved | server/src/room_hub.rs:502-530 | per speaker, frames accepted are those mixed or dropped by removal, first in first out, followed by those queued, at most 48 |
| MixerSpeech.SpeakersAre | server/src/room_hub.rs:482-523 | before a shutdown the mixer keeps exactly the users who began and were not removed, under the name they last began with, active exactly if they have neither finished nor been removed since, and with exactly the frames that wait; and the configuration last set |
| MixerSpeech.AcceptedIff | server/src/room_hub.rs:502-510 | a frame is accepted exactly if it has 1,024 bytes, its user is speaking and fewer than 48 of theirs wait |
| MixerSpeech.MixesAre | server/src/room_hub.rs:525-530 | a tick mixes exactly the first waiting frame of everyone who has one |
| MixerSpeech.ClosesWhenQuiet | server/src/room_hub.rs:577-603 | with nobody speaking and nothing but ticks to come, from 60 ticks on no segment is open and nothing is waiting |
| MixerBlocks.TickEnds | server/src/room_hub.rs:531-603 | in every well-timed run a tick opens a block, with the configuration last set, exactly if none is open and a frame waits; it ends the open block with max_duration exactly if its longest duration in seconds has passed since its start, with silence exactly if not and each of the last 12 ticks had nothing to mix and nobody speaking, and otherwise leaves it open |
| MixerBlocks.CommandEnds | server/src/room_hub.rs:482-523 | a shutdown ends the open block as manual, no other command ends or opens one, and afterwards nothing is sent |
| MixerNames.NamesAnnounced | server/src/room_hub.rs:556-570 | every announcement is of everyone mixed into the block by then, each under the name they had when last mixed |
| PipelineSession.RoomSession.OnStart | server/src/pipeline/session.rs:131-197 | a start is refused for a bad detector, configuration or repeated id, and otherwise discards the active segment and opens one |
| PipelineSession.RoomSession.OnEnd | server/src/pipeline/session.rs:198-270 | an end finishes the active segment if the ids agree and otherwise leaves it, with the warnings due |
| PipelineSession.RoomSession.OnFrame | server/src/pipeline/session.rs:290-374 | a frame is ignored, warned about, dropped as too fast, or cleaned, appended and passed to the live transcription, and may reach the hard limit |
| PipelineSession.RoomSession.Run | server/src/pipeline/session.rs:105-396 | the loop over all messages leaves the specified session |
| PipelineSession.OneOutcomeEach | server/src/pipeline/session.rs:131-289 | over any messages at any times accepted starts are the segments with an outcome, in order, then the active one, and none has two |
| PipelineSession.LiveIffAccepted | server/src/pipeline/session.rs:325-341 | a live transcription exists exactly if the whole audio passes the gate, was given exactly that audio, and the audio is what was received, cleaned, below the hard limit |
| PipelineSession.QueuedPassesGate | server/src/pipeline/session.rs:422-454 | everything handed on passes the recogniser's own gate, its live transcription had all of it, and none is begun late |
| SessionLimits.FrameDroppedIff | server/src/pipeline/session.rs:290-374 | over any messages at any times a well-formed frame is dropped as too fast exactly if the audio would exceed 16,384 + 512 samples and 24 for every millisecond since the start; otherwise it is taken in whole, unless it reaches the hard limit of 16,000 a second and 16,384 + 512, which cuts it and ends the segment as not silent |
| SessionLimits.AudioWithinPace | server/src/pipeline/session.rs:305-318 | the active segment dates from an accepted start, and its audio is within that bound at the time of its latest frame |
| SessionLimits.StartAcceptedIff | server/src/pipeline/session.rs:131-197 | a start is accepted exactly if detector and configuration are within their limits and its id is new, and otherwise only warned about |
| SessionLimits.EndsAs | server/src/pipeline/session.rs:422-454 | an end discards as silent exactly if it says so or reports fewer than 3 frames of speech, as too short below 1,536 samples, as too quiet with fewer than 3 audible frames, and else hands on; a flush ends in the same way as not silent |
| SessionLimits.OthersTaken | server/src/pipeline/session.rs:108-130 | a configuration is taken over exactly if it is within its limits, and an announcement noted exactly if it is of the active segment |
| RoomPipeline.SegmentBelowHardLimit | server/src/pipeline/session.rs:320-343 | in every mixer run the open segment stays within its number of frames and below the session's hard limit |
| RoomPipeline.EverySegmentOneOutcome | server/src/room_hub.rs:524-632 | whatever the delays, every segment opened with a supported configuration and closed gets exactly one outcome, in order, at most one is without, and none is cut off |
| RoomPipeline.PromptBlocksHandedOn | server/src/pipeline/session.rs:305-318 | with starts received within a second nothing is dropped and a block is handed on, with its cleaned audio and announced speakers, exactly if it has six frames and passes the gate |
| RoomPipeline.SpeakersHandedOn | server/src/pipeline/session.rs:375-394 | whatever the delays, each outcome is that of a block the mixer ended, and what is handed on has as its speakers exactly the users mixed into that block, even if audio of it was dropped |
| RoomPipeline.RefusedSegment | server/src/pipeline/session.rs:142-148 | a mixer run in a room with an unsupported configuration whose segment is opened, has a frame and is closed, and never gets an outcome whatever the delays |
| UtteranceStore.Database.CreateAttempt | server/src/storage/history.rs:360-420 | a row is inserted as recognizing unless the write is refused, and the result says whether the reply came |
| UtteranceStore.Database.SetStatus | server/src/storage/history.rs:422-489 | an update changes the row's status if it exists and the write is not refused |
| UtteranceStore.Database.Interrupt | server/src/storage/history.rs:267-358 | the three passes turn exactly the unfinished rows in scope into interrupted ones and count them |
| UtteranceStore.InterruptSettles | server/src/storage/history.rs:317-358 | afterwards nothing in scope is unfinished, a row changed exactly if it was, and a second pass changes nothing |
| StagePipeline.VerdictOfEngines | server/src/pipeline/transcription.rs:22-68 | if all writes succeed the engines alone decide between completed and the three failures |
| StagePipeline.VerdictUnfinishedIff | server/src/pipeline/synthesis.rs:22-43 | a job ends unfinished exactly if its first failing stage has a row, could not mark the failure, and was not the lost reply of the last write |
| StagePipeline.HandleJob | server/src/pipeline/translation.rs:21-136 | one job through one stage ends well exactly if engine and writes do, and leaves the next status or the failure's, touching no other row |
| StagePipeline.RunInTurn | server/src/pipeline/transcription.rs:22-68 | the reference the workers are compared with: jobs handled one after the other, each through all stages, leave each with its verdict and all other rows alone |
| StagePipeline.SettledAt | server/src/storage/history.rs:422-489 | row by row: a sent job's verdict, and every other row as it was |
| StageWorkers.SuccessorRuns | server/src/pipeline/transcription.rs:36-38 | a worker handing a job on never finds its successor gone |
| StageRuns.FirstInFirstOut | server/src/pipeline/jobs.rs:126-128 | in every reachable state jobs are past the last worker, held and queued in the order they were sent |
| StageRuns.QueuesBounded | server/src/pipeline/jobs.rs:126-128 | in every reachable state at most 64 jobs wait for a stage, and a worker with a job done is held up exactly while 64 wait for the next stage, whose worker then runs |
| StageRuns.DrainedRows | server/src/pipeline/jobs.rs:305-312 | whatever the interleaving, stopped workers leave the rows that handling the jobs one after the other leaves |
| StageRuns.EveryJobEnds | server/src/pipeline/synthesis.rs:22-43 | if every write succeeds, after the drain each job sent is completed or failed in recognition, translation or speech, as its engines decide |
| StageRuns.DrainLeavesNothing | server/src/pipeline/session.rs:398-408 | after the drain the session's interrupt pass changes nothing exactly if every job has a final verdict, and in particular if all writes succeeded |
| StageRuns.DrainedUnfinished | server/src/pipeline/transcription.rs:40-57 | a drained state with one row still recognizing, as its failure could not be written, which the pass then interrupts |
| StageRuns.CrashRecovers | server/src/storage/history.rs:267-315 | after a crash in any reachable state recovery leaves every row final, final rows as they were, and each waiting or worked-on job interrupted in its stage |
| StageRuns.NeverStuck | server/src/pipeline/jobs.rs:305-312 | once closed, some worker can move until all have stopped, full queues notwithstanding |
| StageRuns.DrainsWithin | server/src/pipeline/jobs.rs:305-312 | after the close the workers take a bounded number of steps in any order and then have stopped |
| Resampler.OutputCountIff | web-vad/src/lib.rs:232-237 | output k exists exactly if its position is before the last input |
| Resampler.OutputOnLine | web-vad/src/lib.rs:232-237 | an output lies on the straight line between the filtered samples on either side of its position, and is the filtered sample at a whole one |
| Resampler.ImpulseResponse | web-vad/src/lib.rs:188-202 | the filter answers an impulse with its coefficients |
| Resampler.FilterIsLinear | web-vad/src/lib.rs:188-202 | ... and is linear, so that decides it |
| Resampler.AntiAliasFilter.Process | web-vad/src/lib.rs:188-202 | the ring buffer's output is the convolution of the zero-padded stream at the new sample |
| Resampler.StreamingResampler.Process | web-vad/src/lib.rs:227-242 | a block's output is the part of the whole-stream output that the block adds, and only passed samples are dropped |
| Resampler.OutputStable | web-vad/src/lib.rs:227-242 | later input does not change what was output |
| Resampler.WholeOutputGrows | web-vad/src/lib.rs:227-242 | the output for longer input begins with the output for the shorter |
| Resampler.ResampleBlocks | web-vad/src/lib.rs:227-242 | however the input is cut into blocks, the output is the linear interpolation of the convolution at k times the rate over 16,000, and source, position, ring and cursor left at the end are a function of the whole input |
| Resampler.StreamingResampler.StateDetermined | web-vad/src/lib.rs:210-215 | at any time everything the resampler keeps is that function of the input so far |
| Resampler.AudioFrontEnd.ProcessInput | web-vad/src/lib.rs:331-353 | a block of acceptable size adds the frames completed by its resampled samples; others are refused |
| Resampler.FrameBlocks | web-vad/src/lib.rs:331-353 | however the microphone's samples are cut, the 512-sample frames are those of the whole resampled stream |
| BrowserVad.SpeechGate.Process | web-vad/src/lib.rs:84-121 | one decision moves the gate's counters and gives its flags as specified |
| BrowserVad.BrowserAudioVad.RouteFrame | web-vad/src/lib.rs:502-546 | a frame goes to the pre-roll or, with it at a start, to the ready queue with its flags |
| BrowserVad.BrowserAudioVad.NextFrame | web-vad/src/lib.rs:548-555 | the oldest ready frame is taken |
| VadRuns.EmitsTheSegments | web-vad/src/lib.rs:344-382 | in every run what is emitted is exactly the stream's segments as defined without the gate: pre-roll, start at the first voiced frame, end as soon as 88 silent frames or the longest duration allow; a segment is active exactly while the gate speaks |
| VadRuns.SegmentsUnique | web-vad/src/lib.rs:84-121 | there is only one way to cut a stream into such segments |
| VadRuns.WindowShape | web-vad/src/lib.rs:502-533 | a segment is consecutive frames after the one before, at most pre-roll plus longest duration, started on the first only and ended on the last only |
| VadWorker.VadWorkerTask.OnFrame | web/static/vad-worker.js:144-175 | one drained frame changes the worker and posts as specified |
| VadWorker.VadWorkerTask.OnFlush | web/static/vad-worker.js:234-246 | a flush ends an accepted open segment and resets worker and detector |
| VadWorker.VadWorkerTask.OnSuppress | web/static/vad-worker.js:247-260 | so does a suppression, which also sets whether samples are ignored |
| VadWorker.DrainPosts | web/static/vad-worker.js:138-177 | whatever the counter says, a frame posts what its segment's entry gains |
| VadWorker.AbandonPosts | web/static/vad-worker.js:235-244 | abandoning posts one end for an accepted open segment and nothing otherwise |
| VadSystem.PostsAreSegments | web/static/vad-worker.js:138-177 | over every run of frames, drains, flushes and suppressions what is posted is, segment by segment, nothing if it was not accepted and else the start, every frame in order and the end, which only the last may lack; once drained the segments are those of what was heard, each accepted always without the enhanced filter and else exactly if a count of 3 was seen at one of its frames, and ended exactly if it has ended, for max_duration exactly if forced |
| VadSystem.EarlierKept | web/static/vad-worker.js:234-260 | segments from before the last flush or suppression are not touched again |
| VadSystem.ResetCloses | web/static/vad-worker.js:234-260 | a flush or suppression after any run leaves nothing open and ends an accepted open segment exactly once |
| VadHistory.ListensUnlessSuppressed | web/static/vad-worker.js:178-186 | over every run samples are ignored exactly if the last suppression said so, and what was heard is what came in since the last flush or suppression, or nothing while suppressed |
| VadHistory.DrainedInOrder | web/static/vad-worker.js:138-177 | at any time what was drained and what is ready are together the segments of what was heard, each drained frame with the count given at its drain |
| VadHistory.ContinuesAfterCut | web-vad/src/lib.rs:84-134 | quieter speech is let through for 6 frames after a segment was cut at its longest in the middle of speech, until the next starts |
| VadHistory.SettingsInNumbers | web-vad/src/lib.rs:67-82 | the longest segment, the pre-roll and the closing silence in numbers |
| Utf8.WellFormedIff | server/src/backends/translator.rs:299-319 | a byte string passes the check exactly if it is the encoding of some scalar values |
| Utf8.TextRoundTrip | server/src/backends/translator.rs:299-319 | encoded text passes the check and is read back |
| Utf8.CheckAppend | server/src/backends/translator.rs:299-319 | after a well-formed prefix the rest is checked as on its own, and an invalid beginning stays invalid |
| Utf8.CheckSplits | server/src/backends/translator.rs:309-316 | the reported prefix is well formed and what follows is an incomplete character or begins with an invalid one |
| Utf8Stream.Utf8Reader.TakeValidUtf8 | server/src/backends/translator.rs:299-319 | the longest well-formed prefix is passed on and removed, or the bytes are refused as invalid |
| Utf8Stream.Utf8Reader.Feed | server/src/backends/asr.rs:297-304 | after each read the updates are all whole characters read so far, at most three bytes wait, and it fails exactly if what was read begins no text |
| Utf8Stream.ReadAll | server/src/backends/translator.rs:237-250 | for every cutting it succeeds exactly on well-formed output and the updates put together are that output; what was passed on before a failure is a well-formed prefix |
| ReplaceMatches.MatchAtBoundaries | server/src/language_policy.rs:159-164 | a well-formed needle found in well-formed text begins and ends between characters, so slicing there cannot fail |
| ReplaceMatches.LowerIsText | server/src/language_policy.rs:147-156 | ASCII lower-casing moves no character |
| ReplaceMatches.ReplaceAll | server/src/language_policy.rs:137-181 | the loop ends, returns the text with the chosen matches replaced and the rest as it was, and the result is well formed |
| ReplaceMatches.ChosenIsLeftmost | server/src/language_policy.rs:159-178 | chosen matches do not overlap, and every match that respects the boundaries is chosen or overlaps one to its left |
| ReplaceMatches.LeftmostIsChosen | server/src/language_policy.rs:159-178 | no other choice has that property |
| ReplaceText.EligibleIffEqual | server/src/language_policy.rs:147-188 | a place is a match exactly if its characters are the needle's, up to the case of ASCII letters if case does not matter, and for whole words no letter, digit or underscore comes before or after |
| GrpcFrames.ReadCompleteFrames | web/src/realtime-transport.ts:185-196 | the loop gives the frames and the rest of parsing the whole input |
| GrpcFrames.ParseMore | web/src/realtime-transport.ts:146-148 | parsing the rest together with more input goes on where parsing stopped |
| GrpcFrames.ServerStream | web/src/realtime-transport.ts:142-154 | for every cutting the messages are those of the whole stream up to a failing trailer, and it succeeds exactly if no trailer fails and nothing is left |
| GrpcFrames.FramesRoundTrip | web/src/realtime-transport.ts:185-196 | any frames sent one after the other are received with nothing left |
| GrpcFrames.FrameIs | web/src/realtime-transport.ts:185-196 | a frame is a flag, whose top bit marks a trailer, four bytes of length with the most significant first, and the payload, read exactly if all is there |
| GrpcFrames.HandedIs | web/src/realtime-transport.ts:146-151 | the messages are the payloads of the data frames before the first failing trailer |
| GrpcFrames.GrpcRequest | web/src/realtime-transport.ts:157-172 | a request's body parses back to exactly one data frame if and only if the message is shorter than 2^32 bytes |
| Protobuf.VarintRoundTrip | web/src/grpc-web.ts:171-181 | a 32-bit value is written in at most five bytes and read back, whatever follows |
| Protobuf.ReadVarintIs | web/src/grpc-web.ts:171-181 | of any bytes, the number is the low 32 bits of the groups of seven up to the first byte with a clear top bit, if that is among the first five |
| Protobuf.EncodeVarint | web/src/grpc-web.ts:74-84 | the loop writes the low 32 bits, so the value is read back exactly if it has no more |
| Protobuf.ConcatBytes | web/src/grpc-web.ts:86-94 | the array filled chunk by chunk is the chunks put together |
| Protobuf.EncodeBytesField | web/src/grpc-web.ts:70-72 | tag, length and value in that order |
| Protobuf.FieldRoundTrip | web/src/grpc-web.ts:183-190 | a field's value is read exactly and the reader stands behind it |
| Protobuf.ProtoReader.TakeVarint | web/src/grpc-web.ts:171-181 | the shifting loop reads the number at the front, modulo 2^32, or fails beyond five bytes or the input |
| Protobuf.ProtoReader.TakeBytes | web/src/grpc-web.ts:183-190 | a length and that many bytes, or a failure if they are not there |
| Protobuf.ProtoReader.Skip | web/src/grpc-web.ts:192-199 | the position moves as the source moves it for each wire type, or it fails |
| Protobuf.SkipsShort | web/src/grpc-web.ts:192-199 | skipping a length-delimited field always ends short of its end, by the bytes of its length |
| Protobuf.SkipsOthers | web/src/grpc-web.ts:192-199 | unknown fields of the other types are skipped exactly if they are there, and no other type is known |
| Protobuf.RealtimeBytesIff | web/src/realtime-transport.ts:264-279 | the realtime reader loses a field's last bytes, as many as its length took, and is right exactly about the empty one |
| Protobuf.RealtimeBytesOf | web/src/realtime-transport.ts:264-279 | it fails exactly if the length is more than everything there is, its own bytes included |
| ApiMessages.EncodeHeader | web/src/grpc-web.ts:59-62 | a header is its name field followed by its value field |
| ApiMessages.DecodeHeader | web/src/grpc-web.ts:147-160 | the loop over fields gives the header that reading the fields one by one gives |
| ApiMessages.DecodesText | web/src/grpc-web.ts:155 | encoded text is decoded to itself but for a leading byte order mark |
| ApiMessages.HeaderRoundTripIff | web/src/grpc-web.ts:59-62 | a header is recovered from its encoding, every byte consumed, exactly if its name is not empty and does not begin with that mark |
| ApiMessages.HeaderUnknownField | web/src/grpc-web.ts:147-160 | a header's unknown field of another type than a length-delimited one does not matter, and one of an unknown type is a failure |
| ApiMessages.ResponseUnknownField | web/src/grpc-web.ts:127-145 | the same in a response |
| ApiMessages.DecodeApiResponse | web/src/grpc-web.ts:127-145 | the loop gives status, headers and body as reading the fields one by one does, and fails without a status |
| ApiMessages.ResponseRoundTrip | web/src/grpc-web.ts:127-145 | a server's response is decoded to its status, its named headers in order and its body, and is an error exactly if the status is zero |
| ExternalAudio.TrimmedDropsOldest | web/static/audio-processor.js:39-44 | dropping takes from the front only, only while there is too much, and keeps the newest chunk |
| ExternalAudio.TrimmedKeepsNewest | web/static/audio-processor.js:39-44 | ... in full, unless it was the only one |
| ExternalAudio.TrimmedNoMore | web/static/audio-processor.js:39-44 | ... and no chunk is dropped without need |
| ExternalAudio.SameRateScales | web/static/audio-processor.js:25-38 | at the same rate output i is input i over 32,768 |
| ExternalAudio.OnTheLine | web/static/audio-processor.js:25-38 | otherwise there is one output for each whole step of the ratio, at least one, each on the straight line between its two neighbours |
| ExternalAudio.MicrophoneTap.EnqueueExternal | web/static/audio-processor.js:25-45 | new samples go behind those waiting, the oldest are dropped, at most two seconds or one chunk remain, and the count is the number waiting |
| ExternalAudio.MicrophoneTap.ReadExternal | web/static/audio-processor.js:47-58 | the next waiting sample is taken, or silence |
| Lease.StatusOnlyWorsens | server/src/api/authority.rs:501-515 | what the bus evaluates for a fixed tenant and instance only moves authorized, warning, grace, blocked as time passes |
| Lease.StatusWhen | server/src/api/authority.rs:472-523 | blocked, grace, warning and authorized each exactly when: a warning exactly if the license expires within the warning days |
| Lease.StatusImprovesIff | server/src/authority.rs:223-284 | over every run for one tenant and instance, the instance's own status improves on a check exactly if it fails in the grace period with the lease ahead, or is answered with a better status than the one a failed check or rejection left |
| Lease.GraceBecomesWarning | server/src/authority.rs:259 | a run in which a failed check turns grace into a warning |
| Lease.LeaseBounds | server/src/api/authority.rs:472-523 | with valid settings a grant allows exactly an active tenant's active instance until the grace period ends, with a lease between now and that end, at most a week |
| Lease.AuthorityService.ApplyGrant | server/src/authority.rs:223-249 | a grant replaces the snapshot |
| Lease.AuthorityService.ApplyFailure | server/src/authority.rs:251-270 | a failure keeps the instance allowed exactly if it was and its lease lies ahead |
| Lease.AuthorityService.ApplyRejection | server/src/authority.rs:272-284 | a rejection blocks it and ends the lease |
| Lease.AllowedIff | server/src/authority.rs:223-284 | over every timed run an instance is allowed exactly if the last answer was an allowing grant and every failed check since came before its lease ran out |
| Lease.OfflineBounded | server/src/authority.rs:251-258 | an instance allowed after a failed check has only failures since one allowing grant, less than its lease ago and before the grace period ends |
| Lease.OfflineAllowedIff | server/src/authority.rs:251-258 | after an allowing grant and only failures since, the instance is allowed exactly if the latest failure came within 60 seconds for each minute of the lease, counted from the evaluation, and before the grace period ends |
| Lease.ChecksRecorded | server/src/authority.rs:223-284 | every check is recorded with its time and the next one's; a grant brings its dates, a rejection ends the lease there and then |
| Lease.OnlyGrantsReallow | server/src/authority.rs:272-284 | once not allowed, only a grant allows it again |

## Left out

- Command bus: the number is taken before the lock, so two publishers may store commands out of order; publishers are taken to be serialised. Parsing of commands is the flag that says whether one is valid.
- Room hub before the mixer's queue: permission checks, muting, `set_speaking` and the membership events; a closed channel, on which the mixer stops.
- The order of names in the Speakers message and the sort by name: the speakers are a set. A renamed speaker is announced only with the next new one, as in the source.
- Mixer: the interval between a tick and the clock reading for a new segment is zero.
- Session: database writes and events other than warnings; an error from them, which ends the session.
- Language, voice and the other parts of a configuration: only whether it is supported, and its longest duration.
- Audio: rounding of `f32` and `f64`, the square root in the frame level (its square is compared), the filter's design, peak level.
- Live transcription: what becomes of the audio pushed to it; a failure to push.
- Stage workers: refinement, media files, latency figures and the events sent; a worker that panics. A row has a status and no other columns.
- Detector: the Silero model, levels, noise floor and hum lock, which decide what is voiced; the counter of confirmed frames, which may return anything.
- Worker: loading of the module, level messages and the acknowledgement of a flush.
- UTF-8 readers: errors of the pipe, the process's exit status, and the filtering of the translator's `<think>` text, which does depend on how its output is cut.
- Word replacement: what is alphanumeric is a parameter; loading and ordering of terms, and the folds that replace one after the other.
- gRPC-Web: HTTP errors and the text of a trailer, of which only acceptance matters; `decodeGrpcResponse`, another loop over the same frames.
- Realtime messages as a whole: their reader loses bytes as `Protobuf.RealtimeBytesIff` says, so no round trip holds.
- Headers: the browser's own checks and lower-casing in `Headers.append`.
- Worklet: mixing with the microphone.
- Authority: the standalone and bus modes, which are always allowed; tokens, messages and names in a grant, backends; overflow of dates.
- HTTP handlers, mail, import and export, the desktop shell and the user interface.
