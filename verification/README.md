# Verification of the call pipeline's stateful core

This project models four stateful parts of the SIP outbound service and its load balancer, and
proves properties of every run of them.

- **Recorder** (`RecorderState`, `RecorderHistory`, `RecorderTheorems`, `RecorderCalls`,
  `RecorderEffects`, `Recorder`). Two timestamped frame streams go into bounded buffers and are merged by time into a mixed track, with a second track
  for the user alone. Times are nanosecond ticks of one steady clock; each `addFrame` takes three
  readings, and millisecond differences truncate toward zero as `duration_cast` does.
- **Playback** (`PlaybackState`, `PlaybackTheorems`, `PlaybackEffects`, `Playback`, `AgentUri`). WebSocket
  chunks are re-cut into 20 ms frames with a carry-over, two overflow policies, a clear, a pop and checkpoint
  acknowledgements. The agent field of the WebSocket URI is rewritten on a transfer.
- **Load balancer** (`RegistryState`, `RegistryTheorems`, `RegistryEffects`, `Routing`, `Restart`, `Service`,
  `Registry`). Server metadata, call counts and two server arrays under register, unregister, toggle, route and a health
  check whose probes run outside the lock; Redis is a map. `Restart` runs the handlers one at a time;
  `Service` interleaves any number of them, their Redis calls and in-memory parts being separate steps,
  with routes, health checks and restarts.
- **Workers** (`Webhooks`, `WebhookManager`, `Uploads`, `UploadManager`, `SimulatedCall`). Sharded webhook
  queues, a pool of upload workers, and a simulated call finalised by one of two racing threads.
- **Files** (`Wav`, `Ringing`). The WAV bytes of a recording and the ringing tone cut from such a file.

Each part has functions on values that say what one operation does, theorems about runs of those
functions, and classes whose methods and loops are proved to compute them. The `Effects` modules say what
one call leaves, field by field, without those functions. Fields called history (logs,
block numbers, ledgers, traces) exist only to state what happened. The interleaved protocols are state
machines: one step is one section under a mutex or one access to an atomic; an action that is not
enabled changes nothing, so a sequence of actions is any interleaving. Outcomes of HTTP calls, probes,
Redis calls, connects and timeouts are parameters.

## Where the code does not do what it says

- The user-only track is meant to get each frame once (`sip_outbound/src/audio_recorder.cpp:146-147`).
  It does exactly when no user frame comes, with the agent active, while an agent frame more than 40 ms
  older is waiting (`RecorderCalls.OnceIffNoneSkips`; `RecorderTheorems.WrittenTwice` is a run of four
  frames where it does not).
- The mixed track is not always in the order of the clock: agent frames left waiting when the agent goes
  inactive are written after later user frames (`RecorderCalls.OrderedIffNoneLate` says exactly when,
  `RecorderCalls.WrittenLate` is a run of five frames).
- In default mode, how a stream is cut into chunks can change what is kept: exactly when the first chunk
  overflows the queue and a further whole frame follows (`PlaybackTheorems.ChunkingDefault`).
- An agent transfer looks for the agent id from the start of the URI, so it goes wrong exactly when the id
  also occurs earlier, as an empty id always does (`AgentUri.TransferExact`, `AgentUri.TransferCutsTooEarly`).
- A scan that returns a flagged server twice breaks the agreement of the arrays
  (`RegistryTheorems.InitExact`).
- A toggle ignores a failed Redis write; for handlers that run one at a time this is the one way Redis and
  memory part (`Restart.HandleKeepsSync`). Nothing keeps handlers apart, though: one may overtake another
  between its Redis and its in-memory part (`Service.RegistrationLost`), and a toggle may store a value it
  read before another toggle wrote (`Service.ToggleLost`), every Redis call succeeding.
  `Service.StepExact` and `Service.OvertakenExact` say exactly when a step or an overtaking does harm.
- A simulated call whose start fails is reported "fail" and "completed" and counted down without having
  been counted up (`SimulatedCall.FailedStartCountsDown`). A call that ends at once can be reported
  "completed" before "ringing" (`SimulatedCall.RingingFirstIff`). When the pump thread finalises a call it is
  never joined, so destroying the object ends the process (`SimulatedCall.AbortsIffPumpFinalised`;
  `SimulatedCall.EndedCallAborts` is a run that does both).
- The WAV header's sizes are right below 2^31 - 18 samples and the data below 2^31, and not beyond
  (`Wav.SizesExact`, `Wav.RoundTripExact`).

## Model

| member | source | states |
|---|---|---|
| RecorderTheorems.Conservation | sip_outbound/src/audio_recorder.cpp:133-205 | after any run, the frames of each stream handed in since the last discard are, in order, those that left a buffer followed by those still in it; the mixed track is the sound of those departures and nothing else; both buffers are within 50 frames |
| RecorderTheorems.PairingIsSafe | sip_outbound/src/audio_recorder.cpp:168-196 | frames are mixed only within 40 whole milliseconds; a frame the merge loop writes alone is far before every frame of the other stream then buffered or arriving later in the run; one buffer is always empty |
| RecorderTheorems.UserTrack | sip_outbound/src/audio_recorder.cpp:145-197 | the user track is the user frames in arrival order, each repeated in a row once for being consumed and once for each agent frame skipped while it was in front |
| RecorderTheorems.MultiplicityLaw | sip_outbound/src/audio_recorder.cpp:173-190 | the number of copies of a user frame is its skips plus one if it was consumed |
| RecorderCalls.AddFrameSkips | sip_outbound/src/audio_recorder.cpp:104-197 | a call writes agent frames alone while a user frame waits exactly when it brings a user frame and the agent stays active, and then those at the front of the agent buffer that are more than 40 whole milliseconds older |
| RecorderCalls.OnceIffNoneSkips | sip_outbound/src/audio_recorder.cpp:145-190 | each consumed user frame is in the user track exactly once if and only if no call since the last discard brought a user frame while the agent stayed active and an agent frame more than 40 whole milliseconds older was waiting, a condition on the state and input before each call |
| RecorderCalls.EvictsIffFull | sip_outbound/src/audio_recorder.cpp:133-140 | a call loses a frame if and only if 50 frames of its stream are waiting, and then the oldest of them |
| RecorderCalls.AddFrameOrder | sip_outbound/src/audio_recorder.cpp:88-197 | a call puts the mixed track out of the order of the clock if and only if it brings a user frame while the agent stays active and a waiting agent frame is older than something already written |
| RecorderCalls.OrderedIffNoneLate | sip_outbound/src/audio_recorder.cpp:88-197 | the mixed track is in the order of the clock if and only if no call since the last discard did |
| RecorderCalls.WrittenLate | sip_outbound/src/audio_recorder.cpp:88-197 | a run of five frames on which an agent frame is written after a user frame two seconds younger |
| RecorderEffects.MixIs | sip_outbound/src/audio_recorder.cpp:219-238 | two sounds mixed are the sample-wise sum held within 16 bits, as long as the shorter |
| RecorderEffects.ActivityLaw | sip_outbound/src/audio_recorder.cpp:88-143 | a frame makes its stream active; only the agent stream becomes inactive, after more than 250 silent frames in a row (no sample beyond 50) or 1001 ms after its last frame |
| RecorderEffects.UserCallWrites | sip_outbound/src/audio_recorder.cpp:104-197 | what a user frame adds to both tracks and leaves waiting: with the agent inactive it goes out with the user frames waiting; with the agent active the waiting agent frames at least 41 ms older go out alone and the next one is mixed with it, or it waits |
| RecorderEffects.AgentCallWrites | sip_outbound/src/audio_recorder.cpp:104-197 | the same for an agent frame, in each of the four activity modes |
| RecorderEffects.AloneIsWritten | sip_outbound/src/audio_recorder.cpp:149-166 | after any call a stream that is active alone has nothing waiting |
| RecorderEffects.AgentAlone | sip_outbound/src/audio_recorder.cpp:150-156 | while no user frame has come and the agent is never silent too long, a run of agent frames appends exactly their samples to the mixed track |
| RecorderEffects.UserAlone | sip_outbound/src/audio_recorder.cpp:158-166 | while the agent is inactive, a run of user frames appends exactly their samples to both tracks |
| RecorderTheorems.WrittenTwice | sip_outbound/src/audio_recorder.cpp:173-190 | a run of four frames on which a user frame is written twice |
| RecorderTheorems.DiscardIsFreshStart | sip_outbound/src/audio_recorder.cpp:207-217 | from any state, a discard followed by any run gives the tracks, buffers and departures of a new recorder fed that run, although clock readings survive |
| RecorderHistory.RunKeeps | sip_outbound/src/audio_recorder.cpp:104-217 | the accounting of frames and tracks is kept by every run of frames and discards |
| RecorderHistory.AddFrameKeeps | sip_outbound/src/audio_recorder.cpp:104-143 | one timestamped frame keeps the accounting, the caps and the empty buffer |
| Recorder.AudioMixer.constructor | sip_outbound/src/audio_recorder.cpp:60-65 | a new mixer is inactive and empty, with a scratch buffer of one 20 ms frame |
| Recorder.AudioMixer.IsFrameSilent | sip_outbound/src/audio_recorder.cpp:72-86 | a frame is silent if and only if all its samples are within 50 of zero |
| Recorder.AudioMixer.CheckStreamActivity | sip_outbound/src/audio_recorder.cpp:88-102 | the agent stream stays active exactly up to 250 silent frames and for less than 1001 ms; the user stream never becomes inactive |
| Recorder.AudioMixer.MixFrames | sip_outbound/src/audio_recorder.cpp:219-238 | whatever the scratch buffer held, what is appended is as long as the shorter frame, each sample the sum of the two, 0x7FFF above the 16-bit range and -0x8000 below it |
| Recorder.AudioMixer.ProcessBuffers | sip_outbound/src/audio_recorder.cpp:145-197 | a stream active alone is written out, all its waiting frames in order, the user's to both tracks; otherwise one buffer ends empty and the loop is the merge the theorems are about |
| Recorder.AudioMixer.AddFrame | sip_outbound/src/audio_recorder.cpp:104-143 | one call is one step of the recorder the theorems are about; the activity flags, silence counter and clock readings it leaves; a stream active alone has nothing waiting |
| Recorder.AudioMixer.ClearBuffers | sip_outbound/src/audio_recorder.cpp:207-217 | a clear empties buffers and tracks and resets counters and flags; only the clock readings stay |
| PlaybackTheorems.FrameAlignment | sip_outbound/src/websocket_handler.cpp:273-311 | in any run and both modes, delivered frames are aligned blocks of the stream received since the last clear with strictly growing block numbers; every block cut off is delivered, queued, evicted or refused, exactly one of these; the carry-over is the rest of the stream |
| PlaybackTheorems.LossesPerCall | sip_outbound/src/websocket_handler.cpp:292-307 | one call refuses at most one block, none in real-time mode, which gives up only blocks older than all queued ones; default mode evicts none |
| PlaybackTheorems.ChunkingRealTime | sip_outbound/src/websocket_handler.cpp:273-311 | in real-time mode two chunks leave the same queue and carry-over as their concatenation |
| PlaybackTheorems.FramedAtOnce | sip_outbound/src/websocket_handler.cpp:287-310 | in real-time mode any chunks leave the queue and carry-over of the whole stream framed at once |
| PlaybackTheorems.ChunkingDefault | sip_outbound/src/websocket_handler.cpp:287-310 | in default mode the same holds if and only if the first chunk fits the free places or the bytes of both do not complete two frames beyond them |
| PlaybackEffects.EnqueueRealTime | sip_outbound/src/websocket_handler.cpp:273-311 | in real-time mode the queue after a chunk is the newest 15 frames, or as many as it held, of what it held followed by the whole frames of carry-over and chunk; the carry-over is the rest |
| PlaybackEffects.EnqueueDefault | sip_outbound/src/websocket_handler.cpp:273-311 | in default mode the whole frames fill the queue up to 3000 in order; if they do not fit, the next one is lost and the others stay in the carry-over |
| PlaybackTheorems.AckIsTruthful | sip_outbound/src/websocket_handler.cpp:320-342 | an acknowledgement is sent if and only if a pop takes the only queued frame while a checkpoint with an id is pending and the peer is connected; that checkpoint is the latest, neither cancelled by a clear nor acknowledged before; every block cut off has left and only the carry-over is undelivered, less than a frame unless a block was refused |
| PlaybackTheorems.AckOnce | sip_outbound/src/websocket_handler.cpp:125-133 | over a run no checkpoint is acknowledged twice, nor one that a clear had cancelled |
| PlaybackEffects.PopExact | sip_outbound/src/websocket_handler.cpp:648-659 | a pop acknowledges if and only if it takes the last frame with a checkpoint with an id pending, no clear pending and the peer connected; the acknowledgement has that id and name, and then no checkpoint is pending |
| PlaybackEffects.CheckpointIsAcknowledged | sip_outbound/src/websocket_handler.cpp:125-133 | in every run a checkpoint with an id that arrives while frames are queued and the peer is connected is acknowledged by the pop that takes the last of them, and by none before, if only pops follow |
| PlaybackTheorems.RunKeeps | sip_outbound/src/websocket_handler.cpp:263-342 | alignment, fates, refusals and checkpoint bookkeeping are kept by every run |
| Playback.AudioQueue.constructor | sip_outbound/src/websocket_handler.cpp:11-47 | a new handler has an empty queue and a frame of 20 ms of 16-bit samples |
| Playback.AudioQueue.CutFrames | sip_outbound/src/websocket_handler.cpp:291-310 | the offset loop and the final erase cut the carry-over as the recursive definition does |
| Playback.AudioQueue.EnqueueAudio | sip_outbound/src/websocket_handler.cpp:273-311 | one chunk, trimmed to even length, takes the queue one step |
| Playback.AudioQueue.GetAudioFrame | sip_outbound/src/websocket_handler.cpp:648-659 | a pop returns the oldest frame; an event goes out if and only if it was the only one, a checkpoint with an id is pending, no clear is, and the peer is connected; it carries the pending id and name, which are then reset |
| Playback.AudioQueue.ClearAudioQueue | sip_outbound/src/websocket_handler.cpp:263-271 | a clear empties queue and carry-over and cancels the pending checkpoint, its own flag included |
| Playback.AudioQueue.SendPlayedStreamEvent | sip_outbound/src/websocket_handler.cpp:320-342 | nothing is sent or reset when disconnected or without a stream id |
| Playback.AudioQueue.OnCheckpoint | sip_outbound/src/websocket_handler.cpp:125-133 | a checkpoint overwrites the pending one and keeps the fields it lacks |
| AgentUri.TransferExact | sip_outbound/src/websocket_handler.cpp:737-742 | a transfer replaces the agent field and nothing else if and only if the current id first occurs in its own field |
| AgentUri.TransferKeepsForm | sip_outbound/src/websocket_handler.cpp:697-761 | then the new agent id is read back and the call id of a human transfer is unchanged |
| AgentUri.TransferBack | sip_outbound/src/websocket_handler.cpp:737-742 | transferring back restores the URI if and only if the new id first occurs in its own field |
| AgentUri.TransferCutsTooEarly | sip_outbound/src/websocket_handler.cpp:738-742 | a URI whose scheme is the agent id is rewritten wrongly |
| AgentUri.ReadsAgent | sip_outbound/src/websocket_handler.cpp:697-724 | the agent id is what stands between the first key and the underscore |
| AgentUri.ReadsNoAgent | sip_outbound/src/websocket_handler.cpp:697-724 | without a URI or key there is no agent; without a delimiter behind the first key the stored id stays |
| AgentUri.ReadsCallId | sip_outbound/src/websocket_handler.cpp:814-823 | the call id is the part up to the next underscore, or all of the rest |
| AgentUri.Session.SetAgentId | sip_outbound/src/websocket_handler.cpp:697-724 | the stored id is emptied without a URI or key and kept without a delimiter |
| AgentUri.Session.PerformAgentTransfer | sip_outbound/src/websocket_handler.cpp:737-761 | the URI, agent id and real-time flag after a transfer; nothing changes when a position is out of range |
| RegistryTheorems.LedgerLaw | load_balancer/services/helpers.go:97-160 | from a clean load, after any interleaving with a health check in flight, both maps and both arrays agree, and each call count is the last one set plus the routes since, none of them while it is MaxInt |
| RegistryTheorems.NeverRoutesUnhealthy | load_balancer/services/helpers.go:229-276 | at any point of any run a route goes to an enabled server with a real count and adds one to it, or changes nothing |
| Service.EmptyNameNeverServes | load_balancer/services/handlers.go:40-165 | under every interleaving of handlers, routes, health checks and restarts, whichever Redis calls fail, no array ever holds the empty name, which routing uses for "nothing found" |
| Service.RouteFailsIff | load_balancer/services/helpers.go:229-276 | at any moment of such a run the missing-metadata branch is unreachable, and a route fails if and only if no registered server enabled for the direction has a count below MaxInt |
| RegistryTheorems.RoutePicks | load_balancer/services/helpers.go:247-264 | a successful route bumps a least loaded healthy server of the array |
| RegistryEffects.RouteEffect | load_balancer/services/helpers.go:229-276 | a route adds one to the count of the first of the least loaded servers enabled for the direction and shows its metadata with the new count, or changes nothing |
| RegistryTheorems.InitExact | load_balancer/services/helpers.go:42-93 | a load makes the structures agree if and only if no flagged entry shares its name with a later one |
| RegistryTheorems.RegisterAgrees | load_balancer/services/helpers.go:97-129 | registering keeps the agreement |
| RegistryTheorems.UnregisterAgrees | load_balancer/services/helpers.go:132-139 | unregistering keeps the agreement |
| RegistryTheorems.ToggleAgrees | load_balancer/services/helpers.go:142-160 | toggling keeps the agreement |
| RegistryTheorems.ProbesBalance | load_balancer/services/worker.go:108-133 | applying probe results, stale or not, sets the counts the ledger says and adds no server |
| RegistryEffects.RegisterEffect | load_balancer/services/helpers.go:97-129 | a known server keeps its health and count, a new one is unknown at MaxInt; its array places follow the flags; no other server changes |
| RegistryEffects.UnregisterEffect | load_balancer/services/helpers.go:132-139 | the server is in neither map and neither array, no other server changes |
| RegistryEffects.ToggleEffect | load_balancer/services/helpers.go:142-160 | the flags given are set, the others and the health and count stay, the array places follow; an unknown server changes nothing |
| RegistryEffects.ProbesEffect | load_balancer/services/worker.go:107-133 | each probed server still known has its count and health from its probe, unhealthy at MaxInt after a failure; no other server changes |
| Routing.MinMaxOptimal | load_balancer/services/helpers.go:229-276 | after k successful routes, any other way of giving k calls to the servers enabled and healthy at the start has a maximum load at least as high |
| Routing.RoutedNearMinimum | load_balancer/services/helpers.go:247-264 | a server that received a call ends at most one above the least loaded one |
| Routing.RouteManyEven | load_balancer/services/helpers.go:229-276 | k successful routes add k calls in all, only to those servers, and evenly |
| Restart.HandleKeepsSync | load_balancer/services/handlers.go:40-174 | a handler that nobody interrupts keeps the Redis registrations equal to the in-memory ones if and only if it is not a toggle that changes a flag while the Redis write fails |
| Restart.RestartIsTransparent | load_balancer/services/handlers.go:53-165 | from any start on which Redis and memory agree, a loaded one included, after any handlers whose toggles were stored, loading from a scan of Redis gives the same registrations and enabled servers, default health and every count at MaxInt, and Redis and memory agree again |
| RegistryEffects.RegisterResult | load_balancer/services/handlers.go:40-95 | what a registration answers and stores: host, aor and contact as given, port 8086 exactly for hosts beginning 172., 10. or 192.168., the flags of the key it read or none |
| RegistryEffects.RegisterKeepsArrays | load_balancer/services/handlers.go:58-92 | with Redis and memory in sync, a server whose key is read stays exactly in the arrays it was in, a new one is in none, and no other server moves |
| RegistryEffects.UnregisterResult | load_balancer/services/handlers.go:98-121 | what a removal answers in each case, and that only 200 changes anything |
| RegistryEffects.ToggleResult | load_balancer/services/handlers.go:124-174 | what a toggle answers in each case; the flags given are stored if Redis takes them, and set in memory |
| Service.StepExact | load_balancer/services/handlers.go:58-158 | with handlers interleaved, a Redis call, route, health step or restart keeps Redis what memory will be once the handlers under way have finished, if and only if it is not a toggle storing a stale value, a toggle whose write fails although it changes a flag, or a restart that misses a key |
| Service.OrderlyInSync | load_balancer/services/handlers.go:40-174 | after any interleaving without such steps in which no handler overtakes one it clashes with, Redis and memory hold the same registrations whenever no in-memory part is due |
| Service.OvertakenExact | load_balancer/services/handlers.go:83-165 | two handlers caught between their Redis and in-memory parts, finishing in the opposite order, leave Redis and memory in sync if and only if their updates do not clash: different servers, or updates that can change places |
| Service.RegistrationLost | load_balancer/services/handlers.go:98-121 | a server registered again between the two parts of its removal ends in Redis and not in memory, though every Redis call succeeds |
| Service.ToggleLost | load_balancer/services/handlers.go:139-161 | two toggles that both read before either writes leave a flag on in memory and off in Redis |
| Service.HandlerAlone | load_balancer/services/handlers.go:40-174 | the steps of one handler in a row are what is said of it when run alone |
| Registry.Balancer.InitServerArrays | load_balancer/services/helpers.go:42-93 | the load loop, skipping unreadable keys |
| Registry.Balancer.UpdateIOSL | load_balancer/services/helpers.go:163-191 | the search and splice give the array with the name added when on and absent, removed when off |
| Registry.Balancer.RegisterServer | load_balancer/services/helpers.go:97-129 | a known server keeps its health and call count |
| Registry.Balancer.UnregisterServer | load_balancer/services/helpers.go:132-139 | the server leaves both maps and both arrays |
| Registry.Balancer.ToggleServer | load_balancer/services/helpers.go:142-160 | only the flags given change; an unknown server is an error and changes nothing |
| Registry.Balancer.FindLowestLoadContainer | load_balancer/services/helpers.go:229-276 | the search loop finds the first least loaded healthy server, with its count after the increment |
| Registry.Balancer.FindContainerByType | load_balancer/services/helpers.go:280-302 | in whatever order the servers are met, one whose name has the part and whose count is below MaxInt gets the call and is shown with its new count, if there is one |
| Registry.Balancer.SnapshotTargets | load_balancer/services/worker.go:37-47 | a snapshot lists every server once |
| Registry.Balancer.ApplyHealthResults | load_balancer/services/worker.go:107-133 | the apply loop skips servers unregistered meanwhile, sets MaxInt after a failure and the reported count after a success |
| Registry.Handlers.RegisterContainer | load_balancer/services/handlers.go:40-95 | 503 and nothing changed if the write fails; otherwise 200 and the key holds the request's fields, port 8086 for Docker-internal hosts, the flags it held before if it was read and none otherwise |
| Registry.Handlers.UnregisterContainer | load_balancer/services/handlers.go:98-121 | status and new state on each error path |
| Registry.Handlers.ToggleContainer | load_balancer/services/handlers.go:124-174 | status and new state, the write's failure ignored |
| Webhooks.OrderPerCall | sip_outbound/src/webhook_manager.cpp:42-121 | under every interleaving, POST attempts for a call follow the order of its events, at most three an event, and an attempt implies every earlier event of the call with a URL succeeded or used all three |
| Webhooks.StepKeeps | sip_outbound/src/webhook_manager.cpp:68-125 | every step keeps each shard first-in first-out with all but the last event taken settled |
| Webhooks.DeliveredIffAnswered | sip_outbound/src/webhook_manager.cpp:88-121 | an event counts as delivered if and only if one of its POSTs was answered with success |
| Webhooks.NoPostAfterSuccess | sip_outbound/src/webhook_manager.cpp:92-121 | a delivered event gets no further POST in any later run |
| Webhooks.NoEventGivenUp | sip_outbound/src/webhook_manager.cpp:68-121 | while the manager runs, every event a worker has taken and finished had no URL, was answered with success, or got three POSTs without a success |
| Webhooks.EventsStayHome | sip_outbound/src/webhook_manager.cpp:42-52 | what waits in or was taken from a shard is, in sending order, exactly the events whose call hashes to it |
| WebhookManager.Manager.ProcessRequests | sip_outbound/src/webhook_manager.cpp:68-125 | with senders and stop running before each of its steps, the worker takes exactly the steps of the state machine, one a turn until the turns run out or it leaves, and it leaves only when the manager has stopped |
| WebhookManager.Manager.Deliver | sip_outbound/src/webhook_manager.cpp:88-121 | so does the retry loop; it POSTs this event at most three times and nothing else, and ends with the event delivered, three POSTs made, or the manager stopped, unless the turns run out |
| WebhookManager.PlayedTurns | sip_outbound/src/webhook_manager.cpp:68-125 | those steps are, turn by turn, what the others did and one of this worker's own; the answer to a POST is the one its turn gives |
| WebhookManager.Manager.Attempt | sip_outbound/src/webhook_manager.cpp:88-121 | one POST of this event; success is the answer the turn gives, and only then is the event counted as delivered |
| WebhookManager.Manager.Send | sip_outbound/src/webhook_manager.cpp:42-52 | an event goes to the end of the queue its call hashes to |
| WebhookManager.Manager.Stop | sip_outbound/src/webhook_manager.cpp:54-66 | stopping is the one step that changes the running flag |
| WebhookManager.Manager.KeepsOrder | sip_outbound/src/webhook_manager.cpp:68-125 | the POSTs this code has made follow the order of each call's events, at most three an event, and a POST implies every earlier event of the call with a URL succeeded or used all three |
| Uploads.NothingLost | sip_outbound/src/upload_manager.cpp:31-94 | every submitted job is queued, with a worker or resolved, exactly once; jobs start in submission order |
| Uploads.DrainedOnStop | sip_outbound/src/upload_manager.cpp:44-94 | when all workers have exited each job submitted before the stop has exactly one result, and what is queued was submitted after it |
| Uploads.ResultIffEnded | sip_outbound/src/upload_manager.cpp:71-92 | a job has a result if and only if its upload ended that way |
| UploadManager.Manager.ProcessJobs | sip_outbound/src/upload_manager.cpp:53-94 | with submitters and stop running before each of its steps, the worker takes exactly the steps of the state machine, one a turn until the turns run out or it leaves, and it leaves only when stopped with an empty queue |
| UploadManager.PlayedTurns | sip_outbound/src/upload_manager.cpp:53-94 | those steps are, turn by turn, what the others did and one of this worker's own; an upload ends well if and only if its turn says it was uploaded, not if it failed or threw |
| UploadManager.Manager.Submit | sip_outbound/src/upload_manager.cpp:31-42 | a job is queued last and gets the next name |
| UploadManager.Manager.KeepsJobs | sip_outbound/src/upload_manager.cpp:31-94 | no job is lost or resolved twice by this code |
| SimulatedCall.SingleFinalisation | sip_outbound/src/simulated_call.cpp:96-117 | in every interleaving of terminating threads, pump, disconnects and timeout, at most one "completed", one count down and one deletion, and no use of the handler after it |
| SimulatedCall.FinalTally | sip_outbound/src/simulated_call.cpp:63-117 | when the object has been destroyed each of these happened once; when destroying it ends the process they did if and only if the pump thread had finished; a failed start was reported and never counted up, a started call was counted up once |
| SimulatedCall.FailedStartCountsDown | sip_outbound/src/simulated_call.cpp:70-77 | a run on which a failed start is reported "fail" and "completed" and counted down without having been counted up |
| SimulatedCall.AbortsIffPumpFinalised | sip_outbound/src/simulated_call.cpp:171-185 | destroying the object meets an unjoined thread if and only if the pump won the race to finalise |
| SimulatedCall.EndedCallAborts | sip_outbound/src/simulated_call.cpp:88-186 | a run on which the pump finalises a call before "ringing" is reported and destroying the object then ends the process |
| SimulatedCall.RingingFirstIff | sip_outbound/src/simulated_call.cpp:88-93 | "ringing" is reported before "completed" if and only if the pump has not reported the end when the starting thread gets to it |
| SimulatedCall.PumpEnds | sip_outbound/src/simulated_call.cpp:123-169 | once the running flag is false the pump thread ends within seven turns, so a join of it returns |
| SimulatedCall.RunningGoesOn | sip_outbound/src/simulated_call.cpp:123-186 | while the running flag is set the pump keeps turning, and no handler is deleted, no "completed" sent and nothing counted down |
| SimulatedCall.StoppedBy | sip_outbound/src/simulated_call.cpp:65-130 | the flag, once set, falls only through a disconnect, a pump turn that meets the timeout, or a terminate that came first |
| SimulatedCall.EachEndStops | sip_outbound/src/simulated_call.cpp:96-130 | the timeout, a disconnect and a terminate each clear the running flag |
| SimulatedCall.TimeoutFinalises | sip_outbound/src/simulated_call.cpp:123-186 | a call that reaches its timeout is finalised by the pump in six turns, or only ended if a terminate came first |
| SimulatedCall.TerminateFinalises | sip_outbound/src/simulated_call.cpp:96-117 | a terminate that came first joins the ended pump and does the whole clean-up once |
| SimulatedCall.RunKeeps | sip_outbound/src/simulated_call.cpp:59-186 | the progress of the one clean-up is kept by every interleaving |
| Wav.SizesExact | sip_outbound/src/audio_recorder.cpp:268-273 | both size fields describe the file if and only if it has fewer than 2^31 - 18 samples |
| Wav.HeaderDescribes | sip_outbound/src/audio_recorder.cpp:240-270 | a reader finds the tags, 16-bit mono PCM, the sample rate and derived fields that match |
| Wav.HeaderExample | sip_outbound/src/audio_recorder.cpp:240-270 | the header of three samples at 16 kHz, byte for byte |
| Wav.RoundTripExact | sip_outbound/src/audio_recorder.cpp:268-283 | skipping 44 bytes and reading samples gives the recording back if and only if it has fewer than 2^31 samples |
| Wav.ConvertToWav | sip_outbound/src/audio_recorder.cpp:240-284 | the buffer filled by the two copies is the file those properties are about |
| Common.TwosComplement | sip_outbound/src/audio_recorder.cpp:125-127 | a sample is two bytes of two's complement, the low one first |
| Ringing.FramesLoop | sip_outbound/src/human_ringing.cpp:56-84 | frames of any sizes are together the tone repeated: sample k since load or reset is sample k modulo its length |
| Ringing.RecordingRings | sip_outbound/src/human_ringing.cpp:32-84 | a recording written as a file and loaded as the tone plays back as itself, over and over |
| Ringing.RingingAudioProvider.LoadRingingFile | sip_outbound/src/human_ringing.cpp:10-54 | when it succeeds, the tone is the samples after the header; a file without samples empties the tone and changes nothing else |
| Ringing.RingingAudioProvider.GetRingingFrame | sip_outbound/src/human_ringing.cpp:56-85 | the loop's samples from the cursor on in little-endian bytes, or silence of the exact size |

## Left out

- PJSIP, Pistache, websocketpp, curl, MySQL, AMI and Redis clients: only their outcomes appear, as parameters.
- Sleeps, wake-ups and liveness: no claim that a waiting thread is ever notified.
- `SimulatedCall` as a class: both threads write every field, so it is a state machine on values; the frames its pump records and the JSON it sends are not part of it.
- Opening a simulated call's connection, with the clean-up and report when it fails, is one step; starting the ringing tone and the recorder is not part of it. Threads other than the starting one and the pump get the call only after it was counted (`sip_outbound/src/call_manager.cpp:403-407`).
- `WebhookManager` and `UploadManager` workers run against senders and `stop` only; all workers together are the state machines.
- The two reads of `running_` around the webhook worker's wait are one step, which is sound because the flag never goes back to true.
- Request bodies and stored registrations that fail to decode: the handlers start from a decoded request, and every value in Redis is a registration.
- The environment variables that set the number of webhook and upload workers, and their range: the theorems hold for any positive number.
- A restart's scan that returns a key twice is not a step of `Service`; what it does to the arrays is `RegistryTheorems.InitExact`. Handlers under way when the process restarts are gone.
- Service.OvertakenExact: exact for two handlers under way; for more, `Service.OrderlyInSync` says only that overtaking does no harm unless updates clash, because later handlers of the same server may undo the harm.
- Health data other than the call count, and the host and port a probe uses, play no part in the ledger.
- Copies of metadata handed to API callers are values; Go's sharing of array storage between slices is not modelled, all accesses being under the lock.
- Checkpoint, clear, enqueue and pop are atomic events, although the checkpoint handler does not take the queue's mutex.
- The rest of a transfer (closing, sleeping, connecting, ringing, callbacks) and URIs near 2^64 bytes.
- `AudioRecorder`'s recording flag, file names and uploads of finished tracks around the mixer.
- Deprecated human-number bridging, `handleReceivedMessage`, resampling and volume, billing text, S3 signing, base64 and mu-law: foreign computation, floating point or dead code.
