# Verified model of a media server's signaling, player and bench tools

A Dafny model of the stateful logic of a GB28181 media server: the signaling service written in Go, the player written
in C++ with Qt, and the protocol tools of its bench. It proves what this logic keeps over every run, every interleaving
and every input. `dafny verify dfyconfig.toml` checks the whole project.

Concurrent code under one mutex is a transition system. Every critical section, channel operation and remote reply is
one event. `Step` is total: an event that is not due, or that a handler refuses, changes nothing. A run is therefore any
sequence of events. Code that updates objects in place is a class whose methods are proved against the step or
specification function of the same module.

| module | models |
|---|---|
| `Broadcast`, `BroadcastRuns`, `BroadcastSteps`, `BroadcastHandlers` | the audio broadcast protocol: steps and invariant, whole runs, bounds on all of them, the handlers on the table |
| `Ptz` | ownership of a camera while it is moved |
| `Lifecycle`, `LifecycleRuns`, `LiveService` | stopping and deleting devices over broadcasts, PTZ owners, live sessions and queries; whole stops; the critical sections as methods |
| `SsrcAllocator` | the cyclic allocator |
| `AlarmLog`, `Decimal` | the evicting alarm log and its cursors |
| `ChannelRegistry`, `CatalogueOrder` | catalogue fragments: histories, and independence of arrival order |
| `DeviceQuery` | record queries answered from fragments |
| `FinitePlayback` | frames through the decoder's queue and the view's queue |
| `AudioClock` | the variable-rate audio clock |
| `DecodeQueue` | the decoder's PCM queue |
| `ReferenceMatch` | captured audio against a looped reference |
| `RtpPacket`, `H264Packets` | RTP packets, and H.264 access units in them |
| `PacketHealth` | timestamps and sequence numbers that wrap |
| `PsDemux` | the dump reader: records, packs, timestamps, ADTS frames |
| `CapacitySearch` | ascent and bisection over a load oracle |
| `Options`, `Bytes`, `Arithmetic` | shared types, byte helpers and integer facts |

Standards: section 5.1 of RFC 3550, section 4.2 of RFC 8285, sections 5.6 and 5.8 of RFC 6184, section 3.2 of RFC 1982,
section 2 of RFC 4571, section 2.4.3.7 of ISO/IEC 13818-1.

Properties that do not hold of the code:

- The SDP answer to an INVITE does not always name the bound RTP endpoint. The INVITE handler reads `session.local`
  without waiting for the audio/create reply. `BroadcastRuns.AnswerCarriesEndpointIff` and
  `BroadcastRuns.InviteIsSafeIff` give the exact conditions, for a run and for the device that sends the INVITE.
  `BroadcastRuns.EarlyInviteIsTicketed` is a run where a ticket is returned nevertheless.
- The audio clock can run backwards, but only in a flushed tail, after a block that steps back by less than the
  discontinuity limit. `AudioClock.ClockNeverRunsBackwards` excludes everything else, `AudioClock.FlushTurnsClockIff`
  gives the exact condition for a tail; `AudioClock.SteppingBackTurnsTheTail` and
  `AudioClock.HeldBackBlocksTurnTheTail` are inputs.
- A release by a holder that has released before, or by a caller that holds nothing, can free the slot of another
  holder. `SsrcAllocator.ReleaseKeepsSoundIff` and `SsrcAllocator.StrayKeepsSoundIff` give the exact conditions and
  `SsrcAllocator.SecondReleaseSharesValue` a run. `Lifecycle.RemoveKeepsSessions` shows that the live service meets them.
- Not every 33-bit DTS is recovered. `PsDemux.UnwrapStepIff` gives the exact condition for a step in either direction,
  `PsDemux.TimestampsAreRecoveredIff` for a whole track. `PsDemux.HalfPeriodStepIsLost` and
  `PsDemux.StepBackIsReadForward` are inputs.
- A successful deletion does not mean that no PTZ owner of the device is left: owners are cancelled, not waited for.
  `LifecycleRuns.DeletionLeavesOwnerIff` gives the exact condition when the deletion begins, and
  `LifecycleRuns.OwnerMayOutliveDeletion` a run. `Lifecycle.DeletedDeviceIsGone` says what is gone.
- Records of a query are not merged by identity as catalogue items are, so a retransmitted fragment can be listed twice.
  `DeviceQuery.RetransmissionIsListedTwiceIff` gives the exact condition.

## Model

| member | source | states |
|---|---|---|
| `Broadcast.SetupFails` | signaling/gb_broadcast.go:154-158 | failing at any point of the setup cancels the session first and keeps it sound |
| `Broadcast.OnCreate` | signaling/gb_broadcast.go:126-144 | the setup goes on exactly for a nonzero even port, which is then bound, and otherwise fails with the session cancelled; sound, and fewer steps are left |
| `Broadcast.OnNotify` | signaling/gb_broadcast.go:194-200 | a successful notification arms the business and INVITE channels, a failed one fails the setup; sound, and fewer steps are left |
| `Broadcast.BusinessAccepted` | signaling/gb_broadcast.go:204-208 | the result is consumed and the setup goes one step on; the loop's account of iterations stays four |
| `Broadcast.TakeBusiness` | signaling/gb_broadcast.go:204-208 | the result is consumed, and fails the setup exactly if it is a rejection; sound, and fewer steps are left |
| `Broadcast.BusinessRejected` | signaling/gb_broadcast.go:204-207 | a rejection is consumed and fails the setup with the session cancelled |
| `Broadcast.TakeInvited` | signaling/gb_broadcast.go:209-211 | the INVITE is consumed, and ACK and answer are waited for; sound, and fewer steps are left |
| `Broadcast.TakeAcked` | signaling/gb_broadcast.go:212-213 | an ACK that had been accepted is consumed; sound, and fewer steps are left |
| `Broadcast.TakeAnswered` | signaling/gb_broadcast.go:214-218 | the setup fails exactly if the answer did; sound, and fewer steps are left |
| `Broadcast.OnSetupExpired` | signaling/gb_broadcast.go:219-220 | timeout and cancellation end a waiting setup with the session cancelled; soundness kept |
| `Broadcast.OnConfigure` | signaling/gb_broadcast.go:145-153 | configuration is reached only by an established dialog; success alone leads to a nil result; sound, and fewer steps are left |
| `Broadcast.Publish` | signaling/gb_broadcast.go:158 | the send on `result` finds the slot empty, so it never blocks |
| `Broadcast.ObserveCancel` | signaling/gb_broadcast.go:159-161 | cleanup starts only after cancellation |
| `Broadcast.OnDelete` | signaling/gb_broadcast.go:160-167 | `cleanupErr` is written before `done`, never after |
| `Broadcast.ReadDialog` | signaling/gb_broadcast.go:168-171 | a session without a dialog goes straight to removal, one with a dialog has to see it closed |
| `Broadcast.ObserveAnswer` | signaling/gb_broadcast.go:171-175 | removal waits for the answering handler |
| `Broadcast.ObserveAckLoop` | signaling/gb_broadcast.go:176-185 | removal waits for the ACK goroutine |
| `Broadcast.CallerResult` | signaling/gb_broadcast.go:111-118 | a new ticket needs a nil error, a live caller and a live session; any other result leaves the session cancelled before the wait |
| `Broadcast.CallerLeaves` | signaling/gb_broadcast.go:119-122 | a caller whose context ends cancels the session before it waits |
| `Broadcast.CallerDone` | signaling/gb_broadcast.go:116-122 | an error is returned only after `done` |
| `Broadcast.BuildAnswer` | signaling/gb_broadcast.go:330 | the answer names the endpoint exactly if it is bound at that moment, and is composed from then on; soundness kept |
| `Broadcast.FinishAnswer` | signaling/gb_broadcast.go:329-330 | `answerDone` is closed exactly once |
| `Broadcast.AckLoopExits` | signaling/gb_broadcast.go:315-328 | `ackDone` is closed exactly once |
| `Broadcast.OnResponse` | signaling/gb_broadcast.go:253-263 | the result finds its one-slot channel or is dropped, and a rejection cancels with its own cause; nothing after cancellation; the goroutines have as many steps left as before |
| `Broadcast.OnInvite` | signaling/gb_broadcast.go:294-314 | the send on `invited` under the mutex finds the slot empty: at most one dialog per session |
| `Broadcast.OnAck` | signaling/gb_broadcast.go:341-357 | an accepted ACK fills its slot and is remembered, any other call changes nothing; soundness kept |
| `Broadcast.OnCancel` | signaling/gb_broadcast.go:226-234 | afterwards the session is cancelled, and an earlier cause is kept |
| `Broadcast.OnBye` | signaling/gb_broadcast.go:359-378 | a session without dialog is left alone, any other is cancelled, by the BYE unless another cause came first |
| `Broadcast.CancelSurvivesStep` | signaling/gb_broadcast.go:226-234 | a cancelled session stays cancelled with its first cause |
| `Broadcast.RemovedKeepsInv` | signaling/gb_broadcast.go:186-191 | the identity check at removal always succeeds, the entry is gone afterwards and the invariant kept |
| `Broadcast.InstalledKeepsInv` | signaling/gb_broadcast.go:88-109 | installing keeps one live session per device, listed in the map |
| `Broadcast.UpdateKeepsInv` | signaling/gb_broadcast.go:243-378 | a sound step of one session keeps the whole table sound |
| `Broadcast.StepKeepsInv` | signaling/gb_broadcast.go:65-378 | every event of every goroutine keeps the invariant |
| `Broadcast.RunKeepsInv` | signaling/gb_broadcast.go:65-378 | every interleaving keeps it |
| `BroadcastRuns.Reachable` | signaling/gb_broadcast.go:65-378 | every reachable state satisfies the invariant |
| `BroadcastRuns.NoRunFaults` | signaling/gb_broadcast.go:158-191 | in every run no send on `result` or `invited` blocks, `done`, `answerDone` and `ackDone` are closed at most once, and `cleanupErr` is not written after `done` |
| `BroadcastRuns.OneSessionPerDevice` | signaling/gb_broadcast.go:88-109 | in every run two unfinished sessions of one device are the same one, and the map lists it |
| `BroadcastRuns.EntryLeavesByItsOwnSession` | signaling/gb_broadcast.go:186-191 | a map entry is never replaced and leaves only by the session it names |
| `BroadcastRuns.TicketMeansEstablished` | signaling/gb_broadcast.go:111-158 | a ticket implies a nonzero even port, an OK business result, one INVITE answered without error and acknowledged, a configured peer and four loop iterations |
| `BroadcastRuns.SelectLoopIsBounded` | signaling/gb_broadcast.go:202-222 | the select loop makes at most four productive iterations in any run |
| `BroadcastRuns.ErrorMeansCleanedUp` | signaling/gb_broadcast.go:116-122 | a failed start returns only after `done`, with the dialog closed and the session out of the map |
| `BroadcastRuns.DoneIsFinal` | signaling/gb_broadcast.go:186-191 | after `done`, no continuation changes the cleanup error or the cause, or lists the session again |
| `BroadcastRuns.CancelledSessionCanLeave` | signaling/gb_broadcast.go:158-191 | no deadlock: from every reachable state a cancelled session can reach its removal by steps of its own goroutines |
| `BroadcastRuns.ShutdownRuns` | signaling/gb_broadcast.go:158-191 | the same from any point of one fixed schedule |
| `BroadcastRuns.AnswerCarriesEndpointIff` | signaling/gb_broadcast.go:329-330 | in every run a composed SDP answer names the bound RTP endpoint if and only if a binding reply to audio/create precedes the event that composed it |
| `BroadcastRuns.EndpointIffCreated` | signaling/gb_broadcast.go:132-144 | in every run a session has an endpoint exactly if a binding reply reached it while it was creating |
| `BroadcastRuns.ComposedSince` | signaling/gb_broadcast.go:329-330 | every composed answer was composed at one event of the run, by the INVITE handler of that session |
| `BroadcastRuns.NamesEndpointAlways` | signaling/gb_broadcast.go:329-330 | a dialog opened with a bound endpoint is answered with it in every continuation |
| `BroadcastRuns.InviteIsSafeIff` | signaling/gb_broadcast.go:132-314 | an INVITE accepted in any reachable state is answered with the endpoint in every continuation if and only if audio/create has been left, which the Notify tells the device |
| `BroadcastRuns.EarlyInviteIsTicketed` | signaling/gb_broadcast.go:140-330 | the other case occurs: an INVITE before the audio/create reply leads to a returned ticket whose answer named no endpoint |
| `BroadcastSteps.StepSpends` | signaling/gb_broadcast.go:65-378 | no event raises what the goroutines of a session have left to do, and each effective step of theirs lowers it |
| `BroadcastSteps.SetupStepGoesOn` | signaling/gb_broadcast.go:126-223 | no event raises what a setup needs; whatever moves it takes it one step on or fails it |
| `BroadcastSteps.SessionStepsAreBounded` | signaling/gb_broadcast.go:65-330 | in every run, under any interleaving, the goroutines of one session take at most nineteen effective steps |
| `BroadcastSteps.SetupTakesSevenSteps` | signaling/gb_broadcast.go:126-223 | in every run a setup takes at most seven steps, knows how many are to come, and has taken all seven when the peer is configured |
| `BroadcastSteps.TicketTookSevenSteps` | signaling/gb_broadcast.go:111-158 | a ticket is returned after exactly seven |
| `BroadcastSteps.CancelledSessionHasStep` | signaling/gb_broadcast.go:158-191 | in every reachable state a cancelled session that is still listed has an effective step of its own, so with the bound it leaves in every run in which its goroutines go on |
| `BroadcastHandlers.Table.constructor` | signaling/gb_broadcast.go:100-108 | an empty table is sound |
| `BroadcastHandlers.CancelIsStep` | signaling/gb_broadcast.go:226-234 | cancelling the listed session is the protocol step of the request, and keeps the table sound |
| `BroadcastHandlers.Table.HandleResponse` | signaling/gb_broadcast.go:243-265 | the handler is one step of the protocol; 200 exactly for the live session with this SN |
| `BroadcastHandlers.Table.HandleInvite` | signaling/gb_broadcast.go:278-314 | one step; which of 403, 486, 488, 400 or acceptance is given, and that acceptance found the `invited` slot empty |
| `BroadcastHandlers.Table.FindDialog` | signaling/gb_broadcast.go:343-349 | the search over all broadcasts finds the session with this dialog exactly if it is listed |
| `BroadcastHandlers.Table.HandleAck` | signaling/gb_broadcast.go:341-357 | one ACK step of the session found, else nothing |
| `BroadcastHandlers.Table.HandleBye` | signaling/gb_broadcast.go:359-378 | one BYE step of the session found; a foreign dialog is left to the others |
| `BroadcastHandlers.Table.StopBroadcast` | signaling/gb_broadcast.go:226-234 | found exactly by device and media token; afterwards the session is cancelled |
| `BroadcastHandlers.Table.RemoveBroadcast` | signaling/gb_broadcast.go:186-191 | the entry of this device and no other is removed, `done` closed, no fault |
| `Ptz.MoveKeepsInv` | signaling/gb_ptz.go:182-205 | moving a handler without sending keeps ownership and rest |
| `Ptz.SendKeepsInv` | signaling/gb_ptz.go:182-213 | what the owner sends becomes the last command of its channel, and that is consistent |
| `Ptz.LeaveKeepsInv` | signaling/gb_ptz.go:198-216 | deletion by key removes the handler's own entry and leaves the channel at rest |
| `Ptz.InstallKeepsInv` | signaling/gb_ptz.go:166-168 | a new owner of a free channel keeps the invariant |
| `Ptz.CancelKeepsInv` | signaling/device_lifecycle.go:19-23 | cancelling any set of owners keeps it |
| `Ptz.RequestKeepsInv` | signaling/gb_ptz.go:133-168 | a request keeps the invariant, whether it takes the channel, stops its owner or finds it busy |
| `Ptz.StartKeepsInv` | signaling/gb_ptz.go:182-186 | so does the start, sent or given up |
| `Ptz.SettleKeepsInv` | signaling/gb_ptz.go:193-205 | so does the section that decides a preset between release and STOP |
| `Ptz.HaltKeepsInv` | signaling/gb_ptz.go:206-213 | so does the STOP |
| `Ptz.ReleaseKeepsInv` | signaling/gb_ptz.go:214-216 | so does the release by key |
| `Ptz.StepKeepsInv` | signaling/gb_ptz.go:132-216 | every event keeps the ownership, handler, rest and record invariants |
| `Ptz.RunKeepsInv` | signaling/gb_ptz.go:132-216 | every run keeps them |
| `Ptz.EntryLeavesByItsOwner` | signaling/gb_ptz.go:198-216 | in every run an entry is removed only by the handler that installed it, although deletion is by key |
| `Ptz.UnownedChannelIsAtRest` | signaling/gb_ptz.go:132-216 | in every run the last command attempted on a channel without owner is no motion start |
| `Ptz.AcceptedStopIsSent` | signaling/gb_ptz.go:134-216 | an owner that a 202 stop reached has sent STOP by the time it finishes, even against a succeeding preset |
| `Ptz.StopRequestReachesOwner` | signaling/gb_ptz.go:134-144 | a stop that is answered 202 marks its owner for good, in every continuation |
| `Lifecycle.BroadcastIsGentle` | signaling/gb_broadcast.go:79-109 | broadcast steps add no broadcast to a marked device |
| `Lifecycle.GentleKeepsStops` | signaling/device_lifecycle.go:13-86 | steps that add nothing to marked devices keep the stops in progress sound |
| `Lifecycle.StartKeepsSessions` | signaling/live_session.go:112-168 | a started session holds a grant of its own, open and of a slot nobody else has, and the map stays exact |
| `Lifecycle.RemoveKeepsSessions` | signaling/live_session.go:496-506 | a listed session releases its own grant for the first time, so the release is harmless |
| `Lifecycle.RemovalEndsSession` | signaling/live_session.go:496-506 | after `remove` by any caller the session is done |
| `Lifecycle.BeginKeepsStops` | signaling/device_lifecycle.go:13-31 | the snapshot holds every broadcast and session of the device |
| `Lifecycle.SessionStoppedKeepsStops` | signaling/device_lifecycle.go:33-40 | a session is crossed off only when it has left the map |
| `Lifecycle.BroadcastStoppedKeepsStops` | signaling/device_lifecycle.go:41-50 | the wait for the broadcast ends only when it has left the map |
| `Lifecycle.FinishKeepsStops` | signaling/device_lifecycle.go:74-85 | dropping the mark leaves no other stop without its own |
| `Lifecycle.BeginKeepsInv` | signaling/device_lifecycle.go:13-31 | beginning a stop keeps the whole invariant |
| `Lifecycle.BroadcastStepKeepsInv` | signaling/gb_broadcast.go:70-378 | broadcast steps keep it |
| `Lifecycle.PtzStepKeepsInv` | signaling/gb_ptz.go:133-216 | PTZ steps keep it |
| `Lifecycle.StartStepKeepsInv` | signaling/live_session.go:112-168 | starting a session keeps it |
| `Lifecycle.RemoveStepKeepsInv` | signaling/live_session.go:496-506 | removing one, by any caller, keeps it |
| `Lifecycle.SnapshotsSurvive` | signaling/device_lifecycle.go:15-18 | the broadcast a stop waits for stays cancelled |
| `Lifecycle.SessionStoppedKeepsInv` | signaling/device_lifecycle.go:33-40 | seeing a session off keeps it |
| `Lifecycle.BroadcastStoppedKeepsInv` | signaling/device_lifecycle.go:41-50 | seeing the broadcast off keeps it |
| `Lifecycle.FinishKeepsInv` | signaling/device_lifecycle.go:74-85 | finishing a stop keeps it |
| `Lifecycle.TableStepKeepsInv` | signaling/register.go:33-65 | registration, catalogue, expiry and query steps keep it |
| `Lifecycle.StepKeepsInv` | signaling/device_lifecycle.go:13-86 | every critical section keeps it |
| `Lifecycle.RunKeepsInv` | signaling/device_lifecycle.go:13-86 | every interleaving of them keeps it |
| `Lifecycle.NoBroadcastAdmittedWhileStopping` | signaling/gb_broadcast.go:79-82 | while the mark is held no step creates or replaces a broadcast of the device |
| `Lifecycle.NoSessionAdmittedWhileStopping` | signaling/live_session.go:118-121 | nor a live or playback session |
| `Lifecycle.NoOwnerAdmittedWhileStopping` | signaling/gb_ptz.go:150-154 | nor a PTZ owner |
| `Lifecycle.NoQueryAdmittedWhileStopping` | signaling/device_query.go:118-122 | nor a query, and registration and channels do not come back |
| `Lifecycle.OneStopPerDevice` | signaling/device_lifecycle.go:61-72 | in every run at most one stop per device is in progress, over all three places that start one |
| `Lifecycle.FinishingIsClear` | signaling/device_lifecycle.go:73-85 | when a stop has seen off its snapshot nothing of the device is left |
| `Lifecycle.DeletedDeviceIsGone` | signaling/device_lifecycle.go:61-86 | in every run, when deletion succeeds, no broadcast or session of the device exists, no stop reported an error, and row, registration, channels and mark are gone |
| `Lifecycle.SessionsHaveDistinctSsrcs` | signaling/live_session.go:156-167 | in every run two listed sessions have SSRCs that differ modulo 10000 |
| `LifecycleRuns.StopCanEnd` | signaling/device_lifecycle.go:33-86 | from every reachable state every stop in progress can reach its end, and then the device is not marked any more |
| `LifecycleRuns.ClearSessions` | signaling/device_lifecycle.go:35-40 | all sessions of a snapshot can be seen off, without touching broadcasts or PTZ owners |
| `LifecycleRuns.EndBroadcast` | signaling/device_lifecycle.go:41-48 | the cancelled broadcast of a snapshot can reach `done` by steps of its own goroutines, with no cleanup error it had not |
| `LifecycleRuns.CanFinish` | signaling/device_lifecycle.go:33-50 | from any point of its waits a stop can come to its last section, with every PTZ owner where it was and an error only if it or its broadcast had one |
| `LifecycleRuns.StopStepsAreBounded` | signaling/device_lifecycle.go:33-86 | in every run a stop takes at most as many effective steps as its snapshot has sessions, and two |
| `LifecycleRuns.OwnerMayOutliveDeletion` | signaling/device_lifecycle.go:19-23 | a run in which deletion succeeds while a cancelled PTZ owner is still listed |
| `LifecycleRuns.OwnerlessStays` | signaling/gb_ptz.go:150-154 | a device without owner gets none in any continuation while its stop is in progress |
| `LifecycleRuns.DoomedStays` | signaling/device_lifecycle.go:41-44 | a deletion whose broadcast has recorded a cleanup error does not succeed in any continuation |
| `LifecycleRuns.DeletionLeavesOwnerIff` | signaling/device_lifecycle.go:13-86 | in every reachable state a deletion that begins now can return nil with a PTZ owner of the device still listed if and only if one is listed now and its broadcast has recorded no cleanup error |
| `LiveService.Service.constructor` | signaling/live_session.go:93-104 | the empty service is sound |
| `LiveService.Service.StartBroadcast` | signaling/gb_broadcast.go:70-109 | one step; installs exactly if the device is known, not stopping, online and free, and which refusal it gives |
| `LiveService.Service.ClaimPtz` | signaling/gb_ptz.go:133-168 | the ownership step; conflict, 202 stop, each of the four refusals and ownership decided exactly, and a 202 has marked the owner |
| `LiveService.Service.CancelPtzOwners` | signaling/device_lifecycle.go:19-23 | the loop cancels exactly the owners of this device |
| `LiveService.Service.CancelBroadcast` | signaling/device_lifecycle.go:15-18 | cancels and snapshots the listed broadcast, if any |
| `LiveService.Service.CollectSessions` | signaling/device_lifecycle.go:24-29 | the loop collects exactly the listed sessions of the device |
| `LiveService.Service.BeginDeviceStop` | signaling/device_lifecycle.go:13-31 | the whole new state of a begun stop |
| `LiveService.Service.BeginDelete` | signaling/device_lifecycle.go:62-72 | one step; starts exactly for a known device without a mark |
| `LiveService.Service.FinishDelete` | signaling/device_lifecycle.go:74-85 | success exactly without stop and store errors; the mark is dropped in any case |
| `LiveService.Service.RemoveSession` | signaling/live_session.go:496-506 | one step, idempotent over callers; afterwards the session is done |
| `SsrcAllocator.FirstFree` | signaling/ssrc.go:30-38 | the least cyclic offset from the cursor with a free slot; all before it are taken |
| `SsrcAllocator.Advanced` | signaling/ssrc.go:32-35 | increment and wrap move the cursor one place on the ring of 9999 |
| `SsrcAllocator.Allocator.constructor` | signaling/ssrc.go:24 | the fresh allocator is valid |
| `SsrcAllocator.Allocator.Acquire` | signaling/ssrc.go:27-47 | the scan loop grants the first free slot in cyclic order, or leaves everything, cursor included, as it was |
| `SsrcAllocator.Allocator.Release` | signaling/ssrc.go:49-53 | frees the slot of the value and nothing else |
| `SsrcAllocator.AcquireFailsIffFull` | signaling/ssrc.go:27-47 | refusal if and only if all 9999 slots are taken, and then nothing changes |
| `SsrcAllocator.AcquireKeepsSound` | signaling/ssrc.go:27-47 | every open grant keeps its slot for itself, and every slot in use belongs to one |
| `SsrcAllocator.ReleaseKeepsSoundIff` | signaling/ssrc.go:49-53 | a release by a holder is harmless if and only if it is that holder's first or the slot is free |
| `SsrcAllocator.StrayKeepsSoundIff` | signaling/ssrc.go:49-53 | a release of a value not granted to its caller is harmless if and only if the slot is free |
| `SsrcAllocator.RunStaysSoundIff` | signaling/ssrc.go:27-53 | a history stays sound throughout if and only if every release in it is harmless |
| `SsrcAllocator.OpenGrantsAreDistinct` | signaling/ssrc.go:27-53 | over such histories two open grants, of either kind, differ modulo 10000, and every grant fits 32 bits |
| `SsrcAllocator.ReleaseAndRegrant` | signaling/ssrc.go:27-53 | with all slots in use, a release by the first holder, first or not, makes the next acquire grant its slot |
| `SsrcAllocator.SecondReleaseSharesValue` | signaling/ssrc.go:49-53 | from the fresh allocator a second release by one holder frees a slot in use, and two open grants then have the same value |
| `SsrcAllocator.CursorFollowsTicks` | signaling/ssrc.go:30-35 | the cursor is where the number of its advances puts it |
| `SsrcAllocator.CursorPassesGrant` | signaling/ssrc.go:30-46 | after a grant the cursor stands right behind the slot |
| `SsrcAllocator.RegrantTakesFullLaps` | signaling/ssrc.go:30-46 | between two grants of a slot the cursor makes a whole number of laps, at least one |
| `AlarmLog.Log.Add` | signaling/alarm.go:70-79 | the log holds the last 1000 of all alarms added, numbered from 1 |
| `AlarmLog.Log.Collect` | signaling/alarm.go:97-108 | the loop returns the first 200 retained alarms after the position, and whether one before them was evicted |
| `AlarmLog.Log.PageFrom` | signaling/alarm.go:97-113 | the page and next cursor at a position |
| `AlarmLog.Log.Since` | signaling/alarm.go:81-114 | error, reset or page exactly as the cursor deserves, over the whole history |
| `AlarmLog.CursorRoundTrip` | signaling/alarm.go:86-112 | a cursor the log hands out is read back as its generation and position |
| `AlarmLog.AnswerAt` | signaling/alarm.go:81-114 | a client that feeds back its cursor is answered at its position, without reset |
| `AlarmLog.PollKeepsInv` | signaling/alarm.go:81-114 | a poll moves the client to the end of its page |
| `AlarmLog.AddKeepsInv` | signaling/alarm.go:70-79 | an add does not disturb a client |
| `AlarmLog.RunKeepsInv` | signaling/alarm.go:70-114 | any interleaving of adds and polls keeps the client's position meaningful |
| `AlarmLog.PollingDelivers` | signaling/alarm.go:70-114 | over every such run: never refused, never reset, true alarms under strictly increasing numbers, and all of them up to the position if no page showed a gap |
| `AlarmLog.GapIffEvicted` | signaling/alarm.go:101-103 | a page shows a gap exactly if an alarm the client had not passed was evicted; otherwise it continues right behind |
| `AlarmLog.DrainTakes` | signaling/alarm.go:97-112 | once adds stop, n unread alarms take exactly ceil(n/200) pages, none empty, and arrive completely |
| `Decimal.DigitsOfFormat` | signaling/alarm.go:90 | decimal digits read back as the number |
| `Decimal.ParseOfFormat` | signaling/alarm.go:89-90 | parsing inverts formatting on every int64 |
| `ChannelRegistry.Registry.BeginQuery` | signaling/channel_registry.go:42-48 | a query begins with nothing known and nothing merged |
| `ChannelRegistry.Registry.CancelQuery` | signaling/channel_registry.go:50-54 | removes this query and no other |
| `ChannelRegistry.Registry.Apply` | signaling/channel_registry.go:56-106 | outcome and new state for every response, merge loop included |
| `ChannelRegistry.MergeItems` | signaling/channel_registry.go:74-93 | the loop merges all items, or reports an invalid id exactly if there is one |
| `ChannelRegistry.AcceptedStep` | signaling/channel_registry.go:94-105 | an accepted fragment joins its query, and publishes exactly if the merge has the announced size |
| `ChannelRegistry.Registry.RemoveDevice` | signaling/channel_registry.go:127-136 | removes the catalogue and exactly the queries of the device |
| `ChannelRegistry.Registry.Expire` | signaling/channel_registry.go:138-146 | removes exactly the queries whose time is over |
| `ChannelRegistry.MergeConcat` | signaling/channel_registry.go:78-93 | merging in two parts is merging the whole |
| `ChannelRegistry.AcceptedStaysPending` | signaling/channel_registry.go:94-105 | an incomplete query holds the merge of all its fragments |
| `ChannelRegistry.AcceptedIsPublished` | signaling/channel_registry.go:97-103 | what is published is the merge of all its fragments, as large as each announced |
| `ChannelRegistry.ApplyKeepsInv` | signaling/channel_registry.go:56-106 | a response of any kind keeps the account of pending and published catalogues |
| `ChannelRegistry.StepKeepsInv` | signaling/channel_registry.go:42-146 | so does every operation |
| `ChannelRegistry.RunKeepsInv` | signaling/channel_registry.go:42-146 | and every run |
| `ChannelRegistry.PublishedIsCompleteMerge` | signaling/channel_registry.go:56-106 | in every run a published catalogue is the complete merge of fragments accepted under one (device, SN), with the size they all announced |
| `ChannelRegistry.ZeroMeansNothingAccepted` | signaling/channel_registry.go:68-73 | in every run the 0 sentinel means that no fragment has been accepted |
| `ChannelRegistry.RejectionChangesNothing` | signaling/channel_registry.go:60-96 | an unexpired rejected fragment changes nothing |
| `CatalogueOrder.MergeIgnoresOrder` | signaling/channel_registry.go:78-93 | consistent items merge to the same map in any order and multiplicity |
| `CatalogueOrder.LateFragmentsChangeNothing` | signaling/channel_registry.go:60-63 | fragments after publication change nothing |
| `CatalogueOrder.PartialMerge` | signaling/channel_registry.go:94-103 | a part of the items reaches the announced size exactly if it covers all ids, and then it is the whole |
| `CatalogueOrder.Advances` | signaling/channel_registry.go:56-106 | the next fragment completes the catalogue or leaves the query waiting |
| `CatalogueOrder.Continues` | signaling/channel_registry.go:56-106 | from any point the remaining fragments complete it |
| `CatalogueOrder.FragmentsPublishTheirMerge` | signaling/channel_registry.go:42-106 | consistent fragments that cover the announced total publish their merge and end the query |
| `CatalogueOrder.ArrivalOrderDoesNotMatter` | signaling/channel_registry.go:42-106 | the same fragments in any order, with any retransmission, leave the same registry |
| `DeviceQuery.Queries.Register` | signaling/device_query.go:136-142 | a query waits under a fresh number with an empty slot |
| `DeviceQuery.Queries.Forget` | signaling/device_query.go:143-147 | removes this query and no other |
| `DeviceQuery.Queries.Normalise` | signaling/device_query.go:216-227 | accepts exactly records of the target that carry a name, with missing secrecy marks filled in |
| `DeviceQuery.Queries.HandleResponse` | signaling/device_query.go:205-316 | status and new table for every decoded response |
| `DeviceQuery.Queries.Collect` | signaling/device_query.go:279-312 | what one matching fragment does to its query |
| `DeviceQuery.FullTakesNothing` | signaling/device_query.go:284-303 | a fragment accepted by a complete query brings no record |
| `DeviceQuery.CollectKeepsInv` | signaling/device_query.go:284-312 | a query holds its fragments in arrival order, within the announced total |
| `DeviceQuery.HandleKeepsInv` | signaling/device_query.go:255-315 | a response keeps this for all queries |
| `DeviceQuery.StepKeepsInv` | signaling/device_query.go:136-315 | every step keeps it |
| `DeviceQuery.RunKeepsInv` | signaling/device_query.go:136-315 | every run keeps it |
| `DeviceQuery.RecordQueryAnswer` | signaling/device_query.go:284-312 | over every run the one answer is the too-large failure, given only for a total above 1000, or a list of exactly the announced length: the arrival-order concatenation of fragments that match SN, device, target and command and announce that total |
| `DeviceQuery.CompleteQueryIsAnswered` | signaling/device_query.go:296-312 | in every run a record query whose fragments add up to the announced total has its answer in the slot or has received it |
| `DeviceQuery.RetransmissionIsListedTwiceIff` | signaling/device_query.go:284-297 | a fragment that comes again is taken again, and its records are listed twice, if and only if they fit the announced total twice; otherwise it is refused without effect |
| `DeviceQuery.RefusedChangesNothing` | signaling/device_query.go:209-288 | a refused or foreign response leaves every query as it was |
| `FinitePlayback.Player.constructor` | desktop/playback_view.h:138 | the initial state is sound |
| `FinitePlayback.Player.EnqueueFrame` | desktop/decode_thread.cpp:398-414 | one step of the decoder; it waits exactly at four frames |
| `FinitePlayback.Player.TakeFrames` | desktop/playback_view.cpp:633-648 | one step of the tick: all decoded frames move over, or none |
| `FinitePlayback.Player.PresentAndDecide` | desktop/playback_view.cpp:841-985 | two steps of the tick: at most one frame shown, then continue or end |
| `FinitePlayback.StepKeepsOrder` | desktop/playback_view.cpp:629-985 | no step but the end loses, repeats or reorders a frame |
| `FinitePlayback.StepKeepsInv` | desktop/playback_view.cpp:629-985 | every step of decoder and tick keeps the invariant |
| `FinitePlayback.DecideKeepsInv` | desktop/playback_view.cpp:952-985 | the end is declared with every queue empty, or after an error |
| `FinitePlayback.RunKeepsInv` | desktop/playback_view.cpp:629-985 | every interleaving keeps it |
| `FinitePlayback.NothingLostOrReordered` | desktop/decode_thread.cpp:398-414 | for every interleaving: shown, held and queued frames are, in order, the frames decoded, within the bounds 16 and 4 |
| `FinitePlayback.EndMeansAllShown` | desktop/playback_view.cpp:952-985 | normal completion is declared only after every frame was shown once and in order |
| `FinitePlayback.TickProgresses` | desktop/playback_view.cpp:629-985 | a free tick after the end of the stream shows a frame or ends |
| `FinitePlayback.FinishedPlaybackEnds` | desktop/playback_view.cpp:952-985 | it does end: one tick more than frames are left suffices |
| `AudioClock.Clock.Seed` | desktop/playback_view.cpp:249-266 | the timeline at the change to variable rate, and that it is sound |
| `AudioClock.Clock.PushBlock` | desktop/playback_view.cpp:673-787 | the timeline after one block, discontinuity reset included |
| `AudioClock.Clock.Flush` | desktop/playback_view.cpp:820-827 | the timeline after the resampler tail |
| `AudioClock.Clock.Read` | desktop/playback_view.cpp:537-572 | the new played counter and spans, and a reading without division by zero |
| `AudioClock.SeedIsSound` | desktop/playback_view.cpp:249-266 | seeding gives contiguous spans that end at the output count |
| `AudioClock.PushKeepsSound` | desktop/playback_view.cpp:673-787 | any block, also one that jumps or steps back, keeps spans contiguous in frames and media time and not reversed |
| `AudioClock.TickKeepsSound` | desktop/playback_view.cpp:537-572 | reading keeps them and never lowers the played counter or lets it pass the output count |
| `AudioClock.FlushKeepsSound` | desktop/playback_view.cpp:788-827 | so does the tail, if output has not overtaken input |
| `AudioClock.InterpolateMonotone` | desktop/playback_view.cpp:571 | truncating interpolation is monotone in a span |
| `AudioClock.InterpolateEnds` | desktop/playback_view.cpp:571 | and exact at both of its ends |
| `AudioClock.ValueMonotone` | desktop/playback_view.cpp:566-571 | the reading is monotone across spans |
| `AudioClock.ValueSnoc` | desktop/playback_view.cpp:761-769 | a new span changes no earlier reading |
| `AudioClock.PopKeepsValue` | desktop/playback_view.cpp:566-569 | dropping played spans changes no later reading |
| `AudioClock.StepKeepsReading` | desktop/playback_view.cpp:537-833 | no step lowers the reading or lets it pass the last span, blocks that step back included |
| `AudioClock.ClockNeverRunsBackwards` | desktop/playback_view.cpp:537-833 | over every run without discontinuity in which no tail is flushed behind the input's end, whatever timestamps the blocks carry, clock and played counter never decrease and stay in range |
| `AudioClock.ForwardInputIsSteady` | desktop/playback_view.cpp:675-827 | input that does not step back never lets the output overtake it |
| `AudioClock.ForwardClockNeverRunsBackwards` | desktop/playback_view.cpp:537-833 | so for such input the clock never decreases, tails included |
| `AudioClock.TailMonotoneIff` | desktop/playback_view.cpp:820-827 | readings over the spans after a flush are monotone if and only if the output end had not passed the input end |
| `AudioClock.PlayingTheTail` | desktop/playback_view.cpp:537-572 | otherwise two ticks through the tail make the clock fall |
| `AudioClock.FlushTurnsClockIff` | desktop/playback_view.cpp:820-827 | in every sound timeline, spans or none, some ticks after a flush make the clock fall if and only if the output end had passed the input end |
| `AudioClock.SteppingBackTurnsTheTail` | desktop/playback_view.cpp:675-827 | a block 80 ms early, below the discontinuity limit, and any tail after it, whatever the resampler delay, make the clock fall |
| `AudioClock.HeldBackBlocksTurnTheTail` | desktop/playback_view.cpp:675-827 | two such blocks of which no frame has come out yet do the same |
| `AudioClock.SeedKeepsReading` | desktop/playback_view.cpp:249-266 | entering variable rate changes the reading by at most 16 microseconds |
| `DecodeQueue.AudioQueue.constructor` | desktop/decode_thread.h:98-100 | the empty queue satisfies the byte accounting |
| `DecodeQueue.AudioQueue.TakeBlocks` | desktop/decode_thread.cpp:54-62 | the consumer gets all queued bytes in order and the count is reset |
| `DecodeQueue.AudioQueue.EnqueueFinite` | desktop/decode_thread.cpp:288-313 | for any schedule: bytes taken and queued are exactly the bytes put in, the pieces split the block, and giving up has a reason |
| `DecodeQueue.AudioQueue.AwaitRoom` | desktop/decode_thread.cpp:263-299 | the wait ends with room, or at an interruption |
| `DecodeQueue.AudioQueue.AppendPiece` | desktop/decode_thread.cpp:304-310 | one piece continues the split, within capacity and in whole sample frames |
| `DecodeQueue.AudioQueue.Append` | desktop/decode_thread.cpp:308-309 | the byte count stays the sum of the block sizes |
| `DecodeQueue.SplitCarriesBytes` | desktop/decode_thread.cpp:304-310 | the pieces of a split carry the block's bytes |
| `DecodeQueue.SplitTimesAreExact` | desktop/decode_thread.cpp:306 | every piece is stamped within a microsecond of the exact time of its first byte |
| `DecodeQueue.DropOldest` | desktop/decode_thread.cpp:314-319 | what is left fits, or is empty |
| `DecodeQueue.RealtimeAudio.Enqueue` | desktop/decode_thread.cpp:314-332 | the queue after one block, byte count and capacity kept |
| `DecodeQueue.RealtimeAudio.MakeRoom` | desktop/decode_thread.cpp:314-319 | the loop drops oldest blocks |
| `DecodeQueue.RealtimeAudio.Trim` | desktop/decode_thread.cpp:320-329 | an oversized block keeps its newest bytes |
| `DecodeQueue.RealtimeKeepsNewest` | desktop/decode_thread.cpp:314-332 | what is kept is a suffix of everything received, within capacity |
| `DecodeQueue.RealtimeDropsLeast` | desktop/decode_thread.cpp:314-319 | and one block more would not have fitted |
| `ReferenceMatch.WindowMatchesIff` | bench/gb_av_probe.py:98-120 | both window tests decide whether the window is a cyclic stretch of the reference |
| `ReferenceMatch.UnitMatchesIff` | bench/gb_av_probe.py:101-124 | both unit tests decide the same for one unit; the ring is long enough |
| `ReferenceMatch.AnchorMatchesWindow` | bench/gb_av_probe.py:129-134 | a true anchor passes every window |
| `ReferenceMatch.FullWindowIsAnchor` | bench/gb_av_probe.py:129-134 | a window that reaches the end leaves only true anchors |
| `ReferenceMatch.Candidates` | bench/gb_av_probe.py:95-117 | all starting positions of the unit, each once and in order |
| `ReferenceMatch.Filter` | bench/gb_av_probe.py:131-134 | keeps exactly the positions whose window matches |
| `ReferenceMatch.Locate` | bench/gb_av_probe.py:129-135 | window doubling ends, never loses a true anchor, and returns the least one if there is any |
| `ReferenceMatch.Walk` | bench/gb_av_probe.py:142-156 | nothing missed and no jump exactly if everything matches from the anchor on |
| `ReferenceMatch.NextUnit` | bench/gb_av_probe.py:142-156 | one more unit at the running position decides whether the stretch goes on |
| `ReferenceMatch.Compare` | bench/gb_av_probe.py:129-157 | ok if and only if the units are an unbroken cyclic excerpt of the reference that starts with a nonempty unit |
| `ReferenceMatch.CompareAac` | bench/gb_av_probe.py:87-157 | for AAC: a nonempty cyclic excerpt of the reference frames |
| `ReferenceMatch.CompareG711` | bench/gb_av_probe.py:106-157 | for G.711: the bytes the rows cover are a cyclic excerpt of the reference bytes, first row nonempty |
| `ReferenceMatch.RingReaches` | bench/gb_av_probe.py:109 | the ring passes its first lap by more than the whole capture |
| `RtpPacket.MakePacket` | bench/whip_publisher.cpp:314-343 | the buffer holds header, extension and payload |
| `RtpPacket.ReadersAgree` | bench/whep_dump_av.py:34-39 | the Python reader returns the payload of every packet the C parser accepts |
| `RtpPacket.PacketRoundTrip` | third/ireader/librtp/source/rtp-packet.c:23-97 | both readers get back every field and exactly the payload |
| `H264Packets.AccessUnit.Append` | bench/whip_publisher.cpp:197-219 | the packet list is that of the NAL units appended |
| `H264Packets.AccessUnit.Send` | bench/whip_publisher.cpp:449-466 | one packet per payload, marker on the last only, numbers consecutive modulo 2^16 |
| `H264Packets.FragmentFields` | bench/whip_publisher.cpp:210-216 | what a receiver reads from one fragment |
| `H264Packets.FeedFragments` | bench/whip_publisher.cpp:205-218 | feeding a unit's fragments from any point delivers the unit |
| `H264Packets.FeedNalu` | bench/whip_publisher.cpp:197-219 | one NAL unit arrives |
| `H264Packets.FeedDeliversSendable` | bench/whip_publisher.cpp:197-219 | a receiver delivers only types 1 to 23 |
| `H264Packets.AccessUnitRoundTrip` | bench/whip_publisher.cpp:197-219 | depacketising gives back the NAL units if and only if all are nonempty and of types 1 to 23 |
| `H264Packets.FragmentBits` | bench/whip_publisher.cpp:210-216 | start bit on the first fragment only, end bit on the last only |
| `H264Packets.PayloadShape` | bench/whip_publisher.cpp:197-219 | every payload fits 1150 bytes; a fragmented unit has one start and one end bit, on different fragments |
| `H264Packets.WireRoundTrip` | bench/whip_publisher.cpp:410-427 | the sent packet parses to its marker, number, timestamp, SSRC and payload |
| `H264Packets.SentAccessUnitArrives` | bench/whip_publisher.cpp:449-466 | NAL units in, RTP packets on the wire, the same NAL units out |
| `PacketHealth.TimestampHealth.Observe` | bench/packet_health.h:18-31 | verdict and new state of one observation |
| `PacketHealth.OneObservation` | bench/packet_health.h:18-31 | one observation against unbounded time |
| `PacketHealth.AdvancedIsTrueProgress` | bench/packet_health.h:18-33 | over any number of wraps the counter is the unbounded maximum minus the first timestamp |
| `PacketHealth.AcceptedIffInWindow` | bench/packet_health.h:23-26 | accepted exactly if not further behind the maximum than the reorder window |
| `PacketHealth.RtpHealth.Observe` | bench/packet_health.h:46-67 | verdict and new state for one packet |
| `PacketHealth.AdvancedNeverDecreases` | bench/packet_health.h:46-69 | over every run, SSRC changes included, progress is never taken back |
| `PacketHealth.AcceptedRunIsConsecutive` | bench/packet_health.h:61-65 | in a run without rejection, neighbours of one SSRC are numbered consecutively |
| `PacketHealth.SourceAcceptedIffHealthy` | bench/packet_health.h:46-67 | for one source: all accepted if and only if the numbers have no gap and no timestamp leaves the window |
| `PacketHealth.AcceptedSourceProgress` | bench/packet_health.h:46-69 | and then progress is the true one |
| `PsDemux.TrackState.Stamp` | bench/gb_ps_demux.cpp:193-196 | DTS and PTS given to one packet |
| `PsDemux.UnwrapStepIff` | bench/gb_ps_demux.cpp:80-88 | a step of any length, forward or back, is recovered if and only if it stays in the epoch and is at most half a period back, or enters the next epoch and is less than half a period; a drift stays |
| `PsDemux.HalfPeriodStepIsLost` | bench/gb_ps_demux.cpp:80-88 | half a period from the end of the first epoch leaves every later DTS a period behind |
| `PsDemux.StepBackIsReadForward` | bench/gb_ps_demux.cpp:80-88 | a short step back across a wrap is read as a step forward |
| `PsDemux.PtsOffsetIff` | bench/gb_ps_demux.cpp:193-194 | the distance from DTS to PTS is recovered if and only if the same holds of it |
| `PsDemux.TimestampsAreRecoveredIff` | bench/gb_ps_demux.cpp:193-196 | every unbounded DTS and PTS of a track is recovered from 33 bits if and only if every packet starts in the first epoch or is such a step |
| `PsDemux.ForwardTrackIsRegular` | bench/gb_ps_demux.cpp:193-196 | forward steps below 2^32 with PTS less than 2^32 ahead all are |
| `PsDemux.DriftStays` | bench/gb_ps_demux.cpp:80-88 | once off by a drift, every later DTS is off by it, whatever recoverable steps follow |
| `PsDemux.RecordsOfEncode` | regression/gb_ps_negative.py:26-27 | reading what was encoded gives the records and no rest |
| `PsDemux.EncodeOfRecords` | bench/gb_ps_demux.cpp:292-301 | every dump is its records, encoded, followed by a rest that starts no record |
| `PsDemux.Demux` | bench/gb_ps_demux.cpp:284-338 | the loop reads exactly the whole records, reports a rest, and packs the valid payloads |
| `PsDemux.Consume` | bench/gb_ps_demux.cpp:302-337 | one record extends the packs by its payload, if valid |
| `PsDemux.AddWhenStarted` | bench/gb_ps_demux.cpp:320-337 | a payload after the first header keeps the partition |
| `PsDemux.AddBeforeStart` | bench/gb_ps_demux.cpp:320-337 | so does one before it |
| `PsDemux.PacksPartitionPayloads` | bench/gb_ps_demux.cpp:320-337 | fed packs and pending bytes are all payload bytes from the first pack header on, each pack starting at a header |
| `PsDemux.Frames` | bench/gb_ps_demux.cpp:96-116 | frames found join to the data, and each is one ADTS frame |
| `PsDemux.AdtsFrames` | bench/gb_ps_demux.cpp:96-116 | accepted exactly if the data is a sequence of frames; the result counts their raw data blocks |
| `PsDemux.FramesOfJoin` | bench/gb_ps_demux.cpp:96-116 | the division into frames is unique |
| `CapacitySearch.MiddleIsBetween` | bench/perf_capacity.py:43-44 | a probe lies strictly between the bounds, aligned or not |
| `CapacitySearch.MiddleHalves` | bench/perf_capacity.py:43-44 | on the grid both halves have at most half the steps, rounded up |
| `CapacitySearch.CeilLog2IsCeiling` | bench/perf_capacity.py:42-44 | the bound on the probes is the ceiling of the binary logarithm |
| `CapacitySearch.Ascend` | bench/perf_capacity.py:27-41 | for every oracle: ladder to the first load that is not healthy, or past the maximum with all healthy |
| `CapacitySearch.LadderBrackets` | bench/perf_capacity.py:30-37 | the first failure brackets the capacity |
| `CapacitySearch.BracketsNarrow` | bench/perf_capacity.py:46-49 | a probe between the bounds moves one of them |
| `CapacitySearch.Bisect` | bench/perf_capacity.py:42-51 | ends for every oracle; probes strictly inside and aligned, at most ceil(log2(distance/granularity)) of them, bounds then one granularity apart |
| `CapacitySearch.ProbeIsAfforded` | bench/perf_capacity.py:42-51 | a probe on the grid leaves enough of the logarithmic budget for either half |
| `CapacitySearch.Repeat` | bench/perf_capacity.py:54-56 | all repeats agree, or the last one does not |
| `CapacitySearch.Search` | bench/perf_capacity.py:26-59 | for every oracle a pass or a reason, each supported by the probes: a pass has loads one granularity apart, at or below a failed load of the ladder, with every probe and repeat on its side |
| `CapacitySearch.PassEnclosesThreshold` | bench/perf_capacity.py:26-59 | against a fixed threshold the loads of a pass enclose it, and the ladder met a failure |
| `CapacitySearch.InconclusiveHasCause` | bench/perf_capacity.py:38-56 | against a fixed threshold a search without a pass met no failing load, or no positive grid load is healthy |
| `CapacitySearch.AlignedSearchFindsThreshold` | bench/perf_capacity.py:26-59 | an aligned search passes if and only if its ladder meets a failing load and some positive grid load is healthy, and its capacity is then the greatest grid load below the threshold |

## Left out

- Broadcast: SIP, HTTP and SQL calls, timers and XML are events with any outcome; SN, SourceID, dialog ID and media token of a session are its index, so they never collide; the failures of `nextBroadcastID` and `newStreamToken` before the install are not modelled.
- Broadcast: the goroutine bodies of `runBroadcast` and `prepareBroadcast` are transitions on values, not methods with loops, because other goroutines run between any two of their steps; update in place is modelled in `BroadcastHandlers` and `LiveService`.
- BroadcastSteps.CancelledSessionHasStep: that goroutines go on and replies arrive is an assumption about scheduler and network; time is not modelled.
- Ptz: XML marshalling is assumed to succeed; `encodePTZ` is a table of bytes and a checksum and would only add easy members.
- Lifecycle: a live session is listed or done, its SIP phases and media token are not modelled; the device store is a set that answers at once; a query's check of the store, made before the mutex is taken, is not a condition of its admission here, so more runs are admitted.
- LifecycleRuns.StopCanEnd: as for broadcasts, time is not modelled.
- LiveService.Service.BeginDeviceStop: revoking the stream tokens of the collected sessions is not modelled.
- SsrcAllocator.Allocator.constructor: takes the five-digit part of the domain as a number; parsing the domain text is not modelled.
- AlarmLog.Log.Add: requires that the counter has not reached the largest int64, where the code would wrap.
- AlarmLog.PollingDelivers: assumes a nonempty generation without a dot.
- ChannelRegistry.Registry: the read-only `get` and `list` would only add easy members.
- DeviceQuery.Queries.HandleResponse: the extra validation and contents of preset, device info and status responses are not modelled.
- FinitePlayback: error-free decoding is a list of frames; interruption and `stop` are not modelled; the verdicts of the clocks are any values.
- AudioClock: the resampler yields any number of frames and any delay of at least zero; the floating-point rate is not modelled; device errors that mute the view are not modelled.
- DecodeQueue: the realtime video queue and its drop of the oldest frame are not modelled; the statistics counters are not proved.
- ReferenceMatch.Compare: the list of the first 20 jumps is not modelled, only their number, and the numbers of matched and unmatched units are constrained, not determined, once a jump has occurred.
- ReferenceMatch.CompareG711: rows are assumed to follow each other without gap from offset 0, as the demuxer writes them; the AAC frame splitter of the probe is not modelled.
- H264Packets: reading access units from a file, pacing and SRTP are not modelled.
- PacketHealth.AdvancedIsTrueProgress: the 64-bit counter is unbounded here, so its own wrap is not modelled.
- PsDemux.Demux: payload type, SSRC and sequence-gap reports, the PS library and the output files are not modelled.
- CapacitySearch.Search: `split_load`, the overload counts of a pass and running the workload are not modelled.
- Digest authentication, device registry, SDP and configuration parsing, talk, recording, the monitor window and the C++ media core are not modelled.
