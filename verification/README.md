# Models of the device code

A Dafny model of the parts of this device tree with the most state, and proofs about
them. `dafny verify dfyconfig.toml` verifies the whole project.

- **Camera adapter** (`CameraMetadata.dfy`, `CameraModel.dfy`, `CameraProofs.dfy`,
  `CameraTheorems.dfy`, `CameraHistory.dfy`, `Camera.dfy`). The HAL3.0 to HAL3.2 adapter as a state machine: one
  thread holds `requestMutex`, one `callbackMutex`, and a step is what a thread does while
  it holds `stateMutex` or between two calls out. The device and the client choose all
  answers, results, notifications, handles, packets and failures freely. `Camera.dfy` is the
  object with the loops of the source, each method proved equal to a step of the model.
- **Sensor multihal** (`SensorEventQueue.dfy`, `MultiHalModel.dfy`, `MultiHalProofs.dfy`,
  `MultiHal.dfy`, `HandleMaps.dfy`). The ring with its blocking writer, the round-robin
  merge, the software flush barrier and the handle maps.
- **Condition variable** (`CondVar.dfy`). `pthread_cond_wait`, `pthread_cond_signal` and
  `pthread_cond_broadcast` of IEEE Std 1003.1-2008 on a futex: the counter arithmetic, the
  object, and all interleavings.
- **PCM ring** (`PcmRing.dfy`). The boundary, the wrapped pointers in 32-bit arithmetic, and
  the transfer loop over the memory-mapped ring while the hardware moves.
- **Audio routing** (`AudioRouting.dfy`). Reference-counted paths of devices and streams.
  A 32-bit mask is the set of its bit numbers; `&`, `|` and `~` are the set operations.
- **Vendor tags** (`VendorTags.dfy`), **camera parameters** (`CameraParameters.dfy`) and the
  **unshorten accumulator** (`Unshorten.dfy`).

Each area has the same shape: functions on values that say what one operation does, an
object whose methods carry the source's loops and are proved against those functions, and
lemmas about every run.

## Contracts taken from outside

- The stock camera device's `close` returns only after its callbacks have; it calls back
  only between a successful `initialize` and `close`. The adapter clears `frames` at
  `camera/Camera3Wrapper.cpp:344` without `stateMutex` and relies on this.
- A futex wait compares and sleeps atomically; a wake wakes as many sleepers as asked for or
  as there are. Timeouts and spurious wakeups only wake.
- The PCM hardware pointer moves only over frames that are there: it is reset when it
  reaches the boundary, the application pointer only when it passes it.
- The vendor's tag functions answer the same for the same tag.
- A configuration the camera device accepts makes it forget every stream configured before
  (the comment at `camera/Camera3Wrapper.cpp:207` says so); `CameraTheorems.HeldAlive` rests
  on it.
- In the audio configuration no stream's special path is `on` where it disables or `off`
  where it enables. Nothing else is assumed of devices and paths: which bits they share and
  which paths they lack decides, in the theorems, what their counts mean.

## Where the code and its comments differ

- `libmocha/bionic/pthread_cond.cpp:13-18` says a signal is lost after UINT_MAX/2 pulses. The
  counter has 30 bits: it is lost exactly after a positive multiple of 2^30
  (`PulseCounter.CommentedCountIsSeen`, `CondProtocol.WakeupLost`).
- `camera/Camera3Wrapper.cpp:259-260` says re-registration is safe only when every earlier
  buffer has been delivered. The drain guarantees that for accepted requests; a buffer
  returned for a request the device then refuses may still be on its way to the client
  (`CameraTheorems.NothingInFlight`, `CameraTheorems.RefusedOutlivesDrain`).
- `tinyalsa/pcm.c:830` compares with `>`: a completely full ring whose application pointer
  has wrapped is reported as boundary free frames (`RingArithmetic.PlaybackAvailExactIff`).
- `configmgr/audio_config.c:607-608` takes the difference of masks with their direction bit,
  so a second route of an input stream no longer carries it (`RoutingProofs.OutputBitLeaks`,
  `RoutingProofs.OneBitExact`).
- `audio/audio.mocha.xml:53-247` gives no device an `off` path, so no count ever comes down
  (`RoutingProofs.ShippedOnlyUp`), and its headset and microphone share a bit
  (`RoutingProofs.MicrophoneStays`).
- `camera/Camera3Wrapper.cpp:244` tests `fatal` once: a request past it is still sent
  (`CameraTheorems.FatalAcceptsOne`).
- `libmocha/camera/VendorTagDescriptor.cpp:215` counts sections in 32 bits and before equal
  names merge, so a section index may be read past the end, or an empty list of sections
  end the process (`VendorTagProofs.SectionCheckExact`).
- `libmocha/camera/include/camera/CameraParameters2.h:156` tests an unsigned index for being
  negative; a missing key then asks the vector to remove an index out of range, which it
  refuses.

## Model

| member | source | states |
|---|---|---|
| CameraTheorems.StepKeeps | camera/Camera3Wrapper.cpp:116-557 | every step of a request, a callback or the device keeps the whole invariant, whatever the device and the client choose |
| CameraTheorems.RunKeeps | camera/Camera3Wrapper.cpp:116-557 | any run, from any state with the invariant, ends with it; the freshly opened adapter has it (`ReachableInv`) |
| CameraTheorems.InFlightBacked | camera/Camera3Wrapper.cpp:126-348 | in every reachable state each slot of an in-flight frame names a stream of the current set and a buffer pinned by that stream and registered with the device; so nothing a frame refers to has been dropped |
| CameraTheorems.BuffersSplit | camera/Camera3Wrapper.cpp:302-326 | `remaining` is the number of slots not given back, and what the client was or is being given is each returned slot exactly once and no other, under duplicate, reordered and unknown results |
| CameraTheorems.OutputsComeFromDevice | camera/Camera3Wrapper.cpp:474-496 | each buffer given to the client is one the device returned for that slot's stream and handle, with the device's status and fence |
| CameraTheorems.BadExactly | camera/Camera3Wrapper.cpp:482-487 | a result is bad, and makes the adapter fatal, exactly when some of its buffers could not be given back |
| CameraTheorems.FencesAccounted | camera/Camera3Wrapper.cpp:450-496 | every release fence the device handed over was forwarded, closed, or is with the one callback that took it |
| CameraTheorems.RetiredInFull | camera/Camera3Wrapper.cpp:429-437 | a request that left the table without being refused was answered in full: every slot given back exactly once, metadata and shutter done |
| CameraTheorems.NoneCompleteAtRest | camera/Camera3Wrapper.cpp:429-437 | while `callbackMutex` is free no completed frame is in `frames` |
| CameraTheorems.NothingInFlight | camera/Camera3Wrapper.cpp:247-284 | while buffers are registered or streams replaced nothing is in flight, and a callback still delivering belongs to a request the device refused |
| CameraTheorems.DrainHolds | camera/Camera3Wrapper.cpp:258-327 | from its drain on, through every registration up to building the frame, the request finds nothing in flight, whatever callbacks come in between |
| CameraTheorems.RegistrationMeets | camera/Camera3Wrapper.cpp:258-284 | from any idle open adapter with an empty table the next registration can begin while the callback goes on, and meets a delivery exactly when that is for a refused request |
| CameraTheorems.FlushExact | camera/Camera3Wrapper.cpp:329-334 | flush returns 0 exactly when nothing is in flight and the adapter is not fatal, and then every request ever accepted was refused or answered in full |
| CameraTheorems.RefusedOutlivesDrain | camera/Camera3Wrapper.cpp:258-284 | a run in which a refused request's buffer is still being delivered while the next request registers buffers: the comment at lines 259-260 does not hold for refused requests |
| CameraTheorems.SentRegistered | camera/Camera3Wrapper.cpp:307-319 | every handle in a request sent to the device is in the set last registered for its stream, and its frame number is free |
| CameraTheorems.RegisteredUnlessFatal | camera/Camera3Wrapper.cpp:263-283 | between requests each stream's pinned set is the registered one unless the adapter is fatal |
| CameraTheorems.GrallocBalanced | camera/Camera3Wrapper.cpp:49-55 | registrations less unregistrations are the live buffer references on every path, and none is left when the adapter is closed |
| CameraTheorems.HeldAlive | camera/Camera3Wrapper.cpp:184-212 | the device never holds the address of a freed stream, also after a rejected configuration, given that a configuration it accepts makes it forget the streams before |
| CameraTheorems.DevicePresent | camera/Camera3Wrapper.cpp:386-416 | a request calls the device only while it is open; without it the adapter is fatal or closing and no callback runs |
| CameraTheorems.AnsweredOnce | camera/Camera3Wrapper.cpp:459-515 | a request gets at most one final metadata or synthesized error, and the metadata is the final packet merged with the partials kept |
| CameraHistory.AnswerExact | camera/Camera3Wrapper.cpp:459-515 | over any run: the first final packet, packet without memory or error report for a request in flight settles what the client has or is owed for good, namely the metadata of that packet and of the packets sent before it, one error, or nothing |
| CameraHistory.NoAnswerYet | camera/Camera3Wrapper.cpp:459-515 | before such news the client has nothing |
| CameraHistory.AnsweredUnlessReported | camera/Camera3Wrapper.cpp:429-515 | a request that left the table without being refused got exactly one metadata or error, unless the device reported a request or result error for it |
| CameraHistory.ResultAnswers | camera/Camera3Wrapper.cpp:459-515 | one result brings an error exactly when its packet's merge fails and the metadata exactly for a final packet that merges |
| CameraHistory.FlagsExact | camera/Camera3Wrapper.cpp:466-546 | over any run a request's shutter is done exactly when a shutter or a request error came for it in flight, its metadata exactly when a final packet, a failed merge, a result error or a request error did |
| CameraHistory.NoticeMarks | camera/Camera3Wrapper.cpp:532-546 | a message for a request in flight marks its shutter and its metadata and nothing else |
| CameraHistory.LeavesTheTable | camera/Camera3Wrapper.cpp:429-437 | a request given all its buffers, the end of its metadata and its shutter is out of the table once `callbackMutex` is free |
| CameraHistory.PartialExact | camera/Camera3Wrapper.cpp:460-465 | a packet is partial exactly when its first entry of the quirk is the one value 1 |
| CameraHistory.ReturnedExact | camera/Camera3Wrapper.cpp:474-496 | every outstanding buffer a result names is given back, and no other |
| CameraHistory.SlotsOwn | camera/Camera3Wrapper.cpp:248-257 | the slots of an accepted request name different streams of the device, so a returned buffer fits one at most |
| CameraHistory.FatalExactly | camera/Camera3Wrapper.cpp:276-282 | the adapter becomes fatal exactly by a refused registration, configuration or restart, a device error, or a result with a buffer nobody waits for |
| CameraHistory.PassedOn | camera/Camera3Wrapper.cpp:525-557 | a message is passed on as it is, the stream of an error as the client's stream at that address |
| CameraHistory.NewFrameExact | camera/Camera3Wrapper.cpp:302-313 | an accepted request owes every buffer asked for, each in its stream |
| CameraHistory.PrimedExactly | camera/Camera3Wrapper.cpp:285-301 | a request without settings needs one with settings built since the streams were last replaced |
| CameraHistory.ClosedRefuses | camera/Camera3Wrapper.cpp:241-246 | a fatal, closing or uninitialized adapter takes no request and no configuration |
| CameraHistory.RestartExact | camera/Camera3Wrapper.cpp:166-182 | an accepted configuration restarts the device exactly when there were streams and some size is asked for only by the old or only by the new ones |
| CameraHistory.CountsExact | camera/Camera3Wrapper.cpp:140-158 | the limits of a configuration count the places of processed and of JPEG streams in its list |
| CameraHistory.TemplateServed | camera/Camera3Wrapper.cpp:217-236 | the first template of a kind is the one served from then on |
| CameraTheorems.ErrorStreamExact | camera/Camera3Wrapper.cpp:547-551 | an error's stream is translated to the client stream with that address and to no other |
| CameraTheorems.PhasesGoOn | camera/Camera3Wrapper.cpp:116-557 | unless both mutexes are free a next step can be taken: the callback's if there is one, else the request's, in every phase from configuring to closing |
| CameraTheorems.WorkFalls | camera/Camera3Wrapper.cpp:116-427 | every step of a request, of a configuration, a flush or a close brings its end nearer and no callback puts it off, whatever the device answers |
| CameraTheorems.TemplatesStable | camera/Camera3Wrapper.cpp:217-236 | a template once handed out stays what it was over any run, restarts of the device included |
| CameraTheorems.FatalIsFinal | camera/Camera3Wrapper.cpp:241-327 | once fatal the adapter stays so and accepts no request but the one that is past the test at line 244 and its drain, if there is one |
| CameraTheorems.OwedIsPaid | camera/Camera3Wrapper.cpp:262-327 | that one is accepted whenever the answers it gets are good, so the bound is exact |
| CameraTheorems.FatalAcceptsOne | camera/Camera3Wrapper.cpp:241-319 | a run in which the adapter becomes fatal between the test and the submission and the request goes out |
| CameraTheorems.GeometryIgnores | camera/Camera3Wrapper.cpp:72-88 | one more stream changes the geometry that decides about a restart exactly when it is processed, no encoder's, and of a new size |
| Camera3Wrapper.Camera.constructor | camera/Camera3Wrapper.cpp:109-114 | the freshly opened adapter |
| Camera3Wrapper.FindSlot | camera/Camera3Wrapper.cpp:476-481 | the first outstanding slot with the returned buffer's stream and handle, if there is one |
| Camera3Wrapper.TakeBuffers | camera/Camera3Wrapper.cpp:474-496 | the buffer loop gives back and rejects what the model's recursion does |
| Camera3Wrapper.CheckBuffers | camera/Camera3Wrapper.cpp:249-257 | accepts exactly the requests whose streams are known and distinct and whose handles are not null, and reports whether a buffer is new |
| Camera3Wrapper.CheckStreams | camera/Camera3Wrapper.cpp:140-158 | accepts exactly the supported lists (sizes set, formats allowed, at most three processed and one JPEG, none twice) and gives each stream a fresh record |
| Camera3Wrapper.Camera.BeginCapture | camera/Camera3Wrapper.cpp:238-258 | which requests are refused, and what the others go on with |
| Camera3Wrapper.Camera.Drain | camera/Camera3Wrapper.cpp:418-427 | 0 exactly when nothing is in flight and the adapter is not fatal; otherwise ENODEV or the timeout |
| Camera3Wrapper.Camera.EndFlush | camera/Camera3Wrapper.cpp:329-334 | flush has drain's answer |
| Camera3Wrapper.Camera.PinNext | camera/Camera3Wrapper.cpp:263-273 | one turn of the registration loop up to the call into the device, with gralloc's error or ENOMEM |
| Camera3Wrapper.Camera.EndLink | camera/Camera3Wrapper.cpp:276-282 | the device's answer: the registered set is renewed, or the adapter is fatal |
| Camera3Wrapper.Camera.RegisterOne | camera/Camera3Wrapper.cpp:263-283 | one turn with its answer, and the first error in it |
| Camera3Wrapper.Camera.RegisterBuffers | camera/Camera3Wrapper.cpp:262-284 | the loop is a run of the adapter that keeps the whole invariant (references balanced, pins registered unless fatal); it ends well exactly when each buffer was already pinned or gralloc, the allocator and the device accept it, and otherwise with the error of the first that is not |
| Camera3Wrapper.TurnGoes | camera/Camera3Wrapper.cpp:263-283 | a turn goes on exactly when its buffer was pinned from the start or everybody accepts it; the remaining slots' streams are untouched |
| Camera3Wrapper.PreparedWhen | camera/Camera3Wrapper.cpp:238-261 | what the checks and the drain find settles whether the frame can be built; buffers to register belong to distinct streams |
| Camera3Wrapper.Camera.Prepare | camera/Camera3Wrapper.cpp:238-284 | when no callback comes in between, the frame is reached exactly when the adapter is open, the number is unused, the buffers are usable, new buffers find nothing in flight, and each is accepted; the invariant is kept on every path |
| Camera3Wrapper.EnteredExact | camera/Camera3Wrapper.cpp:285-326 | when no callback comes in between, the frame joins the table exactly when the settings allow it and the device takes it; otherwise the table is as before, and the whole is a run that keeps the invariant |
| Camera3Wrapper.Camera.Enter | camera/Camera3Wrapper.cpp:285-326 | what the model says of building and submitting, with the error of the settings or the device's answer |
| Camera3Wrapper.Camera.CaptureAlone | camera/Camera3Wrapper.cpp:238-327 | a whole `capture` into which no callback comes: 0 exactly when the listed conditions hold, with one new frame owing every buffer; on error the table is as before; every path is a run that keeps the invariant (with callbacks in between: `CameraTheorems`) |
| Camera3Wrapper.Camera.Build | camera/Camera3Wrapper.cpp:285-318 | the frame put in flight, or the refusal |
| Camera3Wrapper.Camera.EndSubmit | camera/Camera3Wrapper.cpp:319-326 | a refused request leaves the table |
| Camera3Wrapper.Camera.Result | camera/Camera3Wrapper.cpp:443-497 | the locked part of a result, unknown frames included |
| Camera3Wrapper.Camera.TakeResult | camera/Camera3Wrapper.cpp:458-496 | the metadata and the buffers of a result for a frame in flight |
| Camera3Wrapper.Camera.Mark | camera/Camera3Wrapper.cpp:532-546 | what a shutter or an error marks done in a frame in flight |
| Camera3Wrapper.Camera.Deliver | camera/Camera3Wrapper.cpp:498-515 | what the client is given |
| Camera3Wrapper.Camera.Retire | camera/Camera3Wrapper.cpp:429-437 | a frame leaves the table exactly when it is complete |
| Camera3Wrapper.Camera.ConvertStream | camera/Camera3Wrapper.cpp:547-551 | the client's stream of an address |
| Camera3Wrapper.Camera.Notify | camera/Camera3Wrapper.cpp:525-555 | the locked part of a notification and the message passed on |
| Camera3Wrapper.Camera.BeginConfigure | camera/Camera3Wrapper.cpp:126-170 | which configurations are refused, and whether the device is restarted |
| Camera3Wrapper.Camera.EndReopen | camera/Camera3Wrapper.cpp:170-180 | a restart that fails keeps the new streams and makes the adapter fatal |
| Camera3Wrapper.Camera.EndConfigure | camera/Camera3Wrapper.cpp:184-193 | a rejected configuration keeps the new streams and makes the adapter fatal |
| Camera3Wrapper.Camera.Swap | camera/Camera3Wrapper.cpp:207-214 | the new streams take over |
| Camera3Wrapper.Camera.ReleaseAll | camera/Camera3Wrapper.cpp:49-55 | the destructors unregister each pinned buffer exactly once |
| Camera3Wrapper.Camera.EndClose | camera/Camera3Wrapper.cpp:336-348 | frames go before the streams they refer to |
| ResultMetadata.DeliveredMetadata | camera/LegacyMetadata.cpp:198-218 | for every tag the client sees the last word of the final packet followed by the partial packets in arrival order, except the quirk (absent) and the two fixed tags |
| ResultMetadata.MergeLatest | camera/LegacyMetadata.cpp:198-206 | merging a packet is the last entry of each tag over what was there |
| ResultMetadata.OverlayLatest | camera/LegacyMetadata.cpp:198-206 | merging packets one after another is the last word over all of them |
| ResultMetadata.CameraMetadata.Update | camera/LegacyMetadata.cpp:34-42 | one entry a tag; an update without memory changes nothing |
| ResultMetadata.CameraMetadata.Erase | camera/LegacyMetadata.cpp:214 | the tag is gone and nothing else |
| ResultMetadata.MergeMetadata | camera/LegacyMetadata.cpp:198-206 | fails exactly when an entry cannot be read or memory runs out, with the entries before that merged; otherwise the merge |
| ResultMetadata.FinishResult | camera/LegacyMetadata.cpp:208-218 | succeeds exactly when the partials can be read and memory suffices, and is then the partials over the result without the quirk plus the two fixed values |
| MultiHalProofs.StepKeeps | sensors/multihal.cpp:345-469 | hand-over, publication, flush requests, activation and poll passes keep the invariant |
| MultiHalProofs.Conservation | sensors/multihal.cpp:143-178 | what a module handed to `write` is what was dequeued, then the ring, then the staged rest, in order |
| MultiHalProofs.DeliversTaken | sensors/multihal.cpp:345-439 | in every reachable state what the caller has got is an interleaving, in order, of each module's dequeued events as `Seen` has them (a reading with its payload under the global handle of its module and local handle, nothing for one without; a meta-data event about its target's global handle or -1) and of the completions, meta-data event 1 about the flushed sensor |
| MultiHalProofs.ShownIsSeen | sensors/multihal.cpp:345-365 | the translation of one event and its dropping are what `Seen` says |
| MultiHalProofs.FlushOnBarrier | sensors/multihal.cpp:367-384 | each completion stands in the merged stream after exactly the events its module had handed over when the flush was accepted, staged ones included, and before any later one |
| MultiHalProofs.FlushOnce | sensors/multihal.cpp:450-469 | each accepted flush is pending or completed, and once only |
| MultiHalProofs.RequestExact | sensors/multihal.cpp:450-469 | exactly flushes of sensors that are known, active and do not report once only are accepted, for the sensor's module and all it has handed over; a refused one changes nothing |
| MultiHalProofs.FlushesProper | sensors/multihal.cpp:450-469 | over every run each flush, pending or completed, is one of a sensor of its module |
| MultiHalProofs.ActivateExact | sensors/multihal.cpp:316-323 | the framework's word on a sensor changes its activity and nothing else |
| MultiHalProofs.ReadyIsExact | sensors/multihal.cpp:367-384 | a flush that is ready has got exactly what it was promised, no event more |
| MultiHalProofs.BlocksOnlyIdle | sensors/multihal.cpp:424-433 | a pass returns nothing, and poll waits, only when every ring is empty and no flush is ready; each flush still pending then waits for events its module's writer has staged |
| MultiHalProofs.PassReturns | sensors/multihal.cpp:386-439 | a pass returns as many events as it adds to what the caller has seen, at most as many as asked for |
| MultiHalProofs.NoStarvation | sensors/multihal.cpp:398-423 | while a ring keeps an event unserved at most queueCount - 1 events are dequeued from other rings, across calls |
| MultiHalProofs.OneShotDisarmed | sensors/multihal.cpp:412-418 | over any run in which the framework leaves a sensor alone it stays as active as it was, except that a one-shot sensor is inactive from its first delivered event on |
| MultiHal.PollContext.Complete | sensors/multihal.cpp:374-381 | the completion written to the caller's buffer and the flush removed |
| MultiHal.PollContext.EmitReadyFlushes | sensors/multihal.cpp:367-384 | the loop completes what the model does and writes it to the caller's buffer in order |
| MultiHal.PollContext.LookNext | sensors/multihal.cpp:403-422 | one look at the next queue: translation, dropping, one-shot deactivation, dequeue and count |
| MultiHal.PollContext.Copy | sensors/multihal.cpp:345-365 | the event with its handle looked up in the next place of the caller's buffer, which counts only if its sensor field is not -1 |
| MultiHal.PollContext.Take | sensors/multihal.cpp:419-420 | the first event of the queue is dequeued and counted |
| MultiHal.PollContext.ScanOnce | sensors/multihal.cpp:398-423 | one turn of the scan: progress by ring sizes or by empty queues |
| MultiHal.PollContext.ScanQueues | sensors/multihal.cpp:398-423 | the scan ends (ring sizes, then queues not yet seen empty) and does what the model's scan does |
| MultiHal.PollContext.PollTurn | sensors/multihal.cpp:397-424 | one turn of the outer loop is the model's pass, whose events stand in the caller's buffer in order |
| MultiHal.PollContext.Arrive | sensors/multihal.cpp:143-178 | what another thread does while poll waits is the model's step |
| MultiHal.PollContext.Poll | sensors/multihal.cpp:386-439 | an error without a buffer, without queues or for a count that is not positive; otherwise, however often it waits and whatever comes in meanwhile, the events in the caller's buffer complete the interleaving of all modules' dequeued events, at most as many as asked for, and it sleeps only with every ring empty and no flush ready |
| MultiHal.PollContext.Flush | sensors/multihal.cpp:450-469 | which flushes are refused, and the barrier of the others |
| HandleMaps.HandleTable.AssignGlobalHandle | sensors/multihal.cpp:92-100 | handles are given out in order from 1 |
| HandleMaps.HandleTable.GetLocalHandle | sensors/multihal.cpp:103-109 | the local handle, or -1 |
| HandleMaps.HandleTable.GetModuleIndex | sensors/multihal.cpp:113-122 | the module, or -1 |
| HandleMaps.HandleTable.GetGlobalHandle | sensors/multihal.cpp:125-134 | the latest global handle, or -1 |
| HandleMaps.HandleTable.InverseExact | sensors/multihal.cpp:88-100 | the two maps are inverse to each other exactly when no handle was assigned twice |
| HandleMaps.HandleTable.ReadingsByTable | sensors/multihal.cpp:125-134 | with these maps the caller gets a reading under the global handle its sensor was given last, and nothing if none; a global handle leads to the module it was given for |
| SensorQueue.SensorEventQueue.GetWritableRegion | sensors/SensorEventQueue.cpp:41-61 | nothing when full; otherwise the first free slot and as many as fit before the array's end and the readable region, all free |
| SensorQueue.SensorEventQueue.constructor | sensors/SensorEventQueue.cpp:25-33 | an empty ring |
| SensorQueue.SensorEventQueue.BeginWrite | sensors/SensorEventQueue.cpp:69 | the batch is handed over, none of it in the ring |
| SensorQueue.SensorEventQueue.MarkAsWritten | sensors/SensorEventQueue.cpp:63-65 | the readable region grows |
| SensorQueue.SensorEventQueue.WriteChunk | sensors/SensorEventQueue.cpp:71-78 | one chunk moves from the batch to the end of the ring, in order |
| SensorQueue.SensorEventQueue.WaitForSpace | sensors/SensorEventQueue.cpp:105-112 | waits exactly when full |
| SensorQueue.SensorEventQueue.Write | sensors/SensorEventQueue.cpp:67-80 | the batch ends up in the ring in order, or the writer is blocked with the ring full and the rest staged; handed = dequeued + ring + staged throughout |
| SensorQueue.SensorEventQueue.Peek | sensors/SensorEventQueue.cpp:90-93 | the first readable record |
| SensorQueue.SensorEventQueue.Dequeue | sensors/SensorEventQueue.cpp:95-102 | removes the first readable record, or nothing |
| SensorQueue.SensorEventQueue.GetPendingSize | sensors/SensorEventQueue.cpp:86-88 | handed over minus dequeued |
| SensorEvents.ReadableGrows | sensors/SensorEventQueue.cpp:63-80 | writing at the free end appends to the readable records, across the wrap |
| SensorEvents.ReadableRest | sensors/SensorEventQueue.cpp:95-102 | advancing the start drops the first readable record, across the wrap |
| PulseCounter.SameWordIff | libmocha/bionic/pthread_cond.cpp:142-147 | two moments show the same word exactly when a multiple of 2^30 pulses lies between them |
| PulseCounter.FlagsSurvive | libmocha/bionic/pthread_cond.cpp:135-136 | the flag bits survive every pulse, also the one on which the counter overflows |
| PulseCounter.CommentedCountIsSeen | libmocha/bionic/pthread_cond.cpp:13-18 | the count in the comment (UINT_MAX/2 pulses) is noticed; 2^30 pulses are not |
| PthreadCondition.PthreadCond.Pulse | libmocha/bionic/pthread_cond.cpp:125-140 | one step of the counter, and as many sleepers woken as asked for or as there are |
| PthreadCondition.PthreadCond.constructor | libmocha/bionic/pthread_cond.cpp:104-114 | only the flags of the attribute are kept |
| PthreadCondition.PthreadCond.FutexWake | libmocha/private/bionic_futex.h:31-41 | as many sleepers as asked for or as there are |
| PthreadCondition.PthreadCond.FutexWait | libmocha/private/bionic_futex.h:31-41 | sleeps exactly when the word is still the one expected |
| PthreadCondition.PthreadCond.Signal | libmocha/bionic/pthread_cond.cpp:175-177 | one sleeper woken if there is any |
| PthreadCondition.PthreadCond.Broadcast | libmocha/bionic/pthread_cond.cpp:171-173 | as many sleepers woken as one wake can name, all of them if there are at most INT_MAX |
| PthreadCondition.PthreadCond.Wait | libmocha/bionic/pthread_cond.cpp:142-154 | blocks exactly when the signals and broadcasts between sample and futex wait are a multiple of 2^30 in number; of the other sleepers as many are left as these pulses leave |
| CondProtocol.SleepsIff | libmocha/bionic/pthread_cond.cpp:142-147 | in every reachable state a waiter entering the futex sleeps exactly when the pulses since its sample are a multiple of 2^30 |
| CondProtocol.MutualExclusion | libmocha/bionic/pthread_cond.cpp:142-154 | at most one thread has the mutex |
| CondProtocol.BroadcastWakesAll | libmocha/bionic/pthread_cond.cpp:171-173 | a broadcast leaves no thread asleep |
| CondProtocol.SignalWakesOne | libmocha/bionic/pthread_cond.cpp:175-177 | a signal wakes one sleeper if there is any |
| CondProtocol.NoLostWakeup | libmocha/bionic/pthread_cond.cpp:125-154 | no lost wakeup in any run where each waiter reaches the futex before 2^30 pulses and whoever sets the flag broadcasts: once the flag is set and its broadcast over, no waiter for it sleeps or will |
| CondProtocol.SignalFreesOne | libmocha/bionic/pthread_cond.cpp:125-154 | a signal is not lost either: with the flag set, between its pulse and the end of its wake some thread of those that were waiting is woken or past its wait, or bound to see that the word has moved on |
| CondProtocol.FreedStaysAwake | libmocha/bionic/pthread_cond.cpp:142-154 | bound to see it means it does not sleep when it enters the futex before 2^30 pulses |
| CondProtocol.WakeupLost | libmocha/bionic/pthread_cond.cpp:13-18 | for every positive multiple of 2^30 a run in which the wakeup is lost |
| PcmRing.Boundary | tinyalsa/pcm.c:740-743 | the loop ends; the boundary is the buffer size times a power of two, as large as its test allows, and in range exactly when the buffer size is at most INT_MAX/2 |
| RingArithmetic.CaptureAvailExact | tinyalsa/pcm.c:836-842 | capture avail on wrapped pointers is the difference of the unbounded counters |
| RingArithmetic.PlaybackAvailExactIff | tinyalsa/pcm.c:822-834 | playback avail is the true free space exactly when the ring is not full or the pointers have not parted; otherwise it is the boundary |
| RingArithmetic.PlaybackAvailOverReports | tinyalsa/pcm.c:830 | a full ring whose pointer just wrapped is reported as boundary frames free |
| RingArithmetic.ForwardFollows | tinyalsa/pcm.c:853-862 | the application pointer follows its counter, though it may rest at boundary |
| RingArithmetic.SlotOfSlot | tinyalsa/pcm.c:873 | a pointer wrapped at boundary keeps its ring slot |
| PcmRing.Pcm.Avail | tinyalsa/pcm.c:844-851 | exact exactly when the count is, for either direction |
| PcmRing.Pcm.constructor | tinyalsa/pcm.c:740-743 | both pointers at 0 and a boundary larger than the buffer |
| PcmRing.Pcm.Sync | tinyalsa/pcm.c:844-851 | the hardware samples or plays frames that are there and wraps its pointer at the boundary |
| PcmRing.Pcm.Begin | tinyalsa/pcm.c:864-889 | the ring offset of the application counter and how much can be copied without a split |
| PcmRing.Pcm.CopyOut | tinyalsa/pcm.c:303-321 | the next frames of the stream are copied to the caller's buffer and nothing else changes there |
| PcmRing.Pcm.CopyIn | tinyalsa/pcm.c:303-321 | the caller's frames go to their ring slots and no other slot changes |
| PcmRing.Pcm.Commit | tinyalsa/pcm.c:891-898 | the application counter advances and no available frame is lost while the hardware moves |
| PcmRing.Pcm.TransferRun | tinyalsa/pcm.c:331-342 | one pass moves the frames up to the request or the ring's end |
| PcmRing.Pcm.TransferAreas | tinyalsa/pcm.c:323-345 | ends in at most two passes and moves exactly the requested frames in order, splitting at the ring's end, touching nothing else, however the hardware moves meanwhile |
| RoutingProofs.HitsCounted | configmgr/audio_config.c:487-640 | over any run, balanced or not, of any configuration: a device's count is the enabling walks that met it if it has an `on` path, less the disabling ones if it has an `off` path, and it is switched on once while the count is positive |
| RoutingProofs.NeverOff | configmgr/audio_config.c:487-515 | without an `off` path a count is the number of enabling walks ever, and `on` reaches the mixer once, with the first |
| RoutingProofs.ShippedOnlyUp | audio/audio.mocha.xml:53-247 | with the tree's configuration file no count ever comes down and no `on` path is applied twice |
| RoutingProofs.MicrophoneStays | configmgr/audio_config.c:607-608 | with its devices, recording that moves from the microphone to the headset's walks over the headset instead, and no path of the microphone is applied |
| RoutingProofs.FirePathLevel | configmgr/audio_config.c:487-515 | `on` reaches the mixer exactly when the count was not positive, `off` exactly when it was at most 1, and on-less-off applied is the count or 1 |
| RoutingProofs.ApplyByIdChanges | configmgr/audio_config.c:517-550 | each of the two paths moves the count once if the device has it, in whatever order they are found |
| RoutingProofs.RouteFires | configmgr/audio_config.c:601-640 | a route fires the stream's disable path, then `off`, on the devices the walk over the bits that go serves, and `on`, then the enable path, on those the walk over the bits that come serves; of special paths exactly these, on devices that have them |
| RoutingProofs.OpenFires | configmgr/audio_config.c:718-730 | the first open fires `on`, then the enable path, on the global device, and no other special path |
| RoutingProofs.ReleaseFires | configmgr/audio_config.c:812-829 | the last release fires `off`, then the disable path, on the devices of the route, and the disable path, then `off`, on the global device |
| RoutingProofs.RouteStreams | configmgr/audio_config.c:601-640 | a route against the stream's direction changes nothing, any other sets the stream's mask to the bits its direction allows and no other stream |
| RoutingProofs.OpenStreams | configmgr/audio_config.c:718-730 | a stream opens exactly below its limit and has one more reference; only the first open touches a device |
| RoutingProofs.ReleaseStreams | configmgr/audio_config.c:812-829 | one reference less; only the last release touches a device and ends the route |
| RoutingProofs.WalkServes | configmgr/audio_config.c:552-575 | a walk serves exactly the devices that are the first of their direction to hold some bit of the mask, however bits are shared |
| RoutingProofs.RouteExact | configmgr/audio_config.c:601-640 | a route keeps every count right exactly when the walks over the changed bits meet each device as walks over the old and new masks would differ |
| RoutingProofs.RouteOnMasks | configmgr/audio_config.c:601-640 | for a stream routed in its own direction so far, when a route fits, on the old mask, the new one and what is kept of it alone |
| RoutingProofs.OneBitExact | configmgr/audio_config.c:601-640 | for a device with one bit: an input stream that goes on to another route keeps it in step exactly when a bit that stays is kept or reaches no input, one that goes finds the device first among inputs as among all, and one that comes does so and is kept; any other route exactly when a bit that reaches the device is kept |
| RoutingProofs.ManyBitsExact | configmgr/audio_config.c:601-640 | an output stream keeps a device of any bits in step exactly when, if bits kept reach it, the old route had none of its bits, or the same, or each route some the other lacks, and otherwise if the new route only took bits away |
| RoutingProofs.InputExact | configmgr/audio_config.c:601-640 | an input stream that goes on to another route keeps a device of any bits in step exactly when the bits for which inputs meet it first come and go as those for which all devices do |
| RoutingProofs.SettledExact | configmgr/audio_config.c:601-640 | a first route keeps a device in step exactly when the bits kept still reach it if any did, the end of all routes always |
| RoutingProofs.SettledFits | configmgr/audio_config.c:601-640 | when no bit is masked off a stream's first route and the end of its routes fit |
| RoutingProofs.OutputBitLeaks | configmgr/audio_config.c:607-608 | an input stream that adds a bit first held by an output device enables that device, and the end of the route does not disable it |
| RoutingProofs.OpenKeeps | configmgr/audio_config.c:718-730 | only the first open of a stream uses the global device |
| RoutingProofs.ReleaseKeeps | configmgr/audio_config.c:812-829 | the last release ends the stream's routes and the global device's use |
| RoutingProofs.CountsHold | configmgr/audio_config.c:487-640 | after any run of fitting routes and balanced opens and releases each device with both paths counts its users and is on exactly while it has some |
| RoutingProofs.PlainCounts | configmgr/audio_config.c:487-640 | with one bit a device, none shared, and routes to declared devices only, that count is the number of streams routed to the device |
| RoutingProofs.GlobalCounts | configmgr/audio_config.c:577-592 | the global device counts the open streams |
| AudioRouting.ConfigMgr.ApplyDevicePath | configmgr/audio_config.c:487-515 | the reference-counted application of one path |
| AudioRouting.ConfigMgr.ApplyPathsById | configmgr/audio_config.c:517-550 | the single walk finds both paths as the model does |
| AudioRouting.ConfigMgr.ApplyPathsToDevices | configmgr/audio_config.c:552-575 | the walk over the devices, bits served once |
| AudioRouting.ConfigMgr.ApplyPathsToGlobal | configmgr/audio_config.c:577-592 | the first global device |
| AudioRouting.ConfigMgr.ApplyRoute | configmgr/audio_config.c:601-640 | the new counts and the stream's mask, or a refused direction |
| AudioRouting.ConfigMgr.OpenStream | configmgr/audio_config.c:718-730 | one more reference, up to the maximum |
| AudioRouting.ConfigMgr.GetStream | configmgr/audio_config.c:732-771 | opens the last stream of the type with a reference to spare |
| AudioRouting.ConfigMgr.ReleaseStream | configmgr/audio_config.c:812-829 | one reference less, and at zero the routes end |
| VendorTagProofs.WireRoundTrip | libmocha/camera/VendorTagDescriptor.cpp:139-250 | a descriptor built from the vendor's functions comes back from its wire form with every map, the sections and the reverse index |
| VendorTagProofs.ReturnsExact | libmocha/camera/VendorTagDescriptor.cpp:139-325 | any descriptor comes back unchanged exactly when it counts its tags, each tag is valid and has its section, the sections are sorted and named, and the reverse index answers each pair with the greatest tag that bears it |
| VendorTagProofs.ParcelLookup | libmocha/camera/VendorTagDescriptor.cpp:235-246 | after any parcel is read, repeated tags included, lookupTag answers with a tag that has the name and section in the forward maps, and fails exactly when none has |
| VendorTagProofs.BuildExact | libmocha/camera/VendorTagDescriptor.cpp:58-137 | a descriptor is built exactly when the vendor's number, name, section and type of every tag are usable, and it has of each tag the name, the type and the section the vendor gave |
| VendorTagProofs.SectionsExact | libmocha/camera/VendorTagDescriptor.cpp:58-137 | its sections are those of the tags, sorted, once each |
| VendorTagProofs.LookupExact | libmocha/camera/VendorTagDescriptor.cpp:331-348 | lookupTag undoes getTagName and getSectionName for every tag exactly when no two tags share a section and a name |
| VendorTagProofs.ReverseExact | libmocha/camera/VendorTagDescriptor.cpp:126-132 | the reverse index holds exactly the tags' (section, name) pairs |
| VendorTagProofs.ReverseSame | libmocha/camera/VendorTagDescriptor.cpp:235-246 | its content does not depend on the order of the tags |
| VendorTagProofs.WireLayout | libmocha/camera/VendorTagDescriptor.cpp:291-325 | the wire form token by token: the count; per tag its number, type, name and section index; the number of sections and they, if any |
| VendorTagProofs.TagsAscend | libmocha/camera/VendorTagDescriptor.cpp:301-314 | the tags on the wire are those of the descriptor, ascending |
| VendorTagProofs.SortedAllSame | libmocha/camera/VendorTagDescriptor.cpp:222-230 | re-adding sections in order keeps their indices |
| VendorTagProofs.SectionCheckExact | libmocha/camera/VendorTagDescriptor.cpp:206-238 | a section index is read past the end exactly when the count test passes, there is a section, and some tag's final index is not below the number of different names; the process aborts exactly when an index of 2^32 - 1 lets a count of 0 pass |
| VendorTagProofs.WrappedIndexExact | libmocha/camera/VendorTagDescriptor.cpp:206-238 | with distinct section names only an index of 2^32 - 1, whose needed number wraps to 0, gets past the test, and with distinct tags every such parcel with a section is read past the end |
| VendorTagIndex.Collect | libmocha/camera/VendorTagDescriptor.cpp:84-113 | names, types and sorted sections, or an error exactly when some tag is invalid |
| VendorTagIndex.Index | libmocha/camera/VendorTagDescriptor.cpp:117-133 | section indices and the reverse index |
| VendorTagIndex.ReadAll | libmocha/camera/VendorTagDescriptor.cpp:166-203 | the entries of a parcel, or the first error |
| VendorTagIndex.WriteEntries | libmocha/camera/VendorTagDescriptor.cpp:302-314 | the entries in ascending order of tags |
| VendorTagIndex.VendorTagDescriptor.CreateDescriptorFromOps | libmocha/camera/VendorTagDescriptor.cpp:58-137 | the descriptor, or BAD_VALUE with nothing changed |
| VendorTagIndex.ReverseAll | libmocha/camera/VendorTagDescriptor.cpp:235-246 | the reverse mapping of every tag read, with the section and name the maps ended up with, unless an index is out of range |
| VendorTagIndex.VendorTagDescriptor.FromParcel | libmocha/camera/VendorTagDescriptor.cpp:139-250 | the descriptor read, or the error, or that a section index is read past the end or the process aborts |
| VendorTagIndex.VendorTagDescriptor.WriteToParcel | libmocha/camera/VendorTagDescriptor.cpp:291-325 | the wire form, tags ascending |
| VendorTagIndex.VendorTagDescriptor.Lookup | libmocha/camera/VendorTagDescriptor.cpp:331-348 | the tag of a name in a section, or an error |
| VendorTagIndex.VendorTagDescriptor.GetTagCount | libmocha/camera/VendorTagDescriptor.cpp:252-258 | the number of tags, or an error for none |
| VendorTagIndex.VendorTagDescriptor.GetTagName | libmocha/camera/VendorTagDescriptor.cpp:275-281 | the name, or an error |
| VendorTagIndex.VendorTagDescriptor.GetTagType | libmocha/camera/VendorTagDescriptor.cpp:283-289 | the type, or an error |
| VendorTagIndex.VendorTagDescriptor.GetSectionName | libmocha/camera/VendorTagDescriptor.cpp:267-273 | the section's name, or an error |
| ParameterText.RoundTripExact | libmocha/camera/CameraParameters2.cpp:37-89 | parsing what was printed gives the list back exactly when keys have no '=' and values no ';' |
| ParameterText.Normalizes | libmocha/camera/CameraParameters2.cpp:37-89 | on every string parsing, printing and parsing again changes nothing more |
| ParameterText.UnflattenClean | libmocha/camera/CameraParameters2.cpp:59-89 | whatever is parsed has keys without '=' and values without ';' |
| ParameterText.FlattenJoins | libmocha/camera/CameraParameters2.cpp:37-57 | the text is the items, key, '=' and value, with ';' between them |
| ParameterOrder.AcceptedExact | libmocha/camera/CameraParameters2.cpp:92-108 | set() refuses exactly keys and values in which '=' or ';' occurs |
| ParameterOrder.RunInOrder | libmocha/camera/include/camera/CameraParameters2.h:115-185 | from empty, after any sets and removals the list holds exactly the keys that are set by an allowed set(), once each, with their last values, in the order of last setting |
| ParameterOrder.OrderReported | libmocha/camera/CameraParameters2.cpp:149-177 | compareSetOrder reports which key was set last, and NAME_NOT_FOUND exactly for keys not set |
| ParameterOrder.RunRoundTrip | libmocha/camera/CameraParameters2.cpp:37-89 | the text form carries everything that was set, in order |
| CameraParameters2.OrderedKeyedVector.IndexOfKey | libmocha/camera/include/camera/CameraParameters2.h:142-151 | the first place of a key |
| CameraParameters2.OrderedKeyedVector.RemoveKey | libmocha/camera/include/camera/CameraParameters2.h:153-161 | the first entry of a key goes; a missing key changes nothing |
| CameraParameters2.OrderedKeyedVector.ReplaceValueFor | libmocha/camera/include/camera/CameraParameters2.h:168-171 | the key moves to the end |
| CameraParameters2.Parameters.FlattenAll | libmocha/camera/CameraParameters2.cpp:37-57 | the loop prints the text form |
| CameraParameters2.Parameters.UnflattenAll | libmocha/camera/CameraParameters2.cpp:59-89 | the loop parses it |
| CameraParameters2.Parameters.ParseOne | libmocha/camera/CameraParameters2.cpp:66-88 | one turn: the next parameter and the text after it |
| CameraParameters2.Parameters.Set | libmocha/camera/CameraParameters2.cpp:92-108 | keys and values with '=' or ';' are refused, others move to the end |
| CameraParameters2.Parameters.Remove | libmocha/camera/CameraParameters2.cpp:179-182 | the first entry of the key goes |
| CameraParameters2.Parameters.CompareOrder | libmocha/camera/CameraParameters2.cpp:149-177 | the codes and the order |
| Unshorten.NothingLostExact | audio/audio_hw.c:1579-1656 | over any sequence of read sizes what was decoded is what was delivered followed by the accumulator exactly when no read meets a block longer than what is left to read and the accumulator together |
| Unshorten.NothingLost | audio/audio_hw.c:1579-1656 | with blocks no larger than the accumulator nothing is lost, repeated or reordered |
| Unshorten.ReadConserves | audio/audio_hw.c:1579-1656 | one read: what the accumulator held and was decoded is given, kept or counted as lost |
| Unshorten.ReadWhole | audio/audio_hw.c:1580-1656 | a read returns less than was asked for only at the end of the input, stops decoding once it is full, and decodes nothing while the accumulator suffices |
| Unshorten.LoopPrefix | audio/audio_hw.c:1607-1648 | what is given and kept is the beginning of what was decoded, and bytes are lost only with the accumulator full |
| Unshorten.Stream.Drain | audio/audio_hw.c:1593-1605 | as much of the accumulator as the read takes |
| Unshorten.Stream.Turn | audio/audio_hw.c:1607-1648 | one turn of the decoder loop: what it gives, what it keeps, and whether the loop ends |
| Unshorten.Stream.Append | audio/audio_hw.c:1618-1621 | a block that fits goes to the reader whole |
| Unshorten.Stream.Split | audio/audio_hw.c:1622-1634 | the head of a block to the reader, the rest that fits to the accumulator |
| Unshorten.Stream.ReadInto | audio/audio_hw.c:1580-1656 | the whole read: bytes delivered, bytes kept, decoder turns taken |

## Left out

- Camera request normalization and the deprecated trigger ids: a request's settings are
  accepted or refused by a free choice, and the ids do not appear.
- The metadata of a packet whose merge ran out of memory: the frame's partials keep their
  last complete value, and are never read again.
- Frames as objects shared by pointers: `Camera3Wrapper.Camera` keeps them in one sequence
  that `frames` points into.
- Allocation failures of streams while a configuration is checked: they change nothing.
- `dump`, the opening of the device by name, and the 32-bit layout of the stock result.
- Pthread timeouts: a wait that times out only leaves the queue.
- MultiHal.PollContext.Poll: what other threads do in its waits is a list given beforehand; all interleavings are those of the model.
- MultiHal.PollContext: holds each queue by its contents; the ring object itself is SensorQueue.SensorEventQueue, proved against the same contents.
- Sub-HAL loading, activation calls into sub-modules, delays and batching of sensors.
- PcmRing.Pcm.TransferAreas: for sizes up to the frames available; beyond them the source's loop turns until the hardware moves.
- PcmRing.Pcm.constructor: for buffers up to INT_MAX/3 frames, exactly those whose boundary is larger than the buffer (PcmRing.Boundary).
- The ioctl, the error returns of the kernel and the copying variants of PCM transfer.
- The mixer controls a path sets, volumes and use cases of the audio configuration.
- Parcel tokens of the wrong kind: a read of the wrong kind is an error here, not a
  reinterpretation of bytes.
- What a read past the end of the sections finds: it is the outcome `OutOfRange` here, and
  the end of the process the outcome `Aborted`; memory for the sections suffices.
- CameraTheorems.HeldAlive: takes from the device that an accepted configuration makes it forget the streams before.
- The typed getters and setters of the camera parameters, and size and range parsing.
- The decoder and the compressed stream behind the unshorten wrapper: a read meets any
  sequence of blocks, ends and errors.
- Memory ordering, locking and signalling beyond what the steps above say.
- `CameraMetadata.cpp`, the Binder proxies, `CameraParameters.cpp`, `lights.c` and the other
  plumbing: only easy members would come of them.
