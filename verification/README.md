# Verified core of an Android device tree

A Dafny model of the parts of the device tree that hold real state, and proofs of what they promise.
Nothing in it calls the original program; each module follows the code of one source file, branch by
branch, and states its main results for every input, every run or every reachable state.

| modules | component |
|---|---|
| SensorQueue, MultiHal, MultiHalRun | circular queue with unlocked fill, handle maps, round-robin merge and wake-ups of the sensor multi-HAL |
| PcmPointers, PcmRing | boundary, pointer arithmetic and memory-mapped transfer of tinyalsa in SYNC_PTR mode |
| CondVar | futex condition variable |
| RouteManager, RouteDevice, RouteWalk, RouteProperties, RouteConfig | reference-counted streams and devices of the audio route manager, for any device table and for the shipped one |
| ConfigParser, ConfigParserRun, ConfigGrammar, ConfigObjects | table-driven parser of the audio configuration file, the language it accepts and the objects it makes |
| VoiceTrigger | voice trigger and voice recognition state machine |
| Unshorten, UnshortenRun | re-chunking reader of the compressed capture path |
| CText, ParamText, SortedMap, Decimal, CameraParameters, CameraParameters2 | camera parameter maps and their text forms |
| VendorTags, VendorParcel, VendorRoundTrip, VendorWire | vendor tag descriptors, their reverse index, parcel form and the parcels that are accepted |
| Neon, ColorConv, WbGamma | NEON colour conversion against its scalar formulas |
| Sobel | the focus measure, plain and unrolled |
| Basics, Division | definitions and arithmetic shared by several of them |

Code that changes state in place is a class or a method with its loops (SensorEventQueue, PollContext,
HandleTable, Pcm, ConfigMgr, ConfigFileParser, AudioDevice, InUnshorten, Parameters, Parameters2, the
pixel and parcel loops). Each is proved against a function of its old state, and the properties are
proved of that function. Threads are interleaved atomic steps; a critical section is one step.

## Where the code and its promises part

- The parser's depth test would allow a seventh stack entry; only the grammar keeps the index within 5
  (`ConfigParserRun.RunInv`).
- A `<ctl>` inside a `<case>` goes to the initial mixer settings while an `<init>` is pending, because the
  current path is not cleared after it (`ConfigParserRun.CaseControlsIff`, `CaseControlGoesToInit`).
- The documentation calls "on" and "off" optional, but the use count counts connections only by "on" and
  disconnections only by "off". Where requests meet only what they mean, the documented rule on streams holds
  for a device under an exact condition on what it defines and how it is used
  (`RouteProperties.UsersRuleIff`); for any table `RouteProperties.OnOffFollowsIff` gives the condition on the
  connections and disconnections that reach the device. No device of audio/audio.mocha.xml defines "off", so
  its "on" controls run on the first connection only (`RouteConfig.SpeakerOnRunsOnce`); a device with "off"
  alone is switched off too early (`RouteConfig.OffAloneRunsEarly`).
- The device walk does not exclude the other direction, and the difference of two capture routes lacks the
  direction bit, so a request can reach an unintended device (`RouteWalk.WalkExactIff`,
  `RouteConfig.HeadsetRoutePowersMicrophone`); exactly then an operation changes some device by other than the
  change of its users (`RouteProperties.OpMovesIff`, `RunMovesIff`). On the shipped table that leaves the
  microphone on when capture is switched to the headset (`RouteConfig.MochaClearIff`,
  `MicSwitchLeavesMicOn`); with "off" defined it also switches the headset off under a playing stream
  (`RouteConfig.HeadsetOffUnderPlayback`).
- `release_stream` runs a device's "off" controls before the stream's disable path, while the
  documentation lists them the other way round; exactly when that matters is
  `RouteProperties.ReleaseOrderIff`, with an instance in `RouteConfig.ReleaseRunsOffFirst`.
- In trigger-only mode re-enabling a fired trigger takes a second reference
  (`VoiceTrigger.TriggerOnlyBalancesIff`, `RearmLeaks`). In recognition mode an enable between the trigger
  and its audio is lost, while one during the capture re-arms (`VoiceTrigger.ArmedIff`,
  `EnableWhileFiredIsLost`).
- A chunk more than one byte larger than the accumulator can lose bytes (`UnshortenRun.LosslessIff`), and
  the reader returns a byte count also after an error.
- Gains of 2^16 and more lose their high bits in the vector path but not in the remainder
  (`WbGamma.LaneExactIff`, `HighBitsLost`).
- CameraParameters2 keeps repeated keys of a text, which hides a later set (`SetTakesEffectIff`,
  `RepeatedKeyHidesSet`).
- 2^30 pulses between a waiter's sample and its compare lose the wake-up
  (`CondVar.FullTurnLosesBroadcasts`).

`dafny verify dfyconfig.toml` checks the whole project.

## Model

| member | source | states |
|---|---|---|
| SensorQueue.SensorEventQueue.constructor | sensors/SensorEventQueue.cpp:24-31 | a new queue of any capacity is valid and empty |
| SensorQueue.SensorEventQueue.GetWritableRegion | sensors/SensorEventQueue.cpp:39-59 | the region is contiguous, follows the readable slots in ring order, holds none of them, and is the longest such region within the request; it is empty exactly when the queue is full or nothing was requested |
| SensorQueue.SensorEventQueue.MarkAsWritten | sensors/SensorEventQueue.cpp:61-63 | the readable events grow by exactly the contents of the granted region |
| SensorQueue.SensorEventQueue.Peek | sensors/SensorEventQueue.cpp:69-72 | the oldest readable event, or nothing exactly when the queue is empty |
| SensorQueue.SensorEventQueue.Dequeue | sensors/SensorEventQueue.cpp:74-81 | drops the oldest readable event, broadcasts exactly on leaving the full state, and every region granted before stays granted |
| SensorQueue.SensorEventQueue.WaitForSpace | sensors/SensorEventQueue.cpp:84-91 | waits exactly when the queue was full and returns only with room; what the reader consumed meanwhile is gone from the front |
| SensorQueue.SlotIsRemainder | sensors/SensorEventQueue.cpp:45-45 | the slot order of the model is reduction modulo the capacity |
| SensorQueue.ConsumedReadable | sensors/SensorEventQueue.cpp:74-81 | n dequeues drop exactly the n oldest events |
| SensorQueue.WritableIsFree | sensors/SensorEventQueue.cpp:44-58 | no slot of a granted region is readable |
| SensorQueue.WritableStable | sensors/SensorEventQueue.cpp:74-81 | rely: the end of the readable region, (start + size) mod capacity, does not move under dequeue, so a granted region stays granted |
| SensorQueue.FillInvisible | sensors/multihal.cpp:146-151 | guarantee: a store by the sub-HAL into its granted region leaves the readable events unchanged |
| SensorQueue.CommitAppends | sensors/SensorEventQueue.cpp:61-63 | a commit appends exactly the stored events |
| SensorQueue.StepKeepsInv | sensors/multihal.cpp:141-168 | every step of writer and reader keeps: events returned by the sub-HAL = delivered + readable + not yet committed |
| SensorQueue.DeliveredIsPrefixOfPolled | sensors/multihal.cpp:141-168 | on every interleaving of reserve, unlocked fill, commit and dequeue, the delivered events are a prefix in order of those polled, the rest is queued or in flight, and the backlog is within the capacity |
| SensorQueue.FillTouchesNoReadableSlot | sensors/SensorEventQueue.h:29-31 | on every interleaving no fill touches a readable slot |
| MultiHal.HandleTable.AssignGlobalHandle | sensors/multihal.cpp:83-91 | takes the next handle and enters it in both maps |
| MultiHal.RegisteredMaps | sensors/multihal.cpp:83-91 | after any registrations, global handle g names the g-th sensor and a sensor maps to its last registration |
| MultiHal.MapsInverseIffDistinct | sensors/multihal.cpp:83-125 | the two handle maps are mutual inverses if and only if no (module, local handle) was registered twice |
| MultiHal.DroppedIffUnregistered | sensors/multihal.cpp:290-310 | an event is dropped exactly when it is a normal event of an unregistered sensor, or meta-data already carrying -1 |
| MultiHal.EmitTranslates | sensors/multihal.cpp:290-334 | with the maps that any registrations left, the events handed up are, in order, exactly the events that are not bad, each with the same kind and payload and its sensor renamed: the sensor field of a normal event and the nested sensor of meta-data by the handle under which that sensor was last registered, or -1 |
| MultiHal.TranslatedLeadsBack | sensors/multihal.cpp:94-115 | the global handle of a delivered event gives back the sub-module and the local handle it came from, so commands for a sensor go where its events come from |
| MultiHal.DrainOne | sensors/multihal.cpp:323-336 | taking one more event keeps every queue at its own events, oldest first |
| MultiHal.VisitServes | sensors/multihal.cpp:322-337 | a visit that finds an event keeps order, remapping and fairness |
| MultiHal.VisitFindsEmpty | sensors/multihal.cpp:324-337 | a visit that finds nothing extends the run of empty queues |
| MultiHal.ScanEnds | sensors/multihal.cpp:321-338 | a scan that stopped short has left every queue empty |
| MultiHal.PollContext.Serve | sensors/multihal.cpp:326-336 | the event is taken, remapped and delivered unless its handle is unknown, and the total queued falls |
| MultiHal.PollContext.Deliver | sensors/multihal.cpp:328-334 | the event is stored in the caller's array with its sensor renamed and nothing else changed, and counted exactly unless it is bad |
| MultiHal.PollContext.Visit | sensors/multihal.cpp:321-338 | one turn of the scan |
| MultiHal.PollContext.Scan | sensors/multihal.cpp:320-338 | the scan ends (lexicographic measure: queued events, then unscanned queues); its output is an order-preserving interleaving of the queues, remapped, bad handles dropped, at most maxReads events, fewer only when all queues are empty, and no queue is served more than once more often than a queue that still holds events; its output translates what it took, and the next scan goes on behind the last queue visited |
| MultiHalRun.StepKeepsInv | sensors/multihal.cpp:141-168 | every step of the writers and of poll keeps the joint invariant |
| MultiHalRun.NoMissedWakeup | sensors/multihal.cpp:318-348 | in every reachable state a poll that waits un-notified has only empty queues, a writer that waits un-notified has a full queue, and both never hold at once |
| MultiHalRun.UpstreamIsMergeOfSubHals | sensors/multihal.cpp:312-352 | in every reachable state what poll handed upstream is the remapped merge of the consumed events, and each sub-HAL's output is its consumed, queued and uncommitted events in order |
| MultiHalRun.UpstreamNamesSensors | sensors/multihal.cpp:290-352 | in every reachable state what poll handed upstream is, in order, the translation of every consumed event that is not bad, and each leads back to the sub-HAL and local handle it came from |
| MultiHalRun.NoStarvation | sensors/multihal.cpp:320-338 | over any number of polls, however few events each may return: while a queue still holds events after every scan, no other queue is served more than once more often than it |
| MultiHalRun.PollReturnsEvents | sensors/multihal.cpp:319-352 | a poll returns exactly when it has at least one event, and then no more than it was asked for; otherwise it waits with the flag raised |
| MultiHalRun.EachPollHasItsRegion | sensors/multihal.cpp:141-168 | between the ends of two calls of a sub-HAL, successful or not, its writer has reserved a region again |
| PcmPointers.ComputeBoundary | tinyalsa/src/pcm.c:433-436 | the loop ends with boundary = buffer * 2^k whose next doubling would not fit; k is at least 1, and then boundary + buffer is within INT_MAX, exactly for buffers up to INT_MAX/3 |
| PcmPointers.ComputedGeometry | tinyalsa/src/pcm.c:433-436 | such a boundary is a larger multiple of the buffer that leaves room for signed arithmetic |
| PcmPointers.PlaybackAvailExact | tinyalsa/src/pcm.c:1231-1243 | with 32-bit arithmetic, for every pointer state including appl_ptr = boundary, the computed playback room equals the distance of the unbounded counters if and only if that distance is within 0 and boundary |
| PcmPointers.CaptureAvailExact | tinyalsa/src/pcm.c:1245-1251 | the same for capture |
| PcmPointers.SingleLapBoundaryFails | tinyalsa/src/pcm.c:1235-1242 | for every buffer size a boundary of a single buffer would report an empty playback buffer as full |
| PcmPointers.ForwardTracks | tinyalsa/src/pcm.c:1262-1271 | the wrapped application pointer keeps tracking its unbounded counter in the closed interval up to boundary |
| PcmPointers.SameSlot | tinyalsa/src/pcm.c:1282-1282 | the pointer and its counter name the same slot of the buffer |
| PcmRing.Pcm.HardwareFrame | tinyalsa/src/pcm.c:504-515 | the hardware plays or captures one frame exactly if the kernel knows of a frame or a free slot; the ring still holds exactly the frames in between |
| PcmRing.Pcm.SyncPtr | tinyalsa/src/pcm.c:504-515 | the hardware runs on; on success its position becomes visible and the application's becomes known to the kernel, on failure both stay; the room never shrinks |
| PcmRing.Pcm.Avail | tinyalsa/src/pcm.c:1253-1260 | what is computed from the wrapped pointers is the true room, at most the buffer: by the hardware's own counter if the synchronisation succeeds, else by the one last seen |
| PcmRing.Pcm.Begin | tinyalsa/src/pcm.c:1273-1298 | the longest movable run that is contiguous in the buffer |
| PcmRing.Pcm.CopyIn | tinyalsa/src/pcm.c:571-589 | with the hardware playing on between any two stores, the ring segment holds the caller's frames and every frame not yet played is intact |
| PcmRing.Pcm.CopyOut | tinyalsa/src/pcm.c:571-589 | with the hardware capturing on between any two loads, the caller's buffer gets exactly the captured frames and nothing else changes |
| PcmRing.Pcm.ApplForward | tinyalsa/src/pcm.c:1262-1271 | the frames between the old and the new pointer join the stream or the output, in order |
| PcmRing.Pcm.Commit | tinyalsa/src/pcm.c:1300-1316 | the same also when the synchronisation fails; the result says which, and on success the kernel knows of every frame |
| PcmRing.Pcm.CopyAndCommit | tinyalsa/src/pcm.c:600-606 | a copied and committed segment moves exactly its frames |
| PcmRing.Pcm.MoveSegment | tinyalsa/src/pcm.c:598-611 | one turn moves a non-empty segment, and one that stops short ends with the buffer |
| PcmRing.Pcm.TransferAreas | tinyalsa/src/pcm.c:591-613 | a request within the room takes at most two segments and, unless a commit fails, moves every frame once and in order |
| PcmRing.Pcm.Start | tinyalsa/src/pcm.c:1200-1214 | starting prepares the stream first, tells the kernel of every frame unless that synchronisation fails, and never loses room or frames |
| PcmRing.Pcm.Prepare | tinyalsa/src/pcm.c:1181-1191 | the stream is prepared exactly if the call succeeds, and never un-prepared |
| PcmRing.Pcm.AvailUpdate | tinyalsa/src/pcm.c:1318-1322 | of its two synchronisations one may fail without hiding any progress of the hardware from before the call |
| PcmRing.Pcm.Decide | tinyalsa/src/pcm.c:1392-1441 | the stream is started exactly when the frames queued reach the start threshold; the turn sleeps only while running with no room, and never if the hardware had left room before the turn and at most one synchronisation failed; the loop is left without an error only with nothing to move, not running, and the start threshold above the buffer |
| PcmRing.Pcm.Transfer | tinyalsa/src/pcm.c:1382-1458 | in every outcome the frames copied are the first ones of the request, once and in order; when the loop ends by itself all are moved and known to the kernel; a call left asleep though no synchronisation failed has a hardware that left no room; a failed wait rewinds the pointer and un-prepares the stream; any other 0 return means the start threshold exceeds the buffer |
| CondVar.StepKeepsInv | libmocha/bionic/pthread_cond.cpp:125-154 | every atomic step keeps the word equal to flags + 4 * pulses modulo 2^32 |
| CondVar.MutexPasses | libmocha/bionic/pthread_cond.cpp:141-154 | on every run the mutex passes to a thread only when nobody holds it, exactly by its lock or the end of its wait, and leaves it exactly by its unlock or the release inside its wait |
| CondVar.WaitReturnsLocked | libmocha/bionic/pthread_cond.cpp:141-154 | over every whole wait the thread holds the mutex at its sample and up to the release, does not hold it while unlocked, asleep or awake, and holds it again, taken while nobody did, when the wait returns |
| CondVar.FlagsPreserved | libmocha/bionic/pthread_cond.cpp:135-136 | the flag bits survive every overflow of the counter |
| CondVar.CompareSleepsIff | libmocha/bionic/pthread_cond.cpp:142-148 | a futex compare sleeps exactly when the pulses since the sample are a multiple of 2^30 |
| CondVar.BroadcastReleasesAll | libmocha/bionic/pthread_cond.cpp:125-154 | with fewer than 2^30 pulses between sample and compare, every thread that sampled before a broadcast's add is released from that wait, for every interleaving |
| CondVar.SignalReleasesOne | libmocha/bionic/pthread_cond.cpp:125-154 | under the same bound, a signal with such a waiter wakes a sleeper or the waiter is released without sleeping |
| CondVar.FullTurnLosesBroadcasts | libmocha/bionic/pthread_cond.cpp:136-147 | the bound is needed: 2^30 complete broadcasts between sample and compare leave the thread asleep |
| RouteManager.ConfigMgr.ApplyPathsById | configmgr/audio_config.c:487-550 | the device's paths run by id with the use-count guard, as specified by ApplyById |
| RouteManager.ConfigMgr.ApplyPathsToDevices | configmgr/audio_config.c:552-575 | the walk over the device table consumes the mask device by device |
| RouteManager.ConfigMgr.ApplyPathsToGlobal | configmgr/audio_config.c:577-592 | only the first global device is touched |
| RouteManager.ConfigMgr.ApplyRoute | configmgr/audio_config.c:601-640 | devices leaving the route are disconnected, then the new ones connected; a request of the wrong direction changes nothing |
| RouteManager.ConfigMgr.OpenStream | configmgr/audio_config.c:718-730 | fails exactly at the maximum reference count; the first open enables the global device |
| RouteManager.ConfigMgr.GetStream | configmgr/audio_config.c:732-771 | opens the last stream of the mask's direction and the wanted format that has a free reference, and fails exactly when none has; the stream does not refuse a route of that direction |
| RouteManager.ConfigMgr.ReleaseStream | configmgr/audio_config.c:812-829 | the last release disconnects the stream and disables the global device |
| RouteManager.FindsConfiguredIff | configmgr/audio_config.c:745-749 | a request finds exactly the streams configured with its direction and its format; hardware and global streams only by name |
| RouteManager.RefusesIff | configmgr/audio_config.c:613-629 | a stream refuses exactly the routes against the direction it was configured with |
| RouteDevice.CountIsExpected | configmgr/audio_config.c:487-515 | whatever connections and disconnections reach a device, its use count is the connections, if it defines "on", less the disconnections, if it defines "off" |
| RouteDevice.FollowsRuleIff | configmgr/audio_config.c:487-515 | for the connections and disconnections that reach a device, in any order: "on" runs exactly when the first of them arrives and "off" exactly when the last one leaves, if and only if the device defines both or neither, or only "on" and none arrives once all have left, or only "off" and none leaves while others stay |
| RouteDevice.HappenKeepsLocal | configmgr/audio_config.c:487-515 | on a device with both paths an event keeps: counted, alternating, powered exactly while in use |
| RouteDevice.OrderIff | audio/README:148-155 | running "off" before the disable path leaves the same record if and only if not both are defined, different and run |
| RouteWalk.WalkChangesTouched | configmgr/audio_config.c:552-575 | for any table, with or without shared bits, a walk applies its paths to exactly the devices it hits |
| RouteWalk.HitIffIntendedOrImpostor | configmgr/audio_config.c:564-569 | a walk hits a device if and only if it is intended or of the other direction with a bit still requested |
| RouteWalk.WalkExactIff | configmgr/audio_config.c:552-575 | where devices of one direction share no bit, a request is applied to exactly the intended devices if and only if it meets no device of the other direction with a bit still requested |
| RouteWalk.ImpostorReached | configmgr/audio_config.c:564-569 | a request that meets a device of the other direction with a bit still requested reaches a device that it does not mean |
| RouteProperties.RefCountsBounded | configmgr/audio_config.c:718-829 | on every run over any device table reference counts stay within 0 and the maximum, and a closed stream is routed nowhere |
| RouteProperties.OpView | configmgr/audio_config.c:601-829 | for any table, an open, route or release does to each device exactly its connection and disconnection events |
| RouteProperties.FirstRouteConnects | configmgr/audio_config.c:601-640 | a stream of any type that is not routed yet takes every route of its configured direction: where devices of one direction share no bit and the route meets none of the other, exactly the devices the mask means are connected and the stream is routed to the mask |
| RouteProperties.OtherRouteRefused | configmgr/audio_config.c:613-629 | a route of the other direction changes nothing, for a stream of any type |
| RouteProperties.OnOffFollowsIff | configmgr/audio_config.c:487-640 | on every run over any table, for every device whatever it defines, in terms of the connections and disconnections that reach the device, meant for it or not: the use count formula, and the exact condition under which "on" runs when the first arrives and "off" when the last leaves |
| RouteProperties.OpMoves | configmgr/audio_config.c:601-829 | an operation whose masks meet only what they mean changes a device by exactly the change of its users |
| RouteProperties.OpMovesIff | configmgr/audio_config.c:601-829 | where devices of one direction share no bit, an open, a route to whole devices or a release changes every device by exactly the change of its users if and only if the masks it walks meet no device of the other direction |
| RouteProperties.RunMovesIff | configmgr/audio_config.c:601-829 | the same for every run: each operation changes each device by exactly the change of its users if and only if no operation meets a device of the other direction |
| RouteProperties.UseCountsAreExact | configmgr/audio_config.c:487-640 | on every run whose requests meet only what they mean, connections less disconnections of every device are the streams routed to it (for the global device, the open streams); with "on" and "off" defined that is the use count, the two alternate strictly and the device is powered exactly while in use |
| RouteProperties.UsersRuleIff | audio/README:113-118 | the documented rule on streams: on every run whose requests meet only what they mean, a device's "on" runs exactly in the operation that gives it its first user and its "off" exactly in the one that takes its last, if and only if it defines both or neither, or only "on" and never gets a first user again, or only "off" and never loses one of several users |
| RouteProperties.ReleaseOrderIff | configmgr/audio_config.c:820-825 | the last release leaves on every device what the documented order would if and only if on no device it reaches both the disable path and "off" are defined, different and run |
| RouteConfig.MochaClearIff | audio/audio.mocha.xml:53-246 | on the shipped five-device table a request meets only what it means if and only if it carries the direction bit, or, for capture, has no bit of an output device, and for playback lacks the headset microphone bit |
| RouteConfig.MicSwitchLeavesMicOn | configmgr/audio_config.c:606-634 | on the shipped table switching capture from the microphone to the headset never switches the microphone off |
| RouteConfig.HeadsetOffUnderPlayback | configmgr/audio_config.c:606-634 | with the shipped masks and "on" and "off" on every device, switching capture from the microphone to the headset microphone switches the headset off under the playback still routed to it |
| RouteConfig.SpeakerOnRunsOnce | audio/audio.mocha.xml:53-116 | on the shipped table the speaker, connected, disconnected and connected again, runs its "on" controls once |
| RouteConfig.OffAloneRunsEarly | configmgr/audio_config.c:494-499 | a device with "off" alone is switched off while a second stream is connected, its use count below zero |
| RouteConfig.ReleaseRunsOffFirst | configmgr/audio_config.c:820-825 | a stream opened, routed to the speaker and released runs "off" before its disable path, against the documented order |
| RouteConfig.HeadsetRoutePowersMicrophone | configmgr/audio_config.c:566-567 | a table on which routing playback to the headset powers the microphone |
| ConfigParser.ConfigFileParser.constructor | configmgr/audio_config.c:2260-2269 | the parser starts with only the root element allowed |
| ConfigParser.ConfigFileParser.FindElement | configmgr/audio_config.c:2210-2217 | the first allowed element of the table with that name |
| ConfigParser.ConfigFileParser.RunStartHandler | configmgr/audio_config.c:2106-2130 | a successful handler makes its object current; a successful mixer opens the root to devices and streams |
| ConfigParser.ConfigFileParser.ParseSectionStart | configmgr/audio_config.c:2195-2240 | the element is pushed inside the fixed stack and its handler runs, or the error is set; after an error nothing changes |
| ConfigParser.ConfigFileParser.ParseSectionEnd | configmgr/audio_config.c:2242-2258 | the end handler runs and the element is popped; after an error nothing changes |
| ConfigParserRun.RunInv | configmgr/audio_config.c:2195-2258 | on every prefix of every chain of balanced one-root documents, each redirecting to the next by a codec probe, the parser keeps its invariant and its stack index stays within 5, although the depth test alone would allow 6 |
| ConfigParserRun.StartHandlersAreInContext | configmgr/audio_config.c:913-1047 | whenever a start handler runs, on every prefix of every chain of documents: the stack entry exists; every element but the root, mixer and codec probe comes after a successful mixer; at most one mixer is accepted over all files; path, usecase, case, enable, disable and stream control handlers work on the object of their enclosing element |
| ConfigParserRun.RedirectKeepsInv | configmgr/audio_config.c:1701-1709 | where a codec probe may redirect to another file no mixer was accepted yet, and the next file starts under the same invariant; a step of every run |
| ConfigParserRun.RedirectedMixer | configmgr/audio_config.c:1701-1709 | a document whose codec probe redirects to a file whose mixer is accepted |
| ConfigParserRun.EndHandlersAreInContext | configmgr/audio_config.c:2242-2258 | on every prefix of every chain of documents, an end handler works on the object its own start tag made |
| ConfigParserRun.AllowedIsFound | configmgr/audio_config.c:2210-2217 | the two names that the table gives to two elements are never ambiguous |
| ConfigParserRun.CaseControlsIff | configmgr/audio_config.c:1524-1540 | a control inside a case is added to that case if and only if a path was left since the last init section or there was none |
| ConfigParserRun.CaseControlGoesToInit | configmgr/audio_config.c:1597-1608 | a document whose case control ends up in the initial mixer settings |
| ConfigGrammar.RunReadsTags | configmgr/audio_config.c:913-1047 | on every prefix of every chain of documents the parser's error is the first one the tags contain, so it accepts exactly the documents whose tags stand where their names are allowed, with good attributes, at most one codec probe a file and handlers that succeed; until then the stack is what the open tags mean |
| ConfigGrammar.AcceptedIff | configmgr/audio_config.c:2195-2240 | a start tag is accepted exactly if its name is allowed inside the open tags, and as what it means there |
| ConfigObjects.ObjectsAreOwn | configmgr/audio_config.c:1710-2094 | every device, stream, path, use case and case gets an object that no other section has, over all files |
| ConfigObjects.CurrentOnlyWhileOpen | configmgr/audio_config.c:2242-2258 | the current case and codec probe are null exactly while none is open |
| ConfigObjects.ControlsStayInSection | configmgr/audio_config.c:1524-1540 | a control inside a path goes to that path, inside the init section to the initial settings |
| VoiceTrigger.AudioDevice.VoiceTriggerEnable | audio/audio_hw.c:2524-2561 | the transitions and the stream open of enable |
| VoiceTrigger.AudioDevice.VoiceTriggerDisable | audio/audio_hw.c:2563-2605 | the transitions and the stream close of disable |
| VoiceTrigger.AudioDevice.VoiceTriggerTriggered | audio/audio_hw.c:2607-2637 | the transitions of a trigger |
| VoiceTrigger.AudioDevice.AudioStartedLocked | audio/audio_hw.c:2639-2664 | the transitions of audio start |
| VoiceTrigger.AudioDevice.AudioEndedLocked | audio/audio_hw.c:2666-2693 | the transitions and the stream close of audio end |
| VoiceTrigger.RefsExact | audio/audio_hw.c:2497-2693 | on every run of the five operations, references taken minus released = 1 if not idle and the last open succeeded, plus the number of re-enables of a fired trigger with a held stream; never negative |
| VoiceTrigger.RecognitionBalances | audio/audio_hw.c:2497-2693 | in recognition mode the balance is 1 exactly when not idle with a successful last open, else 0, although the stream pointer is never cleared |
| VoiceTrigger.TriggerOnlyBalancesIff | audio/audio_hw.c:2534-2538 | in trigger-only mode the same holds if and only if the run never enables a fired trigger whose stream is held |
| VoiceTrigger.RearmLeaks | audio/audio_hw.c:2534-2538 | arm, trigger, arm, disable leaves a reference behind |
| VoiceTrigger.PointerOnlyByOpen | audio/audio_hw.c:2497-2522 | the stream pointer changes by an open and by nothing else, so it stays set after a close |
| VoiceTrigger.StepFollows | audio/audio_hw.c:2524-2693 | an enable arms, except between a recognition's trigger and its audio; a disable disarms; a trigger fires exactly when armed and not capturing, which uses the arming up; audio starts a capture exactly after a fired recognition and its end ends it |
| VoiceTrigger.ArmedIff | audio/audio_hw.c:2524-2693 | on every run the machine is armed, now or for after the capture, exactly when an enable was heard that no disable has taken back and no firing has used up |
| VoiceTrigger.CapturingIff | audio/audio_hw.c:2639-2693 | on every run audio is captured exactly from a start of audio after a fired recognition to the next end of audio |
| VoiceTrigger.DisableHolds | audio/audio_hw.c:2563-2605 | on every run, after a disable without a later enable the machine is never armed or re-armed, and is idle exactly if the disable found no recognition under way or the capture has ended since |
| VoiceTrigger.EnableWhileFiredIsLost | audio/audio_hw.c:2548-2551 | an enable between the trigger and its audio is lost: the machine ends idle |
| Unshorten.InUnshorten.DrainAccumulator | audio/audio_hw.c:1626-1638 | waiting bytes come first |
| Unshorten.InUnshorten.KeepLeftover | audio/audio_hw.c:1657-1665 | the accumulator holds the rest of the chunk up to its capacity |
| Unshorten.InUnshorten.InUnshortenRead | audio/audio_hw.c:1613-1689 | delivers what Read specifies and returns the number of bytes delivered, also after an error |
| UnshortenRun.ReadConserves | audio/audio_hw.c:1613-1689 | delivered, waiting and dropped bytes are together exactly the waiting and decoded bytes, in order |
| UnshortenRun.ReadUses | audio/audio_hw.c:1640-1685 | a read takes the decoder's answers exactly as far as it needs them: no answer behind corrupt data or missing input is used, and it returns what was asked for or all there was |
| UnshortenRun.ReturnedIsPrefixIff | audio/audio_hw.c:1613-1689 | for every sequence of read sizes, returned and waiting bytes are the decoder's output if and only if no byte was dropped |
| UnshortenRun.LosslessIff | audio/audio_hw.c:1657-1665 | no sequence of reads drops a byte if and only if every chunk is at most one byte larger than the accumulator |
| UnshortenRun.ChunkingInvariance | audio/audio_hw.c:1613-1689 | with a steady decoder and fitting chunks, the bytes returned depend only on the total asked for |
| ParamText.SplitInvertsFlatten | libmocha/camera/CameraParameters.cpp:192-240 | splitting inverts flattening on every list without '=' in a key and ';' in a value, order and repeated keys included |
| ParamText.FlattenLoop | libmocha/camera/CameraParameters.cpp:192-210 | one pass, a semicolon after each item but the last |
| ParamText.NextItem | libmocha/camera/CameraParameters.cpp:219-239 | one turn of unflatten: the next item and the cursor behind it |
| CameraParameters.Parameters.Unflatten | libmocha/camera/CameraParameters.cpp:212-242 | every key has the value of its last item in the text, and no other key is there |
| CameraParameters.Parameters.SetParameter | libmocha/camera/CameraParameters.cpp:245-270 | a key or value with a separator is ignored, otherwise the key has the value; every other key keeps its own |
| CameraParameters.Parameters.RemoveParameter | libmocha/camera/CameraParameters.cpp:309-312 | the key is gone and every other key keeps its value |
| SortedMap.GetRemove | libmocha/camera/CameraParameters.cpp:309-312 | a removed key is gone and every other key keeps its value |
| SortedMap.GetPutAll | libmocha/camera/CameraParameters.cpp:212-242 | a key added more than once has its last value |
| CameraParameters.ReachableOk | libmocha/camera/CameraParameters.cpp:192-270 | every map reachable by set, remove and unflatten is sorted, with no '=' in a key and no ';' in a value |
| CameraParameters.UnflattenInvertsFlatten | libmocha/camera/CameraParameters.cpp:192-242 | unflatten(flatten(m)) = m for every reachable map |
| CameraParameters.SetSurvives | libmocha/camera/CameraParameters.cpp:192-307 | a value set on any reachable map is found again after flatten and unflatten |
| CameraParameters.PreviewSizeRoundTrip | libmocha/camera/CameraParameters.cpp:365-379 | setPreviewSize, flatten, unflatten, getPreviewSize gives back every pair of 32-bit integers |
| CameraParameters.PreviewSizeText | libmocha/camera/CameraParameters.cpp:365-370 | a preview size of 640 by 480 flattens to preview-size=640x480 |
| CameraParameters.NoPreviewSize | libmocha/camera/CameraParameters.cpp:372-379 | a removed size, and any text without the delimiter, reads as (-1, -1) |
| CameraParameters.EmptyValueReadsAsNothing | libmocha/camera/CameraParameters.cpp:286-292 | an empty value survives flattening but get reports it as nothing |
| CText.LessIff | libmocha/camera/CameraParameters.cpp:245-270 | the keys are ordered as strcmp orders them, by the first difference |
| Decimal.StrtolReads | libmocha/camera/CameraParameters.cpp:315-338 | strtol behind any white space and sign: the number, saturated to 32 bits, with the cursor behind its digits |
| Decimal.StrtolReadsNothing | libmocha/camera/CameraParameters.cpp:315-338 | without a digit it reads 0 and the cursor does not move |
| Decimal.StrtolInvertsPrint | libmocha/camera/CameraParameters.cpp:315-338 | strtol inverts %d on all 32-bit integers, stopping right behind the number |
| Decimal.ParsePairInverts | libmocha/camera/CameraParameters.cpp:315-338 | parse_pair inverts the printed pair |
| Decimal.ParseSizesInverts | libmocha/camera/CameraParameters.cpp:340-363 | a printed list of sizes is read back whole |
| Decimal.ReadSize | libmocha/camera/CameraParameters.cpp:347-362 | one turn reads a size with its separator, and the cursor moves |
| Decimal.ParseSizesList | libmocha/camera/CameraParameters.cpp:340-363 | ends on every string with strict cursor progress and gives the sizes before the first malformed one |
| CameraParameters2.Parameters2.IndexOfKey | libmocha/camera/include/camera/CameraParameters2.h:142-151 | the first entry with the key, or the error |
| CameraParameters2.Parameters2.RemoveItem | libmocha/camera/include/camera/CameraParameters2.h:153-161 | the first entry with the key goes; an absent key changes nothing |
| CameraParameters2.Parameters2.SetParameter | libmocha/camera/CameraParameters2.cpp:92-108 | the key moves to the end with its new value |
| CameraParameters2.Parameters2.Unflatten | libmocha/camera/CameraParameters2.cpp:59-89 | the items of the text in order, repeated keys included |
| CameraParameters2.Parameters2.GetParameter | libmocha/camera/CameraParameters2.cpp:124-132 | the value of the first entry with the key |
| CameraParameters2.Parameters2.CompareSetOrder | libmocha/camera/CameraParameters2.cpp:149-177 | compares the positions of the two keys |
| CameraParameters2.UnflattenInvertsFlatten | libmocha/camera/CameraParameters2.cpp:37-108 | after every sequence of set, remove and unflatten the list has no '=' in a key and no ';' in a value, and comes back from its text with its order |
| CameraParameters2.UnflattenIsItsEvents | libmocha/camera/CameraParameters2.cpp:59-89 | an unflatten is a clear followed by one add per item, from any state |
| CameraParameters2.ListIsInSetOrder | libmocha/camera/include/camera/CameraParameters2.h:187-199 | after every history that added no key twice since its last clear, the list holds the set keys in the order of their last set, with that value |
| CameraParameters2.CompareSetOrderIsHistoryOrder | libmocha/camera/CameraParameters2.cpp:149-177 | over every sequence of calls whose last unflattened text repeats no key, compareSetOrder tells which key was set last, and fails exactly when one has no value |
| CameraParameters2.FreshAddsIff | libmocha/camera/CameraParameters2.cpp:59-89 | since the last clear no call added a key that was already there if and only if the last unflattened text repeats no key |
| CameraParameters2.SetTakesEffectIff | libmocha/camera/CameraParameters2.cpp:92-108 | a set is seen by get for every value if and only if the list has the key at most once |
| CameraParameters2.RepeatedKeyHidesSet | libmocha/camera/CameraParameters2.cpp:59-132 | after unflatten of "a=1;a=2", setting a to 3 leaves get at 2 |
| VendorTags.CollectTags | libmocha/camera/VendorTagDescriptor.cpp:83-116 | the first loop accepts exactly the good tag lists and fills the maps with the vendor's answers |
| VendorTags.IndexTags | libmocha/camera/VendorTagDescriptor.cpp:120-136 | section indices point at the tag's section, and the reverse index is built in list order |
| VendorTags.CreateDescriptorFromOps | libmocha/camera/VendorTagDescriptor.cpp:58-137 | succeeds exactly for good operations; the descriptor is well-formed and answers for each tag what the vendor answered |
| VendorTags.GettersAnswer | libmocha/camera/VendorTagDescriptor.cpp:267-289 | the getters give the vendor's own answers for its tags and the error answers for all others |
| VendorTags.LookupFindsLast | libmocha/camera/VendorTagDescriptor.cpp:331-348 | lookup finds the last tag entered with that name and section |
| VendorTags.LookupInvertsIff | libmocha/camera/VendorTagDescriptor.cpp:331-348 | every tag is found under its own name and section if and only if the (section, name) pairs are unique |
| VendorTags.ReverseOrderFree | libmocha/camera/VendorTagDescriptor.cpp:234-246 | with unique pairs the reverse index does not depend on the order of entry |
| VendorParcel.WriteToParcel | libmocha/camera/VendorTagDescriptor.cpp:291-325 | count, then four cells per tag in ascending order, then the sections |
| VendorParcel.ReadTags | libmocha/camera/VendorTagDescriptor.cpp:162-203 | the tag loop with all its checks |
| VendorParcel.ReadSections | libmocha/camera/VendorTagDescriptor.cpp:222-230 | the section loop: an empty name stops it |
| VendorParcel.CreateFromParcel | libmocha/camera/VendorTagDescriptor.cpp:139-250 | the whole reader, for every sequence of cells |
| VendorRoundTrip.ReadEncodedTags | libmocha/camera/VendorTagDescriptor.cpp:162-203 | reading back written tags succeeds exactly when the count matches and no name is empty |
| VendorRoundTrip.ParcelRoundTrip | libmocha/camera/VendorTagDescriptor.cpp:139-325 | a written descriptor can be read back if and only if its tags are distinct and no name or section is empty, and then everything comes back |
| VendorRoundTrip.UniquePairsSurvive | libmocha/camera/VendorTagDescriptor.cpp:58-348 | with unique pairs in addition, the descriptor read back is equal, and every tag is looked up by its own name and section |
| VendorWire.AcceptsIff | libmocha/camera/VendorTagDescriptor.cpp:139-250 | for every sequence of cells the reader succeeds exactly if it begins with a count, good tags and non-empty section names, enough names for the greatest section index modulo 2^32, and a distinct name for every tag's section; the descriptor then has the last entry of every tag and the names in order; otherwise the error is the stated one |
| VendorWire.BadCount | libmocha/camera/VendorTagDescriptor.cpp:147-157 | a missing count is too little data, a negative one a bad value |
| Neon.ScalarRange | camera/isp/ColorConvNEON.cpp:93-97 | luma is within 16..235 and chroma within 16..240 for every colour |
| Neon.NearBt601 | camera/isp/ColorConvNEON.cpp:48-60 | each formula is within one unit of the conversion of Recommendation BT.601 for every colour |
| Neon.GreyIsNeutral | camera/isp/ColorConvNEON.cpp:48-60 | every grey has chroma 128 |
| Neon.ChainExact | camera/isp/ColorConvNEON.cpp:74-88 | no step of a lane wraps, truncates or saturates |
| Neon.KernelLane | camera/isp/ColorConvNEON.cpp:67-90 | every lane of the vector path is the scalar formula of its pixel |
| ColorConv.LumaRow | camera/isp/ColorConvNEON.cpp:65-98 | vectors and remainder store the formula for every pixel of the row, and nothing else |
| ColorConv.ChromaRow | camera/isp/ColorConvNEON.cpp:102-167 | sixteen-wide and paired columns store U and V of the even pixels, side by side; the last byte of an odd row is untouched |
| ColorConv.RgbToNv12 | camera/isp/ColorConvNEON.cpp:40-169 | both planes, for every width and height |
| WbGamma.LaneExactIff | camera/isp/ColorConvNEON.cpp:227-250 | the vector gain equals gain and clamp for every pixel if and only if the gain fits 16 bits or its low half saturates every non-zero pixel |
| WbGamma.HighBitsLost | camera/isp/ColorConvNEON.cpp:227-250 | at gain 2^16 the vector path gives 0 for a pixel that the remainder makes 255 |
| WbGamma.RgbToRgbaWbGamma | camera/isp/ColorConvNEON.cpp:201-277 | for all gains whose products fit an int, every row of the destination holds the fused pixels of its source row, by vector lanes and then by the remainder, for both flips |
| WbGamma.FusedEqualsPasses | camera/isp/ColorConvNEON.cpp:201-277 | the fused loop gives what flip, gain, clamp, table and alpha give as separate passes: everywhere for exact gains, all below 2^16 among them, and for all gains in the remainder of a row |
| Sobel.SobelEnergy | camera/CameraPipeline.cpp:613-626 | the plain loop gives the energy, its 32-bit total never overflowing under the bound |
| Sobel.SobelEnergyNw | camera/CameraPipeline.cpp:633-659 | the unrolled loop gives the same energy under the same bound |
| Sobel.FitsIff | camera/CameraPipeline.cpp:613-659 | the energy of every image of a size fits 32 bits if and only if 255 * (w - 2) * (h - 2) does |
| Sobel.OnlyInnerGreenCounts | camera/CameraPipeline.cpp:604-626 | the energy depends on nothing but the green bytes of the rows between the first and the last |

## Left out

- ioctl, mmap, poll, futex, dlopen, sysfs and mixer calls appear only as environment steps or as results handed to the model.
- pcm_writei, pcm_readi and byte-level frame sizes: the ring works on whole frames; the read and write wrappers only add error handling around an ioctl.
- PcmRing.Pcm.Transfer: takes a bound on the returns of pcm_wait it lives through, so that its loop ends; a call still asleep then ends as asleep, and that the hardware eventually makes room is not claimed.
- PcmRing.Pcm.Decide: availability below 0 cannot arise in a valid state, so that error branch of the loop is not modelled; avail_min is the 1 the code sets.
- SensorQueue.SensorEventQueue.GetWritableRegion: asks that the first free slot plus the requested length fit an int, since the source would overflow there; its only caller passes 36.
- SensorQueue.SensorEventQueue.WaitForSpace: the reader's consumption before each wake-up is an argument; that a wake-up comes is not claimed.
- MultiHal: sub-HAL loading, batch, flush and set_delay; every sub-HAL opens, poll returns at most the granted length, and there is one poll caller.
- CondVar: timed waits, the timespec conversion and the attribute setters; a timeout only lets a thread leave its wait.
- CondVar.SignalReleasesOne: says that the signal's wake takes a sleeper out of the queue or the waiter is released; which sleeper the kernel picks is left open.
- RouteProperties.UseCountsAreExact: about runs whose routes name whole devices and whose masks meet no device of the other direction, devices of one direction sharing no bit; the condition on the masks is exact (RouteProperties.RunMovesIff), and on audio/audio.mocha.xml it leaves out switching capture directly between two inputs, which RouteConfig.MicSwitchLeavesMicOn shows.
- RouteProperties.UsersRuleIff: about the same runs. It, RouteProperties.OnOffFollowsIff and the last part of UseCountsAreExact ask that no stream names "off" as its enable path or "on" as its disable path.
- RouteManager: mixer control writes, volume, use cases and lookup by name, which do not touch the counts.
- ConfigParser: attribute checks and handler outcomes come with each tag, and what a handler stores in its object besides being its parent's child is left out; whether a codec probe redirects, and to which file, is an event of the run, not computed from the probe file.
- ConfigParser.ConfigFileParser.ParseSectionEnd: the reading of the probe file is left out; what a redirection does to the parser is ConfigParserRun.RedirectKeepsInv, and runs over several files are those of ConfigParserRun.RunInv.
- VoiceTrigger: which microphone is routed, and the input streams that report audio start and end.
- Unshorten: the decoder is the sequence of its answers; what they decode is not modelled.
- CameraParameters: null keys, floating-point values, the other size and format accessors and the QCOM_HARDWARE variant; strcmp order and KeyedVector stand as the sorted list in SortedMap.
- CameraParameters2.Parameters2.RemoveItem: the source compares an unsigned index with 0, so for an absent key it passes a huge index on; that this changes nothing rests on the bounds check of the vector class, which is not part of this model.
- Decimal: strtol on a platform with a 32-bit long; the text has no NUL.
- VendorTags: logging, the global descriptor and the C callbacks, which only forward to the getters.
- VendorParcel.CreateFromParcel: cells are typed, so reading across a cell boundary is an error; where the source would index the section list beyond its end, or abort, the model returns an error of its own.
- ColorConv.RgbToNv12: null and uninitialised arguments return early in the source; rgbToRgba is the same loop without arithmetic.
- WbGamma.RgbToRgbaWbGamma: takes the Q8.8 gains as non-negative integers whose products with a pixel fit an int, since the remainder's arithmetic is undefined beyond; their computation from floats is not modelled.
- Sobel.SobelEnergy: its bound is a requirement, because the source's overflow is undefined there.
- camera/isp/DemosaicNEON.cpp, the camera HAL's capture and flush protocol, auto exposure and white balance, the asynchronous playback thread and the resampler, the HIDL services, shims and utilities.
