# Models of the Bluetooth module's stateful cores

This project models the parts of the Bluetooth module whose correctness rests on state kept over many
calls, and proves what those parts promise over every history, run or interleaving:

- the LRU cache and the metric id allocator built on two of them (`LruSpec`, `LruHistory`, `LruCache`,
  `Entries`, `MetricIdSpec`, `MetricIdProofs`, `MetricIdInit`, `MetricIdRuns`, `MetricIdHistories`,
  `MetricIdAllocator`);
- the module registry's dependency-ordered start and reverse-order stop (`ModuleSpec`, `ModuleProofs`,
  `ModuleRegistry`);
- the message-loop thread's lifecycle and the two timers that post to it (`MessageLoopThread`,
  `MessageLoopRuns`, `MessageLoopObject`, `TimerProtocol`, `TimerProofs`, `TimerRuns`, `TimerCalls`, `TimerLoss`,
  `TimerQuiescence`, `TimerDiscipline`, `TimerHistories`, `TimerObject`, `RepeatingDeadline`);
- the metrics logger with its leaky queues and A2DP averages (`LeakyBondedQueue`, `A2dpSessionMetrics`, `A2dpAnyUpdates`,
  `MetricsSpec`, `MetricsSessions`, `MetricsLogger`);
- the Bluetooth audio port, output stream, latency arithmetic and parameter strings (`AudioPort`,
  `AudioStreamOut`, `AudioStreamRuns`, `AudioStreamObject`, `FeedingDelay`, `AudioParams`);
- the UTF-8 recogniser of the JNI callbacks (`CallbackUtf`).

Objects that the source updates in place are classes whose methods are proved against functions on
values; whole histories are then reasoned about on those values. Protocols between threads are state
machines: a step is one block under a lock, one closure taken from a queue, or one callback, and a run
is any sequence of enabled steps. The blocks themselves are methods of classes with the source's fields,
proved to make those steps. Clock readings, answers of callbacks, answers of the Bluetooth stack
and the iteration order of hash maps are parameters, so every statement holds for all of them.

Where the source does not keep a property, the property is proved to hold exactly under a condition
that a caller can check, and a concrete history shows the failure:

- `Init` accepts every map of valid ids; the allocator's invariant holds afterwards if and only if the ids are
  distinct, also from those of devices scanned before or saved since `Close`, and no used id is left without
  a device (`InitKeepsIff`, `DuplicateIdsCollide`, `EarlyAllocationCollides`, `SavedAfterCloseCollides`).
- The search for a free id ends as long as no `Init` gives a device saved since `Close` another id
  (`CompatibleRunKeepsBounded`); with such maps the ids can run out and the search never end
  (`RenumberingExhaustsIds`).
- A schedule that a timer accepted can be lost without any further call; it survives if and only if no
  earlier cancellation is still queued and, for a one-shot timer, no closure of the timer is running
  (`ScheduleSurvivesIff`). Callers keep it so by always waiting for a cancel, calling one after another and
  leaving a one-shot timer alone in its own closure (`DisciplinedScheduleSurvives`); three histories show the
  loss when one of these rules is broken (`StaleCancelKillsSchedule`, `SecondWaiterKillsSchedule`,
  `ScheduleFromOwnTaskIsLost`).
- A closure can still be running on another thread when `CancelAndWait` returns; it cannot if the closures
  running at the call run on the scheduled thread (`AwaitsClosuresIff`, `DisciplinedReturnIsQuiet`,
  `ClosureOutlivesCancelAndWait`).
- `ModuleRegistry::Start` has no cycle check; among finitely many modules it returns if and only if no module
  that the request needs depends on itself (`ReturnsIffAcyclic`, `MutualDependencyNeverReturns`).
- `ShutDown` returns at once, leaving the worker running, when it arrives before the worker has set up
  its loop (`ShutDownTakesEffectIff`, `EarlyShutDownLeavesWorker`).
- Printing and parsing parameters is a round trip if and only if no key is empty and no key or value
  contains a delimiter (`RoundTripIff`).
- `isValidUtf` accepts more than UTF-8; an accepted text is UTF-8 if and only if it has no overlong form, no
  surrogate and no code point above U+10FFFF (`AcceptedIsRfcIff`, `AcceptsMoreThanRfc`).
- `Reset` of the metrics logger keeps the headset connection counts (`ResetKeepsHeadsetCounts`).

Where code and comments disagree the model follows the code: `LeakyBondedQueue::Dequeue` does not return
null on an empty queue but takes its front (system/common/leaky_bonded_queue.h:61-64 against 127-132),
and `frames_presented_` is reset by the closing and exiting parameters although the header says it never
is (system/audio_bluetooth_hw/stream_apis.h:71-72).

## Model

| member | source | states |
|---|---|---|
| LruCache.LegacyLruCache.constructor | system/common/lru.h:47-53 | a new cache is empty and keeps its capacity |
| LruCache.LegacyLruCache.Clear | system/common/lru.h:64-68 | list and iterator map are emptied together |
| LruCache.LegacyLruCache.MapIndex | system/common/lru.h:183-185 | the iterator stored for a key is the node at that key's place in the recency order, and there is one exactly for the keys present |
| LruCache.LegacyLruCache.Find | system/common/lru.h:79-87 | a hit splices the node to the front and returns it, a miss changes nothing; every stored iterator stays valid |
| LruCache.LegacyLruCache.Get | system/common/lru.h:97-106 | returns the value held for the key and counts as a use |
| LruCache.LegacyLruCache.HasKey | system/common/lru.h:115-118 | tells presence and counts as a use |
| LruCache.LegacyLruCache.Put | system/common/lru.h:128-148 | refines the recency-ordered sequence: overwrite in front, or insert in front after evicting the tail of a full cache, which is returned |
| LruCache.LegacyLruCache.Remove | system/common/lru.h:156-170 | removes the key from list and map alike and says whether it was there |
| LruCache.LegacyLruCache.Size | system/common/lru.h:177-180 | the size of the map is the length of the list and within capacity |
| LruSpec.PutKeeps | system/common/lru.h:128-148 | as a dictionary, Put adds the new binding and drops exactly the evicted one, and evicts only when a new key meets a full cache |
| LruSpec.TouchKeeps | system/common/lru.h:79-87 | a lookup changes the order but not the dictionary |
| LruSpec.RemoveKeeps | system/common/lru.h:156-170 | Remove drops exactly the key's binding |
| LruHistory.RunWellFormed | system/common/lru.h:128-148 | over every call history keys are distinct and the size is within capacity |
| LruHistory.RunByRecency | system/common/lru.h:79-87 | over every call history the list is in strictly decreasing order of last hit or insert |
| LruHistory.RunHoldsLastPut | system/common/lru.h:128-134 | over every call history an entry holds the value last put under its key |
| LruHistory.PutEvictsOldest | system/common/lru.h:137-147 | the evicted key is the one used longest ago, and at least `capacity` distinct other keys were used since |
| LruHistory.ResidentIffRecent | system/common/lru.h:128-148 | without explicit removal, a key is present if and only if it was used and fewer than `capacity` distinct other keys were used since |
| MetricIdAllocator.Allocator.constructor | system/common/metric_id_allocator.cc:47-49 | a new allocator knows no device |
| MetricIdAllocator.Allocator.FindFreeId | system/common/metric_id_allocator.cc:128-135 | the search ends, by the cyclic distance left, at the first unused id in cyclic order from the cursor |
| MetricIdSpec.UsedIdsBounded | system/common/metric_id_allocator.cc:39-45 | the cache capacities keep the used ids fewer than the id space, colliding ids or not |
| MetricIdRuns.CompatibleRunKeepsBounded | system/common/metric_id_allocator.cc:128-135 | over any calls in which Init gives no device saved since Close another id, colliding ids and evictions included, the search for a free id ends |
| MetricIdHistories.RenumberingExhaustsIds | system/common/metric_id_allocator.cc:69-79 | a history without that: an Init that renumbers a full cache of devices saved after Close leaves every id in use, and the next search does not end |
| MetricIdSpec.FullCycle | system/common/metric_id_allocator.cc:128-135 | if a whole turn finds every id used then there are as many used ids as the id space has |
| MetricIdSpec.FirstFreeUnique | system/common/metric_id_allocator.cc:128-136 | the first unused id in cyclic order is unique |
| MetricIdSpec.ProbeIsSuccessor | system/common/metric_id_allocator.cc:129-133 | the cyclic order goes upward from the cursor and from the largest id to the smallest |
| MetricIdAllocator.Allocator.AllocateId | system/common/metric_id_allocator.cc:117-147 | returns the known id of a device or gives it the first unused one, freeing the id of the device it evicts |
| MetricIdAllocator.Allocator.SaveDevice | system/common/metric_id_allocator.cc:150-177 | moves a device from the temporary to the paired cache, between Init and Close or after Close, and answers true exactly when the device was paired already or was known and the callback answered true |
| MetricIdAllocator.Allocator.ForgetDevice | system/common/metric_id_allocator.cc:180-195 | forgets a paired device, frees its id and reports it; otherwise changes nothing |
| MetricIdAllocator.Allocator.ForgetDevicePostprocess | system/common/metric_id_allocator.cc:201-205 | frees the id and makes the forget callback, which every caller knows to be set |
| MetricIdAllocator.Allocator.Init | system/common/metric_id_allocator.cc:51-89 | loads the map in any order over the devices saved since Close, evicting and reporting when it does not fit, and which maps are fatal or refused |
| MetricIdAllocator.Allocator.Close | system/common/metric_id_allocator.cc:93-103 | empties both caches and the id set, keeping the cursor and the callbacks |
| MetricIdProofs.AllocateKeeps | system/common/metric_id_allocator.cc:117-147 | allocation keeps the invariant and storage; the id returned is valid, becomes the device's, and was in use by nobody if the device is new |
| MetricIdProofs.AllocateMoves | system/common/metric_id_allocator.cc:117-147 | the cursor goes one above an id given out, or to the smallest id after the largest, and else stays; the device becomes the most recent one |
| MetricIdProofs.SaveKeeps | system/common/metric_id_allocator.cc:150-177 | saving keeps the invariant, the id, and the agreement with storage, evictions and failed callbacks included, and what it answers |
| MetricIdProofs.SavePairs | system/common/metric_id_allocator.cc:150-169 | a known device ends up paired as the most recent one, an unknown one changes nothing |
| MetricIdProofs.SaveReports | system/common/metric_id_allocator.cc:167-176 | exactly the callbacks made: one for the device that leaves the paired cache, if any, then one for the device saved |
| MetricIdProofs.ForgetKeeps | system/common/metric_id_allocator.cc:180-205 | forgetting keeps the invariant and the agreement with storage |
| MetricIdProofs.ForgetReports | system/common/metric_id_allocator.cc:180-205 | one callback under the id of a paired device, and no effect on any other |
| MetricIdProofs.CloseKeeps | system/common/metric_id_allocator.cc:93-103 | closing leaves no device and no used id, and keeps cursor, callbacks and storage |
| MetricIdInit.LoadEvictsNothing | system/common/metric_id_allocator.cc:69-79 | loading a map that fits beside the devices saved since Close evicts nothing |
| MetricIdInit.FirstLoadEvictsNothing | system/common/metric_id_allocator.cc:69-79 | so no callback is made before the first Init has set it |
| MetricIdInit.LoadEntryActs | system/common/metric_id_allocator.cc:69-79 | one entry of the map, whatever the cache holds: it is the most recent, its id is in use, and exactly the device that leaves the cache is reported |
| MetricIdInit.InitKeepsIff | system/common/metric_id_allocator.cc:51-82 | given a map that fits, the invariant holds after Init if and only if no stored device has a temporary id, no two devices share an id and no used id is left without a device; storage agrees if and only if every device saved since Close is in the map |
| MetricIdHistories.DuplicateIdsCollide | system/common/metric_id_allocator.cc:69-82 | with duplicate ids in the map, forgetting one device lets a new one get the id the other still holds |
| MetricIdHistories.EarlyAllocationCollides | system/common/metric_id_allocator.cc:69-82 | an id given out before Init collides with the same id stored for another device |
| MetricIdHistories.SavedAfterCloseCollides | system/common/metric_id_allocator.cc:93-103 | a device saved between Close and the next Init collides with the same id stored for another device, and storage no longer agrees |
| MetricIdInit.InitCursor | system/common/metric_id_allocator.cc:68-82 | whatever the order of the map, Init leaves the cursor one above the largest id loaded, or at the smallest id if that leaves the range or nothing was loaded |
| MetricIdRuns.RunKeeps | system/common/metric_id_allocator.cc:51-205 | in every state reached with safe maps that hold the devices saved since Close, the id set is exactly the ids in the caches, no address and no id is shared, all are in range, and replaying the callbacks over Init's map gives the paired cache |
| MetricIdRuns.StepKeepsId | system/common/metric_id_allocator.cc:51-205 | a known device loses its id in a call if and only if the call closes an open allocator, forgets the device while paired, or evicts it; otherwise the id is unchanged |
| MetricIdRuns.RunKeepsId | system/common/metric_id_allocator.cc:117-205 | over any calls a device keeps one id until the first such call, and then has none |
| MetricIdRuns.RestartRestores | system/common/metric_id_allocator.cc:51-103 | Close and then Init with the replayed storage, in any order, restores exactly the paired ids |
| ModuleRegistry.Registry.constructor | system/gd/module.h:159-161 | a new registry has started nothing |
| ModuleRegistry.Registry.GetDependency | system/gd/module.cc:48-62 | a lookup fails as not listed, or as not started, exactly for such a module, and otherwise finds its instance |
| ModuleRegistry.Registry.StartModule | system/gd/module.cc:79-101 | started modules are returned; otherwise constructs, starts the dependencies, starts, registers, with every listed lookup succeeding when Start is called |
| ModuleRegistry.Registry.StartModules | system/gd/module.cc:68-72 | starts a list in order |
| ModuleProofs.StartListExtends | system/gd/module.cc:68-101 | start order stays duplicate-free with dependencies first, and each module reached and not yet started is constructed once and then started once, no other |
| ModuleProofs.StartOneBrackets | system/gd/module.cc:79-101 | a Start begins with the construction of its module and ends with its start, the dependencies it starts coming in between |
| ModuleProofs.StartsExactlyReachable | system/gd/module.cc:68-101 | afterwards exactly the modules started before and those reachable from the request are started |
| ModuleProofs.ReturnsIffRankable | system/gd/module.cc:79-101 | Start returns if and only if the dependencies reachable from the request can be ranked |
| ModuleProofs.ReturnsIffAcyclic | system/gd/module.cc:79-101 | among finitely many modules, Start returns if and only if no module that the request needs depends on itself, directly or not |
| ModuleProofs.CycleNeverReturns | system/gd/module.cc:79-101 | starting a module on a cycle never returns, whatever is started already |
| ModuleProofs.MutualDependencyNeverReturns | system/gd/module.cc:79-101 | two modules that list each other: Start of either does not return |
| ModuleRegistry.Registry.StopModules | system/gd/module.cc:105-116 | every lookup in start_order_ succeeds, Stop is called in reverse order, and each module can still reach its dependencies |
| ModuleRegistry.Registry.DeleteModules | system/gd/module.cc:117-125 | every lookup succeeds and the map ends empty, so neither assertion fails |
| ModuleRegistry.Registry.StopAll | system/gd/module.cc:103-127 | the calls it adds tear the started modules down, and the registry is as when constructed |
| ModuleProofs.StopAllTearsDown | system/gd/module.cc:103-127 | of the calls that StopAll adds: each started module is stopped once and deleted once, nothing else is, none is deleted before all are stopped, and when a module is stopped none of its dependencies has been |
| MessageLoopRuns.RunKeeps | system/common/message_loop_thread.cc:53-245 | in every interleaving the loop, run loop and thread id are set together and only with the thread, at most one worker exists and a shutdown has one joining caller |
| MessageLoopRuns.JoinerOwnsThread | system/common/message_loop_thread.cc:140-152 | the one caller that joins and deletes finds the thread set, exited when it deletes, and not deleted before |
| MessageLoopRuns.DeletionRestoresInitialState | system/common/message_loop_thread.cc:147-152 | after the deletion the object is as if never started and every worker so far was deleted by exactly one caller |
| MessageLoopRuns.ShutDownTakesEffectIff | system/common/message_loop_thread.cc:127-145 | a ShutDown goes on to join exactly when the worker is looping and no other shutdown is under way, and otherwise changes nothing |
| MessageLoopRuns.ShutDownCanFinish | system/common/message_loop_thread.cc:144-152 | once it goes on to join, the worker and the caller alone can always bring it to the deletion of the thread |
| MessageLoopRuns.StartUpCreatesIff | system/common/message_loop_thread.cc:66-75 | in every reachable state, after deletions too, StartUp creates a worker exactly when there is no thread |
| MessageLoopRuns.CallersReturn | system/common/message_loop_thread.cc:76-152 | a caller whose StartUp returned, or who deleted the thread, is free to call again |
| MessageLoopRuns.StartUpReturnsRunning | system/common/message_loop_thread.cc:76 | when StartUp returns, its worker has its loop and id set unless a shutdown is under way or the worker is gone |
| MessageLoopRuns.EarlyShutDownLeavesWorker | system/common/message_loop_thread.cc:132-135 | a ShutDown that arrives before the loop is set up returns and the worker goes on to run |
| MessageLoopObject.LoopThread.constructor | system/common/message_loop_thread.cc:38-49 | a new object is in the initial state of the protocol |
| MessageLoopObject.LoopThread.StartUp | system/common/message_loop_thread.cc:66-75 | the locked block makes the protocol step and creates a thread only if there is none |
| MessageLoopObject.LoopThread.ShutDown | system/common/message_loop_thread.cc:127-144 | the locked block makes the protocol step, the quit request included, and joins exactly when the protocol does |
| MessageLoopObject.LoopThread.DeleteThread | system/common/message_loop_thread.cc:147-152 | the second locked block makes the deletion step |
| MessageLoopObject.LoopThread.RunBegins | system/common/message_loop_thread.cc:215-229 | the block before the loop makes the start step of the worker |
| MessageLoopObject.LoopThread.RunEnds | system/common/message_loop_thread.cc:234-244 | the block after the loop makes the exit step of the worker |
| TimerRuns.RunKeeps | system/common/once_timer.cc:37-131 | the protocol invariant holds in every interleaving of calls, loop steps and loop deaths |
| TimerRuns.NoStaleStart | system/common/repeating_timer.cc:44-176 | once a CancelAndWait or schedule has returned, nothing scheduled before the step at which it was called ever starts, and after a schedule nothing scheduled before it returned |
| TimerRuns.OnceRunsAtMostOnce | system/common/once_timer.cc:118-131 | each OnceTimer schedule runs its closure at most once |
| TimerRuns.AtMostOneLiveCallback | system/common/repeating_timer.cc:139-164 | never are two callbacks queued that the wrapper has not retired |
| TimerRuns.StartedTaskIsCurrent | system/common/repeating_timer.cc:140-147 | what RunTask starts is the closure of the current schedule, on the scheduled thread: its CHECK cannot fail and the closure is not null |
| TimerCalls.CancelTakesEffect | system/common/repeating_timer.cc:86-116 | an earlier closure starts after a Cancel only if a cancel closure with a fresh promise went to the scheduled loop and is still queued |
| TimerCalls.CancelStopsEarlier | system/common/repeating_timer.cc:86-130 | once that closure has been taken or dropped, or at once if none was posted, nothing scheduled before the Cancel ever starts |
| TimerCalls.CancelActs | system/common/repeating_timer.cc:101-116 | whether Cancel posts its closure, last on the scheduled loop, or leaves nothing that can start |
| TimerCalls.CancelClosureUnschedules | system/common/repeating_timer.cc:118-130 | a cancel closure that runs leaves the timer unscheduled with nothing that can start |
| TimerCalls.ScheduleArms | system/common/once_timer.cc:48-69 | when Schedule returns exactly its closure is armed, once, on a live loop; on a dead one nothing is |
| TimerCalls.FiresIffArmed | system/common/repeating_timer.cc:139-147 | a callback that a loop takes starts its closure if and only if it is armed |
| TimerCalls.FiringActs | system/common/repeating_timer.cc:149-166 | the closure that starts is the armed one, and a repeating timer stays armed while a one-shot timer does not |
| TimerCalls.ScheduleExcludesCalls | system/common/once_timer.cc:42-47 | no other call on the timer is made between the call of Schedule and its return |
| TimerCalls.DestroyedThreadUnschedules | system/common/once_timer.h:81 | a timer whose thread object is gone is not scheduled |
| TimerProofs.StartableShrinks | system/common/once_timer.cc:104-131 | a schedule that cannot start any more never can again |
| TimerLoss.ScheduleSurvivesIff | system/common/once_timer.cc:47-131 | in every reachable state, whoever is waiting, an armed schedule stays armed without a further call if and only if, on each loop that is not blocked for good, no cancel closure is queued and no closure of a one-shot timer is running |
| TimerDiscipline.DisciplinedScheduleSurvives | system/common/once_timer.cc:37-131 | if callers always wait for a cancel, call one after another and leave a one-shot timer alone in its own closure, then no accepted schedule is lost |
| TimerDiscipline.RunKeepsOrder | system/common/once_timer.cc:73-131 | such runs keep at most one caller waiting, no cancel closure queued but the awaited one, and a closure of a one-shot timer running only on the scheduled thread, ahead of that cancel closure |
| TimerHistories.StaleCancelKillsSchedule | system/common/once_timer.cc:73-109 | a history that breaks only the first rule, in which the closure of an earlier Cancel cancels a later schedule |
| TimerHistories.SecondWaiterKillsSchedule | system/common/once_timer.cc:79-109 | a history in which two callers wait at once and the cancel closure of one cancels the schedule of the other |
| TimerHistories.ScheduleFromOwnTaskIsLost | system/common/once_timer.cc:118-131 | a history in which a one-shot timer scheduled from its own closure loses that schedule when the closure ends |
| TimerQuiescence.AwaitsClosuresIff | system/common/repeating_timer.cc:94-116 | for both timers, CancelAndWait and a schedule never return while an earlier closure runs on another thread if, and unless the loop they post to is blocked only if, the closures running elsewhere run on the scheduled thread at the call |
| TimerDiscipline.DisciplinedReturnIsQuiet | system/common/repeating_timer.cc:36-41 | under the rules no closure runs when a one-shot timer's blocking call returns, and for a repeating timer if its closure leaves it alone too |
| TimerHistories.ClosureOutlivesCancelAndWait | system/common/repeating_timer.cc:102-130 | a history in which a repeating timer's closure cancels its timer and another caller's CancelAndWait returns while that closure runs |
| TimerObject.Timer.constructor | system/common/once_timer.h:41 | a new timer is in the initial state of the protocol |
| TimerObject.Timer.CancelClosure | system/common/repeating_timer.cc:118-130 | the assignments make the cancellation of the protocol, which for a repeating timer drops the closure too |
| TimerObject.Timer.CancelHelper | system/common/repeating_timer.cc:101-116 | nothing, inline, or posted to the scheduled thread, as in the protocol |
| TimerObject.Timer.Cancel | system/common/repeating_timer.cc:86-91 | Cancel makes the protocol step |
| TimerObject.Timer.CancelAndWait | system/common/repeating_timer.cc:93-99 | CancelAndWait up to its wait makes the protocol step |
| TimerObject.Timer.Arm | system/common/once_timer.cc:48-69 | arming, and undoing it when the post fails, makes the protocol step |
| TimerObject.Timer.RunTask | system/common/once_timer.cc:119-129 | the closure is started exactly when the protocol starts it, with the fields the protocol then has |
| TimerObject.Timer.TaskEnds | system/common/once_timer.cc:130 | the end of RunTask makes the protocol step |
| RepeatingDeadline.RepeatingTimer.Schedule | system/common/repeating_timer.cc:44-82 | refuses periods below a microsecond and a null thread, undoes a failed post, else sets the first deadline one period after entry |
| RepeatingDeadline.RepeatingTimer.RunTask | system/common/repeating_timer.cc:149-163 | takes the deadline of each run to that of the next, and re-posts with 64-bit conversions and the truncating remainder |
| RepeatingDeadline.TruncModRepaired | system/common/repeating_timer.cc:153-157 | the double truncating remainder is the distance up to the next multiple |
| RepeatingDeadline.RunNotBeforeTick | system/common/repeating_timer.cc:139-163 | if the loop is never early, the n-th run is not before start plus n periods |
| RepeatingDeadline.RepostKeepsCadence | system/common/repeating_timer.cc:149-163 | every re-posted delay is between 0 and the period and lands a whole number of periods after the start: on the deadline, or when late on the first such instant from now |
| LeakyBondedQueue.LeakIsSuffix | system/common/leaky_bonded_queue.h:102-110 | enqueueing commutes with keeping only the last `capacity` items |
| LeakyBondedQueue.HoldsMostRecent | system/common/leaky_bonded_queue.h:102-110 | after any enqueues the queue holds the most recent items, oldest first |
| LeakyBondedQueue.Queue.constructor | system/common/leaky_bonded_queue.h:94-97 | a new queue is empty |
| LeakyBondedQueue.Queue.Enqueue | system/common/leaky_bonded_queue.h:102-110 | appends, dropping the oldest item when full, for every capacity but 0 |
| LeakyBondedQueue.Queue.EnqueueWithPop | system/common/leaky_bonded_queue.h:112-124 | nothing is lost: the item returned, if any, followed by the new contents is the old contents followed by the new item |
| LeakyBondedQueue.Queue.Dequeue | system/common/leaky_bonded_queue.h:126-132 | takes the oldest item of a queue known not to be empty |
| LeakyBondedQueue.Queue.Clear | system/common/leaky_bonded_queue.h:134-141 | pops until empty |
| A2dpSessionMetrics.CombineBounds | system/common/metrics.cc:83-92 | the combined integer average lies between the two and loses less than one from their weighted mean |
| A2dpSessionMetrics.SessionMetrics.Update | system/common/metrics.cc:94-149 | the field-by-field update is the merge of the two records |
| A2dpSessionMetrics.MergedTimers | system/common/metrics.cc:94-121 | after any complete updates min <= average <= max, the count is the sum of the counts, and rounding is bounded |
| A2dpSessionMetrics.AverageNearMean | system/common/metrics.cc:111-121 | the stored average is at most the true weighted mean and below it by less than the number of updates |
| A2dpSessionMetrics.MergedExtremes | system/common/metrics.cc:99-110 | the stored minimum and maximum are those of the updates |
| A2dpSessionMetrics.MergedTotals | system/common/metrics.cc:95-98 | durations, overruns and underruns are sums, and the underrun average over the reals is the exact weighted mean |
| A2dpSessionMetrics.MergedCodecAndOffload | system/common/metrics.cc:143-148 | the codec is that of the first update naming one; offload is set if any update sets it |
| A2dpAnyUpdates.AnyExtremesAndTotals | system/common/metrics.cc:94-131 | after any updates, whichever figures they set, minimum, maxima and totals are those of the figures set, and -1 where none was |
| A2dpAnyUpdates.AnyTimerAverage | system/common/metrics.cc:111-121 | the timer average and its count are those of the updates that set both |
| A2dpAnyUpdates.AnyUnderrunAverage | system/common/metrics.cc:132-142 | the underrun average and its count are those of the updates that set both |
| MetricsLogger.Logger.constructor | system/common/metrics.cc:258-293 | a new logger has an empty history |
| MetricsLogger.Logger.LogPairEvent | system/common/metrics.cc:295-311 | bounded queue and counter follow the unbounded history |
| MetricsLogger.Logger.LogWakeEvent | system/common/metrics.cc:313-328 | bounded queue and counter follow the unbounded history |
| MetricsLogger.Logger.LogScanEvent | system/common/metrics.cc:330-350 | bounded queue and counter follow the unbounded history |
| MetricsLogger.Logger.LogBluetoothSessionStart | system/common/metrics.cc:352-366 | ends a session still open as superseded and opens a new one |
| MetricsLogger.Logger.LogBluetoothSessionEnd | system/common/metrics.cc:368-390 | records the open session with its duration and reason and resets the A2DP figures |
| MetricsLogger.Logger.LogBluetoothSessionDeviceInfo | system/common/metrics.cc:392-401 | opens a session if needed and records the device, always as BR/EDR |
| MetricsLogger.Logger.LogA2dpSession | system/common/metrics.cc:403-437 | opens a session if needed, merges the figures and copies the totals into it |
| MetricsLogger.Logger.LogHeadsetProfileRfcConnection | system/common/metrics.cc:439-455 | counts the connection under its profile |
| MetricsLogger.Logger.CutoffSession | system/common/metrics.cc:486-499 | records the open session and continues it without A2DP figures |
| MetricsLogger.Drain | system/common/metrics.cc:505-528 | a loop of Build moves every item in order although its guard compares the list with the capacity |
| MetricsLogger.DrainGuardedBy | system/common/metrics.cc:529-534 | the loop that tests the session queue and dequeues wake events: safe, and without effect, when there is no session left |
| MetricsLogger.Logger.DrainAll | system/common/metrics.cc:501-534 | through all five loops every item is moved in order, all queues end empty and no empty queue is dequeued |
| MetricsLogger.Logger.WriteString | system/common/metrics.cc:457-467 | the dump holds the last records of each kind since the previous dump or reset, counts all of them, and the log is cleared |
| MetricsLogger.Logger.ResetAll | system/common/metrics.cc:550-572 | forgets everything except the headset counts |
| MetricsSpec.RunKeepsEvents | system/common/metrics.cc:295-350 | over any calls the records kept are exactly those logged since the latest dump or reset, in order |
| MetricsSessions.RunKeepsSessions | system/common/metrics.cc:352-437 | over any calls the session records are one for each start, end or dump that found a session open since the latest dump or reset, each with the technology of the call that opened it, the last device named, the merge of the A2DP updates since it was opened or cut off, its reason and its duration; the open session is as those calls left it |
| MetricsSessions.DumpHoldsRecent | system/common/metrics.cc:457-548 | a dump after any calls holds exactly the last min(n, capacity) of the n pair, wake, scan and session records since the previous dump or reset, oldest first, with n, the record of its own cut-off included |
| MetricsSpec.RunMergesA2dp | system/common/metrics.cc:403-437 | the open session carries the merge of exactly the updates since it was started or cut off |
| MetricsSessions.SessionRecord | system/common/metrics.cc:352-390 | after any calls a start and an end, stamped or timed by the clock, add the superseded record if any and one record with technology, device, A2DP figures, reason and whole seconds |
| MetricsSpec.RunCountsHeadset | system/common/metrics.cc:439-455 | over any calls each headset profile is counted exactly as often as it connected since the latest dump, resets notwithstanding |
| MetricsSpec.DumpCountsHeadset | system/common/metrics.cc:535-547 | a dump after any calls lists a profile with a count exactly when it connected that often, and at least once, since the latest dump |
| MetricsSpec.ResetKeepsHeadsetCounts | system/common/metrics.cc:565-572 | a dump after Reset lists the headset connections from before it |
| AudioPort.BluetoothAudioPort.constructor | system/audio_bluetooth_hw/device_port_proxy.cc:102-106 | a new port is disabled and not in use |
| AudioPort.BluetoothAudioPort.SetUp | system/audio_bluetooth_hw/device_port_proxy.cc:116-216 | a ready port goes to standby under its cookie; an unknown device changes nothing and one whose session is not ready only the session type |
| AudioPort.BluetoothAudioPort.TearDown | system/audio_bluetooth_hw/device_port_proxy.cc:218-232 | the port is no longer in use |
| AudioPort.BluetoothAudioPort.ControlResultHandler | system/audio_bluetooth_hw/device_port_proxy.cc:234-295 | the state reached from each state on each status |
| AudioPort.BluetoothAudioPort.SessionChangedHandler | system/audio_bluetooth_hw/device_port_proxy.cc:297-310 | disables the port |
| AudioPort.BluetoothAudioPort.OnEvent | system/audio_bluetooth_hw/device_port_proxy.cc:121-145 | events under another cookie are ignored |
| AudioPort.BluetoothAudioPort.CondwaitState | system/audio_bluetooth_hw/device_port_proxy.cc:408-438 | true exactly when the callbacks during the wait brought the state aimed at |
| AudioPort.BluetoothAudioPort.StartRequest | system/audio_bluetooth_hw/device_port_proxy.cc:440-461 | only a port in use and in standby starts, and it stays starting when the session control refuses |
| AudioPort.BluetoothAudioPort.SuspendRequest | system/audio_bluetooth_hw/device_port_proxy.cc:478-497 | only a port in use and started suspends |
| AudioPort.BluetoothAudioPort.StopStream | system/audio_bluetooth_hw/device_port_proxy.cc:512-525 | disables a port in use |
| AudioPort.DisabledAbsorbsEvents | system/audio_bluetooth_hw/device_port_proxy.cc:234-310 | no sequence of callbacks leaves the disabled state |
| AudioPort.UnusedPortStays | system/audio_bluetooth_hw/device_port_proxy.cc:440-525 | a port that is not in use changes neither on callbacks nor on requests |
| AudioStreamOut.LeavesDisabledIff | system/audio_bluetooth_hw/stream_apis.cc:346-418 | a step leaves the disabled state exactly when an A2DP stream gets A2dpSuspended other than "true" without being asked to close |
| AudioStreamRuns.DisabledUntilUnsuspended | system/audio_bluetooth_hw/stream_apis.cc:346-367 | over any calls, writes and callbacks a disabled stream stays so until then |
| AudioStreamOut.EntersStartedOnly | system/audio_bluetooth_hw/device_port_proxy.cc:261-272 | started is entered only from starting on a success result |
| AudioStreamOut.EntersStartingOnly | system/audio_bluetooth_hw/device_port_proxy.cc:452-455 | starting is entered only from standby by a resume |
| AudioStreamOut.TransitionIff | system/audio_bluetooth_hw/device_port_proxy.cc:234-310 | any step takes a registered stream to another state if and only if it is a cause of that change: eleven changes, each with its causes |
| AudioStreamRuns.RequestAndSuccess | system/audio_bluetooth_hw/device_port_proxy.cc:261-275 | resume and success reach started, standby or pause and success reach standby, whatever other calls, writes and callbacks come in between |
| AudioStreamOut.WaitsIff | system/audio_bluetooth_hw/device_port_proxy.cc:440-497 | a call goes on to wait if and only if the session control accepts it in the state it applies to |
| AudioStreamOut.WaitsFor | system/audio_bluetooth_hw/device_port_proxy.cc:408-438 | what a waiting call waits for, on whose behalf, and that it holds the mutex until its wait ends |
| AudioStreamOut.ClosingStrings | system/audio_bluetooth_hw/stream_apis.cc:394-418 | closing=true and exiting=1 disable a stream and clear both counters |
| AudioStreamOut.SuspendString | system/audio_bluetooth_hw/stream_apis.cc:346-360 | A2dpSuspended=true disables an A2DP stream that is not started |
| AudioStreamOut.UnsuspendString | system/audio_bluetooth_hw/stream_apis.cc:361-367 | A2dpSuspended=false brings a disabled one back |
| AudioStreamOut.ReachesWriteDataIff | system/audio_bluetooth_hw/stream_apis.cc:536-554 | a write passes on to WriteData if and only if a step of its own finds the port started |
| AudioStreamOut.RefusedIff | system/audio_bluetooth_hw/stream_apis.cc:540-549 | a write is refused if and only if its resume fails at once or waits in vain |
| AudioStreamOut.WriteReturns | system/audio_bluetooth_hw/stream_apis.cc:540-590 | what out_write returns: the bytes written, or when refused all bytes if disabled and else none |
| AudioStreamRuns.WriterKeepsBytes | system/audio_bluetooth_hw/stream_apis.cc:530-561 | the bytes that a write counts or reports are those it was called with |
| AudioStreamRuns.StartedByResumeAndSuccess | system/audio_bluetooth_hw/stream_apis.cc:661-690 | behind every started stream stand a resume from standby and a later success result, with nothing else in between |
| AudioStreamRuns.DisabledWriteDrops | system/audio_bluetooth_hw/stream_apis.cc:536-550 | a write that begins and ends while the stream is disabled reports all bytes consumed and counts no frames |
| AudioStreamRuns.RunCounts | system/audio_bluetooth_hw/stream_apis.cc:269-643 | over every interleaving both counters are sums of the whole frames of accepted writes since their last reset, and rendered is at most presented |
| AudioStreamObject.BluetoothStreamOut.StandbyOrPause | system/audio_bluetooth_hw/stream_apis.cc:269-296 | the code under the mutex makes the protocol step; which states return 0, -EBUSY or go on to Suspend |
| AudioStreamObject.BluetoothStreamOut.Resume | system/audio_bluetooth_hw/stream_apis.cc:661-690 | the same for resume, with -EINVAL exactly when disabled |
| AudioStreamObject.BluetoothStreamOut.SetParameters | system/audio_bluetooth_hw/stream_apis.cc:304-418 | parsing, suspension and closing in sequence make the protocol step, up to the wait if there is one |
| AudioStreamObject.BluetoothStreamOut.SuspendParameter | system/audio_bluetooth_hw/stream_apis.cc:346-367 | the A2dpSuspended branches make that part of the step |
| AudioStreamObject.BluetoothStreamOut.CloseParameters | system/audio_bluetooth_hw/stream_apis.cc:394-418 | closing and exiting, one after the other, have the effect of one stop |
| AudioStreamObject.BluetoothStreamOut.WriteEnds | system/audio_bluetooth_hw/stream_apis.cc:555-565 | a write that accepted data adds its whole frames to both counters |
| FeedingDelay.CalculateFeedingDelay | system/audio_bluetooth_hw/stream_apis.cc:53-132 | the latency is the report in whole milliseconds when good and within limits, else that of the buffer plus 200; with L its whole frames, the position is between presented less 2 L and L whatever the stack reports, and which counter it comes from |
| FeedingDelay.RoundTripMs | system/audio_bluetooth_hw/stream_apis.cc:93-94 | through both truncations an interval is never overstated and understated by at most 1 + 998 / rate milliseconds |
| FeedingDelay.LegacyDelayNearInterval | system/audio_bluetooth_hw/stream_apis.cc:806-807 | from 1000 Hz on the fallback latency is the interval in milliseconds plus 200, or one less |
| FeedingDelay.LegacyDelayBothOccur | system/audio_bluetooth_hw/utils.cc:60-62 | both values occur |
| AudioParams.SplitMeaning | system/audio_bluetooth_hw/utils.cc:35-41 | the pieces contain no delimiter and, joined by it, give the string back |
| AudioParams.ParseAudioParams | system/audio_bluetooth_hw/utils.cc:33-49 | the loop computes the fold over the segments |
| AudioParams.ParseJoined | system/audio_bluetooth_hw/utils.cc:33-49 | parsing two strings joined by ';' is the first parse overridden by the second, for all strings |
| AudioParams.ParseYieldsClean | system/audio_bluetooth_hw/utils.cc:37-46 | no parsed key is empty and no parsed key or value holds a delimiter |
| AudioParams.ParseKeyAlone | system/audio_bluetooth_hw/utils.cc:41-46 | a key without a value stands for the empty value |
| AudioParams.ParseDropsRest | system/audio_bluetooth_hw/utils.cc:41-46 | what follows a second '=' is dropped |
| AudioParams.ParseWithoutKey | system/audio_bluetooth_hw/utils.cc:38-45 | an empty segment and one with an empty key say nothing |
| AudioParams.PrintParameters | system/audio_bluetooth_hw/stream_apis.cc:503-506 | the loop prints the parameters in the order given |
| AudioParams.PrintJoins | system/audio_bluetooth_hw/stream_apis.cc:503-506 | each parameter is printed as key, equals sign, value and semicolon, one after the other |
| AudioParams.RoundTripIff | system/audio_bluetooth_hw/utils.h:27-36 | parsing what was printed gives the map back, in any print order, if and only if keys are not empty and nothing holds a delimiter |
| CallbackUtf.IsValidUtf | android/app/jni/com_android_bluetooth.h:56-112 | reads no further than the NUL and accepts exactly the texts that split into a lead byte with its continuation bytes |
| CallbackUtf.GroupedUnfolds | android/app/jni/com_android_bluetooth.h:57-110 | such a split is decided by the lead byte of each group |
| CallbackUtf.RfcTextIsGrouped | android/app/jni/com_android_bluetooth.h:56-112 | every text of the grammar in section 4 of RFC 3629 is accepted |
| CallbackUtf.GroupIsRfcCharIff | android/app/jni/com_android_bluetooth.h:57-110 | an accepted group is a character of the grammar if and only if it is no overlong form, surrogate or code point above U+10FFFF |
| CallbackUtf.RfcTextIff | android/app/jni/com_android_bluetooth.h:56-112 | a text is in the grammar if and only if it is accepted with no such group |
| CallbackUtf.AcceptedIsRfcIff | android/app/jni/com_android_bluetooth.h:56-112 | an accepted text is in the grammar if and only if none of its groups, which are unique, is of those three kinds |
| CallbackUtf.BeyondRfcIsAccepted | android/app/jni/com_android_bluetooth.h:77-107 | every group of one of those kinds is by itself an accepted text that the grammar does not have |
| CallbackUtf.AcceptsMoreThanRfc | android/app/jni/com_android_bluetooth.h:77-107 | each of the three kinds occurs |

## Left out

- The doubly linked list inside std::list: a list iterator is modelled as its node and the order as a sequence of nodes.
- MetricIdAllocator.Allocator.SaveDevice: a device that has an id is not saved before the first Init, because the callback it needs is not set; any other call is covered.
- MetricIdAllocator.Allocator.ForgetDevice: before the first Init only devices that are not paired are forgotten, because no other can exist.
- MetricIdInit.InitKeepsIff: for maps that fit into the paired cache beside the devices saved since Close, which every map does when there are none; when Init has to evict, which ids stay used depends on the order in which the hash map is visited.
- TimerQuiescence.AwaitsClosuresIff: the converse is for calls whose scheduled loop is not itself blocked in a timer call, because such a call need not return at all.
- MetricIdAllocator.Allocator.Init: the state after LOG(FATAL) is not described, because the process ends there.
- MessageLoopThread, TimerProtocol, AudioStreamOut: runs are reasoned about on values, with the classes tied to them block by block; races on single fields that no lock protects are not captured.
- TimerProtocol: posting to a live loop is taken to succeed, and a loop may run its closures in any order, so nothing is claimed about when a closure runs.
- The rust branch of MessageLoopThread, thread names, real-time scheduling and the timers' destructors.
- ModuleRegistry.Registry.StartModule: handlers, threads and what a module does in its own Start are not modelled.
- Test and fuzz registries, which inject modules out of dependency order, and the module dumper.
- MetricsLogger: calls are one after another; the window between a queue's lock and the log's lock is not modelled, nor are protobuf serialisation, base64, enum mapping functions and the RFCOMM part of a session.
- A2dpSessionMetrics.SessionMetrics.Update: integer overflow is not modelled and the underrun average is exact instead of a float.
- A2dpSessionMetrics.MergedTotals: the underrun average is over the reals, without the rounding of a float.
- LeakyBondedQueue.Queue.Enqueue: not for a capacity of 0, with which the source would pop an empty queue.
- AudioStreamOut: reloading the audio configuration, sleeping and write timestamps, metadata, volume, and the input stream.
- AudioPort: the HIDL port, which is a near copy, and the conversions of channel modes and sample formats.
- FeedingDelay.CalculateFeedingDelay: 64-bit overflow and the timestamp are not modelled.
- RepeatingDeadline.RunNotBeforeTick: for clock readings and periods below 2^63 microseconds.
- Id generator, state machine, addresses, stop watch, JNI bridges and the audio HAL interface, which would add easy members or depend on code that is not part of this model.
