# Kuavo runtime: verified models

Dafny models of the hand-rolled concurrency protocols, the scheduler, the streaming pipeline and the
wire codecs of the Kuavo robot runtime, with proofs of what they promise.  `dafny verify dfyconfig.toml`
checks everything.

A protocol between threads is a state machine: one total step function in which each atomic load or
store, locked section or field copy is one step, and a run is any sequence of steps of any threads (a
step of a thread that cannot move changes nothing).  The main results are about every such run, by
invariants that every step keeps.  The loops, critical sections and data structures of the program are
classes and methods, proved equal to the steps or to functions on sequences and maps.

| module | models |
|---|---|
| TripleBuffer | the driver-station caches, rotated by a network thread and a refreshing thread |
| EventObjects | wpi events with waiters on condition variables |
| LegThread | the real-time leg thread: mailbox over an eventfd, pause handshake, 400 Hz schedule |
| EventCircuit | BooleanEvent combinators polled by an EventLoop |
| Bits, SpscRing, DoubleBuffer | the lock-free ring and staging buffer |
| Payload, Pipeline | Composer, ring and Logger, down to the bytes published |
| UnionFind | path halving on the systems of the simulator |
| PriorityQueue, Scheduler, TimerQueue | the heap, the TimedRobot loop, the wrap-tolerant timers |
| CanFrame, ImuAssembly | the IMU frames and their assembly under loss |
| LinearCode, MotorFrames, MotorLink, MotorCommands | the motor protocol between robot and simulated motors |
| EmergencyStop | staleness of the sources and the emergency stop |
| DsPacket | the driver-station packet |
| GrowableArray | the array template of the simulator library |

## Where the natural claim is false

- The initial role pointers let the second packet overwrite the cache being read
  (lib/ds/FRCDriverStation.cpp:126-130): `Separation` has the exact condition, `TornBeforeFirstRefresh` a run.
- A pause that times out returns while the controller runs (lib/robot/ControlledSubsystemBase.h:180-183):
  `OverlapExactly` and `OverlapPossibleIff` have the exact condition, `TimedOutPauseOverlaps` a run.
- Re-creating a live handle as signaled notifies nobody (lib/common/Synchronization.cpp:261-271): `NoLostWakeup`
  has the exact condition on the calls, `SleepsThroughRecreation` a run.
- Two publications during one read can tear it (include/mercury_shm.h:309-324): `WordExactIff` and `ReadExactIff`
  have the exact condition, `ReadWholeIff` that of an untorn read, `TornByTwoPublications` a run.
- A lost first IMU frame can complete the count of an earlier cycle (lib/imu/ImuReader.cpp:160-190):
  `ExactlyCompleteCycles` has the exact condition, `MixedPublication` an instance.
- A saturated MIT frame is read as a control command (tools/DamiaoSimulator.cpp:390-402): `MitIdentified`, and
  `MitMistaken` says as which; `MitDisables` is an instance.
- A position whose low byte is 0x33 or 0x55 is read as a parameter reply (lib/motor/Motor.cpp:86):
  `FeedbackFollowed`, `MistakenPositionReached`.
- A CAN id of 16 or more runs into the status (tools/DamiaoSimulator.cpp:685-686): `StatusReadsBack`, `StatusMisread`.
- `check_staleness` reads the clock before the timestamp (lib/composer/Composer.cpp:254-260), so that a fresh
  source can be called stale: `StaleExactly`, `FalseAlarm`.
- Through a signed char, button masks and hats are misread (lib/ds/FRCDriverStation.cpp:90-109): `PacketRoundTrip`,
  `SignedCharMisreads`.  Scaled axes are not those sent (lib/ds/FRCDriverStation.cpp:67-73): `AxisReversed`.

Where comments and code differ the models follow the code: lib/common/priority_queue.h:13 says that remove()
takes out all matching elements, but it takes out one; lib/composer/Composer.h:77-79 says stale means more than
the timeout, but it is at least the timeout; lib/imu/ImuReader.h:20-28 lists Euler angles in the slots that code
and simulator use for the gyroscope.

## Model

| member | source | states |
|---|---|---|
| TripleBuffer.Reachable | lib/ds/FRCDriverStation.cpp:124-231 | In every interleaving of packet arrivals, refreshes and getters the role pointers rotate, the caches hold what was copied so far, and the mutex has the right holder |
| TripleBuffer.Separation | lib/ds/FRCDriverStation.cpp:124-192 | While a packet is copied in, the cache being written is neither being read nor waiting, and these two differ, if and only if some refresh has already returned true or it is the first packet |
| TripleBuffer.TakesNewest | lib/ds/FRCDriverStation.cpp:194-231 | A refresh takes a packet exactly when one was given since the last take, and it is the newest one fully copied |
| TripleBuffer.ReadDataFixed | lib/ds/FRCDriverStation.cpp:176-231 | From the first refresh that returned true on, the joystick data read stays that of the packet taken until the next such refresh, whatever packets arrive |
| TripleBuffer.GettersUntorn | lib/ds/FRCDriverStation.cpp:142-174 | After the first refresh that returned true a getter never returns a mixture of two packets; outside a refresh the control word is that of the packet taken or zero |
| TripleBuffer.TakenWord | lib/ds/FRCDriverStation.cpp:194-231 | From the moment the control word of a packet is copied in, as long as no refresh clears a control word: whenever that packet is the one last taken and no refresh is under way, the control word the getters see is its; and while it is the one given last, a refresh loads its control word from the last given cache |
| TripleBuffer.DetachedClears | lib/ds/FRCDriverStation.cpp:215-228 | A refresh that has loaded a control word without bit 5 ends with control word 0, whatever packets arrive meanwhile, from the first one taken on |
| TripleBuffer.PacketThenRefresh | lib/ds/FRCDriverStation.cpp:176-231 | One packet and one refresh after it, from any reachable state: the getters see its joystick and its control word if bit 5 of that is set, otherwise 0 |
| TripleBuffer.NoJoystickLeavesStick | lib/ds/FRCDriverStation.cpp:113-118 | A packet without a joystick leaves the joystick data of the cache it is copied into alone |
| TripleBuffer.ZeroBeforeFirstPacket | lib/ds/FRCDriverStation.cpp:124-140 | Until the first packet arrives everything read is zero |
| TripleBuffer.TornBeforeFirstRefresh | lib/ds/FRCDriverStation.cpp:126-130 | A run with two packets before the first refresh in which a getter copies old axes and new buttons |
| TripleBuffer.DriverStation.constructor | lib/ds/FRCDriverStation.cpp:124-130 | The initial pointers are the initial state of the protocol |
| TripleBuffer.DriverStation.Update | lib/ds/FRCDriverStation.cpp:113-118 | Overwrites joystick and control word of the cache to update, or only the control word of a packet without joystick |
| TripleBuffer.DriverStation.NewDataOccur | lib/ds/FRCDriverStation.cpp:176-192 | One uninterrupted call does what the eight steps of the protocol do and wakes up the new-data events once |
| TripleBuffer.DriverStation.RefreshDSData | lib/ds/FRCDriverStation.cpp:194-231 | One uninterrupted call does what the seven steps of the protocol do, and returns true exactly if a packet was taken |
| EventObjects.StepKeepsInv | lib/common/Synchronization.cpp:35-304 | Every critical section, and every creation that leaves nobody asleep, keeps: signal counts are 0 or 1 and accounted for, a thread stands in a waiter list as often as in its handle list, and signaled events have notified those they must |
| EventObjects.Reachable | lib/common/Synchronization.cpp:179-304 | In every run of safe calls the invariant holds, and the threads ready to return from their condition wait are exactly those a set notified since their last pass |
| EventObjects.NoLostWakeup | lib/common/Synchronization.cpp:179-292 | Over all runs with any waiters, timeouts and re-creations: at every moment the waiters a signaled event has to wake are ready and their next pass returns with it, if and only if every creation is a safe call: of a new handle, unsignaled, with nobody registered, or with those to be notified already notified by a set |
| EventObjects.UnsafeCallLosesWakeup | lib/common/Synchronization.cpp:261-271 | The first unsafe creation leaves someone asleep on an event that is signaled |
| EventObjects.NoneLostWithoutRecreation | lib/common/Synchronization.cpp:179-292 | Without re-creation of live handles as signaled no wake-up is lost |
| EventObjects.SleepsThroughRecreation | lib/common/Synchronization.cpp:261-271 | A thread waits, its event is created again as signaled, and it sleeps on |
| EventObjects.DeliveredOncePerSet | lib/common/Synchronization.cpp:193-304 | From any creation of an auto-reset event to the next, in every run: its reports plus signals discarded plus the one pending equal its sets plus its initial state, so it is delivered at most that often |
| EventObjects.SetDelivers | lib/common/Synchronization.cpp:273-292 | After a set of an existing event, in every run, until it is reset, created again or passed over: the next wait for it returns at once with it |
| EventObjects.SetWakes | lib/common/Synchronization.cpp:273-292 | As long as nothing disturbs a set, every thread waiting for the event returns with it on its next pass, and those it has to wake, all of them or for auto-reset the one registered first, are ready for that pass |
| EventObjects.ManualSetDelivers | lib/common/Synchronization.cpp:273-292 | An event created as manual-reset stays signaled through any number of waits after a set, until it is reset or created again |
| EventObjects.ResetSilences | lib/common/Synchronization.cpp:294-304 | After a reset, or a creation as unsignaled, no wait returns with the event until it is set or created again |
| EventObjects.WaitOutcome | lib/common/Synchronization.cpp:193-242 | A wait returns at once, not timed out, if something in its list is signaled or missing; empty and timed out if its time-out is zero; otherwise it waits |
| EventObjects.ExpireOutcome | lib/common/Synchronization.cpp:237-258 | On its time-out a thread returns, timed out, with exactly what is signaled by then |
| EventObjects.NotifiesExactly | lib/common/Synchronization.cpp:285-291 | The notifying loop wakes every waiter, or for auto-reset the one registered first, and nobody else |
| EventObjects.RunListed | lib/common/Synchronization.cpp:226-252 | In every run, safe or not, a thread stands in a waiter list as often as the handle is in its list |
| EventObjects.RunMoves | lib/common/Synchronization.cpp:193-304 | Until an event is created again its ledger moves by the sets made and the reports returned |
| EventObjects.HandleManager.CreateSignalObject | lib/common/Synchronization.cpp:261-271 | A new or existing handle gets the new state and keeps its waiters; nobody is notified |
| EventObjects.ScanEffect | lib/common/Synchronization.cpp:194-215 | A pass over the handles resets exactly the signaled auto-reset events in the list and changes no waiter list |
| EventObjects.ReportsEffect | lib/common/Synchronization.cpp:194-219 | A pass reports nothing exactly if every handle exists and is unsignaled; it reports as signaled exactly the signaled ones and as errors exactly the missing ones |
| EventObjects.HandleManager.ScanHandles | lib/common/Synchronization.cpp:194-215 | The loop is the scan of the protocol; an output span that is too short cuts the reports, not the resets |
| EventObjects.HandleManager.AddWaiter | lib/common/Synchronization.cpp:226-232 | Registers the waiter once per occurrence of a handle |
| EventObjects.HandleManager.RemoveWaiter | lib/common/Synchronization.cpp:244-252 | Removes one registration per occurrence of a handle, creating missing entries as the code does |
| EventObjects.HandleManager.SetSignalObject | lib/common/Synchronization.cpp:273-292 | Signals an existing event and notifies all waiters, or the first one for auto-reset; a missing handle changes nothing |
| LegThread.Reachable | lib/robot/ControlledSubsystemBase.h:175-331 | Mailbox, pause handshake and schedule invariants hold in every sequentially consistent interleaving |
| LegThread.MessagesRunOnceInOrder | lib/robot/ControlledSubsystemBase.h:217-299 | With any number of producers, what was enqueued is what was run, the message in flight and the queue, in that order |
| LegThread.NoMailStranded | lib/robot/ControlledSubsystemBase.h:280-299 | Back at poll with mail queued, the eventfd counter is positive or a producer stands between enqueue and notify |
| LegThread.DrainsFrom | lib/robot/ControlledSubsystemBase.h:287-299 | From inside pop, three steps per message and two more run the whole queue and leave nothing to read in the eventfd |
| LegThread.OnePollDrainsAll | lib/robot/ControlledSubsystemBase.h:280-299 | One readable poll runs everything queued |
| LegThread.PausedMeansIdle | lib/robot/ControlledSubsystemBase.h:175-192 | After pause returned without timing out and until resume, controllerPeriodic is not running; it never runs before the subsystem is ready |
| LegThread.NoRunBeginsWhilePaused | lib/robot/ControlledSubsystemBase.h:308-327 | No run begins while a pause is held or being waited for |
| LegThread.OverlapExactly | lib/robot/ControlledSubsystemBase.h:175-192 | From a call of pause until resume, once it has returned: the controller is running if and only if the run that was inside when the flag was stored has not finished, and then more than 5 ms have passed |
| LegThread.OverlapNeedsLongRun | lib/robot/ControlledSubsystemBase.h:175-185 | A run inside the controller after pause returned was inside when the flag was stored, more than 5 ms ago, so a pause never returns over runs that take no longer |
| LegThread.LongRunOverlapped | lib/robot/ControlledSubsystemBase.h:175-185 | From every reachable state with the controller inside, a run that lasts more than 5 ms longer is overlapped by a pause that loads and then looks at the clock |
| LegThread.OverlapPossibleIff | lib/robot/ControlledSubsystemBase.h:175-185 | Some interleaving has pause returned over a running controller ns after the call, if and only if the controller is running at the call and ns is more than 5 ms |
| LegThread.RateBounded | lib/robot/ControlledSubsystemBase.h:308-326 | controllerPeriodic runs at most once per 2.5 ms since the start, plus once, despite catching up |
| LegThread.DeadlinesDoNotDrift | lib/robot/ControlledSubsystemBase.h:308-326 | Over every interleaving: as long as no run is begun more than one period after its deadline, the k-th deadline is the start plus k times 2.5 ms |
| LegThread.DeadlinesFrom | lib/robot/ControlledSubsystemBase.h:308-326 | The same from any state on, so also after a late run |
| LegThread.LateRunResets | lib/robot/ControlledSubsystemBase.h:321-325 | After a run begun more than one period late the next deadline is 2.5 ms after it was begun, after any other 2.5 ms after its own; and it never lies before the time the run was begun |
| LegThread.BegunWhenDue | lib/robot/ControlledSubsystemBase.h:308-309 | A run is begun exactly if its deadline has come and the subsystem is ready |
| LegThread.NeverBeforeReady | lib/robot/ControlledSubsystemBase.h:309-309 | Without a call of markReady the controller never runs |
| LegThread.PushEffect | lib/common/FdEvent.h:41-46 | A message enqueued and announced is last in the queue and the eventfd counts one more |
| LegThread.PauseLoop | lib/robot/ControlledSubsystemBase.h:178-184 | A pause that finds the controller idle returns with that load; one whose time is not over loads again |
| LegThread.ResumeEnds | lib/robot/ControlledSubsystemBase.h:190-192 | Resume ends a pause that has returned |
| LegThread.TimedOutPauseOverlaps | lib/robot/ControlledSubsystemBase.h:175-185 | A run in which pause, called at time 0 during the first run, returns at 5.000001 ms while that run is still inside |
| LegThread.Fifo.Push | lib/common/FdEvent.h:41-46 | Appends to the queue and adds one to the eventfd counter |
| LegThread.Fifo.Pop | lib/common/FdEvent.h:48-58 | Resets the counter and takes the oldest item, or nothing from an empty queue |
| LegThread.Fifo.Drain | lib/robot/ControlledSubsystemBase.h:292-296 | Takes everything queued, in order, and leaves queue and counter empty |
| EventCircuit.BindingsInOrder | lib/ds/EventLoop.cpp:18-27 | Bindings are in order of construction: an event is updated after its operands, an action runs after the update of its event |
| EventCircuit.CircuitIsStream | lib/ds/BooleanEvent.cpp:5-59 | For every event that stands for an expression over !, &&, \|\|, rising and falling, whenever and under whatever inputs its parts were constructed: from then on, whatever else is built, bound or polled, it has the value of the stream semantics from where the events are |
| EventCircuit.BuildDenotes | lib/ds/BooleanEvent.cpp:29-59 | Applying the combinators bottom-up gives an event that stands for the expression |
| EventCircuit.BuiltValue | lib/ds/BooleanEvent.cpp:5-11 | A new combination starts at the value of its operands, and a new edge low |
| EventCircuit.ExpressionFollowsStream | lib/ds/BooleanEvent.cpp:5-59 | Every expression built on a loop in any state, while inputs change, follows its stream from then on |
| EventCircuit.RisingActionPerEdge | lib/ds/BooleanEvent.cpp:21-49 | An action bound with ifHigh to rising() runs exactly once per poll that takes the event from low to high, whatever else is built, bound or polled |
| EventCircuit.EventLoop.Evaluate | lib/ds/BooleanEvent.cpp:29-59 | Runs the closure of a condition: its value, and what an edge detector captures |
| EventCircuit.EventLoop.MakeEvent | lib/ds/BooleanEvent.cpp:5-11 | Construction keeps cells and captured values equal to the meaning of the history |
| EventCircuit.EventLoop.IfHigh | lib/ds/BooleanEvent.cpp:21-27 | Binding an action changes no value |
| EventCircuit.EventLoop.PollOnce | lib/ds/EventLoop.cpp:22-27 | One in-order pass over the bindings leaves every cell, captured value and action run as the semantics of the history says |
| Bits.MaskIsMod | include/mercury_shm.h:238-247 | Masking with Capacity - 1 is the remainder by Capacity |
| Bits.CapacityTest | include/mercury_shm.h:228-229 | The compile-time test accepts exactly 0 and the powers of two |
| SpscRing.StepKeepsInv | include/mercury_shm.h:231-250 | Every load, store and copy step of push and pop keeps the counters, the unread slots and the log consistent |
| SpscRing.PoppedPrefixOfAccepted | include/mercury_shm.h:231-250 | In every interleaving what was popped is a prefix of what was accepted, whole elements in order; occupancy never exceeds Capacity; dropped counts the refused pushes and every push is accepted or refused |
| SpscRing.CopiesNeverMeet | include/mercury_shm.h:231-250 | A push never writes the slot of an unread element nor one being copied out |
| SpscRing.RefusedIffFull | include/mercury_shm.h:234-246 | A push is refused exactly if the ring is full when it loads the tail, a pop fails exactly if it is empty when it loads the head |
| SpscRing.PushCompletes | include/mercury_shm.h:231-241 | A push nobody interrupts is refused after one step if the ring is full, and accepted after four otherwise |
| SpscRing.PopCompletes | include/mercury_shm.h:243-250 | A pop nobody interrupts finds nothing after one step, or after four has taken the oldest element |
| SpscRing.SpscRingBuffer.Push | include/mercury_shm.h:231-241 | On a quiet ring: appends to the contents, or counts a drop exactly if full |
| SpscRing.SpscRingBuffer.Pop | include/mercury_shm.h:243-250 | On a quiet ring: removes the oldest element, or reports empty |
| DoubleBuffer.ReadExactUnlessOverrun | include/mercury_shm.h:309-324 | Each word of a finished read is from the publication current at the index load or from one begun after an index flip following that load; without such a one the read is exact |
| DoubleBuffer.WordExactIff | include/mercury_shm.h:309-324 | In every reachable state with a read in progress each word of its buffer is from the latest publication to write it, which is the one current at the index load if and only if the second one after it has not written that word yet |
| DoubleBuffer.ReadExactIff | include/mercury_shm.h:309-324 | A read interleaved with anything returns the publication current at its index load if and only if no word had been written by the second publication after it, or a later one, before the word was copied; then it is exactly the value published |
| DoubleBuffer.ReadWholeIff | include/mercury_shm.h:309-324 | A read returns one publication p, untorn, if and only if p was the latest to have written each word when it was copied |
| DoubleBuffer.SequenceWithIndex | include/mercury_shm.h:312-316 | The sequence number counts the publications made current, ahead by one only between its increment and the index flip |
| DoubleBuffer.TornByTwoPublications | include/mercury_shm.h:309-324 | A run in which two publications during one read tear it |
| DoubleBuffer.PublishCompletes | include/mercury_shm.h:309-317 | An uninterrupted publish makes its value current and counts it, and leaves the buffer current until then and any read going on alone |
| DoubleBuffer.ReadCompletes | include/mercury_shm.h:319-324 | An uninterrupted read returns the current buffer |
| DoubleBuffer.PublishThenRead | include/mercury_shm.h:309-324 | What was published last is what is read next |
| DoubleBuffer.SourceDoubleBuffer.Publish | include/mercury_shm.h:309-317 | The published value becomes current, the one current before stays in the other buffer, the sequence number grows by one and the heartbeat is the time stamp |
| DoubleBuffer.SourceDoubleBuffer.Read | include/mercury_shm.h:319-324 | Returns the current value |
| Payload.IntegerRoundTrip | include/mercury_shm.h:171-180 | A k-byte integer copied in little-endian order reads back |
| Payload.HeaderRoundTrip | include/mercury_shm.h:171-180 | The 32-byte header reads back field by field |
| Payload.HeaderLayout | include/mercury_shm.h:171-180 | The fields lie at their offsets in the 32 bytes, least significant byte first |
| Payload.BatchLayout | lib/logger/Logger.cpp:135-143 | The count follows the header, then four zero bytes |
| Payload.SplitConcat | lib/logger/Logger.cpp:143-143 | The pairs of a payload can be told apart again |
| Payload.BatchRoundTrip | lib/logger/Logger.cpp:130-146 | A serialized batch has 32 + payload_size bytes and decodes to its header and exactly its valid pairs |
| Payload.SerializeBatch | lib/logger/Logger.cpp:130-146 | The buffer filled by the copies is the payload of the batch |
| Pipeline.StepKeepsInv | lib/composer/Composer.cpp:223-247 | Every step of composer and logger, interleaved with the steps of the ring, keeps the accounting of pairs, batches and publications |
| Pipeline.NoPairLost | lib/composer/Composer.cpp:223-247 | Every composed pair is in exactly one flushed batch, in order, or still collected; batches hold four pairs but for one at shutdown; flushed = accepted + dropped, and never more than 256 wait |
| Pipeline.ComposeTakes | lib/composer/Composer.cpp:223-230 | Until shutdown, whenever no push is under way, the composer takes the next pair |
| Pipeline.FlushStamped | lib/composer/Composer.cpp:233-244 | A flush offers a batch numbered by the flushes before it and stamped with its time |
| Pipeline.EveryNthPublished | lib/logger/Logger.cpp:93-128 | The k-th batch popped is offered for publishing exactly when k is a multiple of the downsampling factor, with the same pairs, count, sequence number and time stamp and the other header fields set by the logger, and nothing else is |
| Pipeline.PublishedInOrder | lib/logger/Logger.cpp:93-128 | Published sequence numbers strictly increase |
| Pipeline.PayloadsDecode | lib/logger/Logger.cpp:106-146 | The payload published for it decodes to exactly the valid pairs of that accepted batch in their order, with the logger's robot id and the batch's own sequence number and time stamp, in 32 bytes and payload_size more |
| Pipeline.LoggerThread.DrainOnce | lib/logger/Logger.cpp:93-128 | With the composer standing still, takes up to ten batches from the ring and treats them as the protocol does |
| Pipeline.ComposerThread.FlushBatch | lib/composer/Composer.cpp:233-247 | Pushes the batch with its header, or counts it as dropped exactly if the ring is full, and starts a new one |
| Pipeline.ComposerThread.Accumulate | lib/composer/Composer.cpp:223-230 | Stores the pair and flushes exactly when the batch is full |
| UnionFind.AcyclicHasRank | srSimulator/srDyn/srConstraint.cpp:6-14 | Every acyclic parent forest has a measure that falls along the links |
| UnionFind.RankedIsAcyclic | srSimulator/srDyn/srConstraint.cpp:6-14 | A forest with such a measure is acyclic |
| UnionFind.HalveEffect | srSimulator/srDyn/srConstraint.cpp:10-10 | Linking a node to its grandparent keeps every root in the forest and lets no node sink |
| UnionFind.HalfDepth | srSimulator/srDyn/srConstraint.cpp:10-11 | One turn of the loop lowers the half-depth of the current node by one |
| UnionFind.FindSystem | srSimulator/srDyn/srConstraint.cpp:16-23 | Terminates with the root |
| UnionFind.FindSystemPathCompression | srSimulator/srDyn/srConstraint.cpp:6-14 | Terminates with the root the plain find gives, keeps the forest acyclic and every root in it, never increases a depth, and halves the depth of the start node, rounded up |
| PriorityQueue.TopIsGreatest | lib/common/priority_queue.h:66-66 | No element of a heap is greater than the top |
| PriorityQueue.PriorityQueue.Push | lib/common/priority_queue.h:68-82 | Adds the element and keeps the heap |
| PriorityQueue.PriorityQueue.Pop | lib/common/priority_queue.h:84-89 | Removes and returns the top, which none is greater than, and keeps the heap |
| PriorityQueue.PriorityQueue.MakeHeap | lib/common/priority_queue.h:95-95 | Makes a heap of whatever the vector holds |
| PriorityQueue.PriorityQueue.Remove | lib/common/priority_queue.h:91-100 | Removes one equal element and tells whether there was one |
| Scheduler.AdvanceEffect | lib/robot/TimedRobot.cpp:42-46 | The new expiry lies in (currentTime, currentTime + period] and stays congruent to start + offset modulo the period |
| Scheduler.PassStep | lib/robot/TimedRobot.cpp:50-58 | Running the top callback keeps: run callbacks were due and in order of expiry, the queue is what was there, run ones replaced by advanced ones |
| Scheduler.PassEnds | lib/robot/TimedRobot.cpp:50-58 | When nothing is due any more, exactly the due callbacks have run, once each |
| Scheduler.PassOnSchedule | lib/robot/TimedRobot.cpp:42-58 | A pass leaves every callback either never run or next due at the first point of its grid after the time of the pass |
| Scheduler.RunsIffGridPoint | lib/robot/TimedRobot.cpp:25-59 | A callback runs in a turn if and only if a point start + offset + k * period, k from 1 on, lies between the time of the turn before and this one, or, if it never ran, has come |
| Scheduler.RunsOncePerPoint | lib/robot/TimedRobot.cpp:25-59 | Over any turns at any times a callback runs exactly as often as there are turns since the one before which such a point has come: it stays on its grid, a point makes it run once, and points passed between two turns make it run once together |
| Scheduler.TurnIsTick | lib/robot/TimedRobot.cpp:40-58 | A turn does to the queue what it does to each callback by itself |
| Scheduler.TimedRobot.Turns | lib/robot/TimedRobot.cpp:25-59 | Any number of turns: every callback in the queue goes on as by itself, and each turn runs exactly those then due |
| Scheduler.TimedRobot.constructor | lib/robot/TimedRobot.cpp:62-67 | The queue starts with the main loop one period after the start |
| Scheduler.TimedRobot.AddPeriodic | lib/robot/TimedRobot.cpp:76-81 | Adds a callback first due at start + offset + period |
| Scheduler.TimedRobot.Turn | lib/robot/TimedRobot.cpp:25-59 | Each turn of the loop terminates, fires exactly the due callbacks once each in expiry order, puts them back advanced and aligned, and leaves nothing due and everything on schedule |
| TimerQueue.ComparatorExact | lib/common/GenericTimerQueue.h:131-135 | The wrapped comparison orders two timers correctly if and only if their ticks are within half the range of long |
| TimerQueue.ExpiredExact | lib/common/GenericTimerQueue.h:49-49 | The wrapped test finds a timer expired exactly if its tick has come |
| TimerQueue.GenericTimerQueue.Push | lib/common/GenericTimerQueue.h:33-38 | Adds a timer for now + interval, a negative interval counting as 0 |
| TimerQueue.GenericTimerQueue.PopExpired | lib/common/GenericTimerQueue.h:46-57 | Removes and returns an earliest timer that has expired; none means that none has |
| TimerQueue.GenericTimerQueue.PopAny | lib/common/GenericTimerQueue.h:64-71 | Removes and returns an earliest timer; none means that the queue is empty |
| TimerQueue.LessThan200msEarly | lib/common/TimerManager.cpp:44-72 | A timer whose tick has come fires less than 200 ms early |
| TimerQueue.NeverLate | lib/common/TimerManager.cpp:44-72 | Once the time asked for is over the tick of a timer has come |
| TimerQueue.AlmostThatEarly | lib/common/TimerManager.cpp:49-50 | That bound is nearly reached |
| TimerQueue.TimerManager.StartTimer | lib/common/TimerManager.cpp:44-54 | Adds exactly one timer under the next identifier, which is never zero |
| TimerQueue.TimerManager.GetExpiredTimer | lib/common/TimerManager.cpp:60-72 | Hands out an expired timer once, earliest tick first, less than 200 ms early; none only if no tick has come |
| TimerQueue.GetTopExpires | lib/common/TimerManager.cpp:74-109 | The least time left among the timers of both queues, 0 if one has expired, -1 exactly if there is none |
| CanFrame.BigEndianRoundTrip | tools/imuSimulator.cpp:246-250 | The identifier reads back |
| ImuAssembly.BuildCanFrame | tools/imuSimulator.cpp:241-255 | The 13 bytes of a frame |
| ImuAssembly.SendCycle | tools/imuSimulator.cpp:357-371 | The datagrams of a cycle, in order |
| ImuAssembly.FrameRoundTrip | lib/imu/ImuReader.cpp:145-157 | A frame reads back as its identifier and two values |
| ImuAssembly.FrameSlots | tools/imuSimulator.cpp:219-225 | Which values are in which frame |
| ImuAssembly.ExactlyCompleteCycles | lib/imu/ImuReader.cpp:145-206 | For every stream with any loss: exactly the complete cycles are published, each with its own acc and gyro values, numbered from 1, if and only if no cycle without its first frame fills up the count left over by earlier ones |
| ImuAssembly.ExactWhenFirstFramesArrive | lib/imu/ImuReader.cpp:160-162 | In particular if only frames other than the first are lost |
| ImuAssembly.MixedPublication | lib/imu/ImuReader.cpp:187-206 | A loss of one last and one first frame publishes a measurement mixed of two incomplete cycles |
| ImuAssembly.OtherTrafficIgnored | lib/imu/ImuReader.cpp:137-150 | Short datagrams and foreign identifiers change nothing, wherever they come |
| ImuAssembly.ImuReader.OnDatagram | lib/imu/ImuReader.cpp:136-206 | One datagram has the effect of the receiving step |
| ImuAssembly.ImuReader.Drain | lib/imu/ImuReader.cpp:134-207 | The receiving loop has the effect of the run over the stream |
| LinearCode.EncodeRange | lib/utility/Utility.cpp:11-16 | A code fits its bits |
| LinearCode.EncodeDecode | lib/utility/Utility.cpp:11-28 | Encoding the value of a code gives the code |
| LinearCode.DecodeEncode | lib/utility/Utility.cpp:11-28 | Decoding the code of x gives x clamped, less than one quantum too low |
| LinearCode.EncodeReaches | lib/utility/Utility.cpp:11-16 | A code is reached exactly from its value on |
| LinearCode.EncodeTop | lib/utility/Utility.cpp:11-16 | The greatest code means a value at or above the upper limit |
| MotorFrames.UnpackPack | lib/motor/Motor.cpp:148-156 | The five fields of a MIT command read back from its eight bytes |
| MotorFrames.PackUnpack | tools/DamiaoSimulator.cpp:534-538 | Every eight bytes are the packing of the fields read from them |
| MotorFrames.MitLooksLikeControl | tools/DamiaoSimulator.cpp:390-402 | The first seven bytes are 0xFF exactly if all fields are at their greatest and the torque code is at least 0xF00 |
| MotorFrames.StatusReadsBack | lib/motor/Motor.cpp:66-66 | A status of 0 or 1 reads back if and only if bits 4 to 7 of the CAN id are zero or equal to it |
| MotorFrames.StatusMisread | tools/DamiaoSimulator.cpp:684-686 | A disabled motor with CAN id 16 does not read as disabled |
| MotorFrames.FeedbackReadsBack | lib/motor/Motor.cpp:67-71 | All other fields of a feedback frame read back |
| MotorLink.AlwaysWithin | tools/DamiaoSimulator.cpp:445-521 | In every run of messages all motors stay within their limits, with temperatures that match the torque |
| MotorLink.MitIdentified | tools/DamiaoSimulator.cpp:382-434 | A MIT message is taken as one if and only if its parameters are not at or above every limit with the torque in its top sixteenth |
| MotorLink.MitMistaken | tools/DamiaoSimulator.cpp:390-402 | A MIT message mistaken for a control command clears errors, enables, disables or saves the zero position for torque codes 0xFFB to 0xFFE, and is ignored for the others |
| MotorLink.MitDisables | tools/DamiaoSimulator.cpp:390-402 | Full position, velocity and gains with torque code 0xFFD disable the motor |
| MotorLink.DisabledStandsStill | tools/DamiaoSimulator.cpp:445-600 | A disabled motor stays disabled and does not move, but for declaring its position zero, whatever messages arrive, until one enables it |
| MotorLink.ModeRouted | tools/DamiaoSimulator.cpp:338-353 | A command of another mode reaches the motor it is meant for if and only if no motor has its identifier and none is a greater offset below it |
| MotorLink.MitDelivered | tools/DamiaoSimulator.cpp:527-551 | It sets the target of the enabled motor to less than one quantum below the clamped parameters, moves it, and touches no other motor |
| MotorLink.RepeatedCommandConverges | tools/DamiaoSimulator.cpp:657-673 | After n equal commands every distance to the target is 0.9 to the n-th of what it was |
| MotorCommands.PosVelDelivered | tools/DamiaoSimulator.cpp:553-566 | A position and velocity command that reaches an enabled motor sets exactly these two targets and moves it; the rest of its target and the other motors stay |
| MotorCommands.VelocityDelivered | tools/DamiaoSimulator.cpp:568-579 | A velocity command sets exactly that target |
| MotorCommands.PosForceDelivered | tools/DamiaoSimulator.cpp:581-598 | A position and force command sets the position, the velocity as hundredths and the torque as ten-thousandths of its limit |
| MotorCommands.ModeRejected | tools/DamiaoSimulator.cpp:553-598 | A motor that is not enabled takes no target |
| MotorCommands.MovesATenth | tools/DamiaoSimulator.cpp:657-670 | Every move goes a tenth of the way to its target, cut off at the limits, and takes the target over |
| MotorCommands.ControlEffects | tools/DamiaoSimulator.cpp:461-481 | What each control command changes, and that nothing else changes |
| MotorCommands.ControlAnswered | tools/DamiaoSimulator.cpp:390-402 | The four control commands are answered with feedback, other last bytes not at all |
| MotorCommands.ModeAnswered | tools/DamiaoSimulator.cpp:483-520 | Commands of the other modes are answered with feedback, taken or rejected |
| MotorCommands.MitAnswered | tools/DamiaoSimulator.cpp:483-520 | So are MIT commands |
| MotorCommands.RefreshAnswered | tools/DamiaoSimulator.cpp:507-520 | A refresh changes nothing and is answered with feedback |
| MotorCommands.HighIdentifierIgnored | tools/DamiaoSimulator.cpp:338-341 | An identifier beyond 16 bits finds the motor of its low bits but is no command to it |
| MotorCommands.NewMotorIs | tools/DamiaoSimulator.cpp:106-138 | State and registers of a motor that nothing was sent to |
| MotorLink.FeedbackParses | lib/motor/Motor.cpp:60-80 | Feedback of a motor within limits parses to less than one quantum below its state, with temperatures exact up to 255; the status is exact if and only if the CAN id allows it |
| MotorLink.FeedbackFollowed | lib/motor/Motor.cpp:222-247 | After any messages, feedback of a motor with CAN id below 16 makes the robot follow it with the exact status, unless the position low byte is 0x33 or 0x55; then the state is not updated |
| MotorLink.MistakenPositionReached | lib/motor/Motor.cpp:86-86 | One enable and one MIT command bring a motor with any limits to such a position |
| MotorLink.DamiaoMultiSimulator.constructor | tools/DamiaoSimulator.cpp:209-233 | All motors start within limits |
| MotorLink.RegisterWritten | tools/DamiaoSimulator.cpp:639-651 | Writing a register of a motor sets that register and nothing else |
| MotorLink.RegisterQueried | tools/DamiaoSimulator.cpp:605-637 | A query changes no motor |
| MotorLink.RegisterRead | lib/motor/Motor.cpp:82-100 | The reply for a register, read by the robot, gives its contents, 0 if it has none |
| MotorLink.RegisterReply | tools/DamiaoSimulator.cpp:617-637 | The bytes of a reply, and which registers are integers |
| MotorLink.WrittenIsRead | tools/DamiaoSimulator.cpp:605-651 | What was written to a register is what the robot reads from the answer to the write or to a later query, for integer and float registers |
| MotorLink.TruncatedTowardsZero | lib/motor/Motor.cpp:44-47 | Stored parameters are cut towards zero |
| MotorLink.DamiaoMultiSimulator.HandleCommand | tools/DamiaoSimulator.cpp:445-521 | Has the effect of the message on the motors and their registers, keeps them within limits and answers with the feedback or the register of the motor addressed exactly for commands that have an answer |
| MotorLink.DamiaoMultiSimulator.BuildFeedbackFrame | tools/DamiaoSimulator.cpp:679-707 | The 13 bytes of a feedback frame |
| MotorLink.Motor.SetMitControl | lib/motor/Motor.cpp:139-156 | The eight bytes of a MIT command |
| MotorLink.Motor.Callback | lib/motor/Motor.cpp:222-250 | Stores the parameter of data that look like a parameter reply, takes over a parsed state otherwise, and ignores data that are too short |
| EmergencyStop.ElapsedExact | lib/composer/Composer.cpp:257-261 | The unsigned comparison calls a source stale exactly if its time is 0, after now, or at least the timeout ago |
| EmergencyStop.StaleExactly | lib/composer/Composer.cpp:197-271 | In every interleaving of composer and check, a source is stale if and only if no new sequence number was seen for the timeout, or one was stored after the check had read the clock |
| EmergencyStop.StaleIffQuiet | lib/composer/Composer.cpp:197-271 | With the latest stored time not after the clock reading: stale if and only if no new sequence number was seen for the timeout |
| EmergencyStop.ChangesAreNew | lib/composer/Composer.cpp:197-210 | The times stored are the start and those of the composer cycles that read another sequence number than the cycle before them |
| EmergencyStop.FalseAlarm | lib/composer/Composer.cpp:253-261 | In any state between cycles and checks: a source that changes between clock reading and load of the next check is called stale by it |
| EmergencyStop.CheckStaleness | lib/composer/Composer.cpp:253-271 | Each bit of the mask is its source's verdict |
| EmergencyStop.StopIffCause | src/Robot.cpp:214-268 | Over every run of cycles the stop is raised if and only if some cycle saw an operator stop edge, stale commands, the controller's stop or a stale IMU for the 21st time in a row |
| EmergencyStop.StopStays | src/Robot.cpp:214-268 | Once raised, the stop is never cleared |
| EmergencyStop.StopIffSilent | src/Robot.cpp:223-237 | Composer, checks and supervision together, in every interleaving: the stop is raised if and only if a cycle gave another reason or at 21 checks in a row no new IMU sequence number had been seen for 50 ms or one was just being stored |
| EmergencyStop.SilentImuStops | src/Robot.cpp:226-234 | An IMU of which nothing new is seen after a time raises the stop at the 21st check from 50 ms after it on |
| EmergencyStop.LivelyImuNeverStops | src/Robot.cpp:226-237 | One whose changes are seen in time, without that race, at one check in every 21, never does |
| EmergencyStop.LegDisabledIffSilent | src/Robot.cpp:239-247 | In every interleaving a cycle disables a leg if and only if, at its check, no new sequence number of that motor group had been seen for 100 ms or one was just being stored |
| EmergencyStop.Robot.RobotPeriodic | src/Robot.cpp:214-268 | One cycle has the effect of the supervision step and disables exactly the legs whose motor group is stale |
| EmergencyStop.Robot.Cycle | src/Robot.cpp:214-247 | A cycle with its check: the left leg is disabled exactly if motor group A is stale, the right one if group B is, and the IMU count goes on or restarts |
| EmergencyStop.Robot.Supervised | src/Robot.cpp:214-268 | Any number of cycles raise the stop exactly if one of them gave a reason |
| DsPacket.FlagBit | tools/PackageGenerator.cpp:216-223 | Bit j of the button mask is button j |
| DsPacket.EncodeJoystick | tools/PackageGenerator.cpp:200-232 | The bytes of one joystick |
| DsPacket.PackageGenerator.CreateRobotPacket | tools/PackageGenerator.cpp:104-238 | The packet, with time data if asked for and joysticks only after the fifth, and the counter advanced |
| DsPacket.ControlWordBits | tools/PackageGenerator.cpp:114-133 | The bits of the control byte are the configuration |
| DsPacket.PacketHead | tools/PackageGenerator.cpp:104-161 | Packet number, version, control, request and station bytes |
| DsPacket.PacketTime | tools/PackageGenerator.cpp:164-208 | The time data byte by byte, and size and tag of the first joystick |
| DsPacket.NoJoystickIgnored | tools/PackageGenerator.cpp:195-195 | The first five packets, and any without a joystick, end before the joystick data and leave the decoded joystick alone |
| DsPacket.AxisByteExact | tools/PackageGenerator.cpp:102-102 | An axis byte counts steps of 2/255 from the left end, rounded down |
| DsPacket.ScaledExact | lib/ds/FRCDriverStation.cpp:67-73 | How raw bytes are scaled |
| DsPacket.JoystickDataCache.Update | lib/ds/FRCDriverStation.cpp:113-118 | Takes over what the three decoders read, or only the control word without a joystick |
| DsPacket.ReadAxes | lib/ds/FRCDriverStation.cpp:44-76 | The axis loops read the raw bytes and scale them |
| DsPacket.ReadPovs | lib/ds/FRCDriverStation.cpp:79-95 | The hat loop reads the values |
| DsPacket.PacketRoundTrip | lib/ds/FRCDriverStation.cpp:43-118 | For every first joystick within the arrays, sent with time data after packet 5: raw axes, counts and control byte are recovered; button mask and hats are if and only if char is unsigned or no byte of the mask and no low byte of a hat has its top bit set |
| DsPacket.SignedCharMisreads | lib/ds/FRCDriverStation.cpp:90-109 | In every packet of the generator with the eighth button pressed and a hat sent as -1, a signed char makes the hat -257 and the mask 0xFFFFFF80 |
| DsPacket.AxisReversed | lib/ds/FRCDriverStation.cpp:67-73 | The scaled value of an axis sent by the generator is never the value sent: it is negative exactly if the axis was pushed by 1/255 or more, and 1 for an axis at rest |
| GrowableArray.RemoveFirstAt | srSimulator/LieGroup/_array.h:297-323 | Removing the first match is removing the item at the index found |
| GrowableArray.RemoveFirstCount | srSimulator/LieGroup/_array.h:297-323 | Exactly one occurrence goes |
| GrowableArray.RemoveFirstKeepsOthers | srSimulator/LieGroup/_array.h:297-323 | All other items keep their order |
| GrowableArray.Array.AddTail | srSimulator/LieGroup/_array.h:196-208 | Appends; a full buffer grows to four times the new size, any other stays |
| GrowableArray.Array.CheckAddTail | srSimulator/LieGroup/_array.h:213-229 | Appends unless the value is there |
| GrowableArray.Array.AddAll | srSimulator/LieGroup/_array.h:234-249 | Appends another array, or the array itself |
| GrowableArray.Array.AddHead | srSimulator/LieGroup/_array.h:254-271 | Prepends, in place or into a new buffer |
| GrowableArray.Array.Pop | srSimulator/LieGroup/_array.h:276-284 | Removes the item at an index; any other index changes nothing |
| GrowableArray.Array.Find | srSimulator/LieGroup/_array.h:166-176 | The first index of the value, or -1 |
| GrowableArray.Array.FindNext | srSimulator/LieGroup/_array.h:181-191 | The first index after the given one, or -1 |
| GrowableArray.Array.Remove | srSimulator/LieGroup/_array.h:297-300 | Deletes exactly the first match |
| GrowableArray.Array.FindPop | srSimulator/LieGroup/_array.h:305-322 | Deletes exactly the first match too, because its inner loop leaves the outer counter at zero |
| GrowableArray.Array.SetSize | srSimulator/LieGroup/_array.h:106-124 | Sets the size, keeping the items if asked to or if the buffer is large enough |
| GrowableArray.Array.Clear | srSimulator/LieGroup/_array.h:289-295 | Leaves nothing |

## Left out

- C++ weak memory: all interleavings are sequentially consistent; the pause handshake uses release and acquire
  only, and its result rests on that assumption.
- IEEE-754 rounding, infinities and NaN: motor arithmetic is over the reals; a float32 is its bit pattern on the
  wire, and where the motor link reads or writes one these are arbitrary functions.
- Wrap-around of 64-bit counters in the ring, the sequence numbers and the scheduler clock, overflow of the
  eventfd counter, and the wrap of event handles after 2^24 events.  The 32-bit stale counter and the timer ticks
  do wrap.
- destroyEvent and the semaphores of lib/common/Synchronization.cpp: clean-up re-creates destroyed handles and
  release reads the wrong table, so the wake-up guarantee does not extend to them.  The shutdown flag is taken as unset.
- EventObjects.NoLostWakeup: the output span of a wait is at least as long as its handle list; a shorter one can consume
  a signal without reporting it.
- std::push_heap, pop_heap and make_heap are textbook sifting; only their specification matters to the results.
- TripleBuffer.DriverStation.Update: each decoded struct is one number, so one copy step stands for the copy of a
  whole struct; the bytes are in DsPacket.
- TripleBuffer.DriverStation.RefreshDSData: the class runs one call without interruption; interleavings are in the
  protocol on values.
- DsPacket.PacketRoundTrip: the record size byte is only used as a presence flag; axes lie between -1 and 1; bytes
  after the payload read as zero and counts beyond the decoder's arrays, which the generator never sends, are not modelled.
- ImuAssembly.ExactlyCompleteCycles: duplicated or reordered frames, the time stamp and the incremental angle are not
  modelled; the staging buffer is attached throughout; base id + 5 fits in 32 bits.
- MotorLink.DamiaoMultiSimulator.HandleCommand: both ends have the same limits, which the program's tables do not; an
  integer register keeps its 32 bits, where the program rounds it to a float32.
- MotorLink.Motor.Callback: the cache of three parameters for the Composer is not modelled.
- MotorLink.MitDelivered: the message is taken as sent with the motor's own identifier, other than 0x7FF; routing in
  UdpServer is left out.
- TimerQueue.GenericTimerQueue.Push: live timers must lie within half the range of long of each other, as the
  comparator needs.
- TimerQueue.TimerManager.StartTimer: the event object carried by a timer is its identifier.
- Scheduler.TimedRobot.Turn: sleeping returns no earlier than asked, and callbacks do not add callbacks.
- Pipeline.EveryNthPublished: publish_binary is not modelled beyond being offered the payload; its queue may still drop it.
- Pipeline.NoPairLost: the contents of a pair (the snapshot of all sources) are opaque bytes of the right size.
- EmergencyStop.StaleExactly: one source at a time, times positive and below 2^63 ns.
- EmergencyStop.StopIffCause: composer and shared memory attached; the operator's button combination is given as its
  edge, since the bindings in src/Robot.cpp capture local events by reference.
- EventCircuit.CircuitIsStream: events of one loop; actions that change the loop while it polls are not modelled.
- GrowableArray.Array.FindNext: an index beyond the last item, for which the program's loop does not end, is excluded.
- GrowableArray.Array.AddTail: the value is not a reference into the buffer.
- Thread start and stop, sockets, epoll, shared-memory mapping, YAML, logging, UdpServer's pending replies, the MQTT
  client, the renderer, the physics library and the getter wrappers.
- SPSCRingBuffer::size(), an estimate of two loads; the heartbeat store is in the class of the double buffer only.
- TripleBuffer.DriverStation.NewDataOccur: waking the new-data events is a count; the events are in EventObjects.
