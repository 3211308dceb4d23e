# Elevator controller — verified model

A Dafny model of the control logic of `controller.c` from the elevator
controller. It covers five parts:

- **Dispatcher.** A dispatcher loop reads hardware events and routes each one to a cabin.
- **Cabin workers.** One worker per cabin handles its events and drives the motor,
  the doors and the floor indicator.
- **Event buffer.** Each cabin has a buffer that is first-in first-out, except for
  position samples. A position sample goes to the front and overwrites a sample
  already waiting there.
- **Stop queue.** Each cabin has a stop queue whose insertion policy tries to serve
  a new floor on a leg the cabin already travels.
- **Cabin selection.** A hall call goes to the cabin with the lowest score, computed
  by walking its stop list.

Modules, one per component:

| module | file | models |
|---|---|---|
| `Hardware` | hardware.dfy | door, motor and button codes; the 0.05 floor tolerance |
| `StopQueues` | stop_queue.dfy | `new/destroy/push/pop/peek/size_stop_queue` and `elevator_information` |
| `Events` | events.dfy | the event kinds and `enqueue_event` on the per-cabin buffer table |
| `DoorInference` | door_inference.dfy | the door-state counter of the dispatcher's Position branch |
| `Selection` | selection.dfy | `distance_to_floor` and `get_suitable_elevator` |
| `Worker` | worker.dfy | the `elevator` worker: event handling, the action step, the shutdown drain |
| `Dispatching` | dispatcher.dfy | the start-up tables, one pass of `dispatcher`, the shutdown broadcast |

How the C state is modelled:

- **Global tables.** The per-cabin tables are indexed 1..N, with entry 0 unused as
  in C. `elevator_event_buffer` and `door_state_counter`, whose entries the
  dispatcher and the workers overwrite, are Dafny arrays. `elevator_info` is a
  sequence of `ElevatorInformation` objects, because only the objects it points
  to change.
- **Stop queue.** It is a class holding the list of floors as a `seq<int>` and a
  separate `size` field. The predicate `Valid()` ties the two together.
- **Worker state.** The worker's locals become fields of the class `Worker.Elevator`.
  Its methods are proved against pure functions of the state: `OnEvent` and
  `AfterEvents` for the drain loop, `Step` for the action step.
- **Hardware commands.** The calls `handle_motor`, `handle_door` and `handle_scale`
  are returned as a sequence of `Command` values.

Modelling assumptions:

- **Constants.** `hardwareAPI.h` is not part of this model. The door, motor and
  button codes are taken to be the integers 1, -1 and 0, as the code's use of them
  implies: `direction >= 0`, `elev_dir + direction > 0`, `handle_door(id, 1)` and
  `handle_door(id, -1)`.
- **Positions.** Positions are `real`, and the floor tolerance 0.05 is `1/20`.
  `round(position)` is an integer input of the operations that need it: `rounded`
  or `currentFloor`.
- **`push_stop_queue`'s position argument.** As in the code, it is ignored. The
  push reads the cabin's shared position, `info.position`.
- **Callers' preconditions.** A CabinButton or Position event must name a cabin in
  1..N. The code indexes its tables with that number unchecked.

Three behaviours of the code are kept exactly as written:

- **No final leg without a fit.** `distance_to_floor` adds no final leg when the
  caller fits on no leg (`controller.c:743`). `Selection.ScoreWithoutFitOmitsLastLeg`
  shows this on a concrete input.
- **The fit looks only at the next stop.** The fit test of `distance_to_floor`
  compares only the next stop with the caller's floor (`controller.c:721`, `:730`),
  never the start of the leg. A cabin at 5 with one stop at 8 fits an up call at 2
  and scores 3 (`Selection.FitIgnoresLegStart`).
- **The front test depends on the requested direction, asymmetrically.**
  `push_stop_queue` picks the sense of its front test from the sign of the cabin's
  heading plus the requested direction (`controller.c:808-823`). A cabin heading up
  never takes a down call in front of its first stop. A cabin heading down takes any
  floor on its first leg in front, an up call included
  (`StopQueues.FrontTestDependsOnRequest`, `StopQueues.FrontPlacementExamples`).

## Model

| member | source | states |
|---|---|---|
| StopQueues.StopQueue.constructor | controller.c:758-769 | a new queue is empty and its size is 0 |
| StopQueues.StopQueue.Destroy | controller.c:772-780 | returns 0 exactly when the queue is empty and 1 exactly when stops remain; the queue is never changed |
| StopQueues.StopQueue.Pop | controller.c:866-883 | on an empty queue returns -1 and changes nothing; otherwise returns the front floor, removes only that floor and decrements size; size keeps matching the list |
| StopQueues.StopQueue.Peek | controller.c:886-892 | returns -1 on an empty queue, the front floor otherwise; changes nothing |
| StopQueues.StopQueue.Size | controller.c:895-898 | returns the number of queued floors |
| StopQueues.ElevatorInformation.constructor | controller.c:225-226 | a cabin starts at position 0.0 holding the queue it is given |
| StopQueues.FirstSlotFrom | controller.c:826-852 | the walk from stop j stops at the first leg whose gap fits the new floor, or at the end; no earlier leg fits |
| StopQueues.InsertionIndex | controller.c:798-857 | index 0 exactly when the queue is empty or the front test holds (the sense of that test comes from the cabin's heading plus the requested direction); otherwise the first in-walk gap that fits, or the end |
| StopQueues.FirstFitIsInsertionIndex | controller.c:798-857 | any index satisfying the first-fit rules is the insertion index |
| StopQueues.Pushed | controller.c:783-863 | the stops after a push: the floor inserted at `InsertionIndex`; one longer than before, containing the floor and every old stop |
| StopQueues.Push | controller.c:783-863 | the list becomes the old list with the floor inserted at the policy's index (against `info.position`, not the argument); size grows by one and matches the list |
| StopQueues.PushInsertsExactlyOne | controller.c:783-863 | the result is one longer, holds the new floor at the insertion index, and removing it gives back the old list in order (same multiset plus the floor) |
| StopQueues.PushOnEmptyQueue | controller.c:797-799 | pushing onto an empty queue gives just that floor |
| StopQueues.PushAtFront | controller.c:808-824 | when the front test holds, the floor goes before the first stop |
| StopQueues.FrontTestDependsOnRequest | controller.c:808-823 | for a cabin heading up, the floor goes first exactly when it lies strictly between the cabin and its first stop and the request is not downwards; for a cabin heading down or standing at its first stop, exactly when it lies strictly on the first leg, whatever the request |
| StopQueues.FrontPlacementExamples | controller.c:808-857 | cabin at 3.0 with stops [5]: a down call for 4 gives [5, 4]; cabin at 7.0 with stops [3]: an up call for 5 gives [5, 3] |
| StopQueues.PushAppendsWhenNothingFits | controller.c:854-857 | when neither the front nor any gap fits, the floor is appended last |
| StopQueues.PushInWalkHonoursRequest | controller.c:828-850 | a floor placed inside the walk going up was requested with direction >= 0, going down with direction <= 0 |
| StopQueues.PushBetweenStopsExample | controller.c:826-852 | queue [5, 9], cabin at 3.0, cabin-button floor 7 (direction 0) gives [5, 7, 9] |
| StopQueues.RouteLengthAppend | controller.c:854-857 | appending a floor lengthens the route by the leg from the last stop |
| StopQueues.RouteLengthInsertBetween | controller.c:811-852 | inserting a floor that lies on an existing leg leaves the route length unchanged |
| StopQueues.PushAddsNoDetour | controller.c:798-857 | a front or in-walk placement adds no travel; only an appended floor adds its final leg |
| Events.Enqueued | controller.c:617-658 | a buffer after `enqueue_event`: a Position event replaces a Position at the front or is prepended, any other event is appended; the event is in the result, the length grows by one except when a Position is replaced, and no non-Position event is lost |
| Events.EnqueueEvent | controller.c:617-658 | only cabin `elevator`'s buffer changes, and it becomes the buffer with the event added by the Position-first rule |
| Events.EnqueueKeepsOtherEvents | controller.c:617-658 | the non-Position events of the buffer are the old ones with the new non-Position event appended: none is dropped or reordered |
| Events.EnqueuePositionFirst | controller.c:621-638 | a Position event ends at the front; the length is unchanged when a Position was already at the front, and one more otherwise |
| Events.PositionCoalescing | controller.c:630-631 | two Position events enqueued one after the other leave only the later one |
| Events.PositionsOnlyAtFrontCount | controller.c:617-658 | a buffer with Positions only at the front holds at most one, and exactly one when its front is a Position |
| Events.EnqueueKeepsPositionsAtFront | controller.c:617-658 | enqueuing keeps Position events at the front only, so at most one is waiting |
| Events.ConsumeKeepsPositionsAtFront | controller.c:491-495 | the worker removing the front event keeps that discipline |
| Events.TwoSamplesLeaveOnePosition | controller.c:617-658 | two samples enqueued before a drain leave exactly one Position event |
| DoorInference.Observe | controller.c:338-363 | the tracker after one sample and what is forwarded: the stored position is the sample; nothing is forwarded exactly when the sample repeats and the count does not reach 4; a forwarded event is a Position or Door event for that cabin; a Door event carries the flipped state, which is also the tracker's new state |
| DoorInference.InitialTrackerValid | controller.c:228-230 | the initial tracker has count 0 and state -1, so it is valid |
| DoorInference.ObserveStep | controller.c:338-363 | a repeat increments the count; at 4 the count restarts at 1, the state flips and one Door event with the new state is emitted; a new sample is forwarded, stored, and restarts the count at 1; the tracker stays valid |
| DoorInference.RepeatedSamples | controller.c:338-363 | k identical samples after a different one: the first is forwarded, a Door event with alternating state follows at the 4th, 7th, 10th ... sample, and the count is (k-1) mod 3 + 1 |
| DoorInference.OneDoorEventAfterFourthSample | controller.c:338-355 | from the 4th to the 6th identical sample exactly one Door event, with the flipped state, has been emitted |
| Selection.WalkStops | controller.c:717-740 | the distance and stop count of the walk: up to the first stop whose leg fits, adding the leg to the caller there and counting the stops passed; the count never exceeds the number of stops |
| Selection.Score | controller.c:702-745 | `distance + 3 * num_stops`, plus the plain distance when the queue is empty; at least 3 per stop counted |
| Selection.DistanceToFloor | controller.c:702-745 | the loop's score equals the reference score `Score` of the cabin's stop list |
| Selection.GetSuitableElevator | controller.c:583-603 | the chosen cabin is in 1..N, its score is minimal, and every lower-numbered cabin scores strictly more |
| Selection.LowestArgminIsUnique | controller.c:591-599 | the chosen cabin is determined by the scores alone |
| Selection.WalkIsRouteToFirstFit | controller.c:717-740 | the walk stops at the first stop that lies above the caller for an up call on a leg going up, or below it for a down call on any other leg, counts the stops before it, and its distance is the route to there plus the final leg; with no fit, the whole route and no final leg |
| Selection.RouteTriangle | controller.c:717-740 | detouring through stops is never shorter than travelling straight to the caller |
| Selection.ScoreBounds | controller.c:702-745 | scores are non-negative; an empty queue scores the plain distance; when the caller fits on some leg, the score is the plain distance plus 3 per earlier stop, at least |
| Selection.ScoreOnTheWay | controller.c:717-734 | a cabin whose first stop lies above the caller for an up call (first leg going up), or below it for a down call (first leg not going up), scores the plain distance |
| Selection.FitIgnoresLegStart | controller.c:719-734 | the fit depends on the start of the leg only through the leg's sense; a cabin at 5 with stops [8] fits an up call at 2 and scores 3 |
| Selection.ScoreWithoutFitOmitsLastLeg | controller.c:743 | with no fitting leg no final leg is counted: one stop at 1, cabin at 0, down call at 10 scores 4, less than the plain distance |
| Worker.OnEvent | controller.c:454-489 | the state after one event: a floor button pushes with its type, cabin floor 32000 pauses, another cabin floor unpauses and pushes with direction 0, Position and Door set position and door state; never changes direction or the visit flag, adds at most one stop, and only a cabin button changes the pause flag |
| Worker.Step | controller.c:500-555 | one action evaluation: the paused, arrival, departure and door-phase branches with their commands; never changes position or the pause flag, removes at most the front stop, sends at most 3 commands, all for this cabin |
| Worker.FirstShutdown | controller.c:478-483 | the index of the first Shutdown event, or the length; no earlier event is a Shutdown |
| Worker.Elevator.constructor | controller.c:429-436 | a worker starts at 0.0, not moving, door state DoorStop, floor visited, not paused, with an empty queue |
| Worker.Elevator.HandleEvent | controller.c:454-489 | a floor button pushes with its button type; cabin floor 32000 sets the pause flag without pushing; another cabin floor clears it and pushes with direction 0; Position updates both the local and the shared position; Door sets the door state; Shutdown is reported; other kinds change nothing |
| Worker.Elevator.HandleEvents | controller.c:448-496 | events are handled front first and removed until the buffer is empty or a Shutdown is reached, which stays in the buffer; the state is the old one after exactly those events; other buffers are untouched |
| Worker.Elevator.Act | controller.c:500-555 | the new state and the commands sent are those of the action step `Step` |
| Worker.Elevator.Shutdown | controller.c:559-563 | the drain loop empties the queue and the following destroy succeeds (status 0) |
| Worker.Elevator.Iteration | controller.c:441-563 | one round: drain the buffer, then either shut down (queue emptied, no commands) or take one action step on the resulting state |
| Worker.StepKeepsRanges | controller.c:500-555 | the action step keeps direction and door state in -1..1 |
| Worker.OnEventKeepsRanges | controller.c:454-489 | event handling keeps direction and door state in -1..1 when door events carry such a state |
| Worker.CabinButtonEffect | controller.c:459-471 | cabin floor 32000 only sets the pause flag; any other floor clears it and is pushed with direction 0 |
| Worker.PausedCabinHalts | controller.c:501-507 | a paused cabin that is moving gets a motor stop and direction 0; a paused standing cabin gets nothing; its stops are kept |
| Worker.ArrivalOpensDoors | controller.c:518-538 | on arrival (gap below 0.05) the motor is stopped exactly when it was moving, the doors are opened last, exactly the front stop is removed, and the door phase begins |
| Worker.IdleCabinDeparts | controller.c:540-544 | a standing cabin away from its next stop starts the motor with the sign of the gap, and nothing else changes |
| Worker.MotorStartsOnlyWhenIdle | controller.c:500-555 | the motor is started only from standstill, outside the door phase, and when not paused |
| Worker.DoorPhaseKeepsCabinStill | controller.c:546-554 | during the door phase only door commands are sent, and direction and stops are unchanged |
| Worker.DoorPhaseEndsOnClose | controller.c:546-554 | the floor becomes visited again exactly when the door state is DoorClose |
| Worker.StepServesAtMostOneStop | controller.c:518-538 | a step removes no stop, or exactly the front one, and then it opens the doors and begins the door phase |
| Worker.ArrivalScenario | controller.c:454-555 | cabin at 0.0, hall call for 5 going up: the cabin queues 5 and starts up; a sample of 4.97 is an arrival (motor stop, doors open, queue empty); the door-open report makes it close the doors; the door-closed report ends the visit at rest |
| Dispatching.Dispatcher.constructor | controller.c:215-231 | every cabin starts with an empty buffer, position 0.0, its own empty queue, and a tracker at 0.0 with count 0 and state -1 |
| Dispatching.Dispatcher.Dispatch | controller.c:302-389 | a floor-button event goes to the cabin `get_suitable_elevator` chooses; a cabin-button event goes to its cabin; a Position sample updates that cabin's tracker and forwards what the tracker emits; speed, error and unknown events change nothing and signal no cabin; only the signalled cabin's buffer and tracker change |
| Dispatching.Dispatcher.BroadcastShutdown | controller.c:260-265 | a Shutdown event is appended to every cabin's buffer |
| Dispatching.BroadcastReachesWorker | controller.c:260-265 | after the broadcast the worker's drain loop reaches a Shutdown, and the events queued before it are handled first, up to any earlier Shutdown |

## Left out

- The linked nodes of the stop queue and of the event buffers: both are sequences, so nodes are never relinked and never alias one another. The walk to the tail in `enqueue_event` is a sequence append.
- Allocation failure: `malloc` returning NULL in `new_stop_queue`, `push_stop_queue` (status 1) and `enqueue_event` is not modelled. Every allocation succeeds, so `Push` has no status result. `free` has no counterpart.
- Threads, mutexes, condition variables, the termination counter and the SIGTERM handler. The worker's wait is not modelled. One round of the worker, `Worker.Elevator.Iteration`, runs whenever it is called, and the concurrent interleaving of dispatcher and workers is not modelled.
- The dispatcher's outer `while (running)` loop and `waitForEvent`: `Dispatch` models one pass for one event. The signal (`pthread_cond_signal`) is the returned cabin number.
- `handle_motor`, `handle_door` and `handle_scale` are command values. `initHW` and `terminate` are not modelled.
- `round`, `roundl` and `lround` on positions: rounding is an integer input. The sign of the gap is computed exactly. Floating-point behaviour of `fabs` and of comparisons is not modelled.
- Fixed-width integers: floors, scores and counters are unbounded integers. The counter is a C `short`, but it never exceeds 4.
- `sleep(3)`, the door dwell, and `sleep(5)` at start-up are timing only.
- `main` and `parse_flags`: command-line parsing, thread creation and the wait for worker termination.
- `printq` and every verbose or error `printf` are logging only.
- `hwAPI_residuals/test.c` is a hardware smoke test with no controller logic.
