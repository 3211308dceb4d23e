/**
 * The cabin worker: one per cabin. Each round it takes every event waiting in
 * its buffer (updating its position, door state, pause flag and stop queue),
 * then evaluates one action, which may command the motor, the doors and the
 * floor indicator. Hardware commands are returned as a sequence of values.
 */
module Worker {
  import opened Hardware
  import opened StopQueues
  import opened Events

  /** A cabin-button press for this floor pauses the cabin instead of adding a stop. */
  const PauseFloor: int := 32000

  /** A command sent to the hardware. */
  datatype Command =
    | MotorCmd(cabin: int, action: int)
    | DoorCmd(cabin: int, action: int)
    | ScaleCmd(cabin: int, floor: int)

  /**
   * The worker's state: position, travel direction, door state, whether the
   * last stop has been fully served (`floorVisited`), the pause flag, and
   * the stops of its queue.
   */
  datatype WorkerView = WorkerView(position: real, direction: int, doorState: int,
                                   floorVisited: bool, paused: bool, stops: seq<int>)

  /** The state a worker starts in. */
  function InitialView(): WorkerView
  {
    WorkerView(0.0, MotorStop, DoorStop, true, false, [])
  }

  /** The effect of one event (other than Shutdown) on the worker's state. */
  function OnEvent(v: WorkerView, e: Event): (r: WorkerView)
    ensures r.direction == v.direction && r.floorVisited == v.floorVisited
    ensures r.stops == v.stops || |r.stops| == |v.stops| + 1
    ensures r.paused != v.paused ==> e.CabinButton?
  {
    match e
    case FloorButton(floor, buttonType) =>
      v.(stops := Pushed(v.stops, floor, buttonType, v.position))
    case CabinButton(_, floor) =>
      if floor == PauseFloor then v.(paused := true)
      else v.(paused := false, stops := Pushed(v.stops, floor, 0, v.position))
    case Position(_, p) => v.(position := p)
    case Door(_, s) => v.(doorState := s)
    case _ => v
  }

  /** The state after handling `evs` in order. */
  function AfterEvents(v: WorkerView, evs: seq<Event>): WorkerView
    decreases |evs|
  {
    if evs == [] then v else OnEvent(AfterEvents(v, evs[..|evs| - 1]), evs[|evs| - 1])
  }

  /** The index of the first Shutdown event, or `|evs|` if there is none. */
  function FirstShutdown(evs: seq<Event>): (k: nat)
    ensures k <= |evs|
    ensures forall i :: 0 <= i < k ==> !evs[i].Shutdown?
    ensures k < |evs| ==> evs[k].Shutdown?
  {
    if evs == [] then 0
    else if evs[0].Shutdown? then 0
    else 1 + FirstShutdown(evs[1..])
  }

  datatype StepResult = StepResult(after: WorkerView, commands: seq<Command>)

  /** A cabin at `position` is at floor `floor`. */
  predicate Arrived(floor: int, position: real) {
    AbsReal(floor as real - position) < DiffAtFloor
  }

  /** One action evaluation of cabin `id`; `rounded` is the position rounded to a floor. */
  function Step(id: int, v: WorkerView, rounded: int): (r: StepResult)
    ensures r.after.position == v.position && r.after.paused == v.paused
    ensures r.after.stops == v.stops || (v.stops != [] && r.after.stops == v.stops[1..])
    ensures |r.commands| <= 3
    ensures forall c :: c in r.commands ==> c.cabin == id
  {
    if v.floorVisited then
      if v.paused then
        if v.direction != 0 then StepResult(v.(direction := MotorStop), [MotorCmd(id, MotorStop)])
        else StepResult(v, [])
      else
        var scale := if AbsReal(v.position - rounded as real) < DiffAtFloor then [ScaleCmd(id, rounded)] else [];
        var next := if v.stops == [] then EmptyQueue else v.stops[0];
        if next == EmptyQueue then StepResult(v, scale)
        else if Arrived(next, v.position) then
          var halt := if v.direction != 0 then [MotorCmd(id, MotorStop)] else [];
          StepResult(v.(direction := MotorStop, doorState := DoorStop, floorVisited := false, stops := v.stops[1..]),
                     scale + halt + [DoorCmd(id, DoorOpen)])
        else if v.direction == 0 then
          var d := if next as real - v.position > 0.0 then MotorUp else MotorDown;
          StepResult(v.(direction := d), scale + [MotorCmd(id, d)])
        else StepResult(v, scale)
    else if v.doorState == DoorOpen then StepResult(v.(doorState := DoorStop), [DoorCmd(id, DoorClose)])
    else if v.doorState == DoorClose then StepResult(v.(floorVisited := true), [])
    else StepResult(v, [])
  }

  // ---------------------------------------------------------------------------
  // The worker of cabin `id`

  class Elevator {
    const id: int
    const info: ElevatorInformation
    /** The table of per-cabin event buffers; this worker consumes entry `id`. */
    const buffers: array<seq<Event>>

    var position: real
    var direction: int
    var doorState: int
    var floorVisited: bool
    var stop: bool

    ghost predicate Valid()
      reads this, info, info.queue
    {
      1 <= id < buffers.Length && info.queue.Valid() && info.position == position
    }

    ghost function View(): WorkerView
      reads this, info.queue
    {
      WorkerView(position, direction, doorState, floorVisited, stop, info.queue.floors)
    }

    constructor (id: int, info: ElevatorInformation, buffers: array<seq<Event>>)
      requires 1 <= id < buffers.Length
      requires info.queue.Valid() && info.queue.floors == [] && info.position == 0.0
      ensures this.id == id && this.info == info && this.buffers == buffers
      ensures Valid() && View() == InitialView()
    {
      this.id := id;
      this.info := info;
      this.buffers := buffers;
      position := 0.0;
      direction := MotorStop;
      doorState := DoorStop;
      floorVisited := true;
      stop := false;
    }

    /** One event of the drain loop; reports whether it was Shutdown. */
    method HandleEvent(e: Event) returns (shutdown: bool)
      requires Valid()
      modifies this, info, info.queue
      ensures Valid()
      ensures shutdown == e.Shutdown?
      ensures View() == if shutdown then old(View()) else OnEvent(old(View()), e)
    {
      shutdown := false;
      match e {
        case FloorButton(floor, buttonType) =>
          Push(floor, buttonType, position, info);
        case CabinButton(_, floor) =>
          if floor == PauseFloor {
            stop := true;
          } else {
            if stop {
              stop := false;
            }
            Push(floor, 0, position, info);
          }
        case Position(_, p) =>
          position := p;
          info.position := p;
        case Door(_, s) =>
          doorState := s;
        case Shutdown =>
          shutdown := true;
        case _ =>
      }
    }

    /**
     * Handles the waiting events front first, removing each one handled,
     * until the buffer is empty or a Shutdown event is reached; the Shutdown
     * event itself stays in the buffer.
     */
    method HandleEvents() returns (shutdown: bool)
      requires Valid()
      modifies this, info, info.queue, buffers
      ensures Valid()
      ensures var evs := old(buffers[id]);
              var k := FirstShutdown(evs);
              && shutdown == (k < |evs|)
              && buffers[id] == evs[k..]
              && View() == AfterEvents(old(View()), evs[..k])
      ensures forall j :: 0 <= j < buffers.Length && j != id ==> buffers[j] == old(buffers[j])
    {
      ghost var evs := buffers[id];
      ghost var start := View();
      ghost var i := 0;
      shutdown := false;
      assert evs[..0] == [];
      while buffers[id] != []
        invariant Valid()
        invariant 0 <= i <= |evs| && buffers[id] == evs[i..]
        invariant forall j :: 0 <= j < i ==> !evs[j].Shutdown?
        invariant View() == AfterEvents(start, evs[..i])
        invariant forall j :: 0 <= j < buffers.Length && j != id ==> buffers[j] == old(buffers[j])
        decreases |buffers[id]|
      {
        var e := buffers[id][0];
        var reachedShutdown := HandleEvent(e);
        if reachedShutdown {
          shutdown := true;
          assert evs[i].Shutdown?;
          assert FirstShutdown(evs) == i;
          return;
        }
        assert evs[..i + 1][..i] == evs[..i];
        buffers[id] := buffers[id][1..];
        i := i + 1;
      }
      assert evs[..i] == evs;
    }

    /** The action evaluation that follows the drain loop. */
    method Act(rounded: int) returns (commands: seq<Command>)
      requires Valid()
      modifies this, info.queue
      ensures Valid()
      ensures View() == Step(id, old(View()), rounded).after
      ensures commands == Step(id, old(View()), rounded).commands
    {
      commands := [];
      if floorVisited {
        if stop {
          if direction != 0 {
            commands := [MotorCmd(id, MotorStop)];
            direction := MotorStop;
          }
          return;
        }

        if AbsReal(position - rounded as real) < DiffAtFloor {
          commands := [ScaleCmd(id, rounded)];
        }

        var nextFloor := info.queue.Peek();
        var diffFloor := nextFloor as real - position;
        if nextFloor == EmptyQueue {
          return;
        }
        if AbsReal(diffFloor) < DiffAtFloor {
          diffFloor := 0.0;
        }

        if diffFloor == 0.0 {
          if direction != 0 {
            commands := commands + [MotorCmd(id, MotorStop)];
            direction := MotorStop;
          }
          commands := commands + [DoorCmd(id, DoorOpen)];
          doorState := DoorStop;
          var served := info.queue.Pop();
          floorVisited := false;
        } else if direction == 0 {
          direction := if diffFloor > 0.0 then MotorUp else MotorDown;
          commands := commands + [MotorCmd(id, direction)];
        }
      } else {
        if doorState == DoorOpen {
          // the doors close after the dwell time
          commands := [DoorCmd(id, DoorClose)];
          doorState := DoorStop;
        } else if doorState == DoorClose {
          floorVisited := true;
        }
      }
    }

    /** The shutdown path: empty the stop queue, then release it. */
    method Shutdown() returns (status: int)
      requires Valid()
      modifies info.queue
      ensures Valid()
      ensures info.queue.floors == [] && status == 0
      ensures View() == old(View()).(stops := [])
    {
      var queue := info.queue;
      var n := queue.Size();
      while n != 0
        invariant queue.Valid() && n == |queue.floors|
        decreases |queue.floors|
      {
        var served := queue.Pop();
        n := queue.Size();
      }
      status := queue.Destroy();
    }

    /** One round of the worker: drain the buffer, then act once or shut down. */
    method Iteration(rounded: int) returns (terminated: bool, commands: seq<Command>)
      requires Valid()
      modifies this, info, info.queue, buffers
      ensures Valid()
      ensures var evs := old(buffers[id]);
              var k := FirstShutdown(evs);
              && terminated == (k < |evs|)
              && buffers[id] == evs[k..]
              && (terminated ==>
                    commands == [] && View() == AfterEvents(old(View()), evs[..k]).(stops := []))
              && (!terminated ==>
                    View() == Step(id, AfterEvents(old(View()), evs), rounded).after
                    && commands == Step(id, AfterEvents(old(View()), evs), rounded).commands)
      ensures forall j :: 0 <= j < buffers.Length && j != id ==> buffers[j] == old(buffers[j])
    {
      ghost var evs := buffers[id];
      terminated := HandleEvents();
      if terminated {
        var status := Shutdown();
        commands := [];
      } else {
        assert evs[..|evs|] == evs;
        commands := Act(rounded);
      }
    }
  }

  // ---------------------------------------------------------------------------
  // What one action evaluation guarantees

  /** Direction and door state stay within -1..1 (door events carry such a state). */
  lemma StepKeepsRanges(id: int, v: WorkerView, rounded: int)
    requires IsUnit(v.direction) && IsUnit(v.doorState)
    ensures IsUnit(Step(id, v, rounded).after.direction) && IsUnit(Step(id, v, rounded).after.doorState)
  {
  }

  lemma OnEventKeepsRanges(v: WorkerView, e: Event)
    requires IsUnit(v.direction) && IsUnit(v.doorState)
    requires e.Door? ==> IsUnit(e.state)
    ensures IsUnit(OnEvent(v, e).direction) && IsUnit(OnEvent(v, e).doorState)
  {
  }

  /** The pause floor only sets the pause flag; any other cabin-button floor clears it and is pushed with direction 0. */
  lemma CabinButtonEffect(v: WorkerView, cabin: int, floor: int)
    ensures floor == PauseFloor ==> OnEvent(v, CabinButton(cabin, floor)) == v.(paused := true)
    ensures floor != PauseFloor ==>
              OnEvent(v, CabinButton(cabin, floor)) == v.(paused := false, stops := Pushed(v.stops, floor, 0, v.position))
  {
  }

  /** A paused cabin is stopped if moving and otherwise left alone; its stops are kept. */
  lemma PausedCabinHalts(id: int, v: WorkerView, rounded: int)
    requires v.floorVisited && v.paused
    ensures var r := Step(id, v, rounded);
            && r.after == v.(direction := MotorStop)
            && r.commands == (if v.direction != 0 then [MotorCmd(id, MotorStop)] else [])
  {
  }

  /**
   * Arrival: the motor is stopped if it was running, the doors are opened,
   * exactly the front stop is removed and the door phase begins.
   */
  lemma ArrivalOpensDoors(id: int, v: WorkerView, rounded: int)
    requires v.floorVisited && !v.paused && v.stops != [] && v.stops[0] != EmptyQueue
    requires Arrived(v.stops[0], v.position)
    ensures var r := Step(id, v, rounded);
            && r.after.stops == v.stops[1..]
            && !r.after.floorVisited && r.after.direction == MotorStop && r.after.doorState == DoorStop
            && r.commands[|r.commands| - 1] == DoorCmd(id, DoorOpen)
            && (MotorCmd(id, MotorStop) in r.commands <==> v.direction != 0)
  {
  }

  /** An idle cabin away from its next stop starts the motor towards it. */
  lemma IdleCabinDeparts(id: int, v: WorkerView, rounded: int)
    requires v.floorVisited && !v.paused && v.stops != [] && v.stops[0] != EmptyQueue
    requires !Arrived(v.stops[0], v.position) && v.direction == 0
    ensures var r := Step(id, v, rounded);
            && r.after == v.(direction := r.after.direction)
            && (r.after.direction == MotorUp || r.after.direction == MotorDown)
            && r.after.direction as real * (v.stops[0] as real - v.position) > 0.0
            && r.commands[|r.commands| - 1] == MotorCmd(id, r.after.direction)
  {
  }

  /** The motor is started only from standstill, outside the door phase and when not paused. */
  lemma MotorStartsOnlyWhenIdle(id: int, v: WorkerView, rounded: int, c: Command)
    requires c in Step(id, v, rounded).commands && c.MotorCmd? && c.action != MotorStop
    ensures v.direction == 0 && v.floorVisited && !v.paused
  {
  }

  /** During the door phase the cabin only operates its doors. */
  lemma DoorPhaseKeepsCabinStill(id: int, v: WorkerView, rounded: int)
    requires !v.floorVisited
    ensures var r := Step(id, v, rounded);
            && r.after.direction == v.direction && r.after.stops == v.stops
            && forall c :: c in r.commands ==> c.DoorCmd?
  {
  }

  /** The door phase ends exactly when the doors are reported closed. */
  lemma DoorPhaseEndsOnClose(id: int, v: WorkerView, rounded: int)
    requires !v.floorVisited
    ensures Step(id, v, rounded).after.floorVisited <==> v.doorState == DoorClose
  {
  }

  /** A step removes at most one stop, and only when it opens the doors. */
  lemma StepServesAtMostOneStop(id: int, v: WorkerView, rounded: int)
    ensures var r := Step(id, v, rounded);
            r.after.stops == v.stops
            || (v.stops != [] && r.after.stops == v.stops[1..] && !r.after.floorVisited
                && DoorCmd(id, DoorOpen) in r.commands)
  {
  }

  /**
   * A cabin idle at 0.0 gets a hall call for floor 5 going up: it queues 5 and
   * starts upwards; a sample of 4.97 counts as arrival (motor stop, doors open,
   * queue empty); the door-open report makes it close the doors, and the
   * door-closed report ends the visit with the cabin at rest.
   */
  lemma ArrivalScenario(id: int)
    ensures var v1 := AfterEvents(InitialView(), [FloorButton(5, GoingUp)]);
            var s1 := Step(id, v1, 0);
            var s2 := Step(id, OnEvent(s1.after, Position(id, 4.97)), 5);
            var s3 := Step(id, OnEvent(s2.after, Door(id, DoorOpen)), 5);
            var s4 := Step(id, OnEvent(s3.after, Door(id, DoorClose)), 5);
            && v1.stops == [5]
            && s1.commands == [ScaleCmd(id, 0), MotorCmd(id, MotorUp)]
            && s2.commands == [ScaleCmd(id, 5), MotorCmd(id, MotorStop), DoorCmd(id, DoorOpen)]
            && s2.after.stops == [] && !s2.after.floorVisited
            && s3.commands == [DoorCmd(id, DoorClose)]
            && s4.commands == [] && s4.after.floorVisited && s4.after.direction == MotorStop
  {
    var evs := [FloorButton(5, GoingUp)];
    assert evs[..0] == [];
    assert Pushed([], 5, GoingUp, 0.0) == [5];
  }
}
