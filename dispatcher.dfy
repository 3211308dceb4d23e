/**
 * The dispatcher: the shared tables set up at start-up, the routing of one
 * hardware event to the cabin it concerns, and the shutdown broadcast.
 * Cabins are numbered 1..N; every table has an unused entry 0.
 */
module Dispatching {
  import opened StopQueues
  import opened Events
  import opened DoorInference
  import opened Selection
  import opened Worker

  class Dispatcher {
    const numElevators: int
    /** Per-cabin position and stop queue, shared with the workers. */
    const infos: seq<ElevatorInformation>
    /** Per-cabin event buffers. */
    const buffers: array<seq<Event>>
    /** Per-cabin door-state trackers. */
    const counters: array<DoorTracker>

    ghost predicate Valid()
      reads this, set i | 0 <= i < |infos| :: infos[i].queue
    {
      && 1 <= numElevators
      && |infos| == numElevators + 1
      && buffers.Length == numElevators + 1
      && counters.Length == numElevators + 1
      && forall i :: 1 <= i < |infos| ==> infos[i].queue.Valid()
    }

    /** Start-up: empty buffers, cabins at 0.0 with empty queues, trackers at 0.0 with doors closed. */
    constructor (numElevators: int)
      requires 1 <= numElevators
      ensures Valid() && this.numElevators == numElevators
      ensures fresh(buffers) && fresh(counters)
      ensures forall i :: 0 <= i < |infos| ==> fresh(infos[i]) && fresh(infos[i].queue)
      ensures forall i, j :: 0 <= i < j < |infos| ==> infos[i] != infos[j] && infos[i].queue != infos[j].queue
      ensures forall i :: 1 <= i <= numElevators ==>
                && buffers[i] == []
                && counters[i] == InitialTracker(0.0)
                && infos[i].position == 0.0
                && infos[i].queue.floors == []
    {
      var table: seq<ElevatorInformation> := [];
      var i := 0;
      while i <= numElevators
        invariant 0 <= i <= numElevators + 1 && |table| == i
        invariant forall j :: 0 <= j < i ==> fresh(table[j]) && fresh(table[j].queue)
        invariant forall j, k :: 0 <= j < k < i ==> table[j] != table[k] && table[j].queue != table[k].queue
        invariant forall j :: 0 <= j < i ==>
                    table[j].queue.Valid() && table[j].queue.floors == [] && table[j].position == 0.0
      {
        var queue := new StopQueue();
        var info := new ElevatorInformation(queue);
        table := table + [info];
        i := i + 1;
      }
      this.numElevators := numElevators;
      infos := table;
      buffers := new seq<Event>[numElevators + 1](_ => []);
      counters := new DoorTracker[numElevators + 1](_ => InitialTracker(0.0));
    }

    /**
     * One pass of the dispatcher loop for the event `e`; `rounded[i]` is the
     * position of cabin `i` rounded to a floor. Returns the cabin signalled,
     * or 0 when no cabin is.
     */
    method Dispatch(e: Event, rounded: seq<int>) returns (signalled: int)
      requires Valid() && |rounded| == |infos|
      requires e.CabinButton? ==> 1 <= e.cabin <= numElevators
      requires e.Position? ==> 1 <= e.cabin <= numElevators
      modifies buffers, counters
      ensures Valid()
      ensures e.FloorButton? ==>
                && IsLowestArgmin(Scores(e.floor, e.buttonType, infos, rounded), signalled)
                && buffers[signalled] == Enqueued(old(buffers[signalled]), e)
      ensures e.CabinButton? ==>
                signalled == e.cabin && buffers[signalled] == Enqueued(old(buffers[signalled]), e)
      ensures e.Position? ==>
                var o := Observe(old(counters[e.cabin]), e.cabin, e.position);
                && signalled == e.cabin
                && counters[signalled] == o.tracker
                && buffers[signalled]
                     == if o.emitted.Some? then Enqueued(old(buffers[signalled]), o.emitted.value)
                        else old(buffers[signalled])
      ensures !(e.FloorButton? || e.CabinButton? || e.Position?) ==>
                signalled == 0 && buffers[..] == old(buffers[..])
      ensures 0 <= signalled < buffers.Length
      ensures forall i :: 0 <= i < buffers.Length && i != signalled ==> buffers[i] == old(buffers[i])
      ensures forall i :: 0 <= i < counters.Length && (i != signalled || !e.Position?) ==>
                counters[i] == old(counters[i])
    {
      signalled := 0;
      match e {
        case FloorButton(floor, buttonType) =>
          signalled := GetSuitableElevator(floor, buttonType, infos, rounded);
          EnqueueEvent(buffers, signalled, e);
        case CabinButton(cabin, _) =>
          signalled := cabin;
          EnqueueEvent(buffers, signalled, e);
        case Position(cabin, position) =>
          var t := counters[cabin];
          if t.position == position {
            var repetitions := t.repetitions + 1;
            if repetitions == DoorOpeningRepetitions {
              // the doors are taken to have changed state
              counters[cabin] := DoorTracker(t.position, 1, t.state * -1);
              EnqueueEvent(buffers, cabin, Door(cabin, t.state * -1));
            } else {
              counters[cabin] := t.(repetitions := repetitions);
            }
          } else {
            EnqueueEvent(buffers, cabin, e);
            counters[cabin] := DoorTracker(position, 1, t.state);
          }
          signalled := cabin;
        case _ =>
      }
    }

    /** After the dispatcher loop ends: a Shutdown event is appended to every cabin's buffer. */
    method BroadcastShutdown()
      requires Valid()
      modifies buffers
      ensures Valid()
      ensures buffers[0] == old(buffers[0])
      ensures forall i :: 1 <= i < buffers.Length ==> buffers[i] == old(buffers[i]) + [Shutdown]
    {
      var i := 1;
      while i <= numElevators
        invariant 1 <= i <= numElevators + 1
        invariant buffers[0] == old(buffers[0])
        invariant forall j :: 1 <= j < i ==> buffers[j] == old(buffers[j]) + [Shutdown]
        invariant forall j :: i <= j < buffers.Length ==> buffers[j] == old(buffers[j])
      {
        EnqueueEvent(buffers, i, Shutdown);
        i := i + 1;
      }
    }
  }

  /**
   * A worker whose buffer received the shutdown broadcast stops at the first
   * Shutdown event it holds: every event queued before the broadcast is
   * handled first unless an earlier Shutdown was already waiting, and the
   * drain loop always reaches a Shutdown.
   */
  lemma BroadcastReachesWorker(buffer: seq<Event>)
    ensures FirstShutdown(buffer + [Shutdown]) == FirstShutdown(buffer)
    ensures FirstShutdown(buffer + [Shutdown]) < |buffer + [Shutdown]|
  {
    var evs := buffer + [Shutdown];
    assert forall i :: 0 <= i < |buffer| ==> evs[i] == buffer[i];
    assert evs[|buffer|] == Shutdown;
  }
}
