/**
 * Events passed from the dispatcher to the cabin workers, and each cabin's
 * event buffer: first in, first out, except that a Position event goes to the
 * front, overwriting a Position event already waiting there.
 */
module Events {

  datatype Option<T> = None | Some(value: T)

  /** An event with its description; `buttonType` and `state` use the integer codes of module Hardware. */
  datatype Event =
    | FloorButton(floor: int, buttonType: int)
    | CabinButton(cabin: int, floor: int)
    | Position(cabin: int, position: real)
    | Door(cabin: int, state: int)
    | Speed(speed: real)
    | Error(message: string)
    | Shutdown

  /** The buffer after `enqueue_event` adds `e`. */
  function Enqueued(buffer: seq<Event>, e: Event): (r: seq<Event>)
    ensures e in r
    ensures |r| == if e.Position? && buffer != [] && buffer[0].Position? then |buffer| else |buffer| + 1
    ensures forall x :: x in buffer && !x.Position? ==> x in r
  {
    if e.Position? then
      if buffer == [] then [e]
      else if buffer[0].Position? then [e] + buffer[1..]
      else [e] + buffer
    else
      buffer + [e]
  }

  /**
   * `enqueue_event` on the per-cabin table of buffers: only the buffer of
   * cabin `elevator` changes.
   */
  method EnqueueEvent(buffers: array<seq<Event>>, elevator: int, e: Event)
    requires 0 <= elevator < buffers.Length
    modifies buffers
    ensures buffers[elevator] == Enqueued(old(buffers[elevator]), e)
    ensures forall i :: 0 <= i < buffers.Length && i != elevator ==> buffers[i] == old(buffers[i])
  {
    var buffer := buffers[elevator];
    if e.Position? {
      if buffer == [] {
        buffers[elevator] := [e];
      } else if buffer[0].Position? {
        // the front Position event takes the new description
        buffers[elevator] := [e] + buffer[1..];
      } else {
        buffers[elevator] := [e] + buffer;
      }
    } else {
      buffers[elevator] := buffer + [e];
    }
  }

  // ---------------------------------------------------------------------------
  // What the buffer discipline guarantees

  /** The events of a buffer other than Position events, in order. */
  function NonPositions(buffer: seq<Event>): seq<Event>
  {
    if buffer == [] then []
    else if buffer[0].Position? then NonPositions(buffer[1..])
    else [buffer[0]] + NonPositions(buffer[1..])
  }

  function CountPositions(buffer: seq<Event>): nat
  {
    if buffer == [] then 0
    else (if buffer[0].Position? then 1 else 0) + CountPositions(buffer[1..])
  }

  /** Only the front of the buffer may hold a Position event. */
  predicate PositionsOnlyAtFront(buffer: seq<Event>) {
    forall i :: 0 < i < |buffer| ==> !buffer[i].Position?
  }

  lemma {:induction false} NonPositionsAppend(a: seq<Event>, b: seq<Event>)
    ensures NonPositions(a + b) == NonPositions(a) + NonPositions(b)
    decreases |a|
  {
    if a != [] {
      assert (a + b)[0] == a[0];
      assert (a + b)[1..] == a[1..] + b;
      NonPositionsAppend(a[1..], b);
    } else {
      assert a + b == b;
    }
  }

  /** No event other than a Position event is ever dropped or reordered. */
  lemma EnqueueKeepsOtherEvents(buffer: seq<Event>, e: Event)
    ensures NonPositions(Enqueued(buffer, e))
              == NonPositions(buffer) + (if e.Position? then [] else [e])
  {
    var r := Enqueued(buffer, e);
    if e.Position? {
      assert r[0] == e;
      if buffer != [] && buffer[0].Position? {
        assert r[1..] == buffer[1..];
      } else {
        assert r[1..] == buffer;
      }
    } else {
      NonPositionsAppend(buffer, [e]);
      assert [e][1..] == [];
    }
  }

  /** A Position event always ends up at the front, replacing at most one older one. */
  lemma EnqueuePositionFirst(buffer: seq<Event>, e: Event)
    requires e.Position?
    ensures Enqueued(buffer, e)[0] == e
    ensures |Enqueued(buffer, e)| == if buffer != [] && buffer[0].Position? then |buffer| else |buffer| + 1
  {
  }

  /** Two Position events with no consumption between them leave only the latest. */
  lemma PositionCoalescing(buffer: seq<Event>, p1: Event, p2: Event)
    requires p1.Position? && p2.Position?
    ensures Enqueued(Enqueued(buffer, p1), p2) == Enqueued(buffer, p2)
  {
    if buffer != [] && buffer[0].Position? {
      assert ([p1] + buffer[1..])[1..] == buffer[1..];
    } else {
      assert ([p1] + buffer)[1..] == buffer;
    }
  }

  lemma {:induction false} PositionsOnlyAtFrontCount(buffer: seq<Event>)
    requires PositionsOnlyAtFront(buffer)
    ensures CountPositions(buffer) <= 1
    ensures buffer != [] && buffer[0].Position? ==> CountPositions(buffer) == 1
  {
    if buffer != [] {
      NoPositionsCount(buffer[1..]);
    }
  }

  lemma {:induction false} NoPositionsCount(buffer: seq<Event>)
    requires forall i :: 0 <= i < |buffer| ==> !buffer[i].Position?
    ensures CountPositions(buffer) == 0
    decreases |buffer|
  {
    if buffer != [] {
      assert !buffer[0].Position?;
      NoPositionsCount(buffer[1..]);
    }
  }

  /** Enqueuing keeps every Position event at the front, so at most one is ever waiting. */
  lemma EnqueueKeepsPositionsAtFront(buffer: seq<Event>, e: Event)
    requires PositionsOnlyAtFront(buffer)
    ensures PositionsOnlyAtFront(Enqueued(buffer, e))
    ensures CountPositions(Enqueued(buffer, e)) <= 1
  {
    var r := Enqueued(buffer, e);
    if e.Position? {
      forall i | 0 < i < |r| ensures !r[i].Position? {
        if buffer != [] && buffer[0].Position? {
          assert r[i] == buffer[i];
        } else {
          assert r[i] == buffer[i - 1];
        }
      }
    } else {
      forall i | 0 < i < |r| ensures !r[i].Position? {
        if i < |buffer| {
          assert r[i] == buffer[i];
        }
      }
    }
    PositionsOnlyAtFrontCount(r);
  }

  /** The worker consuming the front event keeps the discipline too. */
  lemma ConsumeKeepsPositionsAtFront(buffer: seq<Event>)
    requires buffer != [] && PositionsOnlyAtFront(buffer)
    ensures PositionsOnlyAtFront(buffer[1..])
  {
  }

  /** Two Position samples enqueued before the worker drains leave exactly one Position event. */
  lemma TwoSamplesLeaveOnePosition(buffer: seq<Event>, p1: Event, p2: Event)
    requires PositionsOnlyAtFront(buffer)
    requires p1.Position? && p2.Position?
    ensures CountPositions(Enqueued(Enqueued(buffer, p1), p2)) == 1
  {
    PositionCoalescing(buffer, p1, p2);
    EnqueueKeepsPositionsAtFront(buffer, p2);
    PositionsOnlyAtFrontCount(Enqueued(buffer, p2));
  }
}
