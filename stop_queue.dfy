/**
 * The per-cabin stop queue: the ordered floors a cabin has committed to visit,
 * with the direction-aware insertion of `push_stop_queue`.
 *
 * The source keeps the stops in a singly linked list and a separate `size`
 * counter; here the list is the sequence `floors` and `size` stays a field of
 * its own, tied to the list by `Valid()`.
 */
module StopQueues {
  import opened Hardware

  /** What `pop` and `peek` return on an empty queue. */
  const EmptyQueue: int := -1

  class StopQueue {
    var floors: seq<int>
    var size: int

    ghost predicate Valid()
      reads this
    {
      size == |floors|
    }

    /** `new_stop_queue`: an empty queue. */
    constructor ()
      ensures Valid() && floors == []
    {
      floors := [];
      size := 0;
    }

    /** `destroy_stop_queue`: refuses (status 1) while stops remain. */
    method Destroy() returns (status: int)
      requires Valid()
      ensures status == 0 <==> floors == []
      ensures status == 1 <==> floors != []
    {
      if size != 0 {
        return 1;
      }
      status := 0;
    }

    /** `pop_stop_queue`: removes and returns the front stop, or the sentinel. */
    method Pop() returns (floor: int)
      requires Valid()
      modifies this
      ensures Valid()
      ensures old(floors) == [] ==> floor == EmptyQueue && floors == [] && size == 0
      ensures old(floors) != [] ==>
                floor == old(floors)[0] && floors == old(floors)[1..] && size == old(size) - 1
    {
      if size == 0 {
        return EmptyQueue;
      }
      floor := floors[0];
      floors := floors[1..];
      size := size - 1;
    }

    /** `peek_stop_queue`: the front stop, or the sentinel; changes nothing. */
    method Peek() returns (floor: int)
      requires Valid()
      ensures floors == [] ==> floor == EmptyQueue
      ensures floors != [] ==> floor == floors[0]
    {
      if size == 0 {
        return EmptyQueue;
      }
      floor := floors[0];
    }

    /** `size_stop_queue`. */
    method Size() returns (n: int)
      requires Valid()
      ensures n == |floors|
    {
      n := size;
    }
  }

  /** The part of a cabin's state that other components read: its position and its stops. */
  class ElevatorInformation {
    var position: real
    const queue: StopQueue

    constructor (queue: StopQueue)
      ensures this.queue == queue && position == 0.0
    {
      this.queue := queue;
      position := 0.0;
    }
  }

  // ---------------------------------------------------------------------------
  // The insertion policy, as functions of the old stops

  /** Where the leg that ends at stop `j` starts: the cabin itself for the first stop. */
  function LegStart(q: seq<int>, position: real, j: nat): real
    requires j <= |q|
  {
    if j == 0 then position else q[j - 1] as real
  }

  /**
   * The new stop goes in front of the first one. The cabin's heading (+1 when
   * its first stop is above it, -1 otherwise) is added to the requested
   * direction; a positive sum asks for the floor strictly between the cabin
   * and its first stop going up, any other sum for the same going down. So a
   * cabin heading up never takes a down call first, while a cabin heading
   * down takes any call lying on its first leg, an up call included
   * (`FrontTestDependsOnRequest`).
   */
  predicate FrontFits(q: seq<int>, floor: int, direction: int, position: real)
    requires q != []
  {
    var elevDir := if position < q[0] as real then 1 else -1;
    if elevDir + direction > 0 then
      position < floor as real < q[0] as real
    else
      q[0] as real < floor as real < position
  }

  /**
   * The new stop goes between stops `j` and `j + 1`: the leg arriving at stop
   * `j` went up (down), the new floor lies strictly between the two stops in
   * that sense, and the request is not for the opposite direction.
   */
  predicate SlotFits(q: seq<int>, floor: int, direction: int, position: real, j: nat)
    requires j + 1 < |q|
  {
    if q[j] as real > LegStart(q, position, j) then
      q[j] < floor < q[j + 1] && direction >= 0
    else
      q[j] > floor > q[j + 1] && direction <= 0
  }

  /** The first slot after stop `j` or later that fits, as an insertion index; `|q|` if none. */
  function FirstSlotFrom(q: seq<int>, floor: int, direction: int, position: real, j: nat): (k: nat)
    requires j < |q|
    ensures j < k <= |q|
    ensures forall i :: j <= i < k - 1 ==> !SlotFits(q, floor, direction, position, i)
    ensures k < |q| ==> SlotFits(q, floor, direction, position, k - 1)
    decreases |q| - j
  {
    if j + 1 == |q| then |q|
    else if SlotFits(q, floor, direction, position, j) then j + 1
    else FirstSlotFrom(q, floor, direction, position, j + 1)
  }

  /** The index at which `push_stop_queue` places the new stop: the earliest slot that fits. */
  function InsertionIndex(q: seq<int>, floor: int, direction: int, position: real): (k: nat)
    ensures k <= |q|
    ensures k == 0 <==> q == [] || FrontFits(q, floor, direction, position)
    ensures 0 < k ==> forall i :: 0 <= i < k - 1 ==> !SlotFits(q, floor, direction, position, i)
    ensures 0 < k < |q| ==> SlotFits(q, floor, direction, position, k - 1)
  {
    if q == [] || FrontFits(q, floor, direction, position) then 0
    else FirstSlotFrom(q, floor, direction, position, 0)
  }

  function Inserted(q: seq<int>, k: nat, floor: int): seq<int>
    requires k <= |q|
  {
    q[..k] + [floor] + q[k..]
  }

  /** The stops after a successful `push_stop_queue(floor, direction, ...)` from a cabin at `position`. */
  function Pushed(q: seq<int>, floor: int, direction: int, position: real): (r: seq<int>)
    ensures |r| == |q| + 1
    ensures floor in r
    ensures forall x :: x in q ==> x in r
  {
    Inserted(q, InsertionIndex(q, floor, direction, position), floor)
  }

  /** A first fitting slot is the insertion index. */
  lemma FirstFitIsInsertionIndex(q: seq<int>, floor: int, direction: int, position: real, k: nat)
    requires 0 < k <= |q|
    requires !FrontFits(q, floor, direction, position)
    requires forall i :: 0 <= i < k - 1 ==> !SlotFits(q, floor, direction, position, i)
    requires k < |q| ==> SlotFits(q, floor, direction, position, k - 1)
    ensures InsertionIndex(q, floor, direction, position) == k
  {
    var m := InsertionIndex(q, floor, direction, position);
    if m < k {
      assert false;
    } else if k < m {
      assert false;
    }
  }

  // ---------------------------------------------------------------------------
  // The operation

  /**
   * `push_stop_queue` on its success path. Like the source, it ignores its
   * `position` argument and reads the cabin's position from `info`.
   */
  method Push(floor: int, direction: int, position: real, info: ElevatorInformation)
    requires info.queue.Valid()
    modifies info.queue
    ensures info.queue.Valid()
    ensures info.queue.floors == Pushed(old(info.queue.floors), floor, direction, info.position)
    ensures info.queue.size == old(info.queue.size) + 1
  {
    var queue := info.queue;
    var q := queue.floors;
    if queue.size == 0 {
      queue.floors := [floor];
    } else {
      var oldPos := info.position;
      var placed := false;
      var elevDir := if oldPos < q[0] as real then 1 else -1;
      if elevDir + direction > 0 {
        if oldPos < floor as real && floor as real < q[0] as real {
          queue.floors := [floor] + q;
          placed := true;
        }
      } else {
        if (q[0] as real) < floor as real && floor as real < oldPos {
          queue.floors := [floor] + q;
          placed := true;
        }
      }
      assert placed == FrontFits(q, floor, direction, info.position);

      var curr := 0;
      while curr + 1 < |q| && !placed
        invariant 0 <= curr < |q|
        invariant placed == FrontFits(q, floor, direction, info.position)
        invariant placed ==> queue.floors == Pushed(q, floor, direction, info.position)
        invariant !placed ==> queue.floors == q
        invariant oldPos == LegStart(q, info.position, curr)
        invariant forall i :: 0 <= i < curr ==> !SlotFits(q, floor, direction, info.position, i)
        invariant queue.size == |q|
      {
        if q[curr] as real > oldPos {
          if q[curr] < floor && floor < q[curr + 1] && direction >= 0 {
            queue.floors := q[..curr + 1] + [floor] + q[curr + 1..];
            FirstFitIsInsertionIndex(q, floor, direction, info.position, curr + 1);
            placed := true;
            break;
          }
        } else {
          if q[curr] > floor && floor > q[curr + 1] && direction <= 0 {
            queue.floors := q[..curr + 1] + [floor] + q[curr + 1..];
            FirstFitIsInsertionIndex(q, floor, direction, info.position, curr + 1);
            placed := true;
            break;
          }
        }
        oldPos := q[curr] as real;
        curr := curr + 1;
      }

      if !placed {
        FirstFitIsInsertionIndex(q, floor, direction, info.position, |q|);
        queue.floors := q + [floor];
      }
    }
    queue.size := queue.size + 1;
  }

  // ---------------------------------------------------------------------------
  // What the insertion policy guarantees

  /** A successful push inserts exactly the new floor and keeps every old stop, in order. */
  lemma PushInsertsExactlyOne(q: seq<int>, floor: int, direction: int, position: real)
    ensures var r, k := Pushed(q, floor, direction, position), InsertionIndex(q, floor, direction, position);
            |r| == |q| + 1 && r[k] == floor && r[..k] + r[k + 1..] == q
    ensures multiset(Pushed(q, floor, direction, position)) == multiset(q) + multiset{floor}
  {
    var r, k := Pushed(q, floor, direction, position), InsertionIndex(q, floor, direction, position);
    assert r[..k] == q[..k];
    assert r[k + 1..] == q[k..];
    assert q == q[..k] + q[k..];
  }

  lemma PushOnEmptyQueue(floor: int, direction: int, position: real)
    ensures Pushed([], floor, direction, position) == [floor]
  {
  }

  /** When the front test holds (`FrontFits`: heading plus requested direction), the new floor is served first. */
  lemma PushAtFront(q: seq<int>, floor: int, direction: int, position: real)
    requires q != [] && FrontFits(q, floor, direction, position)
    ensures Pushed(q, floor, direction, position) == [floor] + q
  {
  }

  /**
   * The front test depends on the requested direction, asymmetrically: for a
   * cabin heading up the floor goes first only when it lies on the first leg
   * and the request is not downwards; for a cabin heading down (or standing
   * at its first stop) it goes first whenever it lies on the first leg.
   */
  lemma FrontTestDependsOnRequest(q: seq<int>, floor: int, direction: int, position: real)
    requires q != [] && IsUnit(direction)
    ensures position < q[0] as real ==>
              (FrontFits(q, floor, direction, position) <==>
                 position < floor as real < q[0] as real && direction >= 0)
    ensures position >= q[0] as real ==>
              (FrontFits(q, floor, direction, position) <==> q[0] as real < floor as real < position)
  {
  }

  /**
   * Cabin at 3.0 heading up to 5: a down call for 4 is appended, not served
   * first. Cabin at 7.0 heading down to 3: an up call for 5 is served first.
   */
  lemma FrontPlacementExamples()
    ensures Pushed([5], 4, GoingDown, 3.0) == [5, 4]
    ensures Pushed([3], 5, GoingUp, 7.0) == [5, 3]
  {
    assert !FrontFits([5], 4, GoingDown, 3.0);
    assert FrontFits([3], 5, GoingUp, 7.0);
  }

  /** When neither the front nor any slot of the walk fits, the stop is appended. */
  lemma PushAppendsWhenNothingFits(q: seq<int>, floor: int, direction: int, position: real)
    requires q != [] && !FrontFits(q, floor, direction, position)
    requires forall i :: 0 <= i < |q| - 1 ==> !SlotFits(q, floor, direction, position, i)
    ensures Pushed(q, floor, direction, position) == q + [floor]
  {
    var k := InsertionIndex(q, floor, direction, position);
    if k < |q| {
      assert false;
    }
    assert Inserted(q, |q|, floor) == q + [floor];
  }

  /** A stop placed inside the walk never contradicts the caller's requested direction. */
  lemma PushInWalkHonoursRequest(q: seq<int>, floor: int, direction: int, position: real)
    ensures var k := InsertionIndex(q, floor, direction, position);
            0 < k < |q| ==> (q[k - 1] < floor ==> direction >= 0) && (q[k - 1] > floor ==> direction <= 0)
  {
  }

  /** Cabin at 3.0 heading for [5, 9]; a cabin-button press for floor 7 lands between 5 and 9. */
  lemma PushBetweenStopsExample()
    ensures Pushed([5, 9], 7, 0, 3.0) == [5, 7, 9]
  {
    assert !FrontFits([5, 9], 7, 0, 3.0);
    assert SlotFits([5, 9], 7, 0, 3.0, 0);
    FirstFitIsInsertionIndex([5, 9], 7, 0, 3.0, 1);
  }

  // ---------------------------------------------------------------------------
  // Travel along the queue

  /** Total distance a cabin at `from` travels to serve `stops` in order. */
  function RouteLength(from: real, stops: seq<int>): real
    decreases |stops|
  {
    if stops == [] then 0.0
    else AbsReal(stops[0] as real - from) + RouteLength(stops[0] as real, stops[1..])
  }

  predicate Between(a: real, x: real, b: real) {
    (a < x < b) || (b < x < a)
  }

  lemma {:induction false} RouteLengthAppend(from: real, s: seq<int>, floor: int)
    ensures RouteLength(from, s + [floor]) == RouteLength(from, s) + AbsReal(floor as real - LegStart(s, from, |s|))
    decreases |s|
  {
    if s != [] {
      assert (s + [floor])[1..] == s[1..] + [floor];
      RouteLengthAppend(s[0] as real, s[1..], floor);
      if |s| > 1 {
        assert LegStart(s[1..], s[0] as real, |s| - 1) == LegStart(s, from, |s|);
      }
    }
  }

  lemma {:induction false} RouteLengthInsertBetween(from: real, s: seq<int>, k: nat, floor: int)
    requires k < |s|
    requires Between(LegStart(s, from, k), floor as real, s[k] as real)
    ensures RouteLength(from, Inserted(s, k, floor)) == RouteLength(from, s)
    decreases k
  {
    if k == 0 {
      var r := [floor] + s;
      assert Inserted(s, 0, floor) == r;
      assert r[0] == floor && r[1..] == s;
      assert RouteLength(from, r) == AbsReal(floor as real - from) + RouteLength(floor as real, s);
      assert RouteLength(floor as real, s) == AbsReal(s[0] as real - floor as real) + RouteLength(s[0] as real, s[1..]);
      assert AbsReal(floor as real - from) + AbsReal(s[0] as real - floor as real) == AbsReal(s[0] as real - from);
    } else {
      var rest := Inserted(s[1..], k - 1, floor);
      var r := [s[0]] + rest;
      assert Inserted(s, k, floor) == r;
      assert r[0] == s[0] && r[1..] == rest;
      assert LegStart(s[1..], s[0] as real, k - 1) == LegStart(s, from, k);
      RouteLengthInsertBetween(s[0] as real, s[1..], k - 1, floor);
      assert RouteLength(from, r) == AbsReal(s[0] as real - from) + RouteLength(s[0] as real, rest);
    }
  }

  /**
   * Placing a stop at the front or inside the walk adds no travel at all; only
   * an appended stop lengthens the route, by the leg from the last stop.
   */
  lemma PushAddsNoDetour(q: seq<int>, floor: int, direction: int, position: real)
    ensures var k := InsertionIndex(q, floor, direction, position);
            if k < |q| then
              RouteLength(position, Pushed(q, floor, direction, position)) == RouteLength(position, q)
            else
              RouteLength(position, Pushed(q, floor, direction, position))
                == RouteLength(position, q) + AbsReal(floor as real - LegStart(q, position, |q|))
  {
    var k := InsertionIndex(q, floor, direction, position);
    if k < |q| {
      if k == 0 {
        assert FrontFits(q, floor, direction, position);
      } else {
        assert SlotFits(q, floor, direction, position, k - 1);
      }
      RouteLengthInsertBetween(position, q, k, floor);
    } else {
      assert Inserted(q, k, floor) == q + [floor];
      RouteLengthAppend(position, q, floor);
    }
  }
}
