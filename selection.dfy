/**
 * Cabin selection for a hall call: every cabin gets a score (travel distance
 * plus 3 per stop served before the caller), and the lowest score wins, the
 * lowest cabin index on a tie.
 *
 * `round(info->position)` is an input here (`currentFloor`, `rounded`): the
 * model does not compute floating-point rounding.
 */
module Selection {
  import opened Hardware
  import opened StopQueues

  /** Penalty, in floors, for each stop served before the caller. */
  const StopPenalty: int := 3

  /** Distance travelled and stops served during the walk of a cabin's stop list. */
  datatype Walk = Walk(distance: nat, stops: nat)

  /**
   * The test `distance_to_floor` applies to the leg from `prev` to `next`: on
   * a leg going up (`prev - next < 0`) the next stop lies above the caller's
   * floor and the caller wants to go up; on any other leg the next stop lies
   * below the caller's floor and the caller wants to go down. Where the leg
   * starts is not compared with the caller's floor (`FitIgnoresLegStart`).
   */
  predicate Fits(prev: int, next: int, destination: int, buttonType: int) {
    if prev - next < 0 then next > destination && buttonType == GoingUp
    else next < destination && buttonType == GoingDown
  }

  /** The walk of `distance_to_floor` over `stops`, starting at floor `from`. */
  function WalkStops(stops: seq<int>, destination: int, buttonType: int, from: int): (w: Walk)
    ensures w.stops <= |stops|
    decreases |stops|
  {
    if stops == [] then Walk(0, 0)
    else if Fits(from, stops[0], destination, buttonType) then Walk(Abs(from - destination), 0)
    else
      var rest := WalkStops(stops[1..], destination, buttonType, stops[0]);
      Walk(Abs(from - stops[0]) + rest.distance, 1 + rest.stops)
  }

  /** The score `distance_to_floor` gives a cabin at floor `currentFloor` holding `stops`. */
  function Score(stops: seq<int>, destination: int, buttonType: int, currentFloor: int): (s: int)
    ensures s >= StopPenalty * WalkStops(stops, destination, buttonType, currentFloor).stops
  {
    var base := if stops == [] then Abs(destination - currentFloor) else 0;
    var w := WalkStops(stops, destination, buttonType, currentFloor);
    base + w.distance + StopPenalty * w.stops
  }

  /** `distance_to_floor`: the score of one cabin, by walking its stop list. */
  method DistanceToFloor(destination: int, buttonType: int, info: ElevatorInformation, currentFloor: int)
    returns (score: int)
    requires info.queue.Valid()
    ensures score == Score(info.queue.floors, destination, buttonType, currentFloor)
  {
    var stops := info.queue.floors;
    var numStops := 0;
    var distance := 0;
    var oldPos := currentFloor;
    ghost var whole := WalkStops(stops, destination, buttonType, currentFloor);
    ghost var base := if stops == [] then Abs(destination - currentFloor) else 0;

    if stops == [] {
      distance := Abs(destination - currentFloor);
    }

    var i := 0;
    while i < |stops|
      invariant 0 <= i <= |stops|
      invariant distance + WalkStops(stops[i..], destination, buttonType, oldPos).distance
                  == base + whole.distance
      invariant numStops + WalkStops(stops[i..], destination, buttonType, oldPos).stops == whole.stops
      decreases |stops| - i
    {
      var floor := stops[i];
      assert stops[i..][0] == floor && stops[i..][1..] == stops[i + 1..];
      if oldPos - floor < 0 {
        if floor > destination && buttonType == GoingUp {
          distance := distance + Abs(oldPos - destination);
          break;
        } else {
          numStops := numStops + 1;
          distance := distance + Abs(oldPos - floor);
        }
      } else {
        if floor < destination && buttonType == GoingDown {
          distance := distance + Abs(oldPos - destination);
          break;
        } else {
          numStops := numStops + 1;
          distance := distance + Abs(oldPos - floor);
        }
      }
      oldPos := floor;
      i := i + 1;
    }
    score := distance + numStops * StopPenalty;
  }

  // ---------------------------------------------------------------------------
  // Choosing a cabin

  /** The scores of cabins 0..N (entry 0 belongs to no cabin). */
  ghost function Scores(destination: int, buttonType: int, infos: seq<ElevatorInformation>, rounded: seq<int>)
    : (s: seq<int>)
    requires |rounded| == |infos|
    reads set i | 0 <= i < |infos| :: infos[i].queue
  {
    seq(|infos|, i reads if 0 <= i < |infos| then {infos[i].queue} else {} =>
                   if 0 <= i < |infos| then
                   Score(infos[i].queue.floors, destination, buttonType, rounded[i]) else 0)
  }

  /** Cabin `e` (1-based) has the least score, and no lower-numbered cabin ties with it. */
  predicate IsLowestArgmin(scores: seq<int>, e: int) {
    && 1 <= e < |scores|
    && (forall i :: 1 <= i < |scores| ==> scores[e] <= scores[i])
    && (forall i :: 1 <= i < e ==> scores[e] < scores[i])
  }

  /** `get_suitable_elevator` over cabins 1..N, where `|infos| == N + 1`. */
  method GetSuitableElevator(destination: int, buttonType: int, infos: seq<ElevatorInformation>,
                             rounded: seq<int>)
    returns (elevator: int)
    requires 2 <= |infos| && |rounded| == |infos|
    requires forall i :: 1 <= i < |infos| ==> infos[i].queue.Valid()
    ensures IsLowestArgmin(Scores(destination, buttonType, infos, rounded), elevator)
  {
    ghost var s := Scores(destination, buttonType, infos, rounded);
    elevator := 1;
    var bestRange := DistanceToFloor(destination, buttonType, infos[1], rounded[1]);
    var i := 2;
    while i < |infos|
      invariant 2 <= i <= |infos|
      invariant 1 <= elevator < i
      invariant bestRange == s[elevator]
      invariant forall j :: 1 <= j < i ==> s[elevator] <= s[j]
      invariant forall j :: 1 <= j < elevator ==> s[elevator] < s[j]
    {
      var currentRange := DistanceToFloor(destination, buttonType, infos[i], rounded[i]);
      if currentRange < bestRange {
        bestRange := currentRange;
        elevator := i;
      }
      i := i + 1;
    }
  }

  /** The selection is determined by the scores alone. */
  lemma LowestArgminIsUnique(scores: seq<int>, a: int, b: int)
    requires IsLowestArgmin(scores, a) && IsLowestArgmin(scores, b)
    ensures a == b
  {
    assert scores[a] == scores[b];
  }

  // ---------------------------------------------------------------------------
  // What a score means

  /** The floor the walk is at before stop `i`. */
  function Before(stops: seq<int>, from: int, i: nat): int
    requires i <= |stops|
  {
    if i == 0 then from else stops[i - 1]
  }

  predicate FitsAt(stops: seq<int>, from: int, i: nat, destination: int, buttonType: int)
    requires i < |stops|
  {
    Fits(Before(stops, from, i), stops[i], destination, buttonType)
  }

  lemma AbsAsReal(a: int, b: int)
    ensures Abs(a - b) as real == AbsReal(b as real - a as real)
  {
  }

  /**
   * The walk stops at the first stop whose leg the caller fits on, counts the
   * stops before it, and its distance is the route to that point plus the
   * final leg to the caller; with no fit it is the whole route, without a
   * final leg.
   */
  lemma {:induction false} WalkIsRouteToFirstFit(stops: seq<int>, destination: int, buttonType: int, from: int)
    ensures var w := WalkStops(stops, destination, buttonType, from);
            && w.stops <= |stops|
            && (forall i :: 0 <= i < w.stops ==> !FitsAt(stops, from, i, destination, buttonType))
            && (w.stops < |stops| ==> FitsAt(stops, from, w.stops, destination, buttonType))
            && w.distance as real
                 == RouteLength(from as real, stops[..w.stops])
                    + (if w.stops < |stops|
                       then AbsReal(destination as real - Before(stops, from, w.stops) as real)
                       else 0.0)
    decreases |stops|
  {
    var w := WalkStops(stops, destination, buttonType, from);
    if stops == [] {
    } else if Fits(from, stops[0], destination, buttonType) {
      assert stops[..0] == [];
      AbsAsReal(from, destination);
    } else {
      var tail := stops[1..];
      var rest := WalkStops(tail, destination, buttonType, stops[0]);
      WalkIsRouteToFirstFit(tail, destination, buttonType, stops[0]);
      assert w.stops == rest.stops + 1;
      forall i | 0 <= i < w.stops ensures !FitsAt(stops, from, i, destination, buttonType) {
        if i > 0 {
          assert Before(stops, from, i) == Before(tail, stops[0], i - 1);
          assert !FitsAt(tail, stops[0], i - 1, destination, buttonType);
        }
      }
      if w.stops < |stops| {
        assert Before(stops, from, w.stops) == Before(tail, stops[0], rest.stops);
      }
      var prefix := stops[..w.stops];
      assert prefix[0] == stops[0] && prefix[1..] == tail[..rest.stops];
      AbsAsReal(from, stops[0]);
      assert RouteLength(from as real, prefix)
               == AbsReal(stops[0] as real - from as real) + RouteLength(stops[0] as real, tail[..rest.stops]);
    }
  }

  /** Travelling a route and then to `d` is never shorter than going to `d` directly. */
  lemma {:induction false} RouteTriangle(from: real, s: seq<int>, d: real)
    ensures RouteLength(from, s) + AbsReal(d - LegStart(s, from, |s|)) >= AbsReal(d - from)
    decreases |s|
  {
    if s != [] {
      RouteTriangle(s[0] as real, s[1..], d);
      if |s| > 1 {
        assert LegStart(s[1..], s[0] as real, |s| - 1) == LegStart(s, from, |s|);
      }
    }
  }

  /**
   * Scores are non-negative; an idle cabin scores its plain distance; a cabin
   * the caller fits on the way of scores at least its plain distance plus 3
   * per stop served first.
   */
  lemma ScoreBounds(stops: seq<int>, destination: int, buttonType: int, currentFloor: int)
    ensures Score(stops, destination, buttonType, currentFloor) >= 0
    ensures stops == [] ==> Score(stops, destination, buttonType, currentFloor) == Abs(destination - currentFloor)
    ensures var w := WalkStops(stops, destination, buttonType, currentFloor);
            w.stops < |stops| ==>
              Score(stops, destination, buttonType, currentFloor)
                >= Abs(destination - currentFloor) + StopPenalty * w.stops
  {
    var w := WalkStops(stops, destination, buttonType, currentFloor);
    if w.stops < |stops| {
      WalkIsRouteToFirstFit(stops, destination, buttonType, currentFloor);
      var prefix := stops[..w.stops];
      assert LegStart(prefix, currentFloor as real, |prefix|) == Before(stops, currentFloor, w.stops) as real;
      RouteTriangle(currentFloor as real, prefix, destination as real);
      AbsAsReal(currentFloor, destination);
    }
  }

  /**
   * Only the next stop is compared with the caller's floor: a cabin at 5 whose
   * one stop is 8 fits an up call at 2, and scores the plain distance 3,
   * although its leg from 5 to 8 never reaches floor 2.
   */
  lemma FitIgnoresLegStart(prev1: int, prev2: int, next: int, destination: int, buttonType: int)
    requires (prev1 < next) == (prev2 < next)
    ensures Fits(prev1, next, destination, buttonType) == Fits(prev2, next, destination, buttonType)
    ensures Fits(5, 8, 2, GoingUp) && Score([8], 2, GoingUp, 5) == 3
  {
  }

  /**
   * A cabin whose first stop lies beyond the caller's floor in the requested
   * direction, on a first leg in that direction, scores its plain distance.
   */
  lemma ScoreOnTheWay(stops: seq<int>, destination: int, buttonType: int, currentFloor: int)
    requires stops != [] && Fits(currentFloor, stops[0], destination, buttonType)
    ensures Score(stops, destination, buttonType, currentFloor) == Abs(destination - currentFloor)
  {
  }

  /**
   * When no leg fits, no final leg to the caller is counted: a cabin at floor
   * 0 with one stop at floor 1 scores 4 for a down call at floor 10.
   */
  lemma ScoreWithoutFitOmitsLastLeg()
    ensures Score([1], 10, GoingDown, 0) == 4
    ensures Score([1], 10, GoingDown, 0) < Abs(10 - 0)
  {
    assert !Fits(0, 1, 10, GoingDown);
    assert [1][1..] == [];
  }
}
