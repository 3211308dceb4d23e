/**
 * Door-state inference on the dispatcher side. The hardware reports no door
 * events; a cabin whose position sample repeats is taken to be opening or
 * closing its doors. Each cabin has a tracker holding the last sample, how
 * many times in a row it was seen, and the door state last announced.
 */
module DoorInference {
  import opened Events

  /** Identical samples after which a door transition is announced. */
  const DoorOpeningRepetitions: int := 4

  datatype DoorTracker = DoorTracker(position: real, repetitions: int, state: int)

  /** The tracker a cabin starts with: its initial position, no repetitions, doors closed (-1). */
  function InitialTracker(position: real): DoorTracker
  {
    DoorTracker(position, 0, -1)
  }

  /** Between two samples the counter is below the threshold and the state is +1 or -1. */
  predicate TrackerValid(t: DoorTracker) {
    0 <= t.repetitions < DoorOpeningRepetitions && (t.state == 1 || t.state == -1)
  }

  /** The new tracker and the event (if any) forwarded to the cabin's buffer. */
  datatype Observation = Observation(tracker: DoorTracker, emitted: Option<Event>)

  /** The Position branch of the dispatcher for one sample of cabin `cabin`. */
  function Observe(t: DoorTracker, cabin: int, sample: real): (o: Observation)
    ensures o.tracker.position == sample
    ensures o.emitted.None? <==> t.position == sample && t.repetitions + 1 != DoorOpeningRepetitions
    ensures o.emitted.Some? ==> (o.emitted.value.Position? || o.emitted.value.Door?) && o.emitted.value.cabin == cabin
    ensures o.emitted.Some? && o.emitted.value.Door? ==> o.emitted.value.state == o.tracker.state == -t.state
  {
    if t.position == sample then
      if t.repetitions + 1 == DoorOpeningRepetitions then
        Observation(DoorTracker(t.position, 1, -t.state), Some(Door(cabin, -t.state)))
      else
        Observation(t.(repetitions := t.repetitions + 1), None)
    else
      Observation(DoorTracker(sample, 1, t.state), Some(Position(cabin, sample)))
  }

  lemma InitialTrackerValid(position: real)
    ensures TrackerValid(InitialTracker(position))
  {
  }

  /**
   * One sample: a repeat only counts (announcing the flipped state when the
   * count reaches the threshold, then restarting at 1), a new value is
   * forwarded and restarts the count; the tracker stays valid.
   */
  lemma ObserveStep(t: DoorTracker, cabin: int, sample: real)
    requires TrackerValid(t)
    ensures var o := Observe(t, cabin, sample);
            && TrackerValid(o.tracker)
            && o.tracker.position == sample
            && (t.position != sample ==>
                  o.emitted == Some(Position(cabin, sample)) && o.tracker.repetitions == 1
                  && o.tracker.state == t.state)
            && (t.position == sample && t.repetitions + 1 < DoorOpeningRepetitions ==>
                  o.emitted == None && o.tracker.repetitions == t.repetitions + 1
                  && o.tracker.state == t.state)
            && (t.position == sample && t.repetitions + 1 == DoorOpeningRepetitions ==>
                  o.emitted == Some(Door(cabin, o.tracker.state)) && o.tracker.repetitions == 1
                  && o.tracker.state == -t.state)
  {
  }

  // ---------------------------------------------------------------------------
  // Streams of samples

  datatype Trace = Trace(tracker: DoorTracker, emitted: seq<Event>)

  /** Feeding samples one after another, collecting what is forwarded. */
  function ObserveAll(t: DoorTracker, cabin: int, samples: seq<real>): Trace
    decreases |samples|
  {
    if samples == [] then Trace(t, [])
    else
      var before := ObserveAll(t, cabin, samples[..|samples| - 1]);
      var o := Observe(before.tracker, cabin, samples[|samples| - 1]);
      Trace(o.tracker, before.emitted + (if o.emitted.Some? then [o.emitted.value] else []))
  }

  /** `s` flipped `m` times. */
  function Toggled(s: int, m: nat): int
  {
    if m % 2 == 0 then s else -s
  }

  /** The door events announced by `m` successive flips starting from state `s`. */
  function DoorToggles(cabin: int, s: int, m: nat): seq<Event>
  {
    if m == 0 then [] else DoorToggles(cabin, s, m - 1) + [Door(cabin, Toggled(s, m))]
  }

  /**
   * `k` identical samples after a different one: the first is forwarded, a
   * door transition is announced at the 4th, 7th, 10th ... sample, alternating
   * the state, and the counter never falls back to 0.
   */
  lemma {:induction false} RepeatedSamples(t: DoorTracker, cabin: int, x: real, k: nat)
    requires t.position != x && 1 <= k
    ensures ObserveAll(t, cabin, seq(k, _ => x))
              == Trace(DoorTracker(x, (k - 1) % 3 + 1, Toggled(t.state, (k - 1) / 3)),
                       [Position(cabin, x)] + DoorToggles(cabin, t.state, (k - 1) / 3))
  {
    var samples := seq(k, _ => x);
    if k == 1 {
      assert samples[..0] == [];
    } else {
      assert samples[..k - 1] == seq(k - 1, _ => x);
      RepeatedSamples(t, cabin, x, k - 1);
      var m := k - 2;
      var n := m / 3;
      assert m == 3 * n + m % 3;
      if m % 3 == 2 {
        assert (k - 1) % 3 == 0 && (k - 1) / 3 == n + 1;
        assert Toggled(t.state, n + 1) == -Toggled(t.state, n);
      } else {
        assert (k - 1) % 3 == m % 3 + 1 && (k - 1) / 3 == n;
      }
    }
  }

  /** From the 4th to the 6th identical sample exactly one door event has been announced. */
  lemma OneDoorEventAfterFourthSample(t: DoorTracker, cabin: int, x: real, k: nat)
    requires t.position != x && 4 <= k <= 6
    ensures ObserveAll(t, cabin, seq(k, _ => x)).emitted == [Position(cabin, x), Door(cabin, -t.state)]
    ensures ObserveAll(t, cabin, seq(k, _ => x)).tracker.repetitions == k - 3
  {
    RepeatedSamples(t, cabin, x, k);
    assert (k - 1) / 3 == 1;
    assert DoorToggles(cabin, t.state, 1) == [Door(cabin, -t.state)];
  }
}
