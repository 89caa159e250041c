/** Where stored samples come from: the samples of a mode hold observations made in that mode only, and each
    observation is merged into the sample of its own time. */
module HistoryProvenances {
  import opened Modes
  import opened Histories
  import opened HistorySnapshots

  predicate FromSegment(samples: seq<Sample>, seen: set<Observation>) {
    forall k, o :: 0 <= k < |samples| && o in samples[k] ==> o in seen
  }

  /** Every observation merged into the samples is among those seen. */
  predicate From(samples: BodySamples, seen: set<Observation>) {
    forall i :: 0 <= i < |samples| ==> FromSegment(samples[i], seen)
  }

  /** The observations made in each mode so far. */
  type Seen = map<Mode, set<Observation>>

  function SeenIn(seen: Seen, m: Mode): set<Observation> {
    if m in seen then seen[m] else {}
  }

  function SeenAfter(seen: Seen, e: Event): Seen {
    match e
    case State(mode, os, t) => seen[mode := SeenIn(seen, mode) + (set o | o in os)]
    case Purge(cutoff) => seen
  }

  predicate Owned(h: History, seen: Seen) {
    && (forall m, i :: m in h.states && 0 <= i < |h.states[m]| ==> From(h.states[m][i].value, SeenIn(seen, m)))
    && From(h.buffer, SeenIn(seen, h.latestMode))
  }

  lemma FromMore(samples: BodySamples, seen: set<Observation>, more: set<Observation>)
    requires From(samples, seen) && seen <= more
    ensures From(samples, more)
  {
    forall i | 0 <= i < |samples| ensures FromSegment(samples[i], more) { assert FromSegment(samples[i], seen); }
  }

  /** Copying the last sample adds no observation. */
  lemma CopiesFrom(samples: seq<Sample>, n: nat, seen: set<Observation>)
    requires FromSegment(samples, seen) && samples != []
    ensures FromSegment(samples + Copies(samples[|samples| - 1], n), seen)
  {
    var r := samples + Copies(samples[|samples| - 1], n);
    forall k, o | 0 <= k < |r| && o in r[k] ensures o in seen {
      if k >= |samples| { assert r[k] == samples[|samples| - 1]; }
    }
  }

  lemma AtExitFrom(robot: Robot, samples: BodySamples, thousandths: nat, seen: set<Observation>)
    requires From(samples, seen) && forall i :: 0 <= i < |samples| ==> samples[i] != []
    ensures From(AtExit(robot, samples, thousandths), seen)
  {
    var n := Padding(SizeOf(samples), thousandths);
    forall i | 0 <= i < |samples| ensures FromSegment(Padded(samples, n)[i], seen) {
      CopiesFrom(samples[i], n, seen);
    }
  }

  lemma ObservedFrom(samples: seq<Sample>, index: nat, distance: int, o: Observation, seen: set<Observation>)
    requires FromSegment(samples, seen) && (distance > 1 ==> samples != []) && index < |Grown(samples, distance)|
    ensures FromSegment(Observed(samples, index, distance, o), seen + {o})
  {
    if distance > 1 { CopiesFrom(samples, distance - 1, seen); }
    var grown := Grown(samples, distance);
    assert FromSegment(grown, seen);
  }

  lemma RecordedFrom(samples: BodySamples, index: nat, distance: int, os: seq<Observation>, seen: set<Observation>)
    requires From(samples, seen) && |os| == |samples| && Recordable(samples, index, distance)
    ensures From(Recorded(samples, index, distance, os), seen + (set o | o in os))
  {
    var r := Recorded(samples, index, distance, os);
    forall i | 0 <= i < |r| ensures FromSegment(r[i], seen + (set o | o in os)) {
      assert FromSegment(samples[i], seen);
      ObservedFrom(samples[i], index, distance, os[i], seen);
      assert forall k, o :: 0 <= k < |r[i]| && o in r[i][k] ==> o in seen + {os[i]};
    }
  }

  lemma SwitchedOwned(robot: Robot, h: History, seen: Seen, mode: Mode, t: nat)
    requires Valid(robot, h) && Owned(h, seen) && h.latestTime <= t && !mode.IsEmpty()
    ensures Owned(Switched(robot, h, mode, t), seen)
  {
    hide From, AtExit, StaysStored, TracesAgree;
    if h.latestMode != mode {
      if h.presences != [] { LeftOwned(robot, h, seen, t); }
      NoneFrom(robot, SeenIn(seen, mode));
      SwitchedHolds(robot, h, mode, t);
    }
  }

  lemma LeftOwned(robot: Robot, h: History, seen: Seen, t: nat)
    requires Valid(robot, h) && Owned(h, seen) && h.presences != [] && h.latestTime <= t
    ensures Owned(Left(robot, h, t), seen)
  {
    LevelNonEmpty(robot, h.buffer);
    AtExitFrom(robot, h.buffer, robot.Thousandths(LastExit(h), t), SeenIn(seen, h.latestMode));
    hide From, AtExit, Valid;
  }

  lemma NoneFrom(robot: Robot, seen: set<Observation>)
    ensures From(NoSamples(robot), seen)
  {
  }

  lemma AcquiredOwned(robot: Robot, h: History, seen: Seen, mode: Mode, os: seq<Observation>, t: nat)
    requires Valid(robot, h) && Owned(h, seen) && h.latestTime <= t && !mode.IsEmpty() && |os| == robot.segments
    ensures Owned(Acquired(robot, h, mode, os, t), SeenAfter(seen, State(mode, os, t)))
  {
    hide *;
    SwitchedOwned(robot, h, seen, mode, t);
    var index, distance := AcquiredIs(robot, h, mode, os, t);
    RecordedOwned(Switched(robot, h, mode, t), Acquired(robot, h, mode, os, t), seen, mode, os, t, index, distance);
  }

  lemma AcquiredIs(robot: Robot, h: History, mode: Mode, os: seq<Observation>, t: nat)
    returns (index: nat, distance: int)
    requires Valid(robot, h) && h.latestTime <= t && !mode.IsEmpty() && |os| == robot.segments
    ensures var h', h'' := Switched(robot, h, mode, t), Acquired(robot, h, mode, os, t);
            && h'.latestMode == mode && h''.latestMode == mode && h''.states == h'.states
            && |os| == |h'.buffer| && Recordable(h'.buffer, index, distance)
            && h''.buffer == Recorded(h'.buffer, index, distance, os)
  {
    SwitchedRecordable(robot, h, mode, t);
    var h' := Switched(robot, h, mode, t);
    index, distance := Position(robot, h', t).0, Position(robot, h', t).1;
    SwitchedHolds(robot, h, mode, t);
    hide Valid, Recorded, Recordable, Position, Switched;
  }

  lemma RecordedOwned(h: History, h': History, seen: Seen, mode: Mode, os: seq<Observation>, t: nat, index: nat,
                      distance: int)
    requires Owned(h, seen) && h.latestMode == mode == h'.latestMode && h'.states == h.states
    requires |os| == |h.buffer| && Recordable(h.buffer, index, distance)
    requires h'.buffer == Recorded(h.buffer, index, distance, os)
    ensures Owned(h', SeenAfter(seen, State(mode, os, t)))
  {
    hide From, Recorded, Recordable;
    RecordedFrom(h.buffer, index, distance, os, SeenIn(seen, mode));
    MoreOwned(h.states, seen, mode, os, t);
  }

  lemma MoreOwned(states: States, seen: Seen, mode: Mode, os: seq<Observation>, t: nat)
    requires forall m, i :: m in states && 0 <= i < |states[m]| ==> From(states[m][i].value, SeenIn(seen, m))
    ensures var seen' := SeenAfter(seen, State(mode, os, t));
            forall m, i :: m in states && 0 <= i < |states[m]| ==> From(states[m][i].value, SeenIn(seen', m))
  {
    var seen' := SeenAfter(seen, State(mode, os, t));
    forall m, i | m in states && 0 <= i < |states[m]| ensures From(states[m][i].value, SeenIn(seen', m)) {
      FromMore(states[m][i].value, SeenIn(seen, m), SeenIn(seen', m));
    }
  }

  function SeenOver(seen: Seen, events: seq<Event>): Seen
    decreases |events|
  {
    if events == [] then seen else SeenOver(SeenAfter(seen, events[0]), events[1..])
  }

  /** In every run: the samples stored for a mode, and those in the buffer, hold only observations made in that
      mode, however often the robot came and went. */
  lemma {:induction false} RunOwned(robot: Robot, h: History, seen: Seen, events: seq<Event>, h': History)
    requires Valid(robot, h) && Owned(h, seen) && Runs(robot, h, events, h')
    ensures Owned(h', SeenOver(seen, events))
    decreases |events|
  {
    hide Valid, Owned, Acquired, Purged, SeenAfter;
    if events == [] {
    } else {
      StepOwned(robot, h, seen, events[0]);
      RunOwned(robot, After(robot, h, events[0]), SeenAfter(seen, events[0]), events[1..], h');
    }
  }

  lemma StepOwned(robot: Robot, h: History, seen: Seen, e: Event)
    requires Valid(robot, h) && Owned(h, seen) && Enabled(robot, h, e)
    ensures Owned(After(robot, h, e), SeenAfter(seen, e))
  {
    hide Valid, Acquired, From;
    match e
    case State(mode, os, t) => AcquiredOwned(robot, h, seen, mode, os, t);
    case Purge(cutoff) =>
  }

  lemma CreatedOwned(robot: Robot)
    ensures Owned(Created(robot), map[])
  {
  }

  /** And so over every run from a new history. */
  lemma AlwaysOwned(robot: Robot, events: seq<Event>, h: History)
    requires robot.Valid() && Valid(robot, Created(robot)) && Runs(robot, Created(robot), events, h)
    ensures Owned(h, SeenOver(map[], events))
  {
    hide Valid, Runs, Owned;
    CreatedOwned(robot);
    RunOwned(robot, Created(robot), map[], events, h);
  }

  /** What an observation does to a segment: position `index` gains it; the samples before keep what they had, and
      the new ones in between are copies of the last one, up to a new empty one at the end. */
  lemma ObservedAt(samples: seq<Sample>, index: nat, distance: int, o: Observation, k: nat)
    requires (distance > 1 ==> samples != []) && index < |Grown(samples, distance)|
    requires k < |Observed(samples, index, distance, o)|
    ensures |Observed(samples, index, distance, o)| == |samples| + (if distance > 0 then distance else 0)
    ensures Observed(samples, index, distance, o)[k] ==
            (if k < |samples| then samples[k]
             else if k == |Observed(samples, index, distance, o)| - 1 then []
             else samples[|samples| - 1]) +
            (if k == index then [o] else [])
  {
    var r := Grown(samples, distance)[k];
    assert r + [] == r;
  }

  lemma ObservedInto(samples: seq<Sample>, index: nat, distance: int, o: Observation)
    requires samples != [] && index < |Grown(samples, distance)|
    ensures var samples' := Observed(samples, index, distance, o);
            && |samples'| == |samples| + (if distance > 0 then distance else 0) && index < |samples'|
            && samples'[index] != [] && samples'[index][|samples'[index]| - 1] == o
            && (forall k :: 0 <= k < |samples| && k != index ==> samples'[k] == samples[k])
            && (index < |samples| ==> samples'[index] == samples[index] + [o])
            && (forall k :: |samples| <= k < |samples'| - 1 ==>
                  samples'[k] == samples[|samples| - 1] + if k == index then [o] else [])
            && (|samples'| > |samples| ==> samples'[|samples'| - 1] == if |samples'| - 1 == index then [o] else [])
  {
    hide Observed, Grown;
    var samples' := Observed(samples, index, distance, o);
    assert |samples'| == |Grown(samples, distance)| by { GrownSize(samples, index, distance, o); }
    forall k | 0 <= k < |samples'|
      ensures samples'[k] ==
              (if k < |samples| then samples[k] else if k == |samples'| - 1 then [] else samples[|samples| - 1]) +
              (if k == index then [o] else [])
    {
      ObservedAt(samples, index, distance, o, k);
    }
    ObservedAt(samples, index, distance, o, index);
  }

  lemma GrownSize(samples: seq<Sample>, index: nat, distance: int, o: Observation)
    requires (distance > 1 ==> samples != []) && index < |Grown(samples, distance)|
    ensures |Observed(samples, index, distance, o)| == |Grown(samples, distance)|
  {
  }

  /** Within a stay in a mode that has been visited before, an observation at t goes to the sample of t: the one before
      which as many samples lie as whole messages fit in the milliseconds since the last exit. */
  lemma MergedAtItsTime(robot: Robot, h: History, mode: Mode, os: seq<Observation>, t: nat, i: nat, index: nat)
    requires Valid(robot, h) && h.latestTime <= t && !mode.IsEmpty() && |os| == robot.segments && i < robot.segments
    requires h.latestMode == mode && mode in h.states
    requires h.presences != [] && LastExit(h) <= t
    requires 1000 * index <= (t - LastExit(h)) * robot.frequency < 1000 * (index + 1)
    ensures var samples, samples' := h.buffer[i], Acquired(robot, h, mode, os, t).buffer[i];
            && index < |samples'| && samples'[index] != [] && samples'[index][|samples'[index]| - 1] == os[i]
            && |samples| <= |samples'|
            && (forall k :: 0 <= k < |samples| && k != index ==> samples'[k] == samples[k])
            && (index < |samples| ==> samples'[index] == samples[index] + [os[i]])
    ensures h.states[mode] != [] && i < |LatestStored(h, mode)|
    ensures var stored := |LatestStored(h, mode)[i]|;
            var samples, samples' := h.buffer[i], Acquired(robot, h, mode, os, t).buffer[i];
            && |samples'| == |samples| + (if index < stored then 0 else index + 1 - stored)
            && (forall k :: |samples| <= k < |samples'| - 1 ==>
                  samples'[k] == samples[|samples| - 1] + if k == index then [os[i]] else [])
            && (|samples'| > |samples| ==> samples'[|samples'| - 1] == if |samples'| - 1 == index then [os[i]] else [])
  {
    hide Grown, Observed, TracesAgree, PresencesAgree, StaysStored, Chained;
    MergedIs(robot, h, mode, os, t, i, index);
    ObservedInto(h.buffer[i], index, index + 1 - |LatestStored(h, mode)[i]|, os[i]);
  }

  lemma MergedIs(robot: Robot, h: History, mode: Mode, os: seq<Observation>, t: nat, i: nat, index: nat)
    requires Valid(robot, h) && h.latestTime <= t && !mode.IsEmpty() && |os| == robot.segments && i < robot.segments
    requires h.latestMode == mode && mode in h.states
    requires h.presences != [] && LastExit(h) <= t
    requires 1000 * index <= (t - LastExit(h)) * robot.frequency < 1000 * (index + 1)
    ensures h.states[mode] != [] && i < |LatestStored(h, mode)| && i < |h.buffer| && h.buffer[i] != []
    ensures i < |Acquired(robot, h, mode, os, t).buffer|
    ensures var distance := index + 1 - |LatestStored(h, mode)[i]|;
            && index < |Grown(h.buffer[i], distance)|
            && Acquired(robot, h, mode, os, t).buffer[i] == Observed(h.buffer[i], index, distance, os[i])
  {
    hide Grown, Observed, TracesAgree, StaysStored, Chained;
    SwitchedRecordable(robot, h, mode, t);
    WholeIs(robot, LastExit(h), t, index);
  }
}
