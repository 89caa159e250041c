/** That every stay leaves other samples behind: at each exit from a mode more observations are in the samples stored
    for it than at the exit before, so that they are never the same again. */
module HistoryGrowths {
  import opened Modes
  import opened TimedEntries
  import opened Histories
  import opened HistorySnapshots
  import opened HistoryEnvironments
  import HistoryProvenances

  /** How many observations were merged into the samples of a segment. */
  function Total(samples: seq<Sample>): nat {
    if samples == [] then 0 else Total(samples[..|samples| - 1]) + |samples[|samples| - 1]|
  }

  /** The same for the first segment of the robot. */
  function Weight(samples: BodySamples): nat {
    if samples == [] then 0 else Total(samples[0])
  }

  /** Each time, more observations were stored than the time before. */
  predicate Gains(stored: seq<Timed<BodySamples>>) {
    forall i, j :: 0 <= i < j < |stored| ==> Weight(stored[i].value) < Weight(stored[j].value)
  }

  predicate StoresGain(states: States) {
    forall m :: m in states ==> Gains(states[m])
  }

  /** The observations in the buffer are at least so many more than those last stored for its mode. */
  predicate BufferGains(h: History, more: nat) {
    h.latestMode in h.states && h.states[h.latestMode] != [] ==>
      Weight(LatestStored(h, h.latestMode)) + more <= Weight(h.buffer)
  }

  predicate Growing(h: History) {
    StoresGain(h.states) && BufferGains(h, 1)
  }

  /* What the operations on samples add */

  lemma TotalAppended(samples: seq<Sample>, s: Sample)
    ensures Total(samples + [s]) == Total(samples) + |s|
  {
    assert (samples + [s])[..|samples|] == samples;
  }

  lemma {:induction false} CopiesTotal(samples: seq<Sample>, s: Sample, n: nat)
    ensures Total(samples + Copies(s, n)) >= Total(samples)
  {
    if n == 0 {
      assert samples + Copies(s, 0) == samples;
    } else {
      CopiesTotal(samples, s, n - 1);
      assert samples + Copies(s, n) == samples + Copies(s, n - 1) + [s];
      TotalAppended(samples + Copies(s, n - 1), s);
    }
  }

  lemma {:induction false} MergedTotal(samples: seq<Sample>, i: nat, o: Observation)
    requires i < |samples|
    ensures Total(samples[i := samples[i] + [o]]) == Total(samples) + 1
  {
    var n, samples' := |samples| - 1, samples[i := samples[i] + [o]];
    if i < n {
      MergedTotal(samples[..n], i, o);
      assert samples'[..n] == samples[..n][i := samples[i] + [o]];
    } else {
      assert samples'[..n] == samples[..n];
    }
  }

  lemma ObservedTotal(samples: seq<Sample>, index: nat, distance: int, o: Observation)
    requires (distance > 1 ==> samples != []) && index < |Grown(samples, distance)|
    ensures Total(Observed(samples, index, distance, o)) > Total(samples)
  {
    MergedTotal(Grown(samples, distance), index, o);
    if distance > 1 {
      var copied := samples + Copies(samples[|samples| - 1], distance - 1);
      CopiesTotal(samples, samples[|samples| - 1], distance - 1);
      TotalAppended(copied, []);
    } else if distance > 0 {
      TotalAppended(samples, []);
    }
  }

  lemma RecordedWeight(samples: BodySamples, index: nat, distance: int, os: seq<Observation>)
    requires samples != [] && |os| == |samples| && Recordable(samples, index, distance)
    ensures Weight(Recorded(samples, index, distance, os)) > Weight(samples)
  {
    ObservedTotal(samples[0], index, distance, os[0]);
    assert Recorded(samples, index, distance, os)[0] == Observed(samples[0], index, distance, os[0]);
    hide Observed, Grown;
  }

  lemma LeftWeight(robot: Robot, h: History, t: nat)
    requires Valid(robot, h) && h.presences != [] && h.latestTime <= t
    ensures Weight(LeftSamples(robot, h, t)) >= Weight(h.buffer)
  {
    LevelNonEmpty(robot, h.buffer);
    AtExitWeight(robot, h.buffer, robot.Thousandths(LastExit(h), t));
  }

  lemma AtExitWeight(robot: Robot, samples: BodySamples, thousandths: nat)
    requires forall i :: 0 <= i < |samples| ==> samples[i] != []
    ensures Weight(AtExit(robot, samples, thousandths)) >= Weight(samples)
  {
    if samples != [] {
      CopiesTotal(samples[0], samples[0][|samples[0]| - 1], Padding(SizeOf(samples), thousandths));
    }
  }

  /* What every step keeps */

  lemma GainsAppended(stored: seq<Timed<BodySamples>>, e: Timed<BodySamples>)
    requires Gains(stored) && (stored != [] ==> Weight(stored[|stored| - 1].value) < Weight(e.value))
    ensures Gains(stored + [e])
  {
    hide Weight;
    var stored' := stored + [e];
    forall i, j | 0 <= i < j < |stored'| ensures Weight(stored'[i].value) < Weight(stored'[j].value) {
      if j == |stored| && i < |stored| - 1 {
        assert Weight(stored[i].value) < Weight(stored[|stored| - 1].value);
      }
    }
  }

  lemma LeftGrowing(robot: Robot, h: History, t: nat)
    requires Valid(robot, h) && Growing(h) && h.presences != [] && h.latestTime <= t
    ensures StoresGain(Left(robot, h, t).states)
  {
    LeftWeight(robot, h, t);
    hide Valid, Weight, Gains, LeftSamples;
    GainsAppended(StoredIn(h, h.latestMode), Timed(t, LeftSamples(robot, h, t)));
  }

  lemma SwitchedGrowing(robot: Robot, h: History, mode: Mode, t: nat)
    requires Valid(robot, h) && Growing(h) && h.latestTime <= t && !mode.IsEmpty()
    ensures StoresGain(Switched(robot, h, mode, t).states) && BufferGains(Switched(robot, h, mode, t), 0)
  {
    if h.latestMode != mode && h.presences != [] { LeftGrowing(robot, h, t); }
    hide Valid, Weight, Gains, Left;
  }

  lemma AcquiredGrowing(robot: Robot, h: History, mode: Mode, os: seq<Observation>, t: nat)
    requires Valid(robot, h) && Growing(h) && h.latestTime <= t && !mode.IsEmpty() && |os| == robot.segments
    ensures Growing(Acquired(robot, h, mode, os, t))
  {
    hide Valid, Acquired, Switched, StoresGain, Recorded, Recordable, Weight;
    SwitchedGrowing(robot, h, mode, t);
    var index, distance := HistoryProvenances.AcquiredIs(robot, h, mode, os, t);
    SomeSegment(robot, h);
    RecordedWeight(Switched(robot, h, mode, t).buffer, index, distance, os);
  }

  lemma SomeSegment(robot: Robot, h: History)
    requires Valid(robot, h)
    ensures robot.segments > 0
  {
  }

  lemma StepGrowing(robot: Robot, h: History, e: Event)
    requires Valid(robot, h) && Growing(h) && Enabled(robot, h, e)
    ensures Growing(After(robot, h, e))
  {
    hide Valid, Acquired, Gains, Weight;
    match e
    case State(mode, os, t) => AcquiredGrowing(robot, h, mode, os, t);
    case Purge(cutoff) =>
  }

  lemma {:induction false} RunGrowing(robot: Robot, h: History, events: seq<Event>, h': History)
    requires Valid(robot, h) && Growing(h) && Runs(robot, h, events, h')
    ensures Growing(h')
    decreases |events|
  {
    hide Valid, Growing, Enabled, After;
    if events == [] {
    } else {
      StepGrowing(robot, h, events[0]);
      RunGrowing(robot, After(robot, h, events[0]), events[1..], h');
    }
  }

  /** Over every run from a new history. */
  lemma AlwaysGrowing(robot: Robot, events: seq<Event>, h: History)
    requires robot.Valid() && Valid(robot, Created(robot)) && Runs(robot, Created(robot), events, h)
    ensures Valid(robot, h) && Growing(h)
  {
    hide Valid, Runs;
    RunValid(robot, Created(robot), events, h);
    RunGrowing(robot, Created(robot), events, h);
  }

  /** So the samples of a mode have been updated between two snapshots exactly if the mode has been exited. */
  lemma UpdatedIffExited(robot: Robot, h: History, m: Mode, since: nat, time: nat)
    requires Valid(robot, h) && Growing(h) && since <= time
    ensures StoredAt(h, time, m) != StoredAt(h, since, m) <==> ExitedBetween(h, m, since, time)
  {
    hide TracesAgree, BufferAgrees, StaysStored, PresencesAgree, Weight, Level;
    if ExitedBetween(h, m, since, time) {
      var stored := StoredIn(h, m);
      var i :| 0 <= i < |stored| && since < stored[i].time <= time;
      PrefixIsAll(stored, since, i);
      PrefixIsAll(stored, time, i);
      var n, n' := Prefix(stored, since), Prefix(stored, time);
      assert n < n' && (n > 0 ==> Weight(stored[n - 1].value) < Weight(stored[n' - 1].value));
    } else {
      SamplesKept(h, m, since, time);
    }
  }
}
