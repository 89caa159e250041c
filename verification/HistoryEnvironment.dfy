/** What a prediction visits, taken from a snapshot of the history: the samples of one robot segment along a
    trace of modes. And what of it is the same in a later snapshot. */
module HistoryEnvironments {
  import opened Capsules
  import opened Modes
  import opened TimedEntries
  import opened Histories
  import opened HistorySnapshots
  import opened TraceSampleRanges
  import opened Barriers
  import opened SectionLists
  import opened SectionResets
  import opened LookAheadJobs

  /** How a stored sample is seen: by its capsule, or not at all if it is empty. */
  type View = Sample -> Option<Capsule>

  function Viewed(view: View, samples: seq<Sample>): (r: SegmentSamples)
    ensures |r| == |samples| && forall i :: 0 <= i < |r| ==> r[i] == view(samples[i])
  {
    seq(|samples|, i requires 0 <= i < |samples| => view(samples[i]))
  }

  /** The samples of a segment in a mode; none if the snapshot has none. */
  function SegmentIn(view: View, h: History, s: nat, segment: nat, m: Mode): SegmentSamples {
    var stored := StoredAt(h, s, m);
    if stored.Some? && segment < |stored.value| then Viewed(view, stored.value[segment]) else []
  }

  function Along(view: View, h: History, s: nat, segment: nat, ms: seq<Mode>): (r: seq<SegmentSamples>)
    ensures |r| == |ms| && forall i :: 0 <= i < |ms| ==> r[i] == SegmentIn(view, h, s, segment, ms[i])
  {
    seq(|ms|, i requires 0 <= i < |ms| => SegmentIn(view, h, s, segment, ms[i]))
  }

  predicate Present(along: seq<SegmentSamples>, x: TraceSampleIndex) {
    x.trace < |along| && x.sample < |along[x.trace]| && along[x.trace][x.sample].Some?
  }

  /** The environment of the non-empty samples. */
  function EnvironmentOf(along: seq<SegmentSamples>): (env: Environment)
    ensures forall x :: x in env <==> Present(along, x)
    ensures forall x :: x in env ==> Present(along, x) && env[x] == along[x.trace][x.sample].value
  {
    map i: nat, k: nat | i < |along| && k < |along[i]| && along[i][k].Some? ::
      TraceSampleIndex(i, k) := along[i][k].value
  }

  /** The last entry of the trace is held as a scan of it expects. */
  lemma EnvironmentHoldsLast(along: seq<SegmentSamples>)
    requires along != []
    ensures HoldsLast(EnvironmentOf(along), |along| - 1, along[|along| - 1])
  {
    var t, env := |along| - 1, EnvironmentOf(along);
    var samples := along[t];
    forall x | x in env && x.trace == t ensures x.sample < |samples| && samples[x.sample] == Some(env[x]) {
      assert Present(along, x);
    }
    forall i | 0 <= i < |samples| && samples[i].Some? ensures TraceSampleIndex(t, i) in env {
      assert Present(along, TraceSampleIndex(t, i));
    }
  }

  /** If the entries from `lower` to `upper` have the same samples, the environments agree there. */
  lemma EnvironmentsAgree(along': seq<SegmentSamples>, along: seq<SegmentSamples>, lower: nat, upper: nat)
    requires upper < |along|
    requires forall i :: 0 <= i < |along'| && lower + i <= upper ==> along'[i] == along[lower + i]
    ensures AgreesFrom(EnvironmentOf(along'), EnvironmentOf(along), lower, upper)
  {
    var env', env := EnvironmentOf(along'), EnvironmentOf(along);
    forall x | x in env' && x.trace + lower <= upper
      ensures x.ShiftedUp(lower) in env && env[x.ShiftedUp(lower)] == env'[x]
    {
      assert Present(along', x) && along'[x.trace] == along[lower + x.trace];
      assert Present(along, x.ShiftedUp(lower));
    }
  }

  /** A mode that holds only empty samples leaves a gap of two traces between two checks, and the recorded end
      behind the index checked last; the sequence tracks the environment all the same. */
  lemma GapLeavesEndBehind(policy: UpdatePolicy, m: Metric, human: Capsule, robot: Capsule)
    requires m.humanRobot(human, robot) > 0.0
    ensures var env := EnvironmentOf([[Some(robot)], [None], [Some(robot)]]);
            var start, last := TraceSampleIndex(0, 0), TraceSampleIndex(2, 0);
            var secs := SectionsChecked(policy, m, [], human, robot, start);
            && Tracks(m, secs, env, start, Successor(start)) && SectionsAccept(secs, last)
            && var secs' := SectionsChecked(policy, m, secs, human, robot, last);
               Tracks(m, secs', env, start, Successor(last)) && secs' != [] && End(secs') == TraceSampleIndex(1, 0)
  {
    hide *;
    var env := EnvironmentOf([[Some(robot)], [None], [Some(robot)]]);
    var start, last := TraceSampleIndex(0, 0), TraceSampleIndex(2, 0);
    GapBetween(m, robot);
    EndLagsBehind(policy, m, human, robot);
    CheckKeepsTracking(policy, m, [], env, start, start, human, start);
    var secs := SectionsChecked(policy, m, [], human, robot, start);
    CheckKeepsTracking(policy, m, secs, env, start, Successor(start), human, last);
  }

  lemma GapBetween(m: Metric, robot: Capsule)
    ensures var env := EnvironmentOf([[Some(robot)], [None], [Some(robot)]]);
            var start, last := TraceSampleIndex(0, 0), TraceSampleIndex(2, 0);
            && start in env && last in env && env[start] == env[last] == robot
            && Tracks(m, [], env, start, start) && start.AtMost(start) && Successor(start).AtMost(last)
            && NoSampleBetween(env, start, start, start) && NoSampleBetween(env, start, Successor(start), last)
  {
    var along, start, last := [[Some(robot)], [None], [Some(robot)]], TraceSampleIndex(0, 0), TraceSampleIndex(2, 0);
    assert Present(along, start) && Present(along, last);
    forall x | x in EnvironmentOf(along) && Successor(start).AtMost(x) ensures !x.Before(last) {
      assert Present(along, x);
    }
  }

  lemma EndLagsBehind(policy: UpdatePolicy, m: Metric, human: Capsule, robot: Capsule)
    requires m.humanRobot(human, robot) > 0.0
    ensures var start, last := TraceSampleIndex(0, 0), TraceSampleIndex(2, 0);
            var secs := SectionsChecked(policy, m, [], human, robot, start);
            && SectionsWellFormed([]) && SectionsAccept([], start)
            && SectionsWellFormed(secs) && SectionsAccept(secs, last)
            && var secs' := SectionsChecked(policy, m, secs, human, robot, last);
               secs' != [] && SectionsWellFormed(secs') && End(secs') == TraceSampleIndex(1, 0)
  {
    hide SectionsChecked;
    var d, start, last := m.humanRobot(human, robot), TraceSampleIndex(0, 0), TraceSampleIndex(2, 0);
    var first := SectionValue(human, [Barrier(d, Range(start, [0]))]);
    FirstChecked(policy, m, human, robot, start);
    SameHumanChecked(policy, m, first, robot, last);
    assert [0] + Zeros(1) == [0, 0];
    assert Absorbed(first.barriers, d, last) == [Barrier(d, Range(start, [0, 0]))];
  }

  lemma FirstChecked(policy: UpdatePolicy, m: Metric, human: Capsule, robot: Capsule, index: TraceSampleIndex)
    ensures SectionsChecked(policy, m, [], human, robot, index) ==
            [SectionValue(human, [Barrier(m.humanRobot(human, robot), Range(index, [index.sample]))])]
  {
    var b := Barrier(m.humanRobot(human, robot), Range(index, [index.sample]));
    assert [] + [b] == [b];
  }

  lemma SameHumanChecked(policy: UpdatePolicy, m: Metric, s: SectionValue, robot: Capsule, index: TraceSampleIndex)
    requires SectionsWellFormed([s]) && SectionsAccept([s], index)
    ensures Nonempty(s.barriers) && Accepts(s.barriers, index)
    ensures SectionsChecked(policy, m, [s], s.human, robot, index) == [s.Checked(m, robot, index)]
  {
    assert [s][0] == s;
    hide Absorbed;
  }

  /* What changes between snapshots */

  /** A stay in the mode ended after `since` and not after `time`. */
  predicate ExitedBetween(h: History, m: Mode, since: nat, time: nat) {
    exists i :: 0 <= i < |StoredIn(h, m)| && since < StoredIn(h, m)[i].time <= time
  }

  /** Only the modes that were exited have other samples in the later snapshot. */
  lemma SamplesKept(h: History, m: Mode, since: nat, time: nat)
    requires since <= time
    ensures ExitedBetween(h, m, since, time) || StoredAt(h, time, m) == StoredAt(h, since, m)
  {
    var stored := StoredIn(h, m);
    PrefixMonotone(stored, since, time);
    if Prefix(stored, since) < Prefix(stored, time) {
      assert since < stored[Prefix(stored, since)].time <= time;
    }
  }

  /** If the mode the robot was in was not exited, the robot is further into the same stay: its sample index has not
      gone back. */
  lemma StartMovesForward(robot: Robot, h: History, m: Mode, since: nat, time: nat)
    requires Valid(robot, h) && since <= time && Entrance(h, m, since).Some? && m == ModeAt(h, since)
    requires !ExitedBetween(h, m, since, time)
    ensures ModeAt(h, time) == m && Entrance(h, m, time) == Entrance(h, m, since)
    ensures robot.Whole(Entrance(h, m, since).value, since) <= robot.Whole(Entrance(h, m, since).value, time)
  {
    NoExit(robot, h, m, since, time);
    hide Valid, StaysStored, TracesAgree, StatesAgree, BufferAgrees;
    SameStay(h, m, since, time);
    ThousandthsMonotone(robot, Entrance(h, m, since).value, since, time);
  }

  lemma ThousandthsMonotone(robot: Robot, e: nat, s: nat, t: nat)
    requires e <= s <= t
    ensures robot.Thousandths(e, s) <= robot.Thousandths(e, t)
  {
    assert (t - e) * robot.frequency == (s - e) * robot.frequency + (t - s) * robot.frequency;
  }

  lemma NoExit(robot: Robot, h: History, m: Mode, since: nat, time: nat)
    requires Valid(robot, h) && !ExitedBetween(h, m, since, time)
    ensures forall i :: 0 <= i < |h.presences| && !h.presences[i].mode.IsEmpty() && h.presences[i].mode == m ==>
              !(since < h.presences[i].to <= time)
  {
    hide TracesAgree, StatesAgree, BufferAgrees;
    forall i | 0 <= i < |h.presences| && !h.presences[i].mode.IsEmpty() && h.presences[i].mode == m
      ensures !(since < h.presences[i].to <= time)
    {
      var p := h.presences[i];
      assert StayStored(robot, h.states, p);
      var k :| 0 <= k < |h.states[p.mode]| && h.states[p.mode][k].time == p.to
               && SizeOf(h.states[p.mode][k].value) >= robot.Whole(p.from, p.to);
      assert StoredIn(h, p.mode)[k].time == p.to;
    }
  }

  lemma SameStay(h: History, m: Mode, since: nat, time: nat)
    requires PresencesAgree(h) && since <= time && Entrance(h, m, since).Some? && m == ModeAt(h, since)
    requires forall i :: 0 <= i < |h.presences| && !h.presences[i].mode.IsEmpty() && h.presences[i].mode == m ==>
              !(since < h.presences[i].to <= time)
    ensures ModeAt(h, time) == m && Entrance(h, m, time) == Entrance(h, m, since)
  {
    var ps := h.presences;
    if since >= LastExit(h) {
      forall i | 0 <= i < |ps| ensures !ps[i].Contains(since) && !ps[i].Contains(time) {
        ExitsOrdered(ps, i, |ps| - 1);
      }
      ModeAtLatest(ps, h.latestMode, since);
      ModeAtLatest(ps, h.latestMode, time);
    } else {
      var i := EntranceWitness(ps, m, since);
      assert ps[i].mode == ps[i - 1].exit;
      assert ps[i].Contains(time);
      ExitsOrdered(ps, i, |ps| - 1);
      ModeAtFound(ps, h.latestMode, time, i);
      EntranceFound(ps, m, time, i);
    }
  }
}
