/** What is reported of a predicted collision: how long until then, from the stays recorded in the job's snapshot. */
module CollisionReports {
  import opened Capsules
  import opened Modes
  import opened Histories
  import opened HistoryEnvironments
  import opened RobotStateHistories
  import opened CollisionDistances
  import opened LookAheadJobs
  import opened Reuses
  import opened JobRuns
  import opened JobLives
  import S = HistorySnapshots

  /** `range` is that of the whole samples in the completed stays in a mode. */
  ghost predicate IsRecorded(robot: Robot, h: History, s: nat, m: Mode, range: Interval)
    requires Chained(h.presences)
  {
    forall p ensures p in S.PresencesIn(h.presences, s, m) ==> p.from <= p.to {
      S.PresencesInMembers(h.presences, s, m, p);
    }
    S.IsRangeOf(robot, S.PresencesIn(h.presences, s, m), range.lower, range.upper)
  }

  ghost predicate AreRecorded(robot: Robot, h: History, job: Job, ranges: seq<Interval>, n: nat)
    requires Chained(h.presences) && n <= |job.trace|
  {
    |ranges| == n && forall i :: 0 <= i < n ==> IsRecorded(robot, h, job.snapshotTime, job.trace[i].mode, ranges[i])
  }

  /** Every distance that is possible, in milliseconds. */
  ghost predicate Reports(reported: Interval, ranges: seq<Interval>, sampleIndex: nat, index: nat, frequency: nat)
    requires frequency > 0
  {
    && reported.Proper()
    && forall dwells :: Possible(dwells, ranges, sampleIndex) ==>
         var n := TrueDistance(dwells, sampleIndex, index);
         n >= 0 && reported.Contains(Milliseconds(n, frequency))
  }

  /** A job that looks ahead has not been in its first mode for longer than ever before, and has only looked at
      samples from the present on: so no subtraction goes below zero. */
  lemma NoUnderflow(robot: Robot, view: View, h: History, intersects: (Capsule, Capsule) -> bool, job: Job, index: nat,
                    ranges: seq<Interval>)
    requires Chained(h.presences) && Predicted(robot, h, job)
    requires Scannable(robot, view, h, job) && Verdict(robot, view, h, intersects, job, index)
    requires AreRecorded(robot, h, job, ranges, |job.trace| - 1)
    ensures job.trace != [] && StartOf(robot, h, job).Some?
    ensures forall i :: 0 <= i < |ranges| ==> ranges[i].Proper()
    ensures var start := StartOf(robot, h, job).value;
            if ranges == [] then start <= index else start <= ranges[0].upper
  {
    PredictedParts(robot, h, job);
    hide StartOf, SamplesAhead, Hits, S.MaxWhole, S.PresencesIn, S.ModeAt, S.TraceAt;
    forall i | 0 <= i < |ranges| ensures ranges[i].Proper() {
      assert IsRecorded(robot, h, job.snapshotTime, job.trace[i].mode, ranges[i]);
    }
    if ranges != [] { assert IsRecorded(robot, h, job.snapshotTime, job.trace[0].mode, ranges[0]); }
  }

  /** The range of the whole samples in the completed stays in a mode. */
  method RangeIn(history: RobotStateHistory, s: nat, m: Mode) returns (range: Interval)
    requires history.Valid() && Chained(history.presences)
    ensures IsRecorded(history.robot, history.Value(), s, m, range)
  {
    var among := history.PresencesIn(s, m);
    forall p ensures p in among ==> p.from <= p.to { S.PresencesInMembers(history.presences, s, m, p); }
    var lower, upper := history.RangeOfNumSamples(among);
    range := Interval(lower, upper);
  }

  /** The ranges of all the modes before the last. */
  method RangesBefore(job: Job, history: RobotStateHistory) returns (ranges: seq<Interval>)
    requires history.Valid() && Chained(history.presences) && job.trace != []
    ensures AreRecorded(history.robot, history.Value(), job, ranges, |job.trace| - 1)
  {
    hide Histories.Valid, IsRecorded, Chained;
    ranges := [];
    var i := 0;
    while i < |job.trace| - 1
      invariant 0 <= i <= |job.trace| - 1 && AreRecorded(history.robot, history.Value(), job, ranges, i)
    {
      var range := RangeIn(history, job.snapshotTime, job.trace[i].mode);
      ranges := ranges + [range];
      i := i + 1;
    }
  }

  /** The interval until the collision that a scan of the job found at `index` of its last mode, in samples: the
      tightest that holds the true distance whenever each stay is within its recorded range; and in milliseconds. */
  method CollisionDistance(job: Job, index: nat, history: RobotStateHistory, ghost view: View,
                           ghost intersects: (Capsule, Capsule) -> bool)
    returns (between: Interval, reported: Interval, ghost ranges: seq<Interval>)
    requires history.Valid() && Chained(history.presences) && Predicted(history.robot, history.Value(), job)
    requires Scannable(history.robot, view, history.Value(), job)
    requires Verdict(history.robot, view, history.Value(), intersects, job, index)
    ensures job.trace != [] && StartOf(history.robot, history.Value(), job).Some? && history.robot.frequency > 0
    ensures AreRecorded(history.robot, history.Value(), job, ranges, |job.trace| - 1)
    ensures Tight(between, ranges, StartOf(history.robot, history.Value(), job).value, index)
    ensures Reports(reported, ranges, StartOf(history.robot, history.Value(), job).value, index,
                    history.robot.frequency)
  {
    PredictedParts(history.robot, history.Value(), job);
    StartDefined(history.robot, history.Value(), job);
    hide Histories.Valid, Predicted, Scannable, Verdict, AreRecorded, Tight, Reports, S.CheckedSampleIndex, Chained,
         StartOf, Milliseconds;
    var sampleIndex := history.CheckedSampleIndex(job.snapshotTime, job.trace[0].mode, job.initialTime);
    var known := RangesBefore(job, history);
    ranges := known;
    NoUnderflow(history.robot, view, history.Value(), intersects, job, index, known);
    between := SamplesBetween(index, sampleIndex.value, known);
    reported := Interval(Milliseconds(between.lower, history.robot.frequency),
                         Milliseconds(between.upper, history.robot.frequency));
    TightReports(between, known, sampleIndex.value, index, history.robot.frequency);
  }

  lemma StartDefined(robot: Robot, h: History, job: Job)
    requires Histories.Valid(robot, h) && job.trace != [] && StartOf(robot, h, job).Some?
    ensures h.presences != [] && robot.frequency > 0
    ensures StartOf(robot, h, job) == S.CheckedSampleIndex(robot, h, job.snapshotTime, job.trace[0].mode,
                                                           job.initialTime)
  {
  }

  lemma TightReports(between: Interval, ranges: seq<Interval>, sampleIndex: nat, index: nat, frequency: nat)
    requires Tight(between, ranges, sampleIndex, index) && frequency > 0
    ensures Reports(Interval(Milliseconds(between.lower, frequency), Milliseconds(between.upper, frequency)), ranges,
                    sampleIndex, index, frequency)
  {
    hide Milliseconds, Possible;
    MillisecondsMonotone(between.lower, between.upper, frequency);
    forall dwells | Possible(dwells, ranges, sampleIndex)
      ensures var n := TrueDistance(dwells, sampleIndex, index);
              && n >= 0
              && Milliseconds(between.lower, frequency) <= Milliseconds(n, frequency)
              && Milliseconds(n, frequency) <= Milliseconds(between.upper, frequency)
    {
      var n := TrueDistance(dwells, sampleIndex, index);
      assert between.Contains(n);
      hide TrueDistance;
      MillisecondsMonotone(between.lower, n, frequency);
      MillisecondsMonotone(n, between.upper, frequency);
    }
  }
}
