/** The scans of a job, with samples and bound taken from the history: with reuse they give the verdict of the scan
    without. */
module JobRuns {
  import opened Capsules
  import opened Modes
  import opened NextModes
  import opened ModeTraces
  import opened Histories
  import opened HistoryEnvironments
  import opened RobotStateHistories
  import opened TraceSampleRanges
  import opened SectionLists
  import opened BarrierSequences
  import opened LookAheadJobs
  import opened LookAheadJobPaths
  import opened Reuses
  import opened BodySamples
  import opened ReuseBounds
  import opened SegmentDistances
  import R = SectionResets
  import S = HistorySnapshots

  /** The samples a job looks at: those of its last mode, in its own snapshot. */
  function SamplesAhead(view: View, h: History, job: Job): SegmentSamples
    requires job.trace != []
  {
    SegmentIn(view, h, job.snapshotTime, job.id.robotSegment, job.trace[|job.trace| - 1].mode)
  }

  /** The history can answer what a scan asks. */
  predicate Scannable(robot: Robot, view: View, h: History, job: Job) {
    job.trace != [] && StartOf(robot, h, job).Some? && SamplesAhead(view, h, job) != []
  }

  /** The sample index of the present, if the last mode is the one the job started in. */
  function BoundOf(robot: Robot, h: History, job: Job): nat
    requires job.trace != [] && StartOf(robot, h, job).Some?
  {
    if job.trace[|job.trace| - 1].mode == job.trace[0].mode then StartOf(robot, h, job).value else 0
  }

  /** `r` is the right verdict: the first of the job's samples still ahead that its human sample hits, or -1. */
  predicate Verdict(robot: Robot, view: View, h: History, intersects: (Capsule, Capsule) -> bool, job: Job, r: int)
    requires Scannable(robot, view, h, job)
  {
    var samples, bound, ms := SamplesAhead(view, h, job), BoundOf(robot, h, job), ModesOf(job.trace);
    && bound < |samples|
    && IsEarliest(intersects, job.human, samples, AheadFrom(ms, bound), AheadTo(ms, samples, bound), r)
  }

  /** The bound is a position among the samples. */
  lemma BoundInRange(robot: Robot, view: View, h: History, job: Job)
    requires Histories.Valid(robot, h) && Scannable(robot, view, h, job)
    ensures BoundOf(robot, h, job) < |SamplesAhead(view, h, job)|
  {
    hide Histories.Valid;
    var last := job.trace[|job.trace| - 1].mode;
    S.StoredAgrees(robot, h, last);
  }

  /** `r` is the first position from `from` up to, but not including, `to` at which what was observed, seen through the
      view, is hit; -1 if there is none. */
  predicate FirstHit(view: View, intersects: (Capsule, Capsule) -> bool, human: Capsule, stored: seq<Sample>, from: nat,
                     to: nat, r: int)
    requires to <= |stored|
  {
    && (r == -1 || (from <= r < to && view(stored[r]).Some? && intersects(human, view(stored[r]).value)))
    && (forall i :: from <= i < to && (r == -1 || i < r) && view(stored[i]).Some? ==>
          !intersects(human, view(stored[i]).value))
  }

  /** All of the samples of the last mode are looked at; but if that is the mode the job started in, only those from the
      start on while the trace has one mode, and those before the start once the trace has returned. */
  predicate FirstAhead(view: View, intersects: (Capsule, Capsule) -> bool, human: Capsule, trace: seq<Entry>,
                       stored: seq<Sample>, start: nat, r: int)
    requires trace != []
  {
    if |trace| > 1 && trace[|trace| - 1].mode != trace[0].mode then
      FirstHit(view, intersects, human, stored, 0, |stored|, r)
    else
      start <= |stored| &&
      if |trace| == 1 then FirstHit(view, intersects, human, stored, start, |stored|, r)
      else FirstHit(view, intersects, human, stored, 0, start, r)
  }

  /** What the right verdict is, told from the history: the samples looked at are those that the job's snapshot holds
      for its segment in its last mode. */
  lemma VerdictIs(robot: Robot, view: View, h: History, intersects: (Capsule, Capsule) -> bool, job: Job, r: int,
                  samples: Histories.BodySamples, start: nat)
    requires Histories.Valid(robot, h) && Scannable(robot, view, h, job) && job.trace != []
    requires S.StoredAt(h, job.snapshotTime, job.trace[|job.trace| - 1].mode) == Some(samples)
    requires S.CheckedSampleIndex(robot, h, job.snapshotTime, job.trace[0].mode, job.initialTime) == Some(start)
    ensures job.id.robotSegment < |samples|
    ensures Verdict(robot, view, h, intersects, job, r) <==>
            FirstAhead(view, intersects, job.human, job.trace, samples[job.id.robotSegment], start, r)
  {
    hide *;
    BoundInRange(robot, view, h, job);
    SamplesAre(robot, view, h, job, samples);
    StartIs(robot, h, job, start);
    VerdictSpelled(robot, view, h, intersects, job, r);
    EarliestAhead(view, intersects, job.human, job.trace, samples[job.id.robotSegment], BoundOf(robot, h, job), start,
                  r);
  }

  lemma SamplesAre(robot: Robot, view: View, h: History, job: Job, samples: Histories.BodySamples)
    requires Scannable(robot, view, h, job) && job.trace != []
    requires S.StoredAt(h, job.snapshotTime, job.trace[|job.trace| - 1].mode) == Some(samples)
    ensures StartOf(robot, h, job).Some? && job.id.robotSegment < |samples|
    ensures SamplesAhead(view, h, job) == Viewed(view, samples[job.id.robotSegment])
    ensures |samples[job.id.robotSegment]| == |SamplesAhead(view, h, job)|
  {
    hide StartOf;
  }

  lemma StartIs(robot: Robot, h: History, job: Job, start: nat)
    requires job.trace != []
    requires S.CheckedSampleIndex(robot, h, job.snapshotTime, job.trace[0].mode, job.initialTime) == Some(start)
    ensures StartOf(robot, h, job) == Some(start)
  {
    hide S.CheckedSampleIndex;
  }

  lemma VerdictSpelled(robot: Robot, view: View, h: History, intersects: (Capsule, Capsule) -> bool, job: Job, r: int)
    requires Scannable(robot, view, h, job) && BoundOf(robot, h, job) < |SamplesAhead(view, h, job)|
    ensures job.trace != [] && StartOf(robot, h, job).Some? && SamplesAhead(view, h, job) != []
    ensures var samples, bound, ms := SamplesAhead(view, h, job), BoundOf(robot, h, job), ModesOf(job.trace);
            Verdict(robot, view, h, intersects, job, r) <==>
              IsEarliest(intersects, job.human, samples, AheadFrom(ms, bound), AheadTo(ms, samples, bound), r)
    ensures job.trace[|job.trace| - 1].mode == job.trace[0].mode ==>
              BoundOf(robot, h, job) == StartOf(robot, h, job).value
    ensures |ModesOf(job.trace)| == |job.trace|
    ensures ModesOf(job.trace)[|job.trace| - 1] == job.trace[|job.trace| - 1].mode
    ensures ModesOf(job.trace)[0] == job.trace[0].mode
  {
    hide StartOf, SamplesAhead, IsEarliest;
  }

  lemma EarliestAhead(view: View, intersects: (Capsule, Capsule) -> bool, human: Capsule, trace: seq<Entry>,
                      stored: seq<Sample>, bound: nat, start: nat, r: int)
    requires trace != [] && bound < |stored| && (trace[|trace| - 1].mode == trace[0].mode ==> bound == start)
    ensures var samples, ms := Viewed(view, stored), ModesOf(trace);
            IsEarliest(intersects, human, samples, AheadFrom(ms, bound), AheadTo(ms, samples, bound), r) <==>
              FirstAhead(view, intersects, human, trace, stored, start, r)
  {
    var samples := Viewed(view, stored);
    forall i | 0 <= i < |stored|
      ensures Hits(intersects, human, samples[i]) <==>
              view(stored[i]).Some? && intersects(human, view(stored[i]).value)
    {
      assert samples[i] == view(stored[i]);
    }
    hide Viewed, Hits;
  }

  /** The scan of the mode a job starts in and the scan of a trace that has returned to that mode, from the same
      start, look at every stored sample of the mode exactly once between them: the first at those from the start on,
      the second at those before. So both come back clear exactly if no sample stored for the mode is hit. */
  lemma ReturnCompletes(robot: Robot, view: View, h: History, intersects: (Capsule, Capsule) -> bool, first: Job,
                        returned: Job, r: int, q: int, samples: Histories.BodySamples, start: nat)
    requires Histories.Valid(robot, h) && |first.trace| == 1 < |returned.trace|
    requires Scannable(robot, view, h, first) && Verdict(robot, view, h, intersects, first, r)
    requires Scannable(robot, view, h, returned) && Verdict(robot, view, h, intersects, returned, q)
    requires returned.trace[|returned.trace| - 1].mode == returned.trace[0].mode == first.trace[0].mode
    requires returned.(trace := first.trace, path := first.path, secs := first.secs) == first
    requires S.StoredAt(h, first.snapshotTime, first.trace[0].mode) == Some(samples)
    requires S.CheckedSampleIndex(robot, h, first.snapshotTime, first.trace[0].mode, first.initialTime) == Some(start)
    ensures first.id.robotSegment < |samples|
    ensures var stored := samples[first.id.robotSegment];
            && start <= |stored|
            && FirstHit(view, intersects, first.human, stored, start, |stored|, r)
            && FirstHit(view, intersects, first.human, stored, 0, start, q)
            && (r == -1 && q == -1 <==> FirstHit(view, intersects, first.human, stored, 0, |stored|, -1))
  {
    VerdictIs(robot, view, h, intersects, first, r, samples, start);
    VerdictIs(robot, view, h, intersects, returned, q, samples, start);
    hide Histories.Valid, S.StoredAt, S.CheckedSampleIndex, Verdict, Scannable;
  }

  /** Reuse equals discard: there is one right verdict, and both scans give it. */
  lemma VerdictUnique(robot: Robot, view: View, h: History, intersects: (Capsule, Capsule) -> bool, job: Job, r: int,
                      q: int)
    requires Scannable(robot, view, h, job)
    requires Verdict(robot, view, h, intersects, job, r) && Verdict(robot, view, h, intersects, job, q)
    ensures r == q
  {
    var samples, bound, ms := SamplesAhead(view, h, job), BoundOf(robot, h, job), ModesOf(job.trace);
    EarliestUnique(intersects, job.human, samples, AheadFrom(ms, bound), AheadTo(ms, samples, bound), r, q);
  }

  /** What a scan with reuse comes to: the right verdict; barriers good for an awakening; and if nothing was hit and
      the last mode was looked at to its end, barriers good for the next modes too. */
  ghost predicate IsScan(metric: Metric, robot: Robot, view: View, h: History, intersects: (Capsule, Capsule) -> bool,
                         job: Job, r: int, secs: seq<SectionValue>)
    requires Scannable(robot, view, h, job)
  {
    && Verdict(robot, view, h, intersects, job, r)
    && Tracked(metric, robot, view, h, job.(secs := secs))
    && (r == -1 && !Looped(ModesOf(job.trace)) ==>
          Ready(metric, secs, EnvironmentOf(SamplesOf(view, h, job)), TraceSampleIndex(0, StartOf(robot, h, job).value),
                TraceSampleIndex(|job.trace|, 0), job.human))
  }

  method DiscardScan(job: Job, history: RobotStateHistory, view: View,
                     intersects: (Capsule, Capsule) -> bool) returns (r: int)
    requires history.Valid() && Scannable(history.robot, view, history.Value(), job)
    ensures Verdict(history.robot, view, history.Value(), intersects, job, r)
  {
    BoundInRange(history.robot, view, history.Value(), job);
    hide Histories.Valid, StartOf, SamplesAhead, IsEarliest, BoundOf;
    var discardJob := new DiscardLookAheadJob(job.human, ModesOf(job.trace));
    r := discardJob.EarliestCollisionIndex(intersects, SamplesAhead(view, history.Value(), job),
                                           BoundOf(history.robot, history.Value(), job));
  }

  method ReuseScan(metric: Metric, policy: UpdatePolicy, job: Job, history: RobotStateHistory, view: View,
                   ghost intersects: (Capsule, Capsule) -> bool)
    returns (r: int, secs: seq<SectionValue>)
    requires history.Valid() && Scannable(history.robot, view, history.Value(), job)
    requires Resumable(metric, history.robot, view, history.Value(), job)
    requires Agree(metric, intersects, job.human, EnvironmentOf(SamplesOf(view, history.Value(), job)))
    ensures IsScan(metric, history.robot, view, history.Value(), intersects, job, r, secs)
  {
    ghost var h, env := history.Value(), EnvironmentOf(SamplesOf(view, history.Value(), job));
    ghost var start := TraceSampleIndex(0, StartOf(history.robot, h, job).value);
    ScanDefined(metric, history.robot, view, h, job);
    assert job.Valid();
    hide Histories.Valid, StartOf, SamplesAhead, SamplesOf, IsEarliest, BoundOf, Resumable, Ready, Agree, Tracked,
         Verdict, HoldsLast, SectionLists.Tracks, Scannable, EnvironmentOf, AheadTo, Looped, ScanFrom, Distinct,
         SectionsWellFormed, FitsTrace;
    ghost var next;
    r, secs, next := ScanWith(metric, policy, job.human, ModesOf(job.trace), job.secs,
                              SamplesAhead(view, history.Value(), job),
                              BoundOf(history.robot, history.Value(), job), intersects, env, start);
    VerdictGiven(history.robot, view, h, intersects, job, r);
    TrackedAfter(metric, history.robot, view, h, job, secs, next);
    if !Looped(ModesOf(job.trace)) {
      LookedToEnd(ModesOf(job.trace), SamplesAhead(view, h, job), BoundOf(history.robot, h, job));
    }
  }

  /** The scan itself, on a copy of the job's barriers. */
  method ScanWith(metric: Metric, policy: UpdatePolicy, human: Capsule, ms: seq<Mode>, barriers: seq<SectionValue>,
                  samples: SegmentSamples, bound: nat, ghost intersects: (Capsule, Capsule) -> bool,
                  ghost env: Environment, ghost start: TraceSampleIndex)
    returns (r: int, secs: seq<SectionValue>, ghost next: TraceSampleIndex)
    requires ms != [] && bound < |samples| && SectionsWellFormed(barriers)
    requires HoldsLast(env, |ms| - 1, samples) && start.trace == 0 && (|ms| == 1 ==> start.sample == bound)
    requires Agree(metric, intersects, human, env)
    requires Ready(metric, barriers, env, start, ScanFrom(barriers, |ms| - 1), human)
    ensures SectionsWellFormed(secs)
    ensures IsEarliest(intersects, human, samples, AheadFrom(ms, bound), AheadTo(ms, samples, bound), r)
    ensures SectionLists.Tracks(metric, secs, env, start, next)
    ensures r == -1 && AheadTo(ms, samples, bound) == |samples| ==>
              Ready(metric, secs, env, start, TraceSampleIndex(|ms|, 0), human)
  {
    hide IsEarliest, Ready, Agree, HoldsLast, SectionLists.Tracks, AheadTo, ScanFrom, SectionsWellFormed;
    var barrierSequence := new BarrierSequence.Copy(metric, policy, barriers);
    var reuseJob := new ReuseLookAheadJob(human, ms, barrierSequence);
    r, next := reuseJob.EarliestCollisionIndex(samples, bound, intersects, env, start);
    secs := barrierSequence.Value();
  }

  /** A job that can be resumed meets what a scan requires. */
  lemma ScanDefined(m: Metric, robot: Robot, view: View, h: History, job: Job)
    requires Histories.Valid(robot, h) && Scannable(robot, view, h, job) && Resumable(m, robot, view, h, job)
    ensures var ms, env := ModesOf(job.trace), EnvironmentOf(SamplesOf(view, h, job));
            && job.trace != [] && StartOf(robot, h, job).Some? && SectionsWellFormed(job.secs)
            && BoundOf(robot, h, job) < |SamplesAhead(view, h, job)|
            && HoldsLast(env, |ms| - 1, SamplesAhead(view, h, job))
            && (|ms| == 1 ==> StartOf(robot, h, job).value == BoundOf(robot, h, job))
            && Ready(m, job.secs, env, TraceSampleIndex(0, StartOf(robot, h, job).value), ScanFrom(job.secs, |ms| - 1),
                     job.human)
  {
    BoundInRange(robot, view, h, job);
    hide Histories.Valid, StartOf, Ready, HoldsLast, Distinct, FitsTrace, SegmentIn;
    var along := SamplesOf(view, h, job);
    EnvironmentHoldsLast(along);
    assert ModesOf(job.trace)[|job.trace| - 1] == job.trace[|job.trace| - 1].mode;
    hide EnvironmentOf;
  }

  lemma VerdictGiven(robot: Robot, view: View, h: History, intersects: (Capsule, Capsule) -> bool, job: Job, r: int)
    requires Scannable(robot, view, h, job)
    requires var samples, bound, ms := SamplesAhead(view, h, job), BoundOf(robot, h, job), ModesOf(job.trace);
             && bound < |samples| && IsEarliest(intersects, job.human, samples, AheadFrom(ms, bound),
                                                AheadTo(ms, samples, bound), r)
    ensures Verdict(robot, view, h, intersects, job, r)
  {
    hide Scannable, SamplesAhead, BoundOf, IsEarliest;
  }

  lemma TrackedAfter(m: Metric, robot: Robot, view: View, h: History, job: Job, secs: seq<SectionValue>,
                     next: TraceSampleIndex)
    requires job.Valid() && SectionsWellFormed(secs) && StartOf(robot, h, job).Some?
    requires SectionLists.Tracks(m, secs, EnvironmentOf(SamplesOf(view, h, job)),
                                 TraceSampleIndex(0, StartOf(robot, h, job).value), next)
    ensures Tracked(m, robot, view, h, job.(secs := secs))
  {
    var job' := job.(secs := secs);
    assert StartOf(robot, h, job') == StartOf(robot, h, job) && SamplesOf(view, h, job') == SamplesOf(view, h, job);
    hide StartOf, SamplesOf, SectionLists.Tracks, Distinct, FitsTrace, EnvironmentOf, SectionsWellFormed;
  }

  /** Only a looped trace is looked at up to the present and no further. */
  lemma LookedToEnd(ms: seq<Mode>, samples: SegmentSamples, bound: nat)
    requires ms != [] && !Looped(ms)
    ensures AheadTo(ms, samples, bound) == |samples|
  {
    if |ms| > 1 { assert ms[..|ms| - 1][0] == ms[0]; }
  }

  /* The metric that is used */

  function CapsulesTouch(sqrt: real -> Distance): (Capsule, Capsule) -> bool {
    (human, robot) => Touch(sqrt, human, robot)
  }

  /** The direct test of the scan without reuse and the distances of the barriers are the same test. */
  lemma CapsulesAgree(sqrt: real -> Distance, human: Capsule, env: Environment)
    ensures Agree(ComputedCapsuleMetric(sqrt), CapsulesTouch(sqrt), human, env)
  {
    hide Touch;
    forall x | x in env
      ensures CapsulesTouch(sqrt)(human, env[x]) <==> !(ComputedCapsuleMetric(sqrt).humanRobot(human, env[x]) > 0.0)
    {
      TouchAgreesWithMetric(sqrt, human, env[x]);
    }
  }

  /** Reuse is sound for all sections whose distances to the robot were computed exactly. */
  lemma CapsulesSound(sqrt: real -> Distance, secs: seq<SectionValue>, human: Capsule, env: Environment)
    requires IsSquareRoot(sqrt)
    requires forall j, x :: 0 <= j < |secs| && x in env ==>
               IsDistance(SegmentDistance(sqrt, secs[j].human.head, secs[j].human.tail, env[x].head, env[x].tail),
                          secs[j].human.head, secs[j].human.tail, env[x].head, env[x].tail)
    ensures R.ReuseSoundForAll(ComputedCapsuleMetric(sqrt), secs, human, env)
  {
    hide IsDistance, SegmentDistance, IsSquareRoot;
    forall j, x | 0 <= j < |secs| && x in env
      ensures ComputedCapsuleMetric(sqrt).ReuseSound(secs[j].human, human, env[x])
    {
      ComputedCapsuleReuseSound(sqrt, secs[j].human, human, env[x]);
    }
  }
}
