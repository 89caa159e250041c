/** The life of a job with reuse: it is created, scanned, continued into its next modes, put to sleep while the
    history grows, and woken. Each step keeps what the next relies on: that the history can answer what the job asks
    of it, and that its barriers hold. */
module JobLives {
  import opened Capsules
  import opened Modes
  import opened NextModes
  import opened ModeTraces
  import opened Predictions
  import opened Histories
  import opened HistoryEnvironments
  import opened LookAheadGuards
  import opened TraceSampleRanges
  import opened Barriers
  import opened SectionLists
  import opened LookAheadJobs
  import opened LookAheadJobPaths
  import opened LookAheadJobRegistries
  import opened Reuses
  import opened JobRuns
  import F = LookAheadJobFactories
  import S = HistorySnapshots

  /* What every live job meets */

  /** The most whole samples of a completed stay in the mode. */
  function Longest(robot: Robot, h: History, s: nat, m: Mode): nat
    requires Chained(h.presences)
  {
    var among := S.PresencesIn(h.presences, s, m);
    forall p ensures p in among ==> p.from <= p.to { S.PresencesInMembers(h.presences, s, m, p); }
    S.MaxWhole(robot, among)
  }

  /** The job looks ahead from where the robot was at its initial time: the sample index there is known and within
      the recorded stays, and the trace consists of modes of the past as of then. */
  predicate Predicted(robot: Robot, h: History, job: Job)
    requires Chained(h.presences)
  {
    && job.Valid() && job.id.robotSegment < robot.segments
    && job.snapshotTime <= job.initialTime <= h.latestTime
    && S.ModeAt(h, job.initialTime) == job.trace[0].mode
    && StartOf(robot, h, job).Some?
    && StartOf(robot, h, job).value < Longest(robot, h, job.snapshotTime, job.trace[0].mode)
    && S.TraceAt(h, job.initialTime).Some?
    && Reachable(S.TraceAt(h, job.initialTime).value, ModesOf(job.trace))
  }

  /** The snapshot of the job has samples of every mode of its trace. */
  predicate Known(h: History, job: Job) {
    F.Stored(h, job, job.snapshotTime)
  }

  lemma ValidChained(robot: Robot, h: History)
    requires Histories.Valid(robot, h)
    ensures Chained(h.presences)
  {
  }

  /** A job can be scanned exactly if a stay in its last mode had ended by its snapshot. */
  lemma ScannableIff(robot: Robot, view: View, h: History, job: Job)
    requires Histories.Valid(robot, h) && job.trace != [] && job.id.robotSegment < robot.segments
    requires StartOf(robot, h, job).Some?
    ensures Scannable(robot, view, h, job) <==> LeftBy(h, job.trace[|job.trace| - 1].mode, job.snapshotTime)
  {
    hide Histories.Valid, StartOf, LeftBy, S.StoredAt;
    StoredIff(robot, h, job.snapshotTime, job.trace[|job.trace| - 1].mode);
  }

  lemma KnownScannable(robot: Robot, view: View, h: History, job: Job)
    requires Histories.Valid(robot, h) && job.trace != [] && job.id.robotSegment < robot.segments
    requires StartOf(robot, h, job).Some? && Known(h, job)
    ensures Scannable(robot, view, h, job)
  {
    hide Histories.Valid, StartOf, LeftBy, S.StoredAt, Scannable;
    var n := |job.trace| - 1;
    assert ModesOf(job.trace)[n] in ModesOf(job.trace);
    StoredIff(robot, h, job.snapshotTime, job.trace[n].mode);
    ScannableIff(robot, view, h, job);
  }

  /** Without an older snapshot, as under strong equivalence and without reuse, that is always so: the modes of the
      trace are modes of the past. */
  lemma PresentIsKnown(robot: Robot, h: History, job: Job)
    requires Histories.Valid(robot, h) && Chained(h.presences) && Predicted(robot, h, job)
    requires job.snapshotTime == job.initialTime
    ensures Known(h, job)
  {
    var past, ms := S.TraceAt(h, job.initialTime).value, ModesOf(job.trace);
    forall m | m in ms ensures S.StoredAt(h, job.snapshotTime, m).Some? {
      assert m in Before(past, ms);
      PastStored(robot, h, job.snapshotTime, m);
    }
  }

  /* New jobs */

  function NewJob(id: LookAheadJobIdentifier, time: nat, human: Capsule, mode: Mode): Job {
    Job(id, time, time, human, [Entry(mode, 1.0)], [], [])
  }

  /** What the guard admits a time to, in its snapshot and in every later one. */
  lemma GuardStart(robot: Robot, h: History, s: nat, t: nat, later: nat)
    requires Histories.Valid(robot, h) && S.CanLookAhead(robot, h, s, t) == Some(true) && s <= later
    ensures Chained(h.presences) && t <= h.latestTime
    ensures var m := S.ModeAt(h, t);
            && S.CheckedSampleIndex(robot, h, later, m, t).Some?
            && S.CheckedSampleIndex(robot, h, later, m, t).value < Longest(robot, h, later, m)
            && S.TraceAt(h, t).Some? && LeadsInto(S.TraceAt(h, t).value, m)
            && Reachable(S.TraceAt(h, t).value, [m])
  {
    ValidChained(robot, h);
    hide Histories.Valid, S.CanLookAhead, S.ModeAt, S.Entrance, S.StoredAt, S.PresencesIn, Reachable;
    GuardImpliesBound(robot, h, s, t, later);
    GuardBoundsStay(robot, h, s, t, later);
    LookAheadStarts(robot, h, s, t);
    var p := LookAheadFacts(robot, h, s, t);
  }

  /** Where the guard is met, in the present snapshot or in that of a job that is woken, a job that starts in the
      present mode can be scanned. */
  lemma StartedReady(m: Metric, robot: Robot, view: View, h: History, s: nat, id: LookAheadJobIdentifier, time: nat,
                     human: Capsule)
    requires Histories.Valid(robot, h) && S.CanLookAhead(robot, h, s, time) == Some(true) && s <= time
    requires id.robotSegment < robot.segments
    ensures var j := NewJob(id, time, human, S.ModeAt(h, time));
            && Chained(h.presences) && Predicted(robot, h, j) && Known(h, j)
            && Scannable(robot, view, h, j) && Resumable(m, robot, view, h, j)
  {
    hide *;
    var j := NewJob(id, time, human, S.ModeAt(h, time));
    GuardStart(robot, h, s, time, time);
    StartPredicted(robot, h, id, time, human, S.ModeAt(h, time));
    PredictedParts(robot, h, j);
    NewTimes(id, time, human, S.ModeAt(h, time));
    PresentIsKnown(robot, h, j);
    KnownScannable(robot, view, h, j);
    StartResumable(m, robot, view, h, j);
  }

  lemma NewTimes(id: LookAheadJobIdentifier, time: nat, human: Capsule, mode: Mode)
    ensures var j := NewJob(id, time, human, mode);
            j.snapshotTime == j.initialTime == time && j.secs == [] && |j.trace| == 1 && j.trace[0].mode == mode
  {
  }

  lemma StartPredicted(robot: Robot, h: History, id: LookAheadJobIdentifier, time: nat, human: Capsule, mode: Mode)
    requires Chained(h.presences) && time <= h.latestTime && id.robotSegment < robot.segments
    requires mode == S.ModeAt(h, time) && S.CheckedSampleIndex(robot, h, time, mode, time).Some?
    requires S.CheckedSampleIndex(robot, h, time, mode, time).value < Longest(robot, h, time, mode)
    requires S.TraceAt(h, time).Some? && Reachable(S.TraceAt(h, time).value, [mode])
    ensures Predicted(robot, h, NewJob(id, time, human, mode))
  {
    hide S.ModeAt, S.CheckedSampleIndex, Longest, S.TraceAt, Reachable;
    assert ModesOf([Entry(mode, 1.0)]) == [mode];
  }

  lemma StartResumable(m: Metric, robot: Robot, view: View, h: History, job: Job)
    requires job.Valid() && StartOf(robot, h, job).Some? && job.secs == [] && |job.trace| == 1
    ensures Resumable(m, robot, view, h, job)
  {
    hide StartOf, EnvironmentOf, SamplesOf, Ready, Distinct, FitsTrace;
    EmptyReady(m, EnvironmentOf(SamplesOf(view, h, job)), TraceSampleIndex(0, StartOf(robot, h, job).value), job.human);
  }

  /* Next jobs */

  /** Before `next`, the larger environment holds nothing new. */
  predicate ExtendsFrom(env: Environment, env': Environment, next: TraceSampleIndex) {
    forall x :: x in env' && x.Before(next) ==> x in env && env[x] == env'[x]
  }

  lemma BarrierBefore(secs: seq<SectionValue>, j: nat, i: nat, next: TraceSampleIndex)
    requires SectionsWellFormed(secs) && j < |secs| && i < |secs[j].barriers| && End(secs).Before(next)
    ensures !secs[j].barriers[i].range.IsEmpty() && secs[j].barriers[i].range.Max().Before(next)
  {
    EndOrder(secs, j);
    if i < |secs[j].barriers| - 1 { EndsInOrder(secs[j].barriers, i, |secs[j].barriers| - 1); }
  }

  lemma ReadyExtends(m: Metric, secs: seq<SectionValue>, env: Environment, env': Environment, start: TraceSampleIndex,
                     next: TraceSampleIndex, human: Capsule)
    requires Ready(m, secs, env, start, next, human) && ExtendsFrom(env, env', next)
    ensures Ready(m, secs, env', start, next, human)
  {
    forall j, i | 0 <= j < |secs| && 0 <= i < |secs[j].barriers| ensures CoveredAt(m, secs, env', start, j, i) {
      BarrierBefore(secs, j, i, next);
      assert CoveredAt(m, secs, env, start, j, i);
      hide Vouched;
    }
  }

  /** After a clear scan, the job into any next mode can be scanned: it starts at the first sample of that mode. */
  lemma NextResumable(m: Metric, robot: Robot, view: View, h: History, job: Job, secs: seq<SectionValue>, mode: Mode,
                      p: real, path: seq<PathElement>)
    requires job.Valid() && StartOf(robot, h, job).Some? && !Looped(ModesOf(job.trace))
    requires Ready(m, secs, EnvironmentOf(SamplesOf(view, h, job)), TraceSampleIndex(0, StartOf(robot, h, job).value),
                   TraceSampleIndex(|job.trace|, 0), job.human)
    requires FitsTrace(path, |job.trace| + 1)
    ensures Resumable(m, robot, view, h, job.(trace := Continued(job.trace, mode, p), path := path, secs := secs))
  {
    var j := job.(trace := Continued(job.trace, mode, p), path := path, secs := secs);
    var n := |job.trace|;
    NextValid(job, j, mode, p);
    SamplesContinue(view, h, job, j, mode, p);
    EnvironmentExtends(SamplesOf(view, h, job), SamplesOf(view, h, j), n);
    assert StartOf(robot, h, j) == StartOf(robot, h, job);
    assert ScanFrom(secs, n) == TraceSampleIndex(n, 0);
    hide StartOf, SamplesOf, EnvironmentOf, Ready, ScanFrom, ExtendsFrom;
    ReadyExtends(m, secs, EnvironmentOf(SamplesOf(view, h, job)), EnvironmentOf(SamplesOf(view, h, j)),
                 TraceSampleIndex(0, StartOf(robot, h, job).value), TraceSampleIndex(n, 0), job.human);
  }

  function NextJob(job: Job, b: Branch, secs: seq<SectionValue>): Job {
    job.(trace := b.trace, path := b.path, secs := secs)
  }

  /** The job into any predicted mode looks ahead over modes of the past. It can be scanned exactly if a stay in the
      new mode had ended by the job's snapshot; and that is always so if the snapshot is of the initial time. */
  lemma NextPredicted(robot: Robot, view: View, h: History, job: Job, branches: seq<Branch>, next: map<Mode, real>,
                      order: seq<Mode>, b: Branch, secs: seq<SectionValue>)
    requires Histories.Valid(robot, h) && Chained(h.presences) && Predicted(robot, h, job) && SectionsWellFormed(secs)
    requires AreNext(S.TraceAt(h, job.initialTime).value, Branch(job.trace, job.path), NextJobs(branches), next, order)
    requires b in branches
    ensures var j := NextJob(job, b, secs);
            && Predicted(robot, h, j)
            && (Scannable(robot, view, h, j) <==> LeftBy(h, j.trace[|j.trace| - 1].mode, j.snapshotTime))
            && (Known(h, job) && Scannable(robot, view, h, j) ==> Known(h, j))
            && (job.snapshotTime == job.initialTime ==> Known(h, j) && Scannable(robot, view, h, j))
  {
    hide *;
    var j := NextJob(job, b, secs);
    PredictedParts(robot, h, job);
    var m, p := NextIs(S.TraceAt(h, job.initialTime).value, job, branches, next, order, b);
    NextJobIs(job, b, secs);
    NextValid(job, j, m, p);
    NextAssembled(robot, h, job, j);
    PredictedParts(robot, h, j);
    ScannableIff(robot, view, h, j);
    if Known(h, job) && Scannable(robot, view, h, j) { NextKnown(robot, h, job, j, m, p); }
    if job.snapshotTime == job.initialTime {
      PresentIsKnown(robot, h, j);
      KnownScannable(robot, view, h, j);
    }
  }

  lemma NextJobIs(job: Job, b: Branch, secs: seq<SectionValue>)
    ensures var j := NextJob(job, b, secs);
            && j.trace == b.trace && j.path == b.path && j.secs == secs && j.id == job.id
            && j.initialTime == job.initialTime && j.snapshotTime == job.snapshotTime
  {
  }

  lemma NextAssembled(robot: Robot, h: History, job: Job, j: Job)
    requires Chained(h.presences) && Predicted(robot, h, job) && j.Valid() && j.trace != [] && job.trace != []
    requires j.trace[0] == job.trace[0] && j.id == job.id
    requires j.initialTime == job.initialTime && j.snapshotTime == job.snapshotTime
    requires S.TraceAt(h, job.initialTime).Some?
    requires Reachable(S.TraceAt(h, job.initialTime).value, ModesOf(j.trace))
    ensures Predicted(robot, h, j)
  {
    hide Reachable, S.CheckedSampleIndex, S.ModeAt, Longest, S.TraceAt, FitsTrace, Distinct, SectionsWellFormed;
  }

  lemma NextIs(past: seq<Mode>, job: Job, branches: seq<Branch>, next: map<Mode, real>, order: seq<Mode>, b: Branch)
    returns (m: Mode, p: real)
    requires job.Valid() && Reachable(past, ModesOf(job.trace)) && b in branches
    requires AreNext(past, Branch(job.trace, job.path), NextJobs(branches), next, order)
    ensures !Looped(ModesOf(job.trace)) && b.trace == Continued(job.trace, m, p) && b.Fits()
    ensures FitsTrace(b.path, |job.trace| + 1) && Reachable(past, ModesOf(b.trace))
  {
    hide Reachable, FitsTrace, Distinct, IsPrediction, Looped, SectionsWellFormed;
    var branch := Branch(job.trace, job.path);
    NeverSticks(past, branch, NextJobs(branches), next, order);
    assert GrowsReachably(past, branch, b);
    var i :| 0 <= i < |branches| && branches[i] == b;
    F.NextIsContinued(past, branch, NextJobs(branches), next, order, i);
    m, p := order[i], next[order[i]];
  }

  lemma NextKnown(robot: Robot, h: History, job: Job, j: Job, mode: Mode, p: real)
    requires Histories.Valid(robot, h) && Known(h, job) && job.trace != [] && j.trace == Continued(job.trace, mode, p)
    requires j.snapshotTime == job.snapshotTime && LeftBy(h, j.trace[|j.trace| - 1].mode, j.snapshotTime)
    ensures Known(h, j)
  {
    hide Histories.Valid, LeftBy, S.StoredAt;
    StoredIff(robot, h, j.snapshotTime, mode);
    forall m | m in ModesOf(j.trace) ensures S.StoredAt(h, j.snapshotTime, m).Some? {
      var i :| 0 <= i < |j.trace| && ModesOf(j.trace)[i] == m;
      if i < |job.trace| { assert ModesOf(job.trace)[i] == m; }
    }
  }

  lemma NextValid(job: Job, j: Job, mode: Mode, p: real)
    requires job.Valid() && !Looped(ModesOf(job.trace)) && j.trace == Continued(job.trace, mode, p)
    requires FitsTrace(j.path, |job.trace| + 1) && SectionsWellFormed(j.secs)
    ensures j.Valid() && |j.trace| == |job.trace| + 1 && j.trace[0] == job.trace[0]
  {
    F.ContinuedModes(job.trace, mode, p);
    hide Distinct, FitsTrace, SectionsWellFormed;
  }

  lemma SamplesContinue(view: View, h: History, job: Job, j: Job, mode: Mode, p: real)
    requires job.trace != [] && j.trace == Continued(job.trace, mode, p)
    requires j.snapshotTime == job.snapshotTime && j.id == job.id
    ensures SamplesOf(view, h, j)[..|job.trace|] == SamplesOf(view, h, job)
  {
    hide SegmentIn;
    forall i | 0 <= i < |job.trace| ensures SamplesOf(view, h, j)[i] == SamplesOf(view, h, job)[i] {
      assert ModesOf(j.trace)[i] == ModesOf(job.trace)[i];
    }
  }

  lemma EnvironmentExtends(along: seq<SegmentSamples>, along': seq<SegmentSamples>, n: nat)
    requires n == |along| <= |along'| && along'[..n] == along
    ensures ExtendsFrom(EnvironmentOf(along), EnvironmentOf(along'), TraceSampleIndex(n, 0))
  {
    var env, env' := EnvironmentOf(along), EnvironmentOf(along');
    forall x | x in env' && x.Before(TraceSampleIndex(n, 0)) ensures x in env && env[x] == env'[x] {
      assert Present(along', x) && along'[x.trace] == along'[..n][x.trace];
      assert Present(along, x);
    }
  }

  /* Jobs while the history grows */

  /** Later states change nothing of what a job looks ahead over. */
  lemma PredictedLasts(robot: Robot, view: View, h: History, job: Job, mode: Mode, os: seq<Observation>, t: nat)
    requires Histories.Valid(robot, h) && h.latestTime < t && !mode.IsEmpty() && |os| == robot.segments
    requires Chained(h.presences) && Predicted(robot, h, job)
    ensures var h' := Acquired(robot, h, mode, os, t);
            && Chained(h'.presences) && Predicted(robot, h', job)
            && (Known(h, job) ==> Known(h', job))
            && (Scannable(robot, view, h, job) ==> Scannable(robot, view, h', job))
  {
    var h' := Acquired(robot, h, mode, os, t);
    AcquiredValid(robot, h, mode, os, t);
    S.AcquiredAppends(robot, h, mode, os, t, mode);
    hide *;
    PredictedParts(robot, h, job);
    ValidChained(robot, h');
    StartLasts(robot, h, job, mode, os, t);
    S.SnapshotStable(robot, h, mode, os, t, job.snapshotTime, job.trace[0].mode);
    S.SnapshotStable(robot, h, mode, os, t, job.initialTime, job.trace[0].mode);
    SameLongest(robot, h, h', job.snapshotTime, job.trace[0].mode);
    SamePrediction(robot, h, h', job);
    KnownLasts(robot, h, job, mode, os, t);
    ScannableLasts(robot, view, h, job, mode, os, t);
  }

  lemma PredictedParts(robot: Robot, h: History, job: Job)
    requires Chained(h.presences) && Predicted(robot, h, job)
    ensures job.trace != [] && StartOf(robot, h, job).Some? && S.ModeAt(h, job.initialTime) == job.trace[0].mode
    ensures job.snapshotTime <= job.initialTime <= h.latestTime && S.TraceAt(h, job.initialTime).Some?
    ensures job.Valid() && job.id.robotSegment < robot.segments
    ensures Reachable(S.TraceAt(h, job.initialTime).value, ModesOf(job.trace))
  {
    hide StartOf, S.ModeAt, S.TraceAt, Longest, Reachable, Distinct, FitsTrace, SectionsWellFormed;
  }

  lemma SameLongest(robot: Robot, h: History, h': History, s: nat, m: Mode)
    requires Chained(h.presences) && Chained(h'.presences)
    requires S.PresencesIn(h'.presences, s, m) == S.PresencesIn(h.presences, s, m)
    ensures Longest(robot, h', s, m) == Longest(robot, h, s, m)
  {
    hide S.PresencesIn, S.MaxWhole;
  }

  lemma SamePrediction(robot: Robot, h: History, h': History, job: Job)
    requires Chained(h.presences) && Chained(h'.presences) && Predicted(robot, h, job) && h.latestTime <= h'.latestTime
    requires job.trace != [] && StartOf(robot, h', job) == StartOf(robot, h, job)
    requires S.ModeAt(h', job.initialTime) == S.ModeAt(h, job.initialTime)
    requires Longest(robot, h', job.snapshotTime, job.trace[0].mode) ==
             Longest(robot, h, job.snapshotTime, job.trace[0].mode)
    requires S.TraceAt(h', job.initialTime) == S.TraceAt(h, job.initialTime)
    ensures Predicted(robot, h', job)
  {
    hide StartOf, S.ModeAt, S.TraceAt, Longest, Reachable, Distinct, FitsTrace, SectionsWellFormed;
  }

  lemma KnownLasts(robot: Robot, h: History, job: Job, mode: Mode, os: seq<Observation>, t: nat)
    requires Histories.Valid(robot, h) && h.latestTime <= t && !mode.IsEmpty() && |os| == robot.segments
    requires job.snapshotTime < t
    ensures Known(h, job) ==> Known(Acquired(robot, h, mode, os, t), job)
  {
    hide Histories.Valid, Acquired, S.StoredAt;
    var h' := Acquired(robot, h, mode, os, t);
    forall m ensures S.StoredAt(h', job.snapshotTime, m) == S.StoredAt(h, job.snapshotTime, m) {
      S.SnapshotStable(robot, h, mode, os, t, job.snapshotTime, m);
    }
  }

  lemma ScannableLasts(robot: Robot, view: View, h: History, job: Job, mode: Mode, os: seq<Observation>, t: nat)
    requires Histories.Valid(robot, h) && h.latestTime <= t && !mode.IsEmpty() && |os| == robot.segments
    requires job.trace != [] && job.snapshotTime < t
    requires StartOf(robot, Acquired(robot, h, mode, os, t), job) == StartOf(robot, h, job)
    ensures Scannable(robot, view, h, job) ==> Scannable(robot, view, Acquired(robot, h, mode, os, t), job)
  {
    hide Histories.Valid, Acquired, S.StoredAt, StartOf;
    S.SnapshotStable(robot, h, mode, os, t, job.snapshotTime, job.trace[|job.trace| - 1].mode);
  }

  /** While the job sleeps the history grows, and nothing the job relies on changes. */
  lemma ResumableLasts(m: Metric, robot: Robot, view: View, h: History, job: Job, mode: Mode, os: seq<Observation>,
                       t: nat)
    requires Histories.Valid(robot, h) && h.latestTime <= t && !mode.IsEmpty() && |os| == robot.segments
    requires job.trace != [] && job.snapshotTime < t && job.initialTime < t && StartOf(robot, h, job).Some?
    requires S.ModeAt(h, job.initialTime) == job.trace[0].mode
    ensures var h' := Acquired(robot, h, mode, os, t);
            && (Resumable(m, robot, view, h, job) ==> Resumable(m, robot, view, h', job))
            && (Tracked(m, robot, view, h, job) ==> Tracked(m, robot, view, h', job))
            && S.ModeAt(h', job.initialTime) == job.trace[0].mode
  {
    hide *;
    StartLasts(robot, h, job, mode, os, t);
    SamplesLast(robot, view, h, job, mode, os, t);
    SameView(m, robot, view, h, Acquired(robot, h, mode, os, t), job);
  }

  lemma StartLasts(robot: Robot, h: History, job: Job, mode: Mode, os: seq<Observation>, t: nat)
    requires Histories.Valid(robot, h) && h.latestTime <= t && !mode.IsEmpty() && |os| == robot.segments
    requires job.trace != [] && job.snapshotTime < t && job.initialTime < t && StartOf(robot, h, job).Some?
    requires S.ModeAt(h, job.initialTime) == job.trace[0].mode
    ensures var h' := Acquired(robot, h, mode, os, t);
            StartOf(robot, h', job) == StartOf(robot, h, job) && S.ModeAt(h', job.initialTime) == job.trace[0].mode
  {
    hide Histories.Valid, Acquired, S.ModeAt, S.CheckedSampleIndex;
    S.IndexLasts(robot, h, mode, os, t, job.snapshotTime, job.initialTime, job.snapshotTime);
  }

  lemma SameView(m: Metric, robot: Robot, view: View, h: History, h': History, job: Job)
    requires job.trace != [] && StartOf(robot, h', job) == StartOf(robot, h, job)
    requires SamplesOf(view, h', job) == SamplesOf(view, h, job)
    ensures Resumable(m, robot, view, h, job) ==> Resumable(m, robot, view, h', job)
    ensures Tracked(m, robot, view, h, job) ==> Tracked(m, robot, view, h', job)
  {
    hide StartOf, SamplesOf, EnvironmentOf, Ready, SectionLists.Tracks;
  }

  lemma SamplesLast(robot: Robot, view: View, h: History, job: Job, mode: Mode, os: seq<Observation>, t: nat)
    requires Histories.Valid(robot, h) && h.latestTime <= t && !mode.IsEmpty() && |os| == robot.segments
    requires job.snapshotTime < t
    ensures SamplesOf(view, Acquired(robot, h, mode, os, t), job) == SamplesOf(view, h, job)
  {
    hide Histories.Valid, Acquired, S.StoredAt;
    var h', ms := Acquired(robot, h, mode, os, t), ModesOf(job.trace);
    forall i | 0 <= i < |ms| ensures SamplesOf(view, h', job)[i] == SamplesOf(view, h, job)[i] {
      S.SnapshotStable(robot, h, mode, os, t, job.snapshotTime, ms[i]);
    }
  }

  /* Jobs that are woken */

  /** The modes of the trace are modes of the past; this is left of a prediction while its job sleeps. */
  predicate Foreseen(h: History, job: Job) {
    && job.snapshotTime <= job.initialTime <= h.latestTime && S.TraceAt(h, job.initialTime).Some?
    && forall m :: m in ModesOf(job.trace) ==> m in S.TraceAt(h, job.initialTime).value
  }

  lemma PredictedForeseen(robot: Robot, h: History, job: Job)
    requires Chained(h.presences) && Predicted(robot, h, job)
    ensures Foreseen(h, job)
  {
    hide StartOf, S.ModeAt, S.TraceAt, Longest, Distinct, FitsTrace, SectionsWellFormed;
    var past, ms := S.TraceAt(h, job.initialTime).value, ModesOf(job.trace);
    forall m | m in ms ensures m in past { assert m in Before(past, ms); }
  }

  lemma ForeseenLater(robot: Robot, h: History, job: Job, time: nat)
    requires Histories.Valid(robot, h) && Foreseen(h, job) && job.initialTime <= time
    ensures S.TraceAt(h, time).Some?
    ensures forall m :: m in ModesOf(job.trace) ==> m in S.TraceAt(h, time).value
  {
    hide Histories.Valid, S.TraceAt;
    PastGrows(robot, h, job.initialTime, time);
    var before, after := S.TraceAt(h, job.initialTime).value, S.TraceAt(h, time).value;
    forall m | m in before ensures m in after {
      var i :| 0 <= i < |before| && before[i] == m;
      assert after[i] == m;
    }
  }

  /** Where the guard is met for a sleeping job, the history supports its awakening. */
  lemma GuardSupports(robot: Robot, h: History, strong: bool, job: Job, time: nat)
    requires Histories.Valid(robot, h) && S.CanLookAhead(robot, h, job.snapshotTime, time) == Some(true)
    requires Foreseen(h, job) && job.initialTime <= time && (!strong ==> Known(h, job))
    ensures F.Supported(robot, h, job, F.SnapshotFor(strong, job, time), S.ModeAt(h, time), time)
  {
    hide Histories.Valid, S.CanLookAhead, S.ModeAt, S.TraceAt, S.CheckedSampleIndex, S.StoredAt, Reachable, Longest;
    var snapshot := F.SnapshotFor(strong, job, time);
    GuardStart(robot, h, job.snapshotTime, time, snapshot);
    GuardStart(robot, h, job.snapshotTime, time, time);
    ForeseenLater(robot, h, job, time);
    if strong {
      forall m | m in ModesOf(job.trace) ensures S.StoredAt(h, time, m).Some? { PastStored(robot, h, time, m); }
    }
  }

  /** What is left of a trace after a reset leads on from the present mode over modes of the past. */
  lemma RestReachable(m: Metric, robot: Robot, view: View, h: History, strong: bool, job: Job, time: nat,
                      human: Capsule, mode: Mode, lower: nat, rest: F.Remainder, past: seq<Mode>)
    requires rest.Rest? && job.Valid() && IsFirst(ModesOf(job.trace), mode, lower)
    requires F.GoodRest(m, robot, view, h, strong, job, human, mode, time, lower, rest)
    requires LeadsInto(past, mode) && forall n :: n in ModesOf(job.trace) ==> n in past
    ensures rest.branch.Fits() && Reachable(past, ModesOf(rest.branch.trace))
  {
    hide *;
    RestIsPart(m, robot, view, h, strong, job, time, human, mode, lower, rest);
    FirstMode(ModesOf(job.trace), mode, lower);
    PartReachable(past, ModesOf(job.trace), ModesOf(rest.branch.trace), lower);
  }

  lemma RestIsPart(m: Metric, robot: Robot, view: View, h: History, strong: bool, job: Job, time: nat, human: Capsule,
                   mode: Mode, lower: nat, rest: F.Remainder)
    requires rest.Rest? && F.GoodRest(m, robot, view, h, strong, job, human, mode, time, lower, rest)
    ensures rest.branch.Fits() && rest.branch.trace != []
    ensures Distinct(ModesOf(rest.branch.trace)[..|rest.branch.trace| - 1])
    ensures lower + |rest.branch.trace| <= |job.trace|
    ensures forall i :: 0 <= i < |rest.branch.trace| ==>
              ModesOf(rest.branch.trace)[i] == ModesOf(job.trace)[lower + i]
  {
    hide F.CoversLast, SectionsReset, StartOf, SamplesOf, EndsAtLast, ResetBound, End, SectionsWellFormed, F.Reduction,
         FitsTrace, Distinct, IsFirst;
    F.ReductionTrace(job, rest.secs, lower, lower + End(rest.secs).trace,
                     F.CoversLast(view, h, F.SnapshotFor(strong, job, time), job, lower, rest.secs));
  }

  lemma FirstMode(ms: seq<Mode>, mode: Mode, lower: nat)
    requires IsFirst(ms, mode, lower)
    ensures lower < |ms| && ms[lower] == mode
  {
  }

  lemma PartReachable(past: seq<Mode>, ms: seq<Mode>, part: seq<Mode>, lower: nat)
    requires part != [] && Distinct(part[..|part| - 1]) && lower + |part| <= |ms|
    requires forall i :: 0 <= i < |part| ==> part[i] == ms[lower + i]
    requires LeadsInto(past, part[0]) && forall n :: n in ms ==> n in past
    ensures Reachable(past, part)
  {
    forall n | n in part ensures n in past {
      var i :| 0 <= i < |part| && part[i] == n;
      assert ms[lower + i] == n;
    }
  }

  /** Each job that an awakening may result in leads on from the present mode over modes of the past. */
  lemma CandidatesReachable(m: Metric, robot: Robot, view: View, h: History, strong: bool, job: Job, time: nat,
                            human: Capsule, mode: Mode, js: seq<Job>, completed: bool, j: Job, past: seq<Mode>)
    requires F.AreCandidates(m, robot, view, h, strong, job, time, human, mode, js, completed) && job.Valid() && j in js
    requires S.TraceAt(h, time) == Some(past) && LeadsInto(past, mode) && Reachable(past, [mode])
    requires forall n :: n in ModesOf(job.trace) ==> n in past
    ensures Reachable(past, ModesOf(j.trace))
  {
    hide Reachable, LeadsInto, F.GoodRest, GoesOn, F.StartsOver, F.AreFollowing, F.JobFor, S.TraceAt, IsFirst,
         FitsTrace, Distinct, SectionsWellFormed;
    if lower, rest :| F.ComeFrom(m, robot, view, h, strong, job, time, human, mode, js, completed, lower, rest) {
      RestReachable(m, robot, view, h, strong, job, time, human, mode, lower, rest, past);
      F.JobForParts(strong, job, human, time, rest.branch, rest.secs);
      if rest.exhausted {
        FollowingReachable(h, strong, job, human, time, rest, js, completed, j, past);
      }
    } else {
      assert j.trace == [Entry(mode, 1.0)];
      assert ModesOf(j.trace) == [mode];
    }
  }

  lemma FollowingReachable(h: History, strong: bool, job: Job, human: Capsule, time: nat, rest: F.Remainder,
                           js: seq<Job>, completed: bool, j: Job, past: seq<Mode>)
    requires rest.Rest? && F.AreFollowing(h, strong, job, human, time, rest, js, completed) && j in js
    requires S.TraceAt(h, time) == Some(past) && rest.branch.Fits() && Reachable(past, ModesOf(rest.branch.trace))
    ensures Reachable(past, ModesOf(j.trace))
  {
    hide Reachable, AreNext, F.JobFor, S.TraceAt, FitsTrace;
    var following, next, order :|
      F.AreFollowingBy(h, strong, job, human, time, rest, js, completed, following, next, order);
    if completed {
      F.JobForParts(strong, job, human, time, rest.branch, rest.secs);
    } else {
      NeverSticks(past, rest.branch, following, next, order);
      var i :| 0 <= i < |js| && js[i] == j;
      assert GrowsReachably(past, rest.branch, following.branches[i]);
      F.JobForParts(strong, job, human, time, following.branches[i], rest.secs);
    }
  }

  lemma ForeseenTimes(h: History, job: Job)
    requires Foreseen(h, job)
    ensures job.snapshotTime <= job.initialTime <= h.latestTime
  {
  }

  lemma RestartIsNew(job: Job, j: Job, human: Capsule, mode: Mode, time: nat)
    requires Restarted(job, j, human, mode, time)
    ensures j == NewJob(job.id, time, human, mode) && j.snapshotTime == time
  {
  }

  lemma SnapshotLater(strong: bool, job: Job, time: nat)
    requires job.snapshotTime <= time
    ensures job.snapshotTime <= F.SnapshotFor(strong, job, time) <= time
  {
  }

  lemma SnapshotIs(strong: bool, job: Job, time: nat)
    ensures F.SnapshotFor(strong, job, time) == if strong then time else job.snapshotTime
  {
  }

  lemma GoesOnTimes(m: Metric, robot: Robot, view: View, h: History, strong: bool, job: Job, j: Job, human: Capsule,
                    mode: Mode, time: nat, lower: nat)
    requires GoesOn(m, robot, view, h, strong, job, j, human, mode, time, lower)
    ensures j.Valid() && j.trace != [] && j.id == job.id && j.initialTime == time && StartOf(robot, h, j).Some?
    ensures j.snapshotTime == F.SnapshotFor(strong, job, time)
    ensures IsFirst(ModesOf(job.trace), mode, lower) && SectionsWellFormed(job.secs) && SectionsWellFormed(j.secs)
    ensures lower <= ResetBound(strong, ModesOf(job.trace), lower) < |job.trace|
    ensures j.trace[0].mode == mode
  {
    hide StartOf, SamplesOf, EndsAtLast, SectionsReset, FitsTrace, Distinct, SectionsWellFormed;
    BoundIsNotBefore(strong, ModesOf(job.trace), mode, lower);
    assert ModesOf(j.trace)[0] == ModesOf(job.trace)[lower + 0];
  }

  lemma GoesOnPredicted(m: Metric, robot: Robot, view: View, h: History, strong: bool, job: Job, j: Job, human: Capsule,
                        mode: Mode, time: nat, lower: nat)
    requires Chained(h.presences) && GoesOn(m, robot, view, h, strong, job, j, human, mode, time, lower)
    requires job.snapshotTime <= time <= h.latestTime && mode == S.ModeAt(h, time)
    requires job.id.robotSegment < robot.segments
    requires var snapshot := F.SnapshotFor(strong, job, time);
             && S.CheckedSampleIndex(robot, h, snapshot, mode, time).Some?
             && S.CheckedSampleIndex(robot, h, snapshot, mode, time).value < Longest(robot, h, snapshot, mode)
    requires S.TraceAt(h, time).Some? && Reachable(S.TraceAt(h, time).value, ModesOf(j.trace))
    ensures Predicted(robot, h, j)
  {
    GoesOnTimes(m, robot, view, h, strong, job, j, human, mode, time, lower);
    SnapshotLater(strong, job, time);
    hide GoesOn, S.CheckedSampleIndex, Longest, S.ModeAt, S.TraceAt, Reachable, FitsTrace, Distinct, SectionsWellFormed,
         F.SnapshotFor, IsFirst, ResetBound;
  }

  /** What goes on is at most one entry longer than what was left of the trace. */
  lemma GoesOnPart(m: Metric, robot: Robot, view: View, h: History, job: Job, j: Job, human: Capsule, mode: Mode,
                   time: nat, lower: nat)
    requires GoesOn(m, robot, view, h, false, job, j, human, mode, time, lower)
    ensures lower + |j.trace| <= |job.trace| + 1
    ensures forall i :: 0 <= i < |j.trace| - 1 ==> ModesOf(j.trace)[i] in ModesOf(job.trace)
  {
    hide StartOf, SamplesOf, SectionsReset, FitsTrace, Distinct, SectionsWellFormed, IsFirst, End;
    BoundIsNotBefore(false, ModesOf(job.trace), mode, lower);
    F.ResetEndsWithin(m, job.secs, human, TraceSampleIndex(lower, StartOf(robot, h, j).value),
                      ResetBound(false, ModesOf(job.trace), lower));
    forall i | 0 <= i < |j.trace| - 1 ensures ModesOf(j.trace)[i] in ModesOf(job.trace) {
      assert ModesOf(j.trace)[i] == ModesOf(job.trace)[lower + i];
    }
  }

  lemma GoesOnKnown(m: Metric, robot: Robot, view: View, h: History, job: Job, j: Job, human: Capsule, mode: Mode,
                    time: nat, lower: nat)
    requires Histories.Valid(robot, h) && Known(h, job)
    requires GoesOn(m, robot, view, h, false, job, j, human, mode, time, lower)
    ensures j.trace != [] && (LeftBy(h, j.trace[|j.trace| - 1].mode, j.snapshotTime) ==> Known(h, j))
  {
    GoesOnTimes(m, robot, view, h, false, job, j, human, mode, time, lower);
    GoesOnPart(m, robot, view, h, job, j, human, mode, time, lower);
    hide Histories.Valid, GoesOn, LeftBy, S.StoredAt, FitsTrace, Distinct, SectionsWellFormed, IsFirst, ResetBound;
    var last := |j.trace| - 1;
    StoredIff(robot, h, j.snapshotTime, j.trace[last].mode);
    if LeftBy(h, j.trace[last].mode, j.snapshotTime) {
      forall n | n in ModesOf(j.trace) ensures S.StoredAt(h, j.snapshotTime, n).Some? {
        var i :| 0 <= i < |j.trace| && ModesOf(j.trace)[i] == n;
      }
    }
  }

  lemma KnownLeft(robot: Robot, h: History, job: Job)
    requires Histories.Valid(robot, h) && job.trace != [] && Known(h, job)
    ensures LeftBy(h, job.trace[|job.trace| - 1].mode, job.snapshotTime)
  {
    hide Histories.Valid, LeftBy, S.StoredAt;
    var n := |job.trace| - 1;
    assert ModesOf(job.trace)[n] in ModesOf(job.trace);
    StoredIff(robot, h, job.snapshotTime, job.trace[n].mode);
  }

  /** A job woken where the guard is met looks ahead over modes of the past. It can be scanned, and its snapshot has
      samples of all its modes, exactly if a stay in its last mode had ended by its snapshot; under strong
      equivalence, and if it starts over, that is always so. */
  lemma WokenPredicted(m: Metric, robot: Robot, view: View, h: History, strong: bool, job: Job, time: nat,
                       human: Capsule, js: seq<Job>, completed: bool, j: Job)
    requires Histories.Valid(robot, h) && S.CanLookAhead(robot, h, job.snapshotTime, time) == Some(true)
    requires Foreseen(h, job) && job.initialTime <= time && (!strong ==> Known(h, job)) && job.Valid()
    requires job.id.robotSegment < robot.segments
    requires F.AreCandidates(m, robot, view, h, strong, job, time, human, S.ModeAt(h, time), js, completed) && j in js
    ensures Chained(h.presences) && Predicted(robot, h, j)
    ensures strong || j.snapshotTime == time ==> Known(h, j)
    ensures Known(h, j) <==> LeftBy(h, j.trace[|j.trace| - 1].mode, j.snapshotTime)
    ensures Scannable(robot, view, h, j) <==> LeftBy(h, j.trace[|j.trace| - 1].mode, j.snapshotTime)
  {
    hide *;
    var mode := S.ModeAt(h, time);
    ForeseenTimes(h, job);
    GuardStart(robot, h, job.snapshotTime, time, time);
    ForeseenLater(robot, h, job, time);
    CandidatesReachable(m, robot, view, h, strong, job, time, human, mode, js, completed, j, S.TraceAt(h, time).value);
    F.CandidatesGoOn(m, robot, view, h, strong, job, time, human, mode, js, completed, j);
    if Restarted(job, j, human, mode, time) {
      RestartIsNew(job, j, human, mode, time);
      StartedReady(m, robot, view, h, job.snapshotTime, job.id, time, human);
    } else {
      var lower :| GoesOn(m, robot, view, h, strong, job, j, human, mode, time, lower);
      SnapshotLater(strong, job, time);
      GuardStart(robot, h, job.snapshotTime, time, F.SnapshotFor(strong, job, time));
      GoesOnPredicted(m, robot, view, h, strong, job, j, human, mode, time, lower);
      GoesOnTimes(m, robot, view, h, strong, job, j, human, mode, time, lower);
      SnapshotIs(strong, job, time);
      if j.snapshotTime == time {
        PresentIsKnown(robot, h, j);
      } else {
        GoesOnKnown(m, robot, view, h, job, j, human, mode, time, lower);
      }
    }
    PredictedParts(robot, h, j);
    ScannableIff(robot, view, h, j);
    if Known(h, j) { KnownLeft(robot, h, j); }
  }

  /** Without reuse, where the guard is met: of all the jobs of one prediction exactly one is woken into a new scan,
      and it can be scanned. */
  lemma DiscardReady(m: Metric, robot: Robot, view: View, h: History, s: nat, past: seq<Mode>, t: Tree, job: Job,
                     time: nat, human: Capsule)
    requires Histories.Valid(robot, h) && S.CanLookAhead(robot, h, s, time) == Some(true) && s <= time
    requires IsPrunedTree(past, t) && Primary(t.job.path) && job.initialTime < time
    requires job.id.robotSegment < robot.segments
    ensures var mode := S.ModeAt(h, time);
            var j := NewJob(job.id, time, human, mode);
            && F.DiscardAwakenedAll(job, LeafJobs(t), time, Some(human), mode) == [F.Woken(j, F.Different)]
            && Scannable(robot, view, h, j)
  {
    hide IsPrunedTree, Primary, Histories.Valid, S.CanLookAhead, S.ModeAt, F.DiscardAwakenedAll, Scannable, Resumable,
         Predicted;
    F.OneRestarts(past, t, job, time, human, S.ModeAt(h, time));
    StartedReady(m, robot, view, h, s, job.id, time, human);
  }
}
