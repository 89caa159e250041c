/** What a worker does with a waiting job: it scans it, reports a collision, and puts the job to sleep or its next jobs
    to wait. The human is taken not to have been removed meanwhile. */
module WorkingJobs {
  import opened Capsules
  import opened Modes
  import opened NextModes
  import opened ModeTraces
  import opened Predictions
  import opened Histories
  import opened HistoryEnvironments
  import opened RobotStateHistories
  import opened SectionLists
  import opened LookAheadJobs
  import opened LookAheadJobPaths
  import opened LookAheadJobRegistries
  import opened LookAheadJobFactories
  import opened Reuses
  import opened JobRuns
  import opened JobLives
  import opened JobSystems
  import opened SynchronisedQueues
  import opened CollisionDistances
  import opened CollisionReports
  import S = HistorySnapshots

  predicate IsFree(paths: set<Choices>, job: Job, j: Job) {
    |j.path| <= |job.path| || Priorities(j.path) !in paths
  }

  /** The next jobs in order, without those whose longer paths are registered. */
  function FreeJobs(paths: set<Choices>, job: Job, secs: seq<SectionValue>, branches: seq<Branch>): seq<Job> {
    if branches == [] then []
    else
      var n := |branches| - 1;
      var j := NextJob(job, branches[n], secs);
      FreeJobs(paths, job, secs, branches[..n]) + if IsFree(paths, job, j) then [j] else []
  }

  ghost predicate AreAdded(h: History, job: Job, secs: seq<SectionValue>, paths: set<Choices>, added: seq<Job>,
                           branches: seq<Branch>, next: map<Mode, real>, order: seq<Mode>)
  {
    && S.TraceAt(h, job.initialTime).Some?
    && AreNext(S.TraceAt(h, job.initialTime).value, Branch(job.trace, job.path), NextJobs(branches), next, order)
    && added == FreeJobs(paths, job, secs, branches)
  }

  /** What is put to wait after a scan. */
  ghost predicate IsContinued(h: History, job: Job, r: int, secs: seq<SectionValue>, paths: set<Choices>,
                              added: seq<Job>)
  {
    if r != -1 || Looped(ModesOf(job.trace)) then added == []
    else exists branches, next, order :: AreAdded(h, job, secs, paths, added, branches, next, order)
  }

  /** What is reported of a collision. */
  ghost predicate IsReported(robot: Robot, h: History, job: Job, r: int, report: Option<Interval>)
    requires Chained(h.presences)
  {
    && (report.Some? <==> r >= 0)
    && (r >= 0 ==>
          && job.trace != [] && StartOf(robot, h, job).Some? && robot.frequency > 0
          && exists ranges ::
               && AreRecorded(robot, h, job, ranges, |job.trace| - 1)
               && Reports(report.value, ranges, StartOf(robot, h, job).value, r, robot.frequency))
  }

  /** Scans the job, reports a collision, and puts the job to sleep or its next jobs to wait. */
  method ProcessWorkingJob(factory: ReuseLookAheadJobFactory, job: Job, waiting: SynchronisedQueue<Job>,
                           sleeping: SynchronisedQueue<Job>, history: RobotStateHistory, view: View,
                           ghost intersects: (Capsule, Capsule) -> bool)
    returns (r: int, report: Option<Interval>, ghost secs: seq<SectionValue>, ghost added: seq<Job>)
    requires factory.registry.Valid() && history.Valid() && Chained(history.presences) && waiting != sleeping
    requires Predicted(history.robot, history.Value(), job) && Scannable(history.robot, view, history.Value(), job)
    requires Resumable(factory.metric, history.robot, view, history.Value(), job)
    requires Agree(factory.metric, intersects, job.human, EnvironmentOf(SamplesOf(view, history.Value(), job)))
    modifies waiting, sleeping
    ensures IsScan(factory.metric, history.robot, view, history.Value(), intersects, job, r, secs)
    ensures IsReported(history.robot, history.Value(), job, r, report)
    ensures IsContinued(history.Value(), job, r, secs, factory.registry.Paths(Key(job.initialTime, job.id)), added)
    ensures waiting.queue == old(waiting.queue) + added
    ensures sleeping.queue == old(sleeping.queue) +
                              if r != -1 || Looped(ModesOf(job.trace)) then [job.(secs := secs)] else []
    ensures waiting.numReserved == old(waiting.numReserved) && sleeping.numReserved == old(sleeping.numReserved)
  {
    hide Histories.Valid, Predicted, Scannable, Resumable, Agree, IsScan, IsReported, IsContinued, Looped, IsTree,
         Apart, Increasing, Chained, EnvironmentOf, SamplesOf;
    var barriers;
    r, report, barriers := ScanAndReport(factory, job, history, view, intersects);
    secs := barriers;
    if r >= 0 {
      NoneContinue(history.Value(), job, r, secs, factory.registry.Paths(Key(job.initialTime, job.id)));
      sleeping.Enqueue(job.(secs := barriers));
      added := [];
    } else {
      added := Continue(factory.registry, job, r, barriers, waiting, sleeping, history);
    }
  }

  method ScanAndReport(factory: ReuseLookAheadJobFactory, job: Job, history: RobotStateHistory, view: View,
                       ghost intersects: (Capsule, Capsule) -> bool)
    returns (r: int, report: Option<Interval>, secs: seq<SectionValue>)
    requires history.Valid() && Chained(history.presences) && Predicted(history.robot, history.Value(), job)
    requires Scannable(history.robot, view, history.Value(), job)
    requires Resumable(factory.metric, history.robot, view, history.Value(), job)
    requires Agree(factory.metric, intersects, job.human, EnvironmentOf(SamplesOf(view, history.Value(), job)))
    ensures r >= -1 && IsScan(factory.metric, history.robot, view, history.Value(), intersects, job, r, secs)
    ensures IsReported(history.robot, history.Value(), job, r, report)
  {
    hide Histories.Valid, Predicted, Scannable, Resumable, Agree, IsScan, IsReported, Chained, EnvironmentOf, SamplesOf,
         Verdict;
    r, secs := ReuseScan(factory.metric, factory.policy, job, history, view, intersects);
    ScanGives(factory.metric, history.robot, view, history.Value(), intersects, job, r, secs);
    report := Report(job, r, history, view, intersects);
  }

  lemma ScanGives(m: Metric, robot: Robot, view: View, h: History, intersects: (Capsule, Capsule) -> bool, job: Job,
                  r: int, secs: seq<SectionValue>)
    requires Histories.Valid(robot, h) && Scannable(robot, view, h, job)
    requires IsScan(m, robot, view, h, intersects, job, r, secs)
    ensures Verdict(robot, view, h, intersects, job, r) && r >= -1
  {
    hide Histories.Valid, Scannable, SamplesAhead, BoundOf, Ready, Tracked, Looped;
  }

  lemma NoneContinue(h: History, job: Job, r: int, secs: seq<SectionValue>, paths: set<Choices>)
    requires r != -1 || Looped(ModesOf(job.trace))
    ensures IsContinued(h, job, r, secs, paths, [])
  {
    hide Looped, AreAdded;
  }

  /** The interval until the collision, if there is one. */
  method Report(job: Job, r: int, history: RobotStateHistory, ghost view: View,
                ghost intersects: (Capsule, Capsule) -> bool)
    returns (report: Option<Interval>)
    requires history.Valid() && Chained(history.presences) && Predicted(history.robot, history.Value(), job)
    requires Scannable(history.robot, view, history.Value(), job)
    requires Verdict(history.robot, view, history.Value(), intersects, job, r)
    ensures IsReported(history.robot, history.Value(), job, r, report)
  {
    hide Histories.Valid, Predicted, Scannable, Verdict, Chained, AreRecorded, Reports, Tight, StartOf;
    if r < 0 {
      return None;
    }
    var between, reported;
    ghost var ranges;
    between, reported, ranges := CollisionDistance(job, r, history, view, intersects);
    report := Some(reported);
  }

  /** After a clear scan: a job that has looped is put to sleep, and the next jobs of another to wait. */
  method Continue(registry: LookAheadJobRegistry, job: Job, ghost r: int, secs: seq<SectionValue>,
                  waiting: SynchronisedQueue<Job>, sleeping: SynchronisedQueue<Job>, history: RobotStateHistory)
    returns (ghost added: seq<Job>)
    requires registry.Valid() && history.Valid() && Chained(history.presences) && waiting != sleeping && r == -1
    requires Predicted(history.robot, history.Value(), job)
    modifies waiting, sleeping
    ensures IsContinued(history.Value(), job, r, secs, registry.Paths(Key(job.initialTime, job.id)), added)
    ensures waiting.queue == old(waiting.queue) + added
    ensures sleeping.queue == old(sleeping.queue) + if Looped(ModesOf(job.trace)) then [job.(secs := secs)] else []
    ensures waiting.numReserved == old(waiting.numReserved) && sleeping.numReserved == old(sleeping.numReserved)
  {
    hide Histories.Valid, Predicted, Looped, IsTree, Apart, Increasing, Chained, AreNext, S.TraceAt, FreeJobs, AreAdded,
         IsContinued;
    ghost var h, paths := history.Value(), registry.Paths(Key(job.initialTime, job.id));
    var branches;
    ghost var next, order;
    branches, next, order := PredictNext(job, history);
    if branches == [] {
      NoneContinue(h, job, r, secs, paths);
      sleeping.Enqueue(job.(secs := secs));
      added := [];
    } else {
      var jobs := Unregistered(registry, job, secs, branches);
      AddedAre(h, job, r, secs, paths, jobs, branches, next, order);
      EnqueueAll(waiting, jobs);
      added := jobs;
    }
  }

  lemma AddedAre(h: History, job: Job, r: int, secs: seq<SectionValue>, paths: set<Choices>, added: seq<Job>,
                 branches: seq<Branch>, next: map<Mode, real>, order: seq<Mode>)
    requires r == -1 && !Looped(ModesOf(job.trace)) && S.TraceAt(h, job.initialTime).Some?
    requires AreNext(S.TraceAt(h, job.initialTime).value, Branch(job.trace, job.path), NextJobs(branches), next, order)
    requires added == FreeJobs(paths, job, secs, branches)
    ensures IsContinued(h, job, r, secs, paths, added)
  {
    hide Looped, AreNext, S.TraceAt, FreeJobs;
    assert AreAdded(h, job, secs, paths, added, branches, next, order);
  }

  method PredictNext(job: Job, history: RobotStateHistory)
    returns (branches: seq<Branch>, ghost next: map<Mode, real>, ghost order: seq<Mode>)
    requires history.Valid() && Chained(history.presences) && Predicted(history.robot, history.Value(), job)
    ensures S.TraceAt(history.Value(), job.initialTime).Some?
    ensures AreNext(S.TraceAt(history.Value(), job.initialTime).value, Branch(job.trace, job.path), NextJobs(branches),
                    next, order)
    ensures branches == [] <==> Looped(ModesOf(job.trace))
  {
    ghost var h := history.Value();
    PredictedParts(history.robot, h, job);
    hide Histories.Valid, Predicted, Looped, Chained, AreNext, FitsTrace, Reachable, S.TraceAt, Distinct,
         SectionsWellFormed, GrowsReachably;
    var past := history.TraceAt(job.initialTime);
    var following;
    following, next, order := CreateNext(Certain(past.value), Branch(job.trace, job.path));
    NeverSticks(past.value, Branch(job.trace, job.path), following, next, order);
    assert history.Value() == h;
    branches := following.branches;
  }

  method Unregistered(registry: LookAheadJobRegistry, job: Job, secs: seq<SectionValue>, branches: seq<Branch>)
    returns (jobs: seq<Job>)
    requires registry.Valid()
    ensures jobs == FreeJobs(registry.Paths(Key(job.initialTime, job.id)), job, secs, branches)
  {
    hide IsTree, Apart, Increasing;
    jobs := [];
    var i := 0;
    while i < |branches|
      invariant 0 <= i <= |branches|
      invariant jobs == FreeJobs(registry.Paths(Key(job.initialTime, job.id)), job, secs, branches[..i])
    {
      var j := NextJob(job, branches[i], secs);
      var registered := false;
      if |j.path| > |job.path| {
        registered := registry.HasRegistered(j.initialTime, j.id, Priorities(j.path));
      }
      assert branches[..i + 1][..i] == branches[..i];
      if !registered {
        jobs := jobs + [j];
      } else {
        assert jobs + [] == jobs;
      }
      i := i + 1;
    }
    assert branches[..i] == branches;
  }

  /** So the jobs of the whole robot take a step. */
  lemma ProcessedTakes(c: Setting, s: System, job: Job, r: int, secs: seq<SectionValue>, added: seq<Job>)
    requires Histories.Valid(c.robot, s.history) && job in s.waiting && Scannable(c.robot, c.view, s.history, job)
    requires IsScan(c.metric, c.robot, c.view, s.history, c.intersects, job, r, secs)
    requires IsContinued(s.history, job, r, secs, s.PathsAt(Key(job.initialTime, job.id)), added)
    ensures Takes(c, s, Scan(job, r, secs, (set j | j in added)))
  {
    hide Histories.Valid, Scannable, Resumable, IsScan, AreNext, Looped, S.TraceAt, FreeJobs;
    if r == -1 && !Looped(ModesOf(job.trace)) {
      var branches, next, order :|
        AreAdded(s.history, job, secs, s.PathsAt(Key(job.initialTime, job.id)), added, branches, next, order);
      forall j
        ensures j in added <==> IsUnregistered(s, job, j) && exists b :: b in branches && j == NextJob(job, b, secs)
      {
        FreeAre(s, job, secs, branches, j);
      }
      assert AreUnregistered(s, job, secs, (set j | j in added), branches, next, order);
    }
  }

  lemma {:induction false} FreeAre(s: System, job: Job, secs: seq<SectionValue>, branches: seq<Branch>, j: Job)
    ensures j in FreeJobs(s.PathsAt(Key(job.initialTime, job.id)), job, secs, branches) <==>
            IsUnregistered(s, job, j) && exists b :: b in branches && j == NextJob(job, b, secs)
  {
    if branches != [] {
      var n := |branches| - 1;
      assert branches == branches[..n] + [branches[n]];
      FreeAre(s, job, secs, branches[..n], j);
    }
  }
}
