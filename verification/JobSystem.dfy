/** The jobs of one robot over whole runs: states are acquired, the past is purged, and jobs are created, scanned,
    continued, put to sleep and woken, in any order. */
module JobSystems {
  import opened Capsules
  import opened Modes
  import opened NextModes
  import opened ModeTraces
  import opened Predictions
  import opened Histories
  import opened HistoryEnvironments
  import opened LookAheadGuards
  import opened TraceSampleRanges
  import opened SectionLists
  import opened LookAheadJobs
  import opened LookAheadJobPaths
  import opened LookAheadJobRegistries
  import opened Reuses
  import opened JobRuns
  import opened JobLives
  import opened JobPurges
  import F = LookAheadJobFactories
  import P = RuntimeReceivers
  import R = SectionResets
  import S = HistorySnapshots

  /** What does not change in a run. */
  datatype Setting = Setting(metric: Metric, robot: Robot, view: View, intersects: (Capsule, Capsule) -> bool,
                             strong: bool)
  {
    /** The direct collision test is the one the metric stands for. */
    ghost predicate Agrees() {
      forall human, robot :: intersects(human, robot) <==> !(metric.humanRobot(human, robot) > 0.0)
    }
  }

  /** A sleeping job, and the job as it was when its barriers were made: awakenings without a human sample change the
      times of the one and not the other. */
  datatype Sleeper = Sleeper(job: Job, basis: Job)

  /** `times` are the timestamps of the registry, and `paths` the paths registered under them. */
  datatype System = System(history: History, waiting: set<Job>, sleeping: set<Sleeper>, times: seq<nat>,
                           paths: map<Key, set<Choices>>)
  {
    function PathsAt(k: Key): set<Choices> { if k in paths then paths[k] else {} }
  }

  datatype Step =
    | Acquire(mode: Mode, observations: seq<Observation>, time: nat)
    | Purge(cutoff: nat)
    | Create(id: LookAheadJobIdentifier, time: nat, human: Capsule, asleep: bool)
    | Scan(job: Job, index: int, secs: seq<SectionValue>, next: set<Job>)
    | Wake(sleeper: Sleeper, time: nat, latest: Option<Capsule>, woken: seq<F.Woken>, registered: set<Choices>)

  /** The job that a scan leaves. */
  function Scanned(job: Job, secs: seq<SectionValue>): Job { job.(secs := secs) }

  ghost predicate IsNext(h: History, job: Job, secs: seq<SectionValue>, j: Job) {
    S.TraceAt(h, job.initialTime).Some? &&
    exists branches, next, order, b ::
      IsNextBy(S.TraceAt(h, job.initialTime).value, job, secs, j, branches, next, order, b)
  }

  ghost predicate IsNextBy(past: seq<Mode>, job: Job, secs: seq<SectionValue>, j: Job, branches: seq<Branch>,
                           next: map<Mode, real>, order: seq<Mode>, b: Branch)
  {
    AreNext(past, Branch(job.trace, job.path), NextJobs(branches), next, order) && b in branches
    && j == NextJob(job, b, secs)
  }

  ghost predicate Guarded(robot: Robot, h: History, s: nat, t: nat) {
    Histories.Valid(robot, h) && S.CanLookAhead(robot, h, s, t) == Some(true)
  }

  ghost predicate AwakensBy(c: Setting, h: History, job: Job, time: nat, human: Option<Capsule>, woken: seq<F.Woken>,
                            before: set<Choices>, after: set<Choices>) {
    F.IsAwakening(c.metric, c.robot, c.view, h, c.strong, job, time, human, F.Awakening(woken), before, after)
  }

  ghost predicate AwakensTo(c: Setting, h: History, job: Job, time: nat, human: Option<Capsule>, woken: seq<F.Woken>) {
    exists before, after :: AwakensBy(c, h, job, time, human, woken, before, after)
  }

  /** Whether a next job is put to wait: not if its path is longer and has been registered for another. */
  predicate IsUnregistered(s: System, job: Job, j: Job) {
    |j.path| <= |job.path| || Priorities(j.path) !in s.PathsAt(Key(j.initialTime, j.id))
  }

  /** Of the jobs into the predicted modes, those that are unregistered. */
  ghost predicate AreUnregistered(s: System, job: Job, secs: seq<SectionValue>, jobs: set<Job>, branches: seq<Branch>,
                                  next: map<Mode, real>, order: seq<Mode>)
  {
    && S.TraceAt(s.history, job.initialTime).Some?
    && AreNext(S.TraceAt(s.history, job.initialTime).value, Branch(job.trace, job.path), NextJobs(branches), next,
               order)
    && forall j :: j in jobs <==> IsUnregistered(s, job, j) && exists b :: b in branches && j == NextJob(job, b, secs)
  }

  /** The jobs that are put to wait after a scan: none after a collision or a loop, else all next jobs but those
      registered for another. */
  ghost predicate NextAre(s: System, job: Job, r: int, secs: seq<SectionValue>, jobs: set<Job>) {
    if r != -1 || Looped(ModesOf(job.trace)) then jobs == {}
    else exists branches, next, order :: AreUnregistered(s, job, secs, jobs, branches, next, order)
  }

  lemma EachIsNext(s: System, job: Job, r: int, secs: seq<SectionValue>, jobs: set<Job>, j: Job)
    requires NextAre(s, job, r, secs, jobs) && j in jobs
    ensures r == -1 && IsNext(s.history, job, secs, j) && IsUnregistered(s, job, j)
  {
    hide IsUnregistered, AreNext, S.TraceAt, NextJob, Looped;
    var branches, next, order :| AreUnregistered(s, job, secs, jobs, branches, next, order);
    var b :| b in branches && j == NextJob(job, b, secs);
    assert IsNextBy(S.TraceAt(s.history, job.initialTime).value, job, secs, j, branches, next, order, b);
  }

  /** Whether waking the job registers the time. */
  ghost predicate RegistersTime(c: Setting, h: History, job: Job, time: nat, human: Option<Capsule>) {
    F.Registers(c.metric, c.robot, c.view, h, c.strong, job, time, human)
  }

  /** When a step can be taken, and what it may come to: scans and awakenings are known by what their methods ensure
      of them, where they require nothing that does not hold. */
  ghost predicate Takes(c: Setting, s: System, step: Step) {
    && Histories.Valid(c.robot, s.history)
    && match step
       case Acquire(mode, os, t) => s.history.latestTime < t && !mode.IsEmpty() && |os| == c.robot.segments
       case Purge(cutoff) => Purgeable(s.history, cutoff)
       case Create(id, time, human, asleep) =>
         && Guarded(c.robot, s.history, time, time) && id.robotSegment < c.robot.segments
         && AcceptsTime(s.times, time) && !Blocked(s.PathsAt(Key(time, id)), [])
       case Scan(job, r, secs, next) =>
         && job in s.waiting
         && (Scannable(c.robot, c.view, s.history, job) && Resumable(c.metric, c.robot, c.view, s.history, job) ==>
               IsScan(c.metric, c.robot, c.view, s.history, c.intersects, job, r, secs))
         && NextAre(s, job, r, secs, next)
       case Wake(sleeper, time, human, woken, registered) =>
         && sleeper in s.sleeping && sleeper.job.initialTime < time
         && Guarded(c.robot, s.history, sleeper.job.snapshotTime, time)
         && (RegistersTime(c, s.history, sleeper.job, time, human) ==> AcceptsTime(s.times, time))
         && AwakensBy(c, s.history, sleeper.job, time, human, woken, s.PathsAt(Key(time, sleeper.job.id)), registered)
  }

  function WokenToWait(woken: seq<F.Woken>): set<Job> {
    set w | w in woken && w.result.Different? :: w.job
  }

  /** A completed job has the barriers it was completed with; one that could not be computed, those it had. */
  function WokenToSleep(basis: Job, woken: seq<F.Woken>): set<Sleeper> {
    set w | w in woken && !w.result.Different? :: Sleeper(w.job, if w.result.Uncomputable? then basis else w.job)
  }

  /** A job that collided, or has looped, is put to sleep; another is replaced by its next jobs. */
  ghost function After(c: Setting, s: System, step: Step): System
    requires Takes(c, s, step)
  {
    match step
    case Acquire(mode, os, t) => s.(history := Acquired(c.robot, s.history, mode, os, t))
    case Purge(cutoff) => s.(history := Purged(c.robot, s.history, cutoff))
    case Create(id, time, human, asleep) =>
      var job, key := NewJob(id, time, human, S.ModeAt(s.history, time)), Key(time, id);
      var s' := s.(times := TimesAfter(s.times, time), paths := s.paths[key := s.PathsAt(key) + {[]}]);
      if asleep then s'.(sleeping := s.sleeping + {Sleeper(job, job)}) else s'.(waiting := s.waiting + {job})
    case Scan(job, r, secs, next) =>
      if r == -1 && !Looped(ModesOf(job.trace)) then s.(waiting := s.waiting - {job} + next)
      else
        s.(waiting := s.waiting - {job},
           sleeping := s.sleeping + {Sleeper(Scanned(job, secs), Scanned(job, secs))})
    case Wake(sleeper, time, human, woken, registered) =>
      s.(waiting := s.waiting + WokenToWait(woken),
         sleeping := s.sleeping - {sleeper} + WokenToSleep(sleeper.basis, woken),
         times := if RegistersTime(c, s.history, sleeper.job, time, human) then TimesAfter(s.times, time) else s.times,
         paths := s.paths[Key(time, sleeper.job.id) := registered])
  }

  /* The conditions under which reuse is right */

  /** A stay in the last mode of the trace had ended by the snapshot. */
  predicate LastLeft(h: History, job: Job) {
    job.trace != [] && LeftBy(h, job.trace[|job.trace| - 1].mode, job.snapshotTime)
  }

  /** Under strong equivalence, no mode that may be reused was exited since the barriers were made; under weak
      equivalence, the robot has not gone back in the mode it is in. */
  ghost predicate Preserved(c: Setting, h: History, basis: Job, time: nat) {
    forall lower: nat :: IsFirst(ModesOf(basis.trace), S.ModeAt(h, time), lower) ==>
      if c.strong then ReusedNotExited(h, ModesOf(basis.trace), lower, basis.initialTime, time)
      else lower > 0 || NotBack(c.robot, h, basis, time)
  }

  predicate NotBack(robot: Robot, h: History, basis: Job, time: nat) {
    basis.trace != [] &&
    var before, now := StartOf(robot, h, basis),
                       S.CheckedSampleIndex(robot, h, basis.snapshotTime, S.ModeAt(h, time), time);
    before.Some? && now.Some? ==> before.value <= now.value
  }

  /** Distances from the samples that may be skipped are exact enough for the new human. */
  ghost predicate Measured(c: Setting, h: History, basis: Job, human: Capsule) {
    R.ReuseSoundForAll(c.metric, basis.secs, human, EnvironmentOf(SamplesOf(c.view, h, basis)))
  }

  /** A step is faithful if what it reuses holds, if a purge retains what the jobs look ahead over, and if, as is only
      in doubt under weak equivalence, the snapshots of the jobs it puts to work know their last modes. */
  ghost predicate Faithful(c: Setting, s: System, step: Step) {
    match step
    case Acquire(mode, os, t) => true
    case Purge(cutoff) =>
      && (forall j :: j in s.waiting ==> Retains(c.robot, s.history, cutoff, j))
      && (forall sl :: sl in s.sleeping ==> Retains(c.robot, s.history, cutoff, sl.basis))
    case Create(id, time, human, asleep) => true
    case Scan(job, r, secs, next) => c.strong || forall j :: j in next ==> LastLeft(s.history, j)
    case Wake(sleeper, time, human, woken, registered) =>
      human.Some? ==>
        && Preserved(c, s.history, sleeper.basis, time) && Measured(c, s.history, sleeper.basis, human.value)
        && (c.strong || forall w :: w in woken ==> LastLeft(s.history, w.job))
  }

  /* The invariant */

  predicate OwnSnapshot(c: Setting, job: Job) {
    c.strong ==> job.snapshotTime == job.initialTime
  }

  ghost predicate IsWaiting(c: Setting, h: History, job: Job)
    requires Chained(h.presences)
  {
    && Predicted(c.robot, h, job) && Known(h, job) && OwnSnapshot(c, job)
    && Scannable(c.robot, c.view, h, job) && Resumable(c.metric, c.robot, c.view, h, job)
  }

  ghost predicate IsBasis(c: Setting, h: History, job: Job)
    requires Chained(h.presences)
  {
    && Predicted(c.robot, h, job) && Known(h, job) && OwnSnapshot(c, job)
    && Tracked(c.metric, c.robot, c.view, h, job)
  }

  predicate HasTimesOf(c: Setting, h: History, sl: Sleeper) {
    && sl.job == sl.basis.(initialTime := sl.job.initialTime, snapshotTime := sl.job.snapshotTime)
    && sl.basis.initialTime <= sl.job.initialTime <= h.latestTime
    && sl.job.snapshotTime == if c.strong then sl.job.initialTime else sl.basis.snapshotTime
  }

  ghost predicate IsAsleep(c: Setting, h: History, sl: Sleeper)
    requires Chained(h.presences)
  {
    HasTimesOf(c, h, sl) && IsBasis(c, h, sl.basis)
  }

  /** Every job that waits can be scanned and its barriers hold; every job that sleeps can be woken. */
  ghost predicate Inv(c: Setting, s: System) {
    && Histories.Valid(c.robot, s.history) && Chained(s.history.presences)
    && (forall j :: j in s.waiting ==> IsWaiting(c, s.history, j))
    && (forall sl :: sl in s.sleeping ==> IsAsleep(c, s.history, sl))
  }

  /* Each step keeps it */

  lemma WaitingLasts(c: Setting, h: History, j: Job, mode: Mode, os: seq<Observation>, t: nat)
    requires Histories.Valid(c.robot, h) && Chained(h.presences) && IsWaiting(c, h, j)
    requires h.latestTime < t && !mode.IsEmpty() && |os| == c.robot.segments
    ensures Chained(Acquired(c.robot, h, mode, os, t).presences)
    ensures IsWaiting(c, Acquired(c.robot, h, mode, os, t), j)
  {
    hide Histories.Valid, Acquired, Predicted, Known, Scannable, Resumable, Tracked;
    PredictedLasts(c.robot, c.view, h, j, mode, os, t);
    PredictedParts(c.robot, h, j);
    ResumableLasts(c.metric, c.robot, c.view, h, j, mode, os, t);
  }

  lemma BasisLasts(c: Setting, h: History, j: Job, mode: Mode, os: seq<Observation>, t: nat)
    requires Histories.Valid(c.robot, h) && Chained(h.presences) && IsBasis(c, h, j)
    requires h.latestTime < t && !mode.IsEmpty() && |os| == c.robot.segments
    ensures Chained(Acquired(c.robot, h, mode, os, t).presences)
    ensures IsBasis(c, Acquired(c.robot, h, mode, os, t), j)
  {
    hide Histories.Valid, Acquired, Predicted, Known, Scannable, Resumable, Tracked;
    PredictedLasts(c.robot, c.view, h, j, mode, os, t);
    PredictedParts(c.robot, h, j);
    ResumableLasts(c.metric, c.robot, c.view, h, j, mode, os, t);
  }

  lemma AcquireKeeps(c: Setting, s: System, mode: Mode, os: seq<Observation>, t: nat)
    requires Inv(c, s) && s.history.latestTime < t && !mode.IsEmpty() && |os| == c.robot.segments
    ensures Inv(c, s.(history := Acquired(c.robot, s.history, mode, os, t)))
  {
    var h := s.history;
    var h' := Acquired(c.robot, h, mode, os, t);
    AcquiredValid(c.robot, h, mode, os, t);
    ValidChained(c.robot, h');
    S.AcquiredAppends(c.robot, h, mode, os, t, mode);
    hide Histories.Valid, Acquired, IsWaiting, IsBasis;
    forall j | j in s.waiting ensures IsWaiting(c, h', j) { WaitingLasts(c, h, j, mode, os, t); }
    forall sl | sl in s.sleeping ensures IsAsleep(c, h', sl) { BasisLasts(c, h, sl.basis, mode, os, t); }
  }

  /** A purge keeps the invariant if it retains what each job looks ahead over. */
  lemma PurgeKeeps(c: Setting, s: System, cutoff: nat)
    requires Inv(c, s) && Purgeable(s.history, cutoff)
    requires forall j :: j in s.waiting ==> Retains(c.robot, s.history, cutoff, j)
    requires forall sl :: sl in s.sleeping ==> Retains(c.robot, s.history, cutoff, sl.basis)
    ensures Inv(c, s.(history := Purged(c.robot, s.history, cutoff)))
  {
    hide Histories.Valid, Purged, Purgeable, IsWaiting, IsBasis, Retains, Chained;
    var h := s.history;
    PurgedIs(c.robot, h, cutoff);
    var h' := Purged(c.robot, h, cutoff);
    forall j | j in s.waiting ensures IsWaiting(c, h', j) { PurgeKeepsWaiting(c, h, cutoff, j); }
    forall sl | sl in s.sleeping ensures IsAsleep(c, h', sl) { PurgeKeepsBasis(c, h, cutoff, sl.basis); }
  }

  /** And only then. */
  lemma PurgeKeepsIff(c: Setting, s: System, cutoff: nat)
    requires Inv(c, s) && Purgeable(s.history, cutoff)
    ensures Inv(c, s.(history := Purged(c.robot, s.history, cutoff))) <==>
            && (forall j :: j in s.waiting ==> Retains(c.robot, s.history, cutoff, j))
            && (forall sl :: sl in s.sleeping ==> Retains(c.robot, s.history, cutoff, sl.basis))
  {
    hide Histories.Valid, Purged, Purgeable, Retains, Chained, Predicted, Known, Scannable, Resumable, Tracked;
    var h := s.history;
    PurgedIs(c.robot, h, cutoff);
    if Inv(c, s.(history := Purged(c.robot, h, cutoff))) {
      forall j | j in s.waiting ensures Retains(c.robot, h, cutoff, j) {
        PurgeKeepsPredictedIff(c.robot, h, cutoff, j);
      }
      forall sl | sl in s.sleeping ensures Retains(c.robot, h, cutoff, sl.basis) {
        PurgeKeepsPredictedIff(c.robot, h, cutoff, sl.basis);
      }
    } else if (forall j :: j in s.waiting ==> Retains(c.robot, h, cutoff, j))
              && (forall sl :: sl in s.sleeping ==> Retains(c.robot, h, cutoff, sl.basis)) {
      PurgeKeeps(c, s, cutoff);
    }
  }

  lemma PurgedIs(robot: Robot, h: History, cutoff: nat)
    requires Histories.Valid(robot, h) && Purgeable(h, cutoff)
    ensures var h' := Purged(robot, h, cutoff);
            Histories.Valid(robot, h') && Chained(h'.presences) && h'.latestTime == h.latestTime
  {
    PurgedValid(robot, h, cutoff);
    ValidChained(robot, Purged(robot, h, cutoff));
    hide Histories.Valid;
  }

  lemma PurgeKeepsWaiting(c: Setting, h: History, cutoff: nat, j: Job)
    requires Histories.Valid(c.robot, h) && Purgeable(h, cutoff) && Chained(h.presences) && IsWaiting(c, h, j)
    requires Retains(c.robot, h, cutoff, j)
    ensures Chained(Purged(c.robot, h, cutoff).presences) && IsWaiting(c, Purged(c.robot, h, cutoff), j)
  {
    hide Histories.Valid, Purged, Purgeable, Predicted, Known, Scannable, Resumable, Tracked, Retains, Chained;
    PurgeKeepsPredictedIff(c.robot, h, cutoff, j);
    PurgeKeepsJob(c.metric, c.robot, c.view, h, cutoff, j);
  }

  lemma PurgeKeepsBasis(c: Setting, h: History, cutoff: nat, j: Job)
    requires Histories.Valid(c.robot, h) && Purgeable(h, cutoff) && Chained(h.presences) && IsBasis(c, h, j)
    requires Retains(c.robot, h, cutoff, j)
    ensures Chained(Purged(c.robot, h, cutoff).presences) && IsBasis(c, Purged(c.robot, h, cutoff), j)
  {
    hide Histories.Valid, Purged, Purgeable, Predicted, Known, Scannable, Resumable, Tracked, Retains, Chained;
    PurgeKeepsPredictedIff(c.robot, h, cutoff, j);
    PurgeKeepsJob(c.metric, c.robot, c.view, h, cutoff, j);
  }

  lemma WaitingIsBasis(c: Setting, h: History, job: Job)
    requires Chained(h.presences) && IsWaiting(c, h, job)
    ensures IsBasis(c, h, job) && IsAsleep(c, h, Sleeper(job, job))
  {
    PredictedParts(c.robot, h, job);
    hide Predicted, Known, Scannable, Resumable, Tracked;
    ResumableTracked(c.metric, c.robot, c.view, h, job);
  }

  lemma ResumableTracked(m: Metric, robot: Robot, view: View, h: History, job: Job)
    requires Resumable(m, robot, view, h, job)
    ensures Tracked(m, robot, view, h, job)
  {
    hide Ready, SectionLists.Tracks, StartOf, SamplesOf, EnvironmentOf, FitsTrace, Distinct, SectionsWellFormed,
         ScanFrom;
    ReadyTracks(m, job.secs, EnvironmentOf(SamplesOf(view, h, job)),
                TraceSampleIndex(0, StartOf(robot, h, job).value), ScanFrom(job.secs, |job.trace| - 1), job.human);
  }

  lemma ReadyTracks(m: Metric, secs: seq<SectionValue>, env: Environment, start: TraceSampleIndex,
                    next: TraceSampleIndex, human: Capsule)
    requires Ready(m, secs, env, start, next, human)
    ensures SectionLists.Tracks(m, secs, env, start, next)
  {
  }

  lemma CreateKeeps(c: Setting, h: History, id: LookAheadJobIdentifier, time: nat, human: Capsule)
    requires Guarded(c.robot, h, time, time) && id.robotSegment < c.robot.segments && Chained(h.presences)
    ensures IsWaiting(c, h, NewJob(id, time, human, S.ModeAt(h, time)))
    ensures var job := NewJob(id, time, human, S.ModeAt(h, time)); IsAsleep(c, h, Sleeper(job, job))
  {
    var job := NewJob(id, time, human, S.ModeAt(h, time));
    NewTimes(id, time, human, S.ModeAt(h, time));
    hide NewJob, Predicted, Known, Scannable, Resumable, S.ModeAt, S.CanLookAhead, Histories.Valid, IsAsleep, IsBasis;
    StartedReady(c.metric, c.robot, c.view, h, time, id, time, human);
    WaitingIsBasis(c, h, job);
  }

  /** The job that is left by a scan, and goes to sleep. */
  lemma ScannedKeeps(c: Setting, h: History, job: Job, r: int, secs: seq<SectionValue>)
    requires Chained(h.presences) && IsWaiting(c, h, job)
    requires IsScan(c.metric, c.robot, c.view, h, c.intersects, job, r, secs)
    ensures SectionsWellFormed(secs)
    ensures IsAsleep(c, h, Sleeper(Scanned(job, secs), Scanned(job, secs)))
  {
    var j := Scanned(job, secs);
    hide Verdict, Ready, Scannable, Resumable, SectionLists.Tracks, Longest, S.ModeAt, S.TraceAt, Reachable,
         S.CheckedSampleIndex, FitsTrace, Distinct, S.StoredAt, SectionsWellFormed, SamplesOf, EnvironmentOf;
  }

  lemma NextKeeps(c: Setting, h: History, job: Job, r: int, secs: seq<SectionValue>, j: Job)
    requires Histories.Valid(c.robot, h) && Chained(h.presences) && IsWaiting(c, h, job)
    requires IsScan(c.metric, c.robot, c.view, h, c.intersects, job, r, secs) && r == -1
    requires IsNext(h, job, secs, j) && (c.strong || LastLeft(h, j))
    ensures IsWaiting(c, h, j)
  {
    hide *;
    WaitingParts(c, h, job);
    PredictedParts(c.robot, h, job);
    var past := S.TraceAt(h, job.initialTime).value;
    var branches, next, order, b := NextBy(h, job, secs, j);
    var mode, p := NextIs(past, job, branches, next, order, b);
    ScanParts(c, h, job, r, secs);
    NextPredicted(c.robot, c.view, h, job, branches, next, order, b, secs);
    NextResumable(c.metric, c.robot, c.view, h, job, secs, mode, p, b.path);
    PredictedParts(c.robot, h, j);
    NextAssembledHere(c, h, job, secs, j, b, mode, p);
  }

  lemma WaitingParts(c: Setting, h: History, job: Job)
    requires Chained(h.presences) && IsWaiting(c, h, job)
    ensures Predicted(c.robot, h, job) && Known(h, job) && (c.strong ==> job.snapshotTime == job.initialTime)
    ensures Scannable(c.robot, c.view, h, job) && Resumable(c.metric, c.robot, c.view, h, job)
  {
    hide Predicted, Known, Scannable, Resumable;
  }

  lemma NextBy(h: History, job: Job, secs: seq<SectionValue>, j: Job)
    returns (branches: seq<Branch>, next: map<Mode, real>, order: seq<Mode>, b: Branch)
    requires IsNext(h, job, secs, j)
    ensures S.TraceAt(h, job.initialTime).Some?
    ensures AreNext(S.TraceAt(h, job.initialTime).value, Branch(job.trace, job.path), NextJobs(branches), next, order)
    ensures b in branches && j == NextJob(job, b, secs)
  {
    hide AreNext, S.TraceAt, NextJob;
    branches, next, order, b :|
      IsNextBy(S.TraceAt(h, job.initialTime).value, job, secs, j, branches, next, order, b);
  }

  lemma ScanParts(c: Setting, h: History, job: Job, r: int, secs: seq<SectionValue>)
    requires Scannable(c.robot, c.view, h, job) && r == -1 && !Looped(ModesOf(job.trace))
    requires IsScan(c.metric, c.robot, c.view, h, c.intersects, job, r, secs) && job.trace != []
    requires StartOf(c.robot, h, job).Some?
    ensures SectionsWellFormed(secs)
    ensures Ready(c.metric, secs, EnvironmentOf(SamplesOf(c.view, h, job)),
                  TraceSampleIndex(0, StartOf(c.robot, h, job).value), TraceSampleIndex(|job.trace|, 0), job.human)
  {
    hide Verdict, Scannable, SectionLists.Tracks, StartOf, SamplesOf, EnvironmentOf, Distinct, FitsTrace, Looped;
  }

  lemma NextAssembledHere(c: Setting, h: History, job: Job, secs: seq<SectionValue>, j: Job, b: Branch, mode: Mode,
                          p: real)
    requires Chained(h.presences) && j == NextJob(job, b, secs) && b.trace == Continued(job.trace, mode, p)
    requires Predicted(c.robot, h, j) && Known(h, job) && (c.strong || LastLeft(h, j))
    requires c.strong ==> job.snapshotTime == job.initialTime
    requires j.trace != [] &&
             (Scannable(c.robot, c.view, h, j) <==> LeftBy(h, j.trace[|j.trace| - 1].mode, j.snapshotTime))
    requires Known(h, job) && Scannable(c.robot, c.view, h, j) ==> Known(h, j)
    requires job.snapshotTime == job.initialTime ==> Known(h, j) && Scannable(c.robot, c.view, h, j)
    requires Resumable(c.metric, c.robot, c.view, h,
                       job.(trace := Continued(job.trace, mode, p), path := b.path, secs := secs))
    ensures IsWaiting(c, h, j)
  {
    hide Predicted, Known, Scannable, Resumable, LeftBy;
  }

  /** What is known of the job in the basis is known of the job. */
  lemma SleeperParts(c: Setting, h: History, sl: Sleeper)
    requires Histories.Valid(c.robot, h) && Chained(h.presences) && IsAsleep(c, h, sl)
    ensures Foreseen(h, sl.job) && sl.job.Valid() && (!c.strong ==> Known(h, sl.job))
    ensures sl.job.id.robotSegment < c.robot.segments
    ensures sl.job == sl.basis.(initialTime := sl.job.initialTime, snapshotTime := sl.job.snapshotTime)
    ensures !c.strong ==> sl.job.snapshotTime == sl.basis.snapshotTime
    ensures c.strong ==> sl.basis.snapshotTime == sl.basis.initialTime
    ensures sl.basis.initialTime <= sl.job.initialTime && sl.job.snapshotTime <= sl.job.initialTime
  {
    hide *;
    AsleepIs(c, h, sl);
    PredictedParts(c.robot, h, sl.basis);
    PredictedForeseen(c.robot, h, sl.basis);
    ForeseenLater(c.robot, h, sl.basis, sl.job.initialTime);
    SameButTimes(c, h, sl);
  }

  lemma AsleepIs(c: Setting, h: History, sl: Sleeper)
    requires Chained(h.presences) && IsAsleep(c, h, sl)
    ensures HasTimesOf(c, h, sl) && Predicted(c.robot, h, sl.basis) && Known(h, sl.basis)
    ensures c.strong ==> sl.basis.snapshotTime == sl.basis.initialTime
    ensures sl.basis.initialTime <= sl.job.initialTime
  {
    hide Predicted, Known, Tracked;
  }

  lemma SameButTimes(c: Setting, h: History, sl: Sleeper)
    requires HasTimesOf(c, h, sl) && Known(h, sl.basis) && sl.basis.Valid()
    requires sl.basis.snapshotTime <= sl.basis.initialTime
    requires S.TraceAt(h, sl.job.initialTime).Some? && sl.basis.id.robotSegment < c.robot.segments
    requires forall m :: m in ModesOf(sl.basis.trace) ==> m in S.TraceAt(h, sl.job.initialTime).value
    ensures Foreseen(h, sl.job) && sl.job.Valid() && (!c.strong ==> Known(h, sl.job))
    ensures sl.job.id.robotSegment < c.robot.segments
    ensures sl.job == sl.basis.(initialTime := sl.job.initialTime, snapshotTime := sl.job.snapshotTime)
    ensures !c.strong ==> sl.job.snapshotTime == sl.basis.snapshotTime
    ensures sl.job.snapshotTime <= sl.job.initialTime
  {
    hide S.TraceAt, FitsTrace, Distinct, SectionsWellFormed, S.StoredAt;
  }

  /** An awakening without a human sample leaves the barriers as they were, and the job asleep. */
  lemma UncomputableKeeps(c: Setting, h: History, sl: Sleeper, time: nat)
    requires Histories.Valid(c.robot, h) && Chained(h.presences) && IsAsleep(c, h, sl)
    requires sl.job.initialTime < time <= h.latestTime
    ensures var job := sl.job.(initialTime := time, snapshotTime := F.SnapshotFor(c.strong, sl.job, time));
            IsAsleep(c, h, Sleeper(job, sl.basis))
  {
    hide IsBasis;
  }

  /** A job that goes on may be relied on, if what it reuses holds. */
  lemma GoesOnHolds(c: Setting, h: History, sl: Sleeper, time: nat, human: Capsule, j: Job, lower: nat)
    requires Histories.Valid(c.robot, h) && Chained(h.presences) && IsAsleep(c, h, sl) && sl.job.initialTime < time
    requires Preserved(c, h, sl.basis, time) && Measured(c, h, sl.basis, human)
    requires GoesOn(c.metric, c.robot, c.view, h, c.strong, sl.job, j, human, S.ModeAt(h, time), time, lower)
    ensures Resumable(c.metric, c.robot, c.view, h, j)
  {
    hide *;
    var mode := S.ModeAt(h, time);
    SleeperParts(c, h, sl);
    BasisParts(c, h, sl);
    GoesOnFromBasis(c.metric, c.robot, c.view, h, c.strong, sl.basis, sl.job, j, human, mode, time, lower);
    GoesOnTimes(c.metric, c.robot, c.view, h, c.strong, sl.basis, j, human, mode, time, lower);
    PreservedAt(c, h, sl.basis, time, lower);
    MeasuredIs(c, h, sl.basis, human);
    if c.strong {
      StrongReady(c.metric, c.robot, c.view, h, sl.basis, j, human, time, lower);
    } else {
      if lower == 0 { ForwardStart(c, h, sl, time, human, j); }
      WeakReady(c.metric, c.robot, c.view, h, sl.basis, j, human, mode, time, lower);
    }
  }

  lemma BasisParts(c: Setting, h: History, sl: Sleeper)
    requires Chained(h.presences) && IsAsleep(c, h, sl)
    ensures Tracked(c.metric, c.robot, c.view, h, sl.basis) && sl.basis.trace != []
    ensures S.ModeAt(h, sl.basis.initialTime) == sl.basis.trace[0].mode && StartOf(c.robot, h, sl.basis).Some?
  {
    hide Tracked, Known;
    PredictedParts(c.robot, h, sl.basis);
  }

  lemma PreservedAt(c: Setting, h: History, basis: Job, time: nat, lower: nat)
    requires Preserved(c, h, basis, time) && IsFirst(ModesOf(basis.trace), S.ModeAt(h, time), lower)
    ensures lower < |ModesOf(basis.trace)|
    ensures c.strong ==> ReusedNotExited(h, ModesOf(basis.trace), lower, basis.initialTime, time)
    ensures !c.strong ==> lower > 0 || NotBack(c.robot, h, basis, time)
  {
    hide ReusedNotExited, NotBack, S.ModeAt;
  }

  lemma MeasuredIs(c: Setting, h: History, basis: Job, human: Capsule)
    requires Measured(c, h, basis, human)
    ensures R.ReuseSoundForAll(c.metric, basis.secs, human, EnvironmentOf(SamplesOf(c.view, h, basis)))
  {
  }

  lemma ForwardStart(c: Setting, h: History, sl: Sleeper, time: nat, human: Capsule, j: Job)
    requires NotBack(c.robot, h, sl.basis, time) && j.trace != [] && StartOf(c.robot, h, j).Some?
    requires sl.basis.trace != [] && StartOf(c.robot, h, sl.basis).Some?
    requires j.initialTime == time && j.snapshotTime == F.SnapshotFor(false, sl.basis, time)
    requires j.trace[0].mode == S.ModeAt(h, time)
    ensures StartOf(c.robot, h, sl.basis).value <= StartOf(c.robot, h, j).value
  {
    hide S.CheckedSampleIndex, S.ModeAt;
  }

  /** Every job woken with a human sample can be scanned, or has been completed. */
  lemma CandidateKeeps(c: Setting, h: History, sl: Sleeper, time: nat, human: Capsule, js: seq<Job>, completed: bool,
                       j: Job)
    requires Guarded(c.robot, h, sl.job.snapshotTime, time) && Chained(h.presences) && IsAsleep(c, h, sl)
    requires sl.job.initialTime < time
    requires Preserved(c, h, sl.basis, time) && Measured(c, h, sl.basis, human)
    requires F.AreCandidates(c.metric, c.robot, c.view, h, c.strong, sl.job, time, human, S.ModeAt(h, time), js,
                             completed)
    requires j in js && (c.strong || LastLeft(h, j))
    ensures IsWaiting(c, h, j)
  {
    hide *;
    var mode := S.ModeAt(h, time);
    GuardedIs(c.robot, h, sl.job.snapshotTime, time);
    SleeperParts(c, h, sl);
    WokenPredicted(c.metric, c.robot, c.view, h, c.strong, sl.job, time, human, js, completed, j);
    PredictedParts(c.robot, h, j);
    F.CandidatesGoOn(c.metric, c.robot, c.view, h, c.strong, sl.job, time, human, mode, js, completed, j);
    if Restarted(sl.job, j, human, mode, time) {
      RestartIsNew(sl.job, j, human, mode, time);
      NewTimes(sl.job.id, time, human, mode);
      StartedReady(c.metric, c.robot, c.view, h, sl.job.snapshotTime, sl.job.id, time, human);
    } else {
      var lower :| GoesOn(c.metric, c.robot, c.view, h, c.strong, sl.job, j, human, mode, time, lower);
      GoesOnTimes(c.metric, c.robot, c.view, h, c.strong, sl.job, j, human, mode, time, lower);
      SnapshotIs(c.strong, sl.job, time);
      GoesOnHolds(c, h, sl, time, human, j, lower);
    }
    CandidateAssembled(c, h, j);
  }

  lemma GuardedIs(robot: Robot, h: History, s: nat, t: nat)
    requires Guarded(robot, h, s, t)
    ensures Histories.Valid(robot, h) && S.CanLookAhead(robot, h, s, t) == Some(true)
  {
  }

  lemma CandidateAssembled(c: Setting, h: History, j: Job)
    requires Chained(h.presences) && Predicted(c.robot, h, j) && Resumable(c.metric, c.robot, c.view, h, j)
    requires c.strong ==> Known(h, j) && j.snapshotTime == j.initialTime
    requires j.trace != [] && (c.strong || LastLeft(h, j))
    requires Known(h, j) <==> LeftBy(h, j.trace[|j.trace| - 1].mode, j.snapshotTime)
    requires Scannable(c.robot, c.view, h, j) <==> LeftBy(h, j.trace[|j.trace| - 1].mode, j.snapshotTime)
    ensures IsWaiting(c, h, j)
  {
    hide Predicted, Known, Scannable, Resumable, LeftBy;
  }

  /** Each job that is woken goes where it can be. */
  lemma WokenKeeps(c: Setting, h: History, sl: Sleeper, time: nat, human: Option<Capsule>, woken: seq<F.Woken>,
                   w: F.Woken)
    requires Guarded(c.robot, h, sl.job.snapshotTime, time) && Chained(h.presences) && IsAsleep(c, h, sl)
    requires sl.job.initialTime < time && AwakensTo(c, h, sl.job, time, human, woken) && w in woken
    requires human.Some? ==> Preserved(c, h, sl.basis, time) && Measured(c, h, sl.basis, human.value)
    requires human.Some? && !c.strong ==> LastLeft(h, w.job)
    ensures w.result.Different? ==> IsWaiting(c, h, w.job)
    ensures !w.result.Different? ==> IsAsleep(c, h, Sleeper(w.job, if w.result.Uncomputable? then sl.basis else w.job))
  {
    hide *;
    GuardedIs(c.robot, h, sl.job.snapshotTime, time);
    if human.None? {
      WokenUncomputable(c, h, sl.job, time, woken, w);
      SleeperParts(c, h, sl);
      GuardStart(c.robot, h, sl.job.snapshotTime, time, time);
      UncomputableKeeps(c, h, sl, time);
    } else {
      var js, completed := WokenAmong(c, h, sl.job, time, human.value, woken, w);
      CandidateKeeps(c, h, sl, time, human.value, js, completed, w.job);
      WaitingIsBasis(c, h, w.job);
    }
  }

  lemma WokenUncomputable(c: Setting, h: History, job: Job, time: nat, woken: seq<F.Woken>, w: F.Woken)
    requires job.initialTime < time && AwakensTo(c, h, job, time, None, woken) && w in woken
    ensures w == F.Woken(job.(initialTime := time, snapshotTime := F.SnapshotFor(c.strong, job, time)), F.Uncomputable)
  {
    hide F.AreCandidates, F.Kept, F.SnapshotFor, Blocked;
  }

  lemma WokenAmong(c: Setting, h: History, job: Job, time: nat, human: Capsule, woken: seq<F.Woken>, w: F.Woken)
    returns (js: seq<Job>, completed: bool)
    requires job.initialTime < time && AwakensTo(c, h, job, time, Some(human), woken) && w in woken
    ensures F.AreCandidates(c.metric, c.robot, c.view, h, c.strong, job, time, human, S.ModeAt(h, time), js, completed)
    ensures w.job in js && !w.result.Uncomputable?
  {
    hide F.AreCandidates, S.ModeAt, Blocked;
    var before, after :| AwakensBy(c, h, job, time, Some(human), woken, before, after);
    js, completed :|
      F.AreCandidates(c.metric, c.robot, c.view, h, c.strong, job, time, human, S.ModeAt(h, time), js, completed)
      && F.Kept(js, completed, woken, before, after);
  }

  /** Every step keeps the invariant. */
  lemma StepInv(c: Setting, s: System, step: Step)
    requires Inv(c, s) && Takes(c, s, step) && Faithful(c, s, step)
    ensures Inv(c, After(c, s, step))
  {
    hide Predicted, Known, Scannable, Resumable, IsWaiting, IsAsleep, Guarded, AwakensBy, IsNext, IsScan, Preserved,
         Measured, LastLeft, Histories.Valid, S.ModeAt, Looped, Scanned, Acquired, NewJob, Purgeable, Purged, Retains,
         RegistersTime, AcceptsTime, TimesAfter, Blocked, IsUnregistered, NextAre;
    var h := s.history;
    match step
    case Acquire(mode, os, t) => AcquireKeeps(c, s, mode, os, t);
    case Purge(cutoff) => PurgeKeeps(c, s, cutoff);
    case Create(id, time, human, asleep) => CreateKeeps(c, h, id, time, human);
    case Scan(job, r, secs, next) =>
      WaitingParts(c, h, job);
      ScannedKeeps(c, h, job, r, secs);
      forall j | j in next ensures IsWaiting(c, h, j) {
        EachIsNext(s, job, r, secs, next, j);
        NextKeeps(c, h, job, r, secs, j);
      }
    case Wake(sl, time, human, woken, registered) =>
      assert AwakensTo(c, h, sl.job, time, human, woken);
      forall w | w in woken
        ensures w.result.Different? ==> IsWaiting(c, h, w.job)
        ensures !w.result.Different? ==>
                  IsAsleep(c, h, Sleeper(w.job, if w.result.Uncomputable? then sl.basis else w.job))
      {
        WokenKeeps(c, h, sl, time, human, woken, w);
      }
  }

  /** A run from a system without jobs, each of whose steps is faithful. */
  ghost predicate IsRun(c: Setting, states: seq<System>, steps: seq<Step>) {
    && |states| == |steps| + 1 && c.Agrees()
    && Histories.Valid(c.robot, states[0].history) && states[0].waiting == {} && states[0].sleeping == {}
    && states[0].times == [] && states[0].paths == map[]
    && forall i :: 0 <= i < |steps| ==> Moves(c, states, steps, i)
  }

  ghost predicate Moves(c: Setting, states: seq<System>, steps: seq<Step>, i: nat)
    requires |states| == |steps| + 1 && i < |steps|
  {
    Takes(c, states[i], steps[i]) && Faithful(c, states[i], steps[i]) && states[i + 1] == After(c, states[i], steps[i])
  }

  /** In every run, whatever happens in what order: every job that waits can be scanned, and its barriers hold. */
  lemma {:induction false} RunInv(c: Setting, states: seq<System>, steps: seq<Step>, i: nat)
    requires IsRun(c, states, steps) && i <= |steps|
    ensures Inv(c, states[i])
  {
    hide Takes, Faithful, After, IsWaiting, IsAsleep, Histories.Valid;
    if i == 0 {
      ValidChained(c.robot, states[0].history);
    } else {
      RunInv(c, states, steps, i - 1);
      assert Moves(c, states, steps, i - 1);
      StepInv(c, states[i - 1], steps[i - 1]);
    }
  }

  /** There is a job into mode m, in wait after the step, or registered for another before it. */
  ghost predicate Followed(s: System, s': System, job: Job, secs: seq<SectionValue>, m: Mode, p: real) {
    exists j: Job ::
      && j == job.(trace := Continued(job.trace, m, p), path := j.path, secs := secs)
      && (j in s'.waiting || Priorities(j.path) in s.PathsAt(Key(j.initialTime, j.id)))
  }

  /** The modes predicted after the job's trace, and how likely each is. */
  ghost predicate IsPredicted(h: History, job: Job, k: nat, next: map<Mode, real>) {
    var past := S.TraceAt(h, job.initialTime);
    && past.Some? && past.value != [] && job.trace != [] && FullTrace(past.value, job.trace) != []
    && IsPrediction(FullTrace(past.value, job.trace), k, next)
  }

  /** No predicted mode is dropped: after a clear scan that has not looped some mode is predicted, and each that is
      gets followed. */
  lemma RunFollowsAll(c: Setting, states: seq<System>, steps: seq<Step>, i: nat)
    returns (k: nat, next: map<Mode, real>)
    requires IsRun(c, states, steps) && i < |steps| && steps[i].Scan? && steps[i].index == -1
    requires !Looped(ModesOf(steps[i].job.trace))
    ensures IsPredicted(states[i].history, steps[i].job, k, next) && next != map[]
    ensures forall m :: m in next ==>
              Followed(states[i], states[i + 1], steps[i].job, steps[i].secs, m, next[m])
  {
    assert Moves(c, states, steps, i);
    hide IsNext, IsScan, Histories.Valid, Looped, AreUnregistered, IsPredicted, Faithful, Followed;
    var s, job, secs := states[i], steps[i].job, steps[i].secs;
    var branches, order;
    branches, next, order :| AreUnregistered(s, job, secs, steps[i].next, branches, next, order);
    k := SomePredicted(s, job, secs, steps[i].next, branches, next, order);
    forall m | m in next ensures Followed(s, states[i + 1], job, secs, m, next[m]) {
      EachFollowed(s, states[i + 1], job, secs, steps[i].next, branches, next, order, m);
    }
  }

  lemma SomePredicted(s: System, job: Job, secs: seq<SectionValue>, jobs: set<Job>, branches: seq<Branch>,
                      next: map<Mode, real>, order: seq<Mode>) returns (k: nat)
    requires AreUnregistered(s, job, secs, jobs, branches, next, order) && !Looped(ModesOf(job.trace))
    ensures IsPredicted(s.history, job, k, next) && next != map[]
  {
    hide IsUnregistered, NextJob, Looped, IsPrediction, AreBranches, S.TraceAt;
    var past := S.TraceAt(s.history, job.initialTime).value;
    FullTraceParts(past, job.trace);
    k :| IsPrediction(FullTrace(past, job.trace), k, next);
  }

  lemma EachFollowed(s: System, s': System, job: Job, secs: seq<SectionValue>, jobs: set<Job>, branches: seq<Branch>,
                     next: map<Mode, real>, order: seq<Mode>, m: Mode)
    requires AreUnregistered(s, job, secs, jobs, branches, next, order) && !Looped(ModesOf(job.trace)) && m in next
    requires jobs <= s'.waiting
    ensures Followed(s, s', job, secs, m, next[m])
  {
    hide Looped, IsPrediction, S.TraceAt, FullTrace;
    var i :| 0 <= i < |order| && order[i] == m;
    var j := NextJob(job, branches[i], secs);
    assert branches[i] in branches;
    assert IsUnregistered(s, job, j) ==> j in jobs;
  }

  /** So every scan in every run gives the right verdict, though it skips what the barriers cover. */
  lemma RunVerdicts(c: Setting, states: seq<System>, steps: seq<Step>, i: nat)
    requires IsRun(c, states, steps) && i < |steps| && steps[i].Scan?
    ensures var job, h := steps[i].job, states[i].history;
            && Scannable(c.robot, c.view, h, job)
            && Verdict(c.robot, c.view, h, c.intersects, job, steps[i].index)
  {
    RunInv(c, states, steps, i);
    assert Moves(c, states, steps, i);
    WaitingParts(c, states[i].history, steps[i].job);
    hide Predicted, Known, Scannable, Resumable, IsWaiting, IsAsleep, IsNext, Verdict, Tracked, Ready, Histories.Valid;
  }

  /** What the method that scans requires, wherever a run has come to: so that it can be called for every job that
      waits. */
  lemma RunScannable(c: Setting, states: seq<System>, steps: seq<Step>, i: nat, job: Job)
    requires IsRun(c, states, steps) && i <= |steps| && job in states[i].waiting
    ensures var h := states[i].history;
            && Histories.Valid(c.robot, h) && Scannable(c.robot, c.view, h, job)
            && Resumable(c.metric, c.robot, c.view, h, job)
            && Agree(c.metric, c.intersects, job.human, EnvironmentOf(SamplesOf(c.view, h, job)))
  {
    RunInv(c, states, steps, i);
    WaitingParts(c, states[i].history, job);
    hide Predicted, Known, Scannable, Resumable, IsWaiting, IsAsleep, Histories.Valid, EnvironmentOf, SamplesOf,
         Moves;
  }

  /** And for every job that sleeps, asking the guard never fails, and the history supports its awakening where the
      guard is met: so `Awaken` fails exactly if it registers a time that is not accepted. */
  lemma RunAnswered(c: Setting, states: seq<System>, steps: seq<Step>, i: nat, sl: Sleeper, time: nat)
    requires IsRun(c, states, steps) && i <= |steps| && sl in states[i].sleeping
    ensures var h := states[i].history;
            && Chained(h.presences) && P.Answered(c.robot, h, c.strong, sl.job, time)
            && sl.job.Valid() && sl.job.id.robotSegment < c.robot.segments
  {
    hide *;
    RunLength(c, states, steps);
    RunInv(c, states, steps, i);
    InvAt(c, states[i], sl);
    SleeperParts(c, states[i].history, sl);
    if sl.job.initialTime < time { SleeperAnswered(c, states[i].history, sl, time); }
    AnsweredIs(c, states[i].history, sl.job, time);
  }

  lemma RunLength(c: Setting, states: seq<System>, steps: seq<Step>)
    requires IsRun(c, states, steps)
    ensures |states| == |steps| + 1
  {
  }

  lemma InvAt(c: Setting, s: System, sl: Sleeper)
    requires Inv(c, s) && sl in s.sleeping
    ensures Histories.Valid(c.robot, s.history) && Chained(s.history.presences) && IsAsleep(c, s.history, sl)
  {
    hide Histories.Valid, IsAsleep, IsWaiting, Chained;
  }

  lemma AnsweredIs(c: Setting, h: History, job: Job, time: nat)
    requires Chained(h.presences)
    requires job.initialTime < time ==> S.CanLookAhead(c.robot, h, job.snapshotTime, time) != None
    requires job.initialTime < time && S.CanLookAhead(c.robot, h, job.snapshotTime, time) == Some(true) ==>
               F.Supported(c.robot, h, job, F.SnapshotFor(c.strong, job, time), S.ModeAt(h, time), time)
    ensures P.Answered(c.robot, h, c.strong, job, time)
  {
    hide F.Supported, S.CanLookAhead, S.ModeAt, F.SnapshotFor, Chained;
  }

  ghost predicate Sleeps(s: System, job: Job) {
    exists sl :: sl in s.sleeping && sl.job == job
  }

  ghost predicate AllAsleep(s: System, jobs: seq<Job>) {
    forall k :: 0 <= k < |jobs| ==> Sleeps(s, jobs[k])
  }

  /** So, wherever a run has come to, moving the sleeping jobs fails exactly if a time to be registered is not accepted
      when its turn comes: this is what the method requires to say so. */
  lemma RunMoves(c: Setting, states: seq<System>, steps: seq<Step>, i: nat, jobs: seq<Job>,
                 latest: LookAheadJobIdentifier -> P.Latest)
    requires IsRun(c, states, steps) && i <= |steps| && AllAsleep(states[i], jobs)
    ensures var h := states[i].history;
            && Histories.Valid(c.robot, h) && Chained(h.presences)
            && P.AllAnswered(c.robot, h, c.strong, jobs, latest) && P.AllValid(c.robot, jobs)
  {
    hide IsRun, Histories.Valid, P.Answered, FitsTrace, Distinct, SectionsWellFormed, IsWaiting, IsAsleep;
    RunLength(c, states, steps);
    RunInv(c, states, steps, i);
    forall k | 0 <= k < |jobs|
      ensures P.Answered(c.robot, states[i].history, c.strong, jobs[k], latest(jobs[k].id).time)
      ensures jobs[k].Valid() && jobs[k].id.robotSegment < c.robot.segments
    {
      assert Sleeps(states[i], jobs[k]);
      var sl :| sl in states[i].sleeping && sl.job == jobs[k];
      RunAnswered(c, states, steps, i, sl, latest(jobs[k].id).time);
    }
  }

  lemma SleeperAnswered(c: Setting, h: History, sl: Sleeper, time: nat)
    requires Histories.Valid(c.robot, h) && Chained(h.presences) && IsAsleep(c, h, sl) && sl.job.initialTime < time
    ensures S.CanLookAhead(c.robot, h, sl.job.snapshotTime, time) != None
    ensures S.CanLookAhead(c.robot, h, sl.job.snapshotTime, time) == Some(true) ==>
              F.Supported(c.robot, h, sl.job, F.SnapshotFor(c.strong, sl.job, time), S.ModeAt(h, time), time)
  {
    hide *;
    SleeperParts(c, h, sl);
    BasisParts(c, h, sl);
    StartEntered(c.robot, h, sl.basis);
    GuardDefined(c.robot, h, sl.job.snapshotTime, sl.basis.initialTime, time);
    if S.CanLookAhead(c.robot, h, sl.job.snapshotTime, time) == Some(true) {
      GuardSupports(c.robot, h, c.strong, sl.job, time);
    }
  }

  lemma StartEntered(robot: Robot, h: History, job: Job)
    requires job.trace != [] && StartOf(robot, h, job).Some? && S.ModeAt(h, job.initialTime) == job.trace[0].mode
    ensures S.Entrance(h, S.ModeAt(h, job.initialTime), job.initialTime).Some?
  {
    hide S.Entrance, S.ModeAt, S.StoredAt;
  }
}
