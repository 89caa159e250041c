/** What the registry holds over whole runs: every job that waits is there, at its time, with a prefix of its path. */
module JobRegistrations {
  import opened Capsules
  import Modes
  import opened NextModes
  import opened ModeTraces
  import opened Predictions
  import opened Histories
  import opened SectionLists
  import opened LookAheadJobPaths
  import opened LookAheadJobRegistries
  import opened Reuses
  import opened JobRuns
  import opened JobLives
  import opened JobSystems
  import F = LookAheadJobFactories
  import S = HistorySnapshots

  ghost predicate IsRegistered(s: System, j: Job) {
    j.initialTime in s.times && Blocked(s.PathsAt(Key(j.initialTime, j.id)), Priorities(j.path))
  }

  /** The registered times are in order, and every job that waits is registered. */
  ghost predicate Registered(s: System) {
    Increasing(s.times) && forall j :: j in s.waiting ==> IsRegistered(s, j)
  }

  /** Nothing that is registered is forgotten. */
  ghost predicate Remembers(s: System, s': System) {
    && (forall t :: t in s.times ==> t in s'.times)
    && (forall k :: s.PathsAt(k) <= s'.PathsAt(k))
  }

  lemma StaysRegistered(s: System, s': System, j: Job)
    requires Remembers(s, s') && IsRegistered(s, j)
    ensures IsRegistered(s', j)
  {
    hide Blocked;
    var key := Key(j.initialTime, j.id);
    F.BlockedGrows(s.PathsAt(key), s'.PathsAt(key), Priorities(j.path));
  }

  lemma TimesStayIncreasing(times: seq<nat>, t: nat)
    requires Increasing(times) && AcceptsTime(times, t)
    ensures Increasing(TimesAfter(times, t)) && t in TimesAfter(times, t)
    ensures forall u :: u in times ==> u in TimesAfter(times, t)
  {
    if t !in times {
      var times' := times + [t];
      assert times'[|times|] == t;
      forall i, j | 0 <= i < j < |times'| ensures times'[i] < times'[j] {
        if j == |times| && i < |times| - 1 { assert times[i] < times[|times| - 1]; }
      }
    }
  }

  /** A created job is registered with the empty path, which is its own. */
  lemma CreateRegisters(c: Setting, s: System, step: Step)
    requires Takes(c, s, step) && step.Create? && Registered(s)
    ensures Registered(After(c, s, step)) && Remembers(s, After(c, s, step))
  {
    hide Guarded, Histories.Valid, Blocked, S.ModeAt;
    TimesStayIncreasing(s.times, step.time);
    var s' := After(c, s, step);
    var job, key := NewJob(step.id, step.time, step.human, S.ModeAt(s.history, step.time)), Key(step.time, step.id);
    assert s'.PathsAt(key) == s.PathsAt(key) + {[]};
    assert forall k :: k != key ==> s'.PathsAt(k) == s.PathsAt(k);
    EmptyBlocked(s'.PathsAt(key), Priorities(job.path));
    forall j | j in s'.waiting ensures IsRegistered(s', j) {
      if j in s.waiting { StaysRegistered(s, s', j); }
    }
  }

  lemma EmptyBlocked(paths: set<Choices>, p: Choices)
    requires [] in paths
    ensures Blocked(paths, p)
  {
    assert p[..0] == [];
  }

  /** A next job has the path of the job it continues, or one choice more. */
  lemma NextRegisters(c: Setting, s: System, step: Step)
    requires Takes(c, s, step) && step.Scan? && Registered(s)
    ensures Registered(After(c, s, step)) && Remembers(s, After(c, s, step))
  {
    hide IsNext, IsScan, Histories.Valid, Blocked, Looped, Scanned, IsUnregistered, Increasing, NextAre;
    var s' := After(c, s, step);
    forall j | j in s'.waiting ensures IsRegistered(s', j) {
      if j in s.waiting {
        StaysRegistered(s, s', j);
      } else {
        EachIsNext(s, step.job, step.index, step.secs, step.next, j);
        NextPath(s.history, step.job, step.secs, j);
        PrefixBlocked(s.PathsAt(Key(j.initialTime, j.id)), Priorities(step.job.path), Priorities(j.path));
      }
    }
  }

  lemma NextPath(h: History, job: Job, secs: seq<SectionValue>, j: Job)
    requires IsNext(h, job, secs, j)
    ensures j.initialTime == job.initialTime && j.id == job.id && Priorities(job.path) <= Priorities(j.path)
  {
    hide IsPrediction, S.TraceAt, FullTrace;
    var branches, next, order, b := NextBy(h, job, secs, j);
    var i :| 0 <= i < |branches| && branches[i] == b;
  }

  lemma PrefixBlocked(paths: set<Choices>, p: Choices, q: Choices)
    requires Blocked(paths, p) && p <= q
    ensures Blocked(paths, q)
  {
    var k :| 0 <= k <= |p| && p[..k] in paths;
    assert q[..k] == p[..k];
  }

  /** A job is woken to wait only after its path has been registered. */
  lemma WakeRegisters(c: Setting, s: System, step: Step)
    requires Inv(c, s) && Takes(c, s, step) && step.Wake? && Registered(s)
    ensures Registered(After(c, s, step)) && Remembers(s, After(c, s, step))
  {
    hide IsWaiting, IsAsleep, Guarded, AwakensBy, RegistersTime, Histories.Valid, Blocked, Increasing, AcceptsTime,
         TimesAfter;
    var s' := After(c, s, step);
    var job, key := step.sleeper.job, Key(step.time, step.sleeper.job.id);
    SleeperParts(c, s.history, step.sleeper);
    if RegistersTime(c, s.history, job, step.time, step.latest) { TimesStayIncreasing(s.times, step.time); }
    WokenPaths(c, s.history, job, step.time, step.latest, step.woken, s.PathsAt(key), step.registered);
    assert s'.PathsAt(key) == step.registered;
    assert forall k :: k != key ==> s'.PathsAt(k) == s.PathsAt(k);
    forall j | j in s'.waiting ensures IsRegistered(s', j) {
      if j in s.waiting {
        StaysRegistered(s, s', j);
      } else {
        var w :| w in step.woken && w.result.Different? && w.job == j;
        assert Key(j.initialTime, j.id) == key;
      }
    }
  }

  lemma WokenPaths(c: Setting, h: History, job: Job, time: nat, human: Option<Capsule>, woken: seq<F.Woken>,
                   before: set<Choices>, after: set<Choices>)
    requires AwakensBy(c, h, job, time, human, woken, before, after) && job.initialTime < time && job.Valid()
    ensures before <= after
    ensures forall w :: w in woken && w.result.Different? ==>
              && w.job.initialTime == time && w.job.id == job.id && Blocked(after, Priorities(w.job.path))
              && RegistersTime(c, h, job, time, human)
  {
    hide F.AreCandidates, S.ModeAt, Blocked, FitsTrace, Distinct, SectionsWellFormed, F.Completes, F.SnapshotFor;
    if human.Some? {
      var js, completed :|
        F.AreCandidates(c.metric, c.robot, c.view, h, c.strong, job, time, human.value, S.ModeAt(h, time), js,
                        completed)
        && F.Kept(js, completed, woken, before, after);
      F.CompletedIff(c.metric, c.robot, c.view, h, c.strong, job, time, human.value, S.ModeAt(h, time), js, completed);
      forall w | w in woken && w.result.Different?
        ensures w.job.initialTime == time && w.job.id == job.id && Blocked(after, Priorities(w.job.path))
      {
        CandidateTimes(c, h, job, time, human.value, js, completed, w.job);
        ItselfBlocked(after, Priorities(w.job.path));
      }
    }
  }

  lemma ItselfBlocked(paths: set<Choices>, p: Choices)
    requires p in paths
    ensures Blocked(paths, p)
  {
    assert p[..|p|] == p;
  }

  lemma CandidateTimes(c: Setting, h: History, job: Job, time: nat, human: Capsule, js: seq<Job>, completed: bool,
                       j: Job)
    requires F.AreCandidates(c.metric, c.robot, c.view, h, c.strong, job, time, human, S.ModeAt(h, time), js, completed)
    requires job.Valid() && j in js
    ensures j.initialTime == time && j.id == job.id
  {
    hide *;
    var mode := S.ModeAt(h, time);
    F.CandidatesGoOn(c.metric, c.robot, c.view, h, c.strong, job, time, human, mode, js, completed, j);
    if Restarted(job, j, human, mode, time) {
      RestartTimes(job, j, human, mode, time);
    } else {
      var lower :| GoesOn(c.metric, c.robot, c.view, h, c.strong, job, j, human, mode, time, lower);
      GoesOnTimes(c.metric, c.robot, c.view, h, c.strong, job, j, human, mode, time, lower);
    }
  }

  lemma RestartTimes(job: Job, j: Job, human: Capsule, mode: Modes.Mode, time: nat)
    requires Restarted(job, j, human, mode, time)
    ensures j.initialTime == time && j.id == job.id
  {
  }

  /** Every step keeps that, and forgets nothing. */
  lemma StepRegistered(c: Setting, s: System, step: Step)
    requires Inv(c, s) && Takes(c, s, step) && Registered(s)
    ensures Registered(After(c, s, step)) && Remembers(s, After(c, s, step))
  {
    hide Inv, Histories.Valid, IsRegistered, Increasing, Acquired, Purged, Guarded, AwakensBy, RegistersTime, IsNext,
         IsScan, IsUnregistered, Purgeable, AcceptsTime, TimesAfter, Blocked;
    match step
    case Acquire(mode, os, t) =>
      forall j | j in s.waiting ensures IsRegistered(After(c, s, step), j) { StaysRegistered(s, After(c, s, step), j); }
    case Purge(cutoff) =>
      forall j | j in s.waiting ensures IsRegistered(After(c, s, step), j) { StaysRegistered(s, After(c, s, step), j); }
    case Create(id, time, human, asleep) => CreateRegisters(c, s, step);
    case Scan(job, r, secs, next) => NextRegisters(c, s, step);
    case Wake(sl, time, human, woken, registered) => WakeRegisters(c, s, step);
  }

  /** In every run: the registered times increase, and every job that waits was registered at its time, with a prefix of
      its path; so that none is woken at that time into an extension of that prefix. */
  lemma {:induction false} RunRegistered(c: Setting, states: seq<System>, steps: seq<Step>, i: nat)
    requires IsRun(c, states, steps) && i <= |steps|
    ensures Registered(states[i])
  {
    hide Takes, Faithful, After, IsRegistered, Histories.Valid, Inv;
    if i > 0 {
      RunRegistered(c, states, steps, i - 1);
      RunInv(c, states, steps, i - 1);
      assert Moves(c, states, steps, i - 1);
      StepRegistered(c, states[i - 1], steps[i - 1]);
    }
  }
}
