/** Why an awakened job may go on from the barriers of the job it was. */
module Reuses {
  import opened Capsules
  import opened Modes
  import opened NextModes
  import opened ModeTraces
  import opened Histories
  import opened HistorySnapshots
  import opened HistoryEnvironments
  import opened HistoryGrowths
  import opened TraceSampleRanges
  import opened Barriers
  import opened SectionLists
  import opened SectionResets
  import opened LookAheadJobs
  import opened LookAheadJobPaths
  import opened LookAheadJobRegistries

  /** A job with reuse, as a value: awakening copies jobs and never changes them. */
  datatype Job = Job(id: LookAheadJobIdentifier, initialTime: nat, snapshotTime: nat, human: Capsule,
                     trace: seq<Entry>, path: seq<PathElement>, secs: seq<SectionValue>)
  {
    /** Only the last mode of a trace may occur in it twice: look-ahead ends there. */
    predicate Valid() {
      && trace != [] && Distinct(ModesOf(trace)[..|trace| - 1])
      && FitsTrace(path, |trace|) && SectionsWellFormed(secs)
    }
  }

  predicate IsFirst(ms: seq<Mode>, m: Mode, i: nat) {
    i < |ms| && ms[i] == m && m !in ms[..i]
  }

  /** The last entry that may be reused: under strong equivalence, not one whose mode occurs before the new
      start, because its samples have been updated. */
  function ResetBound(strong: bool, ms: seq<Mode>, lower: nat): (upper: nat)
    requires lower < |ms|
  {
    if strong && ms[|ms| - 1] in ms[..lower] then |ms| - 2 else |ms| - 1
  }

  /** The bound never lies before the start: the reset is always asked for a proper interval. */
  lemma BoundIsNotBefore(strong: bool, ms: seq<Mode>, m: Mode, lower: nat)
    requires IsFirst(ms, m, lower)
    ensures lower <= ResetBound(strong, ms, lower) < |ms|
  {
  }

  /** No mode of an entry that may be reused has been exited in between. */
  ghost predicate ReusedNotExited(h: History, ms: seq<Mode>, lower: nat, since: nat, time: nat)
    requires lower < |ms|
  {
    forall i :: lower <= i <= ResetBound(true, ms, lower) ==> !ExitedBetween(h, ms[i], since, time)
  }

  lemma ReusedAreOthers(ms: seq<Mode>, m: Mode, lower: nat, i: nat)
    requires IsFirst(ms, m, lower) && Distinct(ms[..|ms| - 1])
    requires lower <= i <= ResetBound(true, ms, lower)
    ensures ms[i] !in ms[..lower]
  {
    forall k | 0 <= k < lower ensures ms[..lower][k] != ms[i] {
      var front := ms[..|ms| - 1];
      if i < |front| { assert front[k] != front[i]; }
    }
  }

  /** Entries are left out only under strong equivalence, and then those from the first on whose mode occurs before the
      start. */
  lemma BoundIsLast(strong: bool, ms: seq<Mode>, m: Mode, lower: nat)
    requires IsFirst(ms, m, lower) && Distinct(ms[..|ms| - 1])
    ensures var upper := ResetBound(strong, ms, lower);
            && (strong ==> forall i :: lower <= i <= upper ==> ms[i] !in ms[..lower])
            && (upper + 1 < |ms| ==> strong && ms[upper + 1] in ms[..lower])
  {
    forall i | lower <= i <= ResetBound(strong, ms, lower) && strong ensures ms[i] !in ms[..lower] {
      ReusedAreOthers(ms, m, lower, i);
    }
  }

  /** The bound leaves out what it is meant to exactly if the modes exited all lie in the part of the trace left
      behind, or outside the trace. */
  lemma LeftBehindNotReused(h: History, ms: seq<Mode>, m: Mode, lower: nat, since: nat, time: nat)
    requires IsFirst(ms, m, lower) && Distinct(ms[..|ms| - 1])
    ensures ReusedNotExited(h, ms, lower, since, time) <==>
            forall n :: ExitedBetween(h, n, since, time) ==> n in ms[..lower] || n !in ms
  {
    hide ExitedBetween;
    forall i | lower <= i <= ResetBound(true, ms, lower) ensures ms[i] !in ms[..lower] {
      ReusedAreOthers(ms, m, lower, i);
    }
    if ReusedNotExited(h, ms, lower, since, time) {
      forall n | ExitedBetween(h, n, since, time) && n in ms ensures n in ms[..lower] {
        var i :| 0 <= i < |ms| && ms[i] == n;
        if i < lower { assert ms[..lower][i] == n; }
      }
    }
  }

  /** And so no entry that may be reused has had its samples updated since, exactly in that case. */
  lemma UpdatedNotReusedIff(robot: Robot, h: History, ms: seq<Mode>, m: Mode, lower: nat, since: nat, time: nat)
    requires Histories.Valid(robot, h) && Growing(h) && since <= time
    requires IsFirst(ms, m, lower) && Distinct(ms[..|ms| - 1])
    ensures (forall i :: lower <= i <= ResetBound(true, ms, lower) ==>
               StoredAt(h, time, ms[i]) == StoredAt(h, since, ms[i])) <==>
            (forall n :: ExitedBetween(h, n, since, time) ==> n in ms[..lower] || n !in ms)
  {
    LeftBehindNotReused(h, ms, m, lower, since, time);
    hide ExitedBetween, StoredAt, Growing, Histories.Valid, IsFirst;
    forall i | lower <= i <= ResetBound(true, ms, lower)
      ensures StoredAt(h, time, ms[i]) == StoredAt(h, since, ms[i]) <==> !ExitedBetween(h, ms[i], since, time)
    {
      UpdatedIffExited(robot, h, ms[i], since, time);
    }
  }

  /** Strong equivalence: if no mode that may be reused was exited since the barriers were made, the samples of the
      entries that are reused have not changed. */
  lemma StrongKeepsSamples(h: History, ms: seq<Mode>, lower: nat, since: nat, time: nat, i: nat)
    requires lower < |ms| && since <= time && ReusedNotExited(h, ms, lower, since, time)
    requires lower <= i <= ResetBound(true, ms, lower)
    ensures StoredAt(h, time, ms[i]) == StoredAt(h, since, ms[i])
  {
    hide StoredAt;
    SamplesKept(h, ms[i], since, time);
  }

  /** The sections end in the last entry of the trace, or have the entry before it covered to its end. */
  predicate EndsAtLast(secs: seq<SectionValue>, along: seq<SegmentSamples>)
    requires SectionsWellFormed(secs) && secs != []
  {
    var end := End(secs);
    || end.trace + 1 == |along|
    || (end.trace + 2 == |along| && end.sample + 1 == |along[end.trace]|)
  }

  /** Scanning picks up exactly where a sequence that resumes soundly leaves off. */
  lemma ResumesReady(m: Metric, rs: seq<SectionValue>, along: seq<SegmentSamples>, start: TraceSampleIndex,
                     human: Capsule)
    requires along != [] && rs != [] && ResumesSoundly(m, rs, EnvironmentOf(along), start, human)
    requires EndsAtLast(rs, along)
    ensures Ready(m, rs, EnvironmentOf(along), start, ScanFrom(rs, |along| - 1), human)
  {
    var env := EnvironmentOf(along);
    NothingAfterEnd(rs, along, start);
    TracksFrom(m, rs, env, start, ResumeAt(rs, start), ScanFrom(rs, |along| - 1));
    forall x | x in env && start.AtMost(x) && x.Before(ScanFrom(rs, |along| - 1))
      ensures m.humanRobot(human, env[x]) > 0.0
    {
      if !x.AtMost(End(rs)) { assert ResumeAt(rs, start).AtMost(x); }
    }
    LastIsNoCollision(rs);
  }

  lemma NothingAfterEnd(rs: seq<SectionValue>, along: seq<SegmentSamples>, start: TraceSampleIndex)
    requires along != [] && rs != [] && SectionsWellFormed(rs) && EndsAtLast(rs, along)
    ensures ResumeAt(rs, start).AtMost(ScanFrom(rs, |along| - 1))
    ensures NoSampleBetween(EnvironmentOf(along), start, ResumeAt(rs, start), ScanFrom(rs, |along| - 1))
  {
    forall x | x in EnvironmentOf(along) && ResumeAt(rs, start).AtMost(x) ensures !x.Before(ScanFrom(rs, |along| - 1)) {
      assert Present(along, x);
    }
  }

  lemma LastIsNoCollision(rs: seq<SectionValue>)
    requires rs != [] && SectionsWellFormed(rs) && WithoutCollision(rs)
    ensures !ReachesCollision(LastSection(rs).barriers)
  {
    var j := |rs| - 1;
    var i := |rs[j].barriers| - 1;
    assert !rs[j].barriers[i].IsCollision();
  }

  /** The barriers left by a reset are good for the samples they will be used with, whichever snapshot these are
      from, if the reused entries have the same samples there, and the start has not gone back. */
  lemma ResetReady(m: Metric, secs: seq<SectionValue>, along: seq<SegmentSamples>, oldStart: TraceSampleIndex,
                   next: TraceSampleIndex, human: Capsule, start: TraceSampleIndex, upper: nat,
                   along': seq<SegmentSamples>)
    requires Tracks(m, secs, EnvironmentOf(along), oldStart, next)
    requires ReuseSoundForAll(m, secs, human, EnvironmentOf(along))
    requires start.trace <= upper < |along| && oldStart.AtMost(start) && along' != []
    requires forall i :: 0 <= i < |along'| && start.trace + i <= upper ==> along'[i] == along[start.trace + i]
    ensures var rs := SectionsReset(m, secs, human, start, upper);
            && SectionsWellFormed(rs)
            && (rs != [] && EndsAtLast(rs, along') ==>
                  Ready(m, rs, EnvironmentOf(along'), TraceSampleIndex(0, start.sample), ScanFrom(rs, |along'| - 1),
                        human))
  {
    var rs := SectionsReset(m, secs, human, start, upper);
    EnvironmentsAgree(along', along, start.trace, upper);
    ResetSound(m, secs, EnvironmentOf(along), oldStart, next, human, start, upper, EnvironmentOf(along'));
    if rs != [] && EndsAtLast(rs, along') {
      ResumesReady(m, rs, along', TraceSampleIndex(0, start.sample), human);
    }
  }

  /** Without barriers a job is ready from the beginning. */
  lemma EmptyReady(m: Metric, env: Environment, start: TraceSampleIndex, human: Capsule)
    ensures Ready(m, [], env, start, TraceSampleIndex(0, 0), human)
  {
  }

  /* Jobs */

  function SamplesOf(view: View, h: History, job: Job): (along: seq<SegmentSamples>)
    ensures |along| == |job.trace|
  {
    Along(view, h, job.snapshotTime, job.id.robotSegment, ModesOf(job.trace))
  }

  /** The job's start in its own snapshot. */
  function StartOf(robot: Robot, h: History, job: Job): Option<nat>
    requires job.trace != []
  {
    CheckedSampleIndex(robot, h, job.snapshotTime, job.trace[0].mode, job.initialTime)
  }

  /** The barriers account for what was visited of the job's samples. */
  ghost predicate Tracked(m: Metric, robot: Robot, view: View, h: History, job: Job) {
    && job.Valid() && StartOf(robot, h, job).Some?
    && exists next :: Tracks(m, job.secs, EnvironmentOf(SamplesOf(view, h, job)),
                             TraceSampleIndex(0, StartOf(robot, h, job).value), next)
  }

  /** The job can be scanned: the barriers account for everything before the place where the scan picks up,
      and all of that is clear of the job's human. */
  ghost predicate Resumable(m: Metric, robot: Robot, view: View, h: History, job: Job) {
    && job.Valid() && StartOf(robot, h, job).Some?
    && Ready(m, job.secs, EnvironmentOf(SamplesOf(view, h, job)), TraceSampleIndex(0, StartOf(robot, h, job).value),
             ScanFrom(job.secs, |job.trace| - 1), job.human)
  }

  /** A job starting over. */
  predicate Restarted(job: Job, j: Job, human: Capsule, mode: Mode, time: nat) {
    j == Job(job.id, time, time, human, [Entry(mode, 1.0)], [], [])
  }

  /** A job that goes on from what a reset left of the barriers of `job`: its trace is the rest of the trace
      as far as it is reused. */
  ghost predicate GoesOn(m: Metric, robot: Robot, view: View, h: History, strong: bool, job: Job, j: Job,
                         human: Capsule, mode: Mode, time: nat, lower: nat)
  {
    var ms, ms' := ModesOf(job.trace), ModesOf(j.trace);
    && IsFirst(ms, mode, lower) && SectionsWellFormed(job.secs) && SectionsWellFormed(j.secs)
    && var upper := ResetBound(strong, ms, lower);
    && j == Job(job.id, time, if strong then time else job.snapshotTime, human, j.trace, j.path, j.secs)
    && j.Valid()
    && (forall i :: 0 <= i < |ms'| && lower + i <= upper ==> ms'[i] == ms[lower + i])
    && StartOf(robot, h, j).Some?
    && j.secs == SectionsReset(m, job.secs, human, TraceSampleIndex(lower, StartOf(robot, h, j).value), upper)
    && j.secs != [] && EndsAtLast(j.secs, SamplesOf(view, h, j))
  }

  /** What a job goes on from may be relied on, if the samples of the reused entries are the same and the start
      has not gone back. `basis` is the job as it was last scanned. */
  lemma GoesOnReady(m: Metric, robot: Robot, view: View, h: History, strong: bool, basis: Job, j: Job, human: Capsule,
                    mode: Mode, time: nat, lower: nat)
    requires Tracked(m, robot, view, h, basis)
    requires GoesOn(m, robot, view, h, strong, basis, j, human, mode, time, lower)
    requires ReuseSoundForAll(m, basis.secs, human, EnvironmentOf(SamplesOf(view, h, basis)))
    requires forall i :: lower <= i <= ResetBound(strong, ModesOf(basis.trace), lower) ==>
               StoredAt(h, j.snapshotTime, basis.trace[i].mode) == StoredAt(h, basis.snapshotTime, basis.trace[i].mode)
    requires lower == 0 ==> StartOf(robot, h, basis).value <= StartOf(robot, h, j).value
    ensures Resumable(m, robot, view, h, j)
  {
    hide *;
    GoesOnParts(m, robot, view, h, strong, basis, j, human, mode, time, lower);
    var upper := ResetBound(strong, ModesOf(basis.trace), lower);
    SameSamples(view, h, basis, j, lower, upper);
    var oldStart := TraceSampleIndex(0, StartOf(robot, h, basis).value);
    var start := TraceSampleIndex(lower, StartOf(robot, h, j).value);
    StartOrder(oldStart, start);
    var next := TrackedUntil(m, robot, view, h, basis);
    ResetReady(m, basis.secs, SamplesOf(view, h, basis), oldStart, next, human, start, upper, SamplesOf(view, h, j));
    GoesOnResumable(m, robot, view, h, strong, basis, j, human, mode, time, lower);
  }

  lemma GoesOnParts(m: Metric, robot: Robot, view: View, h: History, strong: bool, basis: Job, j: Job, human: Capsule,
                    mode: Mode, time: nat, lower: nat)
    requires Tracked(m, robot, view, h, basis) && GoesOn(m, robot, view, h, strong, basis, j, human, mode, time, lower)
    ensures basis.trace != [] && j.trace != [] && lower < |ModesOf(basis.trace)| == |basis.trace|
    ensures |ModesOf(j.trace)| == |j.trace|
    ensures IsFirst(ModesOf(basis.trace), mode, lower) && Distinct(ModesOf(basis.trace)[..|basis.trace| - 1])
    ensures j.trace[0].mode == mode && j.initialTime == time
    ensures j.snapshotTime == if strong then time else basis.snapshotTime
    ensures lower <= ResetBound(strong, ModesOf(basis.trace), lower) < |basis.trace|
    ensures StartOf(robot, h, basis).Some? && StartOf(robot, h, j).Some? && j.id == basis.id
    ensures SectionsWellFormed(basis.secs) && SectionsWellFormed(j.secs) && j.secs != []
    ensures EndsAtLast(j.secs, SamplesOf(view, h, j)) && SamplesOf(view, h, j) != []
    ensures var upper := ResetBound(strong, ModesOf(basis.trace), lower);
            && j.secs == SectionsReset(m, basis.secs, human, TraceSampleIndex(lower, StartOf(robot, h, j).value), upper)
            && forall i :: 0 <= i < |j.trace| && lower + i <= upper ==>
                 ModesOf(j.trace)[i] == ModesOf(basis.trace)[lower + i]
  {
    hide StartOf, SamplesOf, EndsAtLast, SectionsReset, Tracks;
    BoundIsNotBefore(strong, ModesOf(basis.trace), mode, lower);
    assert ModesOf(j.trace)[0] == ModesOf(basis.trace)[lower + 0];
  }

  lemma SameSamples(view: View, h: History, basis: Job, j: Job, lower: nat, upper: nat)
    requires upper < |basis.trace| && j.id == basis.id
    requires forall i :: 0 <= i < |j.trace| && lower + i <= upper ==>
              ModesOf(j.trace)[i] == ModesOf(basis.trace)[lower + i]
    requires forall i :: lower <= i <= upper ==>
               StoredAt(h, j.snapshotTime, basis.trace[i].mode) == StoredAt(h, basis.snapshotTime, basis.trace[i].mode)
    ensures forall i :: 0 <= i < |j.trace| && lower + i <= upper ==>
              SamplesOf(view, h, j)[i] == SamplesOf(view, h, basis)[lower + i]
  {
    forall i | 0 <= i < |j.trace| && lower + i <= upper
      ensures SamplesOf(view, h, j)[i] == SamplesOf(view, h, basis)[lower + i]
    {
      assert ModesOf(basis.trace)[lower + i] == basis.trace[lower + i].mode;
    }
  }

  lemma TrackedUntil(m: Metric, robot: Robot, view: View, h: History, job: Job) returns (next: TraceSampleIndex)
    requires Tracked(m, robot, view, h, job)
    ensures Tracks(m, job.secs, EnvironmentOf(SamplesOf(view, h, job)),
                   TraceSampleIndex(0, StartOf(robot, h, job).value), next)
  {
    next :| Tracks(m, job.secs, EnvironmentOf(SamplesOf(view, h, job)),
                   TraceSampleIndex(0, StartOf(robot, h, job).value), next);
  }

  lemma StartOrder(oldStart: TraceSampleIndex, start: TraceSampleIndex)
    requires oldStart.trace == 0 && (start.trace == 0 ==> oldStart.sample <= start.sample)
    ensures oldStart.AtMost(start)
  {
  }

  lemma GoesOnResumable(m: Metric, robot: Robot, view: View, h: History, strong: bool, job: Job, j: Job, human: Capsule,
                        mode: Mode, time: nat, lower: nat)
    requires GoesOn(m, robot, view, h, strong, job, j, human, mode, time, lower)
    requires Ready(m, j.secs, EnvironmentOf(SamplesOf(view, h, j)), TraceSampleIndex(0, StartOf(robot, h, j).value),
                   ScanFrom(j.secs, |j.trace| - 1), human)
    ensures Resumable(m, robot, view, h, j)
  {
    hide Ready, StartOf, SamplesOf, EndsAtLast, ResetBound, IsFirst;
  }

  /** An awakening without a human sample changes only the times of a job. What goes on from it goes on from the
      job it was, whose barriers it still has. */
  lemma GoesOnFromBasis(m: Metric, robot: Robot, view: View, h: History, strong: bool, basis: Job, job: Job, j: Job,
                        human: Capsule, mode: Mode, time: nat, lower: nat)
    requires job == basis.(initialTime := job.initialTime, snapshotTime := job.snapshotTime)
    requires !strong ==> job.snapshotTime == basis.snapshotTime
    requires GoesOn(m, robot, view, h, strong, job, j, human, mode, time, lower)
    ensures GoesOn(m, robot, view, h, strong, basis, j, human, mode, time, lower)
  {
    hide StartOf, SamplesOf, EndsAtLast, SectionsReset, ResetBound, IsFirst;
  }

  /** Strong equivalence. The barriers were made at `basis.initialTime`, and since then no mode that may be reused was
      exited; then the job may go on: its snapshot is the present one, every sample it skips is the same there as
      when it was checked, and is clear of the new human. */
  lemma StrongReady(m: Metric, robot: Robot, view: View, h: History, basis: Job, j: Job, human: Capsule, time: nat,
                    lower: nat)
    requires Histories.Valid(robot, h) && Tracked(m, robot, view, h, basis)
    requires GoesOn(m, robot, view, h, true, basis, j, human, ModeAt(h, time), time, lower)
    requires ReuseSoundForAll(m, basis.secs, human, EnvironmentOf(SamplesOf(view, h, basis)))
    requires basis.snapshotTime == basis.initialTime <= time && ModeAt(h, basis.initialTime) == basis.trace[0].mode
    requires ReusedNotExited(h, ModesOf(basis.trace), lower, basis.initialTime, time)
    ensures Resumable(m, robot, view, h, j) && j.snapshotTime == time
  {
    hide *;
    GoesOnParts(m, robot, view, h, true, basis, j, human, ModeAt(h, time), time, lower);
    StrongSame(h, basis.trace, ModeAt(h, time), lower, basis.initialTime, time);
    if lower == 0 {
      StartForward(m, robot, view, h, basis, j, time);
    }
    GoesOnReady(m, robot, view, h, true, basis, j, human, ModeAt(h, time), time, lower);
  }

  lemma StrongSame(h: History, trace: seq<Entry>, m: Mode, lower: nat, since: nat, time: nat)
    requires trace != [] && IsFirst(ModesOf(trace), m, lower) && since <= time
    requires ReusedNotExited(h, ModesOf(trace), lower, since, time)
    ensures ResetBound(true, ModesOf(trace), lower) < |trace|
    ensures !ExitedBetween(h, m, since, time)
    ensures forall i :: lower <= i <= ResetBound(true, ModesOf(trace), lower) ==>
              StoredAt(h, time, trace[i].mode) == StoredAt(h, since, trace[i].mode)
  {
    BoundIsNotBefore(true, ModesOf(trace), m, lower);
    hide ExitedBetween, StoredAt;
    forall i | lower <= i <= ResetBound(true, ModesOf(trace), lower)
      ensures StoredAt(h, time, trace[i].mode) == StoredAt(h, since, trace[i].mode)
    {
      StrongKeepsSamples(h, ModesOf(trace), lower, since, time, i);
    }
  }

  lemma StartForward(m: Metric, robot: Robot, view: View, h: History, basis: Job, j: Job, time: nat)
    requires Histories.Valid(robot, h) && Tracked(m, robot, view, h, basis)
    requires j.trace != [] && StartOf(robot, h, j).Some?
    requires basis.initialTime <= time == j.initialTime && j.trace[0].mode == ModeAt(h, time)
    requires ModeAt(h, basis.initialTime) == basis.trace[0].mode
    requires !ExitedBetween(h, basis.trace[0].mode, basis.initialTime, time)
    ensures StartOf(robot, h, basis).value <= StartOf(robot, h, j).value
  {
    hide Histories.Valid, ModeAt, ExitedBetween, Entrance, StoredAt, Tracks, EnvironmentOf, SamplesOf;
    StartMovesForward(robot, h, basis.trace[0].mode, basis.initialTime, time);
  }

  /** Weak equivalence. The job keeps its snapshot, so the samples are the same whatever has been exited; it may
      go on if it has left a mode behind, or has not gone back in the one it is in. */
  lemma WeakReady(m: Metric, robot: Robot, view: View, h: History, basis: Job, j: Job, human: Capsule, mode: Mode,
                  time: nat, lower: nat)
    requires Tracked(m, robot, view, h, basis)
    requires GoesOn(m, robot, view, h, false, basis, j, human, mode, time, lower)
    requires ReuseSoundForAll(m, basis.secs, human, EnvironmentOf(SamplesOf(view, h, basis)))
    requires lower > 0 || StartOf(robot, h, basis).value <= StartOf(robot, h, j).value
    ensures Resumable(m, robot, view, h, j) && j.snapshotTime == basis.snapshotTime
  {
    hide Tracked, ReuseSoundForAll, StoredAt, StartOf, EndsAtLast, SectionsReset;
    BoundIsNotBefore(false, ModesOf(basis.trace), mode, lower);
    GoesOnReady(m, robot, view, h, false, basis, j, human, mode, time, lower);
  }
}
