/** How jobs are woken for a new time and human sample, with and without reuse. */
module LookAheadJobFactories {
  import opened Capsules
  import opened Modes
  import opened NextModes
  import opened ModeTraces
  import opened Predictions
  import opened PredictionPaths
  import opened Histories
  import opened HistoryEnvironments
  import opened RobotStateHistories
  import opened TraceSampleRanges
  import opened Barriers
  import opened SectionLists
  import opened BarrierSequences
  import opened LookAheadJobPaths
  import opened LookAheadJobRegistries
  import opened Reuses
  import S = HistorySnapshots
  import R = SectionResets

  datatype AwakeningResult = Different | Unaffected | Completed | Uncomputable

  datatype Woken = Woken(job: Job, result: AwakeningResult)

  /** Failure stands for an exception of the source. */
  datatype Awakening = Awakening(jobs: seq<Woken>) | AwakeningFailure

  /** What is left of a job after the reset: nothing, or the rest of its trace as far as it is reused. It is
      exhausted if all of that rest is covered, so that only its next modes are left to look at. */
  datatype Remainder = Nothing | Rest(branch: Branch, secs: seq<SectionValue>, exhausted: bool) | Lost

  function SnapshotFor(strong: bool, job: Job, time: nat): nat {
    if strong then time else job.snapshotTime
  }

  function JobFor(strong: bool, job: Job, human: Capsule, time: nat, branch: Branch, secs: seq<SectionValue>): Job {
    Job(job.id, time, SnapshotFor(strong, job, time), human, branch.trace, branch.path, secs)
  }

  /** The entries of a trace of the past, which are certain. */
  function Certain(ms: seq<Mode>): (es: seq<Entry>)
    ensures ModesOf(es) == ms
  {
    seq(|ms|, i requires 0 <= i < |ms| => Entry(ms[i], 1.0))
  }

  predicate Stored(h: History, job: Job, snapshot: nat) {
    forall m :: m in ModesOf(job.trace) ==> S.StoredAt(h, snapshot, m).Some?
  }

  /** The history can answer what awakening asks: the sample index, the samples of the trace's modes, and a past
      that holds all of them and does not end in the present mode. */
  predicate Supported(robot: Robot, h: History, job: Job, snapshot: nat, mode: Mode, time: nat) {
    && S.CheckedSampleIndex(robot, h, snapshot, mode, time).Some?
    && Stored(h, job, snapshot)
    && S.TraceAt(h, time).Some?
    && var past := S.TraceAt(h, time).value;
       past != [] && past[|past| - 1] != mode && forall m :: m in ModesOf(job.trace) ==> m in past
  }

  /** The last entry the barriers reach is covered to its end. */
  predicate CoversLast(view: View, h: History, snapshot: nat, job: Job, lower: nat, secs: seq<SectionValue>)
    requires SectionsWellFormed(secs) && secs != [] && lower + End(secs).trace < |job.trace|
  {
    var m := job.trace[lower + End(secs).trace].mode;
    End(secs).sample + 1 == |SegmentIn(view, h, snapshot, job.id.robotSegment, m)|
  }

  /** The trace and the path are cut to what the barriers reach, and one entry more if they cover that. */
  predicate CutExactly(view: View, h: History, snapshot: nat, job: Job, lower: nat, rest: Remainder) {
    rest.Rest? && SectionsWellFormed(rest.secs) && rest.secs != [] && lower + End(rest.secs).trace < |job.trace| &&
    rest == Reduction(job, rest.secs, lower, lower + End(rest.secs).trace,
                      CoversLast(view, h, snapshot, job, lower, rest.secs))
  }

  /** Every barrier is lost. */
  predicate ResetToNothing(m: Metric, robot: Robot, h: History, strong: bool, job: Job, human: Capsule, mode: Mode,
                           time: nat, lower: nat)
  {
    && lower < |job.trace| && SectionsWellFormed(job.secs)
    && var start := S.CheckedSampleIndex(robot, h, SnapshotFor(strong, job, time), mode, time);
       start.Some? &&
       SectionsReset(m, job.secs, human, TraceSampleIndex(lower, start.value),
                     ResetBound(strong, ModesOf(job.trace), lower)) == []
  }

  /** What a reset at entry `lower` leaves. The job made of the rest goes on from the barriers of the job it was. */
  ghost predicate GoodRest(m: Metric, robot: Robot, view: View, h: History, strong: bool, job: Job, human: Capsule,
                           mode: Mode, time: nat, lower: nat, rest: Remainder)
  {
    && (rest.Nothing? ==> ResetToNothing(m, robot, h, strong, job, human, mode, time, lower))
    && (rest.Rest? ==>
          var j := JobFor(strong, job, human, time, rest.branch, rest.secs);
          && GoesOn(m, robot, view, h, strong, job, j, human, mode, time, lower)
          && CutExactly(view, h, SnapshotFor(strong, job, time), job, lower, rest)
          && (rest.exhausted ==>
                && j.trace == job.trace[lower..]
                && var end := End(j.secs);
                   end.trace + 1 == |j.trace| && end.sample + 1 == |SamplesOf(view, h, j)[end.trace]|))
  }

  /** Nothing is left to look at: the barriers cover the rest of the trace to its end, and it has looped. */
  predicate CompletesFrom(m: Metric, robot: Robot, view: View, h: History, strong: bool, job: Job, human: Capsule,
                          mode: Mode, time: nat, lower: nat)
  {
    && IsFirst(ModesOf(job.trace), mode, lower) && SectionsWellFormed(job.secs)
    && var start := S.CheckedSampleIndex(robot, h, SnapshotFor(strong, job, time), mode, time);
       start.Some? &&
       var rs := SectionsReset(m, job.secs, human, TraceSampleIndex(lower, start.value),
                               ResetBound(strong, ModesOf(job.trace), lower));
       && SectionsWellFormed(rs) && rs != [] && lower + End(rs).trace + 1 == |job.trace|
       && CoversLast(view, h, SnapshotFor(strong, job, time), job, lower, rs)
       && Looped(ModesOf(job.trace[lower..]))
  }

  ghost predicate Completes(m: Metric, robot: Robot, view: View, h: History, strong: bool, job: Job, human: Capsule,
                            mode: Mode, time: nat) {
    exists lower: nat :: CompletesFrom(m, robot, view, h, strong, job, human, mode, time, lower)
  }

  /** An awakening has its time registered, unless there is nothing new, or nothing left to look at. */
  ghost predicate Registers(m: Metric, robot: Robot, view: View, h: History, strong: bool, job: Job, time: nat,
                            human: Option<Capsule>)
  {
    job.initialTime < time &&
    (human.None? || !Completes(m, robot, view, h, strong, job, human.value, S.ModeAt(h, time), time))
  }

  class ReuseLookAheadJobFactory {
    const registry: LookAheadJobRegistry
    const metric: Metric
    const policy: UpdatePolicy
    const strong: bool

    constructor (metric: Metric, policy: UpdatePolicy, strong: bool)
      ensures this.metric == metric && this.policy == policy && this.strong == strong
      ensures fresh(registry) && registry.Valid() && registry.timestamps == []
    {
      this.metric, this.policy, this.strong := metric, policy, strong;
      registry := new LookAheadJobRegistry();
    }

    /** The last trace position that may be reused from `lower` on. */
    method ResetUpper(trace: seq<Entry>, lower: nat) returns (upper: nat)
      requires lower < |trace| && Distinct(ModesOf(trace)[..|trace| - 1])
      ensures upper == ResetBound(strong, ModesOf(trace), lower)
    {
      upper := |trace| - 1;
      var predictionTrace := new ModeTrace.Of(trace);
      if strong && lower > 0 {
        var i := 0;
        while i < lower
          invariant 0 <= i <= lower && predictionTrace.entries == trace && fresh(predictionTrace)
          invariant upper == if ModesOf(trace)[|trace| - 1] in ModesOf(trace)[..i] then |trace| - 2 else |trace| - 1
        {
          var backward := predictionTrace.BackwardIndex(trace[i].mode);
          LastIsAlone(trace, i, backward);
          if backward > i && backward - 1 < upper {
            upper := backward - 1;
          }
          i := i + 1;
        }
      }
    }

    /** Resets the barriers from position `lower` of the trace on, and cuts trace and path to what they cover. */
    method ResetJob(job: Job, human: Capsule, mode: Mode, time: nat, lower: nat, history: RobotStateHistory,
                    ghost view: View)
      returns (rest: Remainder)
      requires history.Valid() && history.presences != [] && job.id.robotSegment < history.robot.segments
      requires job.Valid() && IsFirst(ModesOf(job.trace), mode, lower)
      ensures GoodRest(metric, history.robot, view, history.Value(), strong, job, human, mode, time, lower, rest)
      ensures Supported(history.robot, history.Value(), job, SnapshotFor(strong, job, time), mode, time) ==> !rest.Lost?
    {
      hide Histories.Valid, GoodRest, GoesOn, S.StoredAt, S.CheckedSampleIndex, Distinct, FitsTrace, SectionsReset;
      LostGood(metric, history.robot, view, history.Value(), strong, job, human, mode, time, lower);
      var snapshotTime := SnapshotFor(strong, job, time);
      var barrierSequence := new BarrierSequence.Copy(metric, policy, job.secs);
      var upper := ResetUpper(job.trace, lower);
      BoundIsNotBefore(strong, ModesOf(job.trace), mode, lower);
      var start := history.CheckedSampleIndex(snapshotTime, mode, time);
      if start.None? {
        return Lost;
      }
      ResetEndsWithin(metric, job.secs, human, TraceSampleIndex(lower, start.value), upper);
      barrierSequence.ResetTo(human, lower, upper, start.value);
      if barrierSequence.IsEmpty() {
        assert barrierSequence.Value() == [];
        NothingGood(metric, history.robot, view, history.Value(), strong, job, human, mode, time, lower);
        return Nothing;
      }
      rest := CutToBarriers(job, human, mode, time, lower, start.value, barrierSequence, history, view);
    }

    /** Cuts the job to what its barriers still cover after the reset. */
    method CutToBarriers(job: Job, human: Capsule, mode: Mode, time: nat, lower: nat, ghost start: nat,
                         barrierSequence: BarrierSequence, history: RobotStateHistory, ghost view: View)
      returns (rest: Remainder)
      requires Histories.Valid(history.robot, history.Value()) && job.id.robotSegment < history.robot.segments
      requires barrierSequence.Valid() && SectionsWellFormed(barrierSequence.Value())
      requires job.Valid() && SectionsWellFormed(job.secs) && IsFirst(ModesOf(job.trace), mode, lower)
      requires S.CheckedSampleIndex(history.robot, history.Value(), SnapshotFor(strong, job, time), mode,
                                    time) == Some(start)
      requires var secs, upper := barrierSequence.Value(), ResetBound(strong, ModesOf(job.trace), lower);
               && secs == SectionsReset(metric, job.secs, human, TraceSampleIndex(lower, start), upper)
               && secs != [] && lower + End(secs).trace <= upper < |job.trace|
      ensures GoodRest(metric, history.robot, view, history.Value(), strong, job, human, mode, time, lower, rest)
      ensures Stored(history.Value(), job, SnapshotFor(strong, job, time)) ==> !rest.Lost?
    {
      hide *;
      LostGood(metric, history.robot, view, history.Value(), strong, job, human, mode, time, lower);
      var snapshotTime := SnapshotFor(strong, job, time);
      var secs := barrierSequence.Value();
      var lastTrace := barrierSequence.LastUpperTraceIndex();
      var modeToReuse := job.trace[lower + lastTrace].mode;
      var samples := history.SamplesAt(snapshotTime, modeToReuse);
      if samples.None? {
        NotStored(history.Value(), job, snapshotTime, lower + lastTrace);
        return Lost;
      }
      SegmentStored(history.robot, view, history.Value(), snapshotTime, job.id.robotSegment, modeToReuse);
      var last := barrierSequence.LastBarrier();
      LastOfEnd(secs);
      var covered := last.range.Max().sample == |samples.value[job.id.robotSegment]| - 1;
      rest := Reduce(job, secs, lower, lower + lastTrace, covered);
      RestGood(metric, history.robot, view, history.Value(), strong, job, human, mode, time, lower, start, secs,
               covered, rest);
    }

    /** Keeps the part of trace and path that the barriers cover, and the entry after it if they cover all of it. */
    method Reduce(job: Job, secs: seq<SectionValue>, lower: nat, lastCovered: nat,
                  covered: bool) returns (rest: Remainder)
      requires job.Valid() && lower <= lastCovered < |job.trace|
      ensures rest == Reduction(job, secs, lower, lastCovered, covered)
    {
      var upper := if covered then lastCovered + 1 else lastCovered;
      var exhausted := upper == |job.trace|;
      var predictionTrace := new ModeTrace.Of(job.trace);
      predictionTrace.ReduceBetween(lower, if exhausted then upper - 1 else upper);
      var path := new LookAheadJobPath(job.path);
      path.ReduceBetween(lower, upper);
      rest := Rest(Branch(predictionTrace.entries, path.elements), secs, exhausted);
    }

    /** Wakes a job for a later time, at which a new sample of its human is known, or is known to be empty. */
    method Awaken(job: Job, time: nat, human: Option<Capsule>, history: RobotStateHistory, ghost view: View)
      returns (r: Awakening)
      requires registry.Valid() && history.Valid() && history.presences != []
      requires job.id.robotSegment < history.robot.segments
      requires job.Valid()
      modifies registry, registry.trees.Values, registry.Nodes()
      ensures registry.Valid()
      ensures fresh(registry.trees.Values - old(registry.trees.Values))
      ensures fresh(registry.Nodes() - old(registry.Nodes()))
      ensures registry.timestamps ==
              if r.Awakening? && Registers(metric, history.robot, view, history.Value(), strong, job, time, human)
              then TimesAfter(old(registry.timestamps), time) else old(registry.timestamps)
      ensures IsAwakening(metric, history.robot, view, history.Value(), strong, job, time, human, r,
                          old(registry.Paths(Key(time, job.id))), registry.Paths(Key(time, job.id)))
      ensures Supported(history.robot, history.Value(), job, SnapshotFor(strong, job, time),
                        S.ModeAt(history.Value(), time), time) ==>
                (r.AwakeningFailure? <==>
                 Registers(metric, history.robot, view, history.Value(), strong, job, time, human) &&
                 !AcceptsTime(old(registry.timestamps), time))
    {
      hide GoesOn, IsAwakening, Supported, Histories.Valid, GoodRest, S.ModeAt, S.TraceAt, AreNext, Distinct, FitsTrace,
           SectionsWellFormed, IsTree, Apart, Increasing, Reachable, Blocked, JobFor, SnapshotFor, AreCandidates, Kept,
           Completes, TimesAfter, AcceptsTime, Stored, Registered, OneRoot, LinkedAt, Grows, PrefixClosed, Injective;
      ghost var h, before := history.Value(), registry.Paths(Key(time, job.id));
      var mode := history.ModeAt(time);
      if time <= job.initialTime {
        r := Awakening([Woken(job, Unaffected)]);
        UnaffectedAwakening(metric, history.robot, view, h, strong, job, time, human, before, before);
        return;
      }
      if human.None? {
        r := Postpone(job, time, history, view);
        assert history.Value() == h;
        return;
      }
      ghost var candidates, completed;
      r, candidates, completed := AwakenWith(job, time, human.value, mode, history, view);
      assert history.Value() == h;
      WithHuman(metric, history.robot, view, h, strong, job, time, human, r, before,
                registry.Paths(Key(time, job.id)), candidates, completed);
    }

    /** Without a human sample nothing is computed: the path is registered, and the job goes back to sleep. */
    method Postpone(job: Job, time: nat, ghost history: RobotStateHistory, ghost view: View) returns (r: Awakening)
      requires registry.Valid() && job.initialTime < time
      modifies registry, registry.trees.Values, registry.Nodes()
      ensures registry.Valid()
      ensures fresh(registry.trees.Values - old(registry.trees.Values))
      ensures fresh(registry.Nodes() - old(registry.Nodes()))
      ensures r.AwakeningFailure? <==> !AcceptsTime(old(registry.timestamps), time)
      ensures registry.timestamps ==
              if r.Awakening? then TimesAfter(old(registry.timestamps), time) else old(registry.timestamps)
      ensures IsAwakening(metric, history.robot, view, history.Value(), strong, job, time, None, r,
                          old(registry.Paths(Key(time, job.id))), registry.Paths(Key(time, job.id)))
    {
      hide IsAwakening, SnapshotFor, IsTree, Apart, Increasing, Blocked, AcceptsTime;
      ghost var h, before := history.Value(), registry.Paths(Key(time, job.id));
      var done := Register(time, job.id, Priorities(job.path));
      ghost var after := registry.Paths(Key(time, job.id));
      if done.None? {
        r := AwakeningFailure;
        FailedAwakening(metric, history.robot, view, h, strong, job, time, None, before, after);
        return;
      }
      r := Awakening([Woken(job.(initialTime := time, snapshotTime := SnapshotFor(strong, job, time)), Uncomputable)]);
      UncomputableAwakening(metric, history.robot, view, h, strong, job, time, None, before, after);
    }

    method AwakenWith(job: Job, time: nat, human: Capsule, mode: Mode, history: RobotStateHistory, ghost view: View)
      returns (r: Awakening, ghost candidates: seq<Job>, ghost completed: bool)
      requires registry.Valid() && history.Valid() && history.presences != []
      requires job.id.robotSegment < history.robot.segments
      requires job.Valid()
      modifies registry, registry.trees.Values, registry.Nodes()
      ensures registry.Valid()
      ensures fresh(registry.trees.Values - old(registry.trees.Values))
      ensures fresh(registry.Nodes() - old(registry.Nodes()))
      ensures registry.timestamps ==
              if r.Awakening? &&
                 !Completes(metric, history.robot, view, history.Value(), strong, job, human, mode, time)
              then TimesAfter(old(registry.timestamps), time) else old(registry.timestamps)
      ensures r.Awakening? ==>
                && AreCandidates(metric, history.robot, view, history.Value(), strong, job, time, human, mode,
                                 candidates, completed)
                && Kept(candidates, completed, r.jobs, old(registry.Paths(Key(time, job.id))),
                        registry.Paths(Key(time, job.id)))
      ensures Supported(history.robot, history.Value(), job, SnapshotFor(strong, job, time), mode, time) ==>
                (r.AwakeningFailure? <==>
                 !Completes(metric, history.robot, view, history.Value(), strong, job, human, mode, time) &&
                 !AcceptsTime(old(registry.timestamps), time))
    {
      hide Supported, Histories.Valid, AreCandidates, Kept, SectionsWellFormed, IsTree, Apart, Increasing, Distinct,
           FitsTrace, AcceptsTime, SnapshotFor, Completes, TimesAfter, Blocked, Stored, IsAwakening, Registers,
           Registered, OneRoot, LinkedAt, Grows, PrefixClosed, Injective;
      ghost var h, paths := history.Value(), registry.Paths(Key(time, job.id));
      var jobs, isCompleted := FindCandidates(job, time, human, mode, history, view);
      candidates, completed := if jobs.Some? then jobs.value else [], isCompleted;
      if jobs.None? {
        return AwakeningFailure, candidates, completed;
      }
      CompletedIff(metric, history.robot, view, h, strong, job, time, human, mode, jobs.value, isCompleted);
      if isCompleted {
        KeptCompleted(jobs.value[0], registry.Paths(Key(time, job.id)));
        assert jobs.value == [jobs.value[0]];
        return Awakening([Woken(jobs.value[0], Completed)]), candidates, completed;
      }
      r := RegisterAll(time, job.id, jobs.value);
    }

    /** The jobs that an awakening may result in, before any is registered: none where the source fails. */
    method FindCandidates(job: Job, time: nat, human: Capsule, mode: Mode, history: RobotStateHistory, ghost view: View)
      returns (candidates: Option<seq<Job>>, completed: bool)
      requires history.Valid() && history.presences != [] && job.id.robotSegment < history.robot.segments && job.Valid()
      ensures candidates.Some? ==>
                && candidates.value != [] && (completed ==> |candidates.value| == 1)
                && AreCandidates(metric, history.robot, view, history.Value(), strong, job, time, human, mode,
                                 candidates.value, completed)
      ensures Supported(history.robot, history.Value(), job, SnapshotFor(strong, job, time), mode, time) ==>
                candidates.Some?
    {
      hide GoesOn, IsAwakening, Supported, Histories.Valid, GoodRest, S.ModeAt, S.TraceAt, AreNext, Distinct, FitsTrace,
           SectionsWellFormed, Reachable, JobFor, SnapshotFor, AreCandidates;
      completed := false;
      var lower := FindStart(job.trace, mode);
      if lower >= 0 {
        TraceValid(job);
        var rest := ResetJob(job, human, mode, time, lower, history, view);
        match rest
        case Lost => return None, false;
        case Rest(branch, secs, exhausted) =>
          if exhausted {
            candidates, completed := FindNext(job, time, human, mode, lower, rest, history, view);
            return;
          }
          RestCandidate(metric, history.robot, view, history.Value(), strong, job, time, human, mode, lower, rest);
          return Some([JobFor(strong, job, human, time, branch, secs)]), false;
        case Nothing =>
          NothingLeft(metric, history.robot, view, history.Value(), strong, job, time, human, mode, lower);
      }
      RestartCandidate(metric, history.robot, view, history.Value(), strong, job, time, human, mode);
      candidates := Some([Job(job.id, time, time, human, [Entry(mode, 1.0)], [], [])]);
    }

    method FindStart(trace: seq<Entry>, mode: Mode) returns (lower: int)
      ensures lower == -1 ==> mode !in ModesOf(trace)
      ensures lower == -1 || (lower >= 0 && IsFirst(ModesOf(trace), mode, lower))
    {
      var predictionTrace := new ModeTrace.Of(trace);
      lower := predictionTrace.ForwardIndex(mode);
    }

    /** All of the rest is covered: the job is completed if it has looped, else its next jobs are looked for. */
    method FindNext(job: Job, time: nat, human: Capsule, mode: Mode, lower: nat, rest: Remainder,
                    history: RobotStateHistory, ghost view: View)
      returns (candidates: Option<seq<Job>>, completed: bool)
      requires rest.Rest? && rest.exhausted && job.Valid() && IsFirst(ModesOf(job.trace), mode, lower)
      requires GoodRest(metric, history.robot, view, history.Value(), strong, job, human, mode, time, lower, rest)
      ensures candidates.Some? ==>
                && candidates.value != [] && (completed ==> |candidates.value| == 1)
                && AreCandidates(metric, history.robot, view, history.Value(), strong, job, time, human, mode,
                                 candidates.value, completed)
      ensures Supported(history.robot, history.Value(), job, SnapshotFor(strong, job, time), mode, time) ==>
                candidates.Some?
    {
      hide GoesOn, IsAwakening, Supported, Histories.Valid, GoodRest, S.ModeAt, S.TraceAt, AreNext, Distinct, FitsTrace,
           SectionsWellFormed, Reachable, JobFor, SnapshotFor, AreCandidates;
      completed := false;
      ghost var h := history.Value();
      RestFits(metric, history.robot, view, h, strong, job, time, human, mode, lower, rest);
      var past := history.TraceAt(time);
      NextSupported(metric, history.robot, view, h, strong, job, human, mode, time, lower, rest);
      if past.None? {
        return None, false;
      }
      ghost var next, order;
      var following;
      following, next, order := CreateNext(Certain(past.value), rest.branch);
      NextJobsSupported(past.value, rest.branch, following, next, order);
      if following.Failure? {
        return None, false;
      }
      NextCandidates(metric, history.robot, view, h, strong, job, time, human, mode, lower, rest, past.value,
                     following, next, order);
      if following.branches == [] {
        return Some([JobFor(strong, job, human, time, rest.branch, rest.secs)]), true;
      }
      candidates := Some(JobsFor(strong, job, human, time, following.branches, rest.secs));
    }

    method Register(time: nat, id: LookAheadJobIdentifier, path: Choices) returns (done: Option<bool>)
      requires registry.Valid()
      modifies registry, registry.trees.Values, registry.Nodes()
      ensures registry.Valid()
      ensures fresh(registry.trees.Values - old(registry.trees.Values))
      ensures fresh(registry.Nodes() - old(registry.Nodes()))
      ensures done.None? <==> !AcceptsTime(old(registry.timestamps), time)
      ensures registry.timestamps ==
              if done.Some? then TimesAfter(old(registry.timestamps), time) else old(registry.timestamps)
      ensures done.Some? ==>
                && (done.value <==> !Blocked(old(registry.Paths(Key(time, id))), path))
                && registry.Paths(Key(time, id)) ==
                   old(registry.Paths(Key(time, id))) + if done.value then {path} else {}
    {
      hide IsTree, Apart, Increasing, Blocked, AcceptsTime, TimesAfter;
      done := registry.TryRegister(time, id, path);
    }

    /** The jobs whose paths can be registered are woken, and the others, which have been created already, dropped. */
    method RegisterAll(time: nat, id: LookAheadJobIdentifier, jobs: seq<Job>) returns (r: Awakening)
      requires registry.Valid() && jobs != []
      modifies registry, registry.trees.Values, registry.Nodes()
      ensures registry.Valid()
      ensures fresh(registry.trees.Values - old(registry.trees.Values))
      ensures fresh(registry.Nodes() - old(registry.Nodes()))
      ensures r.AwakeningFailure? <==> !AcceptsTime(old(registry.timestamps), time)
      ensures registry.timestamps ==
              if r.Awakening? then TimesAfter(old(registry.timestamps), time) else old(registry.timestamps)
      ensures r.Awakening? ==> Kept(jobs, false, r.jobs, old(registry.Paths(Key(time, id))),
                                    registry.Paths(Key(time, id)))
    {
      hide IsTree, Apart, Increasing, Blocked, Kept, AcceptsTime, TimesAfter;
      ghost var before, times := registry.Paths(Key(time, id)), registry.timestamps;
      TimesAfterAccepts(times, time);
      var woken := [];
      var i := 0;
      KeptNone(jobs, before);
      while i < |jobs|
        invariant 0 <= i <= |jobs| && registry.Valid()
        invariant fresh(registry.trees.Values - old(registry.trees.Values))
        invariant fresh(registry.Nodes() - old(registry.Nodes()))
        invariant registry.timestamps == if i > 0 then TimesAfter(times, time) else times
        invariant i > 0 ==> AcceptsTime(times, time)
        invariant Kept(jobs[..i], false, woken, before, registry.Paths(Key(time, id)))
      {
        ghost var now := registry.Paths(Key(time, id));
        var done := Register(time, id, Priorities(jobs[i].path));
        if done.None? {
          return AwakeningFailure;
        }
        KeptStep(jobs, i, woken, before, now, done.value);
        if done.value {
          woken := woken + [Woken(jobs[i], Different)];
        } else {
          assert woken + [] == woken;
        }
        i := i + 1;
      }
      assert jobs[..i] == jobs;
      r := Awakening(woken);
    }
  }

  /** Without reuse, a woken job starts over in the present mode, if it is the primary one of those that share an
      identifier; the others are dropped. */
  function DiscardAwakened(job: Job, time: nat, human: Option<Capsule>, mode: Mode): seq<Woken> {
    if time <= job.initialTime then [Woken(job, Unaffected)]
    else if human.None? then [Woken(job.(initialTime := time, snapshotTime := time), Uncomputable)]
    else if Primary(job.path) then
      [Woken(Job(job.id, time, time, human.value, [Entry(mode, 1.0)], [], []), Different)]
    else []
  }

  class DiscardLookAheadJobFactory {
    /** `OneRestarts` says what this comes to for all the jobs of a prediction. */
    method Awaken(job: Job, time: nat, human: Option<Capsule>, history: RobotStateHistory) returns (jobs: seq<Woken>)
      ensures jobs == DiscardAwakened(job, time, human, S.ModeAt(history.Value(), time))
    {
      var mode := history.ModeAt(time);
      if job.initialTime < time {
        if human.None? {
          return [Woken(job.(initialTime := time, snapshotTime := time), Uncomputable)];
        }
        var path := new LookAheadJobPath(job.path);
        var primary := path.IsPrimary();
        if !primary {
          return [];
        }
        return [Woken(Job(job.id, time, time, human.value, [Entry(mode, 1.0)], [], []), Different)];
      }
      jobs := [Woken(job, Unaffected)];
    }
  }

  /** The job of a branch, all of whose other parts are shared. */
  function JobAt(job: Job, b: Branch): Job { job.(trace := b.trace, path := b.path) }

  function DiscardAwakenedAll(job: Job, bs: seq<Branch>, time: nat, human: Option<Capsule>, mode: Mode): seq<Woken> {
    if bs == [] then []
    else DiscardAwakenedAll(job, bs[..|bs| - 1], time, human, mode) +
         DiscardAwakened(JobAt(job, bs[|bs| - 1]), time, human, mode)
  }

  lemma {:induction false} PrimaryRestart(job: Job, bs: seq<Branch>, time: nat, human: Capsule, mode: Mode)
    requires job.initialTime < time
    ensures DiscardAwakenedAll(job, bs, time, Some(human), mode) ==
            seq(PrimaryAmong(bs), _ => Woken(Job(job.id, time, time, human, [Entry(mode, 1.0)], [], []), Different))
  {
    hide Primary;
    if bs == [] {
    } else {
      PrimaryRestart(job, bs[..|bs| - 1], time, human, mode);
    }
  }

  /** All the jobs of one prediction share the identifier and the times of its root. However far it has been
      followed, a new human sample wakes exactly one of them, which starts over in the present mode. */
  lemma OneRestarts(past: seq<Mode>, t: Tree, job: Job, time: nat, human: Capsule, mode: Mode)
    requires IsPrunedTree(past, t) && Primary(t.job.path) && job.initialTime < time
    ensures DiscardAwakenedAll(job, LeafJobs(t), time, Some(human), mode) ==
            [Woken(Job(job.id, time, time, human, [Entry(mode, 1.0)], [], []), Different)]
  {
    hide IsPrunedTree, Primary;
    OnePrimaryLeaf(past, t);
    PrimaryRestart(job, LeafJobs(t), time, human, mode);
  }

  lemma TimesAfterAccepts(timestamps: seq<nat>, t: nat)
    ensures AcceptsTime(TimesAfter(timestamps, t), t)
    ensures TimesAfter(TimesAfter(timestamps, t), t) == TimesAfter(timestamps, t)
  {
  }

  function JobsFor(strong: bool, job: Job, human: Capsule, time: nat, branches: seq<Branch>,
                   secs: seq<SectionValue>): (js: seq<Job>)
    ensures |js| == |branches|
    ensures forall i :: 0 <= i < |js| ==> js[i] == JobFor(strong, job, human, time, branches[i], secs)
  {
    seq(|branches|, i requires 0 <= i < |branches| => JobFor(strong, job, human, time, branches[i], secs))
  }

  /** The jobs that follow a covered rest, from the prediction of its next modes. */
  ghost predicate AreFollowing(h: History, strong: bool, job: Job, human: Capsule, time: nat, rest: Remainder,
                               js: seq<Job>, completed: bool)
    requires rest.Rest?
  {
    exists following, next, order ::
      AreFollowingBy(h, strong, job, human, time, rest, js, completed, following, next, order)
  }

  ghost predicate AreFollowingBy(h: History, strong: bool, job: Job, human: Capsule, time: nat, rest: Remainder,
                                 js: seq<Job>, completed: bool, following: NextJobs, next: map<Mode, real>,
                                 order: seq<Mode>)
    requires rest.Rest?
  {
    && S.TraceAt(h, time).Some? && AreNext(S.TraceAt(h, time).value, rest.branch, following, next, order)
    && following.NextJobs?
    && (completed <==> following.branches == [])
    && js == if completed then [JobFor(strong, job, human, time, rest.branch, rest.secs)]
             else JobsFor(strong, job, human, time, following.branches, rest.secs)
  }

  /** What a job woken with a new human sample may become. It starts over in the present mode if that is not in its
      trace or no barrier is left; else it goes on from its barriers, with the first entry they do not cover or,
      if they cover all, with its next modes. It is completed if they cover all and it has looped. */
  ghost predicate AreCandidates(m: Metric, robot: Robot, view: View, h: History, strong: bool, job: Job, time: nat,
                                human: Capsule, mode: Mode, js: seq<Job>, completed: bool)
  {
    || (!completed && js == [Job(job.id, time, time, human, [Entry(mode, 1.0)], [], [])] &&
        (mode !in ModesOf(job.trace) || StartsOver(m, robot, h, strong, job, human, mode, time)))
    || (exists lower, rest :: ComeFrom(m, robot, view, h, strong, job, time, human, mode, js, completed, lower, rest))
  }

  ghost predicate StartsOver(m: Metric, robot: Robot, h: History, strong: bool, job: Job, human: Capsule, mode: Mode,
                             time: nat) {
    exists lower ::
      IsFirst(ModesOf(job.trace), mode, lower) && ResetToNothing(m, robot, h, strong, job, human, mode, time, lower)
  }

  ghost predicate ComeFrom(m: Metric, robot: Robot, view: View, h: History, strong: bool, job: Job, time: nat,
                           human: Capsule, mode: Mode, js: seq<Job>, completed: bool, lower: nat, rest: Remainder)
  {
    && IsFirst(ModesOf(job.trace), mode, lower) && rest.Rest?
    && GoodRest(m, robot, view, h, strong, job, human, mode, time, lower, rest)
    && if rest.exhausted then AreFollowing(h, strong, job, human, time, rest, js, completed)
       else !completed && js == [JobFor(strong, job, human, time, rest.branch, rest.secs)]
  }

  predicate PathIn(woken: seq<Woken>, p: Choices) {
    exists w :: w in woken && p == Priorities(w.job.path)
  }

  /** Of the candidates those are woken, each once, whose paths could be registered; the paths of the others, or
      prefixes of them, are registered now. No path but those of the woken is added. A completed job needs no path. */
  ghost predicate Kept(js: seq<Job>, completed: bool, woken: seq<Woken>, before: set<Choices>, after: set<Choices>) {
    if completed then |js| == 1 && woken == [Woken(js[0], Completed)] && after == before
    else
      && before <= after && (forall p :: p in after ==> p in before || PathIn(woken, p))
      && (forall i, k :: 0 <= i < k < |woken| ==> woken[i] != woken[k])
      && (forall w :: w in woken ==>
            && w.result.Different? && w.job in js
            && Priorities(w.job.path) in after && !Blocked(before, Priorities(w.job.path)))
      && (forall j :: j in js ==> Woken(j, Different) in woken || Blocked(after, Priorities(j.path)))
  }

  lemma KeptNone(js: seq<Job>, before: set<Choices>)
    ensures Kept(js[..0], false, [], before, before)
  {
  }

  lemma KeptCompleted(j: Job, before: set<Choices>)
    ensures Kept([j], true, [Woken(j, Completed)], before, before)
  {
  }

  lemma BlockedGrows(before: set<Choices>, after: set<Choices>, p: Choices)
    requires before <= after && Blocked(before, p)
    ensures Blocked(after, p)
  {
  }

  lemma KeptStep(js: seq<Job>, i: nat, woken: seq<Woken>, before: set<Choices>, now: set<Choices>, done: bool)
    requires i < |js| && Kept(js[..i], false, woken, before, now) && (done <==> !Blocked(now, Priorities(js[i].path)))
    ensures var after := now + if done then {Priorities(js[i].path)} else {};
            Kept(js[..i + 1], false, woken + if done then [Woken(js[i], Different)] else [], before, after)
  {
    hide Blocked, Priorities;
    assert js[..i + 1] == js[..i] + [js[i]];
    if done {
      KeptWoken(js[..i], js[i], woken, before, now);
    } else {
      assert woken + [] == woken && now + {} == now;
    }
  }

  lemma FreeOfAll(before: set<Choices>, now: set<Choices>, p: Choices)
    requires before <= now && !Blocked(now, p)
    ensures p !in now && !Blocked(before, p)
  {
    assert p == p[..|p|];
  }

  lemma KeptWoken(js: seq<Job>, j: Job, woken: seq<Woken>, before: set<Choices>, now: set<Choices>)
    requires Kept(js, false, woken, before, now) && !Blocked(now, Priorities(j.path))
    ensures Kept(js + [j], false, woken + [Woken(j, Different)], before, now + {Priorities(j.path)})
  {
    var p, w := Priorities(j.path), Woken(j, Different);
    var after, woken' := now + {p}, woken + [w];
    FreeOfAll(before, now, p);
    hide Blocked, Priorities;
    assert woken'[|woken|] == w;
    forall v | v in woken ensures v in woken' { }
    forall q | q in after ensures q in before || PathIn(woken', q) {
      if q == p { assert w in woken'; }
    }
    forall i | 0 <= i < |woken| ensures woken[i] != w {
      assert woken[i] in woken;
    }
    forall j' | j' in js ensures Woken(j', Different) in woken' || Blocked(after, Priorities(j'.path)) {
      if Blocked(now, Priorities(j'.path)) { BlockedGrows(now, after, Priorities(j'.path)); }
    }
  }

  /** What awakening a job comes to; `before` and `after` are the paths registered for it at the new time. */
  ghost predicate IsAwakening(m: Metric, robot: Robot, view: View, h: History, strong: bool, job: Job, time: nat,
                              human: Option<Capsule>, r: Awakening, before: set<Choices>, after: set<Choices>)
  {
    if time <= job.initialTime then r == Awakening([Woken(job, Unaffected)]) && after == before
    else if human.None? then
      || r == AwakeningFailure
      || (r == Awakening([Woken(job.(initialTime := time, snapshotTime := SnapshotFor(strong, job, time)),
                                Uncomputable)])
          && before <= after && Blocked(after, Priorities(job.path)))
    else
      r.Awakening? ==>
        exists js, completed ::
          && AreCandidates(m, robot, view, h, strong, job, time, human.value, S.ModeAt(h, time), js, completed)
          && Kept(js, completed, r.jobs, before, after)
  }

  lemma UnaffectedAwakening(m: Metric, robot: Robot, view: View, h: History, strong: bool, job: Job, time: nat,
                            human: Option<Capsule>, before: set<Choices>, after: set<Choices>)
    requires time <= job.initialTime && after == before
    ensures IsAwakening(m, robot, view, h, strong, job, time, human, Awakening([Woken(job, Unaffected)]), before, after)
  {
  }

  lemma FailedAwakening(m: Metric, robot: Robot, view: View, h: History, strong: bool, job: Job, time: nat,
                        human: Option<Capsule>, before: set<Choices>, after: set<Choices>)
    requires job.initialTime < time
    ensures IsAwakening(m, robot, view, h, strong, job, time, human, AwakeningFailure, before, after)
  {
  }

  lemma UncomputableAwakening(m: Metric, robot: Robot, view: View, h: History, strong: bool, job: Job, time: nat,
                              human: Option<Capsule>, before: set<Choices>, after: set<Choices>)
    requires job.initialTime < time && human.None?
    requires Blocked(before, Priorities(job.path)) || Priorities(job.path) in after
    requires before <= after
    ensures IsAwakening(m, robot, view, h, strong, job, time, human,
                        Awakening([Woken(job.(initialTime := time, snapshotTime := SnapshotFor(strong, job, time)),
                                         Uncomputable)]),
                        before, after)
  {
    var p := Priorities(job.path);
    if Blocked(before, p) { BlockedGrows(before, after, p); } else { assert p[..|p|] == p; }
  }

  lemma WithHuman(m: Metric, robot: Robot, view: View, h: History, strong: bool, job: Job, time: nat,
                  human: Option<Capsule>, r: Awakening, before: set<Choices>, after: set<Choices>, js: seq<Job>,
                  completed: bool)
    requires job.initialTime < time && human.Some?
    requires r.Awakening? ==>
               && AreCandidates(m, robot, view, h, strong, job, time, human.value, S.ModeAt(h, time), js, completed)
               && Kept(js, completed, r.jobs, before, after)
    ensures IsAwakening(m, robot, view, h, strong, job, time, human, r, before, after)
  {
    hide AreCandidates, Kept;
  }

  lemma RestCandidate(m: Metric, robot: Robot, view: View, h: History, strong: bool, job: Job, time: nat,
                      human: Capsule, mode: Mode, lower: nat, rest: Remainder)
    requires rest.Rest? && !rest.exhausted && IsFirst(ModesOf(job.trace), mode, lower)
    requires GoodRest(m, robot, view, h, strong, job, human, mode, time, lower, rest)
    ensures AreCandidates(m, robot, view, h, strong, job, time, human, mode,
                          [JobFor(strong, job, human, time, rest.branch, rest.secs)], false)
  {
    hide GoodRest, JobFor, AreFollowing, IsFirst;
    assert ComeFrom(m, robot, view, h, strong, job, time, human, mode,
                    [JobFor(strong, job, human, time, rest.branch, rest.secs)], false, lower, rest);
  }

  lemma NothingLeft(m: Metric, robot: Robot, view: View, h: History, strong: bool, job: Job, time: nat, human: Capsule,
                    mode: Mode, lower: nat)
    requires IsFirst(ModesOf(job.trace), mode, lower)
    requires GoodRest(m, robot, view, h, strong, job, human, mode, time, lower, Nothing)
    ensures StartsOver(m, robot, h, strong, job, human, mode, time)
  {
    hide ResetToNothing, IsFirst;
  }

  lemma RestartCandidate(m: Metric, robot: Robot, view: View, h: History, strong: bool, job: Job, time: nat,
                         human: Capsule, mode: Mode)
    requires mode !in ModesOf(job.trace) || StartsOver(m, robot, h, strong, job, human, mode, time)
    ensures AreCandidates(m, robot, view, h, strong, job, time, human, mode,
                          [Job(job.id, time, time, human, [Entry(mode, 1.0)], [], [])], false)
  {
    hide StartsOver, ComeFrom;
  }

  lemma NextCandidates(m: Metric, robot: Robot, view: View, h: History, strong: bool, job: Job, time: nat,
                       human: Capsule, mode: Mode, lower: nat, rest: Remainder, past: seq<Mode>, following: NextJobs,
                       next: map<Mode, real>, order: seq<Mode>)
    requires rest.Rest? && rest.exhausted && GoodRest(m, robot, view, h, strong, job, human, mode, time, lower, rest)
    requires IsFirst(ModesOf(job.trace), mode, lower)
    requires S.TraceAt(h, time) == Some(past)
    requires AreNext(past, rest.branch, following, next, order) && following.NextJobs?
    ensures var completed := following.branches == [];
            AreCandidates(m, robot, view, h, strong, job, time, human, mode,
                          if completed then [JobFor(strong, job, human, time, rest.branch, rest.secs)]
                          else JobsFor(strong, job, human, time, following.branches, rest.secs), completed)
  {
    hide GoodRest, JobFor, JobsFor, IsFirst, AreNext, S.TraceAt;
    var completed := following.branches == [];
    var js := if completed then [JobFor(strong, job, human, time, rest.branch, rest.secs)]
              else JobsFor(strong, job, human, time, following.branches, rest.secs);
    assert AreFollowingBy(h, strong, job, human, time, rest, js, completed, following, next, order);
    assert ComeFrom(m, robot, view, h, strong, job, time, human, mode, js, completed, lower, rest);
  }

  /** A job is completed exactly if nothing is left to look at: this can be told before it is woken. */
  lemma CompletedIff(m: Metric, robot: Robot, view: View, h: History, strong: bool, job: Job, time: nat, human: Capsule,
                     mode: Mode, js: seq<Job>, completed: bool)
    requires AreCandidates(m, robot, view, h, strong, job, time, human, mode, js, completed) && job.Valid()
    ensures completed <==> Completes(m, robot, view, h, strong, job, human, mode, time)
  {
    hide CompletesFrom, ComeFrom, StartsOver, IsFirst, Distinct, FitsTrace, SectionsWellFormed;
    if lower, rest :| ComeFrom(m, robot, view, h, strong, job, time, human, mode, js, completed, lower, rest) {
      RestCompletes(m, robot, view, h, strong, job, time, human, mode, js, completed, lower, rest);
      forall k: nat | CompletesFrom(m, robot, view, h, strong, job, human, mode, time, k) ensures k == lower {
        CompletesFirst(m, robot, view, h, strong, job, time, human, mode, k);
        FirstUnique(ModesOf(job.trace), mode, lower, k);
      }
    } else {
      forall k: nat ensures !CompletesFrom(m, robot, view, h, strong, job, human, mode, time, k) {
        NoneCompletes(m, robot, view, h, strong, job, time, human, mode, k);
      }
    }
  }

  lemma FirstUnique(ms: seq<Mode>, mode: Mode, i: nat, j: nat)
    requires IsFirst(ms, mode, i) && IsFirst(ms, mode, j)
    ensures i == j
  {
  }

  lemma CompletesFirst(m: Metric, robot: Robot, view: View, h: History, strong: bool, job: Job, time: nat,
                       human: Capsule, mode: Mode, lower: nat)
    requires CompletesFrom(m, robot, view, h, strong, job, human, mode, time, lower)
    ensures IsFirst(ModesOf(job.trace), mode, lower) && mode in ModesOf(job.trace)
    ensures !ResetToNothing(m, robot, h, strong, job, human, mode, time, lower)
  {
    hide S.CheckedSampleIndex, SectionsReset, SectionsWellFormed, ResetBound, CoversLast, Looped;
  }

  lemma NoneCompletes(m: Metric, robot: Robot, view: View, h: History, strong: bool, job: Job, time: nat,
                      human: Capsule, mode: Mode, lower: nat)
    requires mode !in ModesOf(job.trace) || StartsOver(m, robot, h, strong, job, human, mode, time)
    ensures !CompletesFrom(m, robot, view, h, strong, job, human, mode, time, lower)
  {
    hide CompletesFrom, ResetToNothing, IsFirst;
    if CompletesFrom(m, robot, view, h, strong, job, human, mode, time, lower) {
      CompletesFirst(m, robot, view, h, strong, job, time, human, mode, lower);
      var k: nat :| IsFirst(ModesOf(job.trace), mode, k)
                    && ResetToNothing(m, robot, h, strong, job, human, mode, time, k);
      FirstUnique(ModesOf(job.trace), mode, lower, k);
    }
  }

  /** What is left of the trace follows from the reset of the barriers, and so does whether it is covered. */
  lemma RestIs(m: Metric, robot: Robot, view: View, h: History, strong: bool, job: Job, time: nat, human: Capsule,
               mode: Mode, lower: nat, rest: Remainder)
    requires rest.Rest? && GoodRest(m, robot, view, h, strong, job, human, mode, time, lower, rest)
    ensures IsFirst(ModesOf(job.trace), mode, lower) && SectionsWellFormed(job.secs)
    ensures SectionsWellFormed(rest.secs) && rest.secs != [] && lower + End(rest.secs).trace < |job.trace|
    ensures rest == Reduction(job, rest.secs, lower, lower + End(rest.secs).trace,
                              CoversLast(view, h, SnapshotFor(strong, job, time), job, lower, rest.secs))
    ensures var start := S.CheckedSampleIndex(robot, h, SnapshotFor(strong, job, time), mode, time);
            start.Some? && rest.secs == SectionsReset(m, job.secs, human, TraceSampleIndex(lower, start.value),
                                                      ResetBound(strong, ModesOf(job.trace), lower))
  {
    hide S.CheckedSampleIndex, SamplesOf, EndsAtLast, SectionsReset, Distinct, FitsTrace, SectionsWellFormed, End,
         Reduction, CoversLast;
    var j := JobFor(strong, job, human, time, rest.branch, rest.secs);
    BoundIsNotBefore(strong, ModesOf(job.trace), mode, lower);
    assert ModesOf(j.trace)[0] == ModesOf(job.trace)[lower + 0];
  }

  lemma RestCompletes(m: Metric, robot: Robot, view: View, h: History, strong: bool, job: Job, time: nat,
                      human: Capsule, mode: Mode, js: seq<Job>, completed: bool, lower: nat, rest: Remainder)
    requires ComeFrom(m, robot, view, h, strong, job, time, human, mode, js, completed, lower, rest) && job.Valid()
    ensures IsFirst(ModesOf(job.trace), mode, lower)
    ensures completed <==> CompletesFrom(m, robot, view, h, strong, job, human, mode, time, lower)
  {
    hide GoodRest, S.CheckedSampleIndex, SectionsReset, Distinct, FitsTrace, SectionsWellFormed, End, Reduction,
         CoversLast, Looped, ResetBound, AreFollowing;
    RestIs(m, robot, view, h, strong, job, time, human, mode, lower, rest);
    ReductionTrace(job, rest.secs, lower, lower + End(rest.secs).trace,
                   CoversLast(view, h, SnapshotFor(strong, job, time), job, lower, rest.secs));
    if rest.exhausted {
      FollowingLooped(m, robot, view, h, strong, job, time, human, mode, js, completed, lower, rest);
    }
  }

  lemma FollowingLooped(m: Metric, robot: Robot, view: View, h: History, strong: bool, job: Job, time: nat,
                        human: Capsule, mode: Mode, js: seq<Job>, completed: bool, lower: nat, rest: Remainder)
    requires rest.Rest? && rest.exhausted && job.Valid()
    requires GoodRest(m, robot, view, h, strong, job, human, mode, time, lower, rest)
    requires AreFollowing(h, strong, job, human, time, rest, js, completed)
    ensures lower < |job.trace| && (completed <==> Looped(ModesOf(job.trace[lower..])))
  {
    hide GoodRest, Looped, AreNext, JobFor, FitsTrace, Distinct, SectionsWellFormed, S.TraceAt;
    RestFits(m, robot, view, h, strong, job, time, human, mode, lower, rest);
    var following, next, order :| AreFollowingBy(h, strong, job, human, time, rest, js, completed, following, next,
                                                 order);
    NextJobsSupported(S.TraceAt(h, time).value, rest.branch, following, next, order);
  }

  /** What a job that goes on keeps of the job it was. Its trace begins with the entries from `lower` on. It ends at the
      last entry that the barriers reach, or, if they cover that to its end and the job is not completed, at the entry
      after it, which is a next mode if the old trace had none. Its path holds the choices made inside that trace. */
  ghost predicate KeepsFrom(view: View, h: History, job: Job, j: Job, completed: bool, lower: nat) {
    && SectionsWellFormed(j.secs) && j.secs != [] && lower + End(j.secs).trace < |job.trace|
    && (forall i :: 0 <= i < |j.trace| && lower + i < |job.trace| ==> j.trace[i] == job.trace[lower + i])
    && KeepsChoices(j.path, |j.trace|, job.path, |job.trace|, lower)
    && var end, reached := End(j.secs), job.trace[lower + End(j.secs).trace].mode;
       var covered := end.sample + 1 == |SegmentIn(view, h, j.snapshotTime, job.id.robotSegment, reached)|;
       |j.trace| == end.trace + if covered && !completed then 2 else 1
  }

  /** Every job woken with a new human sample starts over, or goes on from the barriers of the job it was, as
      `StrongReady` and `WeakReady` ask, keeping the choices it has made; and one that is completed has looped. */
  lemma CandidatesGoOn(m: Metric, robot: Robot, view: View, h: History, strong: bool, job: Job, time: nat,
                       human: Capsule, mode: Mode, js: seq<Job>, completed: bool, j: Job)
    requires AreCandidates(m, robot, view, h, strong, job, time, human, mode, js, completed) && job.Valid() && j in js
    ensures || (js == [j] && Restarted(job, j, human, mode, time))
            || exists lower :: GoesOn(m, robot, view, h, strong, job, j, human, mode, time, lower)
                               && KeepsFrom(view, h, job, j, completed, lower)
    ensures completed ==> Looped(ModesOf(j.trace))
  {
    hide GoesOn, GoodRest, StartsOver, Looped, KeepsFrom;
    if lower, rest :| ComeFrom(m, robot, view, h, strong, job, time, human, mode, js, completed, lower, rest) {
      if rest.exhausted {
        FollowingGoOn(m, robot, view, h, strong, job, time, human, mode, js, completed, lower, rest, j);
        FollowingKeep(m, robot, view, h, strong, job, time, human, mode, js, completed, lower, rest, j);
      } else {
        RestGoesOn(m, robot, view, h, strong, job, time, human, mode, lower, rest);
        RestKeeps(m, robot, view, h, strong, job, time, human, mode, lower, rest);
      }
    }
  }

  lemma RestKeeps(m: Metric, robot: Robot, view: View, h: History, strong: bool, job: Job, time: nat, human: Capsule,
                  mode: Mode, lower: nat, rest: Remainder)
    requires rest.Rest? && GoodRest(m, robot, view, h, strong, job, human, mode, time, lower, rest) && job.Valid()
    ensures KeepsFrom(view, h, job, JobFor(strong, job, human, time, rest.branch, rest.secs), rest.exhausted, lower)
    ensures rest.exhausted ==>
              && SectionsWellFormed(rest.secs) && rest.secs != [] && lower + End(rest.secs).trace < |job.trace|
              && CoversLast(view, h, SnapshotFor(strong, job, time), job, lower, rest.secs)
  {
    hide GoodRest, S.CheckedSampleIndex, SectionsReset, FitsTrace, Distinct, SectionsWellFormed, End, SegmentIn,
         Reduction, ResetBound, KeepsChoices, IsFirst;
    RestIs(m, robot, view, h, strong, job, time, human, mode, lower, rest);
    var covered := CoversLast(view, h, SnapshotFor(strong, job, time), job, lower, rest.secs);
    ReductionTrace(job, rest.secs, lower, lower + End(rest.secs).trace, covered);
    ReductionPath(job, rest.secs, lower, lower + End(rest.secs).trace, covered);
  }

  lemma ReductionPath(job: Job, secs: seq<SectionValue>, lower: nat, last: nat, covered: bool)
    requires job.Valid() && lower <= last < |job.trace|
    ensures var b := Reduction(job, secs, lower, last, covered).branch;
            KeepsChoices(b.path, |b.trace|, job.path, |job.trace|, lower)
  {
    hide Reduced, KeepsChoices, FitsTrace, Distinct, SectionsWellFormed;
    ReducedKeepsChoices(job.path, |job.trace|, lower, if covered then last + 1 else last);
  }

  lemma FollowingKeep(m: Metric, robot: Robot, view: View, h: History, strong: bool, job: Job, time: nat,
                      human: Capsule, mode: Mode, js: seq<Job>, completed: bool, lower: nat, rest: Remainder, j: Job)
    requires rest.Rest? && rest.exhausted && job.Valid()
    requires GoodRest(m, robot, view, h, strong, job, human, mode, time, lower, rest)
    requires AreFollowing(h, strong, job, human, time, rest, js, completed) && j in js
    ensures KeepsFrom(view, h, job, j, completed, lower)
  {
    hide GoodRest, AreNext, JobFor, FitsTrace, KeepsFrom;
    RestKeeps(m, robot, view, h, strong, job, time, human, mode, lower, rest);
    RestFits(m, robot, view, h, strong, job, time, human, mode, lower, rest);
    var following, next, order :| AreFollowingBy(h, strong, job, human, time, rest, js, completed, following, next,
                                                 order);
    if !completed {
      var i :| 0 <= i < |js| && js[i] == j;
      var b := following.branches[i];
      ChoiceRecorded(S.TraceAt(h, time).value, rest.branch, following.branches, next, order, i);
      NextKeeps(view, h, strong, job, human, time, lower, rest, b, b.path[|rest.branch.path|..]);
    }
  }

  lemma NextKeeps(view: View, h: History, strong: bool, job: Job, human: Capsule, time: nat, lower: nat,
                  rest: Remainder, b: Branch, added: seq<PathElement>)
    requires rest.Rest? && job.Valid() && lower < |job.trace| && rest.branch.trace == job.trace[lower..]
    requires KeepsFrom(view, h, job, JobFor(strong, job, human, time, rest.branch, rest.secs), true, lower)
    requires b.trace != [] && b.trace[..|b.trace| - 1] == rest.branch.trace
    requires b.path == rest.branch.path + added
    requires added == [] || (|added| == 1 && added[0].position == |b.trace| - 1)
    requires SectionsWellFormed(rest.secs) && rest.secs != [] && lower + End(rest.secs).trace < |job.trace|
    requires CoversLast(view, h, SnapshotFor(strong, job, time), job, lower, rest.secs)
    ensures KeepsFrom(view, h, job, JobFor(strong, job, human, time, b, rest.secs), false, lower)
  {
    hide KeepsChoices, FitsTrace, Distinct, SectionsWellFormed, End, SegmentIn;
    AddedKeepsChoices(rest.branch.path, |rest.branch.trace|, job.path, |job.trace|, lower, added);
    forall i | 0 <= i < |b.trace| && lower + i < |job.trace| ensures b.trace[i] == job.trace[lower + i] {
      assert b.trace[..|b.trace| - 1][i] == rest.branch.trace[i];
    }
  }

  lemma RestGoesOn(m: Metric, robot: Robot, view: View, h: History, strong: bool, job: Job, time: nat, human: Capsule,
                   mode: Mode, lower: nat, rest: Remainder)
    requires rest.Rest? && GoodRest(m, robot, view, h, strong, job, human, mode, time, lower, rest)
    ensures GoesOn(m, robot, view, h, strong, job, JobFor(strong, job, human, time, rest.branch, rest.secs), human,
                   mode, time, lower)
  {
    hide GoesOn, JobFor, CutExactly;
  }

  lemma FollowingGoOn(m: Metric, robot: Robot, view: View, h: History, strong: bool, job: Job, time: nat,
                      human: Capsule, mode: Mode, js: seq<Job>, completed: bool, lower: nat, rest: Remainder, j: Job)
    requires rest.Rest? && rest.exhausted && job.Valid()
    requires GoodRest(m, robot, view, h, strong, job, human, mode, time, lower, rest)
    requires AreFollowing(h, strong, job, human, time, rest, js, completed) && j in js
    ensures GoesOn(m, robot, view, h, strong, job, j, human, mode, time, lower)
    ensures completed ==> Looped(ModesOf(j.trace))
  {
    hide GoesOn, GoodRest, Looped, AreNext, JobFor, FitsTrace;
    RestFits(m, robot, view, h, strong, job, time, human, mode, lower, rest);
    var following, next, order :| AreFollowingBy(h, strong, job, human, time, rest, js, completed, following, next,
                                                 order);
    NextJobsSupported(S.TraceAt(h, time).value, rest.branch, following, next, order);
    if completed {
      JobForParts(strong, job, human, time, rest.branch, rest.secs);
      RestGoesOn(m, robot, view, h, strong, job, time, human, mode, lower, rest);
    } else {
      var i :| 0 <= i < |js| && js[i] == j;
      var b := following.branches[i];
      NextIsContinued(S.TraceAt(h, time).value, rest.branch, following, next, order, i);
      NextGoesOn(m, robot, view, h, strong, job, human, mode, time, lower, rest, b, order[i], next[order[i]]);
    }
  }

  lemma TraceValid(job: Job)
    requires job.Valid()
    ensures SectionsWellFormed(job.secs)
  {
  }

  /** A history that supports the awakening predicts how the rest of the trace goes on. */
  lemma NextSupported(m: Metric, robot: Robot, view: View, h: History, strong: bool, job: Job, human: Capsule,
                      mode: Mode, time: nat, lower: nat, rest: Remainder)
    requires rest.Rest? && rest.exhausted && job.Valid() && IsFirst(ModesOf(job.trace), mode, lower)
    requires rest.branch.trace == job.trace[lower..] && Distinct(ModesOf(rest.branch.trace)[..|rest.branch.trace| - 1])
    ensures Supported(robot, h, job, SnapshotFor(strong, job, time), mode, time) ==>
              S.TraceAt(h, time).Some? && Reachable(S.TraceAt(h, time).value, ModesOf(rest.branch.trace))
  {
    hide Distinct, S.TraceAt, S.CheckedSampleIndex, S.StoredAt;
    ModesOfSlice(job.trace, lower, |job.trace|);
    var ms, ms' := ModesOf(job.trace), ModesOf(rest.branch.trace);
    assert job.trace[lower..|job.trace|] == job.trace[lower..];
    forall i | 0 <= i < |ms'| ensures ms'[i] in ms { assert ms'[i] == ms[lower + i]; }
    assert ms'[0] == ms[lower];
  }

  lemma NextJobsSupported(past: seq<Mode>, branch: Branch, following: NextJobs, next: map<Mode, real>, order: seq<Mode>)
    requires branch.Fits() && AreNext(past, branch, following, next, order)
    ensures Reachable(past, ModesOf(branch.trace)) ==> following.NextJobs?
    ensures following.NextJobs? ==> (following.branches == [] <==> Looped(ModesOf(branch.trace)))
  {
    hide IsPrediction, FitsTrace, Distinct;
    if Reachable(past, ModesOf(branch.trace)) { NeverSticks(past, branch, following, next, order); }
    if m :| m in next { assert following.NextJobs? && !Looped(ModesOf(branch.trace)) ==> m in order; }
  }

  lemma NextIsContinued(past: seq<Mode>, branch: Branch, following: NextJobs, next: map<Mode, real>, order: seq<Mode>,
                        i: nat)
    requires branch.Fits() && AreNext(past, branch, following, next, order)
    requires following.NextJobs? && i < |following.branches|
    ensures !Looped(ModesOf(branch.trace)) && following.branches[i].Fits()
    ensures i < |order| && order[i] in next
    ensures following.branches[i].trace == Continued(branch.trace, order[i], next[order[i]])
  {
    hide IsPrediction, FitsTrace, Distinct, Continued;
    IntoFits(branch, next, order[i], i);
  }

  /** A job into a next mode goes on from the same barriers: they cover all of its trace but the new mode. */
  lemma NextGoesOn(m: Metric, robot: Robot, view: View, h: History, strong: bool, job: Job, human: Capsule, mode: Mode,
                   time: nat, lower: nat, rest: Remainder, b: Branch, mode': Mode, p: real)
    requires rest.Rest? && rest.exhausted && GoodRest(m, robot, view, h, strong, job, human, mode, time, lower, rest)
    requires job.Valid() && !Looped(ModesOf(rest.branch.trace))
    requires b.Fits() && b.trace == Continued(rest.branch.trace, mode', p)
    ensures GoesOn(m, robot, view, h, strong, job, JobFor(strong, job, human, time, b, rest.secs), human, mode, time,
                   lower)
  {
    hide *;
    var j0 := JobFor(strong, job, human, time, rest.branch, rest.secs);
    var j := JobFor(strong, job, human, time, b, rest.secs);
    ExhaustedParts(m, robot, view, h, strong, job, human, mode, time, lower, rest);
    ContinuedModes(rest.branch.trace, mode', p);
    JobForParts(strong, job, human, time, rest.branch, rest.secs);
    JobForParts(strong, job, human, time, b, rest.secs);
    ContinuedJob(view, robot, h, strong, job, human, time, rest.branch, b, rest.secs, mode', p);
    NextAssembled(m, robot, view, h, strong, job, human, mode, time, lower, rest, b);
  }

  lemma JobForParts(strong: bool, job: Job, human: Capsule, time: nat, branch: Branch, secs: seq<SectionValue>)
    ensures JobFor(strong, job, human, time, branch, secs).trace == branch.trace
    ensures JobFor(strong, job, human, time, branch, secs).secs == secs
    ensures JobFor(strong, job, human, time, branch, secs).initialTime == time
  {
  }

  lemma ExhaustedParts(m: Metric, robot: Robot, view: View, h: History, strong: bool, job: Job, human: Capsule,
                       mode: Mode, time: nat, lower: nat, rest: Remainder)
    requires rest.Rest? && rest.exhausted && GoodRest(m, robot, view, h, strong, job, human, mode, time, lower, rest)
    ensures var j := JobFor(strong, job, human, time, rest.branch, rest.secs);
            && j.trace == rest.branch.trace != [] && Distinct(ModesOf(j.trace)[..|j.trace| - 1])
            && SectionsWellFormed(rest.secs)
            && rest.secs != [] && End(rest.secs).trace + 1 == |j.trace|
            && End(rest.secs).sample + 1 == |SamplesOf(view, h, j)[End(rest.secs).trace]|
            && GoesOn(m, robot, view, h, strong, job, j, human, mode, time, lower) && lower + |j.trace| == |job.trace|
  {
    hide StartOf, SamplesOf, EndsAtLast, SectionsReset, ResetBound, Distinct, FitsTrace, SectionsWellFormed, End;
  }

  /** One more mode adds one entry of samples, and changes neither the start nor the samples before. */
  lemma ContinuedJob(view: View, robot: Robot, h: History, strong: bool, job: Job, human: Capsule, time: nat,
                     branch: Branch, b: Branch, secs: seq<SectionValue>, m: Mode, p: real)
    requires branch.trace != [] && b.trace == Continued(branch.trace, m, p) && SectionsWellFormed(secs) && secs != []
    requires var along := SamplesOf(view, h, JobFor(strong, job, human, time, branch, secs));
             End(secs).trace + 1 == |along| && End(secs).sample + 1 == |along[End(secs).trace]|
    ensures var j0, j := JobFor(strong, job, human, time, branch, secs), JobFor(strong, job, human, time, b, secs);
            && j.trace != [] && j0.trace != [] && StartOf(robot, h, j) == StartOf(robot, h, j0)
            && EndsAtLast(secs, SamplesOf(view, h, j))
  {
    hide S.CheckedSampleIndex, SegmentIn, SectionsWellFormed, End;
    var j0, j := JobFor(strong, job, human, time, branch, secs), JobFor(strong, job, human, time, b, secs);
    assert j.trace[0] == j0.trace[0];
    var k := End(secs).trace;
    assert ModesOf(j.trace)[k] == ModesOf(j0.trace)[k];
    assert SamplesOf(view, h, j)[k] == SamplesOf(view, h, j0)[k];
  }

  lemma NextAssembled(m: Metric, robot: Robot, view: View, h: History, strong: bool, job: Job, human: Capsule,
                      mode: Mode, time: nat, lower: nat, rest: Remainder, b: Branch)
    requires rest.Rest? && b.Fits() && rest.secs != [] && SectionsWellFormed(rest.secs)
    requires var j0 := JobFor(strong, job, human, time, rest.branch, rest.secs);
             var j := JobFor(strong, job, human, time, b, rest.secs);
             && GoesOn(m, robot, view, h, strong, job, j0, human, mode, time, lower)
             && lower + |j0.trace| == |job.trace|
             && j.trace != [] && StartOf(robot, h, j) == StartOf(robot, h, j0)
             && EndsAtLast(rest.secs, SamplesOf(view, h, j))
             && |j.trace| == |j0.trace| + 1 && ModesOf(j.trace)[..|j0.trace|] == ModesOf(j0.trace)
             && Distinct(ModesOf(j.trace)[..|j.trace| - 1])
    ensures GoesOn(m, robot, view, h, strong, job, JobFor(strong, job, human, time, b, rest.secs), human, mode, time,
                   lower)
  {
    hide StartOf, SamplesOf, EndsAtLast, SectionsReset, IsFirst, Distinct, FitsTrace, SectionsWellFormed, End;
    var j0 := JobFor(strong, job, human, time, rest.branch, rest.secs);
    var j := JobFor(strong, job, human, time, b, rest.secs);
    var ms := ModesOf(job.trace);
    forall i | 0 <= i < |j.trace| && lower + i <= ResetBound(strong, ms, lower)
      ensures ModesOf(j.trace)[i] == ms[lower + i]
    {
      assert ModesOf(j.trace)[i] == ModesOf(j.trace)[..|j0.trace|][i] == ModesOf(j0.trace)[i];
    }
  }

  lemma ContinuedModes(trace: seq<Entry>, m: Mode, p: real)
    requires trace != [] && Distinct(ModesOf(trace)[..|trace| - 1]) && !Looped(ModesOf(trace))
    ensures var ms, ms' := ModesOf(trace), ModesOf(Continued(trace, m, p));
            && ms' == ms + [m] && ms'[..|trace|] == ms
            && |Continued(trace, m, p)| == |trace| + 1 && Distinct(ms'[..|ms'| - 1])
  {
    var ms, ms' := ModesOf(trace), ModesOf(Continued(trace, m, p));
    assert ms' == ms + [m] && ms'[..|ms'| - 1] == ms;
    assert ms == ms[..|ms| - 1] + [ms[|ms| - 1]];
  }

  lemma RestFits(m: Metric, robot: Robot, view: View, h: History, strong: bool, job: Job, time: nat, human: Capsule,
                 mode: Mode, lower: nat, rest: Remainder)
    requires rest.Rest? && rest.exhausted && GoodRest(m, robot, view, h, strong, job, human, mode, time, lower, rest)
    ensures rest.branch.Fits() && FitsTrace(rest.branch.path, |rest.branch.trace|)
    ensures lower < |job.trace| && rest.branch.trace == job.trace[lower..]
    ensures Distinct(ModesOf(rest.branch.trace)[..|rest.branch.trace| - 1])
  {
    hide StartOf, SamplesOf, EndsAtLast, SectionsReset, ResetBound, Distinct, FitsTrace, SectionsWellFormed, End;
  }

  function Reduction(job: Job, secs: seq<SectionValue>, lower: nat, lastCovered: nat, covered: bool): (rest: Remainder)
    requires lower <= lastCovered < |job.trace|
    ensures rest.Rest? && rest.secs == secs
  {
    var upper := if covered then lastCovered + 1 else lastCovered;
    var exhausted := upper == |job.trace|;
    Rest(Branch(job.trace[lower..if exhausted then upper else upper + 1], Reduced(job.path, lower, upper)), secs,
         exhausted)
  }

  lemma ResetEndsWithin(m: Metric, secs: seq<SectionValue>, human: Capsule, start: TraceSampleIndex, upper: nat)
    requires SectionsWellFormed(secs) && start.trace <= upper
    ensures var rs := SectionsReset(m, secs, human, start, upper);
            SectionsWellFormed(rs) && (rs != [] ==> End(rs).trace + start.trace <= upper)
  {
    hide SectionsReset;
    ResetKeepsWellFormed(m, secs, human, start, upper);
    var los := R.ResetRemains(m, secs, human, start, upper);
    var rs := SectionsReset(m, secs, human, start, upper);
    if rs != [] { R.RemainsEnd(m, rs, secs, los, human, start, upper); }
  }

  lemma NotStored(h: History, job: Job, snapshot: nat, i: nat)
    requires i < |job.trace| && S.StoredAt(h, snapshot, job.trace[i].mode).None?
    ensures !Stored(h, job, snapshot)
  {
    hide S.StoredAt;
    assert ModesOf(job.trace)[i] in ModesOf(job.trace);
  }

  lemma SegmentStored(robot: Robot, view: View, h: History, s: nat, segment: nat, m: Mode)
    requires Histories.Valid(robot, h) && segment < robot.segments && S.StoredAt(h, s, m).Some?
    ensures var samples := S.StoredAt(h, s, m).value;
            segment < |samples| && |samples[segment]| == |SegmentIn(view, h, s, segment, m)|
  {
    S.StoredAgrees(robot, h, m);
    hide Histories.Valid;
  }

  lemma LastOfEnd(secs: seq<SectionValue>)
    requires SectionsWellFormed(secs) && secs != []
    ensures LastSection(secs).barriers != [] && Last(LastSection(secs).barriers).range.Proper()
    ensures End(secs) == Last(LastSection(secs).barriers).range.Max()
  {
  }

  lemma SliceDistinct(ms: seq<Mode>, lower: nat, upper: nat)
    requires lower < upper <= |ms| && Distinct(ms[..|ms| - 1])
    ensures Distinct(ms[lower..upper][..upper - lower - 1])
  {
    var front, part := ms[..|ms| - 1], ms[lower..upper][..upper - lower - 1];
    forall i, j | 0 <= i < j < |part| ensures part[i] != part[j] {
      assert part[i] == front[lower + i] && part[j] == front[lower + j];
    }
  }

  lemma ModesOfSlice(es: seq<Entry>, lower: nat, upper: nat)
    requires lower <= upper <= |es|
    ensures ModesOf(es[lower..upper]) == ModesOf(es)[lower..upper]
  {
  }

  lemma RestGood(m: Metric, robot: Robot, view: View, h: History, strong: bool, job: Job, human: Capsule, mode: Mode,
                 time: nat, lower: nat, start: nat, secs: seq<SectionValue>, covered: bool, rest: Remainder)
    requires job.Valid() && IsFirst(ModesOf(job.trace), mode, lower) && lower < |job.trace|
    requires S.CheckedSampleIndex(robot, h, SnapshotFor(strong, job, time), mode, time) == Some(start)
    requires var upper := ResetBound(strong, ModesOf(job.trace), lower);
             && secs == SectionsReset(m, job.secs, human, TraceSampleIndex(lower, start), upper)
             && secs != [] && SectionsWellFormed(job.secs) && SectionsWellFormed(secs)
             && lower + End(secs).trace <= upper < |job.trace|
    requires rest == Reduction(job, secs, lower, lower + End(secs).trace, covered)
    requires var m := job.trace[lower + End(secs).trace].mode;
             var samples := SegmentIn(view, h, SnapshotFor(strong, job, time), job.id.robotSegment, m);
             covered <==> End(secs).sample + 1 == |samples|
    ensures GoodRest(m, robot, view, h, strong, job, human, mode, time, lower, rest)
  {
    hide *;
    var j := JobFor(strong, job, human, time, rest.branch, rest.secs);
    RestValid(strong, job, human, time, lower, secs, covered, rest);
    RestStarts(robot, h, strong, job, human, mode, time, lower, start, secs, covered, rest);
    RestEnds(view, h, strong, job, human, time, lower, secs, covered, rest);
    RestExact(view, h, strong, job, time, lower, secs, covered, rest);
    RestAssembled(m, robot, view, h, strong, job, human, mode, time, lower, start, rest);
  }

  lemma RestExact(view: View, h: History, strong: bool, job: Job, time: nat, lower: nat, secs: seq<SectionValue>,
                  covered: bool, rest: Remainder)
    requires SectionsWellFormed(secs) && secs != [] && lower + End(secs).trace < |job.trace|
    requires rest == Reduction(job, secs, lower, lower + End(secs).trace, covered)
    requires var m := job.trace[lower + End(secs).trace].mode;
             var samples := SegmentIn(view, h, SnapshotFor(strong, job, time), job.id.robotSegment, m);
             covered <==> End(secs).sample + 1 == |samples|
    ensures CutExactly(view, h, SnapshotFor(strong, job, time), job, lower, rest)
  {
    hide Reduction, SectionsWellFormed, End, SegmentIn, SnapshotFor;
  }

  lemma RestValid(strong: bool, job: Job, human: Capsule, time: nat, lower: nat, secs: seq<SectionValue>, covered: bool,
                  rest: Remainder)
    requires job.Valid() && SectionsWellFormed(secs) && secs != [] && lower + End(secs).trace < |job.trace|
    requires rest == Reduction(job, secs, lower, lower + End(secs).trace, covered)
    ensures rest.Rest? && rest.secs == secs && JobFor(strong, job, human, time, rest.branch, rest.secs).Valid()
    ensures JobFor(strong, job, human, time, rest.branch, rest.secs).trace != []
    ensures rest.exhausted ==> rest.branch.trace == job.trace[lower..]
    ensures PartOf(ModesOf(rest.branch.trace), ModesOf(job.trace), lower)
  {
    hide Distinct, FitsTrace, SectionsWellFormed, End, Reduction;
    ReductionValid(job, secs, lower, lower + End(secs).trace, covered);
    ReductionTrace(job, secs, lower, lower + End(secs).trace, covered);
  }

  lemma RestStarts(robot: Robot, h: History, strong: bool, job: Job, human: Capsule, mode: Mode, time: nat, lower: nat,
                   start: nat, secs: seq<SectionValue>, covered: bool, rest: Remainder)
    requires job.Valid() && SectionsWellFormed(secs) && secs != [] && lower + End(secs).trace < |job.trace|
    requires IsFirst(ModesOf(job.trace), mode, lower)
    requires rest == Reduction(job, secs, lower, lower + End(secs).trace, covered)
    requires S.CheckedSampleIndex(robot, h, SnapshotFor(strong, job, time), mode, time) == Some(start)
    ensures JobFor(strong, job, human, time, rest.branch, rest.secs).trace != []
    ensures StartOf(robot, h, JobFor(strong, job, human, time, rest.branch, rest.secs)) == Some(start)
  {
    hide S.CheckedSampleIndex, Distinct, FitsTrace, SectionsWellFormed, End, Reduction;
    ReductionTrace(job, secs, lower, lower + End(secs).trace, covered);
    assert ModesOf(rest.branch.trace)[0] == ModesOf(job.trace)[lower + 0];
  }

  lemma RestEnds(view: View, h: History, strong: bool, job: Job, human: Capsule, time: nat, lower: nat,
                 secs: seq<SectionValue>, covered: bool, rest: Remainder)
    requires job.Valid() && SectionsWellFormed(secs) && secs != [] && lower + End(secs).trace < |job.trace|
    requires rest == Reduction(job, secs, lower, lower + End(secs).trace, covered)
    requires var m := job.trace[lower + End(secs).trace].mode;
             var samples := SegmentIn(view, h, SnapshotFor(strong, job, time), job.id.robotSegment, m);
             covered <==> End(secs).sample + 1 == |samples|
    ensures var along := SamplesOf(view, h, JobFor(strong, job, human, time, rest.branch, rest.secs));
            && EndsAtLast(secs, along)
            && (rest.exhausted ==> End(secs).trace + 1 == |along| && End(secs).sample + 1 == |along[End(secs).trace]|)
  {
    hide Distinct, FitsTrace, SectionsWellFormed, End, Reduction, SegmentIn;
    ReductionTrace(job, secs, lower, lower + End(secs).trace, covered);
    assert ModesOf(rest.branch.trace)[End(secs).trace] == ModesOf(job.trace)[lower + End(secs).trace];
  }

  lemma RestAssembled(m: Metric, robot: Robot, view: View, h: History, strong: bool, job: Job, human: Capsule,
                      mode: Mode, time: nat, lower: nat, start: nat, rest: Remainder)
    requires rest.Rest? && job.Valid() && IsFirst(ModesOf(job.trace), mode, lower) && SectionsWellFormed(rest.secs)
    requires var j := JobFor(strong, job, human, time, rest.branch, rest.secs);
             && j.Valid() && j.trace != [] && rest.secs != [] && StartOf(robot, h, j) == Some(start)
             && EndsAtLast(rest.secs, SamplesOf(view, h, j))
             && (rest.exhausted ==>
                   && End(rest.secs).trace + 1 == |SamplesOf(view, h, j)|
                   && End(rest.secs).sample + 1 == |SamplesOf(view, h, j)[End(rest.secs).trace]|)
    requires rest.secs == SectionsReset(m, job.secs, human, TraceSampleIndex(lower, start),
                                        ResetBound(strong, ModesOf(job.trace), lower))
    requires rest.exhausted ==> rest.branch.trace == job.trace[lower..]
    requires PartOf(ModesOf(rest.branch.trace), ModesOf(job.trace), lower)
    requires CutExactly(view, h, SnapshotFor(strong, job, time), job, lower, rest)
    ensures GoodRest(m, robot, view, h, strong, job, human, mode, time, lower, rest)
  {
    hide CutExactly, StartOf, SamplesOf, EndsAtLast, SectionsReset, ResetBound, IsFirst, Distinct, FitsTrace,
         SectionsWellFormed, End;
  }

  predicate PartOf(part: seq<Mode>, whole: seq<Mode>, lower: nat) {
    lower + |part| <= |whole| && forall i :: 0 <= i < |part| ==> part[i] == whole[lower + i]
  }

  lemma LostGood(m: Metric, robot: Robot, view: View, h: History, strong: bool, job: Job, human: Capsule, mode: Mode,
                 time: nat, lower: nat)
    ensures GoodRest(m, robot, view, h, strong, job, human, mode, time, lower, Lost)
  {
  }

  lemma NothingGood(m: Metric, robot: Robot, view: View, h: History, strong: bool, job: Job, human: Capsule, mode: Mode,
                    time: nat, lower: nat)
    requires ResetToNothing(m, robot, h, strong, job, human, mode, time, lower)
    ensures GoodRest(m, robot, view, h, strong, job, human, mode, time, lower, Nothing)
  {
    hide ResetToNothing;
  }

  lemma ReductionValid(job: Job, secs: seq<SectionValue>, lower: nat, last: nat, covered: bool)
    requires job.Valid() && lower <= last < |job.trace|
    ensures var rest := Reduction(job, secs, lower, last, covered);
            && rest.branch.trace != [] && FitsTrace(rest.branch.path, |rest.branch.trace|)
            && Distinct(ModesOf(rest.branch.trace)[..|rest.branch.trace| - 1])
  {
    hide Reduced, FitsTrace, Distinct;
    var upper := if covered then last + 1 else last;
    var end := if upper == |job.trace| then upper else upper + 1;
    SliceDistinct(ModesOf(job.trace), lower, end);
    ModesOfSlice(job.trace, lower, end);
    ReducedFits(job.path, lower, upper, |job.trace|);
  }

  lemma ReductionTrace(job: Job, secs: seq<SectionValue>, lower: nat, last: nat, covered: bool)
    requires lower <= last < |job.trace|
    ensures var rest := Reduction(job, secs, lower, last, covered);
            var trace := rest.branch.trace;
            && rest.secs == secs && (rest.exhausted <==> covered && last + 1 == |job.trace|)
            && |trace| == last - lower + (if covered && !rest.exhausted then 2 else 1) && lower + |trace| <= |job.trace|
            && (rest.exhausted ==> trace == job.trace[lower..])
            && (forall i :: 0 <= i < |trace| ==> trace[i] == job.trace[lower + i])
            && (forall i :: 0 <= i < |trace| ==> ModesOf(trace)[i] == ModesOf(job.trace)[lower + i])
  {
  }

  /** In a trace whose modes before the last are distinct, a mode occurs again after position i only if it is
      the last one. */
  lemma LastIsAlone(trace: seq<Entry>, i: nat, backward: int)
    requires i < |trace| - 1 && Distinct(ModesOf(trace)[..|trace| - 1]) && -1 <= backward < |trace|
    requires backward >= 0 ==> trace[backward].mode == trace[i].mode
    requires forall j :: backward < j < |trace| ==> trace[j].mode != trace[i].mode
    ensures backward == if trace[i].mode == trace[|trace| - 1].mode then |trace| - 1 else i
    ensures var ms := ModesOf(trace);
            ms[|trace| - 1] in ms[..i + 1] <==> ms[|trace| - 1] in ms[..i] || trace[i].mode == trace[|trace| - 1].mode
  {
    var ms := ModesOf(trace);
    var front := ms[..|trace| - 1];
    assert front[i] == trace[i].mode;
    forall k | i < k < |front| ensures trace[k].mode != trace[i].mode { assert front[k] != front[i]; }
    assert ms[..i + 1] == ms[..i] + [ms[i]];
  }
}
