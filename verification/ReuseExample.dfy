/** Runs in which a job is woken where reuse does not do what it should: each breaks one of the conditions under which
    it is proved to. */
module ReuseExamples {
  import opened Capsules
  import opened Geometry
  import opened SegmentDistances
  import opened ReuseBounds
  import opened Modes
  import opened NextModes
  import opened ModeTraces
  import opened Predictions
  import opened TimedEntries
  import opened Histories
  import opened HistoryEnvironments
  import opened LookAheadGuards
  import opened ExampleRuns
  import opened TraceSampleRanges
  import opened SectionLists
  import opened SectionResets
  import opened LookAheadJobs
  import opened LookAheadJobPaths
  import opened LookAheadJobRegistries
  import opened Reuses
  import opened JobRuns
  import opened JobLives
  import S = HistorySnapshots
  import BodySamples

  /* What the history of a robot that returns answers */

  predicate Apart3(a: Mode, b: Mode, d: Mode) {
    a != b && a != d && b != d && !a.IsEmpty() && !b.IsEmpty() && !d.IsEmpty()
  }

  lemma ReturningSamples(a: Mode, b: Mode, d: Mode, o: Observation, q: Observation, s: nat)
    requires Apart3(a, b, d) && 6 <= s <= 10
    ensures var h := Returning(a, b, d, o, q);
            S.StoredAt(h, s, a) == Some(if s < 8 then [[[o], [q], [o]]] else [[[o, o], [q, o], [o]]])
    ensures s < 9 ==> S.StoredAt(Returning(a, b, d, o, q), s, d) == None
  {
    var h := Returning(a, b, d, o, q);
    PrefixUnique(h.states[a], s, if s < 8 then 1 else 2);
    if s < 9 { PrefixUnique(h.states[d], s, 0); }
  }

  lemma ReturningModes(a: Mode, b: Mode, d: Mode, o: Observation, q: Observation)
    requires Apart3(a, b, d)
    ensures var h := Returning(a, b, d, o, q);
            && S.ModeAt(h, 6) == a && S.Entrance(h, a, 6) == Some(5)
            && forall t :: 9 <= t <= 10 ==> S.ModeAt(h, t) == a && S.Entrance(h, a, t) == Some(9)
  {
    var h := Returning(a, b, d, o, q);
    ReturningReached(a, b, d, o, q);
    ReachedValid(EXAMPLE_ROBOT, h);
    ValidChained(EXAMPLE_ROBOT, h);
    var ps := h.presences;
    assert ps[3] == Presence(a, d, 5, 8);
    hide Histories.Valid, Reached, Chained;
    S.ModeAtFound(ps, a, 6, 3);
    S.EntranceFound(ps, a, 6, 3);
    forall t | 9 <= t <= 10 ensures S.ModeAt(h, t) == a && S.Entrance(h, a, t) == Some(9) {
      InLatestMode(EXAMPLE_ROBOT, h, t);
    }
  }

  /** The sample index in a is 1 at times 6 and 10, and 0 at time 9. */
  lemma ReturningIndices(a: Mode, b: Mode, d: Mode, o: Observation, q: Observation, s: nat, t: nat)
    requires Apart3(a, b, d) && 6 <= s <= 10 && (t == 6 || t == 9 || t == 10)
    ensures S.CheckedSampleIndex(EXAMPLE_ROBOT, Returning(a, b, d, o, q), s, a, t) == Some(if t == 9 then 0 else 1)
  {
    var h := Returning(a, b, d, o, q);
    ReturningModes(a, b, d, o, q);
    ReturningSamples(a, b, d, o, q, s);
    hide Returning, S.ModeAt, S.Entrance, S.StoredAt;
    assert EXAMPLE_ROBOT.Whole(if t == 6 then 5 else 9, t) == if t == 9 then 0 else 1;
  }

  /* The jobs */

  /** Samples that hold the observation q are seen at one point, and the others at another. */
  function TwoPoints(q: Observation, p: Point, x: Point): View {
    (s: Sample) => Some(if q in s then PointCapsule(x) else PointCapsule(p))
  }

  /** A job in its first mode, without choices. */
  function FirstJob(id: LookAheadJobIdentifier, time: nat, snapshot: nat, human: Capsule, a: Mode,
                    secs: seq<SectionValue>): Job {
    Job(id, time, snapshot, human, [Entry(a, 1.0)], [], secs)
  }

  function Three(p: Point, x: Point): seq<SegmentSamples> {
    [[Some(PointCapsule(p)), Some(PointCapsule(x)), Some(PointCapsule(p))]]
  }

  lemma SeenAlong(a: Mode, b: Mode, d: Mode, o: Observation, q: Observation, p: Point, x: Point, job: Job)
    requires Apart3(a, b, d) && o != q && 6 <= job.snapshotTime <= 10 && job.id.robotSegment == 0
    requires job.trace == [Entry(a, 1.0)]
    ensures SamplesOf(TwoPoints(q, p, x), Returning(a, b, d, o, q), job) == Three(p, x) && |Three(p, x)| == 1
  {
    var view, h := TwoPoints(q, p, x), Returning(a, b, d, o, q);
    ReturningSamples(a, b, d, o, q, job.snapshotTime);
    hide Returning;
    assert q !in [o] && q !in [o, o] && q in [q] && q in [q, o];
    var along := SamplesOf(view, h, job);
    assert ModesOf(job.trace) == [a];
    assert along[0] == [Some(PointCapsule(p)), Some(PointCapsule(x)), Some(PointCapsule(p))];
  }

  lemma ThreePresent(p: Point, x: Point)
    ensures var env := EnvironmentOf(Three(p, x));
            && TraceSampleIndex(0, 0) in env && env[TraceSampleIndex(0, 0)] == PointCapsule(p)
            && TraceSampleIndex(0, 1) in env && env[TraceSampleIndex(0, 1)] == PointCapsule(x)
            && TraceSampleIndex(0, 2) in env && env[TraceSampleIndex(0, 2)] == PointCapsule(p)
            && forall y :: y in env ==> env[y] == PointCapsule(p) || env[y] == PointCapsule(x)
  {
    var along, env := Three(p, x), EnvironmentOf(Three(p, x));
    assert Present(along, TraceSampleIndex(0, 0)) && Present(along, TraceSampleIndex(0, 1));
    assert Present(along, TraceSampleIndex(0, 2));
    forall y | y in env ensures env[y] == PointCapsule(p) || env[y] == PointCapsule(x) { assert Present(along, y); }
  }

  /* A robot that goes back */

  /** The scan at 6 found the present sample clear, at that distance, and was stopped by the next. */
  function StoppedJob(sqrt: real -> Distance, id: LookAheadJobIdentifier, a: Mode, p: Point, x: Point): Job {
    FirstJob(id, 6, 6, PointCapsule(p), a,
             StoppedAfter(PointCapsule(p), 1,
                          ComputedCapsuleMetric(sqrt).humanRobot(PointCapsule(p), PointCapsule(x))))
  }

  /** What is left of it when it is woken. */
  function ResumedJob(sqrt: real -> Distance, id: LookAheadJobIdentifier, a: Mode, p: Point, x: Point, human: Capsule,
                      time: nat, snapshot: nat): Job {
    FirstJob(id, time, snapshot, human, a,
             ClearedAt(PointCapsule(p), 1,
                       ComputedCapsuleMetric(sqrt).humanRobot(PointCapsule(p), PointCapsule(x))))
  }

  predicate Ready3(sqrt: real -> Distance, p: Point, x: Point, human: Capsule) {
    var m := ComputedCapsuleMetric(sqrt);
    && m.humanRobot(PointCapsule(p), PointCapsule(x)) > m.humanHuman(PointCapsule(p), human)
    && m.humanRobot(PointCapsule(p), PointCapsule(p)) == 0.0
  }

  lemma StoppedTracked(sqrt: real -> Distance, a: Mode, b: Mode, d: Mode, o: Observation, q: Observation, p: Point,
                       x: Point, id: LookAheadJobIdentifier, human: Capsule)
    requires Apart3(a, b, d) && o != q && id.robotSegment == 0 && Ready3(sqrt, p, x, human)
    ensures Tracked(ComputedCapsuleMetric(sqrt), EXAMPLE_ROBOT, TwoPoints(q, p, x), Returning(a, b, d, o, q),
                    StoppedJob(sqrt, id, a, p, x))
  {
    hide *;
    var m, view, h, basis := ComputedCapsuleMetric(sqrt), TwoPoints(q, p, x), Returning(a, b, d, o, q),
                             StoppedJob(sqrt, id, a, p, x);
    var dist := m.humanRobot(PointCapsule(p), PointCapsule(x));
    StoppedIs(sqrt, id, a, p, x);
    FirstJobIs(basis, id, 6, 6, PointCapsule(p), a, StoppedAfter(PointCapsule(p), 1, dist));
    SeenAlong(a, b, d, o, q, p, x, basis);
    ReturningIndices(a, b, d, o, q, 6, 6);
    ThreePresent(p, x);
    Far(sqrt, p, x, human);
    StoppedTracks(m, PointCapsule(p), EnvironmentOf(Three(p, x)), 1, dist);
    TrackedFrom(m, EXAMPLE_ROBOT, view, h, basis, Three(p, x), 1, TraceSampleIndex(0, 3));
  }

  lemma StoppedGoesOn(sqrt: real -> Distance, a: Mode, b: Mode, d: Mode, o: Observation, q: Observation, p: Point,
                      x: Point, id: LookAheadJobIdentifier, human: Capsule, strong: bool, time: nat)
    requires Apart3(a, b, d) && o != q && id.robotSegment == 0 && Ready3(sqrt, p, x, human) && (time == 9 || time == 10)
    ensures GoesOn(ComputedCapsuleMetric(sqrt), EXAMPLE_ROBOT, TwoPoints(q, p, x), Returning(a, b, d, o, q), strong,
                   StoppedJob(sqrt, id, a, p, x),
                   ResumedJob(sqrt, id, a, p, x, human, time, if strong then time else 6),
                   human, a, time, 0)
  {
    hide *;
    var m, view, h := ComputedCapsuleMetric(sqrt), TwoPoints(q, p, x), Returning(a, b, d, o, q);
    var basis := StoppedJob(sqrt, id, a, p, x);
    var snapshot := if strong then time else 6;
    var j := ResumedJob(sqrt, id, a, p, x, human, time, snapshot);
    var dist := m.humanRobot(PointCapsule(p), PointCapsule(x));
    var secs, secs' := StoppedAfter(PointCapsule(p), 1, dist), ClearedAt(PointCapsule(p), 1, dist);
    StoppedIs(sqrt, id, a, p, x);
    ResumedIs(sqrt, id, a, p, x, human, time, snapshot);
    FirstJobIs(basis, id, 6, 6, PointCapsule(p), a, secs);
    FirstJobIs(j, id, time, snapshot, human, a, secs');
    SeenAlong(a, b, d, o, q, p, x, j);
    ReturningIndices(a, b, d, o, q, snapshot, time);
    Far(sqrt, p, x, human);
    var start := if time == 9 then 0 else 1;
    StoppedReset(m, PointCapsule(p), human, 1, start, dist);
    ClearedEnd(PointCapsule(p), 1, dist);
    FirstGoesOn(m, EXAMPLE_ROBOT, view, h, strong, basis, j, human, a, time, Three(p, x), start);
  }

  lemma StoppedIs(sqrt: real -> Distance, id: LookAheadJobIdentifier, a: Mode, p: Point, x: Point)
    ensures StoppedJob(sqrt, id, a, p, x) ==
            FirstJob(id, 6, 6, PointCapsule(p), a,
                     StoppedAfter(PointCapsule(p), 1,
                                  ComputedCapsuleMetric(sqrt).humanRobot(PointCapsule(p), PointCapsule(x))))
  {
    hide ComputedCapsuleMetric;
  }

  lemma ResumedIs(sqrt: real -> Distance, id: LookAheadJobIdentifier, a: Mode, p: Point, x: Point, human: Capsule,
                  time: nat, snapshot: nat)
    ensures ResumedJob(sqrt, id, a, p, x, human, time, snapshot) ==
            FirstJob(id, time, snapshot, human, a,
                     ClearedAt(PointCapsule(p), 1,
                               ComputedCapsuleMetric(sqrt).humanRobot(PointCapsule(p), PointCapsule(x))))
  {
    hide ComputedCapsuleMetric;
  }

  lemma Far(sqrt: real -> Distance, p: Point, x: Point, human: Capsule)
    requires Ready3(sqrt, p, x, human)
    ensures var m := ComputedCapsuleMetric(sqrt);
            && m.humanRobot(PointCapsule(p), PointCapsule(x)) > m.humanHuman(PointCapsule(p), human) >= 0.0
            && m.humanRobot(PointCapsule(p), PointCapsule(p)) == 0.0
  {
    hide ComputedCapsuleMetric;
  }

  lemma FirstJobIs(job: Job, id: LookAheadJobIdentifier, time: nat, snapshot: nat, human: Capsule, a: Mode,
                   secs: seq<SectionValue>)
    requires job == FirstJob(id, time, snapshot, human, a, secs)
    ensures job.trace == [Entry(a, 1.0)] && job.id == id && job.secs == secs && job.human == human
    ensures job.initialTime == time && job.snapshotTime == snapshot && job.path == []
    ensures |ModesOf(job.trace)| == 1 && ModesOf(job.trace)[0] == a
    ensures SectionsWellFormed(secs) ==> job.Valid()
  {
    hide SectionsWellFormed;
  }

  lemma TrackedFrom(m: Metric, robot: Robot, view: View, h: History, job: Job, along: seq<SegmentSamples>, start: nat,
                    next: TraceSampleIndex)
    requires SectionsWellFormed(job.secs) ==> job.Valid()
    requires |job.trace| > 0 && SamplesOf(view, h, job) == along
    requires S.CheckedSampleIndex(robot, h, job.snapshotTime, job.trace[0].mode, job.initialTime) == Some(start)
    requires SectionLists.Tracks(m, job.secs, EnvironmentOf(along), TraceSampleIndex(0, start), next)
    ensures Tracked(m, robot, view, h, job)
  {
    hide SectionsWellFormed, Covered, Pending, EnvironmentOf, SamplesOf, S.CheckedSampleIndex, FitsTrace, Distinct;
  }

  lemma ClearedEnd(human: Capsule, s: nat, d: real)
    requires d >= 0.0
    ensures var secs := ClearedAt(human, s, d);
            secs != [] && SectionsWellFormed(secs) && End(secs) == TraceSampleIndex(0, s)
  {
  }

  lemma FirstGoesOn(m: Metric, robot: Robot, view: View, h: History, strong: bool, basis: Job, j: Job, human: Capsule,
                    a: Mode, time: nat, along: seq<SegmentSamples>, start: nat)
    requires |ModesOf(basis.trace)| == 1 && ModesOf(basis.trace)[0] == a && |j.trace| == 1 && j.trace[0].mode == a
    requires SectionsWellFormed(basis.secs) && SectionsWellFormed(j.secs) && j.secs != [] && End(j.secs).trace == 0
    requires j == Job(basis.id, time, if strong then time else basis.snapshotTime, human, j.trace, j.path, j.secs)
    requires SectionsWellFormed(j.secs) ==> j.Valid()
    requires SamplesOf(view, h, j) == along && |along| == 1
    requires S.CheckedSampleIndex(robot, h, j.snapshotTime, a, time) == Some(start)
    requires j.secs == SectionsReset(m, basis.secs, human, TraceSampleIndex(0, start), 0)
    ensures GoesOn(m, robot, view, h, strong, basis, j, human, a, time, 0)
  {
    hide SectionsWellFormed, SamplesOf, S.CheckedSampleIndex, FitsTrace, Distinct, SectionsReset, End;
    var ms := ModesOf(basis.trace);
    assert ms[..0] == [];
    assert ResetBound(strong, ms, 0) == 0;
    assert ModesOf(j.trace)[0] == a;
  }

  /** The robot is in a at 6, goes to d and is back in a at 9, at an earlier sample. The guard is met, and the job goes
      on from its barrier, under either equivalence; but where the direct scan finds the first sample hit, the scan
      with reuse starts after the second. All distances are exact. */
  lemma GoingBackSkips(sqrt: real -> Distance, a: Mode, b: Mode, d: Mode, o: Observation, q: Observation, p: Point,
                       x: Point, id: LookAheadJobIdentifier, strong: bool)
    requires IsSquareRoot(sqrt) && Apart3(a, b, d) && o != q && p != x && id.robotSegment == 0
    ensures var m, view, h := ComputedCapsuleMetric(sqrt), TwoPoints(q, p, x), Returning(a, b, d, o, q);
            var basis := StoppedJob(sqrt, id, a, p, x);
            var j := ResumedJob(sqrt, id, a, p, x, PointCapsule(p), 9, if strong then 9 else 6);
            && Reached(EXAMPLE_ROBOT, h) && Histories.Valid(EXAMPLE_ROBOT, h)
            && S.CanLookAhead(EXAMPLE_ROBOT, h, 6, 9) == Some(true)
            && Tracked(m, EXAMPLE_ROBOT, view, h, basis)
            && ReuseSoundForAll(m, basis.secs, PointCapsule(p), EnvironmentOf(SamplesOf(view, h, basis)))
            && GoesOn(m, EXAMPLE_ROBOT, view, h, strong, basis, j, PointCapsule(p), S.ModeAt(h, 9), 9, 0)
            && Scannable(EXAMPLE_ROBOT, view, h, j)
            && Verdict(EXAMPLE_ROBOT, view, h, CapsulesTouch(sqrt), j, 0)
            && SectionsWellFormed(j.secs) && ScanFrom(j.secs, 0) == TraceSampleIndex(0, 2)
  {
    hide *;
    var m, view, h, human := ComputedCapsuleMetric(sqrt), TwoPoints(q, p, x), Returning(a, b, d, o, q), PointCapsule(p);
    var basis, snapshot := StoppedJob(sqrt, id, a, p, x), if strong then 9 else 6;
    var j := ResumedJob(sqrt, id, a, p, x, human, 9, snapshot);
    var dist := m.humanRobot(human, PointCapsule(x));
    Apart3Is(a, b, d);
    ReturningReached(a, b, d, o, q);
    ReturningLooksAhead(a, b, d, o, q, 9);
    MeasuredPoints(sqrt, p, x);
    Far(sqrt, p, x, human);
    StoppedTracked(sqrt, a, b, d, o, q, p, x, id, human);
    StoppedGoesOn(sqrt, a, b, d, o, q, p, x, id, human, strong, 9);
    StoppedIs(sqrt, id, a, p, x);
    ResumedIs(sqrt, id, a, p, x, human, 9, snapshot);
    FirstJobIs(basis, id, 6, 6, human, a, StoppedAfter(human, 1, dist));
    FirstJobIs(j, id, 9, snapshot, human, a, ClearedAt(human, 1, dist));
    SeenAlong(a, b, d, o, q, p, x, basis);
    StoppedHuman(human, 1, dist);
    SameHumanSound(m, StoppedAfter(human, 1, dist), human, EnvironmentOf(SamplesOf(view, h, basis)));
    SeenAlong(a, b, d, o, q, p, x, j);
    ReturningIndices(a, b, d, o, q, snapshot, 9);
    TouchesItself(sqrt, p);
    FirstHit(EXAMPLE_ROBOT, view, h, CapsulesTouch(sqrt), j, p, x);
    ClearedEnd(human, 1, dist);
    AfterFirst(j.secs);
  }

  lemma Apart3Is(a: Mode, b: Mode, d: Mode)
    requires Apart3(a, b, d)
    ensures a != b && a != d && b != d && !a.IsEmpty() && !b.IsEmpty() && !d.IsEmpty()
  {
  }

  lemma MeasuredPoints(sqrt: real -> Distance, p: Point, x: Point)
    requires IsSquareRoot(sqrt) && p != x
    ensures Ready3(sqrt, p, x, PointCapsule(p))
  {
    hide ComputedCapsuleMetric, IsSquareRoot;
    PointCapsulesMeasured(sqrt, p, x);
    PointCapsulesMeasured(sqrt, p, p);
  }

  lemma StoppedHuman(human: Capsule, s: nat, d: real)
    ensures forall j :: 0 <= j < |StoppedAfter(human, s, d)| ==> StoppedAfter(human, s, d)[j].human == human
  {
  }

  /** For the same human, reuse is sound by any metric. */
  lemma SameHumanSound(m: Metric, secs: seq<SectionValue>, human: Capsule, env: Environment)
    requires forall j :: 0 <= j < |secs| ==> secs[j].human == human
    ensures ReuseSoundForAll(m, secs, human, env)
  {
  }

  lemma TouchesItself(sqrt: real -> Distance, p: Point)
    requires IsSquareRoot(sqrt)
    ensures CapsulesTouch(sqrt)(PointCapsule(p), PointCapsule(p))
  {
    PointCapsulesMeasured(sqrt, p, p);
    BodySamples.TouchAgreesWithMetric(sqrt, PointCapsule(p), PointCapsule(p));
    hide BodySamples.Touch, IsSquareRoot, ComputedCapsuleMetric;
  }

  lemma FirstHit(robot: Robot, view: View, h: History, intersects: (Capsule, Capsule) -> bool, job: Job, p: Point,
                 x: Point)
    requires |job.trace| == 1 && SamplesOf(view, h, job) == Three(p, x) && |ModesOf(job.trace)| == 1
    requires ModesOf(job.trace)[0] == job.trace[0].mode && intersects(job.human, PointCapsule(p))
    requires S.CheckedSampleIndex(robot, h, job.snapshotTime, job.trace[0].mode, job.initialTime) == Some(0)
    ensures Scannable(robot, view, h, job) && Verdict(robot, view, h, intersects, job, 0)
  {
    assert SamplesAhead(view, h, job) == SamplesOf(view, h, job)[0];
    hide SamplesOf, S.CheckedSampleIndex, SegmentIn;
  }

  lemma AfterFirst(secs: seq<SectionValue>)
    requires SectionsWellFormed(secs) && secs != [] && End(secs) == TraceSampleIndex(0, 1)
    ensures ScanFrom(secs, 0) == TraceSampleIndex(0, 2)
  {
  }

  /* A snapshot that is too old */

  /** The robot has been in d for the first time since the snapshot of a job under weak equivalence. The guard is met,
      the job goes on, rightly, and finds its last samples clear; but d is among its next modes, and the job into d
      cannot be scanned: the snapshot has no samples of it. */
  lemma OldSnapshotFails(sqrt: real -> Distance, a: Mode, b: Mode, d: Mode, o: Observation, q: Observation, p: Point,
                         x: Point, y: Point, id: LookAheadJobIdentifier)
    requires IsSquareRoot(sqrt) && Apart3(a, b, d) && o != q && id.robotSegment == 0
    requires y != p && y != x && SquaredDistance(y, p) < SquaredDistance(p, x)
    ensures var m, view, h := ComputedCapsuleMetric(sqrt), TwoPoints(q, p, x), Returning(a, b, d, o, q);
            var basis := StoppedJob(sqrt, id, a, p, x);
            var j := ResumedJob(sqrt, id, a, p, x, PointCapsule(y), 10, 6);
            && Reached(EXAMPLE_ROBOT, h) && Histories.Valid(EXAMPLE_ROBOT, h)
            && S.CanLookAhead(EXAMPLE_ROBOT, h, 6, 10) == Some(true)
            && Tracked(m, EXAMPLE_ROBOT, view, h, basis)
            && GoesOn(m, EXAMPLE_ROBOT, view, h, false, basis, j, PointCapsule(y), S.ModeAt(h, 10), 10, 0)
            && Resumable(m, EXAMPLE_ROBOT, view, h, j) && Scannable(EXAMPLE_ROBOT, view, h, j)
            && Verdict(EXAMPLE_ROBOT, view, h, CapsulesTouch(sqrt), j, -1)
            && S.TraceAt(h, 10).Some?
            && forall branches, next, order ::
                 AreNext(S.TraceAt(h, 10).value, Branch(j.trace, j.path), NextJobs(branches), next, order) ==>
                   SomeUnscannable(EXAMPLE_ROBOT, view, h, j, branches)
  {
    hide *;
    var m, view, h, human := ComputedCapsuleMetric(sqrt), TwoPoints(q, p, x), Returning(a, b, d, o, q), PointCapsule(y);
    var basis := StoppedJob(sqrt, id, a, p, x);
    var j := ResumedJob(sqrt, id, a, p, x, human, 10, 6);
    var dist := m.humanRobot(PointCapsule(p), PointCapsule(x));
    Apart3Is(a, b, d);
    ReturningReached(a, b, d, o, q);
    ReturningLooksAhead(a, b, d, o, q, 10);
    CloserMeasured(sqrt, p, x, y);
    StoppedTracked(sqrt, a, b, d, o, q, p, x, id, human);
    StoppedGoesOn(sqrt, a, b, d, o, q, p, x, id, human, false, 10);
    StoppedIs(sqrt, id, a, p, x);
    ResumedIs(sqrt, id, a, p, x, human, 10, 6);
    FirstJobIs(basis, id, 6, 6, PointCapsule(p), a, StoppedAfter(PointCapsule(p), 1, dist));
    FirstJobIs(j, id, 10, 6, human, a, ClearedAt(PointCapsule(p), 1, dist));
    SeenAlong(a, b, d, o, q, p, x, basis);
    SeenAlong(a, b, d, o, q, p, x, j);
    PointsSound(sqrt, p, x, human, dist);
    ReturningIndices(a, b, d, o, q, 6, 6);
    ReturningIndices(a, b, d, o, q, 6, 10);
    StartIs(EXAMPLE_ROBOT, h, basis, 1);
    StartIs(EXAMPLE_ROBOT, h, j, 1);
    WeakReady(m, EXAMPLE_ROBOT, view, h, basis, j, human, a, 10, 0);
    TouchesNot(sqrt, y, p);
    TouchesNot(sqrt, y, x);
    NoneHit(EXAMPLE_ROBOT, view, h, CapsulesTouch(sqrt), j, p, x);
    ReturningPast(a, b, d, o, q);
    ReturningSamples(a, b, d, o, q, 6);
    forall branches, next, order
      | AreNext(S.TraceAt(h, 10).value, Branch(j.trace, j.path), NextJobs(branches), next, order)
      ensures SomeUnscannable(EXAMPLE_ROBOT, view, h, j, branches)
    {
      UnknownNext(EXAMPLE_ROBOT, view, h, j, a, b, d, branches, next, order);
    }
  }

  ghost predicate SomeUnscannable(robot: Robot, view: View, h: History, job: Job, branches: seq<Branch>) {
    exists b :: b in branches && Unscannable(robot, view, h, job, b)
  }

  ghost predicate Unscannable(robot: Robot, view: View, h: History, job: Job, b: Branch) {
    forall secs :: !Scannable(robot, view, h, NextJob(job, b, secs))
  }

  lemma StartIs(robot: Robot, h: History, job: Job, start: nat)
    requires job.trace != []
    requires S.CheckedSampleIndex(robot, h, job.snapshotTime, job.trace[0].mode, job.initialTime) == Some(start)
    ensures StartOf(robot, h, job) == Some(start)
  {
    hide S.CheckedSampleIndex;
  }

  lemma CloserMeasured(sqrt: real -> Distance, p: Point, x: Point, y: Point)
    requires IsSquareRoot(sqrt) && SquaredDistance(y, p) < SquaredDistance(p, x)
    ensures Ready3(sqrt, p, x, PointCapsule(y))
  {
    hide SegmentDistance, PointDistance, IsSquareRoot, IsDistance, SquaredDistance, Square;
    BetweenPoints(sqrt, y, p);
    BetweenPoints(sqrt, p, x);
    BetweenPoints(sqrt, p, p);
    NoDistance(p, p);
    RootOfZero(SegmentDistance(sqrt, p, p, p, p));
    if SegmentDistance(sqrt, p, p, x, x) <= SegmentDistance(sqrt, y, y, p, p) {
      SquareMonotone(SegmentDistance(sqrt, p, p, x, x), SegmentDistance(sqrt, y, y, p, p));
    }
  }

  lemma PointsSound(sqrt: real -> Distance, p: Point, x: Point, human: Capsule, dist: real)
    requires IsSquareRoot(sqrt)
    ensures ReuseSoundForAll(ComputedCapsuleMetric(sqrt), StoppedAfter(PointCapsule(p), 1, dist), human,
                             EnvironmentOf(Three(p, x)))
  {
    hide SegmentDistance, IsSquareRoot, IsDistance, ComputedCapsuleMetric;
    ThreePresent(p, x);
    BetweenPoints(sqrt, p, p);
    BetweenPoints(sqrt, p, x);
    hide EnvironmentOf, Three;
    CapsulesSound(sqrt, StoppedAfter(PointCapsule(p), 1, dist), human, EnvironmentOf(Three(p, x)));
  }

  lemma TouchesNot(sqrt: real -> Distance, y: Point, p: Point)
    requires IsSquareRoot(sqrt) && y != p
    ensures !CapsulesTouch(sqrt)(PointCapsule(y), PointCapsule(p))
  {
    PointCapsulesMeasured(sqrt, y, p);
    BodySamples.TouchAgreesWithMetric(sqrt, PointCapsule(y), PointCapsule(p));
    hide BodySamples.Touch, IsSquareRoot, ComputedCapsuleMetric;
  }

  lemma NoneHit(robot: Robot, view: View, h: History, intersects: (Capsule, Capsule) -> bool, job: Job, p: Point,
                x: Point)
    requires |job.trace| == 1 && SamplesOf(view, h, job) == Three(p, x) && |ModesOf(job.trace)| == 1
    requires ModesOf(job.trace)[0] == job.trace[0].mode
    requires !intersects(job.human, PointCapsule(p)) && !intersects(job.human, PointCapsule(x))
    requires S.CheckedSampleIndex(robot, h, job.snapshotTime, job.trace[0].mode, job.initialTime) == Some(1)
    ensures Scannable(robot, view, h, job) && Verdict(robot, view, h, intersects, job, -1)
  {
    assert SamplesAhead(view, h, job) == SamplesOf(view, h, job)[0];
    hide SamplesOf, S.CheckedSampleIndex, SegmentIn;
  }

  lemma ReturningPast(a: Mode, b: Mode, d: Mode, o: Observation, q: Observation)
    ensures S.TraceAt(Returning(a, b, d, o, q), 10) == Some([a, b, a, d])
  {
    PrefixUnique(Returning(a, b, d, o, q).traces, 10, 5);
  }

  lemma UnknownNext(robot: Robot, view: View, h: History, job: Job, a: Mode, b: Mode, d: Mode, branches: seq<Branch>,
                    next: map<Mode, real>, order: seq<Mode>)
    requires Apart3(a, b, d) && job.trace == [Entry(a, 1.0)] && S.StoredAt(h, job.snapshotTime, d) == None
    requires AreNext([a, b, a, d], Branch(job.trace, job.path), NextJobs(branches), next, order)
    ensures SomeUnscannable(robot, view, h, job, branches)
  {
    hide FitsTrace;
    assert ModesOf(job.trace) == [a];
    assert FullTrace([a, b, a, d], job.trace) == [a, b, a, d, a];
    var k :| IsPrediction(FullTrace([a, b, a, d], job.trace), k, next);
    PredictsFrom(a, b, d, k, next);
    var i :| 0 <= i < |order| && order[i] == d;
    var br := branches[i];
    assert br.trace[1].mode == d && |br.trace| == 2;
    hide AreNext;
    forall secs ensures !Scannable(robot, view, h, NextJob(job, br, secs)) {
      var j := NextJob(job, br, secs);
      assert SamplesAhead(view, h, j) == [];
    }
    assert br in branches && Unscannable(robot, view, h, job, br);
  }

  lemma PredictsFrom(a: Mode, b: Mode, d: Mode, k: nat, next: map<Mode, real>)
    requires Apart3(a, b, d) && IsPrediction([a, b, a, d, a], k, next)
    ensures d in next
  {
    var ms := [a, b, a, d, a];
    EndsAtOne(ms, 2);
    assert ms[2] == ms[|ms| - 1] == a && ms[3] == d;
    hide EndsAt, Followers, Occurrences;
    var i :| 0 <= i < |ms| && EndsAt(ms, i, k);
    NotTwo(a, b, d, i);
    if k > 1 { EndsAtShorter(ms, i, k, 2); }
    FollowersPositive(ms, k, 2, 4);
  }

  lemma NotTwo(a: Mode, b: Mode, d: Mode, i: nat)
    requires Apart3(a, b, d)
    ensures !EndsAt([a, b, a, d, a], i, 2)
  {
    var ms := [a, b, a, d, a];
    assert ms[3..][0] == d;
    if 1 <= i <= 3 { assert ms[i - 1..i + 1][0] == ms[i - 1]; }
  }
}
