/** A run in which strong equivalence reuses a mode whose samples have been updated, and skips one that is hit. */
module DetourExamples {
  import opened Capsules
  import opened SegmentDistances
  import opened ReuseBounds
  import opened Modes
  import opened NextModes
  import opened ModeTraces
  import opened TimedEntries
  import opened Histories
  import opened HistoryEnvironments
  import opened LookAheadGuards
  import opened ExampleRuns
  import opened TraceSampleRanges
  import opened Barriers
  import opened SectionLists
  import opened SectionResets
  import opened LookAheadJobs
  import opened LookAheadJobPaths
  import opened LookAheadJobRegistries
  import opened Reuses
  import opened JobRuns
  import opened JobLives
  import opened ReuseExamples
  import S = HistorySnapshots

  /* What the history of the detour answers */

  lemma DetourSamples(a: Mode, b: Mode, c: Mode, o: Observation, q: Observation)
    requires Apart3(a, b, c)
    ensures var h := Detour(a, b, c, o, q);
            && S.StoredAt(h, 4, a) == Some([[[o]]]) && S.StoredAt(h, 6, a) == Some([[[o, o]]])
            && S.StoredAt(h, 4, b) == Some([[[o]]]) && S.StoredAt(h, 6, b) == Some([[[o]]])
            && S.StoredAt(h, 4, c) == Some([[[o]]]) && S.StoredAt(h, 6, c) == Some([[[o, q]]])
  {
    var h := Detour(a, b, c, o, q);
    PrefixUnique(h.states[a], 4, 1);
    PrefixUnique(h.states[a], 6, 2);
    PrefixUnique(h.states[b], 4, 1);
    PrefixUnique(h.states[b], 6, 1);
    PrefixUnique(h.states[c], 4, 1);
    PrefixUnique(h.states[c], 6, 2);
  }

  lemma DetourModes(a: Mode, b: Mode, c: Mode, o: Observation, q: Observation)
    requires Apart3(a, b, c)
    ensures var h := Detour(a, b, c, o, q);
            && S.ModeAt(h, 4) == a && S.ModeAt(h, 6) == b
            && S.CheckedSampleIndex(EXAMPLE_ROBOT, h, 4, a, 4) == Some(0)
            && S.CheckedSampleIndex(EXAMPLE_ROBOT, h, 6, b, 6) == Some(0)
            && S.TraceAt(h, 4) == Some([a, b, c])
  {
    hide *;
    DetourEntrances(a, b, c, o, q);
    DetourSamples(a, b, c, o, q);
    DetourTrace(a, b, c, o, q);
    EnteredNow(Detour(a, b, c, o, q), 4, a, [[[o]]]);
    EnteredNow(Detour(a, b, c, o, q), 6, b, [[[o]]]);
  }

  lemma DetourTrace(a: Mode, b: Mode, c: Mode, o: Observation, q: Observation)
    ensures S.TraceAt(Detour(a, b, c, o, q), 4) == Some([a, b, c])
  {
    PrefixUnique(Detour(a, b, c, o, q).traces, 4, 4);
  }

  lemma DetourEntrances(a: Mode, b: Mode, c: Mode, o: Observation, q: Observation)
    requires Apart3(a, b, c)
    ensures var h := Detour(a, b, c, o, q);
            && S.ModeAt(h, 4) == a && S.ModeAt(h, 6) == b
            && S.Entrance(h, a, 4) == Some(4) && S.Entrance(h, b, 6) == Some(6)
  {
    var h := Detour(a, b, c, o, q);
    var ps := h.presences;
    DetourReached(a, b, c, o, q);
    ReachedValid(EXAMPLE_ROBOT, h);
    ValidChained(EXAMPLE_ROBOT, h);
    assert ps[4] == Presence(a, c, 4, 5);
    hide Histories.Valid, Reached, Chained;
    S.ModeAtFound(ps, b, 4, 4);
    S.EntranceFound(ps, a, 4, 4);
    InLatestMode(EXAMPLE_ROBOT, h, 6);
  }

  /** At the entrance into a mode, the sample index is the first. */
  lemma EnteredNow(h: History, t: nat, m: Mode, samples: Histories.BodySamples)
    requires S.Entrance(h, m, t) == Some(t) && S.StoredAt(h, t, m) == Some(samples)
    requires |samples| > 0 && |samples[0]| > 0
    ensures S.CheckedSampleIndex(EXAMPLE_ROBOT, h, t, m, t) == Some(0)
  {
    hide S.Entrance, S.StoredAt;
  }

  /* The jobs */

  /** One barrier, over the first sample of each of the first n modes. */
  function Steady(human: Capsule, d: real, n: nat): seq<SectionValue> {
    [SectionValue(human, [Barrier(d, Range(TraceSampleIndex(0, 0), Zeros(n)))])]
  }

  /** The scans at 4, in a, found b, c and a clear ahead. */
  function ClearJob(id: LookAheadJobIdentifier, a: Mode, b: Mode, c: Mode, human: Capsule, d: real): Job {
    Job(id, 4, 4, human, [Entry(a, 1.0), Entry(b, 1.0), Entry(c, 1.0), Entry(a, 1.0)], [], Steady(human, d, 3))
  }

  /** What goes on from it at 6, in b. */
  function OnwardJob(id: LookAheadJobIdentifier, a: Mode, b: Mode, c: Mode, human: Capsule, d: real): Job {
    Job(id, 6, 6, human, [Entry(b, 1.0), Entry(c, 1.0), Entry(a, 1.0)], [], Steady(human, d, 2))
  }

  /** The job that looks over c, without what was left of the barriers. */
  function DirectJob(id: LookAheadJobIdentifier, b: Mode, c: Mode, human: Capsule): Job {
    Job(id, 6, 6, human, [Entry(b, 1.0), Entry(c, 1.0)], [], [])
  }

  function Single(r: Capsule): SegmentSamples {
    [Some(r)]
  }

  lemma JobSamples(a: Mode, b: Mode, c: Mode, o: Observation, q: Observation, p: Point, x: Point,
                   id: LookAheadJobIdentifier, d: real)
    requires Apart3(a, b, c) && o != q && id.robotSegment == 0
    ensures var view, h, human := TwoPoints(q, p, x), Detour(a, b, c, o, q), PointCapsule(x);
            var clear, hit := Single(PointCapsule(p)), Single(human);
            && SamplesOf(view, h, ClearJob(id, a, b, c, human, d)) == [clear, clear, clear, clear]
            && SamplesOf(view, h, OnwardJob(id, a, b, c, human, d)) == [clear, hit, clear]
            && SamplesAhead(view, h, OnwardJob(id, a, b, c, human, d)) == clear
            && SamplesAhead(view, h, DirectJob(id, b, c, human)) == hit
  {
    var view, h, human := TwoPoints(q, p, x), Detour(a, b, c, o, q), PointCapsule(x);
    DetourSamples(a, b, c, o, q);
    hide Detour;
    assert q !in [o] && q !in [o, o] && q in [o, q] by { assert [o, q][1] == q; }
    var clear, hit := Single(PointCapsule(p)), Single(human);
    assert SegmentIn(view, h, 4, 0, a) == clear && SegmentIn(view, h, 4, 0, b) == clear;
    assert SegmentIn(view, h, 4, 0, c) == clear && SegmentIn(view, h, 6, 0, a) == clear;
    assert SegmentIn(view, h, 6, 0, b) == clear && SegmentIn(view, h, 6, 0, c) == hit;
    hide SegmentIn;
    assert ModesOf(ClearJob(id, a, b, c, human, d).trace) == [a, b, c, a];
    assert ModesOf(OnwardJob(id, a, b, c, human, d).trace) == [b, c, a];
  }

  lemma SteadyTracks(m: Metric, human: Capsule, robot: Capsule, d: real)
    requires d == m.humanRobot(human, robot) > 0.0
    ensures var clear := Single(robot);
            Tracks(m, Steady(human, d, 3), EnvironmentOf([clear, clear, clear, clear]), TraceSampleIndex(0, 0),
                   TraceSampleIndex(3, 0))
  {
    hide EnvironmentOf;
    var clear := Single(robot);
    var env := EnvironmentOf([clear, clear, clear, clear]);
    forall x | x in env ensures env[x] == robot && x.sample == 0 {
      assert Present([clear, clear, clear, clear], x);
    }
    SteadyIn(m, human, robot, d, env);
  }

  lemma SteadyIn(m: Metric, human: Capsule, robot: Capsule, d: real, env: Environment)
    requires d == m.humanRobot(human, robot) > 0.0 && forall x :: x in env ==> env[x] == robot && x.sample == 0
    ensures Tracks(m, Steady(human, d, 3), env, TraceSampleIndex(0, 0), TraceSampleIndex(3, 0))
  {
    var secs := Steady(human, d, 3);
    assert secs[0].barriers[0].range.Max() == TraceSampleIndex(2, 0);
    assert CoveredAt(m, secs, env, TraceSampleIndex(0, 0), 0, 0);
  }

  lemma SteadyReset(m: Metric, human: Capsule, d: real)
    requires d > m.humanHuman(human, human)
    ensures SectionsWellFormed(Steady(human, d, 3)) && SectionsWellFormed(Steady(human, d, 2))
    ensures SectionsReset(m, Steady(human, d, 3), human, TraceSampleIndex(1, 0), 2) == Steady(human, d, 2)
    ensures End(Steady(human, d, 2)) == TraceSampleIndex(1, 0)
  {
    var secs, start := Steady(human, d, 3), TraceSampleIndex(1, 0);
    var bs, hh := secs[0].barriers, m.humanHuman(human, human);
    assert Trimmed(bs, 2) == bs;
    assert ReuseElement(bs, hh) == 0 && bs[..1] == bs;
    assert WithoutOutdated(bs, start) == bs;
    var left := Barrier(d, Range(TraceSampleIndex(0, 0), Zeros(2)));
    assert bs[0].range.ScaledDown(1) == left.range by { assert Zeros(3)[1..] == Zeros(2); }
    assert Scaled(bs, 1) == [left];
    assert Reset(bs, hh, start, 2) == [left];
  }

  lemma ClearTracked(sqrt: real -> Distance, a: Mode, b: Mode, c: Mode, o: Observation, q: Observation, p: Point,
                     x: Point, id: LookAheadJobIdentifier, d: real)
    requires Apart3(a, b, c) && o != q && id.robotSegment == 0
    requires d == ComputedCapsuleMetric(sqrt).humanRobot(PointCapsule(x), PointCapsule(p)) > 0.0
    ensures Tracked(ComputedCapsuleMetric(sqrt), EXAMPLE_ROBOT, TwoPoints(q, p, x), Detour(a, b, c, o, q),
                    ClearJob(id, a, b, c, PointCapsule(x), d))
  {
    var m, view, h := ComputedCapsuleMetric(sqrt), TwoPoints(q, p, x), Detour(a, b, c, o, q);
    var human := PointCapsule(x);
    var basis := ClearJob(id, a, b, c, human, d);
    hide ComputedCapsuleMetric, TwoPoints, Detour, SamplesOf, Single, PointCapsule, EnvironmentOf, Steady, Tracks;
    ClearJobValid(id, a, b, c, human, d);
    JobSamples(a, b, c, o, q, p, x, id, d);
    DetourModes(a, b, c, o, q);
    SteadyTracks(m, human, PointCapsule(p), d);
  }

  lemma ClearJobValid(id: LookAheadJobIdentifier, a: Mode, b: Mode, c: Mode, human: Capsule, d: real)
    requires Apart3(a, b, c) && d >= 0.0
    ensures ClearJob(id, a, b, c, human, d).Valid() && OnwardJob(id, a, b, c, human, d).Valid()
    ensures ModesOf(ClearJob(id, a, b, c, human, d).trace) == [a, b, c, a]
    ensures ModesOf(OnwardJob(id, a, b, c, human, d).trace) == [b, c, a]
  {
    var ms, ms' := ModesOf(ClearJob(id, a, b, c, human, d).trace), ModesOf(OnwardJob(id, a, b, c, human, d).trace);
    assert ms[..3] == [a, b, c] && ms'[..2] == [b, c];
  }

  lemma OnwardGoesOn(m: Metric, a: Mode, b: Mode, c: Mode, o: Observation, q: Observation, p: Point, x: Point,
                     id: LookAheadJobIdentifier, d: real)
    requires Apart3(a, b, c) && o != q && id.robotSegment == 0
    requires d > m.humanHuman(PointCapsule(x), PointCapsule(x))
    ensures GoesOn(m, EXAMPLE_ROBOT, TwoPoints(q, p, x), Detour(a, b, c, o, q), true,
                   ClearJob(id, a, b, c, PointCapsule(x), d), OnwardJob(id, a, b, c, PointCapsule(x), d),
                   PointCapsule(x), b, 6, 1)
  {
    hide *;
    var view, h, human := TwoPoints(q, p, x), Detour(a, b, c, o, q), PointCapsule(x);
    ClearJobValid(id, a, b, c, human, d);
    JobSamples(a, b, c, o, q, p, x, id, d);
    DetourModes(a, b, c, o, q);
    SteadyReset(m, human, d);
    DetourBound(a, b, c);
    OnwardFrom(m, EXAMPLE_ROBOT, view, h, id, a, b, c, human, d, PointCapsule(p));
  }

  lemma OnwardFrom(m: Metric, robot: Robot, view: View, h: History, id: LookAheadJobIdentifier, a: Mode, b: Mode,
                   c: Mode, human: Capsule, d: real, clear: Capsule)
    requires OnwardJob(id, a, b, c, human, d).Valid()
    requires ModesOf(ClearJob(id, a, b, c, human, d).trace) == [a, b, c, a]
    requires ModesOf(OnwardJob(id, a, b, c, human, d).trace) == [b, c, a]
    requires IsFirst([a, b, c, a], b, 1) && ResetBound(true, [a, b, c, a], 1) == 2
    requires SamplesOf(view, h, OnwardJob(id, a, b, c, human, d)) == [Single(clear), Single(human), Single(clear)]
    requires S.CheckedSampleIndex(robot, h, 6, b, 6) == Some(0)
    requires SectionsWellFormed(Steady(human, d, 3)) && SectionsWellFormed(Steady(human, d, 2))
    requires SectionsReset(m, Steady(human, d, 3), human, TraceSampleIndex(1, 0), 2) == Steady(human, d, 2)
    requires End(Steady(human, d, 2)) == TraceSampleIndex(1, 0)
    ensures GoesOn(m, robot, view, h, true, ClearJob(id, a, b, c, human, d), OnwardJob(id, a, b, c, human, d), human,
                   b, 6, 1)
  {
    hide SamplesOf, SectionsReset, SectionsWellFormed, End, S.CheckedSampleIndex, IsFirst, ResetBound, FitsTrace,
         Distinct, ModesOf;
    assert OnwardJob(id, a, b, c, human, d).secs == Steady(human, d, 2) != [];
    assert StartOf(robot, h, OnwardJob(id, a, b, c, human, d)) == Some(0);
    assert EndsAtLast(Steady(human, d, 2), [Single(clear), Single(human), Single(clear)]);
  }

  lemma DetourBound(a: Mode, b: Mode, c: Mode)
    requires Apart3(a, b, c)
    ensures IsFirst([a, b, c, a], b, 1) && ResetBound(true, [a, b, c, a], 1) == 2
  {
    assert [a, b, c, a][..1] == [a];
  }

  /** Strong equivalence is meant to exclude from reuse every mode whose samples have been updated. But the bound only
      looks for the last mode of the trace, and only before the new start. A robot predicted to go through b and c has
      gone through c into b: the guard is met, and the job goes on from barriers that cover c, although c has been
      exited since. All it has left to scan is clear; the sample of c that it skips is hit. */
  lemma DetourReusesUpdated(sqrt: real -> Distance, a: Mode, b: Mode, c: Mode, o: Observation, q: Observation, p: Point,
                            x: Point, id: LookAheadJobIdentifier)
    requires IsSquareRoot(sqrt) && Apart3(a, b, c) && o != q && p != x && id.robotSegment == 0
    ensures var m, view, h, human := ComputedCapsuleMetric(sqrt), TwoPoints(q, p, x), Detour(a, b, c, o, q),
                                     PointCapsule(x);
            var d := m.humanRobot(human, PointCapsule(p));
            var basis, j := ClearJob(id, a, b, c, human, d), OnwardJob(id, a, b, c, human, d);
            && Reached(EXAMPLE_ROBOT, h) && Histories.Valid(EXAMPLE_ROBOT, h)
            && S.CanLookAhead(EXAMPLE_ROBOT, h, 4, 6) == Some(true) && ExitedBetween(h, c, 4, 6)
            && Tracked(m, EXAMPLE_ROBOT, view, h, basis)
            && ReuseSoundForAll(m, basis.secs, human, EnvironmentOf(SamplesOf(view, h, basis)))
            && GoesOn(m, EXAMPLE_ROBOT, view, h, true, basis, j, human, S.ModeAt(h, 6), 6, 1)
            && Scannable(EXAMPLE_ROBOT, view, h, j) && Verdict(EXAMPLE_ROBOT, view, h, CapsulesTouch(sqrt), j, -1)
            && SectionsWellFormed(j.secs)
            && !SafeUpToEnd(m, j.secs, EnvironmentOf(SamplesOf(view, h, j)), TraceSampleIndex(0, 0), human)
            && var direct := DirectJob(id, b, c, human);
               Scannable(EXAMPLE_ROBOT, view, h, direct)
               && Verdict(EXAMPLE_ROBOT, view, h, CapsulesTouch(sqrt), direct, 0)
  {
    hide *;
    var m, view, h, human := ComputedCapsuleMetric(sqrt), TwoPoints(q, p, x), Detour(a, b, c, o, q), PointCapsule(x);
    var d := m.humanRobot(human, PointCapsule(p));
    var basis, j := ClearJob(id, a, b, c, human, d), OnwardJob(id, a, b, c, human, d);
    Apart3Is(a, b, c);
    DetourLooksAhead(a, b, c, o, q);
    DetourReached(a, b, c, o, q);
    DetourModes(a, b, c, o, q);
    DetourExits(a, b, c, o, q);
    DetourMeasured(sqrt, p, x);
    ClearTracked(sqrt, a, b, c, o, q, p, x, id, d);
    OnwardGoesOn(m, a, b, c, o, q, p, x, id, d);
    SteadyHuman(id, a, b, c, human, d);
    SameHumanSound(m, basis.secs, human, EnvironmentOf(SamplesOf(view, h, basis)));
    JobSamples(a, b, c, o, q, p, x, id, d);
    SteadyReset(m, human, d);
    SkippedHit(m, human, PointCapsule(p), d);
    TouchesItself(sqrt, x);
    TouchesNot(sqrt, x, p);
    DirectVerdict(EXAMPLE_ROBOT, view, h, CapsulesTouch(sqrt), id, b, c, human);
    OnwardVerdict(EXAMPLE_ROBOT, view, h, CapsulesTouch(sqrt), id, a, b, c, human, PointCapsule(p), d);
  }

  lemma DetourExits(a: Mode, b: Mode, c: Mode, o: Observation, q: Observation)
    requires Apart3(a, b, c)
    ensures ExitedBetween(Detour(a, b, c, o, q), c, 4, 6)
  {
    assert StoredIn(Detour(a, b, c, o, q), c)[1].time == 6;
  }

  lemma DetourMeasured(sqrt: real -> Distance, p: Point, x: Point)
    requires IsSquareRoot(sqrt) && p != x
    ensures var m, human := ComputedCapsuleMetric(sqrt), PointCapsule(x);
            && m.humanRobot(human, PointCapsule(p)) > m.humanHuman(human, human) >= 0.0
            && m.humanRobot(human, human) == 0.0
  {
    hide ComputedCapsuleMetric, IsSquareRoot;
    PointCapsulesMeasured(sqrt, x, p);
    PointCapsulesMeasured(sqrt, x, x);
  }

  lemma SteadyHuman(id: LookAheadJobIdentifier, a: Mode, b: Mode, c: Mode, human: Capsule, d: real)
    ensures var basis, j := ClearJob(id, a, b, c, human, d), OnwardJob(id, a, b, c, human, d);
            && basis.secs == Steady(human, d, 3) && j.secs == Steady(human, d, 2)
            && forall k :: 0 <= k < |basis.secs| ==> basis.secs[k].human == human
  {
  }

  lemma SkippedHit(m: Metric, human: Capsule, robot: Capsule, d: real)
    requires m.humanRobot(human, human) == 0.0 && SectionsWellFormed(Steady(human, d, 2))
    requires End(Steady(human, d, 2)) == TraceSampleIndex(1, 0)
    ensures var along := [Single(robot), Single(human), Single(robot)];
            !SafeUpToEnd(m, Steady(human, d, 2), EnvironmentOf(along), TraceSampleIndex(0, 0), human)
  {
    hide SectionsWellFormed, End;
    var along := [Single(robot), Single(human), Single(robot)];
    assert Present(along, TraceSampleIndex(1, 0));
  }

  lemma DirectVerdict(robot: Robot, view: View, h: History, intersects: (Capsule, Capsule) -> bool,
                      id: LookAheadJobIdentifier, b: Mode, c: Mode, human: Capsule)
    requires b != c && S.CheckedSampleIndex(robot, h, 6, b, 6) == Some(0) && intersects(human, human)
    requires SamplesAhead(view, h, DirectJob(id, b, c, human)) == Single(human)
    ensures var job := DirectJob(id, b, c, human);
            Scannable(robot, view, h, job) && Verdict(robot, view, h, intersects, job, 0)
  {
    hide S.CheckedSampleIndex, SamplesAhead;
    assert ModesOf(DirectJob(id, b, c, human).trace) == [b, c];
  }

  lemma OnwardVerdict(robot: Robot, view: View, h: History, intersects: (Capsule, Capsule) -> bool,
                      id: LookAheadJobIdentifier, a: Mode, b: Mode, c: Mode, human: Capsule, clear: Capsule, d: real)
    requires a != b && S.CheckedSampleIndex(robot, h, 6, b, 6) == Some(0) && !intersects(human, clear)
    requires SamplesAhead(view, h, OnwardJob(id, a, b, c, human, d)) == Single(clear)
    ensures var job := OnwardJob(id, a, b, c, human, d);
            Scannable(robot, view, h, job) && Verdict(robot, view, h, intersects, job, -1)
  {
    hide S.CheckedSampleIndex, SamplesAhead;
    assert ModesOf(OnwardJob(id, a, b, c, human, d).trace) == [b, c, a];
  }
}
