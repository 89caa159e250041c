/** A run in which the registry refuses an awakening that the guard admits. */
module RegistryExamples {
  import opened Modes
  import opened NextModes
  import opened ModeTraces
  import opened TimedEntries
  import opened Histories
  import opened HistoryEnvironments
  import opened ExampleRuns
  import opened LookAheadJobRegistries
  import opened LookAheadJobFactories
  import opened Reuses
  import opened ReuseExamples
  import opened RuntimeReceivers
  import JobLives
  import SectionLists
  import LookAheadJobPaths
  import S = HistorySnapshots

  /** A sleeping job in its first mode. */
  predicate AsleepIn(job: Job, a: Mode, time: nat) {
    job.trace == [Entry(a, 1.0)] && job.initialTime == time == job.snapshotTime && job.Valid()
  }

  /** Two humans, whose jobs sleep since 6, are seen by the robot message at 10: the one was last observed then, the
      other at 9. Both jobs are due, and the history supports both awakenings; but the first registers 10, and the
      second fails, because 9 is neither known nor later. */
  lemma TwoHumansFail(factory: ReuseLookAheadJobFactory, view: View, a: Mode, b: Mode, d: Mode, o: Observation,
                      q: Observation, one: Job, other: Job, latest: LookAheadJobIdentifier -> Latest)
    requires Apart3(a, b, d) && AsleepIn(one, a, 6) && AsleepIn(other, a, 6)
    requires latest(one.id).time == 10 && latest(other.id).time == 9
    ensures var h := Returning(a, b, d, o, q);
            && Reached(EXAMPLE_ROBOT, h) && Histories.Valid(EXAMPLE_ROBOT, h) && Chained(h.presences)
            && Due(EXAMPLE_ROBOT, h, one, 10) && Due(EXAMPLE_ROBOT, h, other, 9)
            && AllAnswered(EXAMPLE_ROBOT, h, factory.strong, [one, other], latest)
            && !TimesAccepted(factory, EXAMPLE_ROBOT, view, h, [one, other], latest, [6])
  {
    hide *;
    var h := Returning(a, b, d, o, q);
    Apart3Is(a, b, d);
    ReturningReached(a, b, d, o, q);
    ReachedValid(EXAMPLE_ROBOT, h);
    JobLives.ValidChained(EXAMPLE_ROBOT, h);
    DueWhenBack(factory, view, a, b, d, o, q, one, latest(one.id));
    DueWhenBack(factory, view, a, b, d, o, q, other, latest(other.id));
    BothAnswered(h, factory.strong, one, other, latest);
    SecondRefused(factory, EXAMPLE_ROBOT, view, h, one, other, latest);
  }

  lemma DueWhenBack(factory: ReuseLookAheadJobFactory, view: View, a: Mode, b: Mode, d: Mode, o: Observation,
                    q: Observation, job: Job, latest: Latest)
    requires Apart3(a, b, d) && AsleepIn(job, a, 6) && 9 <= latest.time <= 10
    requires Chained(Returning(a, b, d, o, q).presences)
    ensures var h := Returning(a, b, d, o, q);
            && Due(EXAMPLE_ROBOT, h, job, latest.time)
            && Answered(EXAMPLE_ROBOT, h, factory.strong, job, latest.time)
            && RegistersDue(factory, EXAMPLE_ROBOT, view, h, job, latest)
  {
    var h, t := Returning(a, b, d, o, q), latest.time;
    hide Returning, Chained, S.CanLookAhead, S.ModeAt, Registers, SectionLists.SectionsWellFormed, Distinct,
         LookAheadJobPaths.FitsTrace, Supported;
    ReturningLooksAhead(a, b, d, o, q, t);
    SupportedWhenBack(a, b, d, o, q, job, t, SnapshotFor(factory.strong, job, t));
    RegistersNew(factory, EXAMPLE_ROBOT, view, h, job, a, latest);
  }

  lemma SupportedWhenBack(a: Mode, b: Mode, d: Mode, o: Observation, q: Observation, job: Job, t: nat, snapshot: nat)
    requires Apart3(a, b, d) && AsleepIn(job, a, 6) && 9 <= t <= 10 && (snapshot == 6 || snapshot == t)
    ensures Supported(EXAMPLE_ROBOT, Returning(a, b, d, o, q), job, snapshot, a, t)
  {
    ReturningIndices(a, b, d, o, q, snapshot, t);
    ReturningSamples(a, b, d, o, q, snapshot);
    PrefixUnique(Returning(a, b, d, o, q).traces, t, 5);
    assert ModesOf(job.trace) == [a];
    hide Returning, S.CheckedSampleIndex, S.StoredAt, Distinct, SectionLists.SectionsWellFormed;
  }

  lemma RegistersNew(factory: ReuseLookAheadJobFactory, robot: Robot, view: View, h: History, job: Job, a: Mode,
                     latest: Latest)
    requires AsleepIn(job, a, 6) && latest.time > 6
    ensures Registers(factory.metric, robot, view, h, factory.strong, job, latest.time, latest.sample)
  {
    hide S.ModeAt, S.CheckedSampleIndex, Distinct, SectionLists.SectionsWellFormed, CoversLast, ResetBound;
    assert ModesOf(job.trace) == [a];
    if latest.sample.Some? {
      forall lower: nat
        ensures !CompletesFrom(factory.metric, robot, view, h, factory.strong, job, latest.sample.value,
                               S.ModeAt(h, latest.time), latest.time, lower)
      {
        if lower == 0 { assert job.trace[0..] == job.trace; }
      }
    }
  }

  lemma BothAnswered(h: History, strong: bool, one: Job, other: Job, latest: LookAheadJobIdentifier -> Latest)
    requires Chained(h.presences)
    requires Answered(EXAMPLE_ROBOT, h, strong, one, latest(one.id).time)
    requires Answered(EXAMPLE_ROBOT, h, strong, other, latest(other.id).time)
    ensures AllAnswered(EXAMPLE_ROBOT, h, strong, [one, other], latest)
  {
    hide Answered;
  }

  lemma SecondRefused(factory: ReuseLookAheadJobFactory, robot: Robot, view: View, h: History, one: Job, other: Job,
                      latest: LookAheadJobIdentifier -> Latest)
    requires Chained(h.presences) && latest(one.id).time == 10 && latest(other.id).time == 9
    requires RegistersDue(factory, robot, view, h, one, latest(one.id))
    requires RegistersDue(factory, robot, view, h, other, latest(other.id))
    ensures !TimesAccepted(factory, robot, view, h, [one, other], latest, [6])
  {
    hide RegistersDue;
    var jobs := [one, other];
    assert jobs[..1] == [one] && [one][..0] == [];
    assert TimesOver(factory, robot, view, h, [], latest, [6]) == [6];
    assert TimesOver(factory, robot, view, h, jobs[..1], latest, [6]) == [6, 10];
    assert jobs[1] == other;
  }
}
