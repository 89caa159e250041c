/** What the receiver does with the sleeping jobs when a message has arrived: those that the guard admits are woken,
    and each outcome goes to the queue it belongs to. The history does not change meanwhile: messages are handled one
    at a time. */
module RuntimeReceivers {
  import opened Capsules
  import opened Histories
  import opened HistoryEnvironments
  import opened RobotStateHistories
  import opened LookAheadJobPaths
  import opened LookAheadJobRegistries
  import opened LookAheadJobFactories
  import SectionLists
  import NextModes
  import opened Reuses
  import opened SynchronisedQueues
  import S = HistorySnapshots

  /** When a human was last observed, and the sample of the segment concerned; none if it is empty. */
  datatype Latest = Latest(time: nat, sample: Option<Capsule>)

  /** It is time to wake the job. */
  predicate Due(robot: Robot, h: History, job: Job, time: nat)
    requires Chained(h.presences)
  {
    job.initialTime < time && S.CanLookAhead(robot, h, job.snapshotTime, time) == Some(true)
  }

  /** Jobs that are different are moved, and all others kept. */
  function Sorted(woken: seq<LookAheadJobFactories.Woken>): seq<(Job, bool)> {
    seq(|woken|, i requires 0 <= i < |woken| => (woken[i].job, woken[i].result.Different?))
  }

  /** What becomes of a sleeping job. */
  ghost predicate IsOutcome(m: Metric, robot: Robot, view: View, h: History, strong: bool, job: Job, latest: Latest,
                            outcome: seq<(Job, bool)>)
    requires Chained(h.presences)
  {
    if Due(robot, h, job, latest.time) then
      exists woken, before, after ::
        && IsAwakening(m, robot, view, h, strong, job, latest.time, latest.sample, Awakening(woken), before, after)
        && outcome == Sorted(woken)
    else outcome == [(job, false)]
  }

  function Flat<T>(outcomes: seq<seq<T>>): seq<T> {
    if outcomes == [] then [] else Flat(outcomes[..|outcomes| - 1]) + outcomes[|outcomes| - 1]
  }

  lemma FlatOne<T>(outcomes: seq<seq<T>>, o: seq<T>)
    ensures Flat(outcomes + [o]) == Flat(outcomes) + o
  {
    assert (outcomes + [o])[..|outcomes|] == outcomes;
  }

  /** The history answers the guard, if it is asked, and supports the awakening if the guard is met. */
  predicate Answered(robot: Robot, h: History, strong: bool, job: Job, time: nat)
    requires Chained(h.presences)
  {
    && (job.initialTime < time ==> S.CanLookAhead(robot, h, job.snapshotTime, time) != None)
    && (Due(robot, h, job, time) ==>
          Supported(robot, h, job, SnapshotFor(strong, job, time), S.ModeAt(h, time), time))
  }

  /** It is time to wake the job, and its awakening has its time registered. */
  ghost predicate RegistersDue(factory: ReuseLookAheadJobFactory, robot: Robot, view: View, h: History, job: Job,
                               latest: Latest)
    requires Chained(h.presences)
  {
    && Due(robot, h, job, latest.time)
    && Registers(factory.metric, robot, view, h, factory.strong, job, latest.time, latest.sample)
  }

  /** The registered times once all the jobs have had their turn. */
  ghost function TimesOver(factory: ReuseLookAheadJobFactory, robot: Robot, view: View, h: History, jobs: seq<Job>,
                           latest: LookAheadJobIdentifier -> Latest, times: seq<nat>): seq<nat>
    requires Chained(h.presences)
  {
    if jobs == [] then times
    else
      var job := jobs[|jobs| - 1];
      var before := TimesOver(factory, robot, view, h, jobs[..|jobs| - 1], latest, times);
      if RegistersDue(factory, robot, view, h, job, latest(job.id)) then TimesAfter(before, latest(job.id).time)
      else before
  }

  /** Each time to be registered is known, or later than all that are registered, when its turn comes. */
  ghost predicate TimesAccepted(factory: ReuseLookAheadJobFactory, robot: Robot, view: View, h: History, jobs: seq<Job>,
                                latest: LookAheadJobIdentifier -> Latest, times: seq<nat>)
    requires Chained(h.presences)
  {
    forall i :: 0 <= i < |jobs| && RegistersDue(factory, robot, view, h, jobs[i], latest(jobs[i].id)) ==>
      AcceptsTime(TimesOver(factory, robot, view, h, jobs[..i], latest, times), latest(jobs[i].id).time)
  }

  lemma TimesGrow(factory: ReuseLookAheadJobFactory, robot: Robot, view: View, h: History, jobs: seq<Job>, n: nat,
                  latest: LookAheadJobIdentifier -> Latest, times: seq<nat>)
    requires Chained(h.presences) && n < |jobs|
    ensures var before, after := TimesOver(factory, robot, view, h, jobs[..n], latest, times),
                                 TimesOver(factory, robot, view, h, jobs[..n + 1], latest, times);
            after == if RegistersDue(factory, robot, view, h, jobs[n], latest(jobs[n].id))
                     then TimesAfter(before, latest(jobs[n].id).time) else before
  {
    hide RegistersDue, TimesAfter;
    assert jobs[..n + 1][..n] == jobs[..n];
  }

  /** That is so if all humans were last observed at one time that the registry accepts. */
  lemma CommonTimeAccepted(factory: ReuseLookAheadJobFactory, robot: Robot, view: View, h: History, jobs: seq<Job>,
                           latest: LookAheadJobIdentifier -> Latest, times: seq<nat>, time: nat)
    requires Chained(h.presences) && AcceptsTime(times, time)
    requires forall i :: 0 <= i < |jobs| ==> latest(jobs[i].id).time == time
    ensures TimesAccepted(factory, robot, view, h, jobs, latest, times)
  {
    hide RegistersDue, TimesOver;
    forall i | 0 <= i < |jobs|
      ensures AcceptsTime(TimesOver(factory, robot, view, h, jobs[..i], latest, times), time)
    {
      OneTimeMore(factory, robot, view, h, jobs[..i], latest, times, time);
    }
  }

  lemma {:induction false} OneTimeMore(factory: ReuseLookAheadJobFactory, robot: Robot, view: View, h: History,
                                       jobs: seq<Job>, latest: LookAheadJobIdentifier -> Latest, times: seq<nat>,
                                       time: nat)
    requires Chained(h.presences) && AcceptsTime(times, time)
    requires forall i :: 0 <= i < |jobs| ==> latest(jobs[i].id).time == time
    ensures var after := TimesOver(factory, robot, view, h, jobs, latest, times);
            (after == times || after == TimesAfter(times, time)) && AcceptsTime(after, time)
  {
    hide RegistersDue;
    TimesAfterAccepts(times, time);
    if jobs == [] {
    } else {
      OneTimeMore(factory, robot, view, h, jobs[..|jobs| - 1], latest, times, time);
    }
  }

  ghost predicate AreOutcomes(factory: ReuseLookAheadJobFactory, robot: Robot, view: View, h: History, jobs: seq<Job>,
                              latest: LookAheadJobIdentifier -> Latest, outcomes: seq<seq<(Job, bool)>>)
    requires Chained(h.presences)
  {
    && |outcomes| == |jobs|
    && forall i :: 0 <= i < |jobs| ==>
         IsOutcome(factory.metric, robot, view, h, factory.strong, jobs[i], latest(jobs[i].id), outcomes[i])
  }

  lemma OutcomesGrow(factory: ReuseLookAheadJobFactory, robot: Robot, view: View, h: History, jobs: seq<Job>, n: nat,
                     latest: LookAheadJobIdentifier -> Latest, outcomes: seq<seq<(Job, bool)>>, o: seq<(Job, bool)>)
    requires Chained(h.presences) && n < |jobs| && AreOutcomes(factory, robot, view, h, jobs[..n], latest, outcomes)
    requires IsOutcome(factory.metric, robot, view, h, factory.strong, jobs[n], latest(jobs[n].id), o)
    ensures AreOutcomes(factory, robot, view, h, jobs[..n + 1], latest, outcomes + [o])
  {
    hide IsOutcome;
  }

  /** Wakes one job, if it is time to. */
  method WakeOne(factory: ReuseLookAheadJobFactory, job: Job, latest: Latest, history: RobotStateHistory,
                 ghost view: View)
    returns (outcome: Option<seq<(Job, bool)>>)
    requires factory.registry.Valid() && history.Valid() && history.presences != [] && Chained(history.presences)
    requires job.Valid() && job.id.robotSegment < history.robot.segments
    modifies factory.registry, factory.registry.trees.Values, factory.registry.Nodes()
    ensures factory.registry.Valid()
    ensures fresh(factory.registry.trees.Values - old(factory.registry.trees.Values))
    ensures fresh(factory.registry.Nodes() - old(factory.registry.Nodes()))
    ensures outcome.Some? ==>
              IsOutcome(factory.metric, history.robot, view, history.Value(), factory.strong, job, latest,
                        outcome.value)
    ensures outcome.Some? ==>
              factory.registry.timestamps ==
              if RegistersDue(factory, history.robot, view, history.Value(), job, latest)
              then TimesAfter(old(factory.registry.timestamps), latest.time) else old(factory.registry.timestamps)
    ensures Answered(history.robot, history.Value(), factory.strong, job, latest.time) ==>
              (outcome.Some? <==>
               (RegistersDue(factory, history.robot, view, history.Value(), job, latest) ==>
                  AcceptsTime(old(factory.registry.timestamps), latest.time)))
  {
    hide IsAwakening, Supported, Histories.Valid, SectionLists.SectionsWellFormed, NextModes.Distinct, FitsTrace,
         IsTree, Apart, Increasing, AcceptsTime, TimesAfter, Registers, S.CanLookAhead, S.ModeAt, SnapshotFor, Chained;
    if job.initialTime < latest.time {
      var can := history.CanLookAhead(job.snapshotTime, latest.time);
      if can.None? {
        return None;
      }
      if can.value {
        outcome := WakeDue(factory, job, latest, history, view);
        return;
      }
    }
    outcome := Some([(job, false)]);
  }

  method WakeDue(factory: ReuseLookAheadJobFactory, job: Job, latest: Latest, history: RobotStateHistory,
                 ghost view: View)
    returns (outcome: Option<seq<(Job, bool)>>)
    requires factory.registry.Valid() && history.Valid() && history.presences != [] && Chained(history.presences)
    requires job.Valid() && job.id.robotSegment < history.robot.segments
    requires Due(history.robot, history.Value(), job, latest.time)
    modifies factory.registry, factory.registry.trees.Values, factory.registry.Nodes()
    ensures factory.registry.Valid()
    ensures fresh(factory.registry.trees.Values - old(factory.registry.trees.Values))
    ensures fresh(factory.registry.Nodes() - old(factory.registry.Nodes()))
    ensures outcome.Some? ==>
              IsOutcome(factory.metric, history.robot, view, history.Value(), factory.strong, job, latest,
                        outcome.value)
    ensures outcome.Some? ==>
              factory.registry.timestamps ==
              if RegistersDue(factory, history.robot, view, history.Value(), job, latest)
              then TimesAfter(old(factory.registry.timestamps), latest.time) else old(factory.registry.timestamps)
    ensures Answered(history.robot, history.Value(), factory.strong, job, latest.time) ==>
              (outcome.Some? <==>
               (RegistersDue(factory, history.robot, view, history.Value(), job, latest) ==>
                  AcceptsTime(old(factory.registry.timestamps), latest.time)))
  {
    hide IsAwakening, Supported, Histories.Valid, SectionLists.SectionsWellFormed, NextModes.Distinct, FitsTrace,
         IsTree, Apart, Increasing, AcceptsTime, TimesAfter, Registers, S.CanLookAhead, S.ModeAt, SnapshotFor, Chained,
         Due;
    ghost var before := factory.registry.Paths(Key(latest.time, job.id));
    var r := factory.Awaken(job, latest.time, latest.sample, history, view);
    ghost var after := factory.registry.Paths(Key(latest.time, job.id));
    if r.AwakeningFailure? {
      return None;
    }
    assert IsAwakening(factory.metric, history.robot, view, history.Value(), factory.strong, job, latest.time,
                       latest.sample, Awakening(r.jobs), before, after);
    var sorted := SortWoken(r.jobs);
    outcome := Some(sorted);
  }

  method SortWoken(woken: seq<LookAheadJobFactories.Woken>) returns (outcome: seq<(Job, bool)>)
    ensures outcome == Sorted(woken)
  {
    outcome := [];
    var i := 0;
    while i < |woken|
      invariant 0 <= i <= |woken| && outcome == Sorted(woken[..i])
    {
      outcome := outcome + [(woken[i].job, woken[i].result.Different?)];
      assert outcome == Sorted(woken[..i + 1]);
      i := i + 1;
    }
    assert woken[..i] == woken;
  }

  predicate AllAnswered(robot: Robot, h: History, strong: bool, jobs: seq<Job>,
                        latest: LookAheadJobIdentifier -> Latest)
    requires Chained(h.presences)
  {
    forall i :: 0 <= i < |jobs| ==> Answered(robot, h, strong, jobs[i], latest(jobs[i].id).time)
  }

  predicate AllValid(robot: Robot, jobs: seq<Job>) {
    forall i :: 0 <= i < |jobs| ==> jobs[i].Valid() && jobs[i].id.robotSegment < robot.segments
  }

  /** Takes the next sleeping job, and wakes it if it is time to. */
  method WakeNext(factory: ReuseLookAheadJobFactory, sleeping: SynchronisedQueue<Job>, history: RobotStateHistory,
                  ghost view: View, latest: LookAheadJobIdentifier -> Latest)
    returns (outcome: Option<seq<(Job, bool)>>)
    requires factory.registry.Valid() && history.Valid() && history.presences != [] && Chained(history.presences)
    requires sleeping.queue != [] && AllValid(history.robot, sleeping.queue)
    modifies sleeping, factory.registry, factory.registry.trees.Values, factory.registry.Nodes()
    ensures factory.registry.Valid()
    ensures fresh(factory.registry.trees.Values - old(factory.registry.trees.Values))
    ensures fresh(factory.registry.Nodes() - old(factory.registry.Nodes()))
    ensures sleeping.queue == old(sleeping.queue)[1..] && sleeping.numReserved == old(sleeping.numReserved)
    ensures outcome.Some? ==>
              IsOutcome(factory.metric, history.robot, view, history.Value(), factory.strong, old(sleeping.queue)[0],
                        latest(old(sleeping.queue)[0].id), outcome.value)
    ensures var job := old(sleeping.queue)[0];
            && (outcome.Some? ==>
                  factory.registry.timestamps ==
                  if RegistersDue(factory, history.robot, view, history.Value(), job, latest(job.id))
                  then TimesAfter(old(factory.registry.timestamps), latest(job.id).time)
                  else old(factory.registry.timestamps))
            && (Answered(history.robot, history.Value(), factory.strong, job, latest(job.id).time) ==>
                  (outcome.Some? <==>
                   (RegistersDue(factory, history.robot, view, history.Value(), job, latest(job.id)) ==>
                      AcceptsTime(old(factory.registry.timestamps), latest(job.id).time))))
  {
    hide Histories.Valid, Answered, IsOutcome, AcceptsTime, SectionLists.SectionsWellFormed, NextModes.Distinct,
         FitsTrace, IsTree, Apart, Increasing, AreOutcomes, Chained, Chosen, Flat, AllAnswered, IsAwakening, Supported,
         RegistersDue, TimesAfter;
    var job := Take(sleeping);
    outcome := WakeOne(factory, job, latest(job.id), history, view);
  }

  /** Drains the sleeping jobs, waking those that are due. */
  method WakeAll(factory: ReuseLookAheadJobFactory, sleeping: SynchronisedQueue<Job>, history: RobotStateHistory,
                 ghost view: View, latest: LookAheadJobIdentifier -> Latest)
    returns (done: bool, toKeep: seq<Job>, toMove: seq<Job>, ghost outcomes: seq<seq<(Job, bool)>>)
    requires factory.registry.Valid() && history.Valid() && history.presences != [] && Chained(history.presences)
    requires AllValid(history.robot, sleeping.queue)
    modifies sleeping, factory.registry, factory.registry.trees.Values, factory.registry.Nodes()
    ensures factory.registry.Valid() && sleeping.numReserved == old(sleeping.numReserved)
    ensures done ==>
              && AreOutcomes(factory, history.robot, view, history.Value(), old(sleeping.queue), latest, outcomes)
              && sleeping.queue == []
              && toKeep == Chosen(Flat(outcomes), false) && toMove == Chosen(Flat(outcomes), true)
    ensures done ==> factory.registry.timestamps ==
                     TimesOver(factory, history.robot, view, history.Value(), old(sleeping.queue), latest,
                               old(factory.registry.timestamps))
    ensures AllAnswered(history.robot, history.Value(), factory.strong, old(sleeping.queue), latest) ==>
              (done <==> TimesAccepted(factory, history.robot, view, history.Value(), old(sleeping.queue), latest,
                                       old(factory.registry.timestamps)))
  {
    hide Histories.Valid, Answered, IsOutcome, AcceptsTime, SectionLists.SectionsWellFormed, NextModes.Distinct,
         FitsTrace, IsTree, Apart, Increasing, AreOutcomes, Chained, Chosen, Flat, AllAnswered, IsAwakening, Supported,
         RegistersDue, TimesAfter, TimesOver, TimesAccepted;
    ghost var all, h, times := sleeping.queue, history.Value(), factory.registry.timestamps;
    ghost var n := 0;
    outcomes, toKeep, toMove := [], [], [];
    NoOutcomes(factory, history.robot, view, h, latest);
    NoneChosen<Job>();
    ghost var answered := AllAnswered(history.robot, h, factory.strong, all, latest);
    NoTimes(factory, history.robot, view, h, latest, times);
    assert all[..0] == [];
    while |sleeping.queue| > 0
      invariant n <= |all| && sleeping.queue == all[n..] && sleeping.numReserved == old(sleeping.numReserved)
      invariant factory.registry.Valid()
      invariant fresh(factory.registry.trees.Values - old(factory.registry.trees.Values))
      invariant fresh(factory.registry.Nodes() - old(factory.registry.Nodes()))
      invariant factory.registry.timestamps ==
                TimesOver(factory, history.robot, view, h, all[..n], latest, times)
      invariant answered ==> TimesAccepted(factory, history.robot, view, h, all[..n], latest, times)
      invariant AreOutcomes(factory, history.robot, view, h, all[..n], latest, outcomes)
      invariant toKeep == Chosen(Flat(outcomes), false) && toMove == Chosen(Flat(outcomes), true)
      decreases |sleeping.queue|
    {
      if answered { AnsweredAt(history.robot, h, factory.strong, all, latest, n); }
      TimesGrow(factory, history.robot, view, h, all, n, latest, times);
      AcceptedGrows(factory, history.robot, view, h, all, n, latest, times);
      var outcome := WakeNext(factory, sleeping, history, view, latest);
      if outcome.None? {
        return false, toKeep, toMove, outcomes;
      }
      var keep, move := Split(outcome.value);
      OutcomesGrow(factory, history.robot, view, h, all, n, latest, outcomes, outcome.value);
      ChosenGrows(outcomes, outcome.value);
      outcomes := outcomes + [outcome.value];
      toKeep, toMove := toKeep + keep, toMove + move;
      n := n + 1;
    }
    assert all[..n] == all;
    done := true;
  }

  lemma AnsweredAt(robot: Robot, h: History, strong: bool, jobs: seq<Job>, latest: LookAheadJobIdentifier -> Latest,
                   n: nat)
    requires Chained(h.presences) && AllAnswered(robot, h, strong, jobs, latest) && n < |jobs|
    ensures Answered(robot, h, strong, jobs[n], latest(jobs[n].id).time)
  {
    hide Answered;
  }

  lemma NoTimes(factory: ReuseLookAheadJobFactory, robot: Robot, view: View, h: History,
                latest: LookAheadJobIdentifier -> Latest, times: seq<nat>)
    requires Chained(h.presences)
    ensures TimesOver(factory, robot, view, h, [], latest, times) == times
    ensures TimesAccepted(factory, robot, view, h, [], latest, times)
  {
  }

  /** All are accepted so far and the next is, or not all are. */
  lemma AcceptedGrows(factory: ReuseLookAheadJobFactory, robot: Robot, view: View, h: History, jobs: seq<Job>, n: nat,
                      latest: LookAheadJobIdentifier -> Latest, times: seq<nat>)
    requires Chained(h.presences) && n < |jobs|
    ensures var accepted := RegistersDue(factory, robot, view, h, jobs[n], latest(jobs[n].id)) ==>
                              AcceptsTime(TimesOver(factory, robot, view, h, jobs[..n], latest, times),
                                          latest(jobs[n].id).time);
            && (TimesAccepted(factory, robot, view, h, jobs[..n + 1], latest, times) <==>
                TimesAccepted(factory, robot, view, h, jobs[..n], latest, times) && accepted)
            && (!accepted ==> !TimesAccepted(factory, robot, view, h, jobs, latest, times))
  {
    hide RegistersDue, TimesOver, AcceptsTime;
    forall i | 0 <= i < n ensures jobs[..n + 1][..i] == jobs[..n][..i] == jobs[..i] {}
    assert jobs[..n + 1][..n] == jobs[..n];
  }

  /** Each sleeping job that is due is woken, and every outcome ends in the queue it belongs to, in order. Where the
      history answers, this fails exactly if a time to be registered is older than the last and unknown when its turn
      comes; the jobs taken so far are then lost. */
  method MoveSleepingJobsToWaitingJobs(factory: ReuseLookAheadJobFactory, sleeping: SynchronisedQueue<Job>,
                                       waiting: SynchronisedQueue<Job>, history: RobotStateHistory, ghost view: View,
                                       latest: LookAheadJobIdentifier -> Latest)
    returns (done: bool, ghost outcomes: seq<seq<(Job, bool)>>)
    requires factory.registry.Valid() && history.Valid() && history.presences != [] && Chained(history.presences)
    requires sleeping != waiting && sleeping.numReserved == 0 && AllValid(history.robot, sleeping.queue)
    modifies sleeping, waiting, factory.registry, factory.registry.trees.Values, factory.registry.Nodes()
    ensures factory.registry.Valid() && waiting.numReserved == old(waiting.numReserved) && sleeping.numReserved == 0
    ensures done ==>
              && AreOutcomes(factory, history.robot, view, history.Value(), old(sleeping.queue), latest, outcomes)
              && sleeping.queue == Chosen(Flat(outcomes), false)
              && waiting.queue == old(waiting.queue) + Chosen(Flat(outcomes), true)
    ensures done ==> factory.registry.timestamps ==
                     TimesOver(factory, history.robot, view, history.Value(), old(sleeping.queue), latest,
                               old(factory.registry.timestamps))
    ensures AllAnswered(history.robot, history.Value(), factory.strong, old(sleeping.queue), latest) ==>
              (done <==> TimesAccepted(factory, history.robot, view, history.Value(), old(sleeping.queue), latest,
                                       old(factory.registry.timestamps)))
  {
    hide Histories.Valid, Answered, IsOutcome, AcceptsTime, SectionLists.SectionsWellFormed, NextModes.Distinct,
         FitsTrace, IsTree, Apart, Increasing, AreOutcomes, Chained, Chosen, Flat, AllAnswered, IsAwakening, Supported,
         TimesOver, TimesAccepted;
    var toKeep, toMove;
    done, toKeep, toMove, outcomes := WakeAll(factory, sleeping, history, view, latest);
    if done {
      EnqueueAll(sleeping, toKeep);
      EnqueueAll(waiting, toMove);
    }
  }

  method Take<T>(queue: SynchronisedQueue<T>) returns (job: T)
    requires queue.queue != []
    modifies queue
    ensures job == old(queue.queue)[0] && queue.queue == old(queue.queue)[1..]
    ensures queue.numReserved == old(queue.numReserved)
  {
    queue.Reserve();
    job := queue.Dequeue();
  }

  lemma ChosenGrows<T>(outcomes: seq<seq<(T, bool)>>, o: seq<(T, bool)>)
    ensures Chosen(Flat(outcomes + [o]), false) == Chosen(Flat(outcomes), false) + Chosen(o, false)
    ensures Chosen(Flat(outcomes + [o]), true) == Chosen(Flat(outcomes), true) + Chosen(o, true)
  {
    FlatOne(outcomes, o);
    ChosenConcat(Flat(outcomes), o, false);
    ChosenConcat(Flat(outcomes), o, true);
  }

  lemma NoneChosen<T>()
    ensures Chosen<T>(Flat([]), false) == [] && Chosen<T>(Flat([]), true) == []
  {
  }

  lemma NoOutcomes(factory: ReuseLookAheadJobFactory, robot: Robot, view: View, h: History,
                   latest: LookAheadJobIdentifier -> Latest)
    requires Chained(h.presences)
    ensures AreOutcomes(factory, robot, view, h, [], latest, [])
  {
  }
}
