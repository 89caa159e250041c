/** The threads around the two queues, as steps that interleave freely. Each step holds one lock. A worker looks
    whether it can reserve and reserves under the availability mutex, but the queue may change in between; it
    dequeues later. Only the receiver takes from the sleeping queue, and each time it looks at the size first. */
module RuntimeSteps {

  datatype Worker = Idle | Reserved | Processing

  /** What the receiver is about to do with the sleeping queue. */
  datatype Receiver = Quiet | SawJobs | HasReserved

  datatype State<T> = State(
    waiting: seq<T>, numReserved: nat,
    sleeping: seq<T>, sleepingReserved: nat,
    workers: map<nat, Worker>,
    /** The worker that holds the availability mutex, having seen that it can reserve. */
    holder: int,
    receiver: Receiver,
    /** All jobs ever enqueued as waiting, and those taken from there, in order. */
    enqueued: seq<T>, taken: seq<T>)

  const NOBODY := -1

  /** Any thread may enqueue. */
  ghost predicate Enqueue<T>(s: State<T>, s': State<T>, job: T) {
    s' == s.(waiting := s.waiting + [job], enqueued := s.enqueued + [job])
  }

  ghost predicate EnqueueSleeping<T>(s: State<T>, s': State<T>, job: T) {
    s' == s.(sleeping := s.sleeping + [job])
  }

  ghost predicate SeeJob<T>(s: State<T>, s': State<T>, w: nat) {
    && w in s.workers && s.workers[w].Idle? && s.holder == NOBODY && |s.waiting| > s.numReserved
    && s' == s.(holder := w)
  }

  ghost predicate Reserve<T>(s: State<T>, s': State<T>, w: nat) {
    && s.holder == w && w in s.workers
    && s' == s.(holder := NOBODY, numReserved := s.numReserved + 1, workers := s.workers[w := Reserved])
  }

  /** Both preconditions of the source's dequeue. */
  predicate CanDequeue<T>(queue: seq<T>, numReserved: nat) {
    |queue| > 0 && numReserved > 0
  }

  ghost predicate Take<T>(s: State<T>, s': State<T>, w: nat) {
    && w in s.workers && s.workers[w].Reserved? && CanDequeue(s.waiting, s.numReserved)
    && s' == s.(waiting := s.waiting[1..], numReserved := s.numReserved - 1, workers := s.workers[w := Processing],
                taken := s.taken + [s.waiting[0]])
  }

  ghost predicate Finish<T>(s: State<T>, s': State<T>, w: nat) {
    w in s.workers && s.workers[w].Processing? && s' == s.(workers := s.workers[w := Idle])
  }

  ghost predicate SeeSleeping<T>(s: State<T>, s': State<T>) {
    s.receiver.Quiet? && |s.sleeping| > 0 && s' == s.(receiver := SawJobs)
  }

  ghost predicate ReserveSleeping<T>(s: State<T>, s': State<T>) {
    s.receiver.SawJobs? && s' == s.(receiver := HasReserved, sleepingReserved := s.sleepingReserved + 1)
  }

  ghost predicate TakeSleeping<T>(s: State<T>, s': State<T>) {
    && s.receiver.HasReserved? && CanDequeue(s.sleeping, s.sleepingReserved)
    && s' == s.(receiver := Quiet, sleeping := s.sleeping[1..], sleepingReserved := s.sleepingReserved - 1)
  }

  ghost predicate Step<T(!new)>(s: State<T>, s': State<T>) {
    || (exists job :: Enqueue(s, s', job) || EnqueueSleeping(s, s', job))
    || (exists w :: SeeJob(s, s', w) || Reserve(s, s', w) || Take(s, s', w) || Finish(s, s', w))
    || SeeSleeping(s, s') || ReserveSleeping(s, s') || TakeSleeping(s, s')
  }

  predicate Initial<T(==)>(s: State<T>) {
    && s.waiting == s.sleeping == s.enqueued == s.taken == [] && s.numReserved == s.sleepingReserved == 0
    && s.holder == NOBODY && s.receiver.Quiet? && forall w :: w in s.workers ==> s.workers[w].Idle?
  }

  function Reserving(workers: map<nat, Worker>): set<nat> {
    set w | w in workers && workers[w].Reserved?
  }

  /** No more is reserved than is there, each reservation is some worker's, and what has been taken is a prefix of
      what was enqueued. */
  ghost predicate Inv<T>(s: State<T>) {
    && s.numReserved == |Reserving(s.workers)| <= |s.waiting|
    && (s.holder != NOBODY ==> s.holder in s.workers && s.workers[s.holder].Idle? && s.numReserved < |s.waiting|)
    && s.sleepingReserved == (if s.receiver.HasReserved? then 1 else 0)
    && (!s.receiver.Quiet? ==> |s.sleeping| > 0)
    && s.enqueued == s.taken + s.waiting
  }

  lemma InitialInv<T>(s: State<T>)
    requires Initial(s)
    ensures Inv(s)
  {
    assert Reserving(s.workers) == {};
  }

  lemma ReservingAdded(workers: map<nat, Worker>, w: nat)
    requires w in workers && !workers[w].Reserved?
    ensures |Reserving(workers[w := Reserved])| == |Reserving(workers)| + 1
  {
    assert Reserving(workers[w := Reserved]) == Reserving(workers) + {w};
  }

  lemma ReservingRemoved(workers: map<nat, Worker>, w: nat)
    requires w in workers && workers[w].Reserved?
    ensures |Reserving(workers)| > 0 && |Reserving(workers[w := Processing])| == |Reserving(workers)| - 1
  {
    assert Reserving(workers[w := Processing]) == Reserving(workers) - {w};
    assert w in Reserving(workers);
  }

  lemma ReservingKept(workers: map<nat, Worker>, w: nat)
    requires w in workers && workers[w].Processing?
    ensures Reserving(workers[w := Idle]) == Reserving(workers)
  {
  }

  lemma StepInv<T(!new)>(s: State<T>, s': State<T>)
    requires Inv(s) && Step(s, s')
    ensures Inv(s')
  {
    if job :| Enqueue(s, s', job) || EnqueueSleeping(s, s', job) {
    } else if w :| SeeJob(s, s', w) || Reserve(s, s', w) || Take(s, s', w) || Finish(s, s', w) {
      WorkerInv(s, s', w);
    }
  }

  lemma WorkerInv<T>(s: State<T>, s': State<T>, w: nat)
    requires Inv(s) && (SeeJob(s, s', w) || Reserve(s, s', w) || Take(s, s', w) || Finish(s, s', w))
    ensures Inv(s')
  {
    if SeeJob(s, s', w) {
    } else if Reserve(s, s', w) {
      ReservingAdded(s.workers, w);
    } else if Take(s, s', w) {
      ReservingRemoved(s.workers, w);
    } else {
      ReservingKept(s.workers, w);
    }
  }

  ghost predicate IsRun<T(!new)>(run: seq<State<T>>) {
    run != [] && Initial(run[0]) && forall i :: 0 < i < |run| ==> Step(run[i - 1], run[i])
  }

  lemma {:induction false} RunInv<T(!new)>(run: seq<State<T>>, n: nat)
    requires IsRun(run) && n < |run|
    ensures Inv(run[n])
  {
    if n == 0 {
      InitialInv(run[0]);
    } else {
      RunInv(run, n - 1);
      assert Step(run[n - 1], run[n]);
      StepInv(run[n - 1], run[n]);
    }
  }

  /** In every interleaving, whoever has reserved can dequeue: neither precondition ever fails. */
  lemma DequeueNeverFails<T(!new)>(run: seq<State<T>>, n: nat, w: nat)
    requires IsRun(run) && n < |run|
    ensures w in run[n].workers && run[n].workers[w].Reserved? ==> CanDequeue(run[n].waiting, run[n].numReserved)
    ensures run[n].receiver.HasReserved? ==> CanDequeue(run[n].sleeping, run[n].sleepingReserved)
  {
    RunInv(run, n);
    if w in run[n].workers && run[n].workers[w].Reserved? { ReservingRemoved(run[n].workers, w); }
  }

  /** Each waiting job is taken once, in the order in which the jobs were enqueued. */
  lemma TakenInOrder<T(!new)>(run: seq<State<T>>, n: nat)
    requires IsRun(run) && n < |run|
    ensures run[n].taken + run[n].waiting == run[n].enqueued
  {
    RunInv(run, n);
  }
}
