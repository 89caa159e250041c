/** The queue that the threads share, and what its only consumer does to the sleeping jobs. */
module SynchronisedQueues {

  class SynchronisedQueue<T> {
    var queue: seq<T>
    var numReserved: nat

    constructor ()
      ensures queue == [] && numReserved == 0
    {
      queue, numReserved := [], 0;
    }

    method Enqueue(e: T)
      modifies this
      ensures queue == old(queue) + [e] && numReserved == old(numReserved)
    {
      queue := queue + [e];
    }

    method Dequeue() returns (e: T)
      requires queue != [] && numReserved > 0
      modifies this
      ensures old(queue) == [e] + queue && numReserved == old(numReserved) - 1
    {
      e := queue[0];
      queue := queue[1..];
      numReserved := numReserved - 1;
    }

    method Reserve()
      modifies this
      ensures queue == old(queue) && numReserved == old(numReserved) + 1
    {
      numReserved := numReserved + 1;
    }

    method CanReserve() returns (can: bool)
      ensures can <==> |queue| > numReserved
    {
      can := |queue| > numReserved;
    }

    /** What a worker does when it is notified: it reserves a job if there is one that is not reserved, so that never
        more are reserved than there are. */
    method ReserveIfPossible() returns (reserved: bool)
      modifies this
      ensures queue == old(queue)
      ensures reserved <==> |queue| > old(numReserved)
      ensures numReserved == old(numReserved) + if reserved then 1 else 0
      ensures old(numReserved) <= |queue| ==> numReserved <= |queue|
    {
      reserved := CanReserve();
      if reserved {
        Reserve();
      }
    }
  }

  /** Of the outcomes for sleeping jobs, those to be moved, or those to be kept. */
  function Chosen<T>(jobs: seq<(T, bool)>, moved: bool): seq<T> {
    if jobs == [] then []
    else
      var last := jobs[|jobs| - 1];
      Chosen(jobs[..|jobs| - 1], moved) + (if last.1 == moved then [last.0] else [])
  }

  lemma {:induction false} ChosenConcat<T>(a: seq<(T, bool)>, b: seq<(T, bool)>, moved: bool)
    ensures Chosen(a + b, moved) == Chosen(a, moved) + Chosen(b, moved)
  {
    if b == [] {
      assert a + b == a;
    } else {
      assert (a + b)[..|a + b| - 1] == a + b[..|b| - 1];
      ChosenConcat(a, b[..|b| - 1], moved);
    }
  }

  /** Every outcome goes to exactly one of the queues. */
  lemma {:induction false} ChosenAll<T>(jobs: seq<(T, bool)>)
    ensures |Chosen(jobs, true)| + |Chosen(jobs, false)| == |jobs|
    ensures forall e :: e in Chosen(jobs, true) <==> (e, true) in jobs
    ensures forall e :: e in Chosen(jobs, false) <==> (e, false) in jobs
  {
    if jobs == [] {
    } else {
      var front, last := jobs[..|jobs| - 1], jobs[|jobs| - 1];
      assert jobs == front + [last];
      ChosenAll(front);
    }
  }

  method Split<T>(jobs: seq<(T, bool)>) returns (keep: seq<T>, move: seq<T>)
    ensures keep == Chosen(jobs, false) && move == Chosen(jobs, true)
  {
    keep, move := [], [];
    var i := 0;
    while i < |jobs|
      invariant 0 <= i <= |jobs| && keep == Chosen(jobs[..i], false) && move == Chosen(jobs[..i], true)
    {
      assert jobs[..i + 1][..i] == jobs[..i];
      if jobs[i].1 {
        move := move + [jobs[i].0];
      } else {
        keep := keep + [jobs[i].0];
      }
      i := i + 1;
    }
    assert jobs[..i] == jobs;
  }

  method EnqueueAll<T>(q: SynchronisedQueue<T>, jobs: seq<T>)
    modifies q
    ensures q.queue == old(q.queue) + jobs && q.numReserved == old(q.numReserved)
  {
    var i := 0;
    while i < |jobs|
      invariant 0 <= i <= |jobs| && q.queue == old(q.queue) + jobs[..i] && q.numReserved == old(q.numReserved)
    {
      q.Enqueue(jobs[i]);
      i := i + 1;
    }
  }

  /** Drops the sleeping jobs of humans that no longer respond, and keeps the others in order. */
  method RemoveUnrespondingHumans<T>(sleeping: SynchronisedQueue<T>, gone: T -> bool)
    requires sleeping.numReserved == 0
    modifies sleeping
    ensures sleeping.numReserved == 0
    ensures sleeping.queue == Remaining(old(sleeping.queue), gone)
  {
    ghost var all := sleeping.queue;
    ghost var n := 0;
    var newJobs := [];
    while |sleeping.queue| > 0
      invariant n <= |all| && sleeping.queue == all[n..] && sleeping.numReserved == 0
      invariant newJobs == Remaining(all[..n], gone)
      decreases |sleeping.queue|
    {
      sleeping.Reserve();
      var job := sleeping.Dequeue();
      assert job == all[n] && all[..n + 1][..n] == all[..n];
      if !gone(job) {
        newJobs := newJobs + [job];
      }
      n := n + 1;
    }
    assert all[..n] == all;
    EnqueueAll(sleeping, newJobs);
  }

  function Remaining<T>(jobs: seq<T>, gone: T -> bool): seq<T> {
    if jobs == [] then []
    else Remaining(jobs[..|jobs| - 1], gone) + (if gone(jobs[|jobs| - 1]) then [] else [jobs[|jobs| - 1]])
  }

  lemma {:induction false} RemainingAre<T>(jobs: seq<T>, gone: T -> bool, job: T)
    ensures multiset(Remaining(jobs, gone))[job] == if gone(job) then 0 else multiset(jobs)[job]
  {
    if jobs == [] {
    } else {
      RemainingAre(jobs[..|jobs| - 1], gone, job);
      assert jobs == jobs[..|jobs| - 1] + [jobs[|jobs| - 1]];
    }
  }
}
