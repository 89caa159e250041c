/** The jobs of one prediction share an identifier and a registry: that none is dropped because of another, unless the
    other looks at the same. */
module Siblings {
  import opened Capsules
  import opened Modes
  import opened NextModes
  import opened ModeTraces
  import opened Predictions
  import opened PredictionPaths
  import opened Histories
  import opened HistoryEnvironments
  import opened SectionLists
  import opened LookAheadJobPaths
  import opened LookAheadJobRegistries
  import opened Reuses
  import opened LookAheadJobFactories
  import S = HistorySnapshots

  function BranchOf(job: Job): Branch { Branch(job.trace, job.path) }

  /** Two jobs part at the last entry of the first, which took branch i there. */
  predicate PartLast(j: Job, j': Job, i: nat) {
    && j.trace != [] && j.path != [] && j.path[|j.path| - 1] == PathElement(i, |j.trace| - 1)
    && PartAt(BranchOf(j), BranchOf(j'), |j.path| - 1)
  }

  /** If a job is woken into several, they part at the mode added last: each took the branch of its own number there. */
  lemma CandidatesPart(m: Metric, robot: Robot, view: View, h: History, strong: bool, job: Job, time: nat,
                       human: Capsule, mode: Mode, js: seq<Job>, completed: bool, i: nat, k: nat)
    requires AreCandidates(m, robot, view, h, strong, job, time, human, mode, js, completed)
    requires i < |js| && k < |js| && i != k
    ensures PartLast(js[i], js[k], i)
  {
    hide *;
    var rest, following, next, order := SeveralFollow(m, robot, view, h, strong, job, time, human, mode, js, completed);
    ChoiceRecorded(S.TraceAt(h, time).value, rest.branch, following.branches, next, order, i);
    NextPart(S.TraceAt(h, time).value, rest.branch, following.branches, next, order, i, k);
    JobsOf(strong, job, human, time, following.branches, rest.secs, i);
    JobsOf(strong, job, human, time, following.branches, rest.secs, k);
    NumberedPart(js[i], js[k], following.branches[i], following.branches[k], rest.branch.path, i);
  }

  lemma NumberedPart(j: Job, j': Job, b: Branch, b': Branch, path: seq<PathElement>, i: nat)
    requires BranchOf(j) == b && BranchOf(j') == b' && PartAt(b, b', |path|)
    requires b.trace != [] && b.path == path + [PathElement(i, |b.trace| - 1)]
    ensures PartLast(j, j', i)
  {
    hide PartAt;
  }

  lemma JobsOf(strong: bool, job: Job, human: Capsule, time: nat, branches: seq<Branch>, secs: seq<SectionValue>,
               i: nat)
    requires i < |branches|
    ensures var js := JobsFor(strong, job, human, time, branches, secs);
            |js| == |branches| && BranchOf(js[i]) == branches[i]
  {
  }

  lemma SeveralFollow(m: Metric, robot: Robot, view: View, h: History, strong: bool, job: Job, time: nat,
                      human: Capsule, mode: Mode, js: seq<Job>, completed: bool)
    returns (rest: Remainder, following: NextJobs, next: map<Mode, real>, order: seq<Mode>)
    requires AreCandidates(m, robot, view, h, strong, job, time, human, mode, js, completed) && |js| > 1
    ensures rest.Rest? && following.NextJobs? && S.TraceAt(h, time).Some?
    ensures AreNext(S.TraceAt(h, time).value, rest.branch, following, next, order)
    ensures js == JobsFor(strong, job, human, time, following.branches, rest.secs)
  {
    hide GoodRest, AreNext, StartsOver, IsFirst, S.TraceAt, JobsFor, JobFor;
    var lower: nat;
    lower, rest :| ComeFrom(m, robot, view, h, strong, job, time, human, mode, js, completed, lower, rest);
    following, next, order :| AreFollowingBy(h, strong, job, human, time, rest, js, completed, following, next, order);
  }

  /** Where two jobs part, they part on the way from the same entry. */
  lemma SameStart(b: Branch, c: Branch, k: nat, mode: Mode, lower: nat, lower': nat)
    requires PartAt(b, c, k) && lower < b.path[k].position
    requires IsFirst(ModesOf(b.trace), mode, lower) && IsFirst(ModesOf(c.trace), mode, lower')
    ensures lower' == lower
  {
    var n := b.path[k].position;
    assert ModesOf(b.trace)[..n] == ModesOf(c.trace)[..n];
    assert ModesOf(b.trace)[..n][lower] == ModesOf(c.trace)[..n][lower];
    assert ModesOf(b.trace)[..lower] == ModesOf(b.trace)[..n][..lower] == ModesOf(c.trace)[..lower];
    FirstUnique(ModesOf(c.trace), mode, lower, lower');
  }

  lemma BlockedByOne(p: Choices, q: Choices)
    ensures Blocked({p}, q) <==> p <= q
  {
    if p <= q { assert q[..|p|] == p; }
  }

  lemma DifferentChoices(p: seq<PathElement>, q: seq<PathElement>, k: nat)
    requires DifferAt(p, q, k)
    ensures !(Priorities(p) <= Priorities(q)) && !(Priorities(q) <= Priorities(p))
  {
    assert Priorities(p)[k] != Priorities(q)[k];
  }

  lemma PrefixOfChoices(p: seq<PathElement>, q: seq<PathElement>)
    requires p <= q
    ensures Priorities(p) <= Priorities(q)
  {
  }

  /** Of two jobs that part, the first, once woken, blocks the second exactly if what it keeps ends before they part;
      and then what it goes on to look at, the second would look at too. Neither has its start beyond that point, and
      the first keeps no more than the second. */
  lemma BlockedIff(view: View, h: History, p: Job, q: Job, k: nat, lower: nat, j: Job, j': Job, completed: bool,
                   completed': bool)
    requires p.Valid() && q.Valid() && PartAt(BranchOf(p), BranchOf(q), k) && lower < p.path[k].position
    requires KeepsFrom(view, h, p, j, completed, lower) && KeepsFrom(view, h, q, j', completed', lower)
    requires |j.trace| <= |j'.trace|
    ensures Blocked({Priorities(j.path)}, Priorities(j'.path)) <==> lower + |j.trace| <= p.path[k].position
    ensures lower + |j.trace| <= p.path[k].position ==> j.trace <= j'.trace
    ensures lower + |j.trace| > p.path[k].position ==> !Blocked({Priorities(j'.path)}, Priorities(j.path))
  {
    hide SectionsWellFormed, Distinct, KeepsChoices, FitsTrace, SegmentIn, Blocked, Priorities;
    BlockedByOne(Priorities(j.path), Priorities(j'.path));
    BlockedByOne(Priorities(j'.path), Priorities(j.path));
    if lower + |j.trace| <= p.path[k].position {
      KeptAlike(p.path, q.path, k, |p.trace|, |q.trace|, lower, j.path, |j.trace|, j'.path, |j'.trace|);
      PrefixOfChoices(j.path, j'.path);
      KeptTogether(p, q, k, lower, j, j');
    } else {
      var a := KeptDiffer(p.path, q.path, k, |p.trace|, |q.trace|, lower, j.path, |j.trace|, j'.path, |j'.trace|);
      DifferentChoices(j.path, j'.path, a);
    }
  }

  lemma KeptTogether(p: Job, q: Job, k: nat, lower: nat, j: Job, j': Job)
    requires PartAt(BranchOf(p), BranchOf(q), k) && |j.trace| <= |j'.trace|
    requires forall i :: 0 <= i < |j.trace| && lower + i < |p.trace| ==> j.trace[i] == p.trace[lower + i]
    requires forall i :: 0 <= i < |j'.trace| && lower + i < |q.trace| ==> j'.trace[i] == q.trace[lower + i]
    requires lower + |j.trace| <= p.path[k].position
    ensures j.trace <= j'.trace
  {
    var n := p.path[k].position;
    forall i | 0 <= i < |j.trace| ensures j.trace[i] == j'.trace[i] {
      assert p.trace[..n][lower + i] == q.trace[..n][lower + i];
    }
  }

  /** What a job is woken into, if it keeps more than its start, goes on from it. */
  lemma GoesOnFrom(m: Metric, robot: Robot, view: View, h: History, strong: bool, job: Job, time: nat, human: Capsule,
                   mode: Mode, js: seq<Job>, completed: bool, j: Job) returns (lower: nat)
    requires AreCandidates(m, robot, view, h, strong, job, time, human, mode, js, completed) && job.Valid() && j in js
    requires |j.trace| > 1
    ensures IsFirst(ModesOf(job.trace), mode, lower) && KeepsFrom(view, h, job, j, completed, lower)
  {
    hide AreCandidates, KeepsFrom, IsFirst, SectionsWellFormed, Distinct, FitsTrace;
    CandidatesGoOn(m, robot, view, h, strong, job, time, human, mode, js, completed, j);
    lower :| GoesOn(m, robot, view, h, strong, job, j, human, mode, time, lower)
             && KeepsFrom(view, h, job, j, completed, lower);
  }

  /** Two jobs of one prediction that part, at the same entry where they are woken: if all they are woken into goes on
      beyond the point where they part, then waking the first changes nothing for the second. */
  lemma UnaffectedBySibling(m: Metric, robot: Robot, view: View, h: History, strong: bool, p: Job, q: Job, k: nat,
                            time: nat, human: Capsule, human': Capsule, mode: Mode, lower: nat, js: seq<Job>,
                            completed: bool, js': seq<Job>, completed': bool, woken: seq<Woken>, before: set<Choices>,
                            after: set<Choices>, j': Job)
    requires p.Valid() && q.Valid() && PartAt(BranchOf(p), BranchOf(q), k)
    requires IsFirst(ModesOf(p.trace), mode, lower) && lower < p.path[k].position
    requires AreCandidates(m, robot, view, h, strong, p, time, human, mode, js, completed)
    requires AreCandidates(m, robot, view, h, strong, q, time, human', mode, js', completed') && j' in js'
    requires Kept(js, completed, woken, before, after)
    requires lower + |j'.trace| > p.path[k].position
    requires forall j :: j in js ==> lower + |j.trace| > p.path[k].position
    ensures Blocked(after, Priorities(j'.path)) <==> Blocked(before, Priorities(j'.path))
  {
    hide AreCandidates, Blocked, IsFirst, PartAt, SectionsWellFormed, Distinct, FitsTrace, Priorities, Kept;
    forall w | w in woken ensures !Blocked({Priorities(w.job.path)}, Priorities(j'.path)) {
      WokenIn(js, completed, woken, before, after, w);
      SiblingsApart(m, robot, view, h, strong, p, q, k, time, human, human', mode, lower, js, completed, js',
                    completed', w.job, j');
    }
    BlockedByWoken(js, completed, woken, before, after, Priorities(j'.path));
  }

  lemma WokenIn(js: seq<Job>, completed: bool, woken: seq<Woken>, before: set<Choices>, after: set<Choices>, w: Woken)
    requires Kept(js, completed, woken, before, after) && w in woken
    ensures w.job in js
  {
    hide Blocked, Priorities;
  }

  lemma BlockedByWoken(js: seq<Job>, completed: bool, woken: seq<Woken>, before: set<Choices>, after: set<Choices>,
                       p: Choices)
    requires Kept(js, completed, woken, before, after)
    requires forall w :: w in woken ==> !Blocked({Priorities(w.job.path)}, p)
    ensures Blocked(after, p) <==> Blocked(before, p)
  {
    if Blocked(before, p) { BlockedGrows(before, after, p); }
    if Blocked(after, p) {
      var k :| 0 <= k <= |p| && p[..k] in after;
      if p[..k] !in before {
        BlockedByOne(p[..k], p);
        assert PathIn(woken, p[..k]);
      }
    }
  }

  /** Of all that a job is woken into, exactly those are woken whose paths were free before: none of them takes the path
      of another. */
  lemma WokenIff(m: Metric, robot: Robot, view: View, h: History, strong: bool, job: Job, time: nat, human: Capsule,
                 mode: Mode, js: seq<Job>, woken: seq<Woken>, before: set<Choices>, after: set<Choices>, j: Job)
    requires AreCandidates(m, robot, view, h, strong, job, time, human, mode, js, false) && j in js
    requires Kept(js, false, woken, before, after)
    ensures Woken(j, Different) in woken <==> !Blocked(before, Priorities(j.path))
  {
    hide AreCandidates, Blocked, PartLast, Priorities;
    if Woken(j, Different) !in woken {
      forall w | w in woken ensures !Blocked({Priorities(w.job.path)}, Priorities(j.path)) {
        var i :| 0 <= i < |js| && js[i] == w.job;
        var k :| 0 <= k < |js| && js[k] == j;
        CandidatesPart(m, robot, view, h, strong, job, time, human, mode, js, false, i, k);
        PartLastApart(w.job, j, i);
      }
      BlockedByWoken(js, false, woken, before, after, Priorities(j.path));
    }
  }

  lemma PartLastApart(j: Job, j': Job, i: nat)
    requires PartLast(j, j', i)
    ensures !Blocked({Priorities(j.path)}, Priorities(j'.path))
  {
    BlockedByOne(Priorities(j.path), Priorities(j'.path));
    DifferentChoices(j.path, j'.path, |j.path| - 1);
  }

  /** And so the second of two such jobs is woken into just what it would be woken into without the first. */
  lemma SecondWakes(m: Metric, robot: Robot, view: View, h: History, strong: bool, p: Job, q: Job, k: nat, time: nat,
                    human: Capsule, human': Capsule, mode: Mode, lower: nat, js: seq<Job>, completed: bool,
                    js': seq<Job>, woken: seq<Woken>, woken': seq<Woken>, before: set<Choices>, between: set<Choices>,
                    after: set<Choices>, j': Job)
    requires p.Valid() && q.Valid() && PartAt(BranchOf(p), BranchOf(q), k)
    requires IsFirst(ModesOf(p.trace), mode, lower) && lower < p.path[k].position
    requires AreCandidates(m, robot, view, h, strong, p, time, human, mode, js, completed)
    requires AreCandidates(m, robot, view, h, strong, q, time, human', mode, js', false) && j' in js'
    requires Kept(js, completed, woken, before, between) && Kept(js', false, woken', between, after)
    requires forall j :: j in js + js' ==> lower + |j.trace| > p.path[k].position
    ensures Woken(j', Different) in woken' <==> !Blocked(before, Priorities(j'.path))
  {
    hide AreCandidates, Blocked, IsFirst, SectionsWellFormed, Distinct, FitsTrace, Priorities, Kept;
    assert j' in js + js';
    forall j | j in js ensures lower + |j.trace| > p.path[k].position { assert j in js + js'; }
    UnaffectedBySibling(m, robot, view, h, strong, p, q, k, time, human, human', mode, lower, js, completed, js', false,
                        woken, before, between, j');
    WokenIff(m, robot, view, h, strong, q, time, human', mode, js', woken', between, after, j');
  }

  lemma SiblingsApart(m: Metric, robot: Robot, view: View, h: History, strong: bool, p: Job, q: Job, k: nat, time: nat,
                      human: Capsule, human': Capsule, mode: Mode, lower: nat, js: seq<Job>, completed: bool,
                      js': seq<Job>, completed': bool, j: Job, j': Job)
    requires p.Valid() && q.Valid() && PartAt(BranchOf(p), BranchOf(q), k)
    requires IsFirst(ModesOf(p.trace), mode, lower) && lower < p.path[k].position
    requires AreCandidates(m, robot, view, h, strong, p, time, human, mode, js, completed) && j in js
    requires AreCandidates(m, robot, view, h, strong, q, time, human', mode, js', completed') && j' in js'
    requires lower + |j.trace| > p.path[k].position && lower + |j'.trace| > p.path[k].position
    ensures !Blocked({Priorities(j.path)}, Priorities(j'.path))
    ensures !Blocked({Priorities(j'.path)}, Priorities(j.path))
  {
    hide AreCandidates, KeepsFrom, Blocked, IsFirst, PartAt, SectionsWellFormed, Distinct, FitsTrace, Priorities;
    var l := GoesOnFrom(m, robot, view, h, strong, p, time, human, mode, js, completed, j);
    var l' := GoesOnFrom(m, robot, view, h, strong, q, time, human', mode, js', completed', j');
    FirstUnique(ModesOf(p.trace), mode, lower, l);
    SameStart(BranchOf(p), BranchOf(q), k, mode, l, l');
    if |j.trace| <= |j'.trace| {
      BlockedIff(view, h, p, q, k, lower, j, j', completed, completed');
    } else {
      PartSymmetric(BranchOf(p), BranchOf(q), k);
      BlockedIff(view, h, q, p, k, lower, j', j, completed', completed);
    }
  }

  lemma PartSymmetric(b: Branch, c: Branch, k: nat)
    requires PartAt(b, c, k)
    ensures PartAt(c, b, k) && c.path[k].position == b.path[k].position
  {
  }

  /** So it is for any two jobs at the leaves of a tree of predictions. */
  lemma LeavesUnaffected(past: seq<Mode>, t: Tree, a: nat, b: nat, m: Metric, robot: Robot, view: View, h: History,
                         strong: bool, p: Job, q: Job, time: nat, human: Capsule, human': Capsule, mode: Mode,
                         lower: nat, js: seq<Job>, completed: bool, js': seq<Job>, completed': bool, woken: seq<Woken>,
                         before: set<Choices>, after: set<Choices>)
    returns (k: nat)
    requires IsPrunedTree(past, t) && t.job.Fits() && a < b < |LeafJobs(t)|
    requires p.Valid() && q.Valid() && BranchOf(p) == LeafJobs(t)[a] && BranchOf(q) == LeafJobs(t)[b]
    requires IsFirst(ModesOf(p.trace), mode, lower)
    requires AreCandidates(m, robot, view, h, strong, p, time, human, mode, js, completed)
    requires AreCandidates(m, robot, view, h, strong, q, time, human', mode, js', completed')
    requires Kept(js, completed, woken, before, after)
    ensures PartAt(BranchOf(p), BranchOf(q), k)
    ensures var n := p.path[k].position;
            lower < n && (forall j :: j in js + js' ==> lower + |j.trace| > n) ==>
              forall j' :: j' in js' ==>
                (Blocked(after, Priorities(j'.path)) <==> Blocked(before, Priorities(j'.path)))
  {
    hide AreCandidates, Blocked, IsFirst, SectionsWellFormed, Distinct, FitsTrace, Priorities, Kept, IsPrunedTree,
         LeafJobs;
    k := LeavesPart(past, t, a, b);
    var n := p.path[k].position;
    if lower < n && forall j :: j in js + js' ==> lower + |j.trace| > n {
      forall j' | j' in js' ensures Blocked(after, Priorities(j'.path)) <==> Blocked(before, Priorities(j'.path)) {
        assert j' in js + js';
        forall j | j in js ensures lower + |j.trace| > n { assert j in js + js'; }
        UnaffectedBySibling(m, robot, view, h, strong, p, q, k, time, human, human', mode, lower, js, completed, js',
                         completed', woken, before, after, j');
      }
    }
  }
}
