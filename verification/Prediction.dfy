/** Following a prediction into its next modes, and the tree of predictions this makes. */
module Predictions {
  import opened Modes
  import opened NextModes
  import opened ModeTraces
  import opened LookAheadJobPaths

  /** A job as far as prediction goes: the rest of it is copied from job to job. */
  datatype Branch = Branch(trace: seq<Entry>, path: seq<PathElement>) {
    predicate Fits() { trace != [] && FitsTrace(path, |trace|) }
  }

  datatype NextJobs = NextJobs(branches: seq<Branch>) | Failure

  /** The branch into mode m of a prediction: the trace grows by m, and the path records the choice if
      there was one. */
  function Into(job: Branch, next: map<Mode, real>, m: Mode, priority: nat): Branch
    requires m in next
  {
    Branch(Continued(job.trace, m, next[m]),
           if |next| > 1 then job.path + [PathElement(priority, |job.trace|)] else job.path)
  }

  /** One branch for each next mode. */
  ghost predicate AreBranches(job: Branch, next: map<Mode, real>, order: seq<Mode>, branches: seq<Branch>) {
    && |branches| == |order| && Distinct(order)
    && (forall i :: 0 <= i < |order| ==> order[i] in next && branches[i] == Into(job, next, order[i], i))
  }

  /** All the modes of the robot's past and of the prediction. */
  function FullTrace(history: seq<Mode>, trace: seq<Entry>): seq<Mode>
    requires history != [] && trace != []
  {
    Merged(history, ModesOf(trace))
  }

  /** What creating the next jobs promises: none after a loop, else one for each predicted mode; it fails
      when nothing can be predicted. */
  ghost predicate AreNext(history: seq<Mode>, job: Branch, r: NextJobs, next: map<Mode, real>, order: seq<Mode>) {
    if Looped(ModesOf(job.trace)) then r == NextJobs([])
    else if history == [] || job.trace == [] then r == Failure
    else
      && (exists k :: IsPrediction(FullTrace(history, job.trace), k, next))
      && (r.Failure? <==> next == map[])
      && (r.NextJobs? ==> AreBranches(job, next, order, r.branches) && forall m :: m in order <==> m in next)
  }

  /** `history` is the mode trace of the robot's history at the job's initial time. */
  method CreateNext(history: seq<Entry>, job: Branch)
    returns (r: NextJobs, ghost next: map<Mode, real>, ghost order: seq<Mode>)
    requires FitsTrace(job.path, |job.trace|)
    ensures AreNext(ModesOf(history), job, r, next, order)
    ensures exists n, o :: AreNext(ModesOf(history), job, r, n, o)
  {
    next, order := map[], [];
    var predictionTrace := new ModeTrace.Of(job.trace);
    var looped := predictionTrace.HasLooped();
    if looped {
      r := NextJobs([]);
      assert AreNext(ModesOf(history), job, r, next, order);
      return;
    }
    if history == [] || job.trace == [] {
      r := Failure;
      assert AreNext(ModesOf(history), job, r, next, order);
      return;
    }
    var fullTrace := Merge(history, job.trace);
    var nextModes;
    ghost var k;
    nextModes, k := fullTrace.NextModes();
    next := nextModes;
    assert IsPrediction(FullTrace(ModesOf(history), job.trace), k, next);
    if nextModes == map[] {
      r := Failure;
      assert AreNext(ModesOf(history), job, r, next, order);
      return;
    }
    var branches;
    branches, order := CreateBranches(job, nextModes);
    r := NextJobs(branches);
    assert AreNext(ModesOf(history), job, r, next, order);
  }

  lemma BranchAdded(job: Branch, next: map<Mode, real>, order: seq<Mode>, branches: seq<Branch>, m: Mode, priority: nat)
    requires AreBranches(job, next, order, branches) && m in next && m !in order
    requires |next| > 1 ==> priority == |order|
    ensures AreBranches(job, next, order + [m], branches + [Into(job, next, m, priority)])
  {
    assert Into(job, next, m, priority) == Into(job, next, m, |order|);
  }

  lemma NoBranches(job: Branch, next: map<Mode, real>)
    ensures AreBranches(job, next, [], [])
  {
  }

  method CreateBranch(job: Branch, nextModes: map<Mode, real>, m: Mode, priority: nat) returns (branch: Branch)
    requires job.Fits() && m in nextModes
    ensures branch == Into(job, nextModes, m, priority)
  {
    var trace := new ModeTrace.Of(job.trace);
    trace.PushBack(m, nextModes[m]);
    var newPath := new LookAheadJobPath(job.path);
    if |nextModes| > 1 {
      newPath.Add(priority, |trace.entries| - 1);
    }
    branch := Branch(trace.entries, newPath.elements);
  }

  method CreateBranches(job: Branch, nextModes: map<Mode, real>) returns (branches: seq<Branch>, ghost order: seq<Mode>)
    requires job.Fits()
    ensures AreBranches(job, nextModes, order, branches) && forall m :: m in order <==> m in nextModes
  {
    hide Into, AreBranches;
    branches, order := [], [];
    NoBranches(job, nextModes);
    var priority := 0;
    var todo := nextModes.Keys;
    while todo != {}
      invariant AreBranches(job, nextModes, order, branches)
      invariant forall m :: m in nextModes <==> m in todo || m in order
      invariant forall m :: m in order ==> m !in todo
      invariant |nextModes| > 1 ==> priority == |order|
      decreases todo
    {
      var m :| m in todo;
      BranchAdded(job, nextModes, order, branches, m, priority);
      var branch := CreateBranch(job, nextModes, m, priority);
      if |nextModes| > 1 {
        priority := priority + 1;
      }
      branches := branches + [branch];
      order := order + [m];
      todo := todo - {m};
    }
  }

  /** The part of the full trace before the prediction. */
  function Before(history: seq<Mode>, trace: seq<Mode>): seq<Mode>
    requires history != [] && trace != []
  {
    if history[|history| - 1] == trace[0] then history[..|history| - 1] else history
  }

  function ModeSet(ms: seq<Mode>): (s: set<Mode>)
    ensures forall m :: m in s <==> m in ms
  {
    set m | m in ms
  }

  /** Every mode of the prediction occurs earlier in the full trace, and only its last one may occur twice
      in the prediction. */
  predicate Reachable(history: seq<Mode>, trace: seq<Mode>) {
    && history != [] && trace != []
    && (forall m :: m in trace ==> m in Before(history, trace))
    && Distinct(trace[..|trace| - 1])
  }

  /** Look-ahead starts from one mode; it is enough that this mode occurred before. */
  lemma StartReachable(history: seq<Mode>, start: Mode)
    requires history != [] && start in Before(history, [start])
    ensures Reachable(history, [start])
  {
  }

  lemma FullTraceParts(history: seq<Mode>, trace: seq<Entry>)
    requires history != [] && trace != []
    ensures var ms, full := ModesOf(trace), FullTrace(history, trace);
            full == Before(history, ms) + ms && full != [] && full[|full| - 1] == ms[|ms| - 1]
            && full[..|full| - 1] == Before(history, ms) + ms[..|ms| - 1]
  {
  }

  /** The prediction of a reachable job is never empty, and predicts modes of the past. */
  lemma ReachablePredicts(history: seq<Mode>, trace: seq<Entry>, k: nat, next: map<Mode, real>)
    requires trace != [] && Reachable(history, ModesOf(trace))
    requires IsPrediction(FullTrace(history, trace), k, next)
    ensures next != map[] && forall m :: m in next ==> m in Before(history, ModesOf(trace))
  {
    var ms, full := ModesOf(trace), FullTrace(history, trace);
    FullTraceParts(history, trace);
    PredictionNonEmpty(full, k, next);
    assert ms[|ms| - 1] in ms;
  }

  lemma ContinuedReachable(history: seq<Mode>, trace: seq<Entry>, m: Mode, p: real)
    requires trace != [] && Reachable(history, ModesOf(trace)) && !Looped(ModesOf(trace))
    requires m in Before(history, ModesOf(trace))
    ensures Reachable(history, ModesOf(Continued(trace, m, p)))
  {
    var ms := ModesOf(trace);
    var ms' := ModesOf(Continued(trace, m, p));
    assert ms' == ms + [m] && ms'[..|ms'| - 1] == ms;
    assert ms == ms[..|ms| - 1] + [ms[|ms| - 1]];
  }

  /** A reachable job never sticks: unless it has looped it has next jobs, and they are reachable and one
      mode longer. */
  lemma NeverSticks(history: seq<Mode>, job: Branch, r: NextJobs, next: map<Mode, real>, order: seq<Mode>)
    requires job.Fits() && Reachable(history, ModesOf(job.trace)) && AreNext(history, job, r, next, order)
    ensures r.NextJobs? && (r.branches == [] <==> Looped(ModesOf(job.trace)))
    ensures forall b :: b in r.branches ==> GrowsReachably(history, job, b)
  {
    if !Looped(ModesOf(job.trace)) {
      hide Reachable, Before, IsPrediction, FitsTrace, Merged, Continued;
      var k :| IsPrediction(FullTrace(history, job.trace), k, next);
      ReachablePredicts(history, job.trace, k, next);
      forall i | 0 <= i < |r.branches| ensures GrowsReachably(history, job, r.branches[i]) {
        BranchReachable(history, job, next, order, r.branches, i);
      }
      var m :| m in next;
      assert m in order;
    }
  }

  predicate GrowsReachably(history: seq<Mode>, job: Branch, b: Branch) {
    b.Fits() && |b.trace| == |job.trace| + 1 && Reachable(history, ModesOf(b.trace))
  }

  lemma BranchReachable(history: seq<Mode>, job: Branch, next: map<Mode, real>, order: seq<Mode>, branches: seq<Branch>,
                        i: nat)
    requires job.Fits() && Reachable(history, ModesOf(job.trace)) && !Looped(ModesOf(job.trace))
    requires AreBranches(job, next, order, branches) && i < |branches|
    requires forall m :: m in next ==> m in Before(history, ModesOf(job.trace))
    ensures GrowsReachably(history, job, branches[i])
  {
    hide Reachable, Before, FitsTrace;
    IntoFits(job, next, order[i], i);
    ContinuedReachable(history, job.trace, order[i], next[order[i]]);
  }

  lemma IntoFits(job: Branch, next: map<Mode, real>, m: Mode, priority: nat)
    requires job.Fits() && m in next
    ensures Into(job, next, m, priority).Fits()
    ensures Into(job, next, m, priority).trace == Continued(job.trace, m, next[m])
  {
  }

  /** The jobs into different modes have different priorities, so that no two of them share a path. */
  lemma BranchesDistinguished(job: Branch, next: map<Mode, real>, order: seq<Mode>, branches: seq<Branch>, i: nat,
                              j: nat)
    requires AreBranches(job, next, order, branches) && i < j < |branches|
    requires forall m :: m in order <==> m in next
    ensures Priorities(branches[i].path) != Priorities(branches[j].path)
  {
    if |next| <= 1 {
      OnlyKey(next, order[i], order[j]);
    } else {
      var p, q := branches[i].path, branches[j].path;
      assert Priorities(p)[|p| - 1] == i && Priorities(q)[|q| - 1] == j;
    }
  }

  /** Of the jobs into the next modes of a primary job exactly the first is primary, and of another job's none:
      so when only primary jobs are kept, one job is left of all that share an identifier. */
  lemma OnePrimary(job: Branch, next: map<Mode, real>, order: seq<Mode>, branches: seq<Branch>, i: nat)
    requires AreBranches(job, next, order, branches) && i < |branches|
    requires forall m :: m in order <==> m in next
    ensures Primary(branches[i].path) <==> Primary(job.path) && i == 0
  {
    if |next| <= 1 {
      if i > 0 { OnlyKey(next, order[0], order[i]); }
    } else {
      var path := branches[i].path;
      assert path == job.path + [PathElement(i, |job.trace|)];
      assert path[|job.path|] in path;
      forall e | e in job.path ensures e in path { }
    }
  }

  lemma OnlyKey(next: map<Mode, real>, m: Mode, m': Mode)
    requires m in next && m' in next && |next| <= 1
    ensures m == m'
  {
    if m != m' {
      var pair := {m, m'};
      SubsetSize(pair, next.Keys);
    }
  }

  lemma {:induction false} SubsetSize(s: set<Mode>, t: set<Mode>)
    requires s <= t
    ensures |s| <= |t|
  {
    if s != {} {
      var m :| m in s;
      SubsetSize(s - {m}, t - {m});
    }
  }

  function TotalLikelihood(branches: seq<Branch>): real {
    if branches == [] then 0.0
    else TotalLikelihood(branches[..|branches| - 1]) + Likelihood(branches[|branches| - 1].trace)
  }

  lemma Scales(l: real, a: real, b: real)
    ensures l * a + l * b == l * (a + b)
  {
  }

  lemma {:induction false} LikelihoodsScale(job: Branch, next: map<Mode, real>, order: seq<Mode>, branches: seq<Branch>)
    requires AreBranches(job, next, order, branches)
    ensures TotalLikelihood(branches) == Likelihood(job.trace) * Sum(next, order)
  {
    if branches == [] {
    } else {
      var n := |branches| - 1;
      LikelihoodsScale(job, next, order[..n], branches[..n]);
      Scales(Likelihood(job.trace), Sum(next, order[..n]), next[order[n]]);
      IntoLikelihood(job, next, order[n], n);
    }
  }

  lemma IntoLikelihood(job: Branch, next: map<Mode, real>, m: Mode, priority: nat)
    requires m in next
    ensures Likelihood(Into(job, next, m, priority).trace) == Likelihood(job.trace) * next[m]
  {
  }

  lemma NextUnpacked(history: seq<Mode>, job: Branch, branches: seq<Branch>, next: map<Mode, real>, order: seq<Mode>)
    returns (k: nat)
    requires AreNext(history, job, NextJobs(branches), next, order) && branches != []
    ensures history != [] && job.trace != [] && FullTrace(history, job.trace) != []
    ensures IsPrediction(FullTrace(history, job.trace), k, next) && next != map[]
    ensures AreBranches(job, next, order, branches) && Distinct(order) && forall m :: m in order <==> m in next
  {
    k :| IsPrediction(FullTrace(history, job.trace), k, next);
  }

  /** The likelihood of a job is shared out among its next jobs, none lost and none added. */
  lemma LikelihoodConserved(history: seq<Mode>, job: Branch, branches: seq<Branch>, next: map<Mode, real>,
                            order: seq<Mode>)
    requires AreNext(history, job, NextJobs(branches), next, order) && branches != []
    ensures TotalLikelihood(branches) == Likelihood(job.trace)
  {
    hide *;
    var k := NextUnpacked(history, job, branches, next, order);
    PredictionSumsToOne(FullTrace(history, job.trace), k, next, order);
    LikelihoodsScale(job, next, order, branches);
    MultipliedByOne(Likelihood(job.trace), Sum(next, order));
  }

  lemma MultipliedByOne(l: real, one: real)
    requires one == 1.0
    ensures l * one == l
  {
  }

  /** No reachable trace is longer than the number of modes of the past, plus one for the loop. */
  lemma ReachableIsShort(history: seq<Mode>, trace: seq<Mode>)
    requires Reachable(history, trace)
    ensures |trace| <= |ModeSet(history)| + 1
  {
    DistinctSize(trace[..|trace| - 1]);
    forall m | m in trace[..|trace| - 1] ensures m in history {
      assert m in trace;
      assert m in Before(history, trace);
    }
    SubsetSize(ModeSet(trace[..|trace| - 1]), ModeSet(history));
  }

  lemma {:induction false} DistinctSize(ms: seq<Mode>)
    requires Distinct(ms)
    ensures |ModeSet(ms)| == |ms|
  {
    if ms == [] {
      assert ModeSet(ms) == {};
    } else {
      var front, last := ms[..|ms| - 1], ms[|ms| - 1];
      assert ms == front + [last] && last !in front;
      DistinctSize(front);
      assert ModeSet(ms) == ModeSet(front) + {last};
    }
  }

  /** A prediction followed as far as it goes: each job with the next jobs created from it. */
  datatype Tree = Tree(job: Branch, children: seq<Tree>)

  function Jobs(ts: seq<Tree>): (bs: seq<Branch>)
    ensures |bs| == |ts| && forall i :: 0 <= i < |ts| ==> bs[i] == ts[i].job
  {
    seq(|ts|, i requires 0 <= i < |ts| => ts[i].job)
  }

  ghost predicate IsPredictionTree(history: seq<Mode>, t: Tree) {
    && (exists next, order :: AreNext(history, t.job, NextJobs(Jobs(t.children)), next, order))
    && (forall c :: c in t.children ==> IsPredictionTree(history, c))
  }

  /** The likelihoods of the leaves. */
  function Leaves(t: Tree): real {
    if t.children == [] then Likelihood(t.job.trace) else AllLeaves(t.children)
  }

  function AllLeaves(ts: seq<Tree>): real {
    if ts == [] then 0.0 else AllLeaves(ts[..|ts| - 1]) + Leaves(ts[|ts| - 1])
  }

  ghost predicate LeavesLooped(t: Tree) {
    if t.children == [] then Looped(ModesOf(t.job.trace)) else forall c :: c in t.children ==> LeavesLooped(c)
  }

  /** Over a whole tree of predictions, however it branches: every leaf has looped, and the leaves share the
      likelihood of the root. */
  lemma {:induction false} TreeConserves(history: seq<Mode>, t: Tree)
    requires IsPredictionTree(history, t) && t.job.Fits() && Reachable(history, ModesOf(t.job.trace))
    ensures LeavesLooped(t) && Leaves(t) == Likelihood(t.job.trace)
    decreases t
  {
    hide AreNext, Reachable, FitsTrace, Looped, Likelihood, TotalLikelihood, GrowsReachably;
    var r := NextJobs(Jobs(t.children));
    var next, order :| AreNext(history, t.job, r, next, order);
    NeverSticks(history, t.job, r, next, order);
    if t.children == [] {
    } else {
      ChildrenReachable(history, t);
      forall i | 0 <= i < |t.children| ensures LeavesLooped(t.children[i]) { TreeConserves(history, t.children[i]); }
      AllLeavesAre(history, t, t.children);
      LikelihoodConserved(history, t.job, r.branches, next, order);
    }
  }

  lemma ChildrenReachable(history: seq<Mode>, t: Tree)
    requires forall b :: b in Jobs(t.children) ==> GrowsReachably(history, t.job, b)
    ensures forall c :: c in t.children ==> c.job.Fits() && Reachable(history, ModesOf(c.job.trace))
  {
    hide Reachable, FitsTrace;
    forall i | 0 <= i < |t.children| ensures GrowsReachably(history, t.job, t.children[i].job) {
      assert Jobs(t.children)[i] in Jobs(t.children);
    }
  }

  lemma {:induction false} AllLeavesAre(history: seq<Mode>, t: Tree, ts: seq<Tree>)
    requires ts <= t.children
    requires forall c :: c in ts ==>
               IsPredictionTree(history, c) && c.job.Fits() && Reachable(history, ModesOf(c.job.trace))
    ensures AllLeaves(ts) == TotalLikelihood(Jobs(ts))
    decreases t, 0, |ts|
  {
    if ts == [] {
    } else {
      var n := |ts| - 1;
      assert Jobs(ts)[..n] == Jobs(ts[..n]) && ts[n] == t.children[n];
      AllLeavesAre(history, t, ts[..n]);
      TreeConserves(history, ts[n]);
    }
  }

  ghost predicate IsNextOf(history: seq<Mode>, job: Branch, b: Branch) {
    exists branches, next, order :: AreNext(history, job, NextJobs(branches), next, order) && b in branches
  }

  /** Look-ahead terminates: no chain of jobs, each created from the one before, is longer than the modes
      of the past allow. */
  lemma {:induction false} ChainsAreShort(history: seq<Mode>, chain: seq<Branch>)
    requires chain != [] && chain[0].Fits() && Reachable(history, ModesOf(chain[0].trace))
    requires forall i :: 0 < i < |chain| ==> IsNextOf(history, chain[i - 1], chain[i])
    ensures |chain[0].trace| + |chain| <= |ModeSet(history)| + 2
  {
    if |chain| == 1 {
      ReachableIsShort(history, ModesOf(chain[0].trace));
    } else {
      assert IsNextOf(history, chain[1 - 1], chain[1]);
      var branches, next, order :|
        AreNext(history, chain[0], NextJobs(branches), next, order) && chain[1] in branches;
      NeverSticks(history, chain[0], NextJobs(branches), next, order);
      forall i | 0 < i < |chain[1..]| ensures IsNextOf(history, chain[1..][i - 1], chain[1..][i]) {
        assert IsNextOf(history, chain[(i + 1) - 1], chain[i + 1]);
      }
      ChainsAreShort(history, chain[1..]);
    }
  }

  /* The tree of predictions exists */

  lemma {:induction false} Listed(s: set<Mode>) returns (order: seq<Mode>)
    ensures Distinct(order) && forall m :: m in order <==> m in s
  {
    order := [];
    if s != {} {
      var m :| m in s;
      order := Listed(s - {m});
      order := order + [m];
    }
  }

  /** A job that has not looped has next jobs. */
  lemma NextExist(history: seq<Mode>, job: Branch)
    returns (branches: seq<Branch>, next: map<Mode, real>, order: seq<Mode>)
    requires job.Fits() && Reachable(history, ModesOf(job.trace)) && !Looped(ModesOf(job.trace))
    ensures AreNext(history, job, NextJobs(branches), next, order)
  {
    hide Reachable, FitsTrace, Looped, IsPrediction, AreBranches, Before;
    var k;
    assert history != [] by { ReachableHistory(history, ModesOf(job.trace)); }
    assert FullTrace(history, job.trace) != [] by { FullTraceParts(history, job.trace); }
    k, next := PredictionExists(FullTrace(history, job.trace));
    ReachablePredicts(history, job.trace, k, next);
    order := Listed(next.Keys);
    branches := BranchesExist(job, next, order);
  }

  lemma BranchesExist(job: Branch, next: map<Mode, real>, order: seq<Mode>) returns (branches: seq<Branch>)
    requires Distinct(order) && forall m :: m in order ==> m in next
    ensures AreBranches(job, next, order, branches)
  {
    hide Into;
    branches := seq(|order|, i requires 0 <= i < |order| && order[i] in next => Into(job, next, order[i], i));
  }

  lemma ReachableHistory(history: seq<Mode>, trace: seq<Mode>)
    requires Reachable(history, trace)
    ensures history != []
  {
  }

  /** What is left of the longest a prediction can get. */
  function Room(history: seq<Mode>, job: Branch): int { |ModeSet(history)| + 2 - |job.trace| }

  /** From every reachable job there is a finite tree of predictions. */
  lemma {:induction false} TreeExists(history: seq<Mode>, job: Branch) returns (t: Tree)
    requires job.Fits() && Reachable(history, ModesOf(job.trace))
    ensures IsPredictionTree(history, t) && t.job == job
    decreases Room(history, job), 1, 0
  {
    hide AreNext, Reachable, FitsTrace, Looped, GrowsReachably;
    var branches, next, order;
    if Looped(ModesOf(job.trace)) {
      branches, next, order := [], map[], [];
      LoopedIsLast(history, job);
    } else {
      branches, next, order := NextExist(history, job);
    }
    NeverSticks(history, job, NextJobs(branches), next, order);
    var children := ForestExists(history, job, branches, |branches|);
    t := Tree(job, children);
    assert Jobs(t.children) == branches;
  }

  lemma LoopedIsLast(history: seq<Mode>, job: Branch)
    requires Looped(ModesOf(job.trace))
    ensures AreNext(history, job, NextJobs([]), map[], [])
  {
  }

  lemma {:induction false} ForestExists(history: seq<Mode>, job: Branch, branches: seq<Branch>, n: nat)
    returns (ts: seq<Tree>)
    requires n <= |branches| && Reachable(history, ModesOf(job.trace)) && job.Fits()
    requires forall b :: b in branches ==> GrowsReachably(history, job, b)
    ensures |ts| == n && forall i :: 0 <= i < n ==> ts[i].job == branches[i] && IsPredictionTree(history, ts[i])
    decreases Room(history, job), 0, n
  {
    hide Reachable, FitsTrace, AreNext;
    ts := [];
    if n > 0 {
      ts := ForestExists(history, job, branches, n - 1);
      assert GrowsReachably(history, job, branches[n - 1]);
      ReachableIsShort(history, ModesOf(job.trace));
      var t := TreeExists(history, branches[n - 1]);
      ts := ts + [t];
    }
  }

  /* One job of a tree is primary */

  /** A tree of predictions some of which have not been followed to their end. */
  ghost predicate IsPrunedTree(history: seq<Mode>, t: Tree) {
    t.children != [] ==>
      && (exists next, order :: AreNext(history, t.job, NextJobs(Jobs(t.children)), next, order))
      && (forall c :: c in t.children ==> IsPrunedTree(history, c))
  }

  function LeafJobs(t: Tree): seq<Branch> {
    if t.children == [] then [t.job] else AllLeafJobs(t.children)
  }

  function AllLeafJobs(ts: seq<Tree>): seq<Branch> {
    if ts == [] then [] else AllLeafJobs(ts[..|ts| - 1]) + LeafJobs(ts[|ts| - 1])
  }

  function PrimaryAmong(bs: seq<Branch>): nat {
    if bs == [] then 0 else PrimaryAmong(bs[..|bs| - 1]) + (if Primary(bs[|bs| - 1].path) then 1 else 0)
  }

  lemma {:induction false} PrimaryConcat(a: seq<Branch>, b: seq<Branch>)
    ensures PrimaryAmong(a + b) == PrimaryAmong(a) + PrimaryAmong(b)
  {
    hide Primary;
    if b == [] {
      assert a + b == a;
    } else {
      assert (a + b)[..|a + b| - 1] == a + b[..|b| - 1];
      PrimaryConcat(a, b[..|b| - 1]);
    }
  }

  /** Of the jobs at the leaves of a tree, however it is pruned, exactly one is primary if the root is, and none if
      it is not. */
  lemma {:induction false} OnePrimaryLeaf(history: seq<Mode>, t: Tree)
    requires IsPrunedTree(history, t)
    ensures PrimaryAmong(LeafJobs(t)) == if Primary(t.job.path) then 1 else 0
    decreases t
  {
    hide AreNext, Primary;
    if t.children == [] {
      assert [t.job][..0] == [];
    } else {
      PrimaryBelow(history, t, t.children);
    }
  }

  lemma FirstIsPrimary(history: seq<Mode>, t: Tree, i: nat)
    requires t.children != [] && exists next, order :: AreNext(history, t.job, NextJobs(Jobs(t.children)), next, order)
    requires i < |t.children|
    ensures Primary(t.children[i].job.path) <==> Primary(t.job.path) && i == 0
  {
    var next, order :| AreNext(history, t.job, NextJobs(Jobs(t.children)), next, order);
    var k := NextUnpacked(history, t.job, Jobs(t.children), next, order);
    hide AreNext, AreBranches, IsPrediction, Primary;
    OnePrimary(t.job, next, order, Jobs(t.children), i);
  }

  lemma {:induction false} PrimaryBelow(history: seq<Mode>, t: Tree, ts: seq<Tree>)
    requires IsPrunedTree(history, t) && t.children != [] && ts <= t.children
    ensures PrimaryAmong(AllLeafJobs(ts)) == if ts != [] && Primary(t.job.path) then 1 else 0
    decreases t, 0, |ts|
  {
    hide AreNext, Primary;
    if ts != [] {
      var n := |ts| - 1;
      assert ts[n] == t.children[n];
      PrimaryBelow(history, t, ts[..n]);
      OnePrimaryLeaf(history, ts[n]);
      FirstIsPrimary(history, t, n);
      PrimaryConcat(AllLeafJobs(ts[..n]), LeafJobs(ts[n]));
    }
  }
}
