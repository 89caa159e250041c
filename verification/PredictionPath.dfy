/** What a path is for: it tells the jobs of one prediction apart, and where they part. */
module PredictionPaths {
  import opened Modes
  import opened NextModes
  import opened ModeTraces
  import opened LookAheadJobPaths
  import opened Predictions

  /** Two jobs whose paths first differ at element k: they took different branches there, at the same position; up to
      that position their traces are the same, and at it they are in different modes. */
  predicate PartAt(b: Branch, c: Branch, k: nat) {
    && k < |b.path| && k < |c.path| && b.path[..k] == c.path[..k]
    && b.path[k].priority != c.path[k].priority && b.path[k].position == c.path[k].position
    && var n := b.path[k].position;
       && n < |b.trace| && n < |c.trace| && b.trace[..n] == c.trace[..n] && b.trace[n].mode != c.trace[n].mode
  }

  /** The choices b has made since it was a, it made at entries added since. */
  predicate Continues(a: Branch, b: Branch) {
    && a.trace <= b.trace && a.path <= b.path && b.Fits()
    && forall i :: |a.path| <= i < |b.path| ==> b.path[i].position >= |a.trace|
  }

  /** Creating the next jobs adds one mode to the trace of each. If there are several of them, each records which of
      them it is, at the position of the mode added; a single one records nothing. */
  lemma ChoiceRecorded(history: seq<Mode>, job: Branch, branches: seq<Branch>, next: map<Mode, real>, order: seq<Mode>,
                       i: nat)
    requires AreNext(history, job, NextJobs(branches), next, order) && i < |branches|
    ensures i < |order| == |branches|
    ensures branches[i].trace != [] && branches[i].trace[..|branches[i].trace| - 1] == job.trace != []
    ensures branches[i].trace[|branches[i].trace| - 1].mode == order[i]
    ensures branches[i].path ==
            job.path + if |branches| > 1 then [PathElement(i, |branches[i].trace| - 1)] else []
  {
    hide AreNext, IsPrediction;
    var k := NextUnpacked(history, job, branches, next, order);
    SameSize(next, order);
  }

  /** The modes predicted are those that followed in all of the robot's past and the job's trace, put together with what
      they share at the seam kept once. */
  lemma PredictedFrom(history: seq<Mode>, job: Branch, branches: seq<Branch>, next: map<Mode, real>, order: seq<Mode>)
    returns (full: seq<Mode>, k: nat)
    requires AreNext(history, job, NextJobs(branches), next, order) && branches != []
    ensures history != [] && job.trace != [] && full != [] && IsPrediction(full, k, next)
    ensures var shared := if history[|history| - 1] == job.trace[0].mode then 1 else 0;
            && |full| == |history| + |job.trace| - shared && full[..|history|] == history
            && forall i :: 0 <= i < |job.trace| ==> full[|history| - shared + i] == job.trace[i].mode
    ensures |branches| == |order| && forall m :: m in order <==> m in next
  {
    hide *;
    k := NextUnpacked(history, job, branches, next, order);
    full := FullTrace(history, job.trace);
    FullTraceIs(history, job.trace);
    BranchesAre(job, next, order, branches);
  }

  lemma BranchesAre(job: Branch, next: map<Mode, real>, order: seq<Mode>, branches: seq<Branch>)
    requires AreBranches(job, next, order, branches)
    ensures |branches| == |order|
  {
  }

  lemma FullTraceIs(history: seq<Mode>, trace: seq<Entry>)
    requires history != [] && trace != []
    ensures var full, shared := FullTrace(history, trace), if history[|history| - 1] == trace[0].mode then 1 else 0;
            && |full| == |history| + |trace| - shared && full[..|history|] == history
            && forall i :: 0 <= i < |trace| ==> full[|history| - shared + i] == trace[i].mode
  {
    hide Merged;
    var full, ms := FullTrace(history, trace), ModesOf(trace);
    SeamIs(history, ms);
    var shared := if history[|history| - 1] == trace[0].mode then 1 else 0;
    forall i | 0 <= i < |trace| ensures full[|history| - shared + i] == trace[i].mode {
      assert full[|history| - shared..][i] == ms[i];
    }
  }

  lemma SameSize(next: map<Mode, real>, order: seq<Mode>)
    requires Distinct(order) && forall m :: m in order <==> m in next
    ensures |order| == |next|
  {
    DistinctSize(order);
    assert ModeSet(order) == next.Keys;
  }

  lemma NextContinues(history: seq<Mode>, job: Branch, branches: seq<Branch>, next: map<Mode, real>, order: seq<Mode>,
                      i: nat)
    requires AreNext(history, job, NextJobs(branches), next, order) && i < |branches| && job.Fits()
    ensures Continues(job, branches[i])
  {
    hide AreNext, AreBranches;
    ChoiceRecorded(history, job, branches, next, order, i);
    ContinuedBy(job, branches[i], branches[i].path[|job.path|..]);
  }

  lemma ContinuedBy(a: Branch, b: Branch, added: seq<PathElement>)
    requires a.Fits() && b.trace != [] && b.trace[..|b.trace| - 1] == a.trace && b.path == a.path + added
    requires added == [] || (|added| == 1 && added[0].position == |b.trace| - 1)
    ensures Continues(a, b)
  {
    AddedFits(a.path, |a.trace|, added);
    hide WellFormed, FitsTrace;
  }

  lemma ContinuesFurther(a: Branch, b: Branch, c: Branch)
    requires Continues(a, b) && Continues(b, c)
    ensures Continues(a, c)
  {
    hide WellFormed;
    forall i | |a.path| <= i < |c.path| ensures c.path[i].position >= |a.trace| {
      if i < |b.path| { assert c.path[i] == b.path[i]; }
    }
  }

  /** Two of the next jobs part at the mode added. */
  lemma NextPart(history: seq<Mode>, job: Branch, branches: seq<Branch>, next: map<Mode, real>, order: seq<Mode>,
                 i: nat, j: nat)
    requires AreNext(history, job, NextJobs(branches), next, order) && i < |branches| && j < |branches| && i != j
    ensures PartAt(branches[i], branches[j], |job.path|)
    ensures |branches[i].path| == |branches[j].path| == |job.path| + 1
  {
    hide AreNext, AreBranches, IsPrediction;
    ChoiceRecorded(history, job, branches, next, order, i);
    ChoiceRecorded(history, job, branches, next, order, j);
    var k := NextUnpacked(history, job, branches, next, order);
    assert order[i] != order[j];
  }

  /** And so do all that continue them. */
  lemma PartFurther(a: Branch, a': Branch, b: Branch, b': Branch, k: nat)
    requires PartAt(a, b, k) && Continues(a, a') && Continues(b, b')
    ensures PartAt(a', b', k)
  {
    hide WellFormed;
    assert a'.path[..k] == a.path[..k] && b'.path[..k] == b.path[..k];
    assert a'.path[k] == a.path[k] && b'.path[k] == b.path[k];
    var n := a.path[k].position;
    assert a'.trace[..n] == a.trace[..n] && b'.trace[..n] == b.trace[..n];
    assert a'.trace[n] == a.trace[n] && b'.trace[n] == b.trace[n];
  }

  /** The i-th leaf of a row of trees is the m-th of tree a. */
  lemma {:induction false} LeafFound(ts: seq<Tree>, i: nat) returns (a: nat, m: nat)
    requires i < |AllLeafJobs(ts)|
    ensures a < |ts| && m < |LeafJobs(ts[a])| && AllLeafJobs(ts)[i] == LeafJobs(ts[a])[m]
    ensures i == |AllLeafJobs(ts[..a])| + m
  {
    var n := |ts| - 1;
    var before := |AllLeafJobs(ts[..n])|;
    if i < before {
      a, m := LeafFound(ts[..n], i);
      assert ts[..n][..a] == ts[..a];
    } else {
      a, m := n, i - before;
    }
  }

  lemma {:induction false} LeafContinues(history: seq<Mode>, t: Tree, i: nat)
    requires IsPrunedTree(history, t) && t.job.Fits() && i < |LeafJobs(t)|
    ensures Continues(t.job, LeafJobs(t)[i])
    decreases t
  {
    hide AreNext, Continues, WellFormed;
    if t.children == [] {
      Unchanged(t.job);
    } else {
      var a, m := LeafFound(t.children, i);
      var c := t.children[a];
      ChildContinues(history, t, a);
      LeafContinues(history, c, m);
      ContinuesFurther(t.job, c.job, LeafJobs(c)[m]);
    }
  }

  lemma Unchanged(b: Branch)
    requires b.Fits()
    ensures Continues(b, b)
  {
  }

  lemma ChildContinues(history: seq<Mode>, t: Tree, a: nat)
    requires IsPrunedTree(history, t) && t.job.Fits() && a < |t.children|
    ensures Continues(t.job, t.children[a].job) && t.children[a].job.Fits()
  {
    hide AreNext;
    var next, order :| AreNext(history, t.job, NextJobs(Jobs(t.children)), next, order);
    NextContinues(history, t.job, Jobs(t.children), next, order, a);
  }

  lemma ChildrenPart(history: seq<Mode>, t: Tree, a: nat, b: nat)
    requires IsPrunedTree(history, t) && a < |t.children| && b < |t.children| && a != b
    ensures PartAt(t.children[a].job, t.children[b].job, |t.job.path|)
  {
    hide AreNext, PartAt;
    var next, order :| AreNext(history, t.job, NextJobs(Jobs(t.children)), next, order);
    NextPart(history, t.job, Jobs(t.children), next, order, a, b);
  }

  /** Over a whole tree of predictions, however it is pruned: the paths of any two leaves differ, neither is a prefix of
      the other, and the position recorded where they first differ is where their traces first differ. */
  lemma {:induction false} LeavesPart(history: seq<Mode>, t: Tree, i: nat, j: nat) returns (k: nat)
    requires IsPrunedTree(history, t) && t.job.Fits() && i < j < |LeafJobs(t)|
    ensures PartAt(LeafJobs(t)[i], LeafJobs(t)[j], k)
    decreases t
  {
    hide AreNext, Continues, PartAt, WellFormed;
    var a, m := LeafFound(t.children, i);
    var b, n := LeafFound(t.children, j);
    ChildContinues(history, t, a);
    if a == b {
      k := LeavesPart(history, t.children[a], m, n);
    } else {
      k := |t.job.path|;
      ChildContinues(history, t, b);
      ChildrenPart(history, t, a, b);
      LeafContinues(history, t.children[a], m);
      LeafContinues(history, t.children[b], n);
      PartFurther(t.children[a].job, LeafJobs(t.children[a])[m], t.children[b].job, LeafJobs(t.children[b])[n], k);
    }
  }
}
