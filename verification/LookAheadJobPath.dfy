/** The path of a job in the tree of predictions: at which positions of its trace it branched, and which
    branch it took. */
module LookAheadJobPaths {

  datatype PathElement = PathElement(priority: nat, position: nat)

  /** Positions are positive and strictly increasing. */
  predicate WellFormed(path: seq<PathElement>) {
    && (forall i :: 0 <= i < |path| ==> path[i].position > 0)
    && (forall i, j :: 0 <= i < j < |path| ==> path[i].position < path[j].position)
  }

  /** The path branches inside a trace of n entries. */
  predicate FitsTrace(path: seq<PathElement>, n: nat) {
    WellFormed(path) && forall i :: 0 <= i < |path| ==> path[i].position < n
  }

  predicate Addable(path: seq<PathElement>, position: nat) {
    position > 0 && (path == [] || path[|path| - 1].position < position)
  }

  function ElementAbove(e: PathElement, lower: nat): seq<PathElement> {
    if e.position > lower then [PathElement(e.priority, e.position - lower)] else []
  }

  /** The elements positioned above `lower`, seen from there. */
  function Above(path: seq<PathElement>, lower: nat): seq<PathElement> {
    if path == [] then [] else Above(path[..|path| - 1], lower) + ElementAbove(path[|path| - 1], lower)
  }

  function UpTo(path: seq<PathElement>, upper: nat): seq<PathElement> {
    if path == [] || path[|path| - 1].position <= upper then path else UpTo(path[..|path| - 1], upper)
  }

  function Reduced(path: seq<PathElement>, lower: nat, upper: nat): seq<PathElement> {
    Above(UpTo(path, upper), lower)
  }

  lemma {:induction false} UpToIsPrefix(path: seq<PathElement>, upper: nat)
    requires WellFormed(path)
    ensures UpTo(path, upper) <= path && WellFormed(UpTo(path, upper))
    ensures forall e :: e in UpTo(path, upper) <==> e in path && e.position <= upper
  {
    if path != [] && path[|path| - 1].position > upper {
      assert path == path[..|path| - 1] + [path[|path| - 1]];
      UpToIsPrefix(path[..|path| - 1], upper);
    }
  }

  function Raised(e: PathElement, amount: nat): PathElement {
    PathElement(e.priority, e.position + amount)
  }

  lemma FrontWellFormed(path: seq<PathElement>)
    requires WellFormed(path) && path != []
    ensures WellFormed(path[..|path| - 1]) && path == path[..|path| - 1] + [path[|path| - 1]]
    ensures |path| > 1 ==> path[|path| - 2].position < path[|path| - 1].position
  {
  }

  lemma AddedWellFormed(path: seq<PathElement>, e: PathElement)
    requires WellFormed(path) && Addable(path, e.position)
    ensures WellFormed(path + [e])
  {
  }

  predicate EndsBelow(r: seq<PathElement>, path: seq<PathElement>, lower: nat) {
    r != [] ==> path != [] && r[|r| - 1].position + lower <= path[|path| - 1].position
  }

  lemma {:induction false} AboveEnd(path: seq<PathElement>, lower: nat)
    requires WellFormed(path)
    ensures WellFormed(Above(path, lower)) && EndsBelow(Above(path, lower), path, lower)
  {
    if path == [] {
    } else {
      hide WellFormed, EndsBelow, ElementAbove;
      FrontWellFormed(path);
      AboveEnd(path[..|path| - 1], lower);
      AddedEnd(path, Above(path[..|path| - 1], lower), lower);
    }
  }

  lemma AddedEnd(path: seq<PathElement>, r: seq<PathElement>, lower: nat)
    requires WellFormed(path) && path != [] && WellFormed(r) && EndsBelow(r, path[..|path| - 1], lower)
    ensures var r' := r + ElementAbove(path[|path| - 1], lower); WellFormed(r') && EndsBelow(r', path, lower)
  {
    var last := path[|path| - 1];
    FrontWellFormed(path);
    if last.position > lower {
      AddedWellFormed(r, PathElement(last.priority, last.position - lower));
    } else {
      assert r + ElementAbove(last, lower) == r;
    }
  }

  lemma {:induction false} AboveMembers(path: seq<PathElement>, lower: nat, e: PathElement)
    ensures e in Above(path, lower) <==> e.position > 0 && Raised(e, lower) in path
  {
    if path == [] {
    } else {
      var front, last := path[..|path| - 1], path[|path| - 1];
      AboveMembers(front, lower, e);
      assert path == front + [last];
      assert Above(path, lower) == Above(front, lower) + ElementAbove(last, lower);
    }
  }

  /** A reduction keeps exactly the elements above `lower` and not above `upper`, shifted down, in order; so
      a path that fits a trace fits the trace cut to the entries from `lower` to `upper` (and when no element
      can lie at `upper` + 1, cut so that `upper` is one past its end). */
  lemma ReducedFits(path: seq<PathElement>, lower: nat, upper: nat, n: nat)
    requires FitsTrace(path, n) && lower <= upper
    ensures forall e: PathElement :: e in Reduced(path, lower, upper) <==>
              0 < e.position <= upper - lower && Raised(e, lower) in path
    ensures FitsTrace(Reduced(path, lower, upper), upper - lower + 1)
    ensures n <= upper ==> FitsTrace(Reduced(path, lower, upper), upper - lower)
  {
    UpToIsPrefix(path, upper);
    AboveEnd(UpTo(path, upper), lower);
    var r := Reduced(path, lower, upper);
    forall e: PathElement ensures e in r <==> 0 < e.position <= upper - lower && Raised(e, lower) in path {
      AboveMembers(UpTo(path, upper), lower, e);
    }
    forall i | 0 <= i < |r| ensures r[i].position <= upper - lower && (n <= upper ==> r[i].position < upper - lower) {
      assert r[i] in r;
      MemberBelow(path, n, Raised(r[i], lower));
    }
  }

  lemma MemberBelow(path: seq<PathElement>, n: nat, e: PathElement)
    requires FitsTrace(path, n) && e in path
    ensures e.position < n
  {
  }

  /** `kept` holds what a trace of m entries with this path has chosen once it is cut to n entries from `lower` on: the
      choices made strictly between the new start and the end of what is kept, each with its branch, seen from the new
      start; and no other, unless it was made beyond the old trace. */
  ghost predicate KeepsChoices(kept: seq<PathElement>, n: nat, path: seq<PathElement>, m: nat, lower: nat) {
    && FitsTrace(kept, n)
    && forall e: PathElement :: e.position + lower < m ==>
         (e in kept <==> 0 < e.position < n && PathElement(e.priority, e.position + lower) in path)
  }

  /** The reduction of a path goes with the cut of its trace; `upper` may be one past the end of the trace. */
  lemma ReducedKeepsChoices(path: seq<PathElement>, m: nat, lower: nat, upper: nat)
    requires FitsTrace(path, m) && lower <= upper <= m
    ensures KeepsChoices(Reduced(path, lower, upper), if upper == m then m - lower else upper - lower + 1, path, m,
                         lower)
  {
    ReducedFits(path, lower, upper, m);
    hide Reduced, FitsTrace;
  }

  /** One more choice at the end of the trace is beyond the old one. */
  lemma AddedKeepsChoices(kept: seq<PathElement>, n: nat, path: seq<PathElement>, m: nat, lower: nat,
                          added: seq<PathElement>)
    requires KeepsChoices(kept, n, path, m, lower) && FitsTrace(path, m) && lower + n == m && n > 0
    requires added == [] || (|added| == 1 && added[0].position == n)
    ensures KeepsChoices(kept + added, n + 1, path, m, lower)
  {
    AddedFits(kept, n, added);
    hide FitsTrace;
  }

  lemma AddedFits(kept: seq<PathElement>, n: nat, added: seq<PathElement>)
    requires FitsTrace(kept, n) && n > 0 && (added == [] || (|added| == 1 && added[0].position == n))
    ensures FitsTrace(kept + added, n + 1)
  {
  }

  /** A path is determined by its elements. */
  lemma {:induction false} SameElements(a: seq<PathElement>, b: seq<PathElement>)
    requires WellFormed(a) && WellFormed(b) && forall e :: e in a <==> e in b
    ensures a == b
  {
    hide WellFormed;
    SomeElement(a, b);
    SomeElement(b, a);
    if a != [] {
      var front, front' := a[..|a| - 1], b[..|b| - 1];
      LastIsLast(a, b);
      FrontWellFormed(a);
      FrontWellFormed(b);
      forall e ensures e in front <==> e in front' {
        FrontElements(a, e);
        FrontElements(b, e);
      }
      SameElements(front, front');
    }
  }

  lemma SomeElement(a: seq<PathElement>, b: seq<PathElement>)
    requires forall e :: e in a ==> e in b
    ensures a != [] ==> b != []
  {
    if a != [] { assert a[0] in b; }
  }

  lemma LastIsLast(a: seq<PathElement>, b: seq<PathElement>)
    requires WellFormed(a) && WellFormed(b) && a != [] && b != [] && forall e :: e in a <==> e in b
    ensures a[|a| - 1] == b[|b| - 1]
  {
    var i, j := |a| - 1, |b| - 1;
    assert a[i] in b && b[j] in a;
    var k :| 0 <= k < |b| && b[k] == a[i];
    var l :| 0 <= l < |a| && a[l] == b[j];
  }

  lemma FrontElements(a: seq<PathElement>, e: PathElement)
    requires WellFormed(a) && a != []
    ensures e in a[..|a| - 1] <==> e in a && e != a[|a| - 1]
  {
    if e in a && e != a[|a| - 1] {
      var k :| 0 <= k < |a| && a[k] == e;
      assert a[..|a| - 1][k] == e;
    }
  }

  /** The elements before position `to`. */
  lemma ElementsBefore(a: seq<PathElement>, k: nat, e: PathElement)
    requires WellFormed(a) && k < |a|
    ensures e in a[..k] <==> e in a && e.position < a[k].position
  {
    if e in a && e.position < a[k].position {
      var i :| 0 <= i < |a| && a[i] == e;
      assert a[..k][i] == e;
    }
  }

  /** Two paths that first differ in the branch taken at one position. */
  predicate DifferAt(p: seq<PathElement>, q: seq<PathElement>, k: nat) {
    && k < |p| && k < |q| && p[..k] == q[..k]
    && p[k].position == q[k].position && p[k].priority != q[k].priority
  }

  /** If that position stays inside what both keep, the kept paths too first differ in the branch taken there. */
  lemma KeptDiffer(p: seq<PathElement>, q: seq<PathElement>, k: nat, m: nat, l: nat, lower: nat, p': seq<PathElement>,
                   n: nat, q': seq<PathElement>, r: nat) returns (a: nat)
    requires FitsTrace(p, m) && FitsTrace(q, l) && DifferAt(p, q, k)
    requires KeepsChoices(p', n, p, m, lower) && KeepsChoices(q', r, q, l, lower)
    requires lower < p[k].position && p[k].position - lower < n && p[k].position - lower < r
    ensures DifferAt(p', q', a)
  {
    hide KeepsChoices, FitsTrace;
    a := KeptAt(p, k, m, lower, p', n);
    var b := KeptAt(q, k, l, lower, q', r);
    forall e ensures e in p'[..a] <==> e in q'[..b] {
      KeptBefore(p, k, m, lower, p', n, a, e);
      KeptBefore(q, k, l, lower, q', r, b, e);
    }
    KeptWellFormed(p, m, lower, p', n, a);
    KeptWellFormed(q, l, lower, q', r, b);
    SameElements(p'[..a], q'[..b]);
    assert |p'[..a]| == |q'[..b]|;
  }

  lemma KeptAt(p: seq<PathElement>, k: nat, m: nat, lower: nat, p': seq<PathElement>, n: nat) returns (a: nat)
    requires FitsTrace(p, m) && k < |p| && KeepsChoices(p', n, p, m, lower)
    requires lower < p[k].position && p[k].position - lower < n
    ensures a < |p'| && p'[a] == PathElement(p[k].priority, p[k].position - lower)
  {
    var x := PathElement(p[k].priority, p[k].position - lower);
    assert p[k].position < m && p[k] in p;
    assert PathElement(x.priority, x.position + lower) == p[k];
    assert x in p';
    a :| 0 <= a < |p'| && p'[a] == x;
  }

  lemma KeptWellFormed(p: seq<PathElement>, m: nat, lower: nat, p': seq<PathElement>, n: nat, a: nat)
    requires KeepsChoices(p', n, p, m, lower) && a < |p'|
    ensures WellFormed(p'[..a])
  {
    PrefixWellFormed(p', a);
  }

  /** If that position is beyond what the first keeps, and the second keeps as much, the first kept path is a prefix of
      the second. */
  lemma KeptAlike(p: seq<PathElement>, q: seq<PathElement>, k: nat, m: nat, l: nat, lower: nat, p': seq<PathElement>,
                  n: nat, q': seq<PathElement>, r: nat)
    requires FitsTrace(p, m) && FitsTrace(q, l) && DifferAt(p, q, k)
    requires KeepsChoices(p', n, p, m, lower) && KeepsChoices(q', r, q, l, lower)
    requires 0 < n <= r && lower + n <= p[k].position
    ensures p' <= q'
  {
    hide FitsTrace, WellFormed, KeepsChoices, UpTo;
    KeptParts(p, m, lower, p', n);
    KeptParts(q, l, lower, q', r);
    UpToIsPrefix(q', n - 1);
    forall e ensures e in p' <==> e in UpTo(q', n - 1) {
      if e.position < n {
        KeptBelow(p, k, m, lower, p', n, n, e);
        KeptBelow(q, k, l, lower, q', r, n, e);
      } else if e in p' {
        MemberBelow(p', n, e);
      }
    }
    SameElements(p', UpTo(q', n - 1));
  }

  lemma KeptBelow(p: seq<PathElement>, k: nat, m: nat, lower: nat, p': seq<PathElement>, n: nat, to: nat,
                  e: PathElement)
    requires FitsTrace(p, m) && k < |p| && KeepsChoices(p', n, p, m, lower)
    requires e.position < to <= n && lower + to <= p[k].position
    ensures e in p' <==> e.position > 0 && PathElement(e.priority, e.position + lower) in p[..k]
  {
    ElementsBefore(p, k, PathElement(e.priority, e.position + lower));
    assert p[k].position < m;
    hide FitsTrace;
  }

  lemma KeptParts(p: seq<PathElement>, m: nat, lower: nat, p': seq<PathElement>, n: nat)
    requires FitsTrace(p, m) && KeepsChoices(p', n, p, m, lower)
    ensures WellFormed(p) && WellFormed(p') && FitsTrace(p', n)
  {
  }

  lemma PrefixWellFormed(a: seq<PathElement>, k: nat)
    requires WellFormed(a) && k <= |a|
    ensures WellFormed(a[..k])
  {
  }

  lemma KeptBefore(p: seq<PathElement>, k: nat, m: nat, lower: nat, p': seq<PathElement>, n: nat, a: nat,
                   e: PathElement)
    requires FitsTrace(p, m) && k < |p| && KeepsChoices(p', n, p, m, lower) && a < |p'|
    requires p'[a].position + lower == p[k].position
    ensures e in p'[..a] <==> e.position > 0 && PathElement(e.priority, e.position + lower) in p[..k]
  {
    ElementsBefore(p', a, e);
    ElementsBefore(p, k, PathElement(e.priority, e.position + lower));
    assert p[k].position < m && p'[a].position < n;
    hide FitsTrace;
  }

  lemma AboveNone(lower: nat)
    ensures Above([], lower) == []
  {
  }

  lemma AboveStep(path: seq<PathElement>, i: nat, lower: nat)
    requires i < |path|
    ensures Above(path[..i + 1], lower) == Above(path[..i], lower) + ElementAbove(path[i], lower)
  {
    assert path[..i + 1][..i] == path[..i];
  }

  /** While the elements are moved one by one, each can be added. */
  lemma AboveAddable(path: seq<PathElement>, i: nat, lower: nat)
    requires WellFormed(path) && i < |path|
    ensures path[i].position > lower ==> Addable(Above(path[..i], lower), path[i].position - lower)
    ensures ElementAbove(path[i], lower) ==
            if path[i].position > lower then [PathElement(path[i].priority, path[i].position - lower)] else []
  {
    hide Above;
    AboveEnd(path[..i], lower);
  }

  predicate Primary(path: seq<PathElement>) {
    forall e :: e in path ==> e.priority == 0
  }

  class LookAheadJobPath {
    var elements: seq<PathElement>

    /** Copy construction. */
    constructor (elements: seq<PathElement>)
      ensures this.elements == elements
    {
      this.elements := elements;
    }

    method Add(priority: nat, position: nat)
      requires Addable(elements, position)
      modifies this
      ensures elements == old(elements) + [PathElement(priority, position)]
    {
      elements := elements + [PathElement(priority, position)];
    }

    method RemoveLeThan(position: nat)
      requires WellFormed(elements)
      modifies this
      ensures elements == Above(old(elements), position)
    {
      hide *;
      var newPath := new LookAheadJobPath([]);
      AboveNone(position);
      var i := 0;
      while i < |elements|
        invariant 0 <= i <= |elements| && elements == old(elements)
        invariant fresh(newPath) && newPath.elements == Above(elements[..i], position)
      {
        AboveStep(elements, i, position);
        AboveAddable(elements, i, position);
        if elements[i].position > position {
          newPath.Add(elements[i].priority, elements[i].position - position);
        }
        i := i + 1;
      }
      assert elements[..i] == elements;
      elements := newPath.elements;
    }

    method RemoveGThan(position: nat)
      modifies this
      ensures elements == UpTo(old(elements), position)
    {
      while elements != [] && elements[|elements| - 1].position > position
        invariant UpTo(elements, position) == UpTo(old(elements), position)
        decreases |elements|
      {
        elements := elements[..|elements| - 1];
      }
    }

    method ReduceBetween(lower: nat, upper: nat)
      requires WellFormed(elements)
      modifies this
      ensures elements == Reduced(old(elements), lower, upper)
    {
      UpToIsPrefix(elements, upper);
      RemoveGThan(upper);
      RemoveLeThan(lower);
    }

    /** Whether the job took the first branch every time. */
    method IsPrimary() returns (primary: bool)
      ensures primary <==> Primary(elements)
    {
      var i := 0;
      while i < |elements|
        invariant 0 <= i <= |elements|
        invariant forall e :: e in elements[..i] ==> e.priority == 0
      {
        if elements[i].priority > 0 {
          return false;
        }
        i := i + 1;
      }
      return true;
    }
  }

  /** The sequence of branches taken, which is what the registry keeps. */
  function Priorities(path: seq<PathElement>): (ps: seq<nat>)
    ensures |ps| == |path| && forall i :: 0 <= i < |ps| ==> ps[i] == path[i].priority
  {
    seq(|path|, i requires 0 <= i < |path| => path[i].priority)
  }
}
