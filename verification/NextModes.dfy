/** What the predictor of the next mode computes: the modes that followed the longest suffix of the trace
    wherever that suffix also ended earlier, with their relative frequencies. */
module NextModes {
  import opened Modes

  /** The last k modes of the trace also end at position i, before the trace's end. */
  predicate EndsAt(ms: seq<Mode>, i: nat, k: nat) {
    i + 1 < |ms| && 1 <= k <= i + 1 && ms[i + 1 - k..i + 1] == ms[|ms| - k..]
  }

  /** The number of positions below n where the last k modes also end. */
  function Occurrences(ms: seq<Mode>, k: nat, n: nat): nat
    requires n < |ms| || n == 0
  {
    if n == 0 then 0 else Occurrences(ms, k, n - 1) + (if EndsAt(ms, n - 1, k) then 1 else 0)
  }

  /** How often mode m follows them. */
  function Followers(ms: seq<Mode>, k: nat, m: Mode, n: nat): nat
    requires n < |ms| || n == 0
  {
    if n == 0 then 0
    else Followers(ms, k, m, n - 1) + (if EndsAt(ms, n - 1, k) && ms[n] == m then 1 else 0)
  }

  /** k is the length of the longest suffix that also ends earlier; 0 if the last mode is new. */
  ghost predicate IsLongest(ms: seq<Mode>, k: nat) {
    && (k > 0 ==> exists i :: 0 <= i < |ms| && EndsAt(ms, i, k))
    && (forall i: nat, j: nat :: EndsAt(ms, i, j) ==> j <= k)
  }

  /** The specification of the prediction. */
  ghost predicate IsPrediction(ms: seq<Mode>, k: nat, next: map<Mode, real>)
    requires ms != []
  {
    && IsLongest(ms, k)
    && (forall m :: m in next <==> Followers(ms, k, m, |ms| - 1) > 0)
    && (forall m :: m in next ==>
          && Occurrences(ms, k, |ms| - 1) > 0
          && next[m] == Followers(ms, k, m, |ms| - 1) as real / Occurrences(ms, k, |ms| - 1) as real)
  }

  /** The specification determines the prediction. */
  lemma PredictionUnique(ms: seq<Mode>, k: nat, next: map<Mode, real>, k': nat, next': map<Mode, real>)
    requires ms != [] && IsPrediction(ms, k, next) && IsPrediction(ms, k', next')
    ensures k == k' && next == next'
  {
    assert k == k';
    assert forall m :: m in next <==> m in next';
  }

  /** A suffix that ends at i and can be continued backwards by one more equal mode is one longer. */
  lemma EndsAtExtends(ms: seq<Mode>, i: nat, k: nat)
    requires EndsAt(ms, i, k)
    ensures EndsAt(ms, i, k + 1) <==> k <= i && ms[i - k] == ms[|ms| - 1 - k]
  {
    var n := |ms|;
    if k <= i {
      assert ms[i - k..i + 1] == [ms[i - k]] + ms[i + 1 - k..i + 1];
      assert ms[n - 1 - k..] == [ms[n - 1 - k]] + ms[n - k..];
    }
  }

  lemma EndsAtOne(ms: seq<Mode>, i: nat)
    requires i + 1 < |ms|
    ensures EndsAt(ms, i, 1) <==> ms[i] == ms[|ms| - 1]
  {
    assert ms[i..i + 1] == [ms[i]] && ms[|ms| - 1..] == [ms[|ms| - 1]];
  }

  lemma {:induction false} EndsAtShorter(ms: seq<Mode>, i: nat, k: nat, j: nat)
    requires EndsAt(ms, i, k) && 1 <= j <= k
    ensures EndsAt(ms, i, j)
  {
    var n := |ms|;
    assert ms[i + 1 - j..i + 1] == ms[i + 1 - k..i + 1][k - j..];
    assert ms[n - j..] == ms[n - k..][k - j..];
  }

  lemma {:induction false} FollowersPositive(ms: seq<Mode>, k: nat, i: nat, n: nat)
    requires n < |ms| && i < n && EndsAt(ms, i, k)
    ensures Followers(ms, k, ms[i + 1], n) > 0 && Occurrences(ms, k, n) > 0
  {
    if i < n - 1 { FollowersPositive(ms, k, i, n - 1); }
  }

  lemma {:induction false} FollowersWitness(ms: seq<Mode>, k: nat, m: Mode, n: nat) returns (i: nat)
    requires (n < |ms| || n == 0) && Followers(ms, k, m, n) > 0
    ensures i < n && EndsAt(ms, i, k) && ms[i + 1] == m
  {
    if EndsAt(ms, n - 1, k) && ms[n] == m { i := n - 1; } else { i := FollowersWitness(ms, k, m, n - 1); }
  }

  /** There is a next mode exactly when the last mode occurred earlier. */
  lemma PredictionNonEmpty(ms: seq<Mode>, k: nat, next: map<Mode, real>)
    requires ms != [] && IsPrediction(ms, k, next)
    ensures next != map[] <==> ms[|ms| - 1] in ms[..|ms| - 1]
    ensures forall m :: m in next ==> m in ms
  {
    forall m | m in next ensures m in ms && ms[|ms| - 1] in ms[..|ms| - 1] {
      var i := FollowersWitness(ms, k, m, |ms| - 1);
      EndsAtShorter(ms, i, k, 1);
      EndsAtOne(ms, i);
      assert ms[..|ms| - 1][i] == ms[i];
    }
    if ms[|ms| - 1] in ms[..|ms| - 1] {
      var i :| 0 <= i < |ms| - 1 && ms[..|ms| - 1][i] == ms[|ms| - 1];
      EndsAtOne(ms, i);
      assert k > 0;
      var j :| 0 <= j < |ms| && EndsAt(ms, j, k);
      FollowersPositive(ms, k, j, |ms| - 1);
      assert ms[j + 1] in next;
    }
  }

  function Sum(next: map<Mode, real>, order: seq<Mode>): real
    requires forall m :: m in order ==> m in next
  {
    if order == [] then 0.0 else Sum(next, order[..|order| - 1]) + next[order[|order| - 1]]
  }

  predicate Distinct(order: seq<Mode>) {
    forall i, j :: 0 <= i < j < |order| ==> order[i] != order[j]
  }

  function FollowersOf(ms: seq<Mode>, k: nat, order: seq<Mode>, n: nat): nat
    requires n < |ms| || n == 0
  {
    if order == [] then 0 else FollowersOf(ms, k, order[..|order| - 1], n) + Followers(ms, k, order[|order| - 1], n)
  }

  lemma {:induction false} FollowersOfStep(ms: seq<Mode>, k: nat, order: seq<Mode>, n: nat)
    requires 0 < n < |ms| && Distinct(order)
    ensures FollowersOf(ms, k, order, n) ==
            FollowersOf(ms, k, order, n - 1) + (if EndsAt(ms, n - 1, k) && ms[n] in order then 1 else 0)
  {
    if order != [] {
      var front, last := order[..|order| - 1], order[|order| - 1];
      assert order == front + [last];
      FollowersOfStep(ms, k, front, n);
      assert last !in front;
    }
  }

  /** Every occurrence has one follower. */
  lemma {:induction false} FollowersAddUp(ms: seq<Mode>, k: nat, order: seq<Mode>, n: nat)
    requires (n < |ms| || n == 0) && Distinct(order)
    requires forall i: nat :: i < n && EndsAt(ms, i, k) ==> ms[i + 1] in order
    ensures FollowersOf(ms, k, order, n) == Occurrences(ms, k, n)
  {
    if n == 0 {
      NoFollowers(ms, k, order);
    } else {
      FollowersOfStep(ms, k, order, n);
      FollowersAddUp(ms, k, order, n - 1);
    }
  }

  lemma {:induction false} NoFollowers(ms: seq<Mode>, k: nat, order: seq<Mode>)
    ensures FollowersOf(ms, k, order, 0) == 0
  {
    if order != [] { NoFollowers(ms, k, order[..|order| - 1]); }
  }

  lemma AddFractions(a: nat, b: nat, n: real)
    requires n > 0.0
    ensures (a + b) as real / n == a as real / n + b as real / n
  {
  }

  lemma {:induction false} SumIsFraction(ms: seq<Mode>, k: nat, next: map<Mode, real>, order: seq<Mode>, n: real)
    requires ms != [] && n > 0.0
    requires forall m :: m in order ==> m in next && next[m] == Followers(ms, k, m, |ms| - 1) as real / n
    ensures Sum(next, order) == FollowersOf(ms, k, order, |ms| - 1) as real / n
  {
    if order != [] {
      var front, last := order[..|order| - 1], order[|order| - 1];
      SumIsFraction(ms, k, next, front, n);
      AddFractions(FollowersOf(ms, k, front, |ms| - 1), Followers(ms, k, last, |ms| - 1), n);
    }
  }

  lemma AllFollowersListed(ms: seq<Mode>, k: nat, next: map<Mode, real>, order: seq<Mode>)
    requires ms != [] && IsPrediction(ms, k, next) && next != map[]
    requires Distinct(order) && forall m :: m in order <==> m in next
    ensures FollowersOf(ms, k, order, |ms| - 1) == Occurrences(ms, k, |ms| - 1) > 0
  {
    var n := |ms| - 1;
    var m :| m in next;
    assert Occurrences(ms, k, n) > 0;
    forall i: nat | i < n && EndsAt(ms, i, k) ensures ms[i + 1] in order { FollowersPositive(ms, k, i, n); }
    FollowersAddUp(ms, k, order, n);
  }

  lemma SelfRatio(n: real)
    requires n > 0.0
    ensures n / n == 1.0
  {
  }

  /** The frequencies of the next modes sum to one, in whatever order they are listed. */
  lemma PredictionSumsToOne(ms: seq<Mode>, k: nat, next: map<Mode, real>, order: seq<Mode>)
    requires ms != [] && IsPrediction(ms, k, next) && next != map[]
    requires Distinct(order) && forall m :: m in order <==> m in next
    ensures Sum(next, order) == 1.0
  {
    AllFollowersListed(ms, k, next, order);
    var n := Occurrences(ms, k, |ms| - 1) as real;
    SumIsFraction(ms, k, next, order, n);
    SelfRatio(n);
  }

  lemma {:induction false} LongestBelow(ms: seq<Mode>, n: nat) returns (k: nat)
    requires forall i: nat, j: nat :: EndsAt(ms, i, j) ==> j <= n
    ensures IsLongest(ms, k)
  {
    if n == 0 || exists i :: 0 <= i < |ms| && EndsAt(ms, i, n) { k := n; } else { k := LongestBelow(ms, n - 1); }
  }

  /** There is always a longest suffix that also ends earlier, if only the empty one. */
  lemma LongestExists(ms: seq<Mode>) returns (k: nat)
    ensures IsLongest(ms, k)
  {
    k := LongestBelow(ms, |ms|);
  }

  function FollowersIn(ms: seq<Mode>, k: nat, m: Mode): nat
    requires ms != []
  {
    Followers(ms, k, m, |ms| - 1)
  }

  function OccurrencesIn(ms: seq<Mode>, k: nat): nat
    requires ms != []
  {
    Occurrences(ms, k, |ms| - 1)
  }

  /** Mode m follows the last k modes of `ms` as often, in proportion, as it follows the last l of `ms'`. */
  predicate InProportion(ms: seq<Mode>, k: nat, ms': seq<Mode>, l: nat, m: Mode)
    requires ms != [] && ms' != []
  {
    FollowersIn(ms', l, m) * OccurrencesIn(ms, k) == FollowersIn(ms, k, m) * OccurrencesIn(ms', l)
  }

  ghost predicate SameProportions(ms: seq<Mode>, k: nat, ms': seq<Mode>, l: nat)
    requires ms != [] && ms' != []
  {
    forall m :: InProportion(ms, k, ms', l, m)
  }

  /** A prediction for one trace is right for another exactly if there, too, the last mode occurred earlier, and
      the same modes followed in the same proportions. */
  lemma PredictsSameIff(ms: seq<Mode>, k: nat, next: map<Mode, real>, ms': seq<Mode>, l: nat)
    requires ms != [] && ms' != [] && IsPrediction(ms, k, next) && next != map[] && IsLongest(ms', l)
    ensures IsPrediction(ms', l, next) <==> OccurrencesIn(ms', l) > 0 && SameProportions(ms, k, ms', l)
  {
    hide IsLongest;
    var some :| some in next;
    if OccurrencesIn(ms', l) > 0 {
      forall m ensures InProportion(ms, k, ms', l, m) <==> PredictsAlike(ms', l, next, m) {
        AlikeIff(ms, k, next, ms', l, m);
      }
      if IsPrediction(ms', l, next) {
        forall m ensures InProportion(ms, k, ms', l, m) { assert PredictsAlike(ms', l, next, m); }
      }
      if SameProportions(ms, k, ms', l) {
        forall m ensures PredictsAlike(ms', l, next, m) { assert InProportion(ms, k, ms', l, m); }
        AllAlike(ms', l, next);
      }
    }
  }

  lemma AllAlike(ms: seq<Mode>, k: nat, next: map<Mode, real>)
    requires ms != [] && IsLongest(ms, k) && OccurrencesIn(ms, k) > 0
    requires forall m :: PredictsAlike(ms, k, next, m)
    ensures IsPrediction(ms, k, next)
  {
    hide IsLongest;
    var n := |ms| - 1;
    forall m
      ensures (m in next <==> Followers(ms, k, m, n) > 0)
              && (m in next ==> next[m] == Followers(ms, k, m, n) as real / Occurrences(ms, k, n) as real)
    {
      assert PredictsAlike(ms, k, next, m);
    }
  }

  predicate PredictsAlike(ms: seq<Mode>, k: nat, next: map<Mode, real>, m: Mode)
    requires ms != [] && OccurrencesIn(ms, k) > 0
  {
    && (m in next <==> FollowersIn(ms, k, m) > 0)
    && (m in next ==> next[m] == FollowersIn(ms, k, m) as real / OccurrencesIn(ms, k) as real)
  }

  lemma AlikeIff(ms: seq<Mode>, k: nat, next: map<Mode, real>, ms': seq<Mode>, l: nat, m: Mode)
    requires ms != [] && ms' != [] && OccurrencesIn(ms, k) > 0 && OccurrencesIn(ms', l) > 0
    requires PredictsAlike(ms, k, next, m)
    ensures InProportion(ms, k, ms', l, m) <==> PredictsAlike(ms', l, next, m)
  {
    var f, o, f', o' := FollowersIn(ms, k, m), OccurrencesIn(ms, k), FollowersIn(ms', l, m), OccurrencesIn(ms', l);
    hide FollowersIn, OccurrencesIn;
    SameRatio(f', o', f, o);
    if f' * o == f * o' { SameSign(f', o', f, o); }
  }

  lemma SameSign(a: nat, b: nat, c: nat, d: nat)
    requires b > 0 && d > 0 && a * d == c * b
    ensures a > 0 <==> c > 0
  {
    Positive(a, d);
    Positive(c, b);
  }

  lemma Positive(x: nat, y: nat)
    requires y > 0
    ensures x > 0 <==> x * y > 0
  {
  }

  lemma SameRatio(a: nat, b: nat, c: nat, d: nat)
    requires b > 0 && d > 0
    ensures a * d == c * b <==> a as real / b as real == c as real / d as real
  {
    var x, y := a as real / b as real, c as real / d as real;
    assert x * b as real == a as real && y * d as real == c as real;
    if x == y {
      assert (a * d) as real == x * b as real * d as real == (c * b) as real;
    }
    if a * d == c * b {
      assert x * b as real * d as real == y * d as real * b as real;
      SameFactor(x, y, b as real * d as real);
    }
  }

  lemma SameFactor(x: real, y: real, z: real)
    requires z != 0.0 && x * z == y * z
    ensures x == y
  {
  }

  /** No occurrence of the last k modes is cut if those before `lower` are dropped. */
  predicate NoneCut(ms: seq<Mode>, k: nat, lower: nat) {
    forall i: nat :: EndsAt(ms, i, k) ==> i + 1 >= lower + k
  }

  /** Dropping modes from the front keeps the prediction if no occurrence of the longest suffix is cut. */
  lemma FrontDropped(ms: seq<Mode>, k: nat, lower: nat)
    requires lower < |ms| && IsLongest(ms, k) && k > 0 && NoneCut(ms, k, lower)
    ensures IsLongest(ms[lower..], k)
    ensures OccurrencesIn(ms[lower..], k) > 0 && SameProportions(ms, k, ms[lower..], k)
  {
    LongestShifted(ms, k, lower);
    hide IsLongest, NoneCut, InProportion, OccurrencesIn;
    forall m ensures InProportion(ms, k, ms[lower..], k, m) { CountsKept(ms, k, m, lower); }
  }

  lemma CountsKept(ms: seq<Mode>, k: nat, m: Mode, lower: nat)
    requires lower < |ms| && k > 0 && NoneCut(ms, k, lower)
    ensures InProportion(ms, k, ms[lower..], k, m)
  {
    hide NoneCut, Followers, Occurrences;
    NoneBefore(ms, k, m, lower, lower);
    CountsShifted(ms, k, m, lower, |ms| - lower - 1);
  }

  lemma LongestShifted(ms: seq<Mode>, k: nat, lower: nat)
    requires lower < |ms| && IsLongest(ms, k) && k > 0 && NoneCut(ms, k, lower)
    ensures IsLongest(ms[lower..], k) && OccurrencesIn(ms[lower..], k) > 0
  {
    hide EndsAt, Followers, Occurrences;
    var ms' := ms[lower..];
    var i :| 0 <= i < |ms| && EndsAt(ms, i, k);
    EndsAtInside(ms, i, k);
    assert i + 1 >= lower + k;
    EndsAtShifted(ms, lower, i - lower, k);
    FollowersPositive(ms', k, i - lower, |ms'| - 1);
    forall i: nat, j: nat | EndsAt(ms', i, j) ensures j <= k { EndsAtShifted(ms, lower, i, j); }
  }

  lemma EndsAtInside(ms: seq<Mode>, i: nat, k: nat)
    requires EndsAt(ms, i, k)
    ensures 1 <= k <= i + 1 < |ms|
  {
  }

  lemma EndsAtShifted(ms: seq<Mode>, lower: nat, i: nat, j: nat)
    requires lower < |ms|
    ensures EndsAt(ms[lower..], i, j) <==> EndsAt(ms, i + lower, j) && i + 1 >= j
  {
    var ms' := ms[lower..];
    if i + 1 < |ms'| && 1 <= j <= i + 1 {
      assert ms'[i + 1 - j..i + 1] == ms[i + lower + 1 - j..i + lower + 1];
      assert ms'[|ms'| - j..] == ms[|ms| - j..];
    }
  }

  lemma {:induction false} NoneBefore(ms: seq<Mode>, k: nat, m: Mode, lower: nat, n: nat)
    requires n <= lower < |ms| && k > 0 && NoneCut(ms, k, lower)
    ensures Followers(ms, k, m, n) == 0 && Occurrences(ms, k, n) == 0
  {
    if n > 0 { NoneBefore(ms, k, m, lower, n - 1); }
  }

  lemma {:induction false} CountsShifted(ms: seq<Mode>, k: nat, m: Mode, lower: nat, n: nat)
    requires lower + n < |ms| && k > 0 && NoneCut(ms, k, lower)
    requires Followers(ms, k, m, lower) == 0 && Occurrences(ms, k, lower) == 0
    ensures Followers(ms[lower..], k, m, n) == Followers(ms, k, m, lower + n)
    ensures Occurrences(ms[lower..], k, n) == Occurrences(ms, k, lower + n)
  {
    hide *;
    CountNone(ms, k, m);
    CountNone(ms[lower..], k, m);
    if n > 0 {
      CountsShifted(ms, k, m, lower, n - 1);
      EndsAtKept(ms, k, lower, n - 1);
      CountStep(ms, k, m, lower + n);
      CountStep(ms[lower..], k, m, n);
    }
  }

  lemma CountNone(ms: seq<Mode>, k: nat, m: Mode)
    ensures Followers(ms, k, m, 0) == 0 && Occurrences(ms, k, 0) == 0
  {
  }

  lemma EndsAtKept(ms: seq<Mode>, k: nat, lower: nat, i: nat)
    requires lower < |ms| && NoneCut(ms, k, lower)
    ensures EndsAt(ms[lower..], i, k) <==> EndsAt(ms, lower + i, k)
  {
    EndsAtShifted(ms, lower, i, k);
  }

  lemma CountStep(ms: seq<Mode>, k: nat, m: Mode, n: nat)
    requires 0 < n < |ms|
    ensures Followers(ms, k, m, n) == Followers(ms, k, m, n - 1) + (if EndsAt(ms, n - 1, k) && ms[n] == m then 1 else 0)
    ensures Occurrences(ms, k, n) == Occurrences(ms, k, n - 1) + (if EndsAt(ms, n - 1, k) then 1 else 0)
  {
    hide EndsAt;
  }

  function Share(a: nat, b: nat): real { if b == 0 then 0.0 else a as real / b as real }

  /** Every trace has a prediction. */
  lemma PredictionExists(ms: seq<Mode>) returns (k: nat, next: map<Mode, real>)
    requires ms != []
    ensures IsPrediction(ms, k, next)
  {
    k := LongestExists(ms);
    next := map m | m in ms && Followers(ms, k, m, |ms| - 1) > 0 ::
      Share(Followers(ms, k, m, |ms| - 1), Occurrences(ms, k, |ms| - 1));
    hide IsLongest;
    forall m | Followers(ms, k, m, |ms| - 1) > 0 ensures m in ms && Occurrences(ms, k, |ms| - 1) > 0 {
      var i := FollowersWitness(ms, k, m, |ms| - 1);
      FollowersPositive(ms, k, i, |ms| - 1);
    }
  }
}
