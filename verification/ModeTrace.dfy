/** Traces of modes, updated in place, and the loop that predicts the next modes. */
module ModeTraces {
  import opened Modes
  import opened NextModes

  datatype Entry = Entry(mode: Mode, likelihood: real)

  function ModesOf(es: seq<Entry>): (ms: seq<Mode>)
    ensures |ms| == |es| && forall i :: 0 <= i < |es| ==> ms[i] == es[i].mode
  {
    seq(|es|, i requires 0 <= i < |es| => es[i].mode)
  }

  function Likelihood(es: seq<Entry>): real {
    if es == [] then 1.0 else es[|es| - 1].likelihood
  }

  /** A trace grown by a mode: likelihoods multiply along it. */
  function Continued(es: seq<Entry>, mode: Mode, likelihood: real): seq<Entry> {
    es + [Entry(mode, Likelihood(es) * likelihood)]
  }

  /** The positions below n holding the trace's last mode. */
  function Positions(ms: seq<Mode>, n: nat): (ps: seq<nat>)
    requires n < |ms|
    ensures forall j :: 0 <= j < |ps| ==> ps[j] < n && ms[ps[j]] == ms[|ms| - 1]
  {
    if n == 0 then [] else Positions(ms, n - 1) + (if ms[n - 1] == ms[|ms| - 1] then [n - 1] else [])
  }

  /** A match being extended backwards from an earlier occurrence of the last mode. */
  datatype Backtracking = Backtracking(index: nat, trace: seq<Mode>, nextMode: Mode, isValid: bool)

  /** After r rounds a match from position p holds r + 1 modes if still growing, and otherwise all there are. */
  predicate Follows(ms: seq<Mode>, p: nat, t: Backtracking, r: nat) {
    && EndsAt(ms, p, |t.trace|) && t.nextMode == ms[p + 1]
    && (t.isValid ==> |t.trace| == r + 1 && p == t.index + r)
    && (!t.isValid ==> |t.trace| <= r && !EndsAt(ms, p, |t.trace| + 1))
  }

  predicate FollowAll(ms: seq<Mode>, tracking: seq<Backtracking>, r: nat)
    requires ms != []
  {
    && |tracking| == |Positions(ms, |ms| - 1)|
    && forall j :: 0 <= j < |tracking| ==> Follows(ms, Positions(ms, |ms| - 1)[j], tracking[j], r)
  }

  function CountValid(tracking: seq<Backtracking>): nat {
    if tracking == [] then 0
    else CountValid(tracking[..|tracking| - 1]) + (if tracking[|tracking| - 1].isValid then 1 else 0)
  }

  /** How many matches have exactly k modes, and how many of those are followed by m. */
  function CountSize(tracking: seq<Backtracking>, k: nat): nat {
    if tracking == [] then 0
    else CountSize(tracking[..|tracking| - 1], k) + (if |tracking[|tracking| - 1].trace| == k then 1 else 0)
  }

  function CountNext(tracking: seq<Backtracking>, k: nat, m: Mode): nat {
    if tracking == [] then 0
    else
      var last := tracking[|tracking| - 1];
      CountNext(tracking[..|tracking| - 1], k, m) + (if |last.trace| == k && last.nextMode == m then 1 else 0)
  }

  /** One backwards step of one match, in round r. */
  function Stepped(ms: seq<Mode>, t: Backtracking, r: nat): Backtracking
    requires t.isValid && t.index < |ms| && 1 <= r < |ms|
  {
    if t.index > 0 && ms[t.index - 1] == ms[|ms| - 1 - r]
    then t.(index := t.index - 1, trace := [ms[t.index - 1]] + t.trace)
    else t.(index := if t.index > 0 then t.index - 1 else t.index, isValid := false)
  }

  lemma SteppedFollows(ms: seq<Mode>, p: nat, t: Backtracking, r: nat)
    requires r >= 1 && Follows(ms, p, t, r - 1)
    ensures t.isValid ==> r < |ms|
    ensures Follows(ms, p, if t.isValid then Stepped(ms, t, r) else t, r)
  {
    EndsAtExtends(ms, p, |t.trace|);
  }

  lemma {:induction false} SomeValid(tracking: seq<Backtracking>) returns (j: nat)
    requires CountValid(tracking) > 0
    ensures j < |tracking| && tracking[j].isValid
  {
    if tracking[|tracking| - 1].isValid { j := |tracking| - 1; } else { j := SomeValid(tracking[..|tracking| - 1]); }
  }

  lemma {:induction false} NoneValid(tracking: seq<Backtracking>)
    requires CountValid(tracking) == 0
    ensures forall j :: 0 <= j < |tracking| ==> !tracking[j].isValid
  {
    if tracking != [] { NoneValid(tracking[..|tracking| - 1]); }
  }

  lemma {:induction false} CountValidUpdate(tracking: seq<Backtracking>, j: nat, t: Backtracking)
    requires j < |tracking|
    ensures CountValid(tracking[j := t]) ==
            CountValid(tracking) + (if t.isValid then 1 else 0) - (if tracking[j].isValid then 1 else 0)
  {
    var n := |tracking| - 1;
    if j == n {
      assert tracking[j := t][..n] == tracking[..n];
    } else {
      assert tracking[j := t][..n] == tracking[..n][j := t];
      CountValidUpdate(tracking[..n], j, t);
    }
  }

  /** After the last round, r is the length of the longest suffix, and the matches of that size are exactly
      the positions where it ends. */
  lemma LongestFound(ms: seq<Mode>, tracking: seq<Backtracking>, r: nat)
    requires ms != [] && FollowAll(ms, tracking, r) && CountValid(tracking) == 0
    requires (r > 0 <==> CountSize(tracking, r) > 0) || (r == 0 && tracking == [])
    ensures IsLongest(ms, r)
    ensures r > 0 ==> CountSize(tracking, r) == Occurrences(ms, r, |ms| - 1)
    ensures r > 0 ==> forall m :: CountNext(tracking, r, m) == Followers(ms, r, m, |ms| - 1)
  {
    NoneValid(tracking);
    var n := |ms| - 1;
    forall i: nat, j: nat | EndsAt(ms, i, j) ensures j <= r { MatchBounded(ms, tracking, r, i, j); }
    if r > 0 {
      var j := SomeOfSize(tracking, r);
      assert EndsAt(ms, Positions(ms, n)[j], r);
      SizesMatch(ms, tracking, r);
      forall m ensures CountNext(tracking, r, m) == Followers(ms, r, m, n) { CountsMatch(ms, tracking, r, n, m); }
      CountsMatch(ms, tracking, r, n, NO_MODE);
    }
  }

  lemma {:induction false} SomeOfSize(tracking: seq<Backtracking>, r: nat) returns (j: nat)
    requires CountSize(tracking, r) > 0
    ensures j < |tracking| && |tracking[j].trace| == r
  {
    if |tracking[|tracking| - 1].trace| == r { j := |tracking| - 1; }
    else { j := SomeOfSize(tracking[..|tracking| - 1], r); }
  }

  lemma {:induction false} PositionListed(ms: seq<Mode>, i: nat, n: nat) returns (j: nat)
    requires i < n < |ms| && ms[i] == ms[|ms| - 1]
    ensures j < |Positions(ms, n)| && Positions(ms, n)[j] == i
  {
    if i == n - 1 { j := |Positions(ms, n)| - 1; } else { j := PositionListed(ms, i, n - 1); }
  }

  lemma MatchBounded(ms: seq<Mode>, tracking: seq<Backtracking>, r: nat, i: nat, j: nat)
    requires ms != [] && FollowAll(ms, tracking, r) && EndsAt(ms, i, j)
    requires forall k :: 0 <= k < |tracking| ==> !tracking[k].isValid
    ensures j <= r
  {
    EndsAtShorter(ms, i, j, 1);
    EndsAtOne(ms, i);
    var k := PositionListed(ms, i, |ms| - 1);
    assert Follows(ms, i, tracking[k], r);
    if j > |tracking[k].trace| { EndsAtShorter(ms, i, j, |tracking[k].trace| + 1); }
  }

  /** A finished match has r modes exactly if the last r modes end at its position. */
  lemma SizesMatch(ms: seq<Mode>, tracking: seq<Backtracking>, r: nat)
    requires ms != [] && FollowAll(ms, tracking, r) && r > 0
    requires forall k :: 0 <= k < |tracking| ==> !tracking[k].isValid
    ensures forall k :: 0 <= k < |tracking| ==>
              (|tracking[k].trace| == r <==> EndsAt(ms, Positions(ms, |ms| - 1)[k], r))
  {
    forall k | 0 <= k < |tracking| ensures |tracking[k].trace| == r <==> EndsAt(ms, Positions(ms, |ms| - 1)[k], r) {
      var p := Positions(ms, |ms| - 1)[k];
      assert Follows(ms, p, tracking[k], r);
      if EndsAt(ms, p, r) && |tracking[k].trace| < r { EndsAtShorter(ms, p, r, |tracking[k].trace| + 1); }
    }
  }

  predicate SizedMatches(ms: seq<Mode>, tracking: seq<Backtracking>, r: nat, n: nat)
    requires n < |ms|
  {
    && |tracking| == |Positions(ms, n)|
    && forall k :: 0 <= k < |tracking| ==>
         && (|tracking[k].trace| == r <==> EndsAt(ms, Positions(ms, n)[k], r))
         && tracking[k].nextMode == ms[Positions(ms, n)[k] + 1]
  }

  lemma {:induction false} CountsMatch(ms: seq<Mode>, tracking: seq<Backtracking>, r: nat, n: nat, m: Mode)
    requires n < |ms| && r > 0 && SizedMatches(ms, tracking, r, n)
    ensures CountSize(tracking, r) == Occurrences(ms, r, n)
    ensures CountNext(tracking, r, m) == Followers(ms, r, m, n)
  {
    if n == 0 {
    } else {
      hide SizedMatches, EndsAt, Positions;
      if ms[n - 1] == ms[|ms| - 1] {
        SizedMatchesFront(ms, tracking, r, n);
        CountsMatch(ms, tracking[..|tracking| - 1], r, n - 1, m);
      } else {
        SizedMatchesSkip(ms, tracking, r, n);
        CountsMatch(ms, tracking, r, n - 1, m);
      }
    }
  }

  lemma SizedMatchesSkip(ms: seq<Mode>, tracking: seq<Backtracking>, r: nat, n: nat)
    requires 0 < n < |ms| && r > 0 && SizedMatches(ms, tracking, r, n) && ms[n - 1] != ms[|ms| - 1]
    ensures SizedMatches(ms, tracking, r, n - 1) && !EndsAt(ms, n - 1, r)
  {
    NotEndingThere(ms, n - 1, r);
  }

  lemma SizedMatchesFront(ms: seq<Mode>, tracking: seq<Backtracking>, r: nat, n: nat)
    requires 0 < n < |ms| && SizedMatches(ms, tracking, r, n) && ms[n - 1] == ms[|ms| - 1]
    ensures tracking != [] && SizedMatches(ms, tracking[..|tracking| - 1], r, n - 1)
    ensures var last := tracking[|tracking| - 1];
            (|last.trace| == r <==> EndsAt(ms, n - 1, r)) && last.nextMode == ms[n]
  {
    assert Positions(ms, n) == Positions(ms, n - 1) + [n - 1];
  }

  lemma NotEndingThere(ms: seq<Mode>, i: nat, r: nat)
    requires i + 1 < |ms| && ms[i] != ms[|ms| - 1] && r > 0
    ensures !EndsAt(ms, i, r)
  {
    if EndsAt(ms, i, r) {
      EndsAtShorter(ms, i, r, 1);
      EndsAtOne(ms, i);
    }
  }

  /** While a round is open, the matches still growing at its start are those that reached its size. */
  function CountReaching(tracking: seq<Backtracking>, r: nat): nat {
    if tracking == [] then 0
    else CountReaching(tracking[..|tracking| - 1], r) + (if |tracking[|tracking| - 1].trace| >= r then 1 else 0)
  }

  lemma {:induction false} ReachingAreValid(tracking: seq<Backtracking>, r: nat)
    requires forall j :: 0 <= j < |tracking| ==> (tracking[j].isValid <==> |tracking[j].trace| >= r)
    ensures CountReaching(tracking, r) == CountValid(tracking)
  {
    if tracking != [] { ReachingAreValid(tracking[..|tracking| - 1], r); }
  }

  lemma {:induction false} ReachingAreSized(tracking: seq<Backtracking>, r: nat)
    requires forall j :: 0 <= j < |tracking| ==> |tracking[j].trace| <= r
    ensures CountReaching(tracking, r) == CountSize(tracking, r)
  {
    if tracking != [] { ReachingAreSized(tracking[..|tracking| - 1], r); }
  }

  lemma {:induction false} CountReachingUpdate(tracking: seq<Backtracking>, r: nat, j: nat, t: Backtracking)
    requires j < |tracking| && (|t.trace| >= r <==> |tracking[j].trace| >= r)
    ensures CountReaching(tracking[j := t], r) == CountReaching(tracking, r)
  {
    var n := |tracking| - 1;
    if j == n {
      assert tracking[j := t][..n] == tracking[..n];
    } else {
      assert tracking[j := t][..n] == tracking[..n][j := t];
      CountReachingUpdate(tracking[..n], r, j, t);
    }
  }

  /** Collects the earlier positions of the last mode. */
  method Candidates(ms: seq<Mode>) returns (tracking: seq<Backtracking>)
    requires ms != []
    ensures FollowAll(ms, tracking, 0) && CountValid(tracking) == |tracking|
  {
    tracking := [];
    var i := 0;
    while i < |ms| - 1
      invariant 0 <= i <= |ms| - 1
      invariant |tracking| == |Positions(ms, i)| && CountValid(tracking) == |tracking|
      invariant forall j :: 0 <= j < |tracking| ==> Follows(ms, Positions(ms, i)[j], tracking[j], 0)
    {
      if ms[i] == ms[|ms| - 1] {
        EndsAtOne(ms, i);
        var t := Backtracking(i, [ms[i]], ms[i + 1], true);
        assert (tracking + [t])[..|tracking|] == tracking;
        tracking := tracking + [t];
      }
      i := i + 1;
    }
  }

  /** One match's part of a round. */
  method Step(ms: seq<Mode>, t: Backtracking, r: nat, validBefore: nat) returns (st: Backtracking, numValid: nat)
    requires 1 <= r && (t.isValid ==> r < |ms| && t.index < |ms| && validBefore > 0)
    ensures st == if t.isValid then Stepped(ms, t, r) else t
    ensures numValid == validBefore - (if t.isValid && !st.isValid then 1 else 0)
  {
    st, numValid := t, validBefore;
    if st.isValid {
      if st.index > 0 {
        st := st.(index := st.index - 1);
        if ms[st.index] == ms[|ms| - 1 - r] {
          st := st.(trace := [ms[st.index]] + st.trace);
        } else {
          numValid := numValid - 1;
          st := st.(isValid := false);
        }
      } else {
        numValid := numValid - 1;
        st := st.(isValid := false);
      }
    }
  }

  /** One round: every match still growing is extended by one mode or stops growing. */
  method Round(ms: seq<Mode>, before: seq<Backtracking>, r: nat, validBefore: nat)
    returns (tracking: seq<Backtracking>, numValid: nat)
    requires ms != [] && r >= 1 && FollowAll(ms, before, r - 1) && validBefore == CountValid(before)
    ensures FollowAll(ms, tracking, r) && numValid == CountValid(tracking)
    ensures CountReaching(tracking, r) == validBefore
  {
    hide Follows, Stepped, CountValid, CountReaching, Positions;
    ghost var ps := Positions(ms, |ms| - 1);
    OpenReachingAreValid(ms, before, r);
    tracking, numValid := before, validBefore;
    var j := 0;
    while j < |tracking|
      invariant 0 <= j <= |tracking| == |before|
      invariant forall k :: 0 <= k < j ==> Follows(ms, ps[k], tracking[k], r)
      invariant forall k :: j <= k < |tracking| ==> tracking[k] == before[k]
      invariant numValid == CountValid(tracking) && CountReaching(tracking, r) == validBefore
    {
      StepKeepsCounts(ms, ps[j], tracking, j, r);
      var st;
      st, numValid := Step(ms, tracking[j], r, numValid);
      tracking := tracking[j := st];
      j := j + 1;
    }
  }

  lemma OpenReachingAreValid(ms: seq<Mode>, tracking: seq<Backtracking>, r: nat)
    requires ms != [] && r >= 1 && FollowAll(ms, tracking, r - 1)
    ensures CountReaching(tracking, r) == CountValid(tracking)
  {
    forall j | 0 <= j < |tracking| ensures tracking[j].isValid <==> |tracking[j].trace| >= r {
      assert Follows(ms, Positions(ms, |ms| - 1)[j], tracking[j], r - 1);
    }
    ReachingAreValid(tracking, r);
  }

  lemma StepKeepsCounts(ms: seq<Mode>, p: nat, tracking: seq<Backtracking>, j: nat, r: nat)
    requires r >= 1 && j < |tracking| && Follows(ms, p, tracking[j], r - 1)
    ensures tracking[j].isValid ==> r < |ms| && tracking[j].index < |ms| && CountValid(tracking) > 0
    ensures var st := if tracking[j].isValid then Stepped(ms, tracking[j], r) else tracking[j];
            && Follows(ms, p, st, r)
            && CountValid(tracking[j := st]) ==
               CountValid(tracking) - (if tracking[j].isValid && !st.isValid then 1 else 0)
            && CountReaching(tracking[j := st], r) == CountReaching(tracking, r)
  {
    SteppedFollows(ms, p, tracking[j], r);
    var st := if tracking[j].isValid then Stepped(ms, tracking[j], r) else tracking[j];
    if tracking[j].isValid { ValidCounted(tracking, j); }
    CountValidUpdate(tracking, j, st);
    CountReachingUpdate(tracking, r, j, st);
  }

  lemma {:induction false} ValidCounted(tracking: seq<Backtracking>, j: nat)
    requires j < |tracking| && tracking[j].isValid
    ensures CountValid(tracking) > 0
  {
    if j < |tracking| - 1 { ValidCounted(tracking[..|tracking| - 1], j); }
  }

  /** Runs rounds until no match grows. */
  method Backtrack(ms: seq<Mode>) returns (tracking: seq<Backtracking>, maximumSize: nat, numMaximum: nat)
    requires ms != []
    ensures IsLongest(ms, maximumSize) && numMaximum == CountSize(tracking, maximumSize)
    ensures maximumSize > 0 ==> numMaximum == Occurrences(ms, maximumSize, |ms| - 1) > 0
    ensures maximumSize > 0 ==>
              forall m :: CountNext(tracking, maximumSize, m) == Followers(ms, maximumSize, m, |ms| - 1)
    ensures maximumSize == 0 ==> tracking == []
  {
    tracking := Candidates(ms);
    maximumSize, numMaximum := 0, 0;
    var numValid := |tracking|;
    while numValid > 0
      invariant FollowAll(ms, tracking, maximumSize) && numValid == CountValid(tracking)
      invariant maximumSize == 0 ==> numMaximum == 0 && numValid == |tracking|
      invariant maximumSize > 0 ==> CountReaching(tracking, maximumSize) == numMaximum > 0
      invariant maximumSize < |ms|
      decreases |ms| - maximumSize
    {
      ghost var j := SomeValid(tracking);
      assert Follows(ms, Positions(ms, |ms| - 1)[j], tracking[j], maximumSize);
      maximumSize := maximumSize + 1;
      numMaximum := numValid;
      tracking, numValid := Round(ms, tracking, maximumSize, numValid);
    }
    NoneValid(tracking);
    forall j | 0 <= j < |tracking| ensures |tracking[j].trace| <= maximumSize {
      assert Follows(ms, Positions(ms, |ms| - 1)[j], tracking[j], maximumSize);
    }
    ReachingAreSized(tracking, maximumSize);
    LongestFound(ms, tracking, maximumSize);
  }

  /** Counts the followers of the longest matches, and divides by the number of those matches. */
  method Frequencies(tracking: seq<Backtracking>, size: nat, num: nat) returns (next: map<Mode, real>)
    requires tracking != [] ==> num > 0
    ensures forall m :: m in next <==> CountNext(tracking, size, m) > 0
    ensures forall m :: m in next ==> num > 0 && next[m] == CountNext(tracking, size, m) as real / num as real
  {
    next := map[];
    var i := 0;
    while i < |tracking|
      invariant 0 <= i <= |tracking|
      invariant forall m :: m in next <==> CountNext(tracking[..i], size, m) > 0
      invariant forall m :: m in next ==> next[m] == CountNext(tracking[..i], size, m) as real
    {
      var t := tracking[i];
      assert tracking[..i + 1][..i] == tracking[..i];
      if |t.trace| == size {
        if t.nextMode in next {
          next := next[t.nextMode := next[t.nextMode] + 1.0];
        } else {
          next := next[t.nextMode := 1.0];
        }
      }
      i := i + 1;
    }
    assert tracking[..i] == tracking;
    var todo := next.Keys;
    while todo != {}
      invariant todo <= next.Keys && (todo != {} ==> num > 0)
      invariant forall m :: m in next <==> CountNext(tracking, size, m) > 0
      invariant forall m :: m in next ==>
        num > 0 && next[m] == CountNext(tracking, size, m) as real / (if m in todo then 1.0 else num as real)
      decreases todo
    {
      var m :| m in todo;
      next := next[m := next[m] / num as real];
      todo := todo - {m};
    }
  }

  method PredictNext(ms: seq<Mode>) returns (next: map<Mode, real>, ghost k: nat)
    requires ms != []
    ensures IsPrediction(ms, k, next) && exists l :: IsPrediction(ms, l, next)
  {
    var tracking, maximumSize, numMaximum := Backtrack(ms);
    k := maximumSize;
    next := Frequencies(tracking, maximumSize, numMaximum);
    if k == 0 {
      ghost var n := |ms| - 1;
      forall m ensures Followers(ms, 0, m, n) == 0 { NothingEndsAtZero(ms, m, n); }
    }
    assert IsPrediction(ms, k, next);
  }

  lemma {:induction false} NothingEndsAtZero(ms: seq<Mode>, m: Mode, n: nat)
    requires n < |ms|
    ensures Followers(ms, 0, m, n) == 0
  {
    if n > 0 { NothingEndsAtZero(ms, m, n - 1); }
  }

  class ModeTrace {
    var entries: seq<Entry>
    /** Computed on demand by `NextModes`. */
    var nextModes: map<Mode, real>

    /** The memo is empty or up to date. */
    ghost predicate Fresh()
      reads this
    {
      nextModes == map[] || (entries != [] && exists k :: IsPrediction(ModesOf(entries), k, nextModes))
    }

    constructor ()
      ensures entries == [] && nextModes == map[]
    {
      entries, nextModes := [], map[];
    }

    constructor Of(entries: seq<Entry>)
      ensures this.entries == entries && nextModes == map[]
    {
      this.entries, nextModes := entries, map[];
    }

    method PushFront(mode: Mode)
      modifies this
      ensures entries == [Entry(mode, 1.0)] + old(entries) && nextModes == map[]
    {
      entries := [Entry(mode, 1.0)] + entries;
      nextModes := map[];
    }

    method PushBack(mode: Mode, likelihood: real)
      modifies this
      ensures entries == Continued(old(entries), mode, likelihood) && nextModes == map[]
    {
      entries := entries + [Entry(mode, Likelihood(entries) * likelihood)];
      nextModes := map[];
    }

    /** The first position of a mode, or -1. */
    method ForwardIndex(mode: Mode) returns (i: int)
      ensures -1 <= i < |entries|
      ensures i >= 0 ==> entries[i].mode == mode
      ensures forall j :: 0 <= j < |entries| && (i == -1 || j < i) ==> entries[j].mode != mode
    {
      i := 0;
      while i < |entries|
        invariant 0 <= i <= |entries|
        invariant forall j :: 0 <= j < i ==> entries[j].mode != mode
      {
        if entries[i].mode == mode {
          return;
        }
        i := i + 1;
      }
      i := -1;
    }

    /** The last position of a mode, or -1. */
    method BackwardIndex(mode: Mode) returns (i: int)
      ensures -1 <= i < |entries|
      ensures i >= 0 ==> entries[i].mode == mode
      ensures forall j :: i < j < |entries| ==> entries[j].mode != mode
    {
      i := |entries| - 1;
      while i >= 0
        invariant -1 <= i < |entries|
        invariant forall j :: i < j < |entries| ==> entries[j].mode != mode
        decreases i
      {
        if entries[i].mode == mode {
          return;
        }
        i := i - 1;
      }
    }

    /** Cuts the trace to the positions from lower to upper. The memo is kept as it is, and so it stays up to date
        exactly if the modes that are kept lead to the same prediction. */
    method ReduceBetween(lower: nat, upper: nat)
      requires lower <= upper < |entries|
      modifies this`entries
      ensures entries == old(entries)[lower..upper + 1]
      ensures nextModes == map[] ==> Fresh()
      ensures nextModes != map[] && old(Fresh()) ==>
                (Fresh() <==> KeepsPrediction(ModesOf(old(entries)), ModesOf(entries)))
    {
      ghost var all := entries;
      var newEntries := [];
      var i := lower;
      while i <= upper
        invariant lower <= i <= upper + 1
        invariant newEntries == entries[lower..i]
      {
        newEntries := newEntries + [entries[i]];
        i := i + 1;
      }
      entries := newEntries;
      if nextModes != map[] && old(Fresh()) { MemoKeptIff(ModesOf(all), ModesOf(entries), nextModes); }
    }

    /** Whether the last mode occurs earlier in the trace. */
    method HasLooped() returns (looped: bool)
      ensures looped <==> Looped(ModesOf(entries))
    {
      if |entries| <= 1 {
        return false;
      }
      var i := 0;
      while i < |entries| - 1
        invariant 0 <= i <= |entries| - 1
        invariant forall j :: 0 <= j < i ==> entries[j].mode != entries[|entries| - 1].mode
      {
        if entries[i].mode == entries[|entries| - 1].mode {
          assert ModesOf(entries)[..|entries| - 1][i] == entries[i].mode;
          return true;
        }
        i := i + 1;
      }
      return false;
    }

    method NextModes() returns (next: map<Mode, real>, ghost k: nat)
      requires entries != [] && Fresh()
      modifies this`nextModes
      ensures Fresh() && next == nextModes && IsPrediction(ModesOf(entries), k, next)
    {
      if nextModes == map[] {
        nextModes, k := PredictNext(ModesOf(entries));
      } else {
        k :| IsPrediction(ModesOf(entries), k, nextModes);
      }
      next := nextModes;
    }
  }

  predicate Looped(ms: seq<Mode>) {
    ms != [] && ms[|ms| - 1] in ms[..|ms| - 1]
  }

  /** The last mode of what is kept still occurs earlier there, and the modes that followed its longest suffix
      elsewhere followed that of the whole in the same proportions. */
  ghost predicate KeepsPrediction(ms: seq<Mode>, kept: seq<Mode>)
    requires ms != [] && kept != []
  {
    exists k, l :: IsLongest(ms, k) && IsLongest(kept, l) && OccurrencesIn(kept, l) > 0
                   && SameProportions(ms, k, kept, l)
  }

  lemma MemoKeptIff(ms: seq<Mode>, kept: seq<Mode>, next: map<Mode, real>)
    requires ms != [] && kept != [] && next != map[] && exists k :: IsPrediction(ms, k, next)
    ensures (exists l :: IsPrediction(kept, l, next)) <==> KeepsPrediction(ms, kept)
  {
    hide IsPrediction, SameProportions;
    var k :| IsPrediction(ms, k, next);
    PredictionLongest(ms, k, next);
    forall l | IsLongest(kept, l)
      ensures IsPrediction(kept, l, next) <==> OccurrencesIn(kept, l) > 0 && SameProportions(ms, k, kept, l)
    {
      PredictsSameIff(ms, k, next, kept, l);
    }
    forall l ensures IsPrediction(kept, l, next) ==> IsLongest(kept, l) { PredictionLongest(kept, l, next); }
    forall l | IsLongest(ms, l) ensures l == k { LongestUnique(ms, k, l); }
  }

  lemma PredictionLongest(ms: seq<Mode>, k: nat, next: map<Mode, real>)
    requires ms != []
    ensures IsPrediction(ms, k, next) ==> IsLongest(ms, k)
  {
  }

  lemma LongestUnique(ms: seq<Mode>, k: nat, l: nat)
    requires IsLongest(ms, k) && IsLongest(ms, l)
    ensures k == l
  {
  }

  /** The memo stays up to date if nothing is dropped, or only modes before all occurrences of the longest suffix. */
  lemma FrontReductionKeeps(ms: seq<Mode>, k: nat, lower: nat)
    requires lower < |ms| && IsLongest(ms, k) && k > 0 && NoneCut(ms, k, lower)
    ensures KeepsPrediction(ms, ms[lower..])
  {
    FrontDropped(ms, k, lower);
  }

  /** A run in which the reduction leaves a stale memo: the trace has lost the mode that its memo predicts from. */
  method ReductionStalesMemo(a: Mode, b: Mode) returns (t: ModeTrace)
    requires a != b
    ensures fresh(t) && ModesOf(t.entries) == [a, b] && b in t.nextModes && !t.Fresh()
  {
    t := new ModeTrace();
    t.PushBack(a, 1.0);
    t.PushBack(b, 1.0);
    t.PushBack(a, 1.0);
    assert ModesOf(t.entries) == [a, b, a];
    var next, k := t.NextModes();
    ReturnPredicted(a, b);
    PredictionUnique([a, b, a], k, next, 1, map[b := 1.0]);
    t.ReduceBetween(0, 1);
    assert ModesOf(t.entries) == [a, b] && b in next;
    forall l ensures !IsPrediction([a, b], l, next) { NewModePredictsNothing(a, b, l, next); }
  }

  lemma ReturnPredicted(a: Mode, b: Mode)
    requires a != b
    ensures IsPrediction([a, b, a], 1, map[b := 1.0])
  {
    var ms := [a, b, a];
    EndsAtOne(ms, 0);
    EndsAtOne(ms, 1);
    assert Occurrences(ms, 1, 0) == 0 && Occurrences(ms, 1, 1) == 1 && Occurrences(ms, 1, 2) == 1;
    forall m ensures Followers(ms, 1, m, 2) == if m == b then 1 else 0 {
      assert Followers(ms, 1, m, 0) == 0 && Followers(ms, 1, m, 2) == Followers(ms, 1, m, 1);
    }
  }

  lemma NewModePredictsNothing(a: Mode, b: Mode, k: nat, next: map<Mode, real>)
    requires a != b && next != map[]
    ensures !IsPrediction([a, b], k, next)
  {
    var ms := [a, b];
    assert ms[..1] == [a];
    if IsPrediction(ms, k, next) {
      PredictionNonEmpty(ms, k, next);
    }
  }

  /** Puts the modes of t1 before those of t2; a mode shared at the seam is kept once. */
  method Merge(t1: seq<Entry>, t2: seq<Entry>) returns (result: ModeTrace)
    requires t1 != [] && t2 != []
    ensures fresh(result) && result.Fresh() && ModesOf(result.entries) == Merged(ModesOf(t1), ModesOf(t2))
    ensures Likelihood(result.entries) == Likelihood(t2)
  {
    result := new ModeTrace.Of(t2);
    var i := |t1|;
    if t1[i - 1].mode == t2[0].mode {
      i := i - 1;
    }
    ghost var cut := i;
    while i > 0
      invariant 0 <= i <= cut && fresh(result) && result.nextModes == map[]
      invariant ModesOf(result.entries) == ModesOf(t1)[i..cut] + ModesOf(t2)
      invariant result.entries != [] && Likelihood(result.entries) == Likelihood(t2)
    {
      hide *;
      i := i - 1;
      FrontPushed(result.entries, t1[i].mode);
      FrontTaken(t1, i, cut, ModesOf(t2));
      result.PushFront(t1[i].mode);
    }
    MergedFrom(t1, t2, cut);
  }

  lemma FrontTaken(es: seq<Entry>, i: nat, cut: nat, rest: seq<Mode>)
    requires i < cut <= |es|
    ensures |ModesOf(es)| == |es|
    ensures ModesOf(es)[i..cut] + rest == [es[i].mode] + (ModesOf(es)[i + 1..cut] + rest)
  {
    assert ModesOf(es)[i..cut] == [es[i].mode] + ModesOf(es)[i + 1..cut];
  }

  lemma MergedFrom(t1: seq<Entry>, t2: seq<Entry>, cut: nat)
    requires t1 != [] && t2 != []
    requires cut == if t1[|t1| - 1].mode == t2[0].mode then |t1| - 1 else |t1|
    ensures ModesOf(t1)[0..cut] + ModesOf(t2) == Merged(ModesOf(t1), ModesOf(t2))
  {
  }

  lemma FrontPushed(es: seq<Entry>, mode: Mode)
    requires es != []
    ensures ModesOf([Entry(mode, 1.0)] + es) == [mode] + ModesOf(es)
    ensures Likelihood([Entry(mode, 1.0)] + es) == Likelihood(es)
  {
  }

  function Merged(m1: seq<Mode>, m2: seq<Mode>): seq<Mode>
    requires m1 != [] && m2 != []
  {
    if m1[|m1| - 1] == m2[0] then m1[..|m1| - 1] + m2 else m1 + m2
  }

  /** A merged trace begins with all of the first and ends with all of the second. They share one entry exactly if the
      first ends in the mode the second begins with, and none otherwise. */
  lemma SeamIs(m1: seq<Mode>, m2: seq<Mode>)
    requires m1 != [] && m2 != []
    ensures var r, shared := Merged(m1, m2), if m1[|m1| - 1] == m2[0] then 1 else 0;
            |r| == |m1| + |m2| - shared && r[..|m1|] == m1 && r[|m1| - shared..] == m2
  {
    assert m1 == m1[..|m1| - 1] + [m1[|m1| - 1]];
  }
}
