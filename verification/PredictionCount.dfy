/** What a prediction says, counted over the positions of the trace. */
module PredictionCounts {
  import opened Modes
  import opened NextModes

  /** The last k modes end at i too if going back from there and from the end the same k modes are met. */
  lemma EndsAtIs(ms: seq<Mode>, i: nat, k: nat)
    ensures EndsAt(ms, i, k) <==>
            1 <= k <= i + 1 < |ms| && forall p :: i + 1 - k <= p <= i ==> ms[p] == ms[p + (|ms| - 1 - i)]
  {
    if 1 <= k <= i + 1 < |ms| {
      var a, b := ms[i + 1 - k..i + 1], ms[|ms| - k..];
      if EndsAt(ms, i, k) {
        forall p | i + 1 - k <= p <= i ensures ms[p] == ms[p + (|ms| - 1 - i)] {
          assert a[p - (i + 1 - k)] == b[p - (i + 1 - k)];
        }
      }
      if forall p :: i + 1 - k <= p <= i ==> ms[p] == ms[p + (|ms| - 1 - i)] {
        forall e | 0 <= e < k ensures a[e] == b[e] { assert a[e] == ms[i + 1 - k + e]; }
        assert a == b;
      }
    }
  }

  /** The positions, before the last, where the last k modes end too. */
  function EndsOf(ms: seq<Mode>, k: nat): set<nat> {
    set i | 0 <= i < |ms| && EndsAt(ms, i, k)
  }

  lemma {:induction false} OccurrencesAre(ms: seq<Mode>, k: nat, n: nat)
    requires n < |ms| || n == 0
    ensures Occurrences(ms, k, n) == |set i | i in EndsOf(ms, k) && i < n|
  {
    hide EndsAt;
    var at := EndsOf(ms, k);
    if n == 0 {
      assert (set i | i in at && i < 0) == {};
    } else {
      OccurrencesAre(ms, k, n - 1);
      var before := set i | i in at && i < n - 1;
      assert (set i | i in at && i < n) == if n - 1 in at then before + {n - 1} else before;
    }
  }

  function FollowedBy(ms: seq<Mode>, k: nat, m: Mode): (at: set<nat>)
    ensures forall i :: i in at <==> i in EndsOf(ms, k) && i + 1 < |ms| && ms[i + 1] == m
  {
    set i | i in EndsOf(ms, k) && i + 1 < |ms| && ms[i + 1] == m
  }

  lemma {:induction false} FollowersAre(ms: seq<Mode>, k: nat, m: Mode, n: nat)
    requires n < |ms| || n == 0
    ensures Followers(ms, k, m, n) == |set i | i in FollowedBy(ms, k, m) && i < n|
  {
    hide EndsAt, FollowedBy;
    var at := FollowedBy(ms, k, m);
    if n == 0 {
      assert (set i | i in at && i < 0) == {};
    } else {
      FollowersAre(ms, k, m, n - 1);
      var before := set i | i in at && i < n - 1;
      assert (set i | i in at && i < n) == if n - 1 in at then before + {n - 1} else before;
    }
  }

  /** What the prediction says of a mode: it is predicted exactly if it followed somewhere where the last k modes ended,
      and its frequency is the share of those places that it followed at. No longer suffix has such a place. */
  lemma PredictionIs(ms: seq<Mode>, k: nat, next: map<Mode, real>, m: Mode)
    requires ms != [] && IsPrediction(ms, k, next)
    ensures forall i: nat, j: nat :: EndsAt(ms, i, j) ==> j <= k
    ensures k > 0 ==> EndsOf(ms, k) != {}
    ensures m in next <==> FollowedBy(ms, k, m) != {}
    ensures m in next ==>
              && |EndsOf(ms, k)| > 0
              && next[m] == |FollowedBy(ms, k, m)| as real / |EndsOf(ms, k)| as real
  {
    var n := |ms| - 1;
    OccurrencesAre(ms, k, n);
    FollowersAre(ms, k, m, n);
    assert (set i | i in EndsOf(ms, k) && i < n) == EndsOf(ms, k);
    assert (set i | i in FollowedBy(ms, k, m) && i < n) == FollowedBy(ms, k, m);
    if k > 0 {
      var i :| 0 <= i < |ms| && EndsAt(ms, i, k);
      assert i in EndsOf(ms, k);
    }
    hide EndsAt;
  }
}
