/** How far ahead, in samples and then in milliseconds, a predicted collision is reported to be. */
module CollisionDistances {

  datatype Interval = Interval(lower: nat, upper: nat) {
    predicate Proper() { lower <= upper }

    predicate Contains(n: int) { lower <= n <= upper }

    function Plus(other: Interval): Interval { Interval(lower + other.lower, upper + other.upper) }
  }

  function Sum(dwells: seq<nat>): nat {
    if dwells == [] then 0 else Sum(dwells[..|dwells| - 1]) + dwells[|dwells| - 1]
  }

  /** Each stay lasts a number of samples within its recorded range. */
  predicate Within(dwells: seq<nat>, ranges: seq<Interval>) {
    |dwells| == |ranges| && forall i :: 0 <= i < |dwells| ==> ranges[i].Contains(dwells[i])
  }

  /** The number of samples until the collision at `index` of the last mode, if the stays before it last as many
      samples as `dwells` says: what remains of the first stay, the stays between, and the index. */
  function TrueDistance(dwells: seq<nat>, sampleIndex: nat, index: nat): int {
    Sum(dwells) + index - sampleIndex
  }

  /** The stays that are possible: within their ranges, and the first not over yet at the sample index. */
  predicate Possible(dwells: seq<nat>, ranges: seq<Interval>, sampleIndex: nat) {
    Within(dwells, ranges) && (dwells != [] ==> sampleIndex <= dwells[0])
  }

  ghost predicate Encloses(between: Interval, ranges: seq<Interval>, sampleIndex: nat, index: nat) {
    forall dwells :: Possible(dwells, ranges, sampleIndex) ==>
      between.Contains(TrueDistance(dwells, sampleIndex, index))
  }

  ghost predicate Attained(n: nat, ranges: seq<Interval>, sampleIndex: nat, index: nat) {
    exists dwells :: Possible(dwells, ranges, sampleIndex) && n == TrueDistance(dwells, sampleIndex, index)
  }

  /** The interval is the tightest that holds every possible distance. */
  ghost predicate Tight(between: Interval, ranges: seq<Interval>, sampleIndex: nat, index: nat) {
    && between.Proper() && Encloses(between, ranges, sampleIndex, index)
    && Attained(between.lower, ranges, sampleIndex, index) && Attained(between.upper, ranges, sampleIndex, index)
  }

  /** `ranges` are those of all the modes before the last, the first being the one look-ahead starts in. No
      subtraction goes below zero. */
  method SamplesBetween(index: nat, sampleIndex: nat, ranges: seq<Interval>) returns (between: Interval)
    requires forall i :: 0 <= i < |ranges| ==> ranges[i].Proper()
    requires if ranges == [] then sampleIndex <= index else sampleIndex <= ranges[0].upper
    ensures Tight(between, ranges, sampleIndex, index)
  {
    between := Interval(index, index);
    if |ranges| == 0 {
      between := Interval(between.lower - sampleIndex, between.upper - sampleIndex);
      NoStay(sampleIndex, index);
      return;
    }
    if sampleIndex > ranges[0].lower {
      between := between.Plus(Interval(0, ranges[0].upper - sampleIndex));
    } else {
      var sum := between.Plus(ranges[0]);
      between := Interval(sum.lower - sampleIndex, sum.upper - sampleIndex);
    }
    FirstStay(ranges[0], sampleIndex, index);
    assert ranges[..1] == [ranges[0]];
    hide Tight;
    var i := 1;
    while i < |ranges|
      invariant 1 <= i <= |ranges| && Tight(between, ranges[..i], sampleIndex, index)
    {
      NextStay(between, ranges, i, sampleIndex, index);
      between := between.Plus(ranges[i]);
      i := i + 1;
    }
    assert ranges[..i] == ranges;
  }

  lemma NoStay(sampleIndex: nat, index: nat)
    requires sampleIndex <= index
    ensures Tight(Interval(index - sampleIndex, index - sampleIndex), [], sampleIndex, index)
  {
    assert Possible([], [], sampleIndex) && TrueDistance([], sampleIndex, index) == index - sampleIndex;
  }

  lemma FirstStay(range: Interval, sampleIndex: nat, index: nat)
    requires range.Proper() && sampleIndex <= range.upper
    ensures var shortest := if sampleIndex > range.lower then sampleIndex else range.lower;
            Tight(Interval(index + shortest - sampleIndex, index + range.upper - sampleIndex), [range], sampleIndex,
                  index)
  {
    var shortest := if sampleIndex > range.lower then sampleIndex else range.lower;
    OneStay(shortest);
    OneStay(range.upper);
    assert Possible([shortest], [range], sampleIndex) && Possible([range.upper], [range], sampleIndex);
    forall dwells | Possible(dwells, [range], sampleIndex)
      ensures var d := TrueDistance(dwells, sampleIndex, index);
              index + shortest - sampleIndex <= d <= index + range.upper - sampleIndex
    {
      OneStay(dwells[0]);
      assert dwells == [dwells[0]];
    }
  }

  lemma OneStay(d: nat)
    ensures Sum([d]) == d
  {
    assert [d][..0] == [];
  }

  lemma NextStay(between: Interval, ranges: seq<Interval>, i: nat, sampleIndex: nat, index: nat)
    requires 0 < i < |ranges| && ranges[i].Proper() && Tight(between, ranges[..i], sampleIndex, index)
    ensures Tight(between.Plus(ranges[i]), ranges[..i + 1], sampleIndex, index)
  {
    forall dwells | Possible(dwells, ranges[..i + 1], sampleIndex)
      ensures between.Plus(ranges[i]).Contains(TrueDistance(dwells, sampleIndex, index))
    {
      FrontWithin(dwells, ranges, i);
      assert Possible(dwells[..i], ranges[..i], sampleIndex);
    }
    NextAttained(between.lower, ranges, i, ranges[i].lower, sampleIndex, index);
    NextAttained(between.upper, ranges, i, ranges[i].upper, sampleIndex, index);
  }

  lemma NextAttained(n: nat, ranges: seq<Interval>, i: nat, d: nat, sampleIndex: nat, index: nat)
    requires 0 < i < |ranges| && ranges[i].Contains(d) && Attained(n, ranges[..i], sampleIndex, index)
    ensures Attained(n + d, ranges[..i + 1], sampleIndex, index)
  {
    var dwells :| Possible(dwells, ranges[..i], sampleIndex) && n == TrueDistance(dwells, sampleIndex, index);
    StayAdded(dwells, ranges, i, d);
    assert Possible(dwells + [d], ranges[..i + 1], sampleIndex);
  }

  lemma FrontWithin(dwells: seq<nat>, ranges: seq<Interval>, i: nat)
    requires i < |ranges| && Within(dwells, ranges[..i + 1])
    ensures Within(dwells[..i], ranges[..i]) && Sum(dwells) == Sum(dwells[..i]) + dwells[i]
    ensures ranges[i].Contains(dwells[i])
  {
    assert dwells[..|dwells| - 1] == dwells[..i];
  }

  lemma StayAdded(dwells: seq<nat>, ranges: seq<Interval>, i: nat, d: nat)
    requires i < |ranges| && Within(dwells, ranges[..i]) && ranges[i].Contains(d)
    ensures Within(dwells + [d], ranges[..i + 1]) && Sum(dwells + [d]) == Sum(dwells) + d
  {
    assert (dwells + [d])[..|dwells|] == dwells;
  }

  /** Samples in milliseconds, rounded to the nearest, halves up. */
  function Milliseconds(samples: nat, frequency: nat): nat
    requires frequency > 0
  {
    (2000 * samples + frequency) / (2 * frequency)
  }

  lemma MillisecondsNearest(samples: nat, frequency: nat)
    requires frequency > 0
    ensures var ms := Milliseconds(samples, frequency);
            2 * frequency * ms <= 2000 * samples + frequency < 2 * frequency * ms + 2 * frequency
  {
    var a, b := 2000 * samples + frequency, 2 * frequency;
    assert a == b * (a / b) + a % b && 0 <= a % b < b;
  }

  lemma FactorMonotone(x: nat, y: nat, b: nat)
    ensures x <= y ==> b * x <= b * y
  {
  }

  lemma QuotientMonotone(a: nat, c: nat, b: nat)
    requires a <= c && b > 0
    ensures a / b <= c / b
  {
    assert a == b * (a / b) + a % b && c == b * (c / b) + c % b;
    FactorMonotone(c / b + 1, a / b, b);
  }

  /** Conversion keeps the order, so that the reported interval is proper and encloses the true distance. */
  lemma MillisecondsMonotone(m: nat, n: nat, frequency: nat)
    requires m <= n && frequency > 0
    ensures Milliseconds(m, frequency) <= Milliseconds(n, frequency)
  {
    QuotientMonotone(2000 * m + frequency, 2000 * n + frequency, 2 * frequency);
  }
}
