/** Barriers and the functions on barrier lists that the section's in-place operations implement. */
module Barriers {
  import opened TraceSampleRanges

  /** A running minimum distance and the run of indices over which it was the minimum. */
  datatype Barrier = Barrier(minimumDistance: real, range: Range) {
    predicate IsCollision() { minimumDistance == 0.0 }
  }

  predicate Nonempty(bs: seq<Barrier>) {
    forall i :: 0 <= i < |bs| ==> !bs[i].range.IsEmpty()
  }

  /** The section invariant: distances strictly decrease to a non-negative one, ranges are ordered
      and disjoint. */
  predicate WellFormed(bs: seq<Barrier>) {
    && (forall i :: 0 <= i < |bs| ==> bs[i].range.Proper() && bs[i].minimumDistance >= 0.0)
    && (forall i, j :: 0 <= i < j < |bs| ==> bs[i].minimumDistance > bs[j].minimumDistance)
    && (forall i, j :: 0 <= i < j < |bs| ==> bs[i].range.Max().Before(bs[j].range.initial))
  }

  function Last(bs: seq<Barrier>): Barrier
    requires bs != []
  {
    bs[|bs| - 1]
  }

  predicate ReachesCollision(bs: seq<Barrier>) {
    bs != [] && Last(bs).IsCollision()
  }

  /** Indices must move forward, unless the list ignores them because it ended in a collision. */
  predicate Accepts(bs: seq<Barrier>, index: TraceSampleIndex)
    requires Nonempty(bs)
  {
    bs == [] || ReachesCollision(bs) || Last(bs).range.Max().Before(index)
  }

  /** The list after checking a sample at distance `d`. */
  function Absorbed(bs: seq<Barrier>, d: real, index: TraceSampleIndex): seq<Barrier>
    requires Nonempty(bs) && Accepts(bs, index)
  {
    if ReachesCollision(bs) then bs
    else if bs == [] || d < Last(bs).minimumDistance then bs + [Barrier(d, Range(index, [index.sample]))]
    else bs[|bs| - 1 := Last(bs).(range := Last(bs).range.Extended(index))]
  }

  lemma AbsorbedKeepsWellFormed(bs: seq<Barrier>, d: real, index: TraceSampleIndex)
    requires WellFormed(bs) && Accepts(bs, index) && d >= 0.0
    ensures WellFormed(Absorbed(bs, d, index))
    ensures var bs' := Absorbed(bs, d, index);
            && bs' != []
            && (!ReachesCollision(bs) ==> Last(bs').range.Max().AtMost(index) && Last(bs').minimumDistance <= d)
  {
    if !ReachesCollision(bs) && bs != [] && d >= Last(bs).minimumDistance {
      ExtendedBounds(Last(bs).range, index);
    }
  }

  /** One check: the index visited and the distance found there. */
  datatype Check = Check(index: TraceSampleIndex, distance: real)

  predicate Forward(checks: seq<Check>) {
    && (forall i :: 0 <= i < |checks| ==> checks[i].distance >= 0.0)
    && (forall i, j :: 0 <= i < j < |checks| ==> checks[i].index.Before(checks[j].index))
  }

  /** Distance `d` bounds every check up to `end`. */
  predicate BoundsUpTo(d: real, end: TraceSampleIndex, checks: seq<Check>) {
    forall k :: 0 <= k < |checks| && checks[k].index.AtMost(end) ==> checks[k].distance >= d
  }

  predicate BoundsAll(d: real, checks: seq<Check>) {
    forall k :: 0 <= k < |checks| ==> checks[k].distance >= d
  }

  predicate Attained(b: Barrier, checks: seq<Check>) {
    Check(b.range.initial, b.minimumDistance) in checks
  }

  /** `bs` is the run-length compression of the running minimum of `checks`: every barrier starts at
      a check that attains its distance, that distance bounds every check up to the barrier's end, and
      the last one bounds them all. */
  predicate Compresses(bs: seq<Barrier>, checks: seq<Check>)
    requires Nonempty(bs)
  {
    && (bs == [] <==> checks == [])
    && (forall i :: 0 <= i < |bs| ==> Attained(bs[i], checks))
    && (forall i :: 0 <= i < |bs| ==> BoundsUpTo(bs[i].minimumDistance, bs[i].range.Max(), checks))
    && (bs != [] ==> BoundsAll(Last(bs).minimumDistance, checks))
    && (bs != [] ==> Last(bs).range.Max().AtMost(checks[|checks| - 1].index))
  }

  /** The list after a whole run of checks, from an empty section. */
  function AbsorbedAll(checks: seq<Check>): (bs: seq<Barrier>)
    requires Forward(checks)
    ensures WellFormed(bs) && Compresses(bs, checks)
  {
    if checks == [] then [] else
    var n := |checks| - 1;
    var bs := AbsorbedAll(checks[..n]);
    assert checks[..n] + [checks[n]] == checks;
    AbsorbedStep(bs, checks[..n], checks[n]);
    Absorbed(bs, checks[n].distance, checks[n].index)
  }

  lemma AbsorbedStep(bs: seq<Barrier>, checks: seq<Check>, c: Check)
    requires WellFormed(bs) && Compresses(bs, checks) && Forward(checks + [c])
    ensures Accepts(bs, c.index)
    ensures WellFormed(Absorbed(bs, c.distance, c.index))
    ensures Compresses(Absorbed(bs, c.distance, c.index), checks + [c])
  {
    LaterCheck(bs, checks, c);
    AbsorbedKeepsWellFormed(bs, c.distance, c.index);
    var bs' := Absorbed(bs, c.distance, c.index);
    if !ReachesCollision(bs) && bs != [] && c.distance >= Last(bs).minimumDistance {
      ExtendedBounds(Last(bs).range, c.index);
    }
    forall i | 0 <= i < |bs'|
      ensures Attained(bs'[i], checks + [c])
      ensures BoundsUpTo(bs'[i].minimumDistance, bs'[i].range.Max(), checks + [c])
    {
      if i == |bs'| - 1 {
        BoundsAllStep(bs, checks, c);
      } else {
        assert bs'[i] == bs[i];
        BoundsUpToStep(bs, checks, c, i);
      }
    }
    BoundsAllStep(bs, checks, c);
  }

  lemma LaterCheck(bs: seq<Barrier>, checks: seq<Check>, c: Check)
    requires WellFormed(bs) && Compresses(bs, checks) && Forward(checks + [c])
    ensures c.distance >= 0.0
    ensures forall i :: 0 <= i < |bs| ==> bs[i].range.Max().Before(c.index)
    ensures Accepts(bs, c.index)
  {
    var all := checks + [c];
    assert c == all[|checks|];
    if checks != [] {
      assert all[|checks| - 1].index.Before(all[|checks|].index);
      forall i | 0 <= i < |bs| ensures bs[i].range.Max().Before(c.index) {
        if i < |bs| - 1 { EndsInOrder(bs, i, |bs| - 1); }
      }
    }
  }

  lemma BoundsAllStep(bs: seq<Barrier>, checks: seq<Check>, c: Check)
    requires WellFormed(bs) && Accepts(bs, c.index) && c.distance >= 0.0
    requires bs == [] ==> checks == []
    requires bs != [] ==> BoundsAll(Last(bs).minimumDistance, checks)
    ensures Absorbed(bs, c.distance, c.index) != []
    ensures BoundsAll(Last(Absorbed(bs, c.distance, c.index)).minimumDistance, checks + [c])
  {
  }

  lemma BoundsUpToStep(bs: seq<Barrier>, checks: seq<Check>, c: Check, i: nat)
    requires i < |bs| && !bs[i].range.IsEmpty()
    requires BoundsUpTo(bs[i].minimumDistance, bs[i].range.Max(), checks) && bs[i].range.Max().Before(c.index)
    ensures BoundsUpTo(bs[i].minimumDistance, bs[i].range.Max(), checks + [c])
  {
  }

  lemma EndsInOrder(bs: seq<Barrier>, i: nat, j: nat)
    requires WellFormed(bs) && i < j < |bs|
    ensures bs[i].range.Max().Before(bs[j].range.Max())
  {
    assert bs[i].range.Max().Before(bs[j].range.initial);
  }

  /** The greatest position whose distance exceeds `hh`, or -1: what the binary search must find. */
  predicate IsReuseElement(bs: seq<Barrier>, hh: real, r: int) {
    && -1 <= r < |bs|
    && (forall i :: 0 <= i < |bs| ==> (i <= r <==> bs[i].minimumDistance > hh))
  }

  function ReuseElement(bs: seq<Barrier>, hh: real): (r: int)
    requires WellFormed(bs)
    ensures IsReuseElement(bs, hh, r)
  {
    if bs == [] then -1
    else if Last(bs).minimumDistance > hh then |bs| - 1
    else ReuseElement(bs[..|bs| - 1], hh)
  }

  /** Cuts the list down to trace indices not above `bound`. */
  function Trimmed(bs: seq<Barrier>, bound: nat): seq<Barrier>
    requires Nonempty(bs)
  {
    if bs == [] || Last(bs).range.MaxTrace() <= bound then bs
    else if Last(bs).range.initial.trace <= bound then
      bs[|bs| - 1 := Last(bs).(range := Last(bs).range.TrimmedTo(bound))]
    else Trimmed(bs[..|bs| - 1], bound)
  }

  /** Whether a barrier ended before the new start. */
  predicate Outdated(b: Barrier, start: TraceSampleIndex)
    requires !b.range.IsEmpty()
  {
    b.range.Max().Before(start)
  }

  function WithoutOutdated(bs: seq<Barrier>, start: TraceSampleIndex): seq<Barrier>
    requires Nonempty(bs)
  {
    if bs != [] && Outdated(bs[0], start) then WithoutOutdated(bs[1..], start) else bs
  }

  function Scaled(bs: seq<Barrier>, amount: nat): seq<Barrier> {
    seq(|bs|, i requires 0 <= i < |bs| => bs[i].(range := bs[i].range.ScaledDown(amount)))
  }

  /** The list after a reset at `start`, keeping traces up to `upper`, for a human at most `hh` away. */
  function Reset(bs: seq<Barrier>, hh: real, start: TraceSampleIndex, upper: nat): seq<Barrier>
    requires WellFormed(bs)
  {
    TrimmedFacts(bs, upper);
    var trimmed := Trimmed(bs, upper);
    Scaled(WithoutOutdated(trimmed[..ReuseElement(trimmed, hh) + 1], start), start.trace)
  }

  /** How barrier `t`, cut to trace indices not above `bound`, relates to the barrier it comes from. */
  predicate CutTo(t: Barrier, b: Barrier, bound: nat) {
    && t.range.Proper() && b.range.Proper()
    && t.minimumDistance == b.minimumDistance
    && t.range.initial == b.range.initial
    && t.range.MaxTrace() <= bound
    && t.range.Max().AtMost(b.range.Max())
    && t.range == b.range.TrimmedTo(bound)
  }

  lemma TrimmedToFacts(b: Barrier, bound: nat)
    requires b.range.Proper() && b.range.initial.trace <= bound
    ensures CutTo(b.(range := b.range.TrimmedTo(bound)), b, bound)
  {
  }

  lemma {:induction false} TrimmedFacts(bs: seq<Barrier>, bound: nat)
    requires WellFormed(bs)
    ensures var t := Trimmed(bs, bound);
            && |t| <= |bs|
            && (forall i :: 0 <= i < |t| ==> CutTo(t[i], bs[i], bound))
            && (forall i :: |t| <= i < |bs| ==> bs[i].range.initial.trace > bound)
    ensures WellFormed(Trimmed(bs, bound))
  {
    if bs == [] {
    } else if Last(bs).range.initial.trace > bound {
      hide CutTo;
      TrimmedFacts(bs[..|bs| - 1], bound);
    } else {
      hide CutTo, WellFormed;
      TrimmedLast(bs, bound);
      CutKeepsWellFormed(Trimmed(bs, bound), bs, bound);
    }
  }

  lemma TrimmedLast(bs: seq<Barrier>, bound: nat)
    requires WellFormed(bs) && bs != [] && Last(bs).range.initial.trace <= bound
    ensures |Trimmed(bs, bound)| == |bs|
    ensures forall i :: 0 <= i < |bs| ==> CutTo(Trimmed(bs, bound)[i], bs[i], bound)
  {
    TrimmedToFacts(Last(bs), bound);
    forall i | 0 <= i < |bs| - 1 ensures CutTo(bs[i], bs[i], bound) {
      assert bs[i].range.Max().Before(Last(bs).range.initial);
    }
  }

  lemma CutKeepsWellFormed(t: seq<Barrier>, bs: seq<Barrier>, bound: nat)
    requires WellFormed(bs) && |t| <= |bs| && forall i :: 0 <= i < |t| ==> CutTo(t[i], bs[i], bound)
    ensures WellFormed(t)
  {
    forall i, j | 0 <= i < j < |t|
      ensures t[i].range.Max().Before(t[j].range.initial) && t[i].minimumDistance > t[j].minimumDistance
    {
      assert CutTo(t[i], bs[i], bound) && CutTo(t[j], bs[j], bound);
      assert bs[i].range.Max().Before(bs[j].range.initial);
    }
  }

  lemma {:induction false} WithoutOutdatedFacts(bs: seq<Barrier>, start: TraceSampleIndex) returns (lo: nat)
    requires WellFormed(bs)
    ensures lo <= |bs| && WithoutOutdated(bs, start) == bs[lo..]
    ensures forall i :: 0 <= i < |bs| ==> (i < lo <==> Outdated(bs[i], start))
  {
    if bs != [] && Outdated(bs[0], start) {
      var k := WithoutOutdatedFacts(bs[1..], start);
      lo := k + 1;
      forall i | 0 <= i < |bs| ensures i < lo <==> Outdated(bs[i], start) {
        if i > 0 { assert bs[i] == bs[1..][i - 1]; }
      }
    } else {
      lo := 0;
      forall i | 0 <= i < |bs| ensures !Outdated(bs[i], start) {
        if i > 0 { assert bs[0].range.Max().Before(bs[i].range.initial); }
      }
    }
  }

  /** How one surviving barrier `r` relates to the barrier `b` it comes from. */
  predicate Survives(r: Barrier, b: Barrier, hh: real, start: TraceSampleIndex, upper: nat)
  {
    && r.range.Proper() && b.range.Proper()
    && r.minimumDistance == b.minimumDistance > hh
    && r.range.MaxTrace() + start.trace <= upper
    && r.range.Max().ShiftedUp(start.trace).AtMost(b.range.Max())
    && start.AtMost(r.range.Max().ShiftedUp(start.trace))
    && b.range.initial.AtMost(r.range.initial.ShiftedUp(start.trace))
  }

  lemma ScaledDownFacts(b: Barrier, start: TraceSampleIndex)
    requires b.range.Proper() && !Outdated(b, start)
    ensures var r := b.range.ScaledDown(start.trace);
            && r.Proper()
            && r.Max().ShiftedUp(start.trace) == b.range.Max()
            && b.range.initial.AtMost(r.initial.ShiftedUp(start.trace))
            && (start.trace <= b.range.initial.trace ==> b.range.initial == r.initial.ShiftedUp(start.trace))
  {
  }

  /** What survives a reset: a slice of the old list, every element of it farther than `hh`, ending at
      or after the start, not above the bound, and re-indexed from the start's trace. */
  lemma ResetFacts(bs: seq<Barrier>, hh: real, start: TraceSampleIndex, upper: nat) returns (lo: nat)
    requires WellFormed(bs) && start.trace <= upper
    ensures var rs := Reset(bs, hh, start, upper);
            && WellFormed(rs)
            && lo + |rs| <= |bs|
            && (forall i :: 0 <= i < |rs| ==> Survives(rs[i], bs[lo + i], hh, start, upper))
  {
    hide Trimmed, WithoutOutdated, Scaled, CutTo, Survives, Outdated, IsReuseElement;
    TrimmedFacts(bs, upper);
    var t := Trimmed(bs, upper);
    KeptFar(t, hh);
    var kept := t[..ReuseElement(t, hh) + 1];
    lo := WithoutOutdatedFacts(kept, start);
    var live := kept[lo..];
    hide WellFormed;
    forall i | 0 <= i < |live|
      ensures CutTo(live[i], bs[lo + i], upper) && live[i].minimumDistance > hh && !Outdated(live[i], start)
    {
      assert live[i] == kept[lo + i] == t[lo + i];
    }
    SuffixWellFormed(kept, lo);
    ScaledSurvive(live, bs, lo, hh, start, upper);
  }

  /** Where barrier `b` ends once it is cut to trace indices not above `upper`. */
  function CutEnd(b: Barrier, upper: nat): (end: TraceSampleIndex)
    requires b.range.Proper() && b.range.initial.trace <= upper
    ensures b.range.initial.AtMost(end) && end.AtMost(b.range.Max())
    ensures end.trace <= upper && (b.range.MaxTrace() <= upper ==> end == b.range.Max())
  {
    b.range.TrimmedTo(upper).Max()
  }

  /** Whether a reset keeps barrier `b`: it begins within the bound, it is farther than the human moved, and what
      lies of it within the bound does not end before the new start. */
  predicate Keeps(b: Barrier, hh: real, start: TraceSampleIndex, upper: nat): (k: bool)
    requires b.range.Proper()
    ensures k ==> b.range.initial.trace <= upper
  {
    b.range.initial.trace <= upper && b.minimumDistance > hh && start.AtMost(CutEnd(b, upper))
  }

  lemma CutKeeps(t: Barrier, b: Barrier, hh: real, start: TraceSampleIndex, upper: nat)
    requires CutTo(t, b, upper)
    ensures b.range.initial.trace <= upper && CutEnd(b, upper) == t.range.Max()
    ensures Keeps(b, hh, start, upper) <==> t.minimumDistance > hh && !Outdated(t, start)
  {
  }

  /** A reset keeps these barriers and no others, each up to where it is cut. */
  lemma ResetKeepsExactly(bs: seq<Barrier>, hh: real, start: TraceSampleIndex, upper: nat) returns (lo: nat)
    requires WellFormed(bs) && start.trace <= upper
    ensures var rs := Reset(bs, hh, start, upper);
            && lo + |rs| <= |bs|
            && (forall i :: 0 <= i < |bs| ==> (Keeps(bs[i], hh, start, upper) <==> lo <= i < lo + |rs|))
            && (forall i :: 0 <= i < |rs| ==>
                  && rs[i].range.Proper() && bs[lo + i].range.initial.trace <= upper
                  && rs[i].range.Max().ShiftedUp(start.trace) == CutEnd(bs[lo + i], upper))
  {
    hide Keeps, Reset, WellFormed;
    lo := ResetParts(bs, hh, start, upper);
    var rs := Reset(bs, hh, start, upper);
    forall i | 0 <= i < |rs|
      ensures rs[i].range.Proper() && bs[lo + i].range.initial.trace <= upper
      ensures rs[i].range.Max().ShiftedUp(start.trace) == CutEnd(bs[lo + i], upper)
    {
      var t := Cut(bs[lo + i], upper);
      assert IsPart(rs[i], bs[lo + i], start, upper);
      CutKeeps(t, bs[lo + i], hh, start, upper);
      ScaledDownFacts(t, start);
    }
  }

  function Cut(b: Barrier, upper: nat): Barrier { b.(range := b.range.TrimmedTo(upper)) }

  /** A barrier that a reset keeps is what lies of it within the bound, counted from the trace of the new start. */
  predicate IsPart(r: Barrier, b: Barrier, start: TraceSampleIndex, upper: nat) {
    && CutTo(Cut(b, upper), b, upper) && !Outdated(Cut(b, upper), start)
    && r == Cut(b, upper).(range := Cut(b, upper).range.ScaledDown(start.trace))
  }

  lemma ResetParts(bs: seq<Barrier>, hh: real, start: TraceSampleIndex, upper: nat) returns (lo: nat)
    requires WellFormed(bs)
    ensures var rs := Reset(bs, hh, start, upper);
            && lo + |rs| <= |bs|
            && (forall i :: 0 <= i < |bs| ==> (Keeps(bs[i], hh, start, upper) <==> lo <= i < lo + |rs|))
            && (forall i :: 0 <= i < |rs| ==> IsPart(rs[i], bs[lo + i], start, upper))
  {
    hide Trimmed, WithoutOutdated, CutTo, Keeps, Outdated, IsPart;
    TrimmedFacts(bs, upper);
    var t := Trimmed(bs, upper);
    KeptFar(t, hh);
    var r := ReuseElement(t, hh) + 1;
    var kept := t[..r];
    lo := WithoutOutdatedFacts(kept, start);
    hide WellFormed;
    forall i | 0 <= i < |bs| ensures Keeps(bs[i], hh, start, upper) <==> lo <= i < r {
      if i < |t| {
        CutKeeps(t[i], bs[i], hh, start, upper);
        if i < r { assert kept[i] == t[i]; }
      }
    }
    forall i | lo <= i < r
      ensures IsPart(kept[i].(range := kept[i].range.ScaledDown(start.trace)), bs[i], start, upper)
    {
      assert kept[i] == t[i];
      PartOf(t[i], bs[i], start, upper);
    }
  }

  lemma PartOf(t: Barrier, b: Barrier, start: TraceSampleIndex, upper: nat)
    requires CutTo(t, b, upper) && !Outdated(t, start)
    ensures IsPart(t.(range := t.range.ScaledDown(start.trace)), b, start, upper)
  {
  }

  /** The range covers an index at or after the start, and not beyond the bound. */
  ghost predicate CoversFrom(r: Range, start: TraceSampleIndex, upper: nat) {
    exists x: TraceSampleIndex :: r.Covers(x) && start.AtMost(x) && x.trace <= upper
  }

  lemma KeepsIff(b: Barrier, hh: real, start: TraceSampleIndex, upper: nat)
    requires b.range.Proper()
    ensures Keeps(b, hh, start, upper) <==> b.minimumDistance > hh && CoversFrom(b.range, start, upper)
  {
    if b.range.initial.trace <= upper {
      var end := CutEnd(b, upper);
      assert b.range.Covers(end);
      forall x: TraceSampleIndex | b.range.Covers(x) && x.trace <= upper ensures x.AtMost(end) { }
    }
  }

  /** A reset keeps those barriers that are farther than the human moved and cover something from the new start up to
      the bound. What each then covers is what it covered before, counted from the trace of the new start, and no
      farther than the bound; its distance stays. */
  lemma ResetCovers(bs: seq<Barrier>, hh: real, start: TraceSampleIndex, upper: nat) returns (lo: nat)
    requires WellFormed(bs) && start.trace <= upper
    ensures var rs := Reset(bs, hh, start, upper);
            && lo + |rs| <= |bs|
            && (forall i :: 0 <= i < |bs| ==>
                  (lo <= i < lo + |rs| <==>
                   bs[i].minimumDistance > hh && CoversFrom(bs[i].range, start, upper)))
            && (forall i :: 0 <= i < |rs| ==> SameCoverage(rs[i], bs[lo + i], start.trace, upper))
  {
    hide Reset, Keeps, CutEnd, SameCoverage, IsPart, CoversFrom;
    lo := ResetParts(bs, hh, start, upper);
    var rs := Reset(bs, hh, start, upper);
    forall i | 0 <= i < |bs|
      ensures Keeps(bs[i], hh, start, upper) <==> bs[i].minimumDistance > hh && CoversFrom(bs[i].range, start, upper)
    {
      KeepsIff(bs[i], hh, start, upper);
    }
    forall i | 0 <= i < |rs| ensures SameCoverage(rs[i], bs[lo + i], start.trace, upper) {
      CoverageOf(rs[i], bs[lo + i], start, upper);
    }
  }

  ghost predicate SameCoverage(r: Barrier, b: Barrier, amount: nat, upper: nat) {
    && r.minimumDistance == b.minimumDistance
    && forall x: TraceSampleIndex ::
         r.range.Covers(x) <==> b.range.Covers(x.ShiftedUp(amount)) && x.trace + amount <= upper
  }

  lemma CoverageOf(r: Barrier, b: Barrier, start: TraceSampleIndex, upper: nat)
    requires IsPart(r, b, start, upper)
    ensures SameCoverage(r, b, start.trace, upper)
  {
    forall x: TraceSampleIndex
      ensures r.range.Covers(x) <==> b.range.Covers(x.ShiftedUp(start.trace)) && x.trace + start.trace <= upper
    {
      ScaledDownCovers(b.range.TrimmedTo(upper), start.trace, x);
      TrimmedToCovers(b.range, upper, x.ShiftedUp(start.trace));
    }
  }

  lemma KeptFar(bs: seq<Barrier>, hh: real)
    requires WellFormed(bs)
    ensures -1 <= ReuseElement(bs, hh) < |bs|
    ensures var kept := bs[..ReuseElement(bs, hh) + 1];
            WellFormed(kept) && forall i :: 0 <= i < |kept| ==> kept[i].minimumDistance > hh
  {
  }

  lemma SuffixWellFormed(bs: seq<Barrier>, lo: nat)
    requires WellFormed(bs) && lo <= |bs|
    ensures WellFormed(bs[lo..])
  {
  }

  lemma ScaledSurvive(live: seq<Barrier>, bs: seq<Barrier>, lo: nat, hh: real, start: TraceSampleIndex, upper: nat)
    requires WellFormed(live) && lo + |live| <= |bs| && start.trace <= upper
    requires forall i :: 0 <= i < |live| ==>
               CutTo(live[i], bs[lo + i], upper) && live[i].minimumDistance > hh && !Outdated(live[i], start)
    ensures var rs := Scaled(live, start.trace);
            && WellFormed(rs) && |rs| == |live|
            && (forall i :: 0 <= i < |rs| ==> Survives(rs[i], bs[lo + i], hh, start, upper))
  {
    var rs := Scaled(live, start.trace);
    forall i | 0 <= i < |rs| ensures rs[i].range.Proper() && Survives(rs[i], bs[lo + i], hh, start, upper) {
      ScaledDownFacts(live[i], start);
    }
    forall i, j | 0 <= i < j < |rs|
      ensures rs[i].range.Max().Before(rs[j].range.initial) && rs[i].minimumDistance > rs[j].minimumDistance
    {
      ScaledDownFacts(live[i], start);
      ScaledDownFacts(live[j], start);
      assert live[i].range.Max().Before(live[j].range.initial);
    }
  }
}
