/** A section of barriers for one human sample, updated in place. */
module BarrierSections {
  import opened Capsules
  import opened TraceSampleRanges
  import opened Barriers

  /** Records `index` in the range of a barrier; the loop re-reads the maximum trace index it raises. */
  method UpdateWith(b: Barrier, index: TraceSampleIndex) returns (updated: Barrier)
    requires !b.range.IsEmpty() && b.range.Max().Before(index)
    ensures updated == b.(range := b.range.Extended(index))
  {
    var range := new TraceSampleRange.Copy(b.range);
    var maximum := range.MaximumTraceIndex();
    if index.trace > maximum {
      var i := 0;
      while i < index.trace - maximum
        invariant range.Value() == Range(b.range.initial, b.range.bounds + Zeros(i))
        invariant maximum == b.range.MaxTrace() + i
        invariant 2 * i <= index.trace - b.range.MaxTrace() + 1
      {
        range.IncreaseTraceIndex();
        maximum := range.MaximumTraceIndex();
        i := i + 1;
      }
    } else {
      range.Update(index.sample);
    }
    updated := b.(range := range.Value());
  }

  class Section {
    const human: Capsule
    const metric: Metric
    var barriers: seq<Barrier>

    ghost predicate Valid()
      reads this
    {
      WellFormed(barriers)
    }

    constructor (human: Capsule, metric: Metric)
      ensures Valid() && barriers == [] && this.human == human && this.metric == metric
    {
      this.human := human;
      this.metric := metric;
      barriers := [];
    }

    /** Deep copy, as the copies of a sequence make of their sections. */
    constructor Copy(human: Capsule, metric: Metric, barriers: seq<Barrier>)
      ensures this.barriers == barriers && this.human == human && this.metric == metric
    {
      this.human := human;
      this.metric := metric;
      this.barriers := barriers;
    }

    predicate IsEmpty()
      reads this
    {
      barriers == []
    }

    predicate HasCollision()
      reads this
    {
      ReachesCollision(barriers)
    }

    method RemoveLastBarrier()
      requires barriers != []
      modifies this
      ensures barriers == old(barriers)[..|old(barriers)| - 1]
    {
      barriers := barriers[..|barriers| - 1];
    }

    /** Answers whether the robot sample is clear of the section's human, unless a collision was already
        reached, and records the distance as the next element of the running minimum. */
    method CheckAndUpdate(robot: Capsule, index: TraceSampleIndex) returns (clear: bool)
      requires Valid() && Accepts(barriers, index)
      modifies this
      ensures Valid() && barriers == Absorbed(old(barriers), metric.humanRobot(human, robot), index)
      ensures clear <==> !old(HasCollision()) && metric.humanRobot(human, robot) > 0.0
    {
      AbsorbedKeepsWellFormed(barriers, metric.humanRobot(human, robot), index);
      if HasCollision() {
        return false;
      }
      var current := metric.humanRobot(human, robot);
      if IsEmpty() || current < Last(barriers).minimumDistance {
        barriers := barriers + [Barrier(current, Range(index, [index.sample]))];
      } else if current >= Last(barriers).minimumDistance {
        var updated := UpdateWith(Last(barriers), index);
        barriers := barriers[|barriers| - 1 := updated];
      }
      clear := current > 0.0;
    }

    method AreColliding(other: Capsule, robot: Capsule) returns (colliding: bool)
      ensures colliding <==> !(metric.humanRobot(other, robot) > 0.0)
    {
      colliding := metric.humanRobot(other, robot) == 0.0;
    }

    /** Binary search for the last barrier that still holds for another human sample. */
    method FindReuseElement(other: Capsule) returns (result: int)
      requires Valid()
      ensures IsReuseElement(barriers, metric.humanHuman(human, other), result)
    {
      if IsEmpty() {
        return -1;
      }
      var lower, upper := 0, |barriers| - 1;
      if metric.humanHuman(human, other) >= barriers[lower].minimumDistance {
        return -1;
      }
      if metric.humanHuman(human, other) < barriers[upper].minimumDistance {
        return upper;
      }
      result := (upper + lower) / 2;
      while upper > lower + 1
        invariant 0 <= lower < upper < |barriers| && result == (upper + lower) / 2
        invariant barriers[upper].minimumDistance <= metric.humanHuman(human, other) < barriers[lower].minimumDistance
      {
        if metric.humanHuman(human, other) >= barriers[result].minimumDistance {
          upper := result;
        } else {
          lower := result;
        }
        result := (upper + lower) / 2;
      }
    }

    method TrimDownTraceIndexRangesTo(bound: nat)
      requires Nonempty(barriers)
      modifies this
      ensures barriers == Trimmed(old(barriers), bound)
    {
      while !IsEmpty()
        invariant Nonempty(barriers) && Trimmed(barriers, bound) == Trimmed(old(barriers), bound)
        decreases |barriers|
      {
        var last := Last(barriers);
        if last.range.MaxTrace() > bound {
          if last.range.initial.trace <= bound {
            var range := new TraceSampleRange.Copy(last.range);
            range.TrimDownTraceTo(bound);
            barriers := barriers[|barriers| - 1 := last.(range := range.Value())];
            break;
          } else {
            barriers := barriers[..|barriers| - 1];
          }
        } else {
          break;
        }
      }
    }

    method ScaleDownTraceIndexRangesOf(amount: nat)
      requires Nonempty(barriers)
      modifies this
      ensures amount > 0 ==> barriers == Scaled(old(barriers), amount)
      ensures amount == 0 ==> barriers == old(barriers)
    {
      if amount > 0 {
        var i := 0;
        while i < |barriers|
          invariant i <= |barriers| == |old(barriers)|
          invariant barriers == Scaled(old(barriers), amount)[..i] + old(barriers)[i..]
        {
          var range := new TraceSampleRange.Copy(barriers[i].range);
          range.ScaleDownTraceOf(amount);
          barriers := barriers[i := barriers[i].(range := range.Value())];
          i := i + 1;
        }
      }
    }

    /** Keeps the barriers that still hold for `other` from trace `lower`, sample `sample` on, up to
        trace `upper`, and re-indexes them so that `lower` becomes trace 0. */
    method ResetTo(other: Capsule, lower: nat, upper: nat, sample: nat)
      requires Valid() && lower <= upper
      modifies this
      ensures Valid()
      ensures barriers ==
              Reset(old(barriers), metric.humanHuman(human, other), TraceSampleIndex(lower, sample), upper)
    {
      hide Survives, CutTo, Trimmed;
      ghost var start := TraceSampleIndex(lower, sample);
      ghost var hh := metric.humanHuman(human, other);
      ghost var lo := ResetFacts(barriers, hh, start, upper);
      TrimmedFacts(barriers, upper);
      ghost var trimmed := Trimmed(barriers, upper);
      TrimDownTraceIndexRangesTo(upper);
      var reuse := FindReuseElement(other);
      ReuseElementUnique(barriers, hh, reuse);
      if reuse >= 0 {
        while |barriers| - 1 > reuse
          invariant reuse < |barriers| <= |trimmed| && barriers == trimmed[..|barriers|]
          decreases |barriers|
        {
          barriers := barriers[..|barriers| - 1];
        }
        ghost var kept := barriers;
        while !IsEmpty() && (barriers[0].range.MaxTrace() < lower ||
                             (barriers[0].range.MaxTrace() == lower && barriers[0].range.Max().sample < sample))
          invariant Nonempty(barriers)
          invariant WithoutOutdated(barriers, start) == WithoutOutdated(kept, start)
          decreases |barriers|
        {
          barriers := barriers[1..];
        }
        ScaledByZero(barriers);
        ScaleDownTraceIndexRangesOf(lower);
      } else {
        barriers := [];
        assert trimmed[..0] == [];
      }
    }
  }

  lemma ReuseElementUnique(bs: seq<Barrier>, hh: real, r: int)
    requires WellFormed(bs) && IsReuseElement(bs, hh, r)
    ensures r == ReuseElement(bs, hh)
  {
  }

  lemma ScaledByZero(bs: seq<Barrier>)
    requires Nonempty(bs)
    ensures Scaled(bs, 0) == bs
  {
    forall i | 0 <= i < |bs| ensures Scaled(bs, 0)[i] == bs[i] { }
  }
}
