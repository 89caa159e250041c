/** Ranges of (trace, sample) indices, the run lengths a barrier is made of. */
module TraceSampleRanges {

  datatype TraceSampleIndex = TraceSampleIndex(trace: nat, sample: nat) {
    /** Strict order in which a look-ahead visits the samples: trace first, then sample. */
    predicate Before(other: TraceSampleIndex) {
      trace < other.trace || (trace == other.trace && sample < other.sample)
    }

    predicate AtMost(other: TraceSampleIndex) {
      this == other || Before(other)
    }

    function ShiftedUp(amount: nat): TraceSampleIndex {
      TraceSampleIndex(trace + amount, sample)
    }
  }

  /** The value of a range: entry k of `bounds` is the greatest sample index held for trace
      `initial.trace + k`. */
  datatype Range = Range(initial: TraceSampleIndex, bounds: seq<nat>) {
    predicate IsEmpty() { bounds == [] }

    function MaxTrace(): nat
      requires !IsEmpty()
    {
      initial.trace + |bounds| - 1
    }

    function Max(): TraceSampleIndex
      requires !IsEmpty()
    {
      TraceSampleIndex(MaxTrace(), bounds[|bounds| - 1])
    }

    /** Non-empty, and ending its first trace no earlier than it started. */
    predicate Proper() {
      !IsEmpty() && initial.sample <= bounds[0]
    }

    /** The indices the range stands for. */
    predicate Covers(i: TraceSampleIndex) {
      && initial.trace <= i.trace < initial.trace + |bounds|
      && i.sample <= bounds[i.trace - initial.trace]
      && (i.trace == initial.trace ==> initial.sample <= i.sample)
    }

    function ScaledDown(amount: nat): Range {
      if initial.trace + |bounds| <= amount then Range(TraceSampleIndex(0, 0), [])
      else if initial.trace < amount then Range(TraceSampleIndex(0, 0), bounds[amount - initial.trace..])
      else Range(TraceSampleIndex(initial.trace - amount, initial.sample), bounds)
    }

    function TrimmedTo(bound: nat): Range {
      if initial.trace + |bounds| <= bound + 1 then this
      else if bound < initial.trace then Range(initial, [])
      else Range(initial, bounds[..bound - initial.trace + 1])
    }

    /** What recording `index` makes of the range. A step of `gap` traces pushes only
        (gap + 1) / 2 zeros, because the loop that pushes them re-reads its own bound. */
    function Extended(index: TraceSampleIndex): Range
      requires !IsEmpty() && Max().Before(index)
    {
      if index.trace > MaxTrace() then Range(initial, bounds + Zeros((index.trace - MaxTrace() + 1) / 2))
      else Range(initial, bounds[|bounds| - 1 := index.sample])
    }
  }

  function Zeros(n: nat): seq<nat> { seq(n, _ => 0) }

  /** Scaling renames the covered indices and loses none of those that stay non-negative. */
  lemma ScaledDownCovers(r: Range, amount: nat, i: TraceSampleIndex)
    ensures r.ScaledDown(amount).Covers(i) <==>
            r.Covers(i.ShiftedUp(amount))
  {
  }

  lemma TrimmedToCovers(r: Range, bound: nat, i: TraceSampleIndex)
    ensures r.TrimmedTo(bound).Covers(i) <==> r.Covers(i) && i.trace <= bound
  {
  }

  /** Recording an index keeps what was covered, moves the end forward, and never lets the recorded
      end overtake the index that was checked; with adjacent indices it reaches its trace. */
  lemma ExtendedBounds(r: Range, index: TraceSampleIndex)
    requires !r.IsEmpty() && r.Max().Before(index)
    ensures var e := r.Extended(index);
            && !e.IsEmpty() && e.initial == r.initial
            && r.Max().Before(e.Max()) && e.Max().AtMost(index)
            && (index.trace == r.MaxTrace() ==> e.Max() == index)
            && (index.trace == r.MaxTrace() + 1 ==> e.Max() == TraceSampleIndex(index.trace, 0))
    ensures forall i: TraceSampleIndex :: r.Covers(i) ==> r.Extended(index).Covers(i)
  {
  }

  /** A gap of two traces or more is not bridged in one step: the end stays short of the index. */
  lemma ExtendedReachesTraceIff(r: Range, index: TraceSampleIndex)
    requires !r.IsEmpty() && r.Max().Before(index)
    ensures r.Extended(index).MaxTrace() == index.trace <==> index.trace <= r.MaxTrace() + 1
  {
  }

  class TraceSampleRange {
    var initial: TraceSampleIndex
    var upperBounds: seq<nat>

    function Value(): Range
      reads this
    {
      Range(initial, upperBounds)
    }

    constructor (initial: TraceSampleIndex)
      ensures Value() == Range(initial, [initial.sample])
    {
      this.initial := initial;
      upperBounds := [initial.sample];
    }

    /** Copy construction. */
    constructor Copy(r: Range)
      ensures Value() == r
    {
      initial := r.initial;
      upperBounds := r.bounds;
    }

    method IncreaseTraceIndex()
      modifies this
      ensures Value() == Range(old(initial), old(upperBounds) + [0])
    {
      upperBounds := upperBounds + [0];
    }

    method Update(sample: nat)
      requires upperBounds != [] && sample > upperBounds[|upperBounds| - 1]
      modifies this
      ensures Value() == Range(old(initial), old(upperBounds)[|old(upperBounds)| - 1 := sample])
    {
      upperBounds := upperBounds[|upperBounds| - 1 := sample];
    }

    method MaximumTraceIndex() returns (t: nat)
      requires upperBounds != []
      ensures t == Value().MaxTrace()
    {
      t := initial.trace + |upperBounds| - 1;
    }

    method ScaleDownTraceOf(amount: nat)
      requires upperBounds != []
      modifies this
      ensures Value() == old(Value()).ScaledDown(amount)
    {
      var maximum := MaximumTraceIndex();
      if maximum < amount {
        upperBounds := [];
        initial := TraceSampleIndex(0, 0);
      } else if initial.trace < amount {
        var i := 0;
        while i < amount - initial.trace
          invariant 0 <= i <= amount - initial.trace
          invariant initial == old(initial) && upperBounds == old(upperBounds)[i..]
        {
          upperBounds := upperBounds[1..];
          i := i + 1;
        }
        initial := TraceSampleIndex(0, 0);
      } else {
        initial := TraceSampleIndex(initial.trace - amount, initial.sample);
      }
    }

    method TrimDownTraceTo(indexBound: nat)
      modifies this
      ensures Value() == old(Value()).TrimmedTo(indexBound)
    {
      while upperBounds != [] && initial.trace + |upperBounds| - 1 > indexBound
        invariant initial == old(initial)
        invariant |upperBounds| <= |old(upperBounds)| && upperBounds == old(upperBounds)[..|upperBounds|]
        invariant |upperBounds| < |old(upperBounds)| ==> initial.trace + |upperBounds| > indexBound
        decreases |upperBounds|
      {
        upperBounds := upperBounds[..|upperBounds| - 1];
      }
    }
  }
}
