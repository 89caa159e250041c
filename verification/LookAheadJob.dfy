/** The look-ahead scan over the samples of the last mode of a prediction, with and without reuse. */
module LookAheadJobs {
  import opened Capsules
  import opened Modes
  import opened TraceSampleRanges
  import opened SectionLists
  import opened BarrierSequences

  /** The samples recorded for one robot segment in one mode; empty ones carry no capsule. */
  type SegmentSamples = seq<Option<Capsule>>

  predicate Hits(intersects: (Capsule, Capsule) -> bool, human: Capsule, sample: Option<Capsule>) {
    sample.Some? && intersects(human, sample.value)
  }

  /** `r` is the first position in [from, to) that is hit, or -1 if there is none. */
  predicate IsEarliest(intersects: (Capsule, Capsule) -> bool, human: Capsule, samples: SegmentSamples, from: nat,
                       to: nat, r: int)
    requires to <= |samples|
  {
    && (r == -1 || from <= r < to)
    && (r >= 0 ==> Hits(intersects, human, samples[r]))
    && (forall i :: from <= i < to && (r == -1 || i < r) ==> !Hits(intersects, human, samples[i]))
  }

  lemma EarliestUnique(intersects: (Capsule, Capsule) -> bool, human: Capsule, samples: SegmentSamples, from: nat,
                       to: nat, r: int, q: int)
    requires to <= |samples|
    requires IsEarliest(intersects, human, samples, from, to, r) && IsEarliest(intersects, human, samples, from, to, q)
    ensures r == q
  {
  }

  /** What of the last mode's samples lies ahead: when it is also the mode the look-ahead started in, from
      the current sample on if it is the only one, else up to the current sample. */
  function AheadFrom(trace: seq<Mode>, bound: nat): nat {
    if |trace| == 1 then bound else 0
  }

  function AheadTo(trace: seq<Mode>, samples: SegmentSamples, bound: nat): (to: nat)
    requires trace != []
    ensures bound < |samples| ==> to <= |samples|
  {
    if |trace| > 1 && trace[|trace| - 1] == trace[0] then bound else |samples|
  }

  class DiscardLookAheadJob {
    const human: Capsule
    const trace: seq<Mode>

    constructor (human: Capsule, trace: seq<Mode>)
      ensures this.human == human && this.trace == trace
    {
      this.human := human;
      this.trace := trace;
    }

    /** `bound` is the history's sample index of the initial time in the starting mode. */
    method EarliestCollisionIndex(intersects: (Capsule, Capsule) -> bool, samples: SegmentSamples, bound: nat)
      returns (r: int)
      requires trace != [] && bound < |samples|
      ensures IsEarliest(intersects, human, samples, AheadFrom(trace, bound), AheadTo(trace, samples, bound), r)
      ensures r == -1 || (0 <= r < |samples| && Hits(intersects, human, samples[r]))
      ensures r >= 0 && |trace| == 1 ==> bound <= r
      ensures r >= 0 && |trace| > 1 && trace[|trace| - 1] == trace[0] ==> r < bound
      ensures forall i | 0 <= i < |samples| && (r == -1 || i < r) && (|trace| == 1 ==> bound <= i) &&
                         (|trace| > 1 && trace[|trace| - 1] == trace[0] ==> i < bound) ::
                !Hits(intersects, human, samples[i])
    {
      var lower, upper := 0, |samples| - 1;
      if trace[|trace| - 1] == trace[0] {
        if |trace| == 1 {
          lower := bound;
        } else {
          if bound == 0 {
            return -1;
          } else {
            upper := bound - 1;
          }
        }
      }
      var i := lower;
      while i <= upper
        invariant lower <= i
        invariant forall k :: lower <= k < i && k <= upper ==> !Hits(intersects, human, samples[k])
      {
        if samples[i].Some? && intersects(human, samples[i].value) {
          return i;
        }
        i := i + 1;
      }
      return -1;
    }
  }

  /** The environment holds exactly the non-empty samples of trace entry t, and nothing beyond it. */
  predicate HoldsLast(env: Environment, t: nat, samples: SegmentSamples) {
    && (forall x :: x in env && x.trace == t ==> x.sample < |samples| && samples[x.sample] == Some(env[x]))
    && (forall i :: 0 <= i < |samples| && samples[i].Some? ==> TraceSampleIndex(t, i) in env)
    && (forall x :: x in env ==> x.trace <= t)
  }

  /** Where the scan of trace entry t picks up. */
  function ScanFrom(secs: seq<SectionValue>, t: nat): TraceSampleIndex
    requires SectionsWellFormed(secs)
  {
    if secs == [] || End(secs).trace != t then TraceSampleIndex(t, 0) else TraceSampleIndex(t, End(secs).sample + 1)
  }

  /** Every visited sample is at a positive distance from the human. */
  predicate VisitedSafe(m: Metric, env: Environment, start: TraceSampleIndex, next: TraceSampleIndex, human: Capsule) {
    forall x :: x in env && start.AtMost(x) && x.Before(next) ==> m.humanRobot(human, env[x]) > 0.0
  }

  /** What a reuse job relies on: everything before `next` was visited, found clear of the job's human, and
      is accounted for in the sections. */
  predicate Ready(m: Metric, secs: seq<SectionValue>, env: Environment, start: TraceSampleIndex, next: TraceSampleIndex,
                  human: Capsule)
  {
    && Tracks(m, secs, env, start, next)
    && VisitedSafe(m, env, start, next, human)
    && !Collided(secs, human)
  }

  /** The direct collision test and the metric agree. */
  predicate Agree(m: Metric, intersects: (Capsule, Capsule) -> bool, human: Capsule, env: Environment) {
    forall x :: x in env ==> (intersects(human, env[x]) <==> !(m.humanRobot(human, env[x]) > 0.0))
  }

  class ReuseLookAheadJob {
    const human: Capsule
    const trace: seq<Mode>
    const barrierSequence: BarrierSequence

    constructor (human: Capsule, trace: seq<Mode>, barrierSequence: BarrierSequence)
      ensures this.human == human && this.trace == trace && this.barrierSequence == barrierSequence
    {
      this.human := human;
      this.trace := trace;
      this.barrierSequence := barrierSequence;
    }

    /** Returns what the scan without reuse returns, although it starts after the recorded barriers; and
        leaves the barriers ready for the scan of the next mode, or for a reset. */
    method EarliestCollisionIndex(samples: SegmentSamples, bound: nat, ghost intersects: (Capsule, Capsule) -> bool,
                                  ghost env: Environment, ghost start: TraceSampleIndex)
      returns (r: int, ghost next: TraceSampleIndex)
      requires trace != [] && bound < |samples| && barrierSequence.Valid()
      requires HoldsLast(env, |trace| - 1, samples) && start.trace == 0 && (|trace| == 1 ==> start.sample == bound)
      requires Agree(barrierSequence.metric, intersects, human, env)
      requires Ready(barrierSequence.metric, barrierSequence.Value(), env, start,
                     ScanFrom(barrierSequence.Value(), |trace| - 1), human)
      modifies barrierSequence`sections, barrierSequence.sections
      ensures barrierSequence.Valid()
      ensures IsEarliest(intersects, human, samples, AheadFrom(trace, bound), AheadTo(trace, samples, bound), r)
      ensures r == -1 || (0 <= r < |samples| && Hits(intersects, human, samples[r]))
      ensures r >= 0 && |trace| == 1 ==> bound <= r
      ensures r >= 0 && |trace| > 1 && trace[|trace| - 1] == trace[0] ==> r < bound
      ensures forall i | 0 <= i < |samples| && (r == -1 || i < r) && (|trace| == 1 ==> bound <= i) &&
                         (|trace| > 1 && trace[|trace| - 1] == trace[0] ==> i < bound) ::
                !Hits(intersects, human, samples[i])
      ensures Tracks(barrierSequence.metric, barrierSequence.Value(), env, start, next)
      ensures r == -1 ==> Ready(barrierSequence.metric, barrierSequence.Value(), env, start, next, human)
      ensures r == -1 && AheadTo(trace, samples, bound) == |samples| ==> next == TraceSampleIndex(|trace|, 0)
    {
      var t := |trace| - 1;
      ghost var m := barrierSequence.metric;
      next := ScanFrom(barrierSequence.Value(), t);
      var lower := LowerBound();
      var upper := |samples| - 1;
      if trace[t] == trace[0] {
        if |trace| == 1 {
          lower := if lower < bound then bound else lower;
        } else {
          if bound == 0 {
            return -1, next;
          } else {
            upper := bound - 1;
          }
        }
      }
      StartAt(m, barrierSequence.Value(), env, start, next, TraceSampleIndex(t, lower), human);
      SkippedNotHit(m, intersects, human, env, start, samples, t, AheadFrom(trace, bound), lower);
      r, next := Scan(samples, lower, upper, intersects, env, start);
      if r == -1 && upper == |samples| - 1 {
        NextTrace(m, barrierSequence.Value(), env, start, t, next.sample, samples, human);
        next := TraceSampleIndex(t + 1, 0);
      }
    }

    /** The first sample the recorded barriers do not cover. */
    method LowerBound() returns (lower: nat)
      requires trace != [] && barrierSequence.Valid()
      ensures TraceSampleIndex(|trace| - 1, lower) == ScanFrom(barrierSequence.Value(), |trace| - 1)
    {
      var lastTrace := barrierSequence.LastUpperTraceIndex();
      if barrierSequence.IsEmpty() || lastTrace != |trace| - 1 {
        return 0;
      }
      var last := barrierSequence.LastBarrier();
      lower := last.range.Max().sample + 1;
    }

    method Scan(samples: SegmentSamples, lower: nat, upper: nat, ghost intersects: (Capsule, Capsule) -> bool,
                ghost env: Environment, ghost start: TraceSampleIndex)
      returns (r: int, ghost next: TraceSampleIndex)
      requires trace != [] && upper < |samples| && barrierSequence.Valid()
      requires HoldsLast(env, |trace| - 1, samples) && start.AtMost(TraceSampleIndex(|trace| - 1, lower))
      requires Agree(barrierSequence.metric, intersects, human, env)
      requires Ready(barrierSequence.metric, barrierSequence.Value(), env, start, TraceSampleIndex(|trace| - 1, lower),
                     human)
      modifies barrierSequence`sections, barrierSequence.sections
      ensures barrierSequence.Valid()
      ensures r == -1 || lower <= r <= upper
      ensures r >= 0 ==> Hits(intersects, human, samples[r])
      ensures forall k :: lower <= k <= upper && (r == -1 || k < r) ==> !Hits(intersects, human, samples[k])
      ensures Tracks(barrierSequence.metric, barrierSequence.Value(), env, start, next)
      ensures r == -1 ==> Ready(barrierSequence.metric, barrierSequence.Value(), env, start, next, human)
      ensures r == -1 ==> next.trace == |trace| - 1 && next.sample > upper
    {
      var i := lower;
      while i <= upper
        invariant lower <= i && barrierSequence.Valid()
        invariant forall k :: 0 <= k < |barrierSequence.sections| ==>
          barrierSequence.sections[k] in old(barrierSequence.sections) || fresh(barrierSequence.sections[k])
        invariant Ready(barrierSequence.metric, barrierSequence.Value(), env, start, TraceSampleIndex(|trace| - 1, i),
                        human)
        invariant forall k :: lower <= k < i && k <= upper ==> !Hits(intersects, human, samples[k])
      {
        var clear := ScanSample(samples, i, intersects, env, start);
        if !clear {
          return i, TraceSampleIndex(|trace| - 1, i + 1);
        }
        i := i + 1;
      }
      return -1, TraceSampleIndex(|trace| - 1, i);
    }

    /** One round of the scan: passes over an empty sample, else checks it and records it. */
    method ScanSample(samples: SegmentSamples, i: nat, ghost intersects: (Capsule, Capsule) -> bool,
                      ghost env: Environment, ghost start: TraceSampleIndex)
      returns (clear: bool)
      requires trace != [] && i < |samples| && barrierSequence.Valid()
      requires HoldsLast(env, |trace| - 1, samples) && start.AtMost(TraceSampleIndex(|trace| - 1, i))
      requires Agree(barrierSequence.metric, intersects, human, env)
      requires Ready(barrierSequence.metric, barrierSequence.Value(), env, start, TraceSampleIndex(|trace| - 1, i),
                     human)
      modifies barrierSequence`sections, barrierSequence.sections
      ensures barrierSequence.Valid()
      ensures forall k :: 0 <= k < |barrierSequence.sections| ==>
          barrierSequence.sections[k] in old(barrierSequence.sections) || fresh(barrierSequence.sections[k])
      ensures clear <==> !Hits(intersects, human, samples[i])
      ensures Tracks(barrierSequence.metric, barrierSequence.Value(), env, start, TraceSampleIndex(|trace| - 1, i + 1))
      ensures clear ==> Ready(barrierSequence.metric, barrierSequence.Value(), env, start,
                              TraceSampleIndex(|trace| - 1, i + 1), human)
    {
      ghost var m := barrierSequence.metric;
      var index := TraceSampleIndex(|trace| - 1, i);
      clear := true;
      if samples[i].Some? {
        assert index in env && samples[index.sample] == Some(env[index]);
        StepReady(barrierSequence.policy, m, barrierSequence.Value(), env, start, index, human);
        clear := barrierSequence.CheckAndUpdate(human, samples[i].value, index);
      } else {
        assert index !in env;
        SkipReady(m, barrierSequence.Value(), env, start, index, human);
      }
    }
  }

  /** A scan that went through all the samples of an entry is ready for the next entry. */
  lemma NextTrace(m: Metric, secs: seq<SectionValue>, env: Environment, start: TraceSampleIndex, t: nat, i: nat,
                  samples: SegmentSamples, human: Capsule)
    requires Ready(m, secs, env, start, TraceSampleIndex(t, i), human)
    requires HoldsLast(env, t, samples) && i >= |samples|
    ensures Ready(m, secs, env, start, TraceSampleIndex(t + 1, 0), human)
  {
    TracksFrom(m, secs, env, start, TraceSampleIndex(t, i), TraceSampleIndex(t + 1, 0));
  }

  lemma StartAt(m: Metric, secs: seq<SectionValue>, env: Environment, start: TraceSampleIndex, next: TraceSampleIndex,
                index: TraceSampleIndex, human: Capsule)
    requires Ready(m, secs, env, start, next, human)
    requires next == index || (next.Before(index) && index == start)
    ensures Ready(m, secs, env, start, index, human)
  {
    TracksFrom(m, secs, env, start, next, index);
  }

  lemma SkippedNotHit(m: Metric, intersects: (Capsule, Capsule) -> bool, human: Capsule, env: Environment,
                      start: TraceSampleIndex, samples: SegmentSamples, t: nat, from: nat, to: nat)
    requires HoldsLast(env, t, samples) && Agree(m, intersects, human, env)
    requires VisitedSafe(m, env, start, TraceSampleIndex(t, to), human) && start.AtMost(TraceSampleIndex(t, from))
    ensures forall i :: from <= i < to && i < |samples| ==> !Hits(intersects, human, samples[i])
  {
    forall i | from <= i < to && i < |samples| ensures !Hits(intersects, human, samples[i]) {
      if samples[i].Some? {
        var x := TraceSampleIndex(t, i);
        assert x in env && samples[x.sample] == Some(env[x]);
      }
    }
  }

  /** One step of the scan. */
  lemma StepReady(policy: UpdatePolicy, m: Metric, secs: seq<SectionValue>, env: Environment, start: TraceSampleIndex,
                  index: TraceSampleIndex, human: Capsule)
    requires Ready(m, secs, env, start, index, human) && start.AtMost(index)
    requires index in env
    ensures SectionsAccept(secs, index)
    ensures var secs' := SectionsChecked(policy, m, secs, human, env[index], index);
            && Tracks(m, secs', env, start, Successor(index))
            && (m.humanRobot(human, env[index]) > 0.0 ==> Ready(m, secs', env, start, Successor(index), human))
  {
    CheckKeepsTracking(policy, m, secs, env, start, index, human, index);
    var secs' := SectionsChecked(policy, m, secs, human, env[index], index);
    if m.humanRobot(human, env[index]) > 0.0 {
      StaysUncollided(policy, m, secs, human, env[index], index);
    }
  }

  lemma StaysUncollided(policy: UpdatePolicy, m: Metric, secs: seq<SectionValue>, human: Capsule, robot: Capsule,
                        index: TraceSampleIndex)
    requires SectionsWellFormed(secs) && SectionsAccept(secs, index) && !Collided(secs, human)
    requires m.humanRobot(human, robot) > 0.0
    ensures !Collided(SectionsChecked(policy, m, secs, human, robot, index), human)
  {
  }

  /** An empty sample is passed over. */
  lemma SkipReady(m: Metric, secs: seq<SectionValue>, env: Environment, start: TraceSampleIndex,
                  index: TraceSampleIndex, human: Capsule)
    requires Ready(m, secs, env, start, index, human) && index !in env
    ensures Ready(m, secs, env, start, Successor(index), human)
  {
    TracksFrom(m, secs, env, start, index, Successor(index));
  }
}
