/** The barrier sequence object: a list of section objects updated in place under one of three policies. */
module BarrierSequences {
  import opened Capsules
  import opened TraceSampleRanges
  import opened Barriers
  import opened BarrierSections
  import opened SectionLists
  import opened SectionResets

  class BarrierSequence {
    const metric: Metric
    const policy: UpdatePolicy
    var sections: seq<Section>

    /** The section objects are the sequence's own, one for each position. */
    ghost predicate Owns()
      reads this
    {
      && (forall i :: 0 <= i < |sections| ==> sections[i].metric == metric)
      && (forall i, j :: 0 <= i < j < |sections| ==> sections[i] != sections[j])
    }

    ghost predicate Valid()
      reads this, sections
    {
      Owns() && SectionsWellFormed(Value())
    }

    function Value(): (secs: seq<SectionValue>)
      reads this, sections
      ensures |secs| == |sections|
    {
      ValueOf(sections)
    }

    static function ValueOf(sections: seq<Section>): (secs: seq<SectionValue>)
      reads sections
      ensures |secs| == |sections|
    {
      seq(|sections|, i requires 0 <= i < |sections| reads sections =>
        SectionValue(sections[i].human, sections[i].barriers))
    }

    constructor (metric: Metric, policy: UpdatePolicy)
      ensures Valid() && Value() == [] && this.metric == metric && this.policy == policy && fresh(sections)
    {
      this.metric := metric;
      this.policy := policy;
      sections := [];
    }

    /** Deep copy: the sections of the copy are new objects. */
    constructor Copy(metric: Metric, policy: UpdatePolicy, secs: seq<SectionValue>)
      requires SectionsWellFormed(secs)
      ensures Valid() && Value() == secs && this.metric == metric && this.policy == policy && fresh(sections)
    {
      this.metric := metric;
      this.policy := policy;
      sections := [];
      new;
      var i := 0;
      while i < |secs|
        invariant i == |sections| <= |secs|
        invariant fresh(sections)
        invariant forall k :: 0 <= k < i ==> sections[k].metric == metric
        invariant forall j, k :: 0 <= j < k < i ==> sections[j] != sections[k]
        invariant forall k :: 0 <= k < i ==> SectionValue(sections[k].human, sections[k].barriers) == secs[k]
      {
        var section := new Section.Copy(secs[i].human, metric, secs[i].barriers);
        sections := sections + [section];
        i := i + 1;
      }
      assert Value() == secs;
    }

    predicate IsEmpty()
      reads this
    {
      sections == []
    }

    method LastBarrier() returns (b: Barrier)
      requires Valid() && sections != []
      ensures b == Last(LastSection(Value()).barriers) && b.range.Proper()
    {
      assert Value()[|sections| - 1].barriers == sections[|sections| - 1].barriers;
      b := Last(sections[|sections| - 1].barriers);
    }

    method LastUpperTraceIndex() returns (t: nat)
      requires Valid()
      ensures t == if sections == [] then 0 else End(Value()).trace
    {
      if sections == [] {
        return 0;
      }
      var last := LastBarrier();
      t := last.range.MaxTrace();
    }

    method AddFrom(human: Capsule)
      requires Owns()
      modifies this`sections
      ensures Owns() && |sections| == |old(sections)| + 1 && sections[..|old(sections)|] == old(sections)
      ensures fresh(sections[|old(sections)|])
      ensures Value() == old(Value()) + [SectionValue(human, [])]
    {
      var section := new Section(human, metric);
      sections := sections + [section];
    }

    /** The last section's own check: the verdict for the section's human. */
    method UpdateLast(robot: Capsule, index: TraceSampleIndex) returns (clear: bool)
      requires Owns() && sections != []
      requires WellFormed(LastSection(Value()).barriers) && Accepts(LastSection(Value()).barriers, index)
      modifies sections[|sections| - 1]
      ensures Owns()
      ensures Value() == ReplaceLast(old(Value()), LastSection(old(Value())).Checked(metric, robot, index))
      ensures clear <==> !ReachesCollision(LastSection(old(Value())).barriers) &&
                         metric.humanRobot(LastSection(old(Value())).human, robot) > 0.0
    {
      var last := sections[|sections| - 1];
      clear := last.CheckAndUpdate(robot, index);
    }

    /** The section objects stay, but for one that may be new at the end. */
    static predicate AddsAtMostOne(before: seq<Section>, after: seq<Section>) {
      after == before || (|after| == |before| + 1 && after[..|before|] == before)
    }

    /** What the sections are while a human without a section is being given one. */
    ghost function Started(secs: seq<SectionValue>, human: Capsule): seq<SectionValue> {
      if secs == [] then [SectionValue(human, [])] else secs
    }

    predicate SameHuman(human: Capsule)
      requires sections != []
      reads this, sections
    {
      sections[|sections| - 1].human == human
    }

    /** Keep one section: another human's verdict is computed aside. */
    method CheckKeepOne(human: Capsule, robot: Capsule, index: TraceSampleIndex, ghost secs: seq<SectionValue>)
      returns (clear: bool)
      requires Owns() && SectionsWellFormed(secs) && SectionsAccept(secs, index) && Value() == Started(secs, human)
      modifies sections[|sections| - 1]
      ensures Owns() && Value() == SectionsChecked(KeepOne, metric, secs, human, robot, index)
      ensures !Collided(secs, human) ==> (clear <==> metric.humanRobot(human, robot) > 0.0)
      ensures Collided(secs, human) ==> !clear
    {
      if !SameHuman(human) {
        var colliding := sections[|sections| - 1].AreColliding(human, robot);
        clear := !colliding;
        var _ := UpdateLast(robot, index);
      } else {
        clear := UpdateLast(robot, index);
      }
    }

    /** Add a section whenever the human sample changed. */
    method CheckAddWhenDifferent(human: Capsule, robot: Capsule, index: TraceSampleIndex, ghost secs: seq<SectionValue>)
      returns (clear: bool)
      requires Owns() && SectionsWellFormed(secs) && SectionsAccept(secs, index) && Value() == Started(secs, human)
      modifies this`sections, sections[|sections| - 1]
      ensures Owns() && AddsAtMostOne(old(sections), sections)
      ensures |sections| > |old(sections)| ==> fresh(sections[|old(sections)|])
      ensures Value() == SectionsChecked(AddWhenDifferent, metric, secs, human, robot, index)
      ensures !Collided(secs, human) ==> (clear <==> metric.humanRobot(human, robot) > 0.0)
      ensures Collided(secs, human) ==> !clear
    {
      hide Absorbed;
      if !SameHuman(human) {
        if !sections[|sections| - 1].HasCollision() {
          AddFrom(human);
          clear := UpdateLast(robot, index);
        } else {
          clear := metric.humanRobot(human, robot) > 0.0;
        }
      } else {
        clear := UpdateLast(robot, index);
      }
    }

    /** Updates the last section unless its human would collide, in which case the barrier is taken back. */
    method TryUpdateLast(robot: Capsule, index: TraceSampleIndex) returns (stillClear: bool)
      requires Owns() && sections != [] && WellFormed(LastSection(Value()).barriers)
      requires Accepts(LastSection(Value()).barriers, index) && !ReachesCollision(LastSection(Value()).barriers)
      modifies sections[|sections| - 1]
      ensures Owns()
      ensures stillClear <==> metric.humanRobot(LastSection(old(Value())).human, robot) > 0.0
      ensures stillClear ==>
                Value() == ReplaceLast(old(Value()), LastSection(old(Value())).Checked(metric, robot, index))
      ensures !stillClear ==> Value() == old(Value())
    {
      ghost var before := Value();
      stillClear := UpdateLast(robot, index);
      if !stillClear {
        assert Value()[|sections| - 1].barriers ==
               LastSection(before).barriers + [Barrier(0.0, Range(index, [index.sample]))];
        assert sections[|sections| - 1].barriers == Value()[|sections| - 1].barriers;
        sections[|sections| - 1].RemoveLastBarrier();
        assert Value()[|sections| - 1].barriers == LastSection(before).barriers;
      }
    }

    /** Add a section only when the previous human sample would collide. */
    method CheckAddWhenNecessary(human: Capsule, robot: Capsule, index: TraceSampleIndex, ghost secs: seq<SectionValue>)
      returns (clear: bool)
      requires Owns() && SectionsWellFormed(secs) && SectionsAccept(secs, index) && Value() == Started(secs, human)
      modifies this`sections, sections[|sections| - 1]
      ensures Owns() && AddsAtMostOne(old(sections), sections)
      ensures |sections| > |old(sections)| ==> fresh(sections[|old(sections)|])
      ensures Value() == SectionsChecked(AddWhenNecessary, metric, secs, human, robot, index)
      ensures !Collided(secs, human) ==> (clear <==> metric.humanRobot(human, robot) > 0.0)
      ensures Collided(secs, human) ==> !clear
    {
      hide Absorbed;
      if !SameHuman(human) {
        var stillClear := true;
        if !sections[|sections| - 1].HasCollision() {
          stillClear := TryUpdateLast(robot, index);
        }
        if !stillClear {
          AddFrom(human);
          clear := UpdateLast(robot, index);
        } else {
          clear := metric.humanRobot(human, robot) > 0.0;
        }
      } else {
        clear := UpdateLast(robot, index);
      }
    }

    method CheckWithPolicy(human: Capsule, robot: Capsule, index: TraceSampleIndex, ghost secs: seq<SectionValue>)
      returns (clear: bool)
      requires Owns() && SectionsWellFormed(secs) && SectionsAccept(secs, index) && Value() == Started(secs, human)
      modifies this`sections, sections[|sections| - 1]
      ensures Owns() && AddsAtMostOne(old(sections), sections)
      ensures |sections| > |old(sections)| ==> fresh(sections[|old(sections)|])
      ensures Value() == SectionsChecked(policy, metric, secs, human, robot, index)
      ensures !Collided(secs, human) ==> (clear <==> metric.humanRobot(human, robot) > 0.0)
      ensures Collided(secs, human) ==> !clear
    {
      match policy
      case KeepOne => clear := CheckKeepOne(human, robot, index, secs);
      case AddWhenDifferent => clear := CheckAddWhenDifferent(human, robot, index, secs);
      case AddWhenNecessary => clear := CheckAddWhenNecessary(human, robot, index, secs);
    }

    /** The verdict on one robot sample for `human`, recording it as the policy says. It is the direct
        verdict, unless this same human was already found to collide. */
    method CheckAndUpdate(human: Capsule, robot: Capsule, index: TraceSampleIndex) returns (clear: bool)
      requires Valid() && SectionsAccept(Value(), index)
      modifies this`sections, sections
      ensures Valid()
      ensures forall k :: 0 <= k < |sections| ==> sections[k] in old(sections) || fresh(sections[k])
      ensures Value() == SectionsChecked(policy, metric, old(Value()), human, robot, index)
      ensures !Collided(old(Value()), human) ==> (clear <==> metric.humanRobot(human, robot) > 0.0)
      ensures Collided(old(Value()), human) ==> !clear
    {
      ghost var secs := Value();
      CheckedWellFormed(policy, metric, secs, human, robot, index);
      if sections == [] {
        AddFrom(human);
      }
      clear := CheckWithPolicy(human, robot, index, secs);
      ghost var checked := Value();
      assert checked == SectionsChecked(policy, metric, secs, human, robot, index);
      assert checked[|checked| - 1].barriers != [];
      if sections[|sections| - 1].IsEmpty() {
        assert false; // where an empty last section would be popped: no policy leaves one
      }
    }

    method ResetSection(i: nat, human: Capsule, lower: nat, upper: nat, sample: nat) returns (shrunk: bool)
      requires Owns() && i < |sections| && WellFormed(Value()[i].barriers) && lower <= upper
      modifies sections[i]
      ensures Value() ==
              old(Value())[i := old(Value())[i].After(metric, human, TraceSampleIndex(lower, sample), upper)]
      ensures shrunk <==> |Value()[i].barriers| < |old(Value())[i].barriers|
    {
      var originalSize := |sections[i].barriers|;
      sections[i].ResetTo(human, lower, upper, sample);
      shrunk := |sections[i].barriers| < originalSize;
    }

    /** The sections before i are reset, and kept, and those from i on are untouched. */
    ghost predicate Resetting(done: seq<SectionValue>, secs: seq<SectionValue>, human: Capsule, start: TraceSampleIndex,
                              upper: nat)
      requires SectionsWellFormed(secs)
      reads this, sections
    {
      && |done| <= |secs| && Value() == done + secs[|done|..]
      && SectionsReset(metric, secs, human, start, upper) ==
         done + SectionsReset(metric, secs[|done|..], human, start, upper)
    }

    lemma ResettingStarts(human: Capsule, start: TraceSampleIndex, upper: nat)
      requires Valid()
      ensures Resetting([], Value(), human, start, upper)
    {
      assert Value()[0..] == Value();
    }

    lemma ResettingEnds(done: seq<SectionValue>, secs: seq<SectionValue>, human: Capsule, start: TraceSampleIndex,
                        upper: nat)
      requires SectionsWellFormed(secs) && Resetting(done, secs, human, start, upper) && |done| == |secs|
      ensures Value()[..|done|] == SectionsReset(metric, secs, human, start, upper)
    {
    }

    /** One step of the reset. If the section shrinks the reset is over, and what is kept is done, with the section
        unless it is empty. */
    method ResetStep(human: Capsule, lower: nat, upper: nat, sample: nat, i: nat, ghost done: seq<SectionValue>,
                     ghost secs: seq<SectionValue>)
      returns (shrunk: bool, ghost s: SectionValue)
      requires Owns() && SectionsWellFormed(secs) && lower <= upper && |done| == i < |sections| == |secs|
      requires Resetting(done, secs, human, TraceSampleIndex(lower, sample), upper)
      modifies sections[i]
      ensures s.barriers == sections[i].barriers && (s.barriers == [] ==> shrunk)
      ensures !shrunk ==> Resetting(done + [s], secs, human, TraceSampleIndex(lower, sample), upper)
      ensures shrunk ==>
                Value()[..if s.barriers == [] then i else i + 1] ==
                SectionsReset(metric, secs, human, TraceSampleIndex(lower, sample), upper)
    {
      ghost var start := TraceSampleIndex(lower, sample);
      s := ResetUnfolds(metric, secs, i, human, start, upper);
      UpdatedAt(done, secs, i, s);
      shrunk := ResetSection(i, human, lower, upper, sample);
      StepDecided(metric, secs, done, s, Value(), human, start, upper);
    }

    /** Resets the sections in order, dropping the empty ones, until one of them shrinks. What is kept is a
        prefix of the list, because a section that comes out empty has shrunk. */
    method ResetSections(human: Capsule, lower: nat, upper: nat, sample: nat) returns (result: seq<Section>)
      requires Valid() && lower <= upper
      modifies sections
      ensures sections == old(sections) && result <= sections
      ensures Value()[..|result|] == SectionsReset(metric, old(Value()), human, TraceSampleIndex(lower, sample), upper)
    {
      hide Resetting, SectionsReset, SectionsWellFormed;
      ghost var secs, start := Value(), TraceSampleIndex(lower, sample);
      ghost var done: seq<SectionValue> := [];
      result := [];
      var i := 0;
      ResettingStarts(human, start, upper);
      while i < |sections|
        invariant 0 <= i == |done| <= |sections| == |secs| && sections == old(sections)
        invariant result == sections[..i]
        invariant Resetting(done, secs, human, start, upper)
      {
        PrefixGrows(sections, i);
        var shrunk;
        ghost var s;
        shrunk, s := ResetStep(human, lower, upper, sample, i, done, secs);
        if !sections[i].IsEmpty() {
          result := result + [sections[i]];
          done := done + [s];
        }
        if shrunk {
          return;
        }
        i := i + 1;
      }
      ResettingEnds(done, secs, human, start, upper);
    }

    method ResetTo(human: Capsule, lower: nat, upper: nat, sample: nat)
      requires Valid() && lower <= upper
      modifies this`sections, sections
      ensures Valid() && sections <= old(sections)
      ensures Value() == SectionsReset(metric, old(Value()), human, TraceSampleIndex(lower, sample), upper)
    {
      ResetKeepsWellFormed(metric, Value(), human, TraceSampleIndex(lower, sample), upper);
      var result := ResetSections(human, lower, upper, sample);
      ghost var kept := Value()[..|result|];
      sections := result;
      assert Value() == kept;
    }
  }

  lemma Regroup<T>(a: seq<T>, x: T, b: seq<T>)
    ensures a + ([x] + b) == (a + [x]) + b
  {
  }

  lemma PrefixGrows<T>(s: seq<T>, i: nat)
    requires i < |s|
    ensures s[..i] + [s[i]] == s[..i + 1] && s[..i + 1] <= s && s[..i] <= s
  {
  }

  lemma PrefixIs<T>(v: seq<T>, a: seq<T>, x: T, b: seq<T>)
    requires v == a + [x] + b
    ensures v[..|a|] == a && v[..|a| + 1] == a + [x] && v[|a|] == x
  {
  }

  lemma UpdatedAt<T>(done: seq<T>, s: seq<T>, i: nat, x: T)
    requires |done| == i < |s|
    ensures (done + s[i..])[i] == s[i] && (done + s[i..])[i := x] == done + [x] + s[i + 1..]
  {
  }

  lemma ResetKeepsWellFormed(m: Metric, secs: seq<SectionValue>, human: Capsule, start: TraceSampleIndex, upper: nat)
    requires SectionsWellFormed(secs) && start.trace <= upper
    ensures SectionsWellFormed(SectionsReset(m, secs, human, start, upper))
  {
    var los := ResetRemains(m, secs, human, start, upper);
    RemainsWellFormed(m, SectionsReset(m, secs, human, start, upper), secs, los, human, start, upper);
  }

  lemma ResetUnfolds(m: Metric, secs: seq<SectionValue>, i: nat, human: Capsule, start: TraceSampleIndex, upper: nat)
    returns (s: SectionValue)
    requires SectionsWellFormed(secs) && start.trace <= upper && i < |secs|
    ensures s == secs[i].After(m, human, start, upper)
    ensures |s.barriers| <= |secs[i].barriers| && secs[i].barriers != [] && WellFormed(secs[i].barriers)
    ensures SectionsWellFormed(secs[i..]) && SectionsWellFormed(secs[i + 1..])
    ensures SectionsReset(m, secs[i..], human, start, upper) ==
            if |s.barriers| < |secs[i].barriers| then (if s.barriers == [] then [] else [s])
            else [s] + SectionsReset(m, secs[i + 1..], human, start, upper)
  {
    s := secs[i].After(m, human, start, upper);
    var lo := ResetFacts(secs[i].barriers, m.humanHuman(secs[i].human, human), start, upper);
    assert secs[i..][0] == secs[i] && secs[i..][1..] == secs[i + 1..];
  }

  /** The list after section |done| has been reset to s: all there is if that section shrank, and else one more done. */
  lemma StepDecided(m: Metric, secs: seq<SectionValue>, done: seq<SectionValue>, s: SectionValue, v: seq<SectionValue>,
                    human: Capsule, start: TraceSampleIndex, upper: nat)
    requires SectionsWellFormed(secs) && start.trace <= upper && |done| < |secs|
    requires s == secs[|done|].After(m, human, start, upper) && v == done + [s] + secs[|done| + 1..]
    requires SectionsReset(m, secs, human, start, upper) ==
             done + SectionsReset(m, secs[|done|..], human, start, upper)
    ensures s.barriers == [] ==> |s.barriers| < |secs[|done|].barriers|
    ensures v[|done|] == s && v == (done + [s]) + secs[|done| + 1..]
    ensures if |s.barriers| < |secs[|done|].barriers| then
              v[..if s.barriers == [] then |done| else |done| + 1] == SectionsReset(m, secs, human, start, upper)
            else
              SectionsReset(m, secs, human, start, upper) ==
              (done + [s]) + SectionsReset(m, secs[|done| + 1..], human, start, upper)
  {
    hide *;
    var t := ResetUnfolds(m, secs, |done|, human, start, upper);
    assert t == s;
    assert done + [] == done;
    Regroup(done, s, SectionsReset(m, secs[|done| + 1..], human, start, upper));
    PrefixIs(v, done, s, secs[|done| + 1..]);
  }

  /** Whether this human's own section has already recorded a collision. */
  predicate Collided(secs: seq<SectionValue>, human: Capsule) {
    secs != [] && LastSection(secs).human == human && ReachesCollision(LastSection(secs).barriers)
  }

  lemma CheckedWellFormed(policy: UpdatePolicy, m: Metric, secs: seq<SectionValue>, human: Capsule, robot: Capsule,
                          index: TraceSampleIndex)
    requires SectionsWellFormed(secs) && SectionsAccept(secs, index)
    ensures var secs' := SectionsChecked(policy, m, secs, human, robot, index);
            secs' != [] && SectionsWellFormed(secs')
  {
    if secs == [] || !ReachesCollision(LastSection(secs).barriers) {
      AddedWellFormed(secs, SectionValue(human, []).Checked(m, robot, index), index);
      if secs != [] { ReplacedWellFormed(m, secs, robot, index); }
    } else {
      assert ReplaceLast(secs, LastSection(secs)) == secs;
    }
  }
}
