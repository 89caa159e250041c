/** The value of a barrier sequence, and what it promises about the robot samples already visited. */
module SectionLists {
  import opened Capsules
  import opened TraceSampleRanges
  import opened Barriers

  datatype SectionValue = SectionValue(human: Capsule, barriers: seq<Barrier>) {
    function Checked(m: Metric, robot: Capsule, index: TraceSampleIndex): SectionValue
      requires Nonempty(barriers) && Accepts(barriers, index)
    {
      this.(barriers := Absorbed(barriers, m.humanRobot(human, robot), index))
    }

    function After(m: Metric, other: Capsule, start: TraceSampleIndex, upper: nat): SectionValue
      requires WellFormed(barriers)
    {
      this.(barriers := Reset(barriers, m.humanHuman(human, other), start, upper))
    }
  }

  datatype UpdatePolicy = KeepOne | AddWhenDifferent | AddWhenNecessary

  /** The robot samples a prediction visits, without the empty ones. */
  type Environment = map<TraceSampleIndex, Capsule>

  predicate SectionsWellFormed(secs: seq<SectionValue>) {
    && (forall j :: 0 <= j < |secs| ==> secs[j].barriers != [] && WellFormed(secs[j].barriers))
    && (forall j, k :: 0 <= j < k < |secs| ==>
          Last(secs[j].barriers).range.Max().Before(secs[k].barriers[0].range.initial))
  }

  function LastSection(secs: seq<SectionValue>): SectionValue
    requires secs != []
  {
    secs[|secs| - 1]
  }

  /** The last index the sequence has recorded. */
  function End(secs: seq<SectionValue>): TraceSampleIndex
    requires SectionsWellFormed(secs) && secs != []
  {
    Last(LastSection(secs).barriers).range.Max()
  }

  predicate SectionsAccept(secs: seq<SectionValue>, index: TraceSampleIndex)
    requires SectionsWellFormed(secs)
  {
    secs != [] ==> Accepts(LastSection(secs).barriers, index)
  }

  function ReplaceLast(secs: seq<SectionValue>, s: SectionValue): seq<SectionValue>
    requires secs != []
  {
    secs[|secs| - 1 := s]
  }

  /** The sections after checking one robot sample for `human`, under each policy. */
  function SectionsChecked(policy: UpdatePolicy, m: Metric, secs: seq<SectionValue>, human: Capsule, robot: Capsule,
                           index: TraceSampleIndex): seq<SectionValue>
    requires SectionsWellFormed(secs) && SectionsAccept(secs, index)
  {
    var added := SectionValue(human, []).Checked(m, robot, index);
    if secs == [] then [added]
    else
      var last := LastSection(secs);
      if last.human == human || policy.KeepOne? then ReplaceLast(secs, last.Checked(m, robot, index))
      else if ReachesCollision(last.barriers) then secs
      else if policy.AddWhenDifferent? || !(m.humanRobot(last.human, robot) > 0.0) then secs + [added]
      else ReplaceLast(secs, last.Checked(m, robot, index))
  }

  /** When a check adds a section, and what it leaves of the others. With one human only the first does. Otherwise
      another human adds one, unless the last section ends in a collision; and where a section is added only when
      necessary, only if the last section's own human is hit by the sample. */
  lemma AddsSectionIff(policy: UpdatePolicy, m: Metric, secs: seq<SectionValue>, human: Capsule, robot: Capsule,
                       index: TraceSampleIndex)
    requires SectionsWellFormed(secs) && SectionsAccept(secs, index)
    ensures var secs' := SectionsChecked(policy, m, secs, human, robot, index);
            var begun := SectionValue(human, [Barrier(m.humanRobot(human, robot), Range(index, [index.sample]))]);
            if secs == [] then secs' == [begun]
            else
              var last := secs[|secs| - 1];
              && (forall j :: 0 <= j < |secs| - 1 ==> j < |secs'| && secs'[j] == secs[j])
              && (secs' == secs + [begun] || (|secs'| == |secs| && secs'[|secs| - 1].human == last.human))
              && (|secs'| > |secs| <==>
                    && last.human != human && policy != KeepOne
                    && last.barriers[|last.barriers| - 1].minimumDistance > 0.0
                    && (policy == AddWhenDifferent || m.humanRobot(last.human, robot) <= 0.0))
  {
    var added := SectionValue(human, []).Checked(m, robot, index);
    assert added.barriers == [Barrier(m.humanRobot(human, robot), Range(index, [index.sample]))] by {
      assert [] + [Barrier(m.humanRobot(human, robot), Range(index, [index.sample]))] ==
             [Barrier(m.humanRobot(human, robot), Range(index, [index.sample]))];
    }
  }

  /** The sections after a reset: they are reset in order, and the first that lost a barrier is the last
      one considered. */
  function SectionsReset(m: Metric, secs: seq<SectionValue>, human: Capsule, start: TraceSampleIndex,
                         upper: nat): seq<SectionValue>
    requires SectionsWellFormed(secs)
  {
    if secs == [] then [] else
    var s := secs[0].After(m, human, start, upper);
    var head := if s.barriers == [] then [] else [s];
    if |s.barriers| < |secs[0].barriers| then head
    else head + SectionsReset(m, secs[1..], human, start, upper)
  }

  /** The sample is no closer to the section's human than the section's last barrier says. */
  predicate ClearOfSection(m: Metric, s: SectionValue, robot: Capsule) {
    s.barriers != [] && m.humanRobot(s.human, robot) >= Last(s.barriers).minimumDistance
  }

  predicate ClearOfSome(m: Metric, secs: seq<SectionValue>, robot: Capsule) {
    exists k :: 0 <= k < |secs| && ClearOfSection(m, secs[k], robot)
  }

  /** A sample is accounted for at barrier i of section j if its distance from that section's human is at
      least the barrier's, or if it is clear of an earlier section. */
  predicate Vouched(m: Metric, secs: seq<SectionValue>, j: nat, i: nat, robot: Capsule)
    requires j < |secs| && i < |secs[j].barriers|
  {
    || m.humanRobot(secs[j].human, robot) >= secs[j].barriers[i].minimumDistance
    || ClearOfSome(m, secs[..j], robot)
  }

  /** Every sample from `start` up to the end of the barrier is accounted for there. */
  predicate CoveredAt(m: Metric, secs: seq<SectionValue>, env: Environment, start: TraceSampleIndex, j: nat, i: nat)
    requires j < |secs| && i < |secs[j].barriers| && !secs[j].barriers[i].range.IsEmpty()
  {
    forall x :: x in env && start.AtMost(x) && x.AtMost(secs[j].barriers[i].range.Max())
      ==> Vouched(m, secs, j, i, env[x])
  }

  predicate Covered(m: Metric, secs: seq<SectionValue>, env: Environment, start: TraceSampleIndex)
    requires SectionsWellFormed(secs)
  {
    forall j, i :: 0 <= j < |secs| && 0 <= i < |secs[j].barriers| ==> CoveredAt(m, secs, env, start, j, i)
  }

  /** The recorded end may lag behind the visited one: the samples in between are still no closer than
      the current minimum, unless the sequence stopped recording at a collision. */
  predicate Pending(m: Metric, secs: seq<SectionValue>, env: Environment, start: TraceSampleIndex,
                    next: TraceSampleIndex)
    requires SectionsWellFormed(secs)
  {
    forall x :: x in env && start.AtMost(x) && x.Before(next) && (secs == [] || End(secs).Before(x)) ==>
      secs != [] && (ReachesCollision(LastSection(secs).barriers) || ClearOfSection(m, LastSection(secs), env[x]))
  }

  /** The sequence invariant: `next` is the first index not yet visited. */
  predicate Tracks(m: Metric, secs: seq<SectionValue>, env: Environment, start: TraceSampleIndex,
                   next: TraceSampleIndex) {
    && SectionsWellFormed(secs)
    && (secs != [] ==> End(secs).Before(next))
    && Covered(m, secs, env, start)
    && Pending(m, secs, env, start, next)
  }

  function Successor(i: TraceSampleIndex): TraceSampleIndex {
    TraceSampleIndex(i.trace, i.sample + 1)
  }

  /** Nothing at or after the start lies from `from` up to, but not including, `to`. */
  predicate NoSampleBetween(env: Environment, start: TraceSampleIndex, from: TraceSampleIndex, to: TraceSampleIndex) {
    forall x :: x in env && start.AtMost(x) && from.AtMost(x) ==> !x.Before(to)
  }

  lemma TracksFrom(m: Metric, secs: seq<SectionValue>, env: Environment, start: TraceSampleIndex,
                   next: TraceSampleIndex, later: TraceSampleIndex)
    requires Tracks(m, secs, env, start, next)
    requires next.AtMost(later) && NoSampleBetween(env, start, next, later)
    ensures Tracks(m, secs, env, start, later)
  {
  }

  /** Checking the next sample keeps the invariant under every policy and for every human. */
  lemma CheckKeepsTracking(policy: UpdatePolicy, m: Metric, secs: seq<SectionValue>, env: Environment,
                           start: TraceSampleIndex, next: TraceSampleIndex, human: Capsule, index: TraceSampleIndex)
    requires Tracks(m, secs, env, start, next)
    requires next.AtMost(index) && NoSampleBetween(env, start, next, index) && index in env
    ensures SectionsAccept(secs, index)
    ensures Tracks(m, SectionsChecked(policy, m, secs, human, env[index], index), env, start, Successor(index))
  {
    hide Covered, Pending, SectionsChecked, ReachesCollision, SectionsWellFormed;
    TracksFrom(m, secs, env, start, next, index);
    CheckedIs(policy, m, secs, human, env[index], index);
    if secs != [] && ReachesCollision(LastSection(secs).barriers) {
      StoppedKeepsTracking(m, secs, env, start, index);
    } else {
      AddedKeepsTracking(m, secs, env, start, human, index);
      if secs != [] { ReplacedKeepsTracking(m, secs, env, start, index); }
    }
  }

  lemma CheckedIs(policy: UpdatePolicy, m: Metric, secs: seq<SectionValue>, human: Capsule, robot: Capsule,
                  index: TraceSampleIndex)
    requires SectionsWellFormed(secs) && SectionsAccept(secs, index)
    ensures var secs' := SectionsChecked(policy, m, secs, human, robot, index);
            if secs != [] && ReachesCollision(LastSection(secs).barriers) then secs' == secs
            else
              || secs' == secs + [SectionValue(human, []).Checked(m, robot, index)]
              || (secs != [] && Nonempty(LastSection(secs).barriers) && Accepts(LastSection(secs).barriers, index) &&
                  secs' == ReplaceLast(secs, LastSection(secs).Checked(m, robot, index)))
  {
    if secs == [] {
      var added := SectionValue(human, []).Checked(m, robot, index);
      assert secs + [added] == [added];
    } else {
      assert ReplaceLast(secs, LastSection(secs)) == secs;
    }
  }

  lemma StoppedKeepsTracking(m: Metric, secs: seq<SectionValue>, env: Environment, start: TraceSampleIndex,
                             index: TraceSampleIndex)
    requires Tracks(m, secs, env, start, index)
    requires secs != [] && ReachesCollision(LastSection(secs).barriers)
    ensures Tracks(m, secs, env, start, Successor(index))
  {
  }

  lemma AddedKeepsTracking(m: Metric, secs: seq<SectionValue>, env: Environment, start: TraceSampleIndex,
                           human: Capsule, index: TraceSampleIndex)
    requires Tracks(m, secs, env, start, index) && index in env
    requires secs != [] ==> !ReachesCollision(LastSection(secs).barriers)
    ensures Tracks(m, secs + [SectionValue(human, []).Checked(m, env[index], index)], env, start, Successor(index))
  {
    var added := SectionValue(human, []).Checked(m, env[index], index);
    var secs' := secs + [added];
    AddedWellFormed(secs, added, index);
    VisitedIsClear(m, secs, env, start, index);
    hide WellFormed;
    forall j, i | 0 <= j < |secs'| && 0 <= i < |secs'[j].barriers| ensures CoveredAt(m, secs', env, start, j, i) {
      assert secs'[..j] == secs[..j];
      if j < |secs| { assert CoveredAt(m, secs, env, start, j, i); }
    }
  }

  lemma AddedWellFormed(secs: seq<SectionValue>, added: SectionValue, index: TraceSampleIndex)
    requires SectionsWellFormed(secs) && (secs != [] ==> End(secs).Before(index))
    requires |added.barriers| == 1 && WellFormed(added.barriers)
    requires added.barriers[0].range.initial == added.barriers[0].range.Max() == index
    ensures SectionsWellFormed(secs + [added]) && End(secs + [added]) == index
  {
    var secs' := secs + [added];
    forall j, k | 0 <= j < k < |secs'|
      ensures Last(secs'[j].barriers).range.Max().Before(secs'[k].barriers[0].range.initial)
    {
      if k == |secs| { EndOrder(secs, j); }
    }
  }

  lemma EndOrder(secs: seq<SectionValue>, j: nat)
    requires SectionsWellFormed(secs) && j < |secs|
    ensures Last(secs[j].barriers).range.Max().AtMost(End(secs))
  {
    if j < |secs| - 1 {
      var last := LastSection(secs);
      assert Last(secs[j].barriers).range.Max().Before(last.barriers[0].range.initial);
      InitialBeforeEnd(last.barriers);
    }
  }

  lemma InitialBeforeEnd(bs: seq<Barrier>)
    requires WellFormed(bs) && bs != []
    ensures bs[0].range.initial.AtMost(Last(bs).range.Max())
  {
    if |bs| > 1 { EndsInOrder(bs, 0, |bs| - 1); }
  }

  /** While the sequence records, every visited sample is clear of some section; when the sample was
      visited after the recorded end, of the last one. */
  lemma VisitedIsClear(m: Metric, secs: seq<SectionValue>, env: Environment, start: TraceSampleIndex,
                       next: TraceSampleIndex)
    requires Tracks(m, secs, env, start, next)
    requires secs != [] ==> !ReachesCollision(LastSection(secs).barriers)
    ensures forall x :: x in env && start.AtMost(x) && x.Before(next) ==> ClearOfSome(m, secs, env[x])
  {
    forall x | x in env && start.AtMost(x) && x.Before(next) ensures ClearOfSome(m, secs, env[x]) {
      var n := |secs|;
      if !End(secs).Before(x) {
        var i := |secs[n - 1].barriers| - 1;
        assert CoveredAt(m, secs, env, start, n - 1, i);
        assert Vouched(m, secs, n - 1, i, env[x]);
        ClearOfSomeSplits(m, secs, env[x]);
      } else {
        assert ClearOfSection(m, secs[n - 1], env[x]);
      }
    }
  }

  lemma ClearOfSomeSplits(m: Metric, secs: seq<SectionValue>, robot: Capsule)
    requires secs != []
    ensures ClearOfSome(m, secs, robot) <==>
            ClearOfSome(m, secs[..|secs| - 1], robot) || ClearOfSection(m, LastSection(secs), robot)
  {
    var front := secs[..|secs| - 1];
    if k :| 0 <= k < |front| && ClearOfSection(m, front[k], robot) { assert ClearOfSection(m, secs[k], robot); }
    if k :| 0 <= k < |secs| && ClearOfSection(m, secs[k], robot) {
      if k < |front| { assert ClearOfSection(m, front[k], robot); }
    }
    if ClearOfSection(m, LastSection(secs), robot) { assert ClearOfSection(m, secs[|secs| - 1], robot); }
  }

  lemma ReplacedKeepsTracking(m: Metric, secs: seq<SectionValue>, env: Environment, start: TraceSampleIndex,
                              index: TraceSampleIndex)
    requires Tracks(m, secs, env, start, index) && index in env
    requires secs != [] && !ReachesCollision(LastSection(secs).barriers)
    ensures Tracks(m, ReplaceLast(secs, LastSection(secs).Checked(m, env[index], index)), env, start, Successor(index))
  {
    hide Absorbed, Vouched, ClearOfSome;
    var n := |secs|;
    var last' := LastSection(secs).Checked(m, env[index], index);
    var secs' := ReplaceLast(secs, last');
    ReplacedWellFormed(m, secs, env[index], index);
    ReplacedIsClear(m, secs, env, start, index);
    hide WellFormed;
    forall j, i | 0 <= j < n && 0 <= i < |secs'[j].barriers| ensures CoveredAt(m, secs', env, start, j, i) {
      if j < n - 1 || i < |last'.barriers| - 1 {
        assert secs'[j].barriers[i] == secs[j].barriers[i];
        assert secs'[..j] == secs[..j];
        assert CoveredAt(m, secs, env, start, j, i);
        SameBarrierCovered(m, secs, secs', env, start, j, i);
      } else {
        assert secs'[..j] == secs[..j];
        LastBarrierCovered(m, secs', env, start, Successor(index));
      }
    }
  }

  lemma SameBarrierCovered(m: Metric, secs: seq<SectionValue>, secs': seq<SectionValue>, env: Environment,
                           start: TraceSampleIndex, j: nat, i: nat)
    requires j < |secs| && j < |secs'| && i < |secs[j].barriers| && i < |secs'[j].barriers|
    requires secs[j].human == secs'[j].human && secs[j].barriers[i] == secs'[j].barriers[i]
    requires secs[..j] == secs'[..j] && !secs[j].barriers[i].range.IsEmpty() && CoveredAt(m, secs, env, start, j, i)
    ensures CoveredAt(m, secs', env, start, j, i)
  {
  }

  lemma LastBarrierCovered(m: Metric, secs: seq<SectionValue>, env: Environment, start: TraceSampleIndex,
                           next: TraceSampleIndex)
    requires SectionsWellFormed(secs) && secs != [] && End(secs).Before(next)
    requires forall x :: x in env && start.AtMost(x) && x.Before(next) ==>
               ClearOfSome(m, secs[..|secs| - 1], env[x]) || ClearOfSection(m, LastSection(secs), env[x])
    ensures CoveredAt(m, secs, env, start, |secs| - 1, |LastSection(secs).barriers| - 1)
  {
  }

  lemma ReplacedWellFormed(m: Metric, secs: seq<SectionValue>, robot: Capsule, index: TraceSampleIndex)
    requires SectionsWellFormed(secs) && secs != [] && !ReachesCollision(LastSection(secs).barriers)
    requires End(secs).Before(index)
    ensures var secs' := ReplaceLast(secs, LastSection(secs).Checked(m, robot, index));
            SectionsWellFormed(secs') && End(secs).Before(End(secs')) && End(secs').Before(Successor(index))
    ensures var bs, bs' := LastSection(secs).barriers, LastSection(secs).Checked(m, robot, index).barriers;
            |bs| <= |bs'| <= |bs| + 1 && forall i :: 0 <= i < |bs'| - 1 ==> bs'[i] == bs[i]
  {
    var last := LastSection(secs);
    var d := m.humanRobot(last.human, robot);
    AbsorbedKeepsWellFormed(last.barriers, d, index);
    AbsorbedKeepsFront(last.barriers, d, index);
  }

  /** After the last section took in `index`, every visited sample is clear of an earlier section or of
      the last one; those after the old recorded end, of the last one. */
  lemma ReplacedIsClear(m: Metric, secs: seq<SectionValue>, env: Environment, start: TraceSampleIndex,
                        index: TraceSampleIndex)
    requires Tracks(m, secs, env, start, index) && index in env
    requires secs != [] && !ReachesCollision(LastSection(secs).barriers)
    ensures var last' := LastSection(secs).Checked(m, env[index], index);
            forall x :: x in env && start.AtMost(x) && x.Before(Successor(index)) ==>
              && (ClearOfSome(m, secs[..|secs| - 1], env[x]) || ClearOfSection(m, last', env[x]))
              && (End(secs).Before(x) ==> ClearOfSection(m, last', env[x]))
  {
    var last := LastSection(secs);
    AbsorbedKeepsFront(last.barriers, m.humanRobot(last.human, env[index]), index);
    VisitedIsClear(m, secs, env, start, index);
    var last' := last.Checked(m, env[index], index);
    forall x | x in env && start.AtMost(x) && x.Before(Successor(index))
      ensures ClearOfSome(m, secs[..|secs| - 1], env[x]) || ClearOfSection(m, last', env[x])
      ensures End(secs).Before(x) ==> ClearOfSection(m, last', env[x])
    {
      if x != index { ClearOfSomeSplits(m, secs, env[x]); }
    }
  }

  lemma AbsorbedKeepsFront(bs: seq<Barrier>, d: real, index: TraceSampleIndex)
    requires WellFormed(bs) && Accepts(bs, index) && bs != [] && !ReachesCollision(bs)
    ensures var bs' := Absorbed(bs, d, index);
            && bs' != [] && !bs'[0].range.IsEmpty() && !Last(bs').range.IsEmpty()
            && bs'[0].range.initial == bs[0].range.initial
            && (forall i :: 0 <= i < |bs'| - 1 ==> bs'[i] == bs[i])
            && Last(bs).range.Max().Before(Last(bs').range.Max())
            && Last(bs').range.Max().AtMost(index)
            && Last(bs').minimumDistance <= Last(bs).minimumDistance
            && |bs| <= |bs'|
  {
    if d >= Last(bs).minimumDistance { ExtendedBounds(Last(bs).range, index); }
  }
}
