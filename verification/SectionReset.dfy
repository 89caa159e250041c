/** What a barrier sequence still promises after it has been reset for a new human sample. */
module SectionResets {
  import opened Capsules
  import opened TraceSampleRanges
  import opened Barriers
  import opened SectionLists

  /** The environment seen from trace `lower` on, as far as trace `upper`, has the same samples. */
  predicate AgreesFrom(env': Environment, env: Environment, lower: nat, upper: nat) {
    forall x :: x in env' && x.trace + lower <= upper ==>
      x.ShiftedUp(lower) in env && env[x.ShiftedUp(lower)] == env'[x]
  }

  /** Every sample from `start` up to the recorded end is at a positive distance from the human. */
  predicate SafeUpToEnd(m: Metric, secs: seq<SectionValue>, env: Environment, start: TraceSampleIndex, human: Capsule)
    requires SectionsWellFormed(secs)
  {
    secs != [] ==>
      forall x :: x in env && start.AtMost(x) && x.AtMost(End(secs)) ==> m.humanRobot(human, env[x]) > 0.0
  }

  predicate ReuseSoundForAll(m: Metric, secs: seq<SectionValue>, human: Capsule, env: Environment) {
    forall j, x :: 0 <= j < |secs| && x in env ==> m.ReuseSound(secs[j].human, human, env[x])
  }

  /** `r` is what is left of section `s`: the barriers from position `lo` on, all still holding. */
  predicate SectionSurvives(m: Metric, r: SectionValue, s: SectionValue, lo: nat, human: Capsule,
                            start: TraceSampleIndex, upper: nat)
  {
    && r.human == s.human && r.barriers != [] && WellFormed(r.barriers)
    && lo + |r.barriers| <= |s.barriers|
    && (forall i :: 0 <= i < |r.barriers| ==>
          Survives(r.barriers[i], s.barriers[lo + i], m.humanHuman(s.human, human), start, upper))
  }

  /** `rs` is a prefix of the sections, each surviving, all but the last of them with all its barriers. */
  predicate Remains(m: Metric, rs: seq<SectionValue>, secs: seq<SectionValue>, los: seq<nat>, human: Capsule,
                    start: TraceSampleIndex, upper: nat)
  {
    && |rs| == |los| <= |secs|
    && (forall j :: 0 <= j < |rs| ==> SectionSurvives(m, rs[j], secs[j], los[j], human, start, upper))
    && (forall j :: 0 <= j < |rs| - 1 ==> |rs[j].barriers| == |secs[j].barriers|)
  }

  lemma {:induction false} ResetRemains(m: Metric, secs: seq<SectionValue>, human: Capsule, start: TraceSampleIndex,
                                        upper: nat)
    returns (los: seq<nat>)
    requires SectionsWellFormed(secs) && start.trace <= upper
    ensures Remains(m, SectionsReset(m, secs, human, start, upper), secs, los, human, start, upper)
  {
    los := [];
    if secs != [] {
      var rs := SectionsReset(m, secs, human, start, upper);
      var lo := ResetFacts(secs[0].barriers, m.humanHuman(secs[0].human, human), start, upper);
      var s := secs[0].After(m, human, start, upper);
      if |s.barriers| == |secs[0].barriers| {
        var tail := ResetRemains(m, secs[1..], human, start, upper);
        los := [lo] + tail;
        RemainsCons(m, s, secs, SectionsReset(m, secs[1..], human, start, upper), lo, tail, human, start, upper);
      } else if s.barriers != [] {
        los := [lo];
      }
    }
  }

  lemma RemainsCons(m: Metric, r: SectionValue, secs: seq<SectionValue>, rs: seq<SectionValue>, lo: nat, los: seq<nat>,
                    human: Capsule, start: TraceSampleIndex, upper: nat)
    requires secs != [] && SectionSurvives(m, r, secs[0], lo, human, start, upper)
    requires |r.barriers| == |secs[0].barriers| && Remains(m, rs, secs[1..], los, human, start, upper)
    ensures Remains(m, [r] + rs, secs, [lo] + los, human, start, upper)
  {
    var rs', los' := [r] + rs, [lo] + los;
    forall j | 0 <= j < |rs'|
      ensures SectionSurvives(m, rs'[j], secs[j], los'[j], human, start, upper)
      ensures j < |rs'| - 1 ==> |rs'[j].barriers| == |secs[j].barriers|
    {
      if j > 0 { assert secs[j] == secs[1..][j - 1]; }
    }
  }

  lemma InitialsInOrder(bs: seq<Barrier>, i: nat)
    requires WellFormed(bs) && i < |bs|
    ensures bs[0].range.initial.AtMost(bs[i].range.initial)
  {
    if i > 0 { assert bs[0].range.Max().Before(bs[i].range.initial); }
  }

  lemma RemainsWellFormed(m: Metric, rs: seq<SectionValue>, secs: seq<SectionValue>, los: seq<nat>, human: Capsule,
                          start: TraceSampleIndex, upper: nat)
    requires SectionsWellFormed(secs) && Remains(m, rs, secs, los, human, start, upper)
    ensures SectionsWellFormed(rs)
  {
    forall j, k | 0 <= j < k < |rs|
      ensures Last(rs[j].barriers).range.Max().Before(rs[k].barriers[0].range.initial)
    {
      assert SectionSurvives(m, rs[j], secs[j], los[j], human, start, upper);
      assert SectionSurvives(m, rs[k], secs[k], los[k], human, start, upper);
      SurvivorsInOrder(m, rs[j], secs[j], los[j], rs[k], secs[k], los[k], human, start, upper);
    }
  }

  lemma SurvivorsInOrder(m: Metric, r: SectionValue, s: SectionValue, lo: nat, r': SectionValue, s': SectionValue,
                         lo': nat, human: Capsule, start: TraceSampleIndex, upper: nat)
    requires SectionSurvives(m, r, s, lo, human, start, upper) && SectionSurvives(m, r', s', lo', human, start, upper)
    requires WellFormed(s.barriers) && WellFormed(s'.barriers)
    requires Last(s.barriers).range.Max().Before(s'.barriers[0].range.initial)
    ensures Last(r.barriers).range.Max().Before(r'.barriers[0].range.initial)
  {
    var i := lo + |r.barriers| - 1;
    assert Survives(Last(r.barriers), s.barriers[i], m.humanHuman(s.human, human), start, upper);
    assert Survives(r'.barriers[0], s'.barriers[lo' + 0], m.humanHuman(s'.human, human), start, upper);
    if i < |s.barriers| - 1 { EndsInOrder(s.barriers, i, |s.barriers| - 1); }
    InitialsInOrder(s'.barriers, lo');
  }

  /** Being clear of a section that kept its last barrier carries over to what remains of it. */
  lemma ClearOfRemaining(m: Metric, rs: seq<SectionValue>, secs: seq<SectionValue>, los: seq<nat>, human: Capsule,
                         start: TraceSampleIndex, upper: nat, j: nat, robot: Capsule)
    requires Remains(m, rs, secs, los, human, start, upper) && j < |rs|
    ensures ClearOfSome(m, secs[..j], robot) ==> ClearOfSome(m, rs[..j], robot)
  {
    if k :| 0 <= k < j && ClearOfSection(m, secs[..j][k], robot) {
      assert SectionSurvives(m, rs[k], secs[k], los[k], human, start, upper);
      var i := |rs[k].barriers| - 1;
      assert los[k] == 0;
      assert Survives(rs[k].barriers[i], secs[k].barriers[los[k] + i], m.humanHuman(secs[k].human, human), start,
                      upper);
      assert ClearOfSection(m, rs[..j][k], robot);
    }
  }

  lemma RemainsCoveredAt(m: Metric, rs: seq<SectionValue>, secs: seq<SectionValue>, los: seq<nat>, env: Environment,
                         oldStart: TraceSampleIndex, human: Capsule, start: TraceSampleIndex, upper: nat,
                         from: TraceSampleIndex, env': Environment, j: nat, i: nat)
    requires SectionsWellFormed(secs) && Remains(m, rs, secs, los, human, start, upper)
    requires oldStart.AtMost(from.ShiftedUp(start.trace)) && AgreesFrom(env', env, start.trace, upper)
    requires Covered(m, secs, env, oldStart) && j < |rs| && i < |rs[j].barriers| && !rs[j].barriers[i].range.IsEmpty()
    ensures CoveredAt(m, rs, env', from, j, i)
  {
    var lo := los[j];
    assert SectionSurvives(m, rs[j], secs[j], lo, human, start, upper);
    assert Survives(rs[j].barriers[i], secs[j].barriers[lo + i], m.humanHuman(secs[j].human, human), start, upper);
    assert CoveredAt(m, secs, env, oldStart, j, lo + i);
    forall x | x in env' && from.AtMost(x) && x.AtMost(rs[j].barriers[i].range.Max())
      ensures Vouched(m, rs, j, i, env'[x])
    {
      var y := x.ShiftedUp(start.trace);
      assert y in env && env[y] == env'[x];
      assert Vouched(m, secs, j, lo + i, env[y]);
      ClearOfRemaining(m, rs, secs, los, human, start, upper, j, env[y]);
    }
  }

  lemma RemainsSafe(m: Metric, rs: seq<SectionValue>, secs: seq<SectionValue>, los: seq<nat>, env: Environment,
                    human: Capsule, start: TraceSampleIndex, upper: nat, from: TraceSampleIndex, env': Environment)
    requires Remains(m, rs, secs, los, human, start, upper) && AgreesFrom(env', env, start.trace, upper)
    requires ReuseSoundForAll(m, secs, human, env)
    requires SectionsWellFormed(rs) && Covered(m, rs, env', from)
    ensures SafeUpToEnd(m, rs, env', from, human)
  {
    if rs != [] {
      RemainsEnd(m, rs, secs, los, human, start, upper);
      forall x | x in env' && from.AtMost(x) && x.AtMost(End(rs))
        ensures m.humanRobot(human, env'[x]) > 0.0
      {
        CoveredIsClear(m, rs, env', from, x);
        ClearIsSafe(m, rs, secs, los, env, human, start, upper, env', x);
      }
    }
  }

  lemma ClearIsSafe(m: Metric, rs: seq<SectionValue>, secs: seq<SectionValue>, los: seq<nat>, env: Environment,
                    human: Capsule, start: TraceSampleIndex, upper: nat, env': Environment, x: TraceSampleIndex)
    requires Remains(m, rs, secs, los, human, start, upper) && AgreesFrom(env', env, start.trace, upper)
    requires ReuseSoundForAll(m, secs, human, env)
    requires x in env' && x.trace + start.trace <= upper && ClearOfSome(m, rs, env'[x])
    ensures m.humanRobot(human, env'[x]) > 0.0
  {
    var k :| 0 <= k < |rs| && ClearOfSection(m, rs[k], env'[x]);
    RemainingIsFar(m, rs, secs, los, human, start, upper, k);
    assert m.ReuseSound(secs[k].human, human, env[x.ShiftedUp(start.trace)]);
  }

  lemma CoveredIsClear(m: Metric, secs: seq<SectionValue>, env: Environment, start: TraceSampleIndex,
                       x: TraceSampleIndex)
    requires SectionsWellFormed(secs) && secs != [] && Covered(m, secs, env, start)
    requires x in env && start.AtMost(x) && x.AtMost(End(secs))
    ensures ClearOfSome(m, secs, env[x])
  {
    var j := |secs| - 1;
    var i := |secs[j].barriers| - 1;
    assert CoveredAt(m, secs, env, start, j, i);
    assert Vouched(m, secs, j, i, env[x]);
    ClearOfSomeSplits(m, secs, env[x]);
  }

  lemma RemainingIsFar(m: Metric, rs: seq<SectionValue>, secs: seq<SectionValue>, los: seq<nat>, human: Capsule,
                       start: TraceSampleIndex, upper: nat, k: nat)
    requires Remains(m, rs, secs, los, human, start, upper) && k < |rs|
    ensures rs[k].human == secs[k].human && rs[k].barriers != []
    ensures forall i :: 0 <= i < |rs[k].barriers| ==>
              rs[k].barriers[i].minimumDistance > m.humanHuman(secs[k].human, human)
  {
    assert SectionSurvives(m, rs[k], secs[k], los[k], human, start, upper);
    forall i | 0 <= i < |rs[k].barriers|
      ensures rs[k].barriers[i].minimumDistance > m.humanHuman(secs[k].human, human)
    {
      assert Survives(rs[k].barriers[i], secs[k].barriers[los[k] + i], m.humanHuman(secs[k].human, human), start,
                      upper);
    }
  }

  /** The index a scan resumes from: after the recorded end, or at the start if nothing is left. */
  function ResumeAt(secs: seq<SectionValue>, start: TraceSampleIndex): TraceSampleIndex
    requires SectionsWellFormed(secs)
  {
    if secs == [] then start else Successor(End(secs))
  }

  lemma RemainsTracks(m: Metric, rs: seq<SectionValue>, secs: seq<SectionValue>, los: seq<nat>, env: Environment,
                      oldStart: TraceSampleIndex, human: Capsule, start: TraceSampleIndex, upper: nat,
                      from: TraceSampleIndex, env': Environment)
    requires SectionsWellFormed(secs) && Remains(m, rs, secs, los, human, start, upper)
    requires oldStart.AtMost(from.ShiftedUp(start.trace)) && AgreesFrom(env', env, start.trace, upper)
    requires Covered(m, secs, env, oldStart)
    ensures SectionsWellFormed(rs)
    ensures Tracks(m, rs, env', from, ResumeAt(rs, from))
  {
    RemainsWellFormed(m, rs, secs, los, human, start, upper);
    forall j, i | 0 <= j < |rs| && 0 <= i < |rs[j].barriers|
      ensures CoveredAt(m, rs, env', from, j, i)
    {
      RemainsCoveredAt(m, rs, secs, los, env, oldStart, human, start, upper, from, env', j, i);
    }
  }

  lemma RemainsEnd(m: Metric, rs: seq<SectionValue>, secs: seq<SectionValue>, los: seq<nat>, human: Capsule,
                   start: TraceSampleIndex, upper: nat)
    requires SectionsWellFormed(rs) && Remains(m, rs, secs, los, human, start, upper) && rs != []
    ensures start.AtMost(End(rs).ShiftedUp(start.trace)) && End(rs).trace + start.trace <= upper
  {
    var j := |rs| - 1;
    var i := |rs[j].barriers| - 1;
    assert SectionSurvives(m, rs[j], secs[j], los[j], human, start, upper);
    assert Survives(rs[j].barriers[i], secs[j].barriers[los[j] + i], m.humanHuman(secs[j].human, human), start, upper);
  }

  predicate WithoutCollision(secs: seq<SectionValue>) {
    forall j, i :: 0 <= j < |secs| && 0 <= i < |secs[j].barriers| ==> !secs[j].barriers[i].IsCollision()
  }

  /** The sequence tracks the environment from where a scan resumes, none of its barriers is a collision,
      and every sample it lets the scan skip is at a positive distance from the human. */
  predicate ResumesSoundly(m: Metric, secs: seq<SectionValue>, env: Environment, start: TraceSampleIndex,
                           human: Capsule) {
    && SectionsWellFormed(secs)
    && Tracks(m, secs, env, start, ResumeAt(secs, start))
    && SafeUpToEnd(m, secs, env, start, human)
    && WithoutCollision(secs)
  }

  lemma RemainsSound(m: Metric, rs: seq<SectionValue>, secs: seq<SectionValue>, los: seq<nat>, env: Environment,
                     oldStart: TraceSampleIndex, human: Capsule, start: TraceSampleIndex, upper: nat,
                     from: TraceSampleIndex, env': Environment)
    requires SectionsWellFormed(secs) && Remains(m, rs, secs, los, human, start, upper)
    requires oldStart.AtMost(from.ShiftedUp(start.trace)) && AgreesFrom(env', env, start.trace, upper)
    requires Covered(m, secs, env, oldStart)
    requires ReuseSoundForAll(m, secs, human, env)
    ensures ResumesSoundly(m, rs, env', from, human)
  {
    RemainsTracks(m, rs, secs, los, env, oldStart, human, start, upper, from, env');
    RemainsSafe(m, rs, secs, los, env, human, start, upper, from, env');
    forall j, i | 0 <= j < |rs| && 0 <= i < |rs[j].barriers| ensures !rs[j].barriers[i].IsCollision() {
      RemainingIsFar(m, rs, secs, los, human, start, upper, j);
    }
  }

  /** A reset for a new human sample leaves a sequence a scan resumes from soundly, ending within the
      bound. The new start must not lie before the old one (see `BackwardStartUnsound`). */
  lemma ResetSound(m: Metric, secs: seq<SectionValue>, env: Environment, oldStart: TraceSampleIndex,
                   next: TraceSampleIndex, human: Capsule, start: TraceSampleIndex, upper: nat, env': Environment)
    requires Tracks(m, secs, env, oldStart, next)
    requires start.trace <= upper && oldStart.AtMost(start)
    requires AgreesFrom(env', env, start.trace, upper)
    requires ReuseSoundForAll(m, secs, human, env)
    ensures ResumesSoundly(m, SectionsReset(m, secs, human, start, upper), env', TraceSampleIndex(0, start.sample),
                           human)
    ensures EndsWithin(SectionsReset(m, secs, human, start, upper), start, upper)
  {
    var los := ResetRemains(m, secs, human, start, upper);
    var rs := SectionsReset(m, secs, human, start, upper);
    RemainsSound(m, rs, secs, los, env, oldStart, human, start, upper, TraceSampleIndex(0, start.sample), env');
    if rs != [] { RemainsEnd(m, rs, secs, los, human, start, upper); }
  }

  /** The re-indexed sequence ends at or after the start and not above the bound. */
  predicate EndsWithin(secs: seq<SectionValue>, start: TraceSampleIndex, upper: nat) {
    SectionsWellFormed(secs) &&
    (secs != [] ==> start.AtMost(End(secs).ShiftedUp(start.trace)) && End(secs).trace + start.trace <= upper)
  }

  predicate KeepsAll(m: Metric, s: SectionValue, human: Capsule, start: TraceSampleIndex, upper: nat)
    requires WellFormed(s.barriers)
  {
    forall i :: 0 <= i < |s.barriers| ==> Keeps(s.barriers[i], m.humanHuman(s.human, human), start, upper)
  }

  /** Whether a reset keeps barrier i of section j: on its own, and because it keeps all of the sections before. */
  predicate Stays(m: Metric, secs: seq<SectionValue>, human: Capsule, start: TraceSampleIndex, upper: nat, j: nat,
                  i: nat): (stays: bool)
    requires SectionsWellFormed(secs)
    ensures stays ==> j < |secs| && i < |secs[j].barriers|
    ensures stays ==> secs[j].barriers[i].range.Proper() && secs[j].barriers[i].range.initial.trace <= upper
  {
    && j < |secs| && i < |secs[j].barriers|
    && Keeps(secs[j].barriers[i], m.humanHuman(secs[j].human, human), start, upper)
    && (forall k :: 0 <= k < j ==> KeepsAll(m, secs[k], human, start, upper))
  }

  lemma TailWellFormed(secs: seq<SectionValue>)
    requires secs != [] && SectionsWellFormed(secs)
    ensures SectionsWellFormed(secs[1..]) && secs[0].barriers != [] && WellFormed(secs[0].barriers)
    ensures secs[1..] != [] ==> End(secs) == End(secs[1..])
    ensures secs[1..] == [] ==> End(secs) == Last(secs[0].barriers).range.Max()
  {
    forall j | 0 <= j < |secs[1..]| ensures secs[1..][j] == secs[j + 1] {}
  }

  /** Whether a reset gets beyond the first section. */
  predicate GoesBeyond(m: Metric, secs: seq<SectionValue>, human: Capsule, start: TraceSampleIndex, upper: nat)
    requires SectionsWellFormed(secs) && secs != []
  {
    && KeepsAll(m, secs[0], human, start, upper)
    && SectionsWellFormed(secs[1..]) && SectionsReset(m, secs[1..], human, start, upper) != []
  }

  /** If it does, the sequence ends where that of the other sections does. */
  lemma ResetGoesBeyond(m: Metric, secs: seq<SectionValue>, human: Capsule, start: TraceSampleIndex, upper: nat)
    requires SectionsWellFormed(secs) && secs != [] && start.trace <= upper
    requires GoesBeyond(m, secs, human, start, upper)
    requires SectionsWellFormed(SectionsReset(m, secs, human, start, upper))
    ensures SectionsWellFormed(SectionsReset(m, secs[1..], human, start, upper))
    ensures var rs, tail := SectionsReset(m, secs, human, start, upper),
                            SectionsReset(m, secs[1..], human, start, upper);
            rs != [] && End(rs) == End(tail)
  {
    hide Keeps, Reset;
    var lo := ResetKeepsExactly(secs[0].barriers, m.humanHuman(secs[0].human, human), start, upper);
    var rs := SectionsReset(m, secs, human, start, upper);
    assert Keeps(secs[0].barriers[0], m.humanHuman(secs[0].human, human), start, upper);
    assert Keeps(Last(secs[0].barriers), m.humanHuman(secs[0].human, human), start, upper);
    assert rs[1..] == SectionsReset(m, secs[1..], human, start, upper);
    TailWellFormed(rs);
  }

  /** If it does not, the sequence ends where the last barrier it keeps of the first section is cut. */
  lemma ResetStops(m: Metric, secs: seq<SectionValue>, human: Capsule, start: TraceSampleIndex, upper: nat)
    returns (i: int)
    requires SectionsWellFormed(secs) && secs != [] && start.trace <= upper
    requires !GoesBeyond(m, secs, human, start, upper)
    requires SectionsWellFormed(SectionsReset(m, secs, human, start, upper))
    ensures forall k :: i < k < |secs[0].barriers| && k >= 0 ==>
              !Keeps(secs[0].barriers[k], m.humanHuman(secs[0].human, human), start, upper)
    ensures var rs := SectionsReset(m, secs, human, start, upper);
            rs != [] ==>
              && 0 <= i < |secs[0].barriers| && Stays(m, secs, human, start, upper, 0, i)
              && CutEnd(secs[0].barriers[i], upper) == End(rs).ShiftedUp(start.trace)
    ensures SectionsReset(m, secs, human, start, upper) == [] ==> i == -1
  {
    hide Keeps, Reset, WellFormed, CutEnd;
    TailWellFormed(secs);
    var s := secs[0].After(m, human, start, upper);
    var lo := ResetKeepsExactly(secs[0].barriers, m.humanHuman(secs[0].human, human), start, upper);
    i := if s.barriers == [] then -1 else lo + |s.barriers| - 1;
    var rs := SectionsReset(m, secs, human, start, upper);
    if |s.barriers| == |secs[0].barriers| {
      assert KeepsAll(m, secs[0], human, start, upper);
    }
    assert rs == if s.barriers == [] then [] else [s];
    if rs != [] { TailWellFormed(rs); }
  }

  lemma StaysLater(m: Metric, secs: seq<SectionValue>, human: Capsule, start: TraceSampleIndex, upper: nat, j: nat,
                   i: nat)
    requires j + 1 < |secs| && SectionsWellFormed(secs) && SectionsWellFormed(secs[1..])
    ensures Stays(m, secs, human, start, upper, j + 1, i) <==>
            KeepsAll(m, secs[0], human, start, upper) && Stays(m, secs[1..], human, start, upper, j, i)
    ensures secs[1..][j] == secs[j + 1]
  {
    hide Keeps, WellFormed, KeepsAll;
    assert secs[1..][j] == secs[j + 1];
    if KeepsAll(m, secs[0], human, start, upper) && Stays(m, secs[1..], human, start, upper, j, i) {
      forall k | 0 <= k < j + 1 ensures KeepsAll(m, secs[k], human, start, upper) {
        if k > 0 { assert secs[1..][k - 1] == secs[k]; }
      }
    }
    if Stays(m, secs, human, start, upper, j + 1, i) {
      forall k | 0 <= k < j ensures KeepsAll(m, secs[1..][k], human, start, upper) {
        assert secs[1..][k] == secs[k + 1];
      }
    }
  }

  /** The end of a reset sequence is the cut end of a barrier that stays. */
  lemma {:induction false} ResetEndStays(m: Metric, secs: seq<SectionValue>, human: Capsule, start: TraceSampleIndex,
                                         upper: nat)
    returns (j: nat, i: nat)
    requires SectionsWellFormed(secs) && start.trace <= upper && SectionsReset(m, secs, human, start, upper) != []
    requires SectionsWellFormed(SectionsReset(m, secs, human, start, upper))
    ensures Stays(m, secs, human, start, upper, j, i)
    ensures CutEnd(secs[j].barriers[i], upper)
            == End(SectionsReset(m, secs, human, start, upper)).ShiftedUp(start.trace)
  {
    assert secs != [];
    if GoesBeyond(m, secs, human, start, upper) {
      assert KeepsAll(m, secs[0], human, start, upper);
      hide *;
      TailWellFormed(secs);
      ResetGoesBeyond(m, secs, human, start, upper);
      var j', i' := ResetEndStays(m, secs[1..], human, start, upper);
      j, i := j' + 1, i';
      StaysLater(m, secs, human, start, upper, j', i');
    } else {
      hide *;
      j := 0;
      i := ResetStops(m, secs, human, start, upper);
    }
  }

  /** And no barrier that stays ends later. */
  lemma {:induction false} StayingEndsBefore(m: Metric, secs: seq<SectionValue>, human: Capsule,
                                             start: TraceSampleIndex, upper: nat, j: nat, i: nat)
    requires SectionsWellFormed(secs) && start.trace <= upper && Stays(m, secs, human, start, upper, j, i)
    requires SectionsWellFormed(SectionsReset(m, secs, human, start, upper))
    ensures var rs := SectionsReset(m, secs, human, start, upper);
            rs != [] && CutEnd(secs[j].barriers[i], upper).AtMost(End(rs).ShiftedUp(start.trace))
  {
    hide WellFormed, SectionsReset, Keeps, CutEnd, End;
    TailWellFormed(secs);
    if GoesBeyond(m, secs, human, start, upper) {
      ResetGoesBeyond(m, secs, human, start, upper);
      if j > 0 {
        StaysLater(m, secs, human, start, upper, j - 1, i);
        StayingEndsBefore(m, secs[1..], human, start, upper, j - 1, i);
      } else {
        var j', i' := ResetEndStays(m, secs[1..], human, start, upper);
        assert secs[1..][j'] == secs[j' + 1];
        EndsBeforeLater(secs, i, j' + 1, i', upper);
      }
    } else {
      if j > 0 {
        StaysLater(m, secs, human, start, upper, j - 1, i);
        StayingEndsBefore(m, secs[1..], human, start, upper, j - 1, i);
      }
      var k := ResetStops(m, secs, human, start, upper);
      CutEndsInOrder(secs[0].barriers, i, k, upper);
    }
  }

  lemma CutEndsInOrder(bs: seq<Barrier>, i: nat, k: nat, upper: nat)
    requires WellFormed(bs) && i <= k < |bs|
    requires bs[i].range.initial.trace <= upper && bs[k].range.initial.trace <= upper
    ensures CutEnd(bs[i], upper).AtMost(CutEnd(bs[k], upper))
  {
    hide CutEnd;
    if i < k { assert bs[i].range.Max().Before(bs[k].range.initial); }
  }

  lemma EndsBeforeLater(secs: seq<SectionValue>, i: nat, j: nat, k: nat, upper: nat)
    requires SectionsWellFormed(secs) && 0 < j < |secs| && i < |secs[0].barriers| && k < |secs[j].barriers|
    requires secs[0].barriers[i].range.initial.trace <= upper && secs[j].barriers[k].range.initial.trace <= upper
    ensures CutEnd(secs[0].barriers[i], upper).AtMost(CutEnd(secs[j].barriers[k], upper))
  {
    hide CutEnd;
    var bs := secs[0].barriers;
    if i < |bs| - 1 { EndsInOrder(bs, i, |bs| - 1); }
    assert Last(bs).range.Max().Before(secs[j].barriers[0].range.initial);
    InitialsInOrder(secs[j].barriers, k);
  }

  /** The samples between the new start and the old one that lie within a barrier that stays. */
  predicate ClearBefore(m: Metric, secs: seq<SectionValue>, env: Environment, start: TraceSampleIndex,
                        oldStart: TraceSampleIndex, human: Capsule, upper: nat)
    requires SectionsWellFormed(secs)
  {
    forall j, i, x ::
      0 <= j < |secs| && 0 <= i < |secs[j].barriers| && Stays(m, secs, human, start, upper, j, i) &&
      x in env && start.AtMost(x) && x.Before(oldStart) &&
      x.AtMost(CutEnd(secs[j].barriers[i], upper))
      ==> m.humanRobot(human, env[x]) > 0.0
  }

  /** All the samples between the new start and the old one. */
  predicate ClearBetween(m: Metric, env: Environment, start: TraceSampleIndex, oldStart: TraceSampleIndex,
                         human: Capsule) {
    forall x :: x in env && start.AtMost(x) && x.Before(oldStart) ==> m.humanRobot(human, env[x]) > 0.0
  }

  /** No barrier begins before the start: so it is after any scan from there, see `CheckBeginsFrom`. */
  predicate BeginFrom(secs: seq<SectionValue>, start: TraceSampleIndex) {
    forall j, i :: 0 <= j < |secs| && 0 <= i < |secs[j].barriers| ==> start.AtMost(secs[j].barriers[i].range.initial)
  }

  lemma CheckBeginsFrom(policy: UpdatePolicy, m: Metric, secs: seq<SectionValue>, human: Capsule, robot: Capsule,
                        index: TraceSampleIndex, start: TraceSampleIndex)
    requires SectionsWellFormed(secs) && SectionsAccept(secs, index)
    requires BeginFrom(secs, start) && start.AtMost(index)
    ensures BeginFrom(SectionsChecked(policy, m, secs, human, robot, index), start)
  {
    if secs != [] { AbsorbedBegins(LastSection(secs), m, robot, index); }
    hide Absorbed, WellFormed;
  }

  lemma AbsorbedBegins(s: SectionValue, m: Metric, robot: Capsule, index: TraceSampleIndex)
    requires WellFormed(s.barriers) && Accepts(s.barriers, index)
    ensures var bs := s.Checked(m, robot, index).barriers;
            && |s.barriers| <= |bs| <= |s.barriers| + 1
            && (forall i :: 0 <= i < |s.barriers| ==> bs[i].range.initial == s.barriers[i].range.initial)
            && (|bs| > |s.barriers| ==> Last(bs).range.initial == index)
  {
  }

  /** If the robot has gone back within the first mode of the trace, the reset is sound exactly if the samples from
      the new start to the old one, for which the invariant does not vouch, are clear as far as a barrier that stays
      reaches. All of this can be told before the reset. */
  lemma BackwardResetSoundIff(m: Metric, secs: seq<SectionValue>, env: Environment, oldStart: TraceSampleIndex,
                              next: TraceSampleIndex, human: Capsule, start: TraceSampleIndex, upper: nat,
                              env': Environment)
    requires Tracks(m, secs, env, oldStart, next)
    requires oldStart.trace == 0 && start.trace == 0 && start.sample <= oldStart.sample
    requires AgreesFrom(env', env, 0, upper) && ReuseSoundForAll(m, secs, human, env)
    ensures var rs := SectionsReset(m, secs, human, start, upper);
            && SectionsWellFormed(rs)
            && (SafeUpToEnd(m, rs, env', start, human) <==>
                ClearBefore(m, secs, env', start, oldStart, human, upper))
  {
    hide Tracks, Remains, AgreesFrom, ReuseSoundForAll, SectionsReset;
    TracksCovers(m, secs, env, oldStart, next);
    var los := ResetRemains(m, secs, human, start, upper);
    var rs := SectionsReset(m, secs, human, start, upper);
    assert oldStart.ShiftedUp(start.trace) == oldStart && oldStart.AtMost(oldStart);
    RemainsSound(m, rs, secs, los, env, oldStart, human, start, upper, oldStart, env');
    hide SectionsWellFormed, End, Stays, CutEnd, Covered;
    forall j: nat, i: nat | Stays(m, secs, human, start, upper, j, i)
      ensures rs != [] && CutEnd(secs[j].barriers[i], upper).AtMost(End(rs))
    {
      StayingEndsBefore(m, secs, human, start, upper, j, i);
    }
    if rs != [] {
      var j, i := ResetEndStays(m, secs, human, start, upper);
      forall x | x in env' && start.AtMost(x) && x.AtMost(End(rs))
        ensures x.Before(oldStart) || m.humanRobot(human, env'[x]) > 0.0
      {
      }
    }
  }

  /** There is a first barrier, it begins within the bound, and it is farther than the human moved. */
  predicate FirstIsFar(m: Metric, secs: seq<SectionValue>, human: Capsule, upper: nat)
    requires SectionsWellFormed(secs)
  {
    && secs != []
    && secs[0].barriers[0].range.initial.trace <= upper
    && secs[0].barriers[0].minimumDistance > m.humanHuman(secs[0].human, human)
  }

  /** When no barrier begins before the old start, these are all the samples from the new start to the old one, unless
      the first barrier goes and with it all the others. */
  lemma BackwardResetNeedsAllClear(m: Metric, secs: seq<SectionValue>, env: Environment, oldStart: TraceSampleIndex,
                                   next: TraceSampleIndex, human: Capsule, start: TraceSampleIndex, upper: nat,
                                   env': Environment)
    requires Tracks(m, secs, env, oldStart, next)
    requires oldStart.trace == 0 && start.trace == 0 && start.sample <= oldStart.sample
    requires AgreesFrom(env', env, 0, upper) && ReuseSoundForAll(m, secs, human, env)
    requires BeginFrom(secs, oldStart)
    ensures var rs := SectionsReset(m, secs, human, start, upper);
            && SectionsWellFormed(rs)
            && (rs != [] <==> FirstIsFar(m, secs, human, upper))
            && (SafeUpToEnd(m, rs, env', start, human) <==>
                (FirstIsFar(m, secs, human, upper) ==> ClearBetween(m, env', start, oldStart, human)))
  {
    hide Covered, ReuseSoundForAll, AgreesFrom, SectionsReset, SafeUpToEnd, ClearBefore, ClearBetween, End;
    var rs := SectionsReset(m, secs, human, start, upper);
    BackwardResetSoundIff(m, secs, env, oldStart, next, human, start, upper, env');
    if rs != [] {
      var j, i := ResetEndStays(m, secs, human, start, upper);
      FirstStays(m, secs, human, start, upper, j, i);
    }
    if FirstIsFar(m, secs, human, upper) {
      assert oldStart.AtMost(secs[0].barriers[0].range.initial);
      assert Stays(m, secs, human, start, upper, 0, 0);
      StayingEndsBefore(m, secs, human, start, upper, 0, 0);
    }
    BeginFromReaches(m, secs, human, env', oldStart, start, upper);
  }

  /** If any barrier stays, the first one does. */
  lemma FirstStays(m: Metric, secs: seq<SectionValue>, human: Capsule, start: TraceSampleIndex, upper: nat, j: nat,
                   i: nat)
    requires SectionsWellFormed(secs) && Stays(m, secs, human, start, upper, j, i)
    ensures FirstIsFar(m, secs, human, upper)
  {
    if j > 0 {
      assert KeepsAll(m, secs[0], human, start, upper);
      assert Keeps(secs[0].barriers[0], m.humanHuman(secs[0].human, human), start, upper);
    } else {
      InitialsInOrder(secs[0].barriers, i);
    }
  }

  lemma BeginFromReaches(m: Metric, secs: seq<SectionValue>, human: Capsule, env: Environment,
                         oldStart: TraceSampleIndex, start: TraceSampleIndex, upper: nat)
    requires SectionsWellFormed(secs) && BeginFrom(secs, oldStart) && start.AtMost(oldStart)
    ensures ClearBefore(m, secs, env, start, oldStart, human, upper) <==>
            (FirstIsFar(m, secs, human, upper) ==> ClearBetween(m, env, start, oldStart, human))
  {
    if FirstIsFar(m, secs, human, upper) {
      assert oldStart.AtMost(secs[0].barriers[0].range.initial);
      assert Stays(m, secs, human, start, upper, 0, 0);
    }
    forall j, i | 0 <= j < |secs| && 0 <= i < |secs[j].barriers| && Stays(m, secs, human, start, upper, j, i)
      ensures FirstIsFar(m, secs, human, upper) && oldStart.AtMost(CutEnd(secs[j].barriers[i], upper))
    {
      FirstStays(m, secs, human, start, upper, j, i);
      assert oldStart.AtMost(secs[j].barriers[i].range.initial);
    }
  }

  lemma TracksCovers(m: Metric, secs: seq<SectionValue>, env: Environment, start: TraceSampleIndex,
                     next: TraceSampleIndex)
    requires Tracks(m, secs, env, start, next)
    ensures SectionsWellFormed(secs) && Covered(m, secs, env, start)
  {
  }

  /** The barrier of a scan that found sample `s` of the first mode clear at distance `d`. */
  function ClearedAt(human: Capsule, s: nat, d: real): seq<SectionValue> {
    [SectionValue(human, [Barrier(d, Range(TraceSampleIndex(0, s), [s]))])]
  }

  /** And of one that then found the next sample hit. */
  function StoppedAfter(human: Capsule, s: nat, d: real): seq<SectionValue> {
    [SectionValue(human, [Barrier(d, Range(TraceSampleIndex(0, s), [s])),
                          Barrier(0.0, Range(TraceSampleIndex(0, s + 1), [s + 1]))])]
  }

  /** Why the start may not move back, by any metric and for any two such starts: a scan from the old start finds the
      first sample clear and stops at the next; after the reset, a sample before the old start, which was never
      checked, is skipped although it is hit. This is the reset after a robot has left the first mode of the trace
      and returned to it, so that its sample index there is smaller than before. */
  lemma BackwardStartUnsound(m: Metric, reference: Capsule, other: Capsule, env: Environment, former: nat, later: nat)
    requires later < former
    requires TraceSampleIndex(0, later) in env && TraceSampleIndex(0, former) in env
    requires TraceSampleIndex(0, former + 1) in env
    requires m.humanRobot(reference, env[TraceSampleIndex(0, former)]) > m.humanHuman(reference, other)
    requires m.humanRobot(reference, env[TraceSampleIndex(0, former + 1)]) == 0.0
    requires m.humanRobot(other, env[TraceSampleIndex(0, later)]) == 0.0
    ensures var d := m.humanRobot(reference, env[TraceSampleIndex(0, former)]);
            && Tracks(m, StoppedAfter(reference, former, d), env, TraceSampleIndex(0, former),
                      TraceSampleIndex(0, former + 2))
            && SectionsReset(m, StoppedAfter(reference, former, d), other, TraceSampleIndex(0, later), 0)
               == ClearedAt(reference, former, d)
            && SectionsWellFormed(ClearedAt(reference, former, d))
            && !SafeUpToEnd(m, ClearedAt(reference, former, d), env, TraceSampleIndex(0, later), other)
  {
    var d := m.humanRobot(reference, env[TraceSampleIndex(0, former)]);
    StoppedTracks(m, reference, env, former, d);
    StoppedReset(m, reference, other, former, later, d);
    ClearedUnsafe(m, reference, other, env, former, later, d);
  }

  lemma StoppedTracks(m: Metric, human: Capsule, env: Environment, s: nat, d: real)
    requires TraceSampleIndex(0, s) in env && d == m.humanRobot(human, env[TraceSampleIndex(0, s)]) > 0.0
    ensures Tracks(m, StoppedAfter(human, s, d), env, TraceSampleIndex(0, s), TraceSampleIndex(0, s + 2))
  {
    var secs, start := StoppedAfter(human, s, d), TraceSampleIndex(0, s);
    forall x | x in env && start.AtMost(x) && x.AtMost(start) ensures Vouched(m, secs, 0, 0, env[x]) {
      assert x == start;
    }
    assert CoveredAt(m, secs, env, start, 0, 0);
  }

  lemma ClearedUnsafe(m: Metric, reference: Capsule, other: Capsule, env: Environment, s: nat, t: nat, d: real)
    requires t <= s && TraceSampleIndex(0, t) in env && m.humanRobot(other, env[TraceSampleIndex(0, t)]) == 0.0
    requires d >= 0.0
    ensures SectionsWellFormed(ClearedAt(reference, s, d))
    ensures !SafeUpToEnd(m, ClearedAt(reference, s, d), env, TraceSampleIndex(0, t), other)
  {
    var x := TraceSampleIndex(0, t);
    assert x in env && x.AtMost(x) && x.AtMost(End(ClearedAt(reference, s, d)));
  }

  lemma StoppedReset(m: Metric, reference: Capsule, other: Capsule, s: nat, t: nat, d: real)
    requires t <= s && d > m.humanHuman(reference, other)
    ensures SectionsWellFormed(StoppedAfter(reference, s, d))
    ensures SectionsReset(m, StoppedAfter(reference, s, d), other, TraceSampleIndex(0, t), 0)
            == ClearedAt(reference, s, d)
  {
    var secs := StoppedAfter(reference, s, d);
    var bs, hh := secs[0].barriers, m.humanHuman(reference, other);
    assert Trimmed(bs, 0) == bs;
    assert ReuseElement(bs, hh) == 0;
    var kept := [bs[0]];
    assert bs[..1] == kept;
    assert WithoutOutdated(kept, TraceSampleIndex(0, t)) == kept;
    assert kept[0].range.ScaledDown(0) == kept[0].range;
    assert Scaled(kept, 0) == kept;
    assert Reset(bs, hh, TraceSampleIndex(0, t), 0) == kept;
  }
}
