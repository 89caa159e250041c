/** What the sample indices of a history come to in milliseconds, for a robot that sends so many messages a second. */
module SampleTimes {
  import opened Capsules
  import opened Modes
  import opened Histories
  import opened HistorySnapshots
  import opened LookAheadGuards

  /** As far as the history tells, the robot is in mode m at t, and entered it at e: either it has not left the mode
      since its last exit, or a stay in m that is not the first on record holds t. */
  predicate InSince(h: History, m: Mode, t: nat, e: nat) {
    || (h.presences != [] && e == h.presences[|h.presences| - 1].to <= t)
    || (h.presences != [] && t < h.presences[|h.presences| - 1].to &&
        exists k :: 0 < k < |h.presences| && h.presences[k].mode == m && e == h.presences[k].from <= t &&
                    t < h.presences[k].to)
  }

  lemma EntranceIs(robot: Robot, h: History, m: Mode, t: nat, e: nat)
    requires Valid(robot, h)
    ensures Entrance(h, m, t) == Some(e) <==> InSince(h, m, t, e)
  {
    hide TracesAgree, StatesAgree, BufferAgrees, StaysStored, Chained, EntranceIn;
    var ps := h.presences;
    if ps != [] && t < LastExit(h) {
      if EntranceIn(ps, m, t).Some? { var k := EntranceWitness(ps, m, t); }
      if k :| 0 < k < |ps| && ps[k].mode == m && e == ps[k].from <= t && t < ps[k].to {
        EntranceFound(ps, m, t, k);
      }
    }
  }

  /** The position of a time, in thousandths of a sample: milliseconds since the entrance times messages a second. */
  lemma UnroundedIs(robot: Robot, h: History, m: Mode, t: nat, u: nat)
    requires Valid(robot, h)
    ensures UnroundedSampleIndex(robot, h, m, t) == Some(u) <==>
            exists e: nat :: InSince(h, m, t, e) && e <= t && u == (t - e) * robot.frequency
  {
    hide Valid, InSince, Entrance;
    var entrance := Entrance(h, m, t);
    if entrance.Some? { EntranceIs(robot, h, m, t, entrance.value); }
    forall e: nat | InSince(h, m, t, e) ensures entrance == Some(e) { EntranceIs(robot, h, m, t, e); }
  }

  /** Sample i is found for a time exactly if i messages, and no more, fit in the time since the entrance, and the
      snapshot holds a sample i of every segment. */
  lemma IndexIs(robot: Robot, h: History, s: nat, m: Mode, t: nat, i: nat)
    requires Valid(robot, h)
    ensures CheckedSampleIndex(robot, h, s, m, t) == Some(i) <==>
            && (exists e: nat :: InSince(h, m, t, e) && e <= t &&
                  1000 * i <= (t - e) * robot.frequency < 1000 * (i + 1))
            && StoredAt(h, s, m).Some? && |StoredAt(h, s, m).value| == robot.segments
            && forall k :: 0 <= k < robot.segments ==> i < |StoredAt(h, s, m).value[k]|
  {
    StoredIff(robot, h, s, m);
    assert robot.Valid();
    hide *;
    LevelSizes(robot, h, s, m, i);
    IndexParts(robot, h, s, m, t, i);
    WholeSince(robot, h, m, t, i);
  }

  lemma WholeSince(robot: Robot, h: History, m: Mode, t: nat, i: nat)
    requires Valid(robot, h)
    ensures Entrance(h, m, t).Some? && robot.Whole(Entrance(h, m, t).value, t) == i <==>
            exists e: nat :: InSince(h, m, t, e) && e <= t &&
              1000 * i <= (t - e) * robot.frequency < 1000 * (i + 1)
  {
    hide *;
    var entrance := Entrance(h, m, t);
    if entrance.Some? {
      EntranceIs(robot, h, m, t, entrance.value);
      WholeIs(robot, entrance.value, t, i);
    }
    forall e: nat | InSince(h, m, t, e) ensures entrance == Some(e) { EntranceIs(robot, h, m, t, e); }
  }

  lemma IndexParts(robot: Robot, h: History, s: nat, m: Mode, t: nat, i: nat)
    ensures CheckedSampleIndex(robot, h, s, m, t) == Some(i) <==>
            && Entrance(h, m, t).Some? && robot.Whole(Entrance(h, m, t).value, t) == i
            && StoredAt(h, s, m).Some? && i < SizeOf(StoredAt(h, s, m).value)
  {
    hide Entrance, StoredAt;
  }

  lemma LevelSizes(robot: Robot, h: History, s: nat, m: Mode, i: nat)
    requires robot.Valid() && (StoredAt(h, s, m).Some? ==> Level(robot, StoredAt(h, s, m).value))
    ensures StoredAt(h, s, m).Some? ==>
              && |StoredAt(h, s, m).value| == robot.segments
              && (i < SizeOf(StoredAt(h, s, m).value) <==>
                  forall k :: 0 <= k < robot.segments ==> i < |StoredAt(h, s, m).value[k]|)
  {
    hide StoredAt;
  }

  /** The range of the numbers of samples: whole samples that fit in every stay, the fewest; no stay has room for more
      than the most; and each of the two is the number of one stay. */
  lemma RangeIs(robot: Robot, among: seq<Presence>, lower: nat, upper: nat)
    requires among != [] && forall p :: p in among ==> p.from <= p.to
    ensures IsRangeOf(robot, among, lower, upper) <==>
            && (forall p :: p in among ==>
                  1000 * lower <= (p.to - p.from) * robot.frequency < 1000 * (upper + 1))
            && (exists p :: p in among && (p.to - p.from) * robot.frequency < 1000 * (lower + 1))
            && (exists p :: p in among && 1000 * upper <= (p.to - p.from) * robot.frequency)
  {
    forall p | p in among
      ensures 1000 * lower <= (p.to - p.from) * robot.frequency <==> lower <= robot.Whole(p.from, p.to)
      ensures (p.to - p.from) * robot.frequency < 1000 * (upper + 1) <==> robot.Whole(p.from, p.to) <= upper
      ensures (p.to - p.from) * robot.frequency < 1000 * (lower + 1) <==> robot.Whole(p.from, p.to) <= lower
      ensures 1000 * upper <= (p.to - p.from) * robot.frequency <==> upper <= robot.Whole(p.from, p.to)
    {
      WholeBetween(robot, p.from, p.to, lower);
      WholeBetween(robot, p.from, p.to, upper);
    }
    LongestIs(robot, among, upper);
    hide MaxWhole;
  }

  lemma WholeBetween(robot: Robot, e: nat, t: nat, n: nat)
    requires e <= t
    ensures 1000 * n <= (t - e) * robot.frequency <==> n <= robot.Whole(e, t)
    ensures (t - e) * robot.frequency < 1000 * (n + 1) <==> robot.Whole(e, t) <= n
  {
    var d := (t - e) * robot.frequency;
    assert d == 1000 * (d / 1000) + d % 1000;
  }

  lemma LongestIs(robot: Robot, among: seq<Presence>, n: nat)
    requires among != [] && forall p :: p in among ==> p.from <= p.to
    ensures n == MaxWhole(robot, among) <==>
            && (forall p :: p in among ==> robot.Whole(p.from, p.to) <= n)
            && exists p :: p in among && n <= robot.Whole(p.from, p.to)
  {
    var i := MaxWholeAttained(robot, among);
    assert among[i] in among;
    forall p | p in among ensures robot.Whole(p.from, p.to) <= MaxWhole(robot, among) {
      MaxWholeBounds(robot, among, p);
    }
    hide MaxWhole;
  }

  /** A completed stay in the mode had room for n messages, and the time since e has room for fewer. */
  predicate Longer(robot: Robot, m: Mode, s: nat, t: nat, e: nat, p: Presence, n: nat) {
    && !p.mode.IsEmpty() && p.mode == m && p.from <= p.to <= s && e <= t
    && (t - e) * robot.frequency < 1000 * n <= (p.to - p.from) * robot.frequency
  }

  ghost predicate NotTheLongest(robot: Robot, h: History, m: Mode, s: nat, t: nat) {
    exists e: nat, p: Presence, n: nat ::
      InSince(h, m, t, e) && p in h.presences && Longer(robot, m, s, t, e, p, n)
  }

  predicate BeenThere(h: History, m: Mode, s: nat, t: nat) {
    exists q: Presence :: q in h.presences && !q.mode.IsEmpty() && q.mode == m && q.from < s && q.to < t
  }

  /** Look-ahead is possible from t exactly if t is not in the future; samples of the mode had been stored by then; the
      robot has been in the mode for less time than some completed stay had whole messages; and it was in the mode
      before, in a stay that began before the snapshot. */
  lemma GuardIs(robot: Robot, h: History, s: nat, t: nat)
    requires Valid(robot, h)
    ensures CanLookAhead(robot, h, s, t) == Some(true) <==>
            var m := ModeAt(h, t);
            && t <= h.latestTime && StoredAt(h, t, m).Some?
            && NotTheLongest(robot, h, m, s, t) && BeenThere(h, m, s, t)
  {
    hide CanLookAhead, ModeAt, StoredAt, NotTheLongest, BeenThere, TracesAgree, StatesAgree, BufferAgrees, StaysStored;
    var m := ModeAt(h, t);
    if CanLookAhead(robot, h, s, t) == Some(true) {
      GuardGives(robot, h, s, t);
    } else if t <= h.latestTime && StoredAt(h, t, m).Some? && NotTheLongest(robot, h, m, s, t) &&
              BeenThere(h, m, s, t) {
      GuardGiven(robot, h, s, t);
      assert false;
    }
  }

  lemma GuardGives(robot: Robot, h: History, s: nat, t: nat)
    requires Valid(robot, h) && CanLookAhead(robot, h, s, t) == Some(true)
    ensures t <= h.latestTime && StoredAt(h, t, ModeAt(h, t)).Some?
    ensures NotTheLongest(robot, h, ModeAt(h, t), s, t) && BeenThere(h, ModeAt(h, t), s, t)
  {
    hide Valid, InSince, ModeAt, Entrance, StoredAt;
    var m := ModeAt(h, t);
    var p := LookAheadFacts(robot, h, s, t);
    var e := Entrance(h, m, t).value;
    EntranceIs(robot, h, m, t, e);
    var n := robot.Whole(p.from, p.to);
    WholeIs(robot, p.from, p.to, n);
    assert Longer(robot, m, s, t, e, p, n);
  }

  lemma GuardGiven(robot: Robot, h: History, s: nat, t: nat)
    requires Valid(robot, h) && t <= h.latestTime && StoredAt(h, t, ModeAt(h, t)).Some?
    requires NotTheLongest(robot, h, ModeAt(h, t), s, t) && BeenThere(h, ModeAt(h, t), s, t)
    ensures CanLookAhead(robot, h, s, t) == Some(true)
  {
    hide Valid, InSince, ModeAt, Entrance, StoredAt, CanLookAhead, EntranceIn;
    var m := ModeAt(h, t);
    var e: nat, p: Presence, n: nat :| InSince(h, m, t, e) && p in h.presences && Longer(robot, m, s, t, e, p, n);
    EntranceIs(robot, h, m, t, e);
    WholeBetween(robot, p.from, p.to, n);
    GuardMet(robot, h, s, t, e, p);
  }

  /* Where the first observation of a stay goes, and what is left at its end */

  /** In a mode not yet left, each observation becomes a sample of its own, at the end. */
  lemma FirstStayAppends(robot: Robot, h: History, mode: Mode, os: seq<Observation>, t: nat, i: nat)
    requires Valid(robot, h) && h.latestTime <= t && !mode.IsEmpty() && |os| == robot.segments && i < robot.segments
    requires h.latestMode == mode && mode !in h.states
    ensures |h.buffer| == robot.segments && Acquired(robot, h, mode, os, t).buffer[i] == h.buffer[i] + [[os[i]]]
  {
    SwitchedRecordable(robot, h, mode, t);
    RecordedAtEnd(h.buffer, os, i);
    hide PresencesAgree, TracesAgree, StatesAgree, StaysStored, Recorded, Recordable;
  }

  lemma RecordedAtEnd(samples: BodySamples, os: seq<Observation>, i: nat)
    requires |os| == |samples| && i < |samples|
    requires forall k :: 0 <= k < |samples| ==> |samples[k]| == SizeOf(samples)
    ensures Recordable(samples, SizeOf(samples), 1)
    ensures Recorded(samples, SizeOf(samples), 1, os)[i] == samples[i] + [[os[i]]]
  {
    assert [] + [os[i]] == [os[i]];
  }

  /** On entering a mode, the samples go on from those last stored for it, whose first gains the observation; or begin
      with the observation, if the mode is new. */
  lemma EnteredWith(robot: Robot, h: History, mode: Mode, os: seq<Observation>, t: nat, i: nat)
    requires Valid(robot, h) && h.latestTime <= t && !mode.IsEmpty() && |os| == robot.segments && i < robot.segments
    requires h.latestMode != mode
    ensures |Acquired(robot, h, mode, os, t).buffer| == robot.segments
    ensures var samples' := Acquired(robot, h, mode, os, t).buffer[i];
            if mode in h.states then
              && h.states[mode] != []
              && var last := h.states[mode][|h.states[mode]| - 1].value;
                 && i < |last| && last[i] != []
                 && samples' == last[i][0 := last[i][0] + [os[i]]]
            else samples' == [[os[i]]]
  {
    hide TracesAgree, PresencesAgree, StaysStored, Chained, LeftSamples;
    SwitchedRecordable(robot, h, mode, t);
    var h' := Switched(robot, h, mode, t);
    EnteredPosition(robot, h, mode, t);
    StoredAgrees(robot, h, mode);
    if mode !in h.states {
      RecordedAtEnd(h'.buffer, os, i);
      assert [] + [[os[i]]] == [[os[i]]];
    }
  }

  lemma EnteredPosition(robot: Robot, h: History, mode: Mode, t: nat)
    requires Valid(robot, h) && h.latestTime <= t && !mode.IsEmpty() && h.latestMode != mode
    ensures var h' := Switched(robot, h, mode, t);
            && h'.presences != [] && LastExit(h') == t && h'.latestMode == mode
            && (mode in h'.states <==> mode in h.states)
            && (mode in h.states ==> h'.states[mode] == h.states[mode] != [])
            && h'.buffer == (if mode in h.states then LatestStored(h, mode) else NoSamples(robot))
            && (mode in h.states ==> Position(robot, h', t) == (0, 1 - SizeOf(LatestStored(h, mode))))
            && (mode !in h.states ==> Position(robot, h', t) == (0, 1))
  {
    assert robot.Whole(t, t) == 0;
    StoredAgrees(robot, h, mode);
    hide PresencesAgree, TracesAgree, StatesAgree, BufferAgrees, StaysStored, LeftSamples, StoreAgrees;
  }

  /** If more messages fit in a stay than there are samples, the last sample is repeated until there is one more than
      fit. */
  predicate LeftOf(samples: seq<Sample>, thousandths: nat, left: seq<Sample>) {
    if thousandths <= 1000 * |samples| then left == samples
    else
      && samples != [] && samples <= left && 1000 * (|left| - 1) <= thousandths < 1000 * |left|
      && forall k :: |samples| <= k < |left| ==> left[k] == samples[|samples| - 1]
  }

  /** Leaving a mode at t stores so its samples for it, and changes what is stored for no other. */
  lemma LeftWith(robot: Robot, h: History, mode: Mode, os: seq<Observation>, t: nat, i: nat)
    requires Valid(robot, h) && h.latestTime <= t && !mode.IsEmpty() && |os| == robot.segments && i < robot.segments
    requires h.presences != [] && h.latestMode != mode
    ensures var stored, stored' := StoredIn(h, h.latestMode), StoredIn(Acquired(robot, h, mode, os, t), h.latestMode);
            && |stored'| == |stored| + 1 && stored' == stored + [stored'[|stored|]] && stored'[|stored|].time == t
            && i < |h.buffer| && i < |stored'[|stored|].value|
            && LeftOf(h.buffer[i], (t - LastExit(h)) * robot.frequency, stored'[|stored|].value[i])
    ensures forall m :: m != h.latestMode ==> StoredIn(Acquired(robot, h, mode, os, t), m) == StoredIn(h, m)
  {
    LeftSamplesOf(robot, h, t, i);
    hide Valid, LeftSamples, Recorded, LeftOf;
  }

  lemma LeftSamplesOf(robot: Robot, h: History, t: nat, i: nat)
    requires Valid(robot, h) && h.latestTime <= t && i < robot.segments && h.presences != []
    ensures LastExit(h) <= t && i < |h.buffer| && i < |LeftSamples(robot, h, t)|
    ensures LeftOf(h.buffer[i], (t - LastExit(h)) * robot.frequency, LeftSamples(robot, h, t)[i])
  {
    var d := (t - LastExit(h)) * robot.frequency;
    assert d == 1000 * (d / 1000) + d % 1000;
    assert h.buffer[i] + Copies(h.buffer[i][|h.buffer[i]| - 1], 0) == h.buffer[i];
    hide TracesAgree, StatesAgree, StaysStored, Chained;
  }
}
