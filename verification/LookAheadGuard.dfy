/** What the guard of look-ahead admits: from its times, and for as long as the history grows, the history can answer
    what the jobs ask of it. */
module LookAheadGuards {
  import opened Modes
  import opened TimedEntries
  import opened Histories
  import opened HistorySnapshots
  import opened Predictions
  import opened Capsules

  lemma LookAheadFacts(robot: Robot, h: History, s: nat, t: nat) returns (p: Presence)
    requires Valid(robot, h) && CanLookAhead(robot, h, s, t) == Some(true)
    ensures var m := ModeAt(h, t);
            && t <= h.latestTime && !m.IsEmpty() && h.presences != [] && Entrance(h, m, t).Some?
            && p in h.presences && p.mode == m && p.from <= p.to <= s
            && robot.Thousandths(Entrance(h, m, t).value, t) < 1000 * robot.Whole(p.from, p.to)
            && VisitedBefore(h.presences, s, m, t)
  {
    var m := ModeAt(h, t);
    var among := PresencesIn(h.presences, s, m);
    forall p ensures p in among ==> p in h.presences && p.from <= p.to && p.mode == m && p.to <= s {
      PresencesInMembers(h.presences, s, m, p);
    }
    var i := MaxWholeAttained(robot, among);
    p := among[i];
  }

  /** What was stored at the exit from a stay bounds the samples of every later snapshot. */
  lemma StoredCovers(robot: Robot, h: History, p: Presence, s: nat)
    requires Valid(robot, h) && p in h.presences && !p.mode.IsEmpty() && p.from <= p.to <= s
    ensures StoredAt(h, s, p.mode).Some? && SizeOf(StoredAt(h, s, p.mode).value) >= robot.Whole(p.from, p.to)
  {
    hide TracesAgree, BufferAgrees, PresencesAgree, Prefix, Chained;
    var k :| 0 <= k < |h.presences| && h.presences[k] == p;
    assert StayStored(robot, h.states, h.presences[k]);
    StoreCovers(robot, h.states[p.mode], h.latestTime, p, s);
  }

  lemma StoreCovers(robot: Robot, stored: seq<Timed<BodySamples>>, latestTime: nat, p: Presence, s: nat)
    requires StoreAgrees(robot, stored, latestTime) && p.from <= p.to <= s
    requires exists i :: 0 <= i < |stored| && stored[i].time == p.to
                         && SizeOf(stored[i].value) >= robot.Whole(p.from, p.to)
    ensures Prefix(stored, s) > 0 && SizeOf(stored[Prefix(stored, s) - 1].value) >= robot.Whole(p.from, p.to)
  {
    var i :| 0 <= i < |stored| && stored[i].time == p.to && SizeOf(stored[i].value) >= robot.Whole(p.from, p.to);
    PrefixIsAll(stored, s, i);
  }

  /** If look-ahead is possible from t, the sample index of t is found, in this snapshot and in any later. */
  lemma GuardImpliesBound(robot: Robot, h: History, s: nat, t: nat, later: nat)
    requires Valid(robot, h) && CanLookAhead(robot, h, s, t) == Some(true) && s <= later
    ensures CheckedSampleIndex(robot, h, later, ModeAt(h, t), t).Some?
  {
    hide Valid, CanLookAhead, VisitedBefore, ModeAt, Entrance, StoredAt;
    var p := LookAheadFacts(robot, h, s, t);
    StoredCovers(robot, h, p, later);
  }

  lemma {:induction false} MaxWholeBounds(robot: Robot, ps: seq<Presence>, p: Presence)
    requires p in ps && forall q :: q in ps ==> q.from <= q.to
    ensures robot.Whole(p.from, p.to) <= MaxWhole(robot, ps)
  {
    if p in ps[..|ps| - 1] {
      MaxWholeBounds(robot, ps[..|ps| - 1], p);
    } else {
      assert ps == ps[..|ps| - 1] + [ps[|ps| - 1]];
    }
  }

  /** If look-ahead is possible from t, the robot has stayed in the mode for longer before, in this snapshot and in
      any later: the time left in the first mode of a prediction is never negative. */
  lemma GuardBoundsStay(robot: Robot, h: History, s: nat, t: nat, later: nat)
    requires Valid(robot, h) && CanLookAhead(robot, h, s, t) == Some(true) && s <= later
    ensures var m := ModeAt(h, t);
            var among := PresencesIn(h.presences, later, m);
            && (forall q :: q in among ==> q.from <= q.to) && Entrance(h, m, t).Some?
            && robot.Whole(Entrance(h, m, t).value, t) < MaxWhole(robot, among)
  {
    var p := LookAheadFacts(robot, h, s, t);
    var m := ModeAt(h, t);
    var among := PresencesIn(h.presences, later, m);
    forall q ensures q in among ==> q.from <= q.to { PresencesInMembers(h.presences, later, m, q); }
    PresencesInMembers(h.presences, later, m, p);
    hide Valid, CanLookAhead, PresencesIn, ModeAt, Entrance;
    MaxWholeBounds(robot, among, p);
  }

  /** Look-ahead starts in a mode of the past, which does not end in it: this is what makes its predictions never
      stick. */
  lemma LookAheadStarts(robot: Robot, h: History, s: nat, t: nat)
    requires Valid(robot, h) && CanLookAhead(robot, h, s, t) == Some(true)
    ensures TraceAt(h, t).Some? && LeadsInto(TraceAt(h, t).value, ModeAt(h, t))
    ensures Reachable(TraceAt(h, t).value, [ModeAt(h, t)])
  {
    hide Valid, CanLookAhead, ModeAt, Entrance, Reachable, TraceAt, NonEmpty, Stale;
    var p := LookAheadFacts(robot, h, s, t);
    var m := ModeAt(h, t);
    var ps := h.presences;
    var i :| 0 <= i < |ps| && !ps[i].mode.IsEmpty() && ps[i].mode == m && t > ps[i].to;
    var k := PastHolds(robot, h, t, h.presences[i]);
    PastLeadsHere(robot, h, t, k);
    assert TraceAt(h, t).value[|TraceAt(h, t).value| - 1] == NonEmpty(h.presences)[k - 1].mode;
    StartReachable(TraceAt(h, t).value, m);
  }

  /** The past holds the mode, and ends in another. */
  predicate LeadsInto(past: seq<Mode>, m: Mode) {
    past != [] && past[|past| - 1] != m && m in past
  }

  /** The past of a later time goes on from that of an earlier one. */
  lemma PastGrows(robot: Robot, h: History, s: nat, t: nat)
    requires Valid(robot, h) && TraceAt(h, s).Some? && s <= t
    ensures TraceAt(h, t).Some? && TraceAt(h, s).value <= TraceAt(h, t).value
  {
    hide Valid, Stale, NonEmpty;
    PrefixMonotone(h.traces, s, t);
    TraceIsPast(robot, h, s);
    TraceIsPast(robot, h, t);
    var n := NonEmpty(h.presences);
    StaleMonotone(Exits(n), s + 1, t + 1);
    ModesInPrefix(n, Stale(Exits(n), s + 1), Stale(Exits(n), t + 1));
  }

  lemma {:induction false} StaleMonotone(times: seq<nat>, s: nat, t: nat)
    requires s <= t
    ensures Stale(times, s) <= Stale(times, t)
  {
    if times != [] { StaleMonotone(times[1..], s, t); }
  }

  lemma ModesInPrefix(n: seq<Presence>, i: nat, j: nat)
    requires i <= j <= |n|
    ensures ModesIn(n[..i]) <= ModesIn(n[..j])
  {
  }

  /** Some stay in the mode had ended by then. */
  predicate LeftBy(h: History, m: Mode, s: nat) {
    exists i :: 0 <= i < |StoredIn(h, m)| && StoredIn(h, m)[i].time <= s
  }

  /** A snapshot has samples of a mode exactly if the mode was first left no later; and it then has at least one for
      each segment. */
  lemma StoredIff(robot: Robot, h: History, s: nat, m: Mode)
    requires Valid(robot, h)
    ensures StoredAt(h, s, m).Some? <==> LeftBy(h, m, s)
    ensures StoredAt(h, s, m).Some? ==>
              Level(robot, StoredAt(h, s, m).value) && SizeOf(StoredAt(h, s, m).value) > 0
  {
    StoredAgrees(robot, h, m);
    hide Valid, Level;
    var stored := StoredIn(h, m);
    if i :| 0 <= i < |stored| && stored[i].time <= s { PrefixIsAll(stored, s, i); }
  }

  /** Every mode of the past of a snapshot has samples in it. */
  lemma PastStored(robot: Robot, h: History, s: nat, m: Mode)
    requires Valid(robot, h) && TraceAt(h, s).Some? && m in TraceAt(h, s).value
    ensures StoredAt(h, s, m).Some?
  {
    var p := PastStay(robot, h, s, m);
    hide *;
    StoredCovers(robot, h, p, s);
  }

  lemma PastStay(robot: Robot, h: History, s: nat, m: Mode) returns (p: Presence)
    requires Valid(robot, h) && TraceAt(h, s).Some? && m in TraceAt(h, s).value
    ensures p in h.presences && !p.mode.IsEmpty() && p.mode == m && p.from <= p.to <= s
  {
    hide TracesAgree, StatesAgree, BufferAgrees, StaysStored, TraceAt, Stale, Chained;
    TraceIsPast(robot, h, s);
    NonEmptyChained(h.presences);
    var n := NonEmpty(h.presences);
    var past := n[..Stale(Exits(n), s + 1)];
    var i :| 0 <= i < |past| && ModesIn(past)[i] == m;
    p := n[i];
    assert Exits(n)[i] < s + 1;
    StayInOrder(n, i);
  }

  lemma StayInOrder(ps: seq<Presence>, i: nat)
    requires Chained(ps) && i < |ps|
    ensures ps[i].from <= ps[i].to
  {
  }

  lemma PastHolds(robot: Robot, h: History, t: nat, p: Presence) returns (k: nat)
    requires Valid(robot, h) && p in h.presences && !p.mode.IsEmpty() && p.to <= t
    ensures TraceAt(h, t).Some? && k == Stale(Exits(NonEmpty(h.presences)), t + 1)
    ensures 0 < k <= |NonEmpty(h.presences)|
    ensures TraceAt(h, t).value == ModesIn(NonEmpty(h.presences)[..k]) && p.mode in TraceAt(h, t).value
  {
    var n := NonEmpty(h.presences);
    var i :| 0 <= i < |n| && n[i] == p;
    NonEmptyChained(h.presences);
    hide NonEmpty, Chained, TraceAt, StatesAgree, BufferAgrees, StaysStored;
    FirstTraceFound(h, t, i);
    hide Valid, TracesAgree, PresencesAgree;
    TraceIsPast(robot, h, t);
    k := Stale(Exits(n), t + 1);
    if k <= i { ExitsOrdered(n, k, i); }
    assert ModesIn(n[..k])[i] == p.mode;
  }

  lemma FirstTraceFound(h: History, t: nat, i: nat)
    requires TracesAgree(h) && Chained(NonEmpty(h.presences))
    requires i < |NonEmpty(h.presences)| && NonEmpty(h.presences)[i].to <= t
    ensures TraceAt(h, t).Some?
  {
    var n, b := NonEmpty(h.presences), |h.traces[0].value|;
    ExitsOrdered(n, 0, i);
    assert h.traces[0].time == if b == 0 then 0 else n[b - 1].to;
  }

  /** The last completed stay leads into the mode of the time it is seen from. */
  lemma PastLeadsHere(robot: Robot, h: History, t: nat, k: nat)
    requires Valid(robot, h) && k == Stale(Exits(NonEmpty(h.presences)), t + 1) && k > 0
    ensures ModeAt(h, t) == NonEmpty(h.presences)[k - 1].exit != NonEmpty(h.presences)[k - 1].mode
  {
    var n, ps := NonEmpty(h.presences), h.presences;
    var off := |ps| - |n|;
    assert Exits(n)[k - 1] <= t && ps[off + k - 1] == n[k - 1];
    if k < |n| {
      assert ps[off + k] == n[k] && Exits(n)[k] > t;
      assert ps[off + k].from == ps[off + k - 1].to;
      ModeAtFound(ps, h.latestMode, t, off + k);
    } else {
      forall i | 0 <= i < |ps| ensures !ps[i].Contains(t) { ExitsOrdered(ps, i, |ps| - 1); }
      ModeAtLatest(ps, h.latestMode, t);
    }
  }

  /** After the last exit the robot is in its latest mode, and has been since that exit. */
  lemma InLatestMode(robot: Robot, h: History, t: nat)
    requires Valid(robot, h) && h.presences != [] && LastExit(h) <= t
    ensures ModeAt(h, t) == h.latestMode && Entrance(h, h.latestMode, t) == Some(LastExit(h))
  {
    hide TracesAgree, StatesAgree, BufferAgrees, StaysStored;
    var ps := h.presences;
    forall i | 0 <= i < |ps| ensures !ps[i].Contains(t) { ExitsOrdered(ps, i, |ps| - 1); }
    ModeAtLatest(ps, h.latestMode, t);
  }

  /** What the guard comes to. */
  lemma GuardMet(robot: Robot, h: History, s: nat, t: nat, entrance: nat, p: Presence)
    requires Valid(robot, h) && t <= h.latestTime && StoredAt(h, t, ModeAt(h, t)).Some?
    requires Entrance(h, ModeAt(h, t), t) == Some(entrance) && VisitedBefore(h.presences, s, ModeAt(h, t), t)
    requires p in h.presences && !p.mode.IsEmpty() && p.mode == ModeAt(h, t) && p.from <= p.to <= s
    requires robot.Thousandths(entrance, t) < 1000 * robot.Whole(p.from, p.to)
    ensures CanLookAhead(robot, h, s, t) == Some(true)
  {
    hide TracesAgree, StatesAgree, BufferAgrees, StaysStored, ModeAt, Entrance, VisitedBefore, StoredAt, Chained;
    var m := ModeAt(h, t);
    var among := PresencesIn(h.presences, s, m);
    forall q ensures q in among ==> q in h.presences { PresencesInMembers(h.presences, s, m, q); }
    forall q | q in among ensures q.from <= q.to {
      var i :| 0 <= i < |h.presences| && h.presences[i] == q;
      StayInOrder(h.presences, i);
    }
    PresencesInMembers(h.presences, s, m, p);
    MaxWholeBounds(robot, among, p);
  }

  /** Once the sample index of a time is known, asking for look-ahead from a later time never fails. */
  lemma GuardDefined(robot: Robot, h: History, s: nat, before: nat, t: nat)
    requires Valid(robot, h) && Entrance(h, ModeAt(h, before), before).Some? && before <= t
    ensures Chained(h.presences) && CanLookAhead(robot, h, s, t) != None
  {
    EntranceKnown(robot, h, before, t);
    hide Valid, ModeAt, Entrance, StoredAt, VisitedBefore, PresencesIn;
  }

  lemma EntranceKnown(robot: Robot, h: History, before: nat, t: nat)
    requires Valid(robot, h) && Entrance(h, ModeAt(h, before), before).Some? && before <= t
    ensures Chained(h.presences) && Entrance(h, ModeAt(h, t), t).Some?
  {
    hide TracesAgree, StatesAgree, BufferAgrees, StaysStored, Chained;
    var ps := h.presences;
    if t < LastExit(h) {
      var i := EntranceWitness(ps, ModeAt(h, before), before);
      EntranceIsPast(h, ModeAt(h, before), before);
      var k := StayFound(ps, t);
      if k < i { ExitsOrdered(ps, k, i - 1); StayMeets(ps, i); }
      ModeAtFound(ps, h.latestMode, t, k);
      EntranceFound(ps, ps[k].mode, t, k);
    }
  }

  lemma StayMeets(ps: seq<Presence>, i: nat)
    requires Chained(ps) && 0 < i < |ps|
    ensures ps[i].from == ps[i - 1].to
  {
  }
}
