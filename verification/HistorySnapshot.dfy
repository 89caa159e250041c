/** What snapshots of a history answer, and that the answers last. */
module HistorySnapshots {
  import opened Capsules
  import opened Modes
  import opened TimedEntries
  import opened Histories

  /* Runs */

  datatype Event = State(mode: Mode, observations: seq<Observation>, time: nat) | Purge(cutoff: nat)

  predicate Enabled(robot: Robot, h: History, e: Event) {
    match e
    case State(mode, os, t) => h.latestTime <= t && !mode.IsEmpty() && |os| == robot.segments
    case Purge(cutoff) => Purgeable(h, cutoff)
  }

  function After(robot: Robot, h: History, e: Event): (h': History)
    requires Valid(robot, h) && Enabled(robot, h, e)
    ensures Valid(robot, h')
  {
    match e
    case State(mode, os, t) => (AcquiredValid(robot, h, mode, os, t); Acquired(robot, h, mode, os, t))
    case Purge(cutoff) => (PurgedValid(robot, h, cutoff); Purged(robot, h, cutoff))
  }

  /** h' is reached from h by a run of the events. */
  predicate Runs(robot: Robot, h: History, events: seq<Event>, h': History)
    requires Valid(robot, h)
    decreases |events|
  {
    hide After, Valid;
    if events == [] then h' == h
    else Enabled(robot, h, events[0]) && Runs(robot, After(robot, h, events[0]), events[1..], h')
  }

  /** In every run, presences, traces, stored samples and buffer are views of the same past. */
  lemma {:induction false} RunValid(robot: Robot, h: History, events: seq<Event>, h': History)
    requires Valid(robot, h) && Runs(robot, h, events, h')
    ensures Valid(robot, h')
    decreases |events|
  {
    if events != [] { RunValid(robot, After(robot, h, events[0]), events[1..], h'); }
  }

  /* Queries */

  function ModeAtIn(ps: seq<Presence>, latest: Mode, t: nat): Mode {
    if ps == [] then latest else if ps[0].Contains(t) then ps[0].mode else ModeAtIn(ps[1..], latest, t)
  }

  function ModeAt(h: History, t: nat): Mode {
    ModeAtIn(h.presences, h.latestMode, t)
  }

  function TraceAt(h: History, s: nat): Option<seq<Mode>> {
    var n := Prefix(h.traces, s);
    if n == 0 then None else Some(h.traces[n - 1].value)
  }

  function StoredAt(h: History, s: nat, m: Mode): Option<BodySamples> {
    var n := Prefix(StoredIn(h, m), s);
    if n == 0 then None else Some(StoredIn(h, m)[n - 1].value)
  }

  function PresencesIn(ps: seq<Presence>, s: nat, m: Mode): seq<Presence> {
    if ps == [] then []
    else
      var last := ps[|ps| - 1];
      PresencesIn(ps[..|ps| - 1], s, m) +
      (if !last.mode.IsEmpty() && last.mode == m && last.to <= s then [last] else [])
  }

  /** The entrance into the stay that contains t; the first stay left is not considered. */
  function EntranceIn(ps: seq<Presence>, m: Mode, t: nat): (r: Option<nat>)
    ensures r.Some? ==> r.value <= t
  {
    if |ps| <= 1 then None
    else
      var last := ps[|ps| - 1];
      if last.mode == m && last.Contains(t) then Some(last.from) else EntranceIn(ps[..|ps| - 1], m, t)
  }

  function Entrance(h: History, m: Mode, t: nat): (r: Option<nat>)
    ensures r.Some? ==> r.value <= t
  {
    if h.presences == [] then None
    else if t >= LastExit(h) then Some(LastExit(h))
    else EntranceIn(h.presences, m, t)
  }

  /** The position of t in mode m, in thousandths of a sample. */
  function UnroundedSampleIndex(robot: Robot, h: History, m: Mode, t: nat): Option<nat> {
    match Entrance(h, m, t)
    case None => None
    case Some(e) => Some(robot.Thousandths(e, t))
  }

  /** The sample index of t in mode m, if it is in the snapshot at s. */
  function CheckedSampleIndex(robot: Robot, h: History, s: nat, m: Mode, t: nat): Option<nat> {
    match UnroundedSampleIndex(robot, h, m, t)
    case None => None
    case Some(u) =>
      var stored := StoredAt(h, s, m);
      if stored.Some? && u / 1000 < SizeOf(stored.value) then Some(u / 1000) else None
  }

  function MaxWhole(robot: Robot, ps: seq<Presence>): nat
    requires forall p :: p in ps ==> p.from <= p.to
  {
    if ps == [] then 0
    else
      var last := ps[|ps| - 1];
      var w, others := robot.Whole(last.from, last.to), MaxWhole(robot, ps[..|ps| - 1]);
      if w < others then others else w
  }

  /** The fewest and the most whole samples that fit in one of the stays, both attained. */
  ghost predicate IsRangeOf(robot: Robot, among: seq<Presence>, lower: nat, upper: nat)
    requires forall p :: p in among ==> p.from <= p.to
  {
    && upper == MaxWhole(robot, among) && lower <= upper
    && if among == [] then lower == 0
       else
         && (forall p :: p in among ==> lower <= robot.Whole(p.from, p.to) <= upper)
         && (exists p :: p in among && lower == robot.Whole(p.from, p.to))
  }

  lemma {:induction false} MaxWholeAttained(robot: Robot, ps: seq<Presence>) returns (i: nat)
    requires ps != [] && forall p :: p in ps ==> p.from <= p.to
    ensures i < |ps| && robot.Whole(ps[i].from, ps[i].to) == MaxWhole(robot, ps)
  {
    var last := ps[|ps| - 1];
    if |ps| == 1 || robot.Whole(last.from, last.to) >= MaxWhole(robot, ps[..|ps| - 1]) {
      i := |ps| - 1;
    } else {
      i := MaxWholeAttained(robot, ps[..|ps| - 1]);
    }
  }

  lemma {:induction false} PresencesInMembers(ps: seq<Presence>, s: nat, m: Mode, p: Presence)
    ensures p in PresencesIn(ps, s, m) <==> p in ps && !p.mode.IsEmpty() && p.mode == m && p.to <= s
  {
    if ps != [] {
      PresencesInMembers(ps[..|ps| - 1], s, m, p);
      assert ps == ps[..|ps| - 1] + [ps[|ps| - 1]];
    }
  }

  /** Whether the robot was in the mode before, seen from a stay that began before the snapshot. */
  predicate VisitedBefore(ps: seq<Presence>, s: nat, m: Mode, t: nat) {
    exists i :: 0 <= i < |ps| && ps[i].from < s && !ps[i].mode.IsEmpty() && ps[i].mode == m && t > ps[i].to
  }

  /** None stands for a failure to find the sample index. */
  function CanLookAhead(robot: Robot, h: History, s: nat, t: nat): Option<bool>
    requires Chained(h.presences)
  {
    var m := ModeAt(h, t);
    var among := PresencesIn(h.presences, s, m);
    forall p ensures p in among ==> p.from <= p.to { PresencesInMembers(h.presences, s, m, p); }
    if t > h.latestTime || StoredAt(h, t, m).None? then Some(false)
    else match UnroundedSampleIndex(robot, h, m, t)
      case None => None
      case Some(u) =>
        if u >= 1000 * MaxWhole(robot, among) then Some(false) else Some(VisitedBefore(h.presences, s, m, t))
  }

  /* The presence that contains a time is unique, so that the searches agree */

  lemma {:induction false} ModeAtFound(ps: seq<Presence>, latest: Mode, t: nat, i: nat)
    requires Chained(ps) && i < |ps| && ps[i].Contains(t)
    ensures ModeAtIn(ps, latest, t) == ps[i].mode
  {
    if i > 0 {
      ExitsOrdered(ps, 0, i - 1);
      SuffixChained(ps, 1);
      ModeAtFound(ps[1..], latest, t, i - 1);
    }
  }

  lemma {:induction false} ModeAtLatest(ps: seq<Presence>, latest: Mode, t: nat)
    requires forall i :: 0 <= i < |ps| ==> !ps[i].Contains(t)
    ensures ModeAtIn(ps, latest, t) == latest
  {
    if ps != [] {
      assert forall i :: 0 <= i < |ps[1..]| ==> ps[1..][i] == ps[i + 1];
      ModeAtLatest(ps[1..], latest, t);
    }
  }

  /** From the first entrance on, some stay contains t, up to the last exit. */
  lemma StayFound(ps: seq<Presence>, t: nat) returns (i: nat)
    requires Chained(ps) && ps != [] && ps[0].from <= t < ps[|ps| - 1].to
    ensures i < |ps| && ps[i].Contains(t)
  {
    i := Stale(Exits(ps), t + 1);
    if i > 0 { assert ps[i].from == ps[i - 1].to && Exits(ps)[i - 1] <= t; }
  }

  lemma PrefixChained(ps: seq<Presence>, n: nat)
    requires Chained(ps) && n <= |ps|
    ensures Chained(ps[..n])
  {
    forall i | 0 < i < n ensures ps[..n][i].from == ps[..n][i - 1].to && ps[..n][i].mode == ps[..n][i - 1].exit {
      assert ps[i].from == ps[i - 1].to;
    }
  }

  lemma {:induction false} EntranceFound(ps: seq<Presence>, m: Mode, t: nat, i: nat)
    requires Chained(ps) && i < |ps| && ps[i].Contains(t)
    ensures EntranceIn(ps, m, t) == if i > 0 && ps[i].mode == m then Some(ps[i].from) else None
  {
    var n := |ps| - 1;
    if i < n {
      ExitsOrdered(ps, i, n - 1);
      assert ps[n].from == ps[n - 1].to;
      PrefixChained(ps, n);
      EntranceFound(ps[..n], m, t, i);
    } else if i > 0 && ps[i].mode != m {
      ExitsOrdered(ps, 0, n - 1);
      EntranceNone(ps, m, t, n);
    }
  }

  lemma {:induction false} EntranceNone(ps: seq<Presence>, m: Mode, t: nat, n: nat)
    requires Chained(ps) && n < |ps| && ps[n].from <= t
    ensures EntranceIn(ps[..n], m, t) == None
  {
    if n > 1 {
      assert ps[n].from == ps[n - 1].to && ps[..n][..n - 1] == ps[..n - 1];
      EntranceNone(ps, m, t, n - 1);
    }
  }

  /** Failing the search means the stay is not there, or is the first one left, or is in another mode. */
  lemma {:induction false} EntranceWitness(ps: seq<Presence>, m: Mode, t: nat) returns (i: nat)
    requires EntranceIn(ps, m, t).Some?
    ensures 0 < i < |ps| && ps[i].mode == m && ps[i].Contains(t) && EntranceIn(ps, m, t) == Some(ps[i].from)
  {
    var last := ps[|ps| - 1];
    if last.mode == m && last.Contains(t) { i := |ps| - 1; } else { i := EntranceWitness(ps[..|ps| - 1], m, t); }
  }

  /* Traces and stays tell the same past */

  /** The trace of a snapshot holds exactly the modes of the stays completed by then. */
  lemma TraceIsPast(robot: Robot, h: History, s: nat)
    requires Valid(robot, h) && TraceAt(h, s).Some?
    ensures var n := NonEmpty(h.presences); TraceAt(h, s).value == ModesIn(n[..Stale(Exits(n), s + 1)])
  {
    hide TracesOf, NonEmpty, Stale, Prefix, StatesAgree, BufferAgrees, StaysStored;
    NonEmptyChained(h.presences);
    hide Chained;
    TraceOfPast(h.traces, NonEmpty(h.presences), |h.traces[0].value|, s);
  }

  lemma TraceOfPast(traces: seq<Timed<seq<Mode>>>, n: seq<Presence>, b: nat, s: nat)
    requires TracesOf(traces, n, b) && Chained(n) && Prefix(traces, s) > 0
    ensures traces[Prefix(traces, s) - 1].value == ModesIn(n[..Stale(Exits(n), s + 1)])
  {
    var j := Prefix(traces, s) - 1;
    var k := b + j;
    assert traces[j].value == ModesIn(n)[..k] && traces[j].time == if k == 0 then 0 else n[k - 1].to;
    if j + 1 < |traces| { assert traces[j + 1].time == n[b + (j + 1) - 1].to; }
    CompletedCount(n, s, k);
    assert ModesIn(n[..k]) == ModesIn(n)[..k];
  }

  lemma NonEmptyChained(ps: seq<Presence>)
    requires Chained(ps)
    ensures Chained(NonEmpty(ps)) && forall i :: 0 <= i < |NonEmpty(ps)| ==> !NonEmpty(ps)[i].mode.IsEmpty()
  {
    SuffixChained(ps, if ps == [] then 0 else 1);
    forall i | 0 < i < |ps| ensures !ps[i].mode.IsEmpty() { assert ps[i].mode == ps[i - 1].exit; }
  }

  lemma CompletedCount(n: seq<Presence>, s: nat, k: nat)
    requires Chained(n) && k <= |n| && (k > 0 ==> n[k - 1].to <= s) && (k < |n| ==> n[k].to > s)
    ensures Stale(Exits(n), s + 1) == k
  {
    var c := Stale(Exits(n), s + 1);
    if c < k { ExitsOrdered(n, c, k - 1); }
  }

  /* Snapshots last */

  /** A state acquired after the snapshot changes none of its traces, samples and stays. */
  lemma SnapshotStable(robot: Robot, h: History, mode: Mode, os: seq<Observation>, t: nat, s: nat, m: Mode)
    requires Valid(robot, h) && h.latestTime <= t && !mode.IsEmpty() && |os| == robot.segments && s < t
    ensures var h' := Acquired(robot, h, mode, os, t);
            && TraceAt(h', s) == TraceAt(h, s)
            && StoredAt(h', s, m) == StoredAt(h, s, m)
            && PresencesIn(h'.presences, s, m) == PresencesIn(h.presences, s, m)
  {
    hide Acquired, Valid, PresencesIn, AppendsAt, Prefix, Chained;
    AcquiredAppends(robot, h, mode, os, t, m);
    var h' := Acquired(robot, h, mode, os, t);
    LookupStable(h.traces, h'.traces, t, s);
    LookupStable(StoredIn(h, m), StoredIn(h', m), t, s);
    PresencesStable(h.presences, Closing(h, mode, t), s, m);
  }

  /** What a snapshot at s holds is the same in both histories: the trace, and the samples and stays of each mode. */
  ghost predicate SameSnapshot(h: History, h': History, s: nat) {
    && TraceAt(h', s) == TraceAt(h, s)
    && (forall m :: StoredAt(h', s, m) == StoredAt(h, s, m))
    && (forall m :: PresencesIn(h'.presences, s, m) == PresencesIn(h.presences, s, m))
  }

  /** Nor does any run of states later than the snapshot. */
  lemma {:induction false} RunSnapshotStable(robot: Robot, h: History, events: seq<Event>, h': History, s: nat)
    requires Valid(robot, h) && Runs(robot, h, events, h')
    requires forall i :: 0 <= i < |events| ==> events[i].State? && s < events[i].time
    ensures SameSnapshot(h, h', s)
    decreases |events|
  {
    hide Valid, Acquired, PresencesIn, TraceAt, StoredAt;
    if events == [] {
    } else {
      var e := events[0];
      SnapshotStable(robot, h, e.mode, e.observations, e.time, s, NO_MODE);
      forall m
        ensures StoredAt(After(robot, h, e), s, m) == StoredAt(h, s, m)
        ensures PresencesIn(After(robot, h, e).presences, s, m) == PresencesIn(h.presences, s, m)
      {
        SnapshotStable(robot, h, e.mode, e.observations, e.time, s, m);
      }
      assert SameSnapshot(h, After(robot, h, e), s);
      RunSnapshotStable(robot, After(robot, h, e), events[1..], h', s);
    }
  }

  lemma LookupStable<T>(es: seq<Timed<T>>, es': seq<Timed<T>>, t: nat, s: nat)
    requires es' == es || AppendsAt(es, es', t)
    requires s < t
    ensures Prefix(es', s) == Prefix(es, s) && (Prefix(es, s) > 0 ==> es'[Prefix(es, s) - 1] == es[Prefix(es, s) - 1])
  {
    if es' != es { PrefixStable(es, es'[|es|], s); }
  }

  lemma PresencesStable(ps: seq<Presence>, p: Presence, s: nat, m: Mode)
    requires s < p.to
    ensures PresencesIn(ps + [p], s, m) == PresencesIn(ps, s, m)
  {
    assert (ps + [p])[..|ps|] == ps;
  }

  ghost predicate AppendsAt<T>(es: seq<Timed<T>>, es': seq<Timed<T>>, t: nat) {
    |es'| == |es| + 1 && es' == es + [es'[|es|]] && es'[|es|].time == t
  }

  /** All that acquiring a state does to the views of the past is to append to them, at its own time. */
  lemma AcquiredAppends(robot: Robot, h: History, mode: Mode, os: seq<Observation>, t: nat, m: Mode)
    requires Valid(robot, h) && h.latestTime <= t && !mode.IsEmpty() && |os| == robot.segments
    ensures var h' := Acquired(robot, h, mode, os, t);
            && h'.latestMode == mode && h'.latestTime == t
            && h'.presences == (if h.latestMode == mode then h.presences else h.presences + [Closing(h, mode, t)])
            && (h'.traces == h.traces || AppendsAt(h.traces, h'.traces, t))
            && (StoredIn(h', m) == StoredIn(h, m) || AppendsAt(StoredIn(h, m), StoredIn(h', m), t))
  {
    hide Valid, Recorded, LeftSamples;
  }

  /** Nor the mode and the sample index of any time before it. */
  lemma IndexStable(robot: Robot, h: History, mode: Mode, os: seq<Observation>, t: nat, u: nat)
    requires Valid(robot, h) && h.latestTime <= t && !mode.IsEmpty() && |os| == robot.segments && u < t
    requires h.presences != [] && h.presences[0].from <= u && Entrance(h, ModeAt(h, u), u).Some?
    ensures var h' := Acquired(robot, h, mode, os, t);
            ModeAt(h', u) == ModeAt(h, u) && Entrance(h', ModeAt(h, u), u) == Entrance(h, ModeAt(h, u), u)
  {
    AcquiredAppends(robot, h, mode, os, t, NO_MODE);
    hide Acquired, ModeAt, Entrance;
    AcquiredValid(robot, h, mode, os, t);
    if h.latestMode != mode {
      hide TracesAgree, StatesAgree, BufferAgrees, StaysStored, Chained;
      if u < LastExit(h) {
        PastIndexStable(h, Acquired(robot, h, mode, os, t), mode, t, u);
      } else {
        PresentIndexStable(h, Acquired(robot, h, mode, os, t), mode, t, u);
      }
    } else {
      SameIndex(h, Acquired(robot, h, mode, os, t), u);
    }
  }

  lemma SameIndex(h: History, h': History, u: nat)
    requires h'.presences == h.presences && h'.latestMode == h.latestMode
    ensures ModeAt(h', u) == ModeAt(h, u) && Entrance(h', ModeAt(h, u), u) == Entrance(h, ModeAt(h, u), u)
  {
  }

  lemma PastIndexStable(h: History, h': History, mode: Mode, t: nat, u: nat)
    requires Chained(h.presences) && Chained(h'.presences) && h'.presences == h.presences + [Closing(h, mode, t)]
    requires h.presences != [] && h.presences[0].from <= u < LastExit(h) <= t
    ensures ModeAt(h', u) == ModeAt(h, u) && Entrance(h', ModeAt(h, u), u) == Entrance(h, ModeAt(h, u), u)
  {
    var ps, ps' := h.presences, h'.presences;
    var i := StayFound(ps, u);
    assert ps'[i] == ps[i];
    hide Chained;
    ModeAtFound(ps, h.latestMode, u, i);
    ModeAtFound(ps', h'.latestMode, u, i);
    EntranceFound(ps, ModeAt(h, u), u, i);
    EntranceFound(ps', ModeAt(h, u), u, i);
  }

  lemma PresentIndexStable(h: History, h': History, mode: Mode, t: nat, u: nat)
    requires Chained(h.presences) && Chained(h'.presences) && h'.presences == h.presences + [Closing(h, mode, t)]
    requires h.presences != [] && LastExit(h) <= u < t
    ensures ModeAt(h', u) == ModeAt(h, u) && Entrance(h', ModeAt(h, u), u) == Entrance(h, ModeAt(h, u), u)
  {
    var ps, ps' := h.presences, h'.presences;
    forall i | 0 <= i < |ps| ensures !ps[i].Contains(u) { ExitsOrdered(ps, i, |ps| - 1); }
    hide Chained;
    ModeAtLatest(ps, h.latestMode, u);
    ModeAtFound(ps', h'.latestMode, u, |ps|);
    EntranceFound(ps', ModeAt(h, u), u, |ps|);
  }

  /* The index of a time lasts */

  /** Later states, and later snapshots, hold at least the samples of earlier ones. */
  lemma StoredGrows(robot: Robot, h: History, mode: Mode, os: seq<Observation>, t: nat, m: Mode, s: nat, later: nat)
    requires Valid(robot, h) && h.latestTime <= t && !mode.IsEmpty() && |os| == robot.segments
    requires StoredAt(h, s, m).Some? && s <= later
    ensures var h' := Acquired(robot, h, mode, os, t);
            StoredAt(h', later, m).Some? && SizeOf(StoredAt(h', later, m).value) >= SizeOf(StoredAt(h, s, m).value)
  {
    hide Valid, Acquired, AppendsAt, Chained;
    AcquiredAppends(robot, h, mode, os, t, m);
    AcquiredValid(robot, h, mode, os, t);
    var h' := Acquired(robot, h, mode, os, t);
    StaysPrefix(StoredIn(h, m), StoredIn(h', m), t);
    StoredAgrees(robot, h', m);
    StoreGrows(robot, StoredIn(h, m), StoredIn(h', m), h'.latestTime, s, later);
  }

  lemma StaysPrefix<T>(es: seq<Timed<T>>, es': seq<Timed<T>>, t: nat)
    requires es' == es || AppendsAt(es, es', t)
    ensures es <= es'
  {
  }

  lemma StoredAgrees(robot: Robot, h: History, m: Mode)
    requires Valid(robot, h)
    ensures StoredIn(h, m) != [] ==> StoreAgrees(robot, StoredIn(h, m), h.latestTime)
  {
    hide PresencesAgree, TracesAgree, BufferAgrees, StaysStored, Chained;
  }

  lemma StoreGrows(robot: Robot, stored: seq<Timed<BodySamples>>, stored': seq<Timed<BodySamples>>, latestTime: nat,
                   s: nat, later: nat)
    requires StoreAgrees(robot, stored', latestTime) && stored <= stored' && s <= later && Prefix(stored, s) > 0
    ensures Prefix(stored', later) >= Prefix(stored, s)
    ensures SizeOf(stored'[Prefix(stored', later) - 1].value) >= SizeOf(stored[Prefix(stored, s) - 1].value)
  {
    var i := Prefix(stored, s) - 1;
    assert stored'[i] == stored[i];
    PrefixIsAll(stored', later, i);
  }

  lemma EntranceIsPast(h: History, m: Mode, u: nat)
    requires Chained(h.presences) && Entrance(h, m, u).Some?
    ensures h.presences != [] && h.presences[0].from <= u
  {
    if u >= LastExit(h) {
      ExitsOrdered(h.presences, 0, |h.presences| - 1);
    } else {
      var i := EntranceWitness(h.presences, m, u);
      ExitsOrdered(h.presences, 0, i - 1);
      assert h.presences[i].from == h.presences[i - 1].to;
    }
  }

  /** Once found, the sample index of a time is found in every later state and snapshot, and is the same. */
  lemma IndexLasts(robot: Robot, h: History, mode: Mode, os: seq<Observation>, t: nat, s: nat, u: nat, later: nat)
    requires Valid(robot, h) && h.latestTime <= t && !mode.IsEmpty() && |os| == robot.segments && u < t && s <= later
    requires CheckedSampleIndex(robot, h, s, ModeAt(h, u), u).Some?
    ensures var h' := Acquired(robot, h, mode, os, t);
            && ModeAt(h', u) == ModeAt(h, u)
            && CheckedSampleIndex(robot, h', later, ModeAt(h, u), u) == CheckedSampleIndex(robot, h, s, ModeAt(h, u), u)
  {
    EntranceIsPast(h, ModeAt(h, u), u);
    hide Valid, ModeAt, Entrance, StoredAt, Acquired;
    IndexStable(robot, h, mode, os, t, u);
    StoredGrows(robot, h, mode, os, t, ModeAt(h, u), s, later);
  }

  /** Over any further run of states, however long: what the guard admitted never fails. */
  lemma {:induction false} GuardImpliesBoundLater(robot: Robot, h: History, events: seq<Event>, h': History, s: nat,
                                                  u: nat, later: nat)
    requires Valid(robot, h) && Runs(robot, h, events, h') && s <= later
    requires forall i :: 0 <= i < |events| ==> events[i].State? && events[i].time > u
    requires CheckedSampleIndex(robot, h, s, ModeAt(h, u), u).Some?
    ensures ModeAt(h', u) == ModeAt(h, u)
    ensures CheckedSampleIndex(robot, h', later, ModeAt(h, u), u) == CheckedSampleIndex(robot, h, s, ModeAt(h, u), u)
    decreases |events|
  {
    hide Valid, CheckedSampleIndex, ModeAt, Acquired;
    if events == [] {
      SnapshotLasts(robot, h, s, ModeAt(h, u), u, later);
    } else {
      var e := events[0];
      IndexLasts(robot, h, e.mode, e.observations, e.time, s, u, s);
      GuardImpliesBoundLater(robot, After(robot, h, e), events[1..], h', s, u, later);
    }
  }

  lemma SnapshotLasts(robot: Robot, h: History, s: nat, m: Mode, u: nat, later: nat)
    requires Valid(robot, h) && s <= later && CheckedSampleIndex(robot, h, s, m, u).Some?
    ensures CheckedSampleIndex(robot, h, later, m, u) == CheckedSampleIndex(robot, h, s, m, u)
  {
    hide Valid, Entrance;
    StoredAgrees(robot, h, m);
    StoreGrows(robot, StoredIn(h, m), StoredIn(h, m), h.latestTime, s, later);
  }

  /** The stay that contains u is not the first in the history, and the stay before it ended at or after the
      cutoff; or u is in the present stay. */
  predicate PrecededSince(h: History, cutoff: nat, u: nat) {
    h.presences != [] &&
    (u >= LastExit(h) ||
     exists i :: 0 < i < |h.presences| && h.presences[i].Contains(u) && h.presences[i - 1].to >= cutoff)
  }

  /** A purge loses the index of a time exactly when it drops the stay before the one that contains it: the search
      stops before the first stay. */
  lemma PurgeKeepsIndexIff(robot: Robot, h: History, cutoff: nat, s: nat, u: nat)
    requires Valid(robot, h) && Purgeable(h, cutoff) && CheckedSampleIndex(robot, h, s, ModeAt(h, u), u).Some?
    ensures var h' := Purged(robot, h, cutoff);
            && (CheckedSampleIndex(robot, h', s, ModeAt(h, u), u).Some? <==> PrecededSince(h, cutoff, u))
            && (CheckedSampleIndex(robot, h', s, ModeAt(h, u), u).Some? ==>
                CheckedSampleIndex(robot, h', s, ModeAt(h, u), u) == CheckedSampleIndex(robot, h, s, ModeAt(h, u), u))
  {
    hide Valid, ModeAt, Purged, Purgeable, Entrance, StoredAt, Stale, PrecededSince;
    var d := PurgedSuffix(robot, h, cutoff);
    PurgedEntrance(h, Purged(robot, h, cutoff), d, cutoff, ModeAt(h, u), u);
    SameStore(h, Purged(robot, h, cutoff), s, ModeAt(h, u));
  }

  lemma SameStore(h: History, h': History, s: nat, m: Mode)
    requires h'.states == h.states
    ensures StoredAt(h', s, m) == StoredAt(h, s, m)
  {
  }

  lemma PurgedSuffix(robot: Robot, h: History, cutoff: nat) returns (d: nat)
    requires Valid(robot, h) && Purgeable(h, cutoff)
    ensures d < |h.presences| && Chained(h.presences) && d == Stale(Exits(h.presences), cutoff)
    ensures var h' := Purged(robot, h, cutoff); h'.presences == h.presences[d..] && h'.states == h.states
  {
    PurgedNonEmpty(robot, h, cutoff);
    d := Stale(Exits(h.presences), cutoff);
    hide TracesAgree, StatesAgree, BufferAgrees, StaysStored, Chained, Stale, Purgeable, Cut;
  }

  lemma PurgedEntrance(h: History, h': History, d: nat, cutoff: nat, m: Mode, u: nat)
    requires Chained(h.presences) && d < |h.presences| && d == Stale(Exits(h.presences), cutoff)
    requires h'.presences == h.presences[d..] && Entrance(h, m, u).Some?
    ensures Entrance(h', m, u).Some? <==> PrecededSince(h, cutoff, u)
    ensures Entrance(h', m, u).Some? ==> Entrance(h', m, u) == Entrance(h, m, u)
  {
    hide Chained, EntranceIn, Stale;
    assert LastExit(h') == LastExit(h);
    if u < LastExit(h) {
      var i := EntranceWitness(h.presences, m, u);
      SuffixEntrance(h.presences, d, m, u, i);
      PrecededByLate(h.presences, cutoff, u, i);
    }
  }

  lemma SuffixEntrance(ps: seq<Presence>, d: nat, m: Mode, u: nat, i: nat)
    requires Chained(ps) && d < |ps| && 0 < i < |ps| && ps[i].mode == m && ps[i].Contains(u)
    ensures EntranceIn(ps, m, u) == Some(ps[i].from)
    ensures EntranceIn(ps[d..], m, u) == if i > d then Some(ps[i].from) else None
  {
    SuffixChained(ps, d);
    EntranceFound(ps, m, u, i);
    if i >= d {
      assert ps[d..][i - d] == ps[i];
      EntranceFound(ps[d..], m, u, i - d);
    } else {
      ExitsOrdered(ps, i, d);
      EntranceBefore(ps[d..], m, u);
    }
  }

  /** Only one stay contains u, and the exits are in order. */
  lemma PrecededByLate(ps: seq<Presence>, cutoff: nat, u: nat, i: nat)
    requires Chained(ps) && 0 < i < |ps| && ps[i].Contains(u)
    ensures i > Stale(Exits(ps), cutoff) <==> ps[i - 1].to >= cutoff
    ensures forall j :: 0 < j < |ps| && ps[j].Contains(u) ==> j == i
  {
    var d := Stale(Exits(ps), cutoff);
    if d < i { ExitsOrdered(ps, d, i - 1); }
    forall j | 0 < j < |ps| && ps[j].Contains(u) ensures j == i {
      if j < i { ExitsOrdered(ps, j, i - 1); } else if i < j { ExitsOrdered(ps, i, j - 1); }
    }
  }

  lemma {:induction false} EntranceBefore(ps: seq<Presence>, m: Mode, u: nat)
    requires Chained(ps) && ps != [] && u < ps[0].to
    ensures EntranceIn(ps, m, u) == None
  {
    var n := |ps| - 1;
    if n > 0 {
      ExitsOrdered(ps, 0, n - 1);
      assert ps[n].from == ps[n - 1].to;
      PrefixChained(ps, n);
      EntranceBefore(ps[..n], m, u);
    }
  }
}
