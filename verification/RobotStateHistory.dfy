/** The history of a robot's states, updated in place, and the queries on its snapshots. */
module RobotStateHistories {
  import opened Capsules
  import opened Modes
  import opened TimedEntries
  import opened Histories
  import S = HistorySnapshots

  class RobotStateHistory {
    const robot: Robot
    var presences: seq<Presence>
    var states: States
    var latestMode: Mode
    var latestTime: nat
    var buffer: BodySamples
    var traces: seq<Timed<seq<Mode>>>

    function Value(): History
      reads this
    {
      History(presences, states, latestMode, latestTime, buffer, traces)
    }

    ghost predicate Valid()
      reads this
    {
      Histories.Valid(robot, Value())
    }

    constructor (robot: Robot)
      requires robot.Valid()
      ensures this.robot == robot && Value() == Created(robot) && Valid()
    {
      this.robot := robot;
      presences, states, latestMode, latestTime := [], map[], NO_MODE, 0;
      buffer := NoSamples(robot);
      traces := [Timed(0, [])];
      new;
      CreatedValid(robot);
    }

    /** Repeats the last sample of each segment n times. */
    method Pad(n: nat)
      requires forall i :: 0 <= i < |buffer| ==> buffer[i] != []
      modifies this`buffer
      ensures buffer == Padded(old(buffer), n)
    {
      var padded := [];
      var i := 0;
      while i < |buffer|
        invariant 0 <= i <= |buffer| && buffer == old(buffer) && padded == Padded(buffer[..i], n)
      {
        var samples := PadSegment(buffer[i], n);
        PaddedStep(buffer, i, n);
        padded := padded + [samples];
        i := i + 1;
      }
      assert buffer[..i] == buffer;
      buffer := padded;
    }

    static method PadSegment(samples: seq<Sample>, n: nat) returns (r: seq<Sample>)
      requires samples != []
      ensures r == samples + Copies(samples[|samples| - 1], n)
    {
      var lastSample := samples[|samples| - 1];
      r := samples;
      var j := 0;
      while j < n
        invariant 0 <= j <= n && r == samples + Copies(lastSample, j)
      {
        CopiesStep(samples, lastSample, j);
        r := r + [lastSample];
        j := j + 1;
      }
    }

    /** Leaves the current mode and enters another, if the mode differs. */
    method Switch(mode: Mode, t: nat)
      requires Valid() && latestTime <= t && !mode.IsEmpty()
      modifies this
      ensures Value() == Switched(robot, old(Value()), mode, t)
    {
      if latestMode.IsEmpty() || latestMode != mode {
        EmptyAtFirst(robot, Value());
        LatestFound(robot, Value(), mode, t);
        hide Histories.Valid, Left, Prefix, Entered;
        if !latestMode.IsEmpty() {
          LeavesOthers(robot, Value(), t, mode);
          EnteredOverwrites(robot, Left(robot, Value(), t), mode, t);
          Leave(t);
        }
        Enter(mode, t);
      }
    }

    method Enter(mode: Mode, t: nat)
      requires mode in states ==> states[mode] != [] && Prefix(states[mode], t) == |states[mode]|
      modifies this
      ensures Value() == Entered(robot, old(Value()), mode, t)
    {
      hide Prefix;
      if mode in states {
        var n := FindPrefix(states[mode], t);
        buffer := states[mode][n - 1].value;
      } else {
        buffer := NoSamples(robot);
      }
      var entrance := if presences == [] then t else presences[|presences| - 1].to;
      presences := presences + [Presence(latestMode, mode, entrance, t)];
      latestMode := mode;
    }

    /** Stores the samples of the current mode, padded to cover the stay, and extends the trace. */
    method Leave(t: nat)
      requires Valid() && latestTime <= t && !latestMode.IsEmpty()
      modifies this
      ensures Value() == Left(robot, old(Value()), t).(buffer := buffer)
    {
      hide AtExit, TracesOf, StatesAgree, StaysStored, Chained;
      EmptyAtFirst(robot, Value());
      LevelNonEmpty(robot, buffer);
      var u := UnroundedSampleIndex(latestMode, t);
      PadAtExit(u.value);
      var stored := if latestMode in states then states[latestMode] else [];
      states := states[latestMode := stored + [Timed(t, buffer)]];
      traces := traces + [Timed(t, traces[|traces| - 1].value + [latestMode])];
    }

    method PadAtExit(u: nat)
      requires buffer != [] && buffer[0] != [] && forall i :: 0 <= i < |buffer| ==> buffer[i] != []
      modifies this`buffer
      ensures buffer == AtExit(robot, old(buffer), u)
    {
      var size := |buffer[0]|;
      if u > 1000 * size {
        Pad(u / 1000 - (size - 1));
      } else {
        PaddedNone(buffer);
      }
    }

    /** The position of t in mode m, in thousandths of a sample; None where the source fails. */
    method UnroundedSampleIndex(m: Mode, t: nat) returns (u: Option<nat>)
      requires presences != []
      ensures u == S.UnroundedSampleIndex(robot, Value(), m, t)
    {
      var i := |presences| - 1;
      if t >= presences[i].to {
        return Some(robot.Thousandths(presences[i].to, t));
      }
      assert presences[..i + 1] == presences;
      while i > 0
        invariant 0 <= i < |presences| && t < presences[|presences| - 1].to
        invariant S.EntranceIn(presences[..i + 1], m, t) == S.EntranceIn(presences, m, t)
      {
        var p := presences[i];
        assert presences[..i + 1][..i] == presences[..i];
        if p.mode == m && p.from <= t && p.to > t {
          return Some(robot.Thousandths(p.from, t));
        }
        i := i - 1;
      }
      u := None;
    }

    method Acquire(mode: Mode, os: seq<Observation>, t: nat)
      requires Valid() && latestTime <= t && !mode.IsEmpty() && |os| == robot.segments
      modifies this
      ensures Valid() && Value() == Acquired(robot, old(Value()), mode, os, t)
    {
      AcquiredValid(robot, Value(), mode, os, t);
      SwitchedRecordable(robot, Value(), mode, t);
      hide Histories.Valid, Switched, Recordable, Position;
      Switch(mode, t);
      Record(os, t);
    }

    /** Merges the observations into the buffer, at the position of t or at its end. */
    method Record(os: seq<Observation>, t: nat)
      requires Switching(robot, Value(), t) && |os| == robot.segments
      modifies this`buffer, this`latestTime
      ensures var (index, distance) := Position(robot, old(Value()), t);
              && Recordable(old(buffer), index, distance)
              && Value() == old(Value()).(latestTime := t, buffer := Recorded(old(buffer), index, distance, os))
    {
      hide TracesAgree, PresencesAgree, StaysStored, Recorded, Chained;
      SwitchingRecordable(robot, Value(), t);
      latestTime := t;
      var index, distance := |buffer[0]|, 1;
      if latestMode in states {
        var u := UnroundedSampleIndex(latestMode, t);
        index := u.value / 1000;
        LatestAtSwitching(robot, old(Value()), t);
        var n := FindPrefix(states[latestMode], t);
        distance := index - (SizeOf(states[latestMode][n - 1].value) - 1);
      }
      ObserveAll(os, index, distance);
    }

    method ObserveAll(os: seq<Observation>, index: nat, distance: int)
      requires |os| == |buffer| && Recordable(buffer, index, distance)
      modifies this`buffer
      ensures buffer == Recorded(old(buffer), index, distance, os)
    {
      var updated := [];
      var i := 0;
      while i < |buffer|
        invariant 0 <= i <= |buffer| && buffer == old(buffer) && |updated| == i
        invariant forall k :: 0 <= k < i ==> updated[k] == Observed(buffer[k], index, distance, os[k])
      {
        var samples := Observe(buffer[i], index, distance, os[i]);
        updated := updated + [samples];
        i := i + 1;
      }
      buffer := updated;
    }

    static method Observe(samples: seq<Sample>, index: nat, distance: int, o: Observation) returns (r: seq<Sample>)
      requires (distance > 1 ==> samples != []) && index < |Grown(samples, distance)|
      ensures r == Observed(samples, index, distance, o)
    {
      r := samples;
      var j := 0;
      while j < distance - 1
        invariant 0 <= j && (j > 0 ==> j <= distance - 1)
        invariant r == if samples == [] then [] else samples + Copies(samples[|samples| - 1], j)
      {
        CopiesStep(samples, samples[|samples| - 1], j);
        r := r + [r[|r| - 1]];
        j := j + 1;
      }
      NoCopies(samples);
      if distance > 0 {
        r := r + [[]];
      }
      r := r[index := r[index] + [o]];
    }

    /** Fails where the source reads the first of the traces left, and none is left. */
    method RemoveOlderThan(cutoff: nat) returns (done: bool)
      requires Valid() && cutoff > 0
      modifies this
      ensures done <==> Purgeable(old(Value()), cutoff)
      ensures done ==> Valid() && Value() == Purged(robot, old(Value()), cutoff)
      ensures !done ==> Value() == old(Value()).(presences := presences, traces := [])
    {
      ghost var h := Value();
      PurgeDecided(robot, h, cutoff);
      hide *;
      done := Retain(cutoff);
      if done {
        PurgedIs(robot, h, presences, traces, cutoff);
      }
      assert Value() == h.(presences := presences, traces := traces);
    }

    method Retain(cutoff: nat) returns (done: bool)
      requires Stale(Times(traces), cutoff) < |traces| ==> Retainable(traces, cutoff)
      modifies this`presences, this`traces
      ensures presences == old(presences)[Stale(Exits(old(presences)), cutoff)..]
      ensures done <==> Stale(Times(old(traces)), cutoff) < |old(traces)|
      ensures if done then traces == Cut(old(traces), Stale(Times(old(traces)), cutoff)) else traces == []
    {
      hide Stale, Cut, Ladder, Cuttable, Exits, Times;
      ghost var all := traces;
      DropPresences(cutoff);
      DropTraces(cutoff);
      if traces == [] {
        return false;
      }
      CutTraces(all, Stale(Times(all), cutoff));
      done := true;
    }

    method DropPresences(cutoff: nat)
      modifies this`presences
      ensures presences == old(presences)[Stale(Exits(old(presences)), cutoff)..]
    {
      ghost var d := 0;
      while presences != [] && presences[0].to < cutoff
        invariant 0 <= d <= |old(presences)| && presences == old(presences)[d..]
        invariant forall i :: 0 <= i < d ==> old(presences)[i].to < cutoff
        decreases |presences|
      {
        presences := presences[1..];
        d := d + 1;
      }
      StaleUnique(Exits(old(presences)), cutoff, d);
    }

    method DropTraces(cutoff: nat)
      modifies this`traces
      ensures traces == old(traces)[Stale(Times(old(traces)), cutoff)..]
    {
      ghost var d := 0;
      while traces != [] && traces[0].time < cutoff
        invariant 0 <= d <= |old(traces)| && traces == old(traces)[d..]
        invariant forall i :: 0 <= i < d ==> old(traces)[i].time < cutoff
        decreases |traces|
      {
        traces := traces[1..];
        d := d + 1;
      }
      StaleUnique(Times(old(traces)), cutoff, d);
    }

    /** Cuts the traces left so that the first keeps one mode, and each of the others one more. */
    method CutTraces(ghost all: seq<Timed<seq<Mode>>>, ghost e: nat)
      requires e < |all| && traces == all[e..] && Ladder(traces) && Cuttable(all, e)
      modifies this`traces
      ensures traces == Cut(all, e)
    {
      assert forall j :: e <= j < |all| ==> all[j] == traces[j - e];
      var desiredSize, currentSize := 1, |traces[0].value|;
      var cut := [];
      var j := 0;
      while j < |traces|
        invariant 0 <= j <= |traces| && traces == old(traces) && |cut| == j
        invariant if j == 0 then desiredSize == 1 && currentSize == |traces[0].value|
                  else desiredSize == j && currentSize == |traces[0].value| + j - 1
        invariant forall k :: 0 <= k < j ==> cut[k] == Cut(all, e)[k]
      {
        var t := traces[j];
        if |t.value| > currentSize {
          currentSize := |t.value|;
          desiredSize := desiredSize + 1;
        }
        assert all[e + j] == t && t.value[currentSize - desiredSize..currentSize] == t.value[|t.value| - 1 - j..];
        cut := cut + [Timed(t.time, t.value[currentSize - desiredSize..currentSize])];
        j := j + 1;
      }
      traces := cut;
    }

    /* Queries. Each takes the time of the snapshot it is asked of. */

    method ModeAt(t: nat) returns (m: Mode)
      ensures m == S.ModeAt(Value(), t)
    {
      var i := 0;
      assert presences[0..] == presences;
      while i < |presences|
        invariant 0 <= i <= |presences|
        invariant S.ModeAtIn(presences[i..], latestMode, t) == S.ModeAt(Value(), t)
      {
        if presences[i].from <= t && t < presences[i].to {
          return presences[i].mode;
        }
        assert presences[i..][1..] == presences[i + 1..];
        i := i + 1;
      }
      m := latestMode;
    }

    method TraceAt(s: nat) returns (trace: Option<seq<Mode>>)
      ensures trace == S.TraceAt(Value(), s)
    {
      var n := FindPrefix(traces, s);
      trace := if n == 0 then None else Some(traces[n - 1].value);
    }

    method SamplesAt(s: nat, m: Mode) returns (samples: Option<BodySamples>)
      ensures samples == S.StoredAt(Value(), s, m)
    {
      if m !in states {
        return None;
      }
      var n := FindPrefix(states[m], s);
      samples := if n == 0 then None else Some(states[m][n - 1].value);
    }

    method PresencesIn(s: nat, m: Mode) returns (among: seq<Presence>)
      ensures among == S.PresencesIn(presences, s, m)
    {
      among := [];
      var i := 0;
      while i < |presences|
        invariant 0 <= i <= |presences| && among == S.PresencesIn(presences[..i], s, m)
      {
        var p := presences[i];
        assert presences[..i + 1][..i] == presences[..i];
        if !p.mode.IsEmpty() && p.mode == m && p.to <= s {
          among := among + [p];
        }
        i := i + 1;
      }
      assert presences[..i] == presences;
    }

    method RangeOfNumSamples(among: seq<Presence>) returns (lower: nat, upper: nat)
      requires forall p :: p in among ==> p.from <= p.to
      ensures S.IsRangeOf(robot, among, lower, upper)
    {
      if among == [] {
        return 0, 0;
      }
      var minValue, maxValue := None, 0;
      var i := 0;
      while i < |among|
        invariant 0 <= i <= |among| && maxValue == S.MaxWhole(robot, among[..i])
        invariant minValue.Some? <==> i > 0
        invariant minValue.Some? ==> exists k :: 0 <= k < i && minValue.value == robot.Whole(among[k].from, among[k].to)
        invariant forall k :: 0 <= k < i ==> minValue.value <= robot.Whole(among[k].from, among[k].to) <= maxValue
      {
        assert among[i] in among && among[..i + 1][..i] == among[..i];
        var val := robot.Whole(among[i].from, among[i].to);
        minValue := Some(if minValue.Some? && minValue.value < val then minValue.value else val);
        maxValue := if val < maxValue then maxValue else val;
        i := i + 1;
      }
      assert among[..i] == among;
      lower, upper := minValue.value, maxValue;
    }

    method CheckedSampleIndex(s: nat, m: Mode, t: nat) returns (index: Option<nat>)
      requires presences != []
      ensures index == S.CheckedSampleIndex(robot, Value(), s, m, t)
    {
      var u := UnroundedSampleIndex(m, t);
      if u.None? {
        return None;
      }
      var samples := SamplesAt(s, m);
      index := if samples.Some? && u.value / 1000 < SizeOf(samples.value) then Some(u.value / 1000) else None;
    }

    /** Whether look-ahead can start at t: there, the robot is in a mode it has been in before, and not yet
        for as long as ever before. */
    method CanLookAhead(s: nat, t: nat) returns (can: Option<bool>)
      requires Valid()
      ensures can == S.CanLookAhead(robot, Value(), s, t)
    {
      if t > latestTime {
        return Some(false);
      }
      var mode := ModeAt(t);
      var samples := SamplesAt(t, mode);
      if samples.None? {
        return Some(false);
      }
      HasPresences(robot, Value(), mode);
      var u := UnroundedSampleIndex(mode, t);
      if u.None? {
        return None;
      }
      var among := PresencesIn(s, mode);
      forall p ensures p in among ==> p.from <= p.to { S.PresencesInMembers(presences, s, mode, p); }
      var lower, upper := RangeOfNumSamples(among);
      if u.value >= 1000 * upper {
        return Some(false);
      }
      var before := HasVisited(s, mode, t);
      can := Some(before);
    }

    method HasVisited(s: nat, m: Mode, t: nat) returns (before: bool)
      requires Chained(presences)
      ensures before == S.VisitedBefore(presences, s, m, t)
    {
      var i := 0;
      while i < |presences|
        invariant 0 <= i <= |presences|
        invariant forall k :: 0 <= k < i ==>
                    !(!presences[k].mode.IsEmpty() && presences[k].mode == m && t > presences[k].to)
      {
        var p := presences[i];
        if p.from >= s {
          EntrancesOrdered(presences, i);
          return false;
        }
        if !p.mode.IsEmpty() && p.mode == m && t > p.to {
          return true;
        }
        i := i + 1;
      }
      before := false;
    }
  }

  lemma PaddedStep(samples: BodySamples, i: nat, n: nat)
    requires i < |samples| && forall k :: 0 <= k < |samples| ==> samples[k] != []
    ensures Padded(samples[..i + 1], n) ==
            Padded(samples[..i], n) + [samples[i] + Copies(samples[i][|samples[i]| - 1], n)]
  {
  }

  lemma CopiesStep(samples: seq<Sample>, s: Sample, j: nat)
    ensures (samples + Copies(s, j)) + [s] == samples + Copies(s, j + 1)
  {
  }

  lemma EmptyAtFirst(robot: Robot, h: History)
    requires Histories.Valid(robot, h)
    ensures h.presences == [] <==> h.latestMode.IsEmpty()
    ensures Level(robot, h.buffer) && |h.buffer| > 0 && h.traces != []
    ensures h.presences != [] ==> SizeOf(h.buffer) > 0 && LastExit(h) <= h.latestTime
  {
  }

  lemma LatestFound(robot: Robot, h: History, mode: Mode, t: nat)
    requires Histories.Valid(robot, h) && h.latestTime <= t
    ensures mode in h.states ==>
              h.states[mode] != [] && Prefix(h.states[mode], t) == |h.states[mode]|
  {
    if mode in h.states {
      hide PresencesAgree, TracesAgree, BufferAgrees, StaysStored;
      PrefixIsAll(h.states[mode], t, |h.states[mode]| - 1);
    }
  }

  lemma EnteredOverwrites(robot: Robot, h: History, mode: Mode, t: nat)
    requires mode in h.states ==> h.states[mode] != []
    ensures forall b: BodySamples :: Entered(robot, h.(buffer := b), mode, t) == Entered(robot, h, mode, t)
  {
  }

  lemma LeavesOthers(robot: Robot, h: History, t: nat, mode: Mode)
    requires Histories.Valid(robot, h) && h.presences != [] && h.latestTime <= t && mode != h.latestMode
    ensures var h' := Left(robot, h, t);
            && h'.presences == h.presences && h'.latestMode == h.latestMode && h'.latestTime == h.latestTime
            && StoredIn(h', mode) == StoredIn(h, mode) && (mode in h'.states <==> mode in h.states)
  {
    hide Histories.Valid;
  }

  lemma NoCopies(samples: seq<Sample>)
    ensures samples != [] ==> samples + Copies(samples[|samples| - 1], 0) == samples
  {
  }

  lemma LatestAtSwitching(robot: Robot, h: History, t: nat)
    requires Switching(robot, h, t) && h.latestMode in h.states
    ensures h.states[h.latestMode] != [] && Prefix(h.states[h.latestMode], t) == |h.states[h.latestMode]|
  {
    hide TracesAgree, StaysStored, PresencesAgree;
    var stored := h.states[h.latestMode];
    assert StoreAgrees(robot, stored, t);
    PrefixIsAll(stored, t, |stored| - 1);
  }

  lemma StaleUnique(times: seq<nat>, cutoff: nat, n: nat)
    requires n <= |times| && (n < |times| ==> times[n] >= cutoff)
    requires forall i :: 0 <= i < n ==> times[i] < cutoff
    ensures Stale(times, cutoff) == n
  {
  }

  /** Each trace is one longer than the trace before, and none is empty. */
  predicate Ladder(traces: seq<Timed<seq<Mode>>>) {
    traces != [] ==>
      && |traces[0].value| > 0
      && forall j :: 0 <= j < |traces| ==> |traces[j].value| == |traces[0].value| + j
  }

  lemma PurgedIs(robot: Robot, h: History, presences: seq<Presence>, traces: seq<Timed<seq<Mode>>>, cutoff: nat)
    requires Histories.Valid(robot, h) && Purgeable(h, cutoff)
    requires Cuttable(h.traces, Stale(Times(h.traces), cutoff))
    requires presences == h.presences[Stale(Exits(h.presences), cutoff)..]
    requires traces == Cut(h.traces, Stale(Times(h.traces), cutoff))
    ensures var h' := h.(presences := presences, traces := traces);
            h' == Purged(robot, h, cutoff) && Histories.Valid(robot, h')
  {
    PurgedValid(robot, h, cutoff);
    hide Histories.Valid, Cut, Stale;
  }

  predicate Retainable(traces: seq<Timed<seq<Mode>>>, cutoff: nat) {
    var e := Stale(Times(traces), cutoff);
    e < |traces| && Ladder(traces[e..]) && Cuttable(traces, e)
  }

  lemma RetainedTraces(robot: Robot, h: History, cutoff: nat)
    requires Histories.Valid(robot, h) && Purgeable(h, cutoff)
    ensures Retainable(h.traces, cutoff) && Cuttable(h.traces, Stale(Times(h.traces), cutoff))
  {
    CutDefined(robot, h, cutoff);
    hide Cut, Stale, Purgeable, PresencesAgree, StatesAgree, BufferAgrees, StaysStored, Chained, NonEmpty, TracesOf;
    LengthsGrow(h.traces, NonEmpty(h.presences), |h.traces[0].value|);
    SuffixLadder(h.traces, |h.traces[0].value|, Stale(Times(h.traces), cutoff));
  }

  lemma PurgeDecided(robot: Robot, h: History, cutoff: nat)
    requires Histories.Valid(robot, h) && cutoff > 0
    ensures Stale(Times(h.traces), cutoff) < |h.traces| <==> Purgeable(h, cutoff)
    ensures Purgeable(h, cutoff) ==>
              Retainable(h.traces, cutoff) && Cuttable(h.traces, Stale(Times(h.traces), cutoff))
  {
    PurgeOutcome(robot, h, cutoff);
    if Purgeable(h, cutoff) { RetainedTraces(robot, h, cutoff); }
    hide Histories.Valid, Purged, Purgeable, Stale, Cuttable, Retainable;
  }

  lemma SuffixLadder(traces: seq<Timed<seq<Mode>>>, b: nat, e: nat)
    requires e < |traces| && b + e > 0 && forall j :: 0 <= j < |traces| ==> |traces[j].value| == b + j
    ensures Ladder(traces[e..])
  {
  }

  lemma LengthsGrow(traces: seq<Timed<seq<Mode>>>, n: seq<Presence>, b: nat)
    requires TracesOf(traces, n, b)
    ensures forall j :: 0 <= j < |traces| ==> |traces[j].value| == b + j
  {
  }

  lemma EntrancesOrdered(ps: seq<Presence>, i: nat)
    requires Chained(ps) && i < |ps|
    ensures forall k :: i <= k < |ps| ==> ps[i].from <= ps[k].from
  {
    forall k | i <= k < |ps| ensures ps[i].from <= ps[k].from {
      if i < k {
        ExitsOrdered(ps, i, k - 1);
        assert ps[k].from == ps[k - 1].to;
      }
    }
  }

  lemma HasPresences(robot: Robot, h: History, m: Mode)
    requires Histories.Valid(robot, h)
    ensures m in h.states && m == h.latestMode ==> h.presences != []
    ensures h.presences == [] ==> forall t :: S.ModeAt(h, t) == h.latestMode
  {
  }
}
