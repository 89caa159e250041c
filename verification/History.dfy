/** The value of a robot's state history: its three views of one run, and what acquiring a state and
    purging the past make of them. */
module Histories {
  import opened Capsules
  import opened Modes
  import opened TimedEntries

  /** What one state message says about one segment: the observed positions of its head and of its tail. */
  datatype Observation = Observation(heads: seq<Point>, tails: seq<Point>)

  /** A stored body segment sample, as the observations merged into it so far. */
  type Sample = seq<Observation>

  /** For each segment of the robot, its samples from the entrance into a mode on. */
  type BodySamples = seq<seq<Sample>>

  datatype Robot = Robot(segments: nat, frequency: nat) {
    predicate Valid() { segments > 0 && frequency > 0 }

    /** How far t is from the entrance, in thousandths of a sample; times are in milliseconds. */
    function Thousandths(entrance: nat, t: nat): nat
      requires entrance <= t
    {
      (t - entrance) * frequency
    }

    /** The number of whole samples that fit in a stay from `entrance` to `t`. */
    function Whole(entrance: nat, t: nat): nat
      requires entrance <= t
    {
      Thousandths(entrance, t) / 1000
    }
  }

  /** A stay in a mode, from the entrance up to but not including the exit. */
  datatype Presence = Presence(mode: Mode, exit: Mode, from: nat, to: nat) {
    predicate Contains(t: nat) { from <= t < to }
  }

  datatype History = History(
    presences: seq<Presence>,
    states: States,
    latestMode: Mode,
    latestTime: nat,
    buffer: BodySamples,
    traces: seq<Timed<seq<Mode>>>)

  /** The whole samples from e to t: so many messages, and no more, fit in the time between. */
  lemma WholeIs(robot: Robot, e: nat, t: nat, i: nat)
    requires e <= t
    ensures robot.Whole(e, t) == i <==> 1000 * i <= (t - e) * robot.frequency < 1000 * (i + 1)
  {
    var d := (t - e) * robot.frequency;
    assert d == 1000 * (d / 1000) + d % 1000;
  }

  function Created(robot: Robot): History {
    History([], map[], NO_MODE, 0, NoSamples(robot), [Timed(0, [])])
  }

  function NoSamples(robot: Robot): BodySamples {
    seq(robot.segments, _ => [])
  }

  function Copies(s: Sample, n: nat): seq<Sample> {
    seq(n, _ => s)
  }

  /** Every segment has as many samples as the first. */
  predicate Level(robot: Robot, samples: BodySamples) {
    |samples| == robot.segments && forall i :: 0 <= i < |samples| ==> |samples[i]| == |samples[0]|
  }

  function SizeOf(samples: BodySamples): nat {
    if samples == [] then 0 else |samples[0]|
  }

  /* Leaving a mode */

  /** Repeats the last sample so that the stay is covered: one more sample than the whole ones that fit, if
      there are fewer than fit. */
  function Padding(size: nat, thousandths: nat): nat {
    if thousandths > 1000 * size then thousandths / 1000 - (size - 1) else 0
  }

  function Padded(samples: BodySamples, n: nat): BodySamples
    requires forall i :: 0 <= i < |samples| ==> samples[i] != []
  {
    seq(|samples|, i requires 0 <= i < |samples| => samples[i] + Copies(samples[i][|samples[i]| - 1], n))
  }

  lemma PaddedNone(samples: BodySamples)
    requires forall k :: 0 <= k < |samples| ==> samples[k] != []
    ensures Padded(samples, 0) == samples
  {
    forall i | 0 <= i < |samples| ensures Padded(samples, 0)[i] == samples[i] {
      assert samples[i] + Copies(samples[i][|samples[i]| - 1], 0) == samples[i];
    }
  }

  function AtExit(robot: Robot, samples: BodySamples, thousandths: nat): BodySamples
    requires forall i :: 0 <= i < |samples| ==> samples[i] != []
  {
    Padded(samples, Padding(SizeOf(samples), thousandths))
  }

  /* Recording a state */

  /** The samples of a segment after an observation for position `index`: the segment grows by `distance`
      samples, all copies of the last but for a new one at the end, if that is positive. */
  function Grown(samples: seq<Sample>, distance: int): seq<Sample>
    requires distance > 1 ==> samples != []
  {
    if distance > 0
    then (if distance > 1 then samples + Copies(samples[|samples| - 1], distance - 1) else samples) + [[]]
    else samples
  }

  function Observed(samples: seq<Sample>, index: nat, distance: int, o: Observation): seq<Sample>
    requires distance > 1 ==> samples != []
    requires index < |Grown(samples, distance)|
  {
    var grown := Grown(samples, distance);
    grown[index := grown[index] + [o]]
  }

  predicate Recordable(samples: BodySamples, index: nat, distance: int) {
    forall i :: 0 <= i < |samples| ==>
      (distance > 1 ==> samples[i] != []) && index < |Grown(samples[i], distance)|
  }

  function Recorded(samples: BodySamples, index: nat, distance: int, os: seq<Observation>): BodySamples
    requires |os| == |samples| && Recordable(samples, index, distance)
  {
    seq(|samples|, i requires 0 <= i < |samples| => Observed(samples[i], index, distance, os[i]))
  }

  /* The invariant: the views of the run agree */

  function NonEmpty(ps: seq<Presence>): seq<Presence> {
    if ps != [] && ps[0].mode.IsEmpty() then ps[1..] else ps
  }

  function ModesIn(ps: seq<Presence>): (ms: seq<Mode>)
    ensures |ms| == |ps| && forall i :: 0 <= i < |ps| ==> ms[i] == ps[i].mode
  {
    seq(|ps|, i requires 0 <= i < |ps| => ps[i].mode)
  }

  /** Consecutive stays meet in time, and each leads into the mode of the next. */
  predicate Chained(ps: seq<Presence>) {
    && (forall i :: 0 <= i < |ps| ==> ps[i].from <= ps[i].to && ps[i].mode != ps[i].exit && !ps[i].exit.IsEmpty())
    && (forall i :: 0 < i < |ps| ==> ps[i].from == ps[i - 1].to && ps[i].mode == ps[i - 1].exit)
    && (ps != [] && ps[0].mode.IsEmpty() ==> ps[0].from == ps[0].to)
  }

  predicate PresencesAgree(h: History) {
    && Chained(h.presences)
    && (h.presences == [] <==> h.latestMode.IsEmpty())
    && (h.presences != [] ==>
          var last := h.presences[|h.presences| - 1]; last.exit == h.latestMode && last.to <= h.latestTime)
  }

  /** Trace j holds the modes of the first b + j stays, and dates from the exit from the last of them. */
  predicate TracesOf(traces: seq<Timed<seq<Mode>>>, n: seq<Presence>, b: nat) {
    && |n| + 1 == |traces| + b
    && forall j :: 0 <= j < |traces| ==>
         && traces[j].value == ModesIn(n)[..b + j]
         && traces[j].time == if b + j == 0 then 0 else n[b + j - 1].to
  }

  /** Each trace holds the modes of the completed stays up to its time, one more than the trace before. */
  predicate TracesAgree(h: History) {
    && h.traces != [] && |h.traces[0].value| <= 1
    && TracesOf(h.traces, NonEmpty(h.presences), |h.traces[0].value|)
  }

  /** The samples stored for a mode never get fewer. */
  predicate StoreAgrees(robot: Robot, stored: seq<Timed<BodySamples>>, latestTime: nat) {
    && stored != [] && Ordered(stored) && stored[|stored| - 1].time <= latestTime
    && (forall i :: 0 <= i < |stored| ==> Level(robot, stored[i].value) && SizeOf(stored[i].value) > 0)
    && (forall i, j :: 0 <= i < j < |stored| ==> SizeOf(stored[i].value) <= SizeOf(stored[j].value))
  }

  predicate StatesAgree(robot: Robot, h: History) {
    forall m :: m in h.states ==> !m.IsEmpty() && StoreAgrees(robot, h.states[m], h.latestTime)
  }

  predicate BufferAgrees(robot: Robot, h: History) {
    && Level(robot, h.buffer)
    && (h.presences != [] ==> SizeOf(h.buffer) > 0)
    && (h.latestMode in h.states ==>
          var stored := h.states[h.latestMode]; stored != [] && SizeOf(h.buffer) >= SizeOf(stored[|stored| - 1].value))
  }

  type States = map<Mode, seq<Timed<BodySamples>>>

  /** A completed stay left samples behind at its exit, enough for its duration. */
  predicate StayStored(robot: Robot, states: States, p: Presence)
    requires p.from <= p.to
  {
    p.mode in states &&
    exists i :: 0 <= i < |states[p.mode]| && states[p.mode][i].time == p.to
                && SizeOf(states[p.mode][i].value) >= robot.Whole(p.from, p.to)
  }

  predicate StaysStored(robot: Robot, states: States, ps: seq<Presence>)
    requires Chained(ps)
  {
    forall i :: 0 <= i < |ps| && !ps[i].mode.IsEmpty() ==> StayStored(robot, states, ps[i])
  }

  predicate Valid(robot: Robot, h: History) {
    && robot.Valid()
    && PresencesAgree(h) && TracesAgree(h) && StatesAgree(robot, h) && BufferAgrees(robot, h)
    && StaysStored(robot, h.states, h.presences)
  }

  lemma CreatedValid(robot: Robot)
    requires robot.Valid()
    ensures Valid(robot, Created(robot))
  {
  }

  /* Acquiring a state */

  function LastExit(h: History): nat
    requires h.presences != []
  {
    h.presences[|h.presences| - 1].to
  }

  /** The latest samples stored for a mode. */
  function LatestStored(h: History, m: Mode): BodySamples
    requires m in h.states && h.states[m] != []
  {
    h.states[m][|h.states[m]| - 1].value
  }

  function LeftSamples(robot: Robot, h: History, t: nat): BodySamples
    requires Valid(robot, h) && h.presences != [] && h.latestTime <= t
  {
    LevelNonEmpty(robot, h.buffer);
    AtExit(robot, h.buffer, robot.Thousandths(LastExit(h), t))
  }

  function StoredIn(h: History, m: Mode): seq<Timed<BodySamples>> {
    if m in h.states then h.states[m] else []
  }

  /** On leaving the current mode at t, its samples are stored and its trace is extended. */
  function Left(robot: Robot, h: History, t: nat): History
    requires Valid(robot, h) && h.presences != [] && h.latestTime <= t
  {
    h.(states := h.states[h.latestMode := StoredIn(h, h.latestMode) + [Timed(t, LeftSamples(robot, h, t))]],
       traces := h.traces + [Timed(t, h.traces[|h.traces| - 1].value + [h.latestMode])])
  }

  lemma LevelNonEmpty(robot: Robot, samples: BodySamples)
    requires Level(robot, samples) && SizeOf(samples) > 0
    ensures forall i :: 0 <= i < |samples| ==> samples[i] != []
  {
  }

  /** On entering a mode at t, the buffer is what the mode last stored, and the stay left is recorded. */
  function Entered(robot: Robot, h: History, mode: Mode, t: nat): History
    requires mode in h.states ==> h.states[mode] != []
  {
    h.(buffer := if mode in h.states then LatestStored(h, mode) else NoSamples(robot),
       presences := h.presences + [Presence(h.latestMode, mode, if h.presences == [] then t else LastExit(h), t)],
       latestMode := mode)
  }

  /** The position an observation at t goes to, and how far that is beyond the stored samples. */
  function Position(robot: Robot, h: History, t: nat): (nat, int)
    requires h.presences != [] && LastExit(h) <= t
    requires h.latestMode in h.states ==> h.states[h.latestMode] != []
  {
    if h.latestMode in h.states then
      var index := robot.Whole(LastExit(h), t);
      (index, index - (SizeOf(LatestStored(h, h.latestMode)) - 1))
    else (SizeOf(h.buffer), 1)
  }

  function Switched(robot: Robot, h: History, mode: Mode, t: nat): History
    requires Valid(robot, h) && h.latestTime <= t
  {
    if h.latestMode == mode then h
    else Entered(robot, if h.presences == [] then h else Left(robot, h, t), mode, t)
  }

  /** The history after a state in `mode` at t, observed as `os` segment by segment. */
  function Acquired(robot: Robot, h: History, mode: Mode, os: seq<Observation>, t: nat): History
    requires Valid(robot, h) && h.latestTime <= t && !mode.IsEmpty() && |os| == robot.segments
  {
    var h' := Switched(robot, h, mode, t);
    SwitchedRecordable(robot, h, mode, t);
    var (index, distance) := Position(robot, h', t);
    h'.(latestTime := t, buffer := Recorded(h'.buffer, index, distance, os))
  }

  /** The samples stored at an exit cover the stay, and are no fewer than those in the buffer. */
  lemma AtExitCovers(robot: Robot, samples: BodySamples, thousandths: nat)
    requires Level(robot, samples) && SizeOf(samples) > 0
    ensures forall i :: 0 <= i < |samples| ==> samples[i] != []
    ensures var r := AtExit(robot, samples, thousandths);
            && Level(robot, r) && SizeOf(r) >= SizeOf(samples) && SizeOf(r) >= thousandths / 1000
            && (robot.Valid() ==> (SizeOf(r) > SizeOf(samples) <==> thousandths > 1000 * SizeOf(samples)))
  {
  }

  lemma StoreLater(robot: Robot, stored: seq<Timed<BodySamples>>, latestTime: nat, t: nat)
    requires StoreAgrees(robot, stored, latestTime) && latestTime <= t
    ensures StoreAgrees(robot, stored, t)
  {
  }

  lemma StoreAppended(robot: Robot, stored: seq<Timed<BodySamples>>, samples: BodySamples, latestTime: nat, t: nat)
    requires stored != [] ==>
              StoreAgrees(robot, stored, latestTime) && SizeOf(stored[|stored| - 1].value) <= SizeOf(samples)
    requires latestTime <= t && Level(robot, samples) && SizeOf(samples) > 0
    ensures StoreAgrees(robot, stored + [Timed(t, samples)], t)
  {
    var stored' := stored + [Timed(t, samples)];
    forall i, j | 0 <= i < j < |stored'|
      ensures stored'[i].time <= stored'[j].time && SizeOf(stored'[i].value) <= SizeOf(stored'[j].value)
    {
      if j == |stored| && i < |stored| - 1 { assert stored[i].time <= stored[|stored| - 1].time; }
    }
  }

  lemma LeftStore(robot: Robot, h: History, t: nat)
    requires Valid(robot, h) && h.presences != [] && h.latestTime <= t
    ensures StoreAgrees(robot, StoredIn(h, h.latestMode) + [Timed(t, LeftSamples(robot, h, t))], t)
    ensures SizeOf(LeftSamples(robot, h, t)) >= robot.Whole(LastExit(h), t)
  {
    AtExitCovers(robot, h.buffer, robot.Thousandths(LastExit(h), t));
    StoreAppended(robot, StoredIn(h, h.latestMode), LeftSamples(robot, h, t), h.latestTime, t);
  }

  lemma LeftStates(robot: Robot, h: History, t: nat)
    requires Valid(robot, h) && h.presences != [] && h.latestTime <= t
    ensures StatesAgree(robot, Left(robot, h, t).(latestTime := t))
  {
    LeftStore(robot, h, t);
    var h' := Left(robot, h, t);
    hide StoreAgrees;
    forall m | m in h'.states ensures !m.IsEmpty() && StoreAgrees(robot, h'.states[m], t) {
      if m != h.latestMode { StoreLater(robot, h.states[m], h.latestTime, t); }
    }
  }

  /** The stays completed before stay stored, and so is the one that ends. */
  lemma LeftStays(robot: Robot, h: History, t: nat, p: Presence)
    requires Valid(robot, h) && h.presences != [] && h.latestTime <= t && p.from <= p.to
    requires StayStored(robot, h.states, p) || (p.mode == h.latestMode && p.from == LastExit(h) && p.to == t)
    ensures StayStored(robot, Left(robot, h, t).states, p)
  {
    LeftStore(robot, h, t);
    var h' := Left(robot, h, t);
    if StayStored(robot, h.states, p) {
      var i :| 0 <= i < |h.states[p.mode]| && h.states[p.mode][i].time == p.to
               && SizeOf(h.states[p.mode][i].value) >= robot.Whole(p.from, p.to);
      assert h'.states[p.mode][i] == h.states[p.mode][i];
    } else {
      assert h'.states[p.mode][|StoredIn(h, p.mode)|] == Timed(t, LeftSamples(robot, h, t));
    }
  }

  /** The stay that a switch at t records. */
  function Closing(h: History, mode: Mode, t: nat): Presence {
    Presence(h.latestMode, mode, if h.presences == [] then t else LastExit(h), t)
  }

  lemma SwitchedPresences(robot: Robot, h: History, mode: Mode, t: nat)
    requires Valid(robot, h) && h.latestTime <= t && !mode.IsEmpty() && h.latestMode != mode
    ensures var h' := Switched(robot, h, mode, t);
            && h'.presences == h.presences + [Closing(h, mode, t)] && h'.latestMode == mode
            && PresencesAgree(h'.(latestTime := t)) && LastExit(h') == t
            && NonEmpty(h'.presences) ==
               if h.presences == [] then [] else NonEmpty(h.presences) + [Closing(h, mode, t)]
  {
    SwitchedRecords(robot, h, mode, t);
    hide Switched;
    ChainedExtended(h.presences, Closing(h, mode, t));
  }

  lemma SwitchedRecords(robot: Robot, h: History, mode: Mode, t: nat)
    requires Valid(robot, h) && h.latestTime <= t && !mode.IsEmpty() && h.latestMode != mode
    ensures var h' := Switched(robot, h, mode, t);
            h'.presences == h.presences + [Closing(h, mode, t)] && h'.latestMode == mode
  {
  }

  lemma ChainedExtended(ps: seq<Presence>, p: Presence)
    requires Chained(ps) && p.from <= p.to && p.mode != p.exit && !p.exit.IsEmpty()
    requires if ps == [] then p.from == p.to else p.from == ps[|ps| - 1].to && p.mode == ps[|ps| - 1].exit
    ensures Chained(ps + [p])
    ensures ps != [] ==> NonEmpty(ps + [p]) == NonEmpty(ps) + [p]
  {
    var ps' := ps + [p];
    forall i | 0 < i < |ps'| ensures ps'[i].from == ps'[i - 1].to && ps'[i].mode == ps'[i - 1].exit {
      if i < |ps| { assert ps'[i] == ps[i]; }
    }
    if ps != [] { assert (ps + [p])[1..] == ps[1..] + [p]; }
  }

  lemma SwitchedTraces(robot: Robot, h: History, mode: Mode, t: nat)
    requires Valid(robot, h) && h.latestTime <= t && !mode.IsEmpty() && h.latestMode != mode
    ensures TracesAgree(Switched(robot, h, mode, t))
  {
    hide TracesOf, NonEmpty, Chained;
    SwitchedPresences(robot, h, mode, t);
    if h.presences == [] {
      NothingBefore(h, Switched(robot, h, mode, t));
    } else {
      TracesExtended(h.traces, NonEmpty(h.presences), |h.traces[0].value|, Closing(h, mode, t));
    }
  }

  lemma NothingBefore(h: History, h': History)
    requires TracesAgree(h) && h.presences == [] && NonEmpty(h'.presences) == [] && h'.traces == h.traces
    ensures TracesAgree(h')
  {
  }

  lemma TracesExtended(traces: seq<Timed<seq<Mode>>>, n: seq<Presence>, b: nat, p: Presence)
    requires traces != [] && TracesOf(traces, n, b)
    ensures TracesOf(traces + [Timed(p.to, traces[|traces| - 1].value + [p.mode])], n + [p], b)
  {
    var n' := n + [p];
    var traces' := traces + [Timed(p.to, traces[|traces| - 1].value + [p.mode])];
    assert ModesIn(n') == ModesIn(n) + [p.mode];
    forall j | 0 <= j < |traces'|
      ensures traces'[j].value == ModesIn(n')[..b + j] && traces'[j].time == if b + j == 0 then 0 else n'[b + j - 1].to
    {
      if j < |traces| {
        assert traces'[j] == traces[j];
        assert ModesIn(n')[..b + j] == ModesIn(n)[..b + j];
      } else {
        assert traces[j - 1].value == ModesIn(n)[..|n|];
        assert ModesIn(n)[..|n|] == ModesIn(n) && ModesIn(n')[..|n'|] == ModesIn(n');
      }
    }
  }

  lemma SwitchedStays(robot: Robot, h: History, mode: Mode, t: nat)
    requires Valid(robot, h) && h.latestTime <= t && !mode.IsEmpty() && h.latestMode != mode
    ensures var h' := Switched(robot, h, mode, t); Chained(h'.presences) && StaysStored(robot, h'.states, h'.presences)
  {
    SwitchedPresences(robot, h, mode, t);
    var h' := Switched(robot, h, mode, t);
    forall i | 0 <= i < |h'.presences| && !h'.presences[i].mode.IsEmpty()
      ensures StayStored(robot, h'.states, h'.presences[i])
    {
      if i < |h.presences| { assert StayStored(robot, h.states, h.presences[i]); }
      LeftStays(robot, h, t, h'.presences[i]);
    }
  }

  lemma SwitchedStates(robot: Robot, h: History, mode: Mode, t: nat)
    requires Valid(robot, h) && h.latestTime <= t && !mode.IsEmpty() && h.latestMode != mode
    ensures StatesAgree(robot, Switched(robot, h, mode, t).(latestTime := t))
  {
    if h.presences == [] {
      forall m | m in h.states ensures StoreAgrees(robot, h.states[m], t) {
        StoreLater(robot, h.states[m], h.latestTime, t);
      }
    } else {
      LeftStates(robot, h, t);
    }
  }

  lemma SwitchedBuffer(robot: Robot, h: History, mode: Mode, t: nat)
    requires Valid(robot, h) && h.latestTime <= t && !mode.IsEmpty() && h.latestMode != mode
    ensures BufferSwitching(robot, Switched(robot, h, mode, t))
  {
    hide TracesAgree, StaysStored, Chained, AtExit, LeftSamples;
    SwitchedStates(robot, h, mode, t);
    var h' := Switched(robot, h, mode, t);
    if mode in h'.states { assert StoreAgrees(robot, h'.states[mode], t); }
  }

  predicate BufferSwitching(robot: Robot, h: History) {
    && Level(robot, h.buffer)
    && (h.latestMode in h.states ==>
          && h.states[h.latestMode] != []
          && SizeOf(h.buffer) >= SizeOf(LatestStored(h, h.latestMode)) > 0)
  }

  /** What holds between the switch and the recording: all of the invariant, except that the buffer of a new
      mode is still empty. */
  predicate Switching(robot: Robot, h: History, t: nat) {
    && robot.Valid() && h.presences != [] && LastExit(h) <= t
    && PresencesAgree(h.(latestTime := t)) && TracesAgree(h) && StatesAgree(robot, h.(latestTime := t))
    && StaysStored(robot, h.states, h.presences) && BufferSwitching(robot, h)
  }

  lemma SwitchedHolds(robot: Robot, h: History, mode: Mode, t: nat)
    requires Valid(robot, h) && h.latestTime <= t && !mode.IsEmpty()
    ensures Switching(robot, Switched(robot, h, mode, t), t) && Switched(robot, h, mode, t).latestMode == mode
  {
    if h.latestMode == mode {
      SameMode(robot, h, t);
    } else {
      hide PresencesAgree, TracesAgree, StatesAgree, StaysStored, BufferSwitching, Switched, Chained, NonEmpty;
      SwitchedPresences(robot, h, mode, t);
      SwitchedTraces(robot, h, mode, t);
      SwitchedStays(robot, h, mode, t);
      SwitchedStates(robot, h, mode, t);
      SwitchedBuffer(robot, h, mode, t);
    }
  }

  lemma SameMode(robot: Robot, h: History, t: nat)
    requires Valid(robot, h) && h.latestTime <= t && h.presences != []
    ensures Switching(robot, h, t)
  {
    forall m | m in h.states ensures StoreAgrees(robot, h.states[m], t) {
      StoreLater(robot, h.states[m], h.latestTime, t);
    }
  }

  lemma SwitchingRecordable(robot: Robot, h: History, t: nat)
    requires Switching(robot, h, t)
    ensures var (index, distance) := Position(robot, h, t); Recordable(h.buffer, index, distance)
  {
  }

  lemma SwitchedRecordable(robot: Robot, h: History, mode: Mode, t: nat)
    requires Valid(robot, h) && h.latestTime <= t && !mode.IsEmpty()
    ensures var h' := Switched(robot, h, mode, t);
            && Switching(robot, h', t)
            && var (index, distance) := Position(robot, h', t); Recordable(h'.buffer, index, distance)
  {
    SwitchedHolds(robot, h, mode, t);
    SwitchingRecordable(robot, Switched(robot, h, mode, t), t);
  }

  lemma RecordedLevel(robot: Robot, samples: BodySamples, index: nat, distance: int, os: seq<Observation>)
    requires Level(robot, samples) && |os| == |samples| && Recordable(samples, index, distance) && robot.Valid()
    ensures var r := Recorded(samples, index, distance, os);
            && Level(robot, r) && SizeOf(r) > index
            && SizeOf(r) == SizeOf(samples) + (if distance > 0 then distance else 0)
  {
  }

  /** Acquiring keeps the views in agreement. */
  lemma AcquiredValid(robot: Robot, h: History, mode: Mode, os: seq<Observation>, t: nat)
    requires Valid(robot, h) && h.latestTime <= t && !mode.IsEmpty() && |os| == robot.segments
    ensures Valid(robot, Acquired(robot, h, mode, os, t))
  {
    SwitchedRecordable(robot, h, mode, t);
    var h' := Switched(robot, h, mode, t);
    var (index, distance) := Position(robot, h', t);
    RecordedLevel(robot, h'.buffer, index, distance, os);
    RecordingValid(robot, h', t, Recorded(h'.buffer, index, distance, os));
  }

  lemma RecordingValid(robot: Robot, h: History, t: nat, buffer: BodySamples)
    requires Switching(robot, h, t)
    requires Level(robot, buffer) && SizeOf(buffer) > 0 && SizeOf(buffer) >= SizeOf(h.buffer)
    ensures Valid(robot, h.(latestTime := t, buffer := buffer))
  {
    hide Level, Chained, NonEmpty, StayStored, StoreAgrees;
  }

  /* Purging the past */

  /** How many leading times lie before the cutoff. */
  function Stale(times: seq<nat>, cutoff: nat): (n: nat)
    ensures n <= |times| && (n < |times| ==> times[n] >= cutoff)
    ensures forall i :: 0 <= i < n ==> times[i] < cutoff
  {
    if times == [] || times[0] >= cutoff then 0 else 1 + Stale(times[1..], cutoff)
  }

  function Exits(ps: seq<Presence>): (ts: seq<nat>)
    ensures |ts| == |ps| && forall i :: 0 <= i < |ps| ==> ts[i] == ps[i].to
  {
    seq(|ps|, i requires 0 <= i < |ps| => ps[i].to)
  }

  function Times<T>(es: seq<Timed<T>>): (ts: seq<nat>)
    ensures |ts| == |es| && forall i :: 0 <= i < |es| ==> ts[i] == es[i].time
  {
    seq(|es|, i requires 0 <= i < |es| => es[i].time)
  }

  predicate Cuttable(traces: seq<Timed<seq<Mode>>>, e: nat) {
    e <= |traces| && forall j :: e <= j < |traces| ==> |traces[j].value| > j - e
  }

  /** The traces from the e-th on, the first cut to one mode, the second to two, and so on. */
  function Cut(traces: seq<Timed<seq<Mode>>>, e: nat): (r: seq<Timed<seq<Mode>>>)
    requires Cuttable(traces, e)
  {
    seq(|traces| - e, j requires 0 <= j < |traces| - e =>
      var v := traces[e + j].value; Timed(traces[e + j].time, v[|v| - 1 - j..]))
  }

  /** What a purge leaves of the traces before it cuts them; it then reads the first one left. */
  function TracesLeft(h: History, cutoff: nat): seq<Timed<seq<Mode>>> {
    h.traces[Stale(Times(h.traces), cutoff)..]
  }

  /** The robot has left a mode since the cutoff. */
  predicate Purgeable(h: History, cutoff: nat) {
    cutoff > 0 && h.traces != [] && h.traces[|h.traces| - 1].time >= cutoff
  }

  lemma LastTraceTime(robot: Robot, h: History)
    requires Valid(robot, h)
    ensures h.traces[|h.traces| - 1].time == if NonEmpty(h.presences) == [] then 0 else LastExit(h)
    ensures forall j :: 0 <= j < |h.traces| ==> h.traces[j].time <= h.traces[|h.traces| - 1].time
  {
    hide TracesOf, StatesAgree, BufferAgrees, StaysStored, Chained;
    NonEmptyIsSuffix(h.presences);
    hide NonEmpty;
    TraceTimes(h.traces, NonEmpty(h.presences), |h.traces[0].value|);
  }

  lemma NonEmptyIsSuffix(ps: seq<Presence>)
    requires Chained(ps)
    ensures Chained(NonEmpty(ps)) && |NonEmpty(ps)| <= |ps|
    ensures NonEmpty(ps) != [] ==> NonEmpty(ps)[|NonEmpty(ps)| - 1] == ps[|ps| - 1]
  {
    SuffixChained(ps, |ps| - |NonEmpty(ps)|);
    assert ps[|ps| - |NonEmpty(ps)|..] == NonEmpty(ps);
  }

  lemma TraceTimes(traces: seq<Timed<seq<Mode>>>, n: seq<Presence>, b: nat)
    requires traces != [] && TracesOf(traces, n, b) && Chained(n)
    ensures traces[|traces| - 1].time == if n == [] then 0 else n[|n| - 1].to
    ensures forall j :: 0 <= j < |traces| ==> traces[j].time <= traces[|traces| - 1].time
  {
    hide Chained;
    forall j | 0 <= j < |traces| ensures traces[j].time <= traces[|traces| - 1].time {
      if b + j > 0 { ExitsOrdered(n, b + j - 1, |n| - 1); }
    }
  }

  /** A purge leaves no trace to read exactly when the robot has not left a mode since the cutoff: it has stayed in
      one mode, or in its first, for longer than the history is kept. Otherwise it keeps the views in agreement. */
  lemma PurgeOutcome(robot: Robot, h: History, cutoff: nat)
    requires Valid(robot, h) && cutoff > 0
    ensures TracesLeft(h, cutoff) == [] <==> NonEmpty(h.presences) == [] || LastExit(h) < cutoff
    ensures TracesLeft(h, cutoff) != [] <==> Purgeable(h, cutoff)
    ensures TracesLeft(h, cutoff) != [] ==> Valid(robot, Purged(robot, h, cutoff))
  {
    LastTraceTime(robot, h);
    hide TracesAgree, StatesAgree, BufferAgrees, StaysStored, PresencesAgree, Chained, NonEmpty, Cut;
    if Purgeable(h, cutoff) {
      PurgedValid(robot, h, cutoff);
    }
  }

  lemma CutDefined(robot: Robot, h: History, cutoff: nat)
    requires Valid(robot, h) && Purgeable(h, cutoff)
    ensures var e := Stale(Times(h.traces), cutoff);
            e < |h.traces| && |h.traces[0].value| + e > 0 && Cuttable(h.traces, e)
  {
  }

  function Purged(robot: Robot, h: History, cutoff: nat): History
    requires Valid(robot, h) && Purgeable(h, cutoff)
  {
    CutDefined(robot, h, cutoff);
    h.(presences := h.presences[Stale(Exits(h.presences), cutoff)..],
       traces := Cut(h.traces, Stale(Times(h.traces), cutoff)))
  }

  lemma SuffixChained(ps: seq<Presence>, d: nat)
    requires Chained(ps) && d <= |ps|
    ensures Chained(ps[d..]) && (d > 0 ==> NonEmpty(ps[d..]) == ps[d..])
  {
    forall i | 0 < i < |ps[d..]|
      ensures ps[d..][i].from == ps[d..][i - 1].to && ps[d..][i].mode == ps[d..][i - 1].exit
    {
      assert ps[d + i].from == ps[d + i - 1].to && ps[d + i].mode == ps[d + i - 1].exit;
    }
    if 0 < d < |ps| { assert ps[d].mode == ps[d - 1].exit; }
  }

  lemma {:induction false} ExitsOrdered(ps: seq<Presence>, i: nat, j: nat)
    requires Chained(ps) && i <= j < |ps|
    ensures ps[i].to <= ps[j].to
  {
    if i < j {
      ExitsOrdered(ps, i, j - 1);
      assert ps[j].from == ps[j - 1].to;
    }
  }

  /** The first retained trace ends with the first retained stay; the stay before was dropped. */
  lemma FirstRetained(robot: Robot, h: History, cutoff: nat)
    requires Valid(robot, h) && Purgeable(h, cutoff)
    ensures var n, b, e := NonEmpty(h.presences), |h.traces[0].value|, Stale(Times(h.traces), cutoff);
            && b + e > 0 && e < |h.traces| && |n| + 1 == |h.traces| + b
            && n[b + e - 1].to >= cutoff && (b + e > 1 ==> n[b + e - 2].to < cutoff)
  {
    CutDefined(robot, h, cutoff);
    hide NonEmpty, Chained, TracesOf, StatesAgree, BufferAgrees, StaysStored, PresencesAgree, Stale, Cuttable;
    FirstLeft(h.traces, NonEmpty(h.presences), |h.traces[0].value|, cutoff);
  }

  lemma FirstLeft(traces: seq<Timed<seq<Mode>>>, n: seq<Presence>, b: nat, cutoff: nat)
    requires TracesOf(traces, n, b) && Stale(Times(traces), cutoff) < |traces| && b + Stale(Times(traces), cutoff) > 0
    ensures |n| + 1 == |traces| + b
    ensures var e := Stale(Times(traces), cutoff);
            n[b + e - 1].to >= cutoff && (b + e > 1 && e > 0 ==> n[b + e - 2].to < cutoff)
  {
    var e := Stale(Times(traces), cutoff);
    assert traces[e].time == n[b + e - 1].to;
    if e > 0 && b + e > 1 { assert traces[e - 1].time == n[b + e - 2].to; }
  }

  /** Dropping the stays before the cutoff drops the first q, when the one before them is the last of those. */
  lemma StalePresences(ps: seq<Presence>, q: nat, cutoff: nat)
    requires Chained(ps) && 0 < q < |ps| && ps[q].to >= cutoff && ps[q - 1].to < cutoff
    ensures Stale(Exits(ps), cutoff) == q
  {
    var d := Stale(Exits(ps), cutoff);
    if d < q { ExitsOrdered(ps, d, q - 1); }
  }

  /** The purge drops stays and traces in step. */
  lemma PurgedInStep(robot: Robot, h: History, cutoff: nat)
    requires Valid(robot, h) && Purgeable(h, cutoff)
    ensures var n, b, e := NonEmpty(h.presences), |h.traces[0].value|, Stale(Times(h.traces), cutoff);
            && b + e > 0 && e < |h.traces| && |n| + 1 == |h.traces| + b
            && NonEmpty(h.presences[Stale(Exits(h.presences), cutoff)..]) == n[b + e - 1..]
  {
    FirstRetained(robot, h, cutoff);
    hide TracesAgree, StatesAgree, BufferAgrees, StaysStored, Chained, NonEmpty, Stale, Purgeable;
    StaysDropped(h.presences, |h.traces[0].value| + Stale(Times(h.traces), cutoff) - 1, cutoff);
  }

  lemma StaysDropped(ps: seq<Presence>, i: nat, cutoff: nat)
    requires Chained(ps)
    requires i < |NonEmpty(ps)| && NonEmpty(ps)[i].to >= cutoff && (i > 0 ==> NonEmpty(ps)[i - 1].to < cutoff)
    ensures NonEmpty(ps[Stale(Exits(ps), cutoff)..]) == NonEmpty(ps)[i..]
  {
    var off := |ps| - |NonEmpty(ps)|;
    var d := Stale(Exits(ps), cutoff);
    if i > 0 {
      StalePresences(ps, off + i, cutoff);
      SuffixChained(ps, d);
    } else if d > 0 {
      SuffixChained(ps, d);
    }
  }

  lemma PurgedTraces(robot: Robot, h: History, cutoff: nat)
    requires Valid(robot, h) && Purgeable(h, cutoff)
    ensures TracesAgree(Purged(robot, h, cutoff))
  {
    hide NonEmpty, Stale, Cut, TracesOf;
    PurgedInStep(robot, h, cutoff);
    CutDefined(robot, h, cutoff);
    CutOf(h.traces, NonEmpty(h.presences), |h.traces[0].value|, Stale(Times(h.traces), cutoff));
  }

  lemma CutOf(traces: seq<Timed<seq<Mode>>>, n: seq<Presence>, b: nat, e: nat)
    requires TracesOf(traces, n, b) && b + e > 0 && e < |traces| && b <= 1
    requires Cuttable(traces, e)
    ensures |Cut(traces, e)| > 0 && |Cut(traces, e)[0].value| == 1 && TracesOf(Cut(traces, e), n[b + e - 1..], 1)
  {
    forall j | 0 <= j < |traces| - e
      ensures Cut(traces, e)[j].value == ModesIn(n[b + e - 1..])[..1 + j]
      ensures Cut(traces, e)[j].time == n[b + e - 1..][j].to
    {
      assert traces[e + j].value == ModesIn(n)[..b + e + j];
      SuffixModes(n, b + e - 1, j);
    }
  }

  lemma SuffixModes(n: seq<Presence>, k: nat, j: nat)
    requires k + j < |n|
    ensures ModesIn(n)[..k + 1 + j][k..] == ModesIn(n[k..])[..1 + j]
  {
  }

  /** Purging keeps the views in agreement. */
  lemma PurgedValid(robot: Robot, h: History, cutoff: nat)
    requires Valid(robot, h) && Purgeable(h, cutoff)
    ensures Valid(robot, Purged(robot, h, cutoff))
  {
    PurgedTraces(robot, h, cutoff);
    PurgedPresences(robot, h, cutoff);
    PurgedRest(robot, h, cutoff);
    hide PresencesAgree, TracesAgree, StatesAgree, BufferAgrees, StaysStored, Chained, Purged, Purgeable;
  }

  lemma PurgedRest(robot: Robot, h: History, cutoff: nat)
    requires Valid(robot, h) && Purgeable(h, cutoff)
    ensures var h' := Purged(robot, h, cutoff); StatesAgree(robot, h') && BufferAgrees(robot, h')
  {
    PurgedNonEmpty(robot, h, cutoff);
    hide TracesAgree, PresencesAgree, StaysStored, StoreAgrees, Chained, Cut, Stale, Purgeable, Level, SizeOf;
  }

  lemma PurgedPresences(robot: Robot, h: History, cutoff: nat)
    requires Valid(robot, h) && Purgeable(h, cutoff)
    ensures var h' := Purged(robot, h, cutoff); PresencesAgree(h') && StaysStored(robot, h'.states, h'.presences)
  {
    hide TracesAgree, StatesAgree, Chained, NonEmpty, Stale, StayStored, Cut, StaysStored;
    var d := Stale(Exits(h.presences), cutoff);
    SuffixChained(h.presences, d);
    PurgedNonEmpty(robot, h, cutoff);
    SuffixStored(robot, h.states, h.presences, d);
  }

  lemma SuffixStored(robot: Robot, states: States, ps: seq<Presence>, d: nat)
    requires Chained(ps) && StaysStored(robot, states, ps) && d <= |ps| && Chained(ps[d..])
    ensures StaysStored(robot, states, ps[d..])
  {
    hide StayStored;
    forall i | 0 <= i < |ps[d..]| && !ps[d..][i].mode.IsEmpty() ensures StayStored(robot, states, ps[d..][i]) {
      assert StayStored(robot, states, ps[d + i]);
    }
  }

  lemma PurgedNonEmpty(robot: Robot, h: History, cutoff: nat)
    requires Valid(robot, h) && Purgeable(h, cutoff)
    ensures h.presences != [] && Stale(Exits(h.presences), cutoff) < |h.presences|
  {
    var n := NonEmpty(h.presences);
    assert h.traces[|h.traces| - 1].time == n[|n| - 1].to;
    assert Exits(h.presences)[|h.presences| - 1] >= cutoff;
  }
}
