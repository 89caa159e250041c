/** Short runs of one robot, step by step from a new history: inputs on which the guard is met, and inputs on which
    properties fail. */
module ExampleRuns {
  import opened Capsules
  import opened Modes
  import opened TimedEntries
  import opened Histories
  import opened HistorySnapshots
  import opened LookAheadGuards

  /** One segment, and one sample per millisecond. */
  const EXAMPLE_ROBOT := Robot(1, 1000)

  /** Some run leads from a new history to h. */
  ghost predicate Reached(robot: Robot, h: History) {
    robot.Valid() && (CreatedValid(robot); exists events :: Runs(robot, Created(robot), events, h))
  }

  lemma {:induction false} RunsOn(robot: Robot, h: History, events: seq<Event>, h': History, e: Event)
    requires Valid(robot, h) && Runs(robot, h, events, h') && Valid(robot, h') && Enabled(robot, h', e)
    ensures Runs(robot, h, events + [e], After(robot, h', e))
    decreases |events|
  {
    hide Valid, After, Enabled;
    if events == [] {
      assert [e][1..] == [];
      assert Runs(robot, After(robot, h, e), [], After(robot, h, e));
    } else {
      RunsOn(robot, After(robot, h, events[0]), events[1..], h', e);
      assert (events + [e])[1..] == events[1..] + [e];
    }
  }

  lemma ReachedValid(robot: Robot, h: History)
    requires Reached(robot, h)
    ensures Valid(robot, h)
  {
    hide Runs, Valid;
    CreatedValid(robot);
    var events :| Runs(robot, Created(robot), events, h);
    RunValid(robot, Created(robot), events, h);
  }

  lemma ReachedOn(robot: Robot, h: History, mode: Mode, os: seq<Observation>, t: nat)
    requires Reached(robot, h) && h.latestTime <= t && !mode.IsEmpty() && |os| == robot.segments
    ensures Valid(robot, h) && Reached(robot, Acquired(robot, h, mode, os, t))
  {
    hide Runs, Valid, Acquired;
    ReachedValid(robot, h);
    CreatedValid(robot);
    var events :| Runs(robot, Created(robot), events, h);
    RunsOn(robot, Created(robot), events, h, State(mode, os, t));
  }

  lemma ReachedAtFirst(robot: Robot)
    requires robot.Valid()
    ensures Reached(robot, Created(robot))
  {
    CreatedValid(robot);
    assert Runs(robot, Created(robot), [], Created(robot));
  }

  /* What one state does to a history of one segment, when no sample has to be repeated */

  /** The samples of the segment once the observation is in. */
  function With(samples: seq<Sample>, index: nat, o: Observation): seq<Sample>
    requires index <= |samples|
  {
    if index == |samples| then samples + [[o]] else samples[index := samples[index] + [o]]
  }

  predicate Fits(samples: seq<Sample>, index: nat, distance: int) {
    if distance == 1 then index == |samples| else distance <= 0 && index < |samples|
  }

  lemma RecordedWith(samples: seq<Sample>, index: nat, distance: int, o: Observation)
    requires Fits(samples, index, distance)
    ensures Recordable([samples], index, distance)
    ensures Recorded([samples], index, distance, [o]) == [With(samples, index, o)]
  {
    assert Observed(samples, index, distance, o) == With(samples, index, o) by {
      assert [] + [o] == [o];
    }
  }

  lemma AcquiredAfter(robot: Robot, h: History, m: Mode, os: seq<Observation>, t: nat, index: nat, distance: int)
    requires Valid(robot, h) && h.latestTime <= t && !m.IsEmpty() && |os| == robot.segments
    requires var h' := Switched(robot, h, m, t);
             && h'.presences != [] && LastExit(h') <= t
             && (h'.latestMode in h'.states ==> h'.states[h'.latestMode] != [])
             && Position(robot, h', t) == (index, distance)
    ensures var h' := Switched(robot, h, m, t);
            && |os| == |h'.buffer| && Recordable(h'.buffer, index, distance)
            && Acquired(robot, h, m, os, t) == h'.(latestTime := t, buffer := Recorded(h'.buffer, index, distance, os))
  {
    SwitchedRecordable(robot, h, m, t);
    hide Valid, Switched, Position, Recorded, Recordable, PresencesAgree, TracesAgree, StatesAgree, StaysStored;
  }

  /** A state, once the switch to its mode is made. */
  lemma StateMade(h: History, h': History, m: Mode, o: Observation, t: nat, samples: seq<Sample>, index: nat,
                  distance: int)
    requires Reached(EXAMPLE_ROBOT, h) && h.latestTime <= t && !m.IsEmpty() && Valid(EXAMPLE_ROBOT, h)
    requires Switched(EXAMPLE_ROBOT, h, m, t).(latestTime := t) == h' && h'.buffer == [samples]
    requires h'.presences != [] && LastExit(h') <= t && (h'.latestMode in h'.states ==> h'.states[h'.latestMode] != [])
    requires Position(EXAMPLE_ROBOT, h', t) == (index, distance) && Fits(samples, index, distance)
    ensures Reached(EXAMPLE_ROBOT, h'.(buffer := [With(samples, index, o)]))
  {
    ReachedOn(EXAMPLE_ROBOT, h, m, [o], t);
    hide *;
    SamePosition(Switched(EXAMPLE_ROBOT, h, m, t), h', t);
    AcquiredAfter(EXAMPLE_ROBOT, h, m, [o], t, index, distance);
    RecordedWith(samples, index, distance, o);
  }

  lemma SamePosition(h: History, h': History, t: nat)
    requires h' == h.(latestTime := t) && h'.presences != [] && LastExit(h') <= t
    requires h'.latestMode in h'.states ==> h'.states[h'.latestMode] != []
    ensures h.presences != [] && LastExit(h) <= t && (h.latestMode in h.states ==> h.states[h.latestMode] != [])
    ensures Position(EXAMPLE_ROBOT, h, t) == Position(EXAMPLE_ROBOT, h', t)
  {
  }

  lemma EnteredFirst(m: Mode, o: Observation, t: nat)
    requires !m.IsEmpty()
    ensures Reached(EXAMPLE_ROBOT, History([Presence(NO_MODE, m, t, t)], map[], m, t, [[[o]]], [Timed(0, [])]))
  {
    ReachedAtFirst(EXAMPLE_ROBOT);
    var h, h' := Created(EXAMPLE_ROBOT), History([Presence(NO_MODE, m, t, t)], map[], m, t, [[]], [Timed(0, [])]);
    CreatedValid(EXAMPLE_ROBOT);
    assert NoSamples(EXAMPLE_ROBOT) == [[]];
    assert Switched(EXAMPLE_ROBOT, h, m, t).(latestTime := t) == h';
    assert With([], 0, o) == [[o]];
    hide Reached, Valid, Switched;
    StateMade(h, h', m, o, t, [], 0, 1);
  }

  /** The views after leaving a mode for m. */
  function Leaving(h: History, m: Mode, t: nat): History
    requires h.presences != [] && h.traces != []
  {
    History(h.presences + [Presence(h.latestMode, m, LastExit(h), t)],
            h.states[h.latestMode := StoredIn(h, h.latestMode) + [Timed(t, h.buffer)]],
            m, t, [[]], h.traces + [Timed(t, h.traces[|h.traces| - 1].value + [h.latestMode])])
  }

  predicate Leaves(h: History, m: Mode, t: nat) {
    && h.presences != [] && h.traces != [] && !m.IsEmpty() && m != h.latestMode
    && LastExit(h) <= h.latestTime <= t && t - LastExit(h) <= SizeOf(h.buffer)
  }

  lemma LeavingIs(h: History, m: Mode, t: nat)
    requires Valid(EXAMPLE_ROBOT, h) && Leaves(h, m, t)
    ensures m in h.states ==> h.states[m] != []
    ensures var h' := Switched(EXAMPLE_ROBOT, h, m, t);
            h'.(latestTime := t) == Leaving(h, m, t).(buffer := if m in h.states then LatestStored(h, m) else [[]])
  {
    LevelNonEmpty(EXAMPLE_ROBOT, h.buffer);
    PaddedNone(h.buffer);
    assert NoSamples(EXAMPLE_ROBOT) == [[]];
    StoredAgrees(EXAMPLE_ROBOT, h, m);
    hide PresencesAgree, TracesAgree, StatesAgree, BufferAgrees, StaysStored, Level, Chained, StoreAgrees;
  }

  lemma EnteredNew(h: History, m: Mode, o: Observation, t: nat)
    requires Reached(EXAMPLE_ROBOT, h) && Leaves(h, m, t) && m !in h.states
    ensures Reached(EXAMPLE_ROBOT, Leaving(h, m, t).(buffer := [[[o]]]))
  {
    ReachedValid(EXAMPLE_ROBOT, h);
    LeavingIs(h, m, t);
    hide Valid, Reached, Switched;
    assert With([], 0, o) == [[o]];
    StateMade(h, Leaving(h, m, t), m, o, t, [], 0, 1);
  }

  /** Back into a mode left before: the observation is merged into the first of the samples stored for it. */
  lemma EnteredAgain(h: History, m: Mode, o: Observation, t: nat, samples: seq<Sample>)
    requires Reached(EXAMPLE_ROBOT, h) && Leaves(h, m, t)
    requires m in h.states && h.states[m] != [] && LatestStored(h, m) == [samples] && samples != []
    ensures Reached(EXAMPLE_ROBOT, Leaving(h, m, t).(buffer := [With(samples, 0, o)]))
  {
    hide *;
    BackAtFirst(h, m, t, samples);
    ReachedValid(EXAMPLE_ROBOT, h);
    LeavingIs(h, m, t);
    StateMade(h, Leaving(h, m, t).(buffer := [samples]), m, o, t, samples, 0, 1 - |samples|);
  }

  lemma BackAtFirst(h: History, m: Mode, t: nat, samples: seq<Sample>)
    requires Leaves(h, m, t) && m in h.states && h.states[m] != [] && LatestStored(h, m) == [samples] && samples != []
    ensures h.presences != [] && h.traces != [] && h.latestTime <= t && !m.IsEmpty()
    ensures var h' := Leaving(h, m, t).(buffer := [samples]);
            && h'.presences != [] && LastExit(h') == t
            && (h'.latestMode in h'.states ==> h'.states[h'.latestMode] != [])
            && Position(EXAMPLE_ROBOT, h', t) == (0, 1 - |samples|) && Fits(samples, 0, 1 - |samples|)
  {
    assert EXAMPLE_ROBOT.Whole(t, t) == 0;
  }

  lemma StayedNew(h: History, o: Observation, t: nat, samples: seq<Sample>)
    requires Reached(EXAMPLE_ROBOT, h) && h.presences != [] && LastExit(h) <= h.latestTime <= t
    requires !h.latestMode.IsEmpty() && h.latestMode !in h.states && h.buffer == [samples]
    ensures Reached(EXAMPLE_ROBOT, h.(latestTime := t, buffer := [samples + [[o]]]))
  {
    ReachedValid(EXAMPLE_ROBOT, h);
    hide Valid, Reached;
    StateMade(h, h.(latestTime := t), h.latestMode, o, t, samples, |samples|, 1);
  }

  lemma StayedAgain(h: History, o: Observation, t: nat, samples: seq<Sample>, stored: seq<Sample>)
    requires Reached(EXAMPLE_ROBOT, h) && h.presences != [] && LastExit(h) <= h.latestTime <= t
    requires !h.latestMode.IsEmpty() && h.latestMode in h.states && h.states[h.latestMode] != []
    requires LatestStored(h, h.latestMode) == [stored] && h.buffer == [samples]
    requires t - LastExit(h) < |stored| <= |samples|
    ensures Reached(EXAMPLE_ROBOT, h.(latestTime := t, buffer := [With(samples, t - LastExit(h), o)]))
  {
    ReachedValid(EXAMPLE_ROBOT, h);
    var i := t - LastExit(h);
    assert EXAMPLE_ROBOT.Whole(LastExit(h), t) == i;
    assert Switched(EXAMPLE_ROBOT, h, h.latestMode, t) == h;
    assert Position(EXAMPLE_ROBOT, h.(latestTime := t), t) == (i, i - (|stored| - 1));
    hide Valid, Reached, With, Switched, Position;
    StateMade(h, h.(latestTime := t), h.latestMode, o, t, samples, i, i - (|stored| - 1));
  }

  /* A robot that stays */

  /** In a from 1, in b from 2, and still there at t. */
  function Staying(a: Mode, b: Mode, o: Observation, t: nat): History {
    History([Presence(NO_MODE, a, 1, 1), Presence(a, b, 1, 2)], map[a := [Timed(2, [[[o]]])]],
            b, t, [[[o], [o]]], [Timed(0, []), Timed(2, [a])])
  }

  lemma StayingReached(a: Mode, b: Mode, o: Observation, t: nat)
    requires a != b && !a.IsEmpty() && !b.IsEmpty() && t >= 2
    ensures Reached(EXAMPLE_ROBOT, Staying(a, b, o, t))
  {
    hide Reached;
    var h1 := History([Presence(NO_MODE, a, 1, 1)], map[], a, 1, [[[o]]], [Timed(0, [])]);
    EnteredFirst(a, o, 1);
    EnteredNew(h1, b, o, 2);
    var h2 := Leaving(h1, b, 2).(buffer := [[[o]]]);
    assert [] + [a] == [a];
    StayedNew(h2, o, t, [[o]]);
    assert [[o]] + [[o]] == [[o], [o]];
    var h := Staying(a, b, o, t);
    assert h2.states[a] == h.states[a];
    assert h2.presences == h.presences && h2.traces == h.traces && h2.states == h.states;
  }

  /** The history of a robot that stays in one mode for longer than its history is kept cannot be purged: no trace is
      left, and the source reads the first one. */
  lemma LongStayCannotBePurged(a: Mode, b: Mode, o: Observation, t: nat, cutoff: nat)
    requires a != b && !a.IsEmpty() && !b.IsEmpty() && 2 < cutoff <= t
    ensures var h := Staying(a, b, o, t);
            Reached(EXAMPLE_ROBOT, h) && Valid(EXAMPLE_ROBOT, h) && TracesLeft(h, cutoff) == []
  {
    var h := Staying(a, b, o, t);
    StayingReached(a, b, o, t);
    ReachedValid(EXAMPLE_ROBOT, h);
    hide Reached, Valid, Stale, Purgeable;
    PurgeOutcome(EXAMPLE_ROBOT, h, cutoff);
    assert LastExit(h) == 2;
  }

  /* A robot that returns */

  /** Three samples in a from 1, the second observed as q; one in b; two in a from 5; one in d; and two in a from 9. */
  function Returning(a: Mode, b: Mode, d: Mode, o: Observation, q: Observation): History {
    History([Presence(NO_MODE, a, 1, 1), Presence(a, b, 1, 4), Presence(b, a, 4, 5), Presence(a, d, 5, 8),
             Presence(d, a, 8, 9)],
            map[a := [Timed(4, [[[o], [q], [o]]]), Timed(8, [[[o, o], [q, o], [o]]])], b := [Timed(5, [[[o]]])],
                d := [Timed(9, [[[o]]])]],
            a, 10, [[[o, o, o], [q, o, o], [o]]],
            [Timed(0, []), Timed(4, [a]), Timed(5, [a, b]), Timed(8, [a, b, a]), Timed(9, [a, b, a, d])])
  }

  /** The same before d. */
  function Returned(a: Mode, b: Mode, o: Observation, q: Observation): History {
    History([Presence(NO_MODE, a, 1, 1), Presence(a, b, 1, 4), Presence(b, a, 4, 5)],
            map[a := [Timed(4, [[[o], [q], [o]]])], b := [Timed(5, [[[o]]])]],
            a, 6, [[[o, o], [q, o], [o]]], [Timed(0, []), Timed(4, [a]), Timed(5, [a, b])])
  }

  function FirstStay(a: Mode, b: Mode, o: Observation, q: Observation): History {
    History([Presence(NO_MODE, a, 1, 1), Presence(a, b, 1, 4)], map[a := [Timed(4, [[[o], [q], [o]]])]],
            b, 4, [[[o]]], [Timed(0, []), Timed(4, [a])])
  }

  lemma FirstStayReached(a: Mode, b: Mode, o: Observation, q: Observation)
    requires a != b && !a.IsEmpty() && !b.IsEmpty()
    ensures Reached(EXAMPLE_ROBOT, FirstStay(a, b, o, q))
  {
    hide Reached;
    var h1 := History([Presence(NO_MODE, a, 1, 1)], map[], a, 1, [[[o]]], [Timed(0, [])]);
    EnteredFirst(a, o, 1);
    StayedNew(h1, q, 2, [[o]]);
    assert [[o]] + [[q]] == [[o], [q]];
    StayedNew(h1.(latestTime := 2, buffer := [[[o], [q]]]), o, 3, [[o], [q]]);
    assert [[o], [q]] + [[o]] == [[o], [q], [o]];
    var h3 := h1.(latestTime := 3, buffer := [[[o], [q], [o]]]);
    EnteredNew(h3, b, o, 4);
    assert [] + [a] == [a];
    var h4, h := Leaving(h3, b, 4).(buffer := [[[o]]]), FirstStay(a, b, o, q);
    assert h4.states[a] == h.states[a];
    assert h4.presences == h.presences && h4.traces == h.traces && h4.states == h.states;
  }

  lemma ReturnedReached(a: Mode, b: Mode, o: Observation, q: Observation)
    requires a != b && !a.IsEmpty() && !b.IsEmpty()
    ensures Reached(EXAMPLE_ROBOT, Returned(a, b, o, q))
  {
    hide Reached;
    FirstStayReached(a, b, o, q);
    var h4 := FirstStay(a, b, o, q);
    EnteredAgain(h4, a, o, 5, [[o], [q], [o]]);
    assert [o] + [o] == [o, o] && [q] + [o] == [q, o] && [a] + [b] == [a, b];
    assert With([[o], [q], [o]], 0, o) == [[o, o], [q], [o]];
    var h5 := Leaving(h4, a, 5).(buffer := [[[o, o], [q], [o]]]);
    StayedAgain(h5, o, 6, [[o, o], [q], [o]], [[o], [q], [o]]);
    assert With([[o, o], [q], [o]], 1, o) == [[o, o], [q, o], [o]];
    var h := Returned(a, b, o, q);
    assert h5.states[a] == h.states[a] && h5.states[b] == h.states[b];
    assert h5.presences == h.presences && h5.traces == h.traces && h5.states == h.states;
  }

  lemma ReturningReached(a: Mode, b: Mode, d: Mode, o: Observation, q: Observation)
    requires a != b && a != d && b != d && !a.IsEmpty() && !b.IsEmpty() && !d.IsEmpty()
    ensures Reached(EXAMPLE_ROBOT, Returning(a, b, d, o, q))
  {
    hide Reached;
    ReturnedReached(a, b, o, q);
    var h6 := Returned(a, b, o, q);
    EnteredNew(h6, d, o, 8);
    assert [a, b] + [a] == [a, b, a] && [a, b, a] + [d] == [a, b, a, d];
    assert [o, o] + [o] == [o, o, o] && [q, o] + [o] == [q, o, o];
    var h8 := Leaving(h6, d, 8).(buffer := [[[o]]]);
    var stored := [[o, o], [q, o], [o]];
    EnteredAgain(h8, a, o, 9, stored);
    assert With(stored, 0, o) == [[o, o, o], [q, o], [o]];
    var h9 := Leaving(h8, a, 9).(buffer := [[[o, o, o], [q, o], [o]]]);
    StayedAgain(h9, o, 10, [[o, o, o], [q, o], [o]], stored);
    assert With([[o, o, o], [q, o], [o]], 1, o) == [[o, o, o], [q, o, o], [o]];
    var h := Returning(a, b, d, o, q);
    assert h9.states[a] == h.states[a] && h9.states[b] == h.states[b] && h9.states[d] == h.states[d];
    assert h9.presences == h.presences && h9.traces == h.traces && h9.states == h.states;
  }

  /** Look-ahead is possible in it from the second sample in a on. */
  lemma ReturnedLooksAhead(a: Mode, b: Mode, o: Observation, q: Observation)
    requires a != b && !a.IsEmpty() && !b.IsEmpty()
    ensures var h := Returned(a, b, o, q);
            Valid(EXAMPLE_ROBOT, h) && ModeAt(h, 6) == a && CanLookAhead(EXAMPLE_ROBOT, h, 6, 6) == Some(true)
  {
    var h := Returned(a, b, o, q);
    ReturnedReached(a, b, o, q);
    ReachedValid(EXAMPLE_ROBOT, h);
    hide Valid, Reached, ModeAt, Entrance;
    InLatestMode(EXAMPLE_ROBOT, h, 6);
    PrefixUnique(h.states[a], 6, 1);
    assert h.presences[1].from < 6 && h.presences[1].mode == a && 6 > h.presences[1].to;
    GuardMet(EXAMPLE_ROBOT, h, 6, 6, 5, h.presences[1]);
  }

  /** And it is possible from later samples in the snapshot of then, also when the robot has been away again. */
  lemma ReturningLooksAhead(a: Mode, b: Mode, d: Mode, o: Observation, q: Observation, t: nat)
    requires a != b && a != d && b != d && !a.IsEmpty() && !b.IsEmpty() && !d.IsEmpty() && 9 <= t <= 10
    ensures var h := Returning(a, b, d, o, q);
            Valid(EXAMPLE_ROBOT, h) && ModeAt(h, t) == a && CanLookAhead(EXAMPLE_ROBOT, h, 6, t) == Some(true)
  {
    var h := Returning(a, b, d, o, q);
    ReturningReached(a, b, d, o, q);
    ReachedValid(EXAMPLE_ROBOT, h);
    hide Valid, Reached, ModeAt, Entrance;
    InLatestMode(EXAMPLE_ROBOT, h, t);
    PrefixUnique(h.states[a], t, 2);
    assert h.presences[1].from < 6 && h.presences[1].mode == a && t > h.presences[1].to;
    GuardMet(EXAMPLE_ROBOT, h, 6, t, 9, h.presences[1]);
  }

  /* A robot that takes another way */

  /** In a, b, c, and a again; and then in c, observed as q there, before b. */
  function Detour(a: Mode, b: Mode, c: Mode, o: Observation, q: Observation): History {
    History([Presence(NO_MODE, a, 1, 1), Presence(a, b, 1, 2), Presence(b, c, 2, 3), Presence(c, a, 3, 4),
             Presence(a, c, 4, 5), Presence(c, b, 5, 6)],
            map[a := [Timed(2, [[[o]]]), Timed(5, [[[o, o]]])], b := [Timed(3, [[[o]]])],
                c := [Timed(4, [[[o]]]), Timed(6, [[[o, q]]])]],
            b, 6, [[[o, o]]],
            [Timed(0, []), Timed(2, [a]), Timed(3, [a, b]), Timed(4, [a, b, c]), Timed(5, [a, b, c, a]),
             Timed(6, [a, b, c, a, c])])
  }

  function Around(a: Mode, b: Mode, c: Mode, o: Observation): History {
    History([Presence(NO_MODE, a, 1, 1), Presence(a, b, 1, 2), Presence(b, c, 2, 3), Presence(c, a, 3, 4)],
            map[a := [Timed(2, [[[o]]])], b := [Timed(3, [[[o]]])], c := [Timed(4, [[[o]]])]],
            a, 4, [[[o, o]]], [Timed(0, []), Timed(2, [a]), Timed(3, [a, b]), Timed(4, [a, b, c])])
  }

  lemma AroundReached(a: Mode, b: Mode, c: Mode, o: Observation)
    requires a != b && a != c && b != c && !a.IsEmpty() && !b.IsEmpty() && !c.IsEmpty()
    ensures Reached(EXAMPLE_ROBOT, Around(a, b, c, o))
  {
    hide Reached;
    var h1 := History([Presence(NO_MODE, a, 1, 1)], map[], a, 1, [[[o]]], [Timed(0, [])]);
    EnteredFirst(a, o, 1);
    EnteredNew(h1, b, o, 2);
    var h2 := Leaving(h1, b, 2).(buffer := [[[o]]]);
    EnteredNew(h2, c, o, 3);
    var h3 := Leaving(h2, c, 3).(buffer := [[[o]]]);
    EnteredAgain(h3, a, o, 4, [[o]]);
    assert [o] + [o] == [o, o];
    assert With([[o]], 0, o) == [[o, o]];
    assert [] + [a] == [a] && [a] + [b] == [a, b] && [a, b] + [c] == [a, b, c];
    var h4, h := Leaving(h3, a, 4).(buffer := [[[o, o]]]), Around(a, b, c, o);
    assert h4.states[a] == h.states[a] && h4.states[b] == h.states[b] && h4.states[c] == h.states[c];
    assert h4.presences == h.presences && h4.traces == h.traces && h4.states == h.states;
  }

  lemma DetourReached(a: Mode, b: Mode, c: Mode, o: Observation, q: Observation)
    requires a != b && a != c && b != c && !a.IsEmpty() && !b.IsEmpty() && !c.IsEmpty()
    ensures Reached(EXAMPLE_ROBOT, Detour(a, b, c, o, q))
  {
    hide Reached;
    AroundReached(a, b, c, o);
    var h4 := Around(a, b, c, o);
    EnteredAgain(h4, c, q, 5, [[o]]);
    assert [o] + [q] == [o, q] && [o] + [o] == [o, o];
    assert [a, b, c] + [a] == [a, b, c, a] && [a, b, c, a] + [c] == [a, b, c, a, c];
    assert With([[o]], 0, q) == [[o, q]] && With([[o]], 0, o) == [[o, o]];
    var h5 := Leaving(h4, c, 5).(buffer := [[[o, q]]]);
    EnteredAgain(h5, b, o, 6, [[o]]);
    var h6, h := Leaving(h5, b, 6).(buffer := [[[o, o]]]), Detour(a, b, c, o, q);
    assert h6.states[a] == h.states[a] && h6.states[b] == h.states[b] && h6.states[c] == h.states[c];
    assert h6.presences == h.presences && h6.traces == h.traces && h6.states == h.states;
  }

  /** Look-ahead is possible in b, in the snapshot taken in a. */
  lemma DetourLooksAhead(a: Mode, b: Mode, c: Mode, o: Observation, q: Observation)
    requires a != b && a != c && b != c && !a.IsEmpty() && !b.IsEmpty() && !c.IsEmpty()
    ensures var h := Detour(a, b, c, o, q);
            Valid(EXAMPLE_ROBOT, h) && ModeAt(h, 6) == b && CanLookAhead(EXAMPLE_ROBOT, h, 4, 6) == Some(true)
  {
    var h := Detour(a, b, c, o, q);
    DetourReached(a, b, c, o, q);
    ReachedValid(EXAMPLE_ROBOT, h);
    hide Valid, Reached, ModeAt, Entrance;
    InLatestMode(EXAMPLE_ROBOT, h, 6);
    PrefixUnique(h.states[b], 6, 1);
    assert h.presences[2].from < 4 && h.presences[2].mode == b && 6 > h.presences[2].to;
    GuardMet(EXAMPLE_ROBOT, h, 4, 6, 6, h.presences[2]);
  }

  /** A purge that makes the second stay in a the first in the history loses the sample index of its times. */
  lemma PurgeLosesIndex(a: Mode, b: Mode, c: Mode, o: Observation, q: Observation)
    requires a != b && a != c && b != c && !a.IsEmpty() && !b.IsEmpty() && !c.IsEmpty()
    ensures var h := Detour(a, b, c, o, q);
            && Reached(EXAMPLE_ROBOT, h) && Valid(EXAMPLE_ROBOT, h) && Purgeable(h, 5)
            && CheckedSampleIndex(EXAMPLE_ROBOT, h, 4, ModeAt(h, 4), 4) == Some(0)
            && CheckedSampleIndex(EXAMPLE_ROBOT, Purged(EXAMPLE_ROBOT, h, 5), 4, ModeAt(h, 4), 4) == None
  {
    var h := Detour(a, b, c, o, q);
    DetourReached(a, b, c, o, q);
    ReachedValid(EXAMPLE_ROBOT, h);
    assert Chained(h.presences) && Purgeable(h, 5);
    hide *;
    SecondStay(a, b, c, o, q);
    PurgeKeepsIndexIff(EXAMPLE_ROBOT, h, 5, 4, 4);
  }

  lemma SecondStay(a: Mode, b: Mode, c: Mode, o: Observation, q: Observation)
    requires a != b && a != c && b != c && Chained(Detour(a, b, c, o, q).presences)
    ensures var h := Detour(a, b, c, o, q);
            && CheckedSampleIndex(EXAMPLE_ROBOT, h, 4, ModeAt(h, 4), 4) == Some(0) && !PrecededSince(h, 5, 4)
  {
    var h := Detour(a, b, c, o, q);
    var ps := h.presences;
    assert ps[4] == Presence(a, c, 4, 5) && ps[3].to == 4 && LastExit(h) == 6;
    hide Chained, Purged, Stale;
    ModeAtFound(ps, b, 4, 4);
    EntranceFound(ps, a, 4, 4);
    PrecededByLate(ps, 5, 4, 4);
    PrefixUnique(h.states[a], 4, 1);
    assert EXAMPLE_ROBOT.Whole(4, 4) == 0;
  }
}
