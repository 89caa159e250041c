/** A run of a robot that sends ten messages a second: samples are counted in messages, not in milliseconds. */
module SlowRobotExamples {
  import opened Capsules
  import opened Modes
  import opened Histories
  import opened HistorySnapshots
  import opened LookAheadGuards
  import opened ExampleRuns

  const SLOW_ROBOT := Robot(1, 10)

  function CreatedSlow(): (h: History)
    ensures Valid(SLOW_ROBOT, h)
  {
    CreatedValid(SLOW_ROBOT);
    Created(SLOW_ROBOT)
  }

  lemma NoneYet()
    ensures Runs(SLOW_ROBOT, CreatedSlow(), [], CreatedSlow())
    ensures var h := CreatedSlow(); h.presences == [] && h.latestTime == 0 && h.latestMode.IsEmpty()
  {
  }

  lemma OneMore(events: seq<Event>, h: History, m: Mode, o: Observation, t: nat) returns (h': History)
    requires Runs(SLOW_ROBOT, CreatedSlow(), events, h) && h.latestTime <= t && !m.IsEmpty()
    ensures Runs(SLOW_ROBOT, CreatedSlow(), events + [State(m, [o], t)], h')
    ensures h'.latestMode == m && h'.latestTime == t
    ensures h'.presences == h.presences + if h.latestMode == m then [] else [Closing(h, m, t)]
  {
    hide Valid, Runs, Acquired, CreatedSlow;
    RunValid(SLOW_ROBOT, CreatedSlow(), events, h);
    RunsOn(SLOW_ROBOT, CreatedSlow(), events, h, State(m, [o], t));
    AcquiredAppends(SLOW_ROBOT, h, m, [o], t, m);
    h' := After(SLOW_ROBOT, h, State(m, [o], t));
  }

  /** In a from 1, in b from 1001, in a again from 1101 on, and still there at 1601: asked then, 500 milliseconds after
      it came back, the index is 5; and look-ahead is possible, because the first stay had room for 10 samples. */
  lemma SlowIndex(a: Mode, b: Mode, o: Observation) returns (h: History)
    requires a != b && !a.IsEmpty() && !b.IsEmpty()
    ensures Runs(SLOW_ROBOT, CreatedSlow(),
                 [State(a, [o], 1), State(b, [o], 1001), State(a, [o], 1101), State(a, [o], 1601)], h)
    ensures Valid(SLOW_ROBOT, h) && ModeAt(h, 1601) == a
    ensures CheckedSampleIndex(SLOW_ROBOT, h, 1601, a, 1601) == Some(5)
    ensures CanLookAhead(SLOW_ROBOT, h, 1601, 1601) == Some(true)
  {
    hide Valid, Runs, ModeAt, CheckedSampleIndex, CanLookAhead, CreatedSlow;
    NoneYet();
    var e1, e2, e3, e4 := State(a, [o], 1), State(b, [o], 1001), State(a, [o], 1101), State(a, [o], 1601);
    var h1 := OneMore([], CreatedSlow(), a, o, 1);
    assert [] + [e1] == [e1] && [e1] + [e2] == [e1, e2];
    var h2 := OneMore([e1], h1, b, o, 1001);
    var h3 := OneMore([e1, e2], h2, a, o, 1101);
    assert [e1, e2] + [e3] == [e1, e2, e3] && [e1, e2, e3] + [e4] == [e1, e2, e3, e4];
    h := OneMore([e1, e2, e3], h3, a, o, 1601);
    RunValid(SLOW_ROBOT, CreatedSlow(), [e1, e2, e3, e4], h);
    SlowGuard(a, b, h);
  }

  lemma SlowGuard(a: Mode, b: Mode, h: History)
    requires Valid(SLOW_ROBOT, h) && h.latestMode == a && h.latestTime == 1601 && !a.IsEmpty()
    requires h.presences == [Presence(NO_MODE, a, 1, 1), Presence(a, b, 1, 1001), Presence(b, a, 1001, 1101)]
    ensures ModeAt(h, 1601) == a
    ensures CheckedSampleIndex(SLOW_ROBOT, h, 1601, a, 1601) == Some(5)
    ensures CanLookAhead(SLOW_ROBOT, h, 1601, 1601) == Some(true)
  {
    hide Valid, ModeAt, Entrance, CanLookAhead, StoredAt;
    InLatestMode(SLOW_ROBOT, h, 1601);
    var p := h.presences[1];
    StoredCovers(SLOW_ROBOT, h, p, 1601);
    assert p in h.presences && VisitedBefore(h.presences, 1601, a, 1601);
    GuardMet(SLOW_ROBOT, h, 1601, 1601, 1101, p);
  }
}
