/** Which purges of the history a job outlives: what it looks ahead over must be retained. */
module JobPurges {
  import opened Capsules
  import opened Modes
  import opened NextModes
  import opened ModeTraces
  import opened Predictions
  import opened Histories
  import opened HistoryEnvironments
  import opened LookAheadGuards
  import opened SectionLists
  import opened LookAheadJobPaths
  import opened Reuses
  import opened JobRuns
  import opened JobLives
  import S = HistorySnapshots

  /** A completed stay in the mode is retained that had ended by the given time. */
  predicate StayRetained(h: History, cutoff: nat, m: Mode, until: nat) {
    exists i :: 0 <= i < |h.presences| && IsStay(h.presences[i], m, until) && cutoff <= h.presences[i].to
  }

  predicate IsStay(p: Presence, m: Mode, until: nat) {
    !p.mode.IsEmpty() && p.mode == m && p.to <= until
  }

  predicate IsLongStay(robot: Robot, p: Presence, m: Mode, until: nat, n: nat) {
    IsStay(p, m, until) && p.from <= p.to && n < robot.Whole(p.from, p.to)
  }

  /** One is retained that was longer than n samples. */
  predicate LongStayRetained(robot: Robot, h: History, cutoff: nat, m: Mode, until: nat, n: nat) {
    exists i :: 0 <= i < |h.presences| && IsLongStay(robot, h.presences[i], m, until, n) && cutoff <= h.presences[i].to
  }

  /** What a purge has to retain for a job: the stay before the one in which the job starts, a long enough stay in its
      first mode, and one in each of its modes. */
  predicate Retains(robot: Robot, h: History, cutoff: nat, job: Job) {
    && job.trace != [] && StartOf(robot, h, job).Some?
    && S.PrecededSince(h, cutoff, job.initialTime)
    && LongStayRetained(robot, h, cutoff, job.trace[0].mode, job.snapshotTime, StartOf(robot, h, job).value)
    && forall m :: m in ModesOf(job.trace) ==> StayRetained(h, cutoff, m, job.initialTime)
  }

  /** The stays that are retained are those that ended at or after the cutoff. */
  lemma RetainedIff(h: History, h': History, d: nat, cutoff: nat, p: Presence)
    requires Chained(h.presences) && d < |h.presences| && d == Stale(Exits(h.presences), cutoff)
    requires h'.presences == h.presences[d..]
    ensures p in h'.presences <==>
            exists i :: 0 <= i < |h.presences| && h.presences[i] == p && cutoff <= h.presences[i].to
  {
    var ps := h.presences;
    hide Chained;
    if p in h'.presences {
      var k :| 0 <= k < |h'.presences| && h'.presences[k] == p;
      ExitsOrdered(ps, d, d + k);
      assert ps[d + k] == p;
    }
    if i :| 0 <= i < |ps| && ps[i] == p && cutoff <= ps[i].to {
      assert Exits(ps)[i] == ps[i].to;
      assert h'.presences[i - d] == p;
    }
  }

  /** The longest of the completed stays is longer than n exactly if one of them is. */
  lemma LongestExceeds(robot: Robot, h: History, s: nat, m: Mode, n: nat)
    requires Chained(h.presences)
    ensures n < Longest(robot, h, s, m) <==> exists p :: p in h.presences && IsLongStay(robot, p, m, s, n)
  {
    var among := S.PresencesIn(h.presences, s, m);
    forall p ensures p in among <==> p in h.presences && IsStay(p, m, s) {
      S.PresencesInMembers(h.presences, s, m, p);
    }
    forall p | p in h.presences ensures p.from <= p.to {
      var i :| 0 <= i < |h.presences| && h.presences[i] == p;
    }
    hide S.PresencesIn, IsStay;
    if n < Longest(robot, h, s, m) {
      var k := S.MaxWholeAttained(robot, among);
      assert among[k] in among && IsLongStay(robot, among[k], m, s, n);
    }
    if p :| p in h.presences && IsLongStay(robot, p, m, s, n) {
      MaxWholeBounds(robot, among, p);
    }
  }

  /** What a purge leaves: the stays from the first retained one on, and all stored samples. */
  predicate LeavesFrom(h: History, h': History, d: nat, cutoff: nat) {
    && Chained(h.presences) && Chained(h'.presences) && d < |h.presences| && d == Stale(Exits(h.presences), cutoff)
    && h'.presences == h.presences[d..] && h'.states == h.states
    && h'.latestMode == h.latestMode && h'.latestTime == h.latestTime
  }

  lemma PurgeLeaves(robot: Robot, h: History, cutoff: nat) returns (d: nat)
    requires Histories.Valid(robot, h) && Purgeable(h, cutoff)
    ensures Histories.Valid(robot, Purged(robot, h, cutoff)) && LeavesFrom(h, Purged(robot, h, cutoff), d, cutoff)
  {
    PurgedValid(robot, h, cutoff);
    d := S.PurgedSuffix(robot, h, cutoff);
    hide TracesAgree, StatesAgree, BufferAgrees, StaysStored, Chained, Stale, Purgeable, Cut;
  }

  /** So a purge retains the stays that ended at or after the cutoff and no others, and all samples stored. */
  lemma PurgeRetains(robot: Robot, h: History, cutoff: nat, p: Presence)
    requires Histories.Valid(robot, h) && Purgeable(h, cutoff)
    ensures var h' := Purged(robot, h, cutoff);
            && (p in h'.presences <==> p in h.presences && cutoff <= p.to)
            && h'.states == h.states && h'.latestMode == h.latestMode && h'.latestTime == h.latestTime
            && exists d: nat :: d <= |h.presences| && h'.presences == h.presences[d..]
  {
    hide Histories.Valid, Purged, Purgeable, Chained, Stale;
    var d := PurgeLeaves(robot, h, cutoff);
    RetainedIff(h, Purged(robot, h, cutoff), d, cutoff, p);
  }

  /** While its sample index is retained, so is the mode of a time. */
  lemma ModeRetained(h: History, h': History, d: nat, cutoff: nat, u: nat)
    requires LeavesFrom(h, h', d, cutoff) && S.PrecededSince(h, cutoff, u)
    ensures S.ModeAt(h', u) == S.ModeAt(h, u)
  {
    hide Stale, Chained;
    if u >= LastExit(h) {
      PresentRetained(h.presences, h'.presences, h.latestMode, d, u);
    } else {
      var i :| 0 < i < |h.presences| && h.presences[i].Contains(u) && h.presences[i - 1].to >= cutoff;
      S.PrecededByLate(h.presences, cutoff, u, i);
      StayKeepsMode(h.presences, h'.presences, h.latestMode, d, u, i);
    }
  }

  lemma PresentRetained(ps: seq<Presence>, ps': seq<Presence>, latest: Mode, d: nat, u: nat)
    requires Chained(ps) && d < |ps| && ps' == ps[d..] && ps[|ps| - 1].to <= u
    ensures S.ModeAtIn(ps', latest, u) == S.ModeAtIn(ps, latest, u)
  {
    hide Chained, S.ModeAtIn;
    forall i | 0 <= i < |ps| ensures !ps[i].Contains(u) { ExitsOrdered(ps, i, |ps| - 1); }
    S.ModeAtLatest(ps, latest, u);
    S.ModeAtLatest(ps', latest, u);
  }

  lemma StayKeepsMode(ps: seq<Presence>, ps': seq<Presence>, latest: Mode, d: nat, u: nat, i: nat)
    requires Chained(ps) && Chained(ps') && d <= i < |ps| && ps' == ps[d..] && ps[i].Contains(u)
    ensures S.ModeAtIn(ps', latest, u) == S.ModeAtIn(ps, latest, u)
  {
    hide Chained, S.ModeAtIn;
    S.ModeAtFound(ps, latest, u, i);
    S.ModeAtFound(ps', latest, u, i - d);
  }

  lemma StayRetainedIff(h: History, h': History, d: nat, cutoff: nat, m: Mode, until: nat)
    requires LeavesFrom(h, h', d, cutoff)
    ensures StayRetained(h, cutoff, m, until) <==> exists p :: p in h'.presences && IsStay(p, m, until)
  {
    hide Chained, Stale, IsStay;
    if i :| 0 <= i < |h.presences| && IsStay(h.presences[i], m, until) && cutoff <= h.presences[i].to {
      RetainedIff(h, h', d, cutoff, h.presences[i]);
    }
    if p :| p in h'.presences && IsStay(p, m, until) {
      RetainedIff(h, h', d, cutoff, p);
    }
  }

  lemma LongStayRetainedIff(robot: Robot, h: History, h': History, d: nat, cutoff: nat, m: Mode, until: nat, n: nat)
    requires LeavesFrom(h, h', d, cutoff)
    ensures LongStayRetained(robot, h, cutoff, m, until, n) <==> n < Longest(robot, h', until, m)
  {
    hide Chained, Stale, IsLongStay, Longest;
    LongestExceeds(robot, h', until, m, n);
    if i :| 0 <= i < |h.presences| && IsLongStay(robot, h.presences[i], m, until, n) && cutoff <= h.presences[i].to {
      RetainedIff(h, h', d, cutoff, h.presences[i]);
    }
    if p :| p in h'.presences && IsLongStay(robot, p, m, until, n) {
      RetainedIff(h, h', d, cutoff, p);
    }
  }

  /** The past as of a time still leads into its mode, over the modes of a trace, exactly if a stay in each of them is
      retained. */
  lemma PastRetainedIff(robot: Robot, h': History, ms: seq<Mode>, u: nat)
    requires Histories.Valid(robot, h') && ms != [] && ms[0] == S.ModeAt(h', u) && Distinct(ms[..|ms| - 1])
    ensures S.TraceAt(h', u).Some? && Reachable(S.TraceAt(h', u).value, ms) <==>
            forall m :: m in ms ==> exists p :: p in h'.presences && IsStay(p, m, u)
  {
    if S.TraceAt(h', u).Some? && Reachable(S.TraceAt(h', u).value, ms) {
      forall m | m in ms ensures exists p :: p in h'.presences && IsStay(p, m, u) {
        assert m in Before(S.TraceAt(h', u).value, ms);
        var p := PastStay(robot, h', u, m);
      }
    }
    if forall m :: m in ms ==> exists p :: p in h'.presences && IsStay(p, m, u) {
      StaysReachable(robot, h', ms, u);
    }
  }

  lemma StaysReachable(robot: Robot, h': History, ms: seq<Mode>, u: nat)
    requires Histories.Valid(robot, h') && ms != [] && ms[0] == S.ModeAt(h', u) && Distinct(ms[..|ms| - 1])
    requires forall m :: m in ms ==> exists p :: p in h'.presences && IsStay(p, m, u)
    ensures S.TraceAt(h', u).Some? && Reachable(S.TraceAt(h', u).value, ms)
  {
    hide Histories.Valid, Distinct, S.ModeAt, S.TraceAt;
    assert ms[0] in ms;
    var first :| first in h'.presences && IsStay(first, ms[0], u);
    var k := PastHolds(robot, h', u, first);
    PastLeadsHere(robot, h', u, k);
    var past := S.TraceAt(h', u).value;
    assert past[|past| - 1] == NonEmpty(h'.presences)[k - 1].mode;
    forall m | m in ms ensures m in past {
      var p :| p in h'.presences && IsStay(p, m, u);
      var i := PastHolds(robot, h', u, p);
    }
  }

  /** A job still looks ahead over what is in the history after a purge exactly if that has been retained for it. */
  lemma PurgeKeepsPredictedIff(robot: Robot, h: History, cutoff: nat, job: Job)
    requires Histories.Valid(robot, h) && Purgeable(h, cutoff) && Chained(h.presences) && Predicted(robot, h, job)
    ensures var h' := Purged(robot, h, cutoff);
            && Histories.Valid(robot, h') && Chained(h'.presences)
            && (Predicted(robot, h', job) <==> Retains(robot, h, cutoff, job))
            && (Predicted(robot, h', job) ==> StartOf(robot, h', job) == StartOf(robot, h, job))
  {
    hide *;
    var h' := Purged(robot, h, cutoff);
    var d := PurgeLeaves(robot, h, cutoff);
    LeavesChained(h, h', d, cutoff);
    PredictedParts(robot, h, job);
    StartRetained(robot, h, cutoff, job);
    if StartOf(robot, h', job).Some? {
      ModeRetained(h, h', d, cutoff, job.initialTime);
      LongStayRetainedIff(robot, h, h', d, cutoff, job.trace[0].mode, job.snapshotTime, StartOf(robot, h, job).value);
      forall m ensures StayRetained(h, cutoff, m, job.initialTime) <==>
                       exists p :: p in h'.presences && IsStay(p, m, job.initialTime)
      {
        StayRetainedIff(h, h', d, cutoff, m, job.initialTime);
      }
      TraceIs(job);
      PastRetainedIff(robot, h', ModesOf(job.trace), job.initialTime);
    }
    RetainsIff(robot, h, h', d, cutoff, job);
  }

  lemma LeavesChained(h: History, h': History, d: nat, cutoff: nat)
    requires LeavesFrom(h, h', d, cutoff)
    ensures Chained(h.presences) && Chained(h'.presences) && h'.latestTime == h.latestTime
  {
    hide Chained;
  }

  lemma TraceIs(job: Job)
    requires job.Valid()
    ensures var ms := ModesOf(job.trace);
            |ms| == |job.trace| > 0 && ms[0] == job.trace[0].mode && Distinct(ms[..|ms| - 1])
  {
    hide Distinct, FitsTrace, SectionsWellFormed;
  }

  lemma StartRetained(robot: Robot, h: History, cutoff: nat, job: Job)
    requires Histories.Valid(robot, h) && Purgeable(h, cutoff) && job.trace != [] && StartOf(robot, h, job).Some?
    requires S.ModeAt(h, job.initialTime) == job.trace[0].mode
    ensures var h' := Purged(robot, h, cutoff);
            && (StartOf(robot, h', job).Some? <==> S.PrecededSince(h, cutoff, job.initialTime))
            && (StartOf(robot, h', job).Some? ==> StartOf(robot, h', job) == StartOf(robot, h, job))
  {
    hide Histories.Valid, Purged, Purgeable, S.ModeAt, S.CheckedSampleIndex, S.PrecededSince;
    S.PurgeKeepsIndexIff(robot, h, cutoff, job.snapshotTime, job.initialTime);
  }

  lemma RetainsIff(robot: Robot, h: History, h': History, d: nat, cutoff: nat, job: Job)
    requires Chained(h.presences) && Chained(h'.presences) && Predicted(robot, h, job) && job.trace != []
    requires h'.latestTime == h.latestTime && StartOf(robot, h, job).Some?
    requires StartOf(robot, h', job).Some? <==> S.PrecededSince(h, cutoff, job.initialTime)
    requires StartOf(robot, h', job).Some? ==>
               && StartOf(robot, h', job) == StartOf(robot, h, job)
               && S.ModeAt(h', job.initialTime) == S.ModeAt(h, job.initialTime)
               && (LongStayRetained(robot, h, cutoff, job.trace[0].mode, job.snapshotTime,
                                    StartOf(robot, h, job).value) <==>
                   StartOf(robot, h, job).value < Longest(robot, h', job.snapshotTime, job.trace[0].mode))
               && (S.TraceAt(h', job.initialTime).Some? &&
                   Reachable(S.TraceAt(h', job.initialTime).value, ModesOf(job.trace)) <==>
                   forall m :: m in ModesOf(job.trace) ==> StayRetained(h, cutoff, m, job.initialTime))
    ensures Predicted(robot, h', job) <==> Retains(robot, h, cutoff, job)
    ensures Predicted(robot, h', job) ==> StartOf(robot, h', job) == StartOf(robot, h, job)
  {
    hide StartOf, S.PrecededSince, LongStayRetained, StayRetained, Longest, S.TraceAt, S.ModeAt, Reachable, Distinct,
         FitsTrace, SectionsWellFormed;
  }

  /** And all that was visited or skipped of its samples is as it was. */
  lemma PurgeKeepsJob(m: Metric, robot: Robot, view: View, h: History, cutoff: nat, job: Job)
    requires Histories.Valid(robot, h) && Purgeable(h, cutoff) && Chained(h.presences) && Predicted(robot, h, job)
    requires Retains(robot, h, cutoff, job)
    ensures var h' := Purged(robot, h, cutoff);
            && (Known(h, job) ==> Known(h', job))
            && (Scannable(robot, view, h, job) ==> Scannable(robot, view, h', job))
            && (Resumable(m, robot, view, h, job) ==> Resumable(m, robot, view, h', job))
            && (Tracked(m, robot, view, h, job) ==> Tracked(m, robot, view, h', job))
  {
    hide *;
    var h' := Purged(robot, h, cutoff);
    PurgeKeepsPredictedIff(robot, h, cutoff, job);
    PredictedParts(robot, h, job);
    SamplesRetained(robot, view, h, cutoff, job);
    SameView(m, robot, view, h, h', job);
    ScannableRetained(robot, view, h, h', job);
  }

  lemma SamplesRetained(robot: Robot, view: View, h: History, cutoff: nat, job: Job)
    requires Histories.Valid(robot, h) && Purgeable(h, cutoff) && job.trace != []
    ensures var h' := Purged(robot, h, cutoff);
            && SamplesOf(view, h', job) == SamplesOf(view, h, job)
            && SamplesAhead(view, h', job) == SamplesAhead(view, h, job)
            && (Known(h, job) ==> Known(h', job))
  {
    hide Histories.Valid, Purgeable, S.StoredAt, Cut, Stale;
    var h' := Purged(robot, h, cutoff);
    forall m ensures S.StoredAt(h', job.snapshotTime, m) == S.StoredAt(h, job.snapshotTime, m) {
      S.SameStore(h, h', job.snapshotTime, m);
    }
  }

  lemma ScannableRetained(robot: Robot, view: View, h: History, h': History, job: Job)
    requires job.trace != [] && StartOf(robot, h', job) == StartOf(robot, h, job)
    requires SamplesAhead(view, h', job) == SamplesAhead(view, h, job)
    ensures Scannable(robot, view, h, job) ==> Scannable(robot, view, h', job)
  {
    hide StartOf, SamplesAhead;
  }
}
