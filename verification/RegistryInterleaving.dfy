/** Concurrent use of the registry. A call takes up to three steps, each under one lock: finding or adding the
    entry of its timestamp, finding or adding the tree of its job, and asking the tree. Steps of different
    threads interleave freely. */
module RegistryInterleavings {
  import opened Capsules
  import opened LookAheadJobRegistries

  datatype Operation = Register(key: Key, path: Choices) | Query(key: Key, path: Choices)

  /** Where a thread stands in its call. */
  datatype Progress =
    Idle | WithEntry(op: Operation) | WithTree(op: Operation) | Done(op: Operation, result: Option<bool>)

  /** A call as it took effect. */
  datatype Call = Call(op: Operation, result: bool)

  datatype State = State(timestamps: seq<nat>, trees: map<Key, set<Choices>>, threads: map<nat, Progress>,
                         log: seq<Call>)

  ghost function Answer(paths: set<Choices>, op: Operation): bool {
    if op.Register? then !Blocked(paths, op.path) else op.path in paths
  }

  /** The paths registered for a job by the calls so far. */
  ghost function RegisteredBy(log: seq<Call>, k: Key): set<Choices> {
    if log == [] then {}
    else
      var last := log[|log| - 1];
      RegisteredBy(log[..|log| - 1], k) +
      (if last.op.Register? && last.op.key == k && last.result then {last.op.path} else {})
  }

  /** The calls, one after the other in this order, would have given the same answers. */
  ghost predicate Sequential(log: seq<Call>) {
    forall i :: 0 <= i < |log| ==> log[i].result == Answer(RegisteredBy(log[..i], log[i].op.key), log[i].op)
  }

  function Finished(s: State, t: nat, op: Operation, result: bool): State {
    s.(threads := s.threads[t := Done(op, Some(result))], log := s.log + [Call(op, result)])
  }

  /** Under the lock of the registry. */
  ghost predicate FindEntry(s: State, s': State, t: nat, op: Operation) {
    && t in s.threads && (s.threads[t].Idle? || s.threads[t].Done?)
    && if op.Register? then
         if !AcceptsTime(s.timestamps, op.key.timestamp) then s' == s.(threads := s.threads[t := Done(op, None)])
         else
           s' == s.(timestamps := if op.key.timestamp in s.timestamps then s.timestamps
                                  else s.timestamps + [op.key.timestamp],
                    threads := s.threads[t := WithEntry(op)])
       else if op.key.timestamp in s.timestamps then s' == s.(threads := s.threads[t := WithEntry(op)])
       else s' == Finished(s, t, op, false)
  }

  /** Under the lock of the entry. */
  ghost predicate FindTree(s: State, s': State, t: nat) {
    && t in s.threads && s.threads[t].WithEntry?
    && var op := s.threads[t].op;
       if op.key in s.trees then s' == s.(threads := s.threads[t := WithTree(op)])
       else if op.Register? then s' == s.(trees := s.trees[op.key := {}], threads := s.threads[t := WithTree(op)])
       else s' == Finished(s, t, op, false)
  }

  /** Under the lock of the tree, which does what `LookAheadJobIdTree` does. */
  ghost predicate AskTree(s: State, s': State, t: nat) {
    && t in s.threads && s.threads[t].WithTree?
    && var op := s.threads[t].op;
       && op.key in s.trees
       && var result := Answer(s.trees[op.key], op);
          s' == Finished(s, t, op, result).(trees :=
                  if op.Register? && result then s.trees[op.key := s.trees[op.key] + {op.path}] else s.trees)
  }

  ghost predicate Moves(s: State, s': State, t: nat, op: Operation) {
    FindEntry(s, s', t, op) || FindTree(s, s', t) || AskTree(s, s', t)
  }

  ghost predicate Step(s: State, s': State) {
    exists t, op :: Moves(s, s', t, op)
  }

  predicate Initial(s: State) {
    s.timestamps == [] && s.trees == map[] && forall t :: t in s.threads ==> s.threads[t].Idle?
  }

  ghost predicate ProgressValid(s: State, p: Progress) {
    match p
    case Idle => true
    case WithEntry(op) => op.key.timestamp in s.timestamps
    case WithTree(op) => op.key in s.trees
    case Done(op, result) => result.Some? ==> Call(op, result.value) in s.log
  }

  ghost predicate ThreadsValid(s: State) {
    forall t :: t in s.threads ==> ProgressValid(s, s.threads[t])
  }

  function TreeOf(trees: map<Key, set<Choices>>, k: Key): set<Choices> {
    if k in trees then trees[k] else {}
  }

  ghost predicate Logged(trees: map<Key, set<Choices>>, log: seq<Call>) {
    Sequential(log) && forall k :: RegisteredBy(log, k) == TreeOf(trees, k)
  }

  ghost predicate Dated(s: State) {
    Increasing(s.timestamps) && forall k :: k in s.trees ==> k.timestamp in s.timestamps
  }

  /** Each tree holds what its calls registered, and the calls are as if made one after the other. */
  ghost predicate Inv(s: State) {
    Dated(s) && Logged(s.trees, s.log) && ThreadsValid(s)
  }

  lemma InitialInv(s: State)
    requires Initial(s) && s.log == []
    ensures Inv(s)
  {
  }

  lemma Appended(log: seq<Call>, c: Call)
    requires Sequential(log) && c.result == Answer(RegisteredBy(log, c.op.key), c.op)
    ensures Sequential(log + [c])
    ensures forall k :: RegisteredBy(log + [c], k) ==
              RegisteredBy(log, k) + (if c.op.Register? && c.op.key == k && c.result then {c.op.path} else {})
  {
    var log' := log + [c];
    assert log'[..|log|] == log;
    forall i | 0 <= i < |log'| ensures log'[i].result == Answer(RegisteredBy(log'[..i], log'[i].op.key), log'[i].op) {
      assert log'[..i] == log[..i];
    }
  }

  /** Nothing is forgotten. */
  ghost predicate Extends(s: State, s': State) {
    && (forall t :: t in s.timestamps ==> t in s'.timestamps)
    && (forall k :: k in s.trees ==> k in s'.trees)
    && s.log <= s'.log
  }

  lemma ThreadMoved(s: State, s': State, t: nat, p: Progress)
    requires ThreadsValid(s) && Extends(s, s') && s'.threads == s.threads[t := p] && ProgressValid(s', p)
    ensures ThreadsValid(s')
  {
    forall u | u in s'.threads ensures ProgressValid(s', s'.threads[u]) {
      if u != t { assert ProgressValid(s, s.threads[u]); }
    }
  }

  function TreesAfter(trees: map<Key, set<Choices>>, op: Operation, result: bool): map<Key, set<Choices>> {
    if op.Register? && result then trees[op.key := TreeOf(trees, op.key) + {op.path}] else trees
  }

  lemma CallLogged(trees: map<Key, set<Choices>>, log: seq<Call>, op: Operation, result: bool)
    requires Logged(trees, log) && result == Answer(TreeOf(trees, op.key), op)
    ensures Logged(TreesAfter(trees, op, result), log + [Call(op, result)])
  {
    Appended(log, Call(op, result));
    hide Answer, Sequential, RegisteredBy;
  }

  /** A call that takes effect, changing its tree accordingly. */
  lemma FinishedInv(s: State, s': State, t: nat, op: Operation, result: bool)
    requires Inv(s) && (op.Register? ==> op.key in s.trees)
    requires result == Answer(TreeOf(s.trees, op.key), op)
    requires s' == Finished(s, t, op, result).(trees := TreesAfter(s.trees, op, result))
    ensures Inv(s')
  {
    CallLogged(s.trees, s.log, op, result);
    hide Answer, Logged, ThreadsValid, TreeOf, Increasing;
    assert s'.log[|s.log|] == Call(op, result);
    ThreadMoved(s, s', t, Done(op, Some(result)));
  }

  lemma FindEntryInv(s: State, s': State, t: nat, op: Operation)
    requires Inv(s) && FindEntry(s, s', t, op)
    ensures Inv(s')
  {
    hide Logged, ThreadsValid, AcceptsTime, Increasing;
    if op.Query? && op.key.timestamp !in s.timestamps {
      FinishedInv(s, s', t, op, false);
    } else {
      if op.key.timestamp !in s.timestamps && AcceptsTime(s.timestamps, op.key.timestamp) {
        LaterTimestamp(s.timestamps, op.key.timestamp);
      }
      ThreadMoved(s, s', t, s'.threads[t]);
    }
  }

  lemma LaterTimestamp(timestamps: seq<nat>, t: nat)
    requires Increasing(timestamps) && AcceptsTime(timestamps, t) && t !in timestamps
    ensures Increasing(timestamps + [t])
  {
  }

  lemma FindTreeInv(s: State, s': State, t: nat)
    requires Inv(s) && FindTree(s, s', t)
    ensures Inv(s')
  {
    hide ThreadsValid, Increasing, Sequential, RegisteredBy;
    var op := s.threads[t].op;
    EntryKnown(s, t);
    if op.Query? && op.key !in s.trees {
      FinishedInv(s, s', t, op, false);
    } else {
      ThreadMoved(s, s', t, WithTree(op));
    }
  }

  lemma EntryKnown(s: State, t: nat)
    requires ThreadsValid(s) && t in s.threads && s.threads[t].WithEntry?
    ensures s.threads[t].op.key.timestamp in s.timestamps
  {
    assert ProgressValid(s, s.threads[t]);
  }

  lemma AskTreeInv(s: State, s': State, t: nat)
    requires Inv(s) && AskTree(s, s', t)
    ensures Inv(s')
  {
    hide ThreadsValid, Increasing, Logged, Answer;
    var op := s.threads[t].op;
    FinishedInv(s, s', t, op, Answer(s.trees[op.key], op));
  }

  lemma StepInv(s: State, s': State)
    requires Inv(s) && Step(s, s')
    ensures Inv(s')
  {
    hide Inv, FindEntry, FindTree, AskTree;
    var t, op :| Moves(s, s', t, op);
    if FindEntry(s, s', t, op) {
      FindEntryInv(s, s', t, op);
    } else if FindTree(s, s', t) {
      FindTreeInv(s, s', t);
    } else {
      AskTreeInv(s, s', t);
    }
  }

  /** Any interleaving, from an empty registry. */
  ghost predicate IsRun(run: seq<State>) {
    run != [] && Initial(run[0]) && run[0].log == [] && forall i :: 0 < i < |run| ==> Step(run[i - 1], run[i])
  }

  lemma {:induction false} RunInv(run: seq<State>, n: nat)
    requires IsRun(run) && n < |run|
    ensures Inv(run[n])
  {
    if n == 0 {
      InitialInv(run[0]);
    } else {
      RunInv(run, n - 1);
      assert Step(run[n - 1], run[n]);
      StepInv(run[n - 1], run[n]);
    }
  }

  lemma {:induction false} RegisteredStays(log: seq<Call>, i: nat, j: nat, k: Key)
    requires i <= j <= |log|
    ensures RegisteredBy(log[..i], k) <= RegisteredBy(log[..j], k)
  {
    if i < j {
      assert log[..j][..j - 1] == log[..j - 1];
      RegisteredStays(log, i, j - 1, k);
    }
  }

  /** In every interleaving: once a path is accepted for a job, neither it nor an extension of it is ever
      accepted again for that job; so of several jobs competing for a path, one at most is created. */
  lemma NeverAcceptedAgain(run: seq<State>, n: nat, i: nat, j: nat)
    requires IsRun(run) && n < |run| && i < j < |run[n].log|
    requires run[n].log[i].op.Register? && run[n].log[i].result
    requires run[n].log[j].op.Register? && run[n].log[j].op.key == run[n].log[i].op.key
    requires run[n].log[i].op.path <= run[n].log[j].op.path
    ensures !run[n].log[j].result
  {
    RunInv(run, n);
    var log := run[n].log;
    var k, p, q := log[i].op.key, log[i].op.path, log[j].op.path;
    assert log[..i + 1][..i] == log[..i];
    RegisteredStays(log, i + 1, j, k);
    assert q[..|p|] == p;
  }
}
