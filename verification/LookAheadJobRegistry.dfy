/** The registry that keeps jobs with the same or an extended path from being created twice. */
module LookAheadJobRegistries {
  import opened Capsules

  datatype LookAheadJobIdentifier =
    LookAheadJobIdentifier(human: string, humanSegment: nat, robot: string, robotSegment: nat)

  /** A path as the registry sees it: the branches taken. */
  type Choices = seq<nat>

  /** Some registered path is a prefix of p, possibly p itself. */
  ghost predicate Blocked(paths: set<Choices>, p: Choices) {
    BlockedFrom(paths, p, 0)
  }

  ghost predicate BlockedFrom(paths: set<Choices>, p: Choices, from: nat) {
    exists k :: from <= k <= |p| && p[..k] in paths
  }

  lemma BlockedStep(paths: set<Choices>, p: Choices, from: nat)
    requires from <= |p|
    ensures BlockedFrom(paths, p, from) <==> p[..from] in paths || (from < |p| && BlockedFrom(paths, p, from + 1))
  {
  }

  /** The nodes of a tree by the path that leads to them. */
  type Nodes = map<Choices, LookAheadJobTreeNode>

  ghost predicate PrefixClosed(nodes: Nodes) {
    [] in nodes && forall q :: q in nodes && q != [] ==> q[..|q| - 1] in nodes
  }

  /** Each path leads to a node of its own. */
  ghost predicate Injective(nodes: Nodes) {
    forall q, r :: q in nodes && r in nodes && nodes[q] == nodes[r] ==> q == r
  }

  ghost predicate OneRoot(nodes: Nodes) {
    [] in nodes && forall q :: q in nodes ==> nodes[q].root == nodes[[]]
  }

  ghost predicate LinkedAt(nodes: Nodes, q: Choices)
    requires q in nodes
    reads nodes.Values`children
  {
    var children := nodes[q].children;
    forall p :: (p in children <==> q + [p] in nodes) && (p in children ==> children[p] == nodes[q + [p]])
  }

  /** The children of a node are the nodes one step further. */
  ghost predicate IsTree(nodes: Nodes)
    reads nodes.Values`children
  {
    PrefixClosed(nodes) && Injective(nodes) && OneRoot(nodes) && forall q :: q in nodes ==> LinkedAt(nodes, q)
  }

  ghost function Registered(nodes: Nodes): set<Choices>
    reads nodes.Values`registered
  {
    set q | q in nodes && nodes[q].registered
  }

  /** Past a missing node nothing is registered. */
  lemma {:induction false} NothingBeyond(nodes: Nodes, p: Choices, from: nat)
    requires IsTree(nodes) && from <= |p| && p[..from] !in nodes
    ensures !BlockedFrom(Registered(nodes), p, from)
    decreases |p| - from
  {
    if from < |p| {
      assert p[..from + 1][..|p[..from + 1]| - 1] == p[..from];
      NothingBeyond(nodes, p, from + 1);
    }
    BlockedStep(Registered(nodes), p, from);
  }

  lemma ChildOf(nodes: Nodes, q: Choices, p: nat)
    requires IsTree(nodes) && q in nodes
    ensures p in nodes[q].children <==> q + [p] in nodes
    ensures p in nodes[q].children ==> nodes[q].children[p] == nodes[q + [p]]
  {
    assert LinkedAt(nodes, q);
  }

  lemma AddedClosed(nodes: Nodes, here: Choices, p: nat, node: LookAheadJobTreeNode)
    requires PrefixClosed(nodes) && Injective(nodes) && OneRoot(nodes) && node.root == nodes[[]]
    requires here in nodes && node !in nodes.Values && here + [p] !in nodes
    ensures PrefixClosed(nodes[here + [p] := node]) && Injective(nodes[here + [p] := node])
    ensures OneRoot(nodes[here + [p] := node])
    ensures Grows(nodes, nodes[here + [p] := node]) && nodes[here + [p] := node].Values == nodes.Values + {node}
    ensures forall r :: here + [p] + [r] !in nodes
  {
    var nodes' := nodes[here + [p] := node];
    forall q | q in nodes' && q != [] ensures q[..|q| - 1] in nodes' {
      if q == here + [p] { assert q[..|q| - 1] == here; }
    }
    forall r ensures here + [p] + [r] !in nodes {
      var q := here + [p] + [r];
      assert q[..|q| - 1] == here + [p];
    }
    forall n | n in nodes.Values + {node} ensures n in nodes'.Values {
      if n == node { assert nodes'[here + [p]] == node; } else {
        var q :| q in nodes && nodes[q] == n;
        assert nodes'[q] == n;
      }
    }
  }

  lemma OneStepUnique(q: Choices, r: nat, here: Choices, p: nat)
    ensures q + [r] == here + [p] <==> q == here && r == p
  {
    if q + [r] == here + [p] {
      assert q == (q + [r])[..|q + [r]| - 1] && here == (here + [p])[..|here + [p]| - 1];
    }
  }

  ghost predicate Grows(nodes: Nodes, nodes': Nodes) {
    forall q :: q in nodes ==> q in nodes' && nodes'[q] == nodes[q]
  }

  class LookAheadJobTreeNode {
    var registered: bool
    var children: map<nat, LookAheadJobTreeNode>
    /** The root of the tree the node belongs to. */
    ghost const root: LookAheadJobTreeNode

    constructor Root()
      ensures !registered && children == map[] && root == this
    {
      registered, children := false, map[];
      root := this;
    }

    constructor (ghost root: LookAheadJobTreeNode)
      ensures !registered && children == map[] && this.root == root
    {
      registered, children := false, map[];
      this.root := root;
    }

    /** `here` is the part of the path that leads to this node. */
    method HasRegistered(depth: nat, path: Choices, ghost nodes: Nodes) returns (has: bool)
      requires IsTree(nodes) && depth <= |path|
      requires path[..|path| - depth] in nodes && nodes[path[..|path| - depth]] == this
      ensures has <==> path in Registered(nodes)
      decreases depth
    {
      hide IsTree, BlockedFrom;
      ghost var here := path[..|path| - depth];
      if depth == 0 {
        assert here == path;
        return registered;
      }
      var priority := path[|path| - depth];
      assert path[..|path| - depth + 1] == here + [priority];
      ChildOf(nodes, here, priority);
      if priority !in children {
        NothingBeyond(nodes, path, |path| - depth + 1);
        NotBlocked(Registered(nodes), path, |path| - depth + 1);
        return false;
      }
      has := children[priority].HasRegistered(depth - 1, path, nodes);
    }

    /** Registers the path unless it, or a prefix of it, is registered. */
    method TryRegister(depth: nat, path: Choices, ghost nodes: Nodes) returns (done: bool, ghost nodes': Nodes)
      requires IsTree(nodes) && depth <= |path|
      requires path[..|path| - depth] in nodes && nodes[path[..|path| - depth]] == this
      modifies nodes.Values
      ensures IsTree(nodes') && Grows(nodes, nodes') && fresh(nodes'.Values - nodes.Values)
      ensures done <==> !BlockedFrom(old(Registered(nodes)), path, |path| - depth)
      ensures Registered(nodes') == old(Registered(nodes)) + if done then {path} else {}
      decreases depth
    {
      hide IsTree, BlockedFrom, Grows;
      nodes' := nodes;
      GrowsSelf(nodes);
      ghost var here := path[..|path| - depth];
      BlockedStep(Registered(nodes), path, |path| - depth);
      if registered {
        return false, nodes';
      }
      if depth == 0 {
        assert here == path;
        SetRegistered(here, nodes);
        return true, nodes';
      }
      done, nodes' := RegisterBelow(depth, path, nodes);
    }

    method RegisterBelow(depth: nat, path: Choices, ghost nodes: Nodes) returns (done: bool, ghost nodes': Nodes)
      requires IsTree(nodes) && 0 < depth <= |path|
      requires path[..|path| - depth] in nodes && nodes[path[..|path| - depth]] == this
      modifies nodes.Values
      ensures IsTree(nodes') && Grows(nodes, nodes') && fresh(nodes'.Values - nodes.Values)
      ensures done <==> !BlockedFrom(old(Registered(nodes)), path, |path| - (depth - 1))
      ensures Registered(nodes') == old(Registered(nodes)) + if done then {path} else {}
      decreases depth, 0
    {
      hide IsTree, BlockedFrom, Grows;
      ghost var here := path[..|path| - depth];
      var priority := path[|path| - depth];
      assert path[..|path| - (depth - 1)] == here + [priority];
      ghost var grown := nodes;
      GrowsSelf(nodes);
      ChildOf(nodes, here, priority);
      if priority !in children {
        grown := AddChild(priority, here, nodes);
      }
      done, nodes' := children[priority].TryRegister(depth - 1, path, grown);
      GrowsOn(nodes, grown, nodes');
    }

    method SetRegistered(ghost here: Choices, ghost nodes: Nodes)
      requires IsTree(nodes) && here in nodes && nodes[here] == this
      modifies this`registered
      ensures IsTree(nodes) && Registered(nodes) == old(Registered(nodes)) + {here}
    {
      registered := true;
    }

    method AddChild(priority: nat, ghost here: Choices, ghost nodes: Nodes) returns (ghost nodes': Nodes)
      requires IsTree(nodes) && here in nodes && nodes[here] == this && priority !in children
      modifies this`children
      ensures IsTree(nodes') && Grows(nodes, nodes') && nodes'.Values > nodes.Values
      ensures fresh(nodes'.Values - nodes.Values)
      ensures Registered(nodes') == old(Registered(nodes))
      ensures here + [priority] in nodes' && priority in children && children[priority] == nodes'[here + [priority]]
    {
      ChildOf(nodes, here, priority);
      var node := new LookAheadJobTreeNode(root);
      AddedClosed(nodes, here, priority, node);
      hide PrefixClosed, Injective, OneRoot, Grows, Registered;
      children := children[priority := node];
      nodes' := nodes[here + [priority] := node];
      forall q | q in nodes' ensures LinkedAt(nodes', q) {
        forall r: nat ensures (r in nodes'[q].children <==> q + [r] in nodes') &&
                              (r in nodes'[q].children ==> nodes'[q].children[r] == nodes'[q + [r]])
        {
          OneStepUnique(q, r, here, priority);
          if q in nodes { assert old(LinkedAt(nodes, q)); }
        }
      }
      SameRegistered(nodes, here + [priority], node);
    }
  }

  lemma SameRegistered(nodes: Nodes, q: Choices, node: LookAheadJobTreeNode)
    requires q !in nodes && !node.registered
    ensures Registered(nodes[q := node]) == Registered(nodes)
  {
  }

  lemma NotBlocked(paths: set<Choices>, path: Choices, from: nat)
    requires from <= |path| && !BlockedFrom(paths, path, from)
    ensures path !in paths
  {
    assert path[..|path|] == path;
  }

  lemma GrowsSelf(nodes: Nodes)
    ensures Grows(nodes, nodes)
  {
  }

  lemma GrowsOn(nodes: Nodes, grown: Nodes, nodes': Nodes)
    requires Grows(nodes, grown) && Grows(grown, nodes')
    ensures Grows(nodes, nodes') && nodes.Values <= grown.Values <= nodes'.Values
  {
    ValuesGrow(nodes, grown);
    ValuesGrow(grown, nodes');
  }

  lemma ValuesGrow(nodes: Nodes, grown: Nodes)
    requires Grows(nodes, grown)
    ensures nodes.Values <= grown.Values
  {
    forall n | n in nodes.Values ensures n in grown.Values {
      var q :| q in nodes && nodes[q] == n;
      assert grown[q] == n;
    }
  }

  class LookAheadJobIdTree {
    const root: LookAheadJobTreeNode
    ghost var nodes: Nodes

    ghost predicate Valid()
      reads this, nodes.Values`children
    {
      IsTree(nodes) && nodes[[]] == root
    }

    ghost function Paths(): set<Choices>
      reads this, nodes.Values`registered
    {
      Registered(nodes)
    }

    constructor ()
      ensures Valid() && Paths() == {} && fresh(nodes.Values) && root in nodes.Values
    {
      root := new LookAheadJobTreeNode.Root();
      nodes := map[[] := root];
    }

    method TryRegister(path: Choices) returns (done: bool)
      requires Valid()
      modifies this, nodes.Values
      ensures Valid() && fresh(nodes.Values - old(nodes.Values))
      ensures done <==> !Blocked(old(Paths()), path)
      ensures Paths() == old(Paths()) + if done then {path} else {}
    {
      assert path[..0] == [];
      done, nodes := root.TryRegister(|path|, path, nodes);
    }

    method HasRegistered(path: Choices) returns (has: bool)
      requires Valid()
      ensures has <==> path in Paths()
    {
      assert path[..0] == [];
      has := root.HasRegistered(|path|, path, nodes);
    }
  }

  /** What a tree is kept for: the jobs of one identifier at one time. */
  datatype Key = Key(timestamp: nat, id: LookAheadJobIdentifier)

  predicate Increasing(timestamps: seq<nat>) {
    forall i, j :: 0 <= i < j < |timestamps| ==> timestamps[i] < timestamps[j]
  }

  /** A timestamp is accepted if it is known, or later than all known ones. */
  predicate AcceptsTime(timestamps: seq<nat>, t: nat) {
    timestamps == [] || timestamps[|timestamps| - 1] < t || t in timestamps
  }

  /** The timestamps once an accepted one has been registered. */
  function TimesAfter(timestamps: seq<nat>, t: nat): seq<nat> {
    if t in timestamps then timestamps else timestamps + [t]
  }

  /** No two trees share a root, and so none share a node. */
  ghost predicate Apart(trees: map<Key, LookAheadJobIdTree>) {
    forall k, l :: k in trees && l in trees && k != l ==> trees[k].root != trees[l].root
  }

  lemma AddedApart(trees: map<Key, LookAheadJobIdTree>, k: Key, tree: LookAheadJobIdTree)
    requires Apart(trees) && forall l :: l in trees ==> trees[l].root != tree.root
    ensures Apart(trees[k := tree])
  {
  }

  /** The entries are kept as their timestamps, in order, and one map to the trees of all of them. */
  class LookAheadJobRegistry {
    var timestamps: seq<nat>
    var trees: map<Key, LookAheadJobIdTree>

    ghost predicate Valid()
      reads this, trees.Values, Nodes()`children
    {
      && Increasing(timestamps) && Apart(trees)
      && forall k :: k in trees ==> trees[k].Valid() && k.timestamp in timestamps
    }

    ghost function Nodes(): set<LookAheadJobTreeNode>
      reads this`trees, trees.Values
    {
      set k, n | k in trees && n in trees[k].nodes.Values :: n
    }

    /** The paths registered for a job at a time. */
    ghost function Paths(k: Key): set<Choices>
      reads this`trees, trees.Values, Nodes()`registered
    {
      if k in trees then trees[k].Paths() else {}
    }

    constructor ()
      ensures Valid() && timestamps == [] && trees == map[] && forall k :: Paths(k) == {}
    {
      timestamps, trees := [], map[];
    }

    /** Registers the path for the job at the time, unless it or a prefix of it is registered; None where the
        source fails because the timestamp is older than the last and unknown. */
    method TryRegister(timestamp: nat, id: LookAheadJobIdentifier, path: Choices) returns (done: Option<bool>)
      requires Valid()
      modifies this, trees.Values, Nodes()
      ensures Valid() && fresh(trees.Values - old(trees.Values)) && fresh(Nodes() - old(Nodes()))
      ensures done.None? <==> !AcceptsTime(old(timestamps), timestamp)
      ensures done.Some? ==> (done.value <==> !Blocked(old(Paths(Key(timestamp, id))), path))
      ensures forall k :: Paths(k) ==
                          old(Paths(k)) + if k == Key(timestamp, id) && done == Some(true) then {path} else {}
      ensures timestamps == if done.None? then old(timestamps) else TimesAfter(old(timestamps), timestamp)
    {
      hide IsTree, Registered, Blocked, Increasing, Apart, AcceptsTime, Valid, Paths;
      var found := FindOrAddEntry(timestamp);
      if !found {
        return None;
      }
      FindOrAddTree(Key(timestamp, id));
      var d := RegisterIn(Key(timestamp, id), path);
      done := Some(d);
    }

    method FindOrAddEntry(timestamp: nat) returns (found: bool)
      requires Valid()
      modifies this`timestamps
      ensures Valid() && (found <==> AcceptsTime(old(timestamps), timestamp)) && (found ==> timestamp in timestamps)
      ensures timestamps == if found then TimesAfter(old(timestamps), timestamp) else old(timestamps)
    {
      if timestamps == [] || timestamps[|timestamps| - 1] < timestamp {
        timestamps := timestamps + [timestamp];
        return true;
      }
      found := false;
      var j := |timestamps| - 1;
      while j >= 0
        invariant -1 <= j < |timestamps|
        invariant found <==> exists k :: j < k < |timestamps| && timestamps[k] == timestamp
        decreases j
      {
        if timestamps[j] == timestamp {
          found := true;
        }
        j := j - 1;
      }
    }

    method FindOrAddTree(k: Key)
      requires Valid() && k.timestamp in timestamps
      modifies this`trees
      ensures Valid() && k in trees && fresh(trees.Values - old(trees.Values)) && fresh(Nodes() - old(Nodes()))
      ensures forall l :: Paths(l) == old(Paths(l))
    {
      if k !in trees {
        RootsOld();
        var tree := NewTree();
        Insert(k, tree);
      }
    }

    /** Creates a tree apart from those there are. */
    method NewTree() returns (tree: LookAheadJobIdTree)
      requires Valid()
      ensures fresh(tree) && fresh(tree.nodes.Values) && tree.root in tree.nodes.Values
      ensures tree.Valid() && tree.Paths() == {} && Valid() && Nodes() == old(Nodes())
      ensures forall l :: Paths(l) == old(Paths(l))
    {
      hide IsTree, Registered, Increasing, Apart;
      tree := new LookAheadJobIdTree();
      forall l ensures Paths(l) == old(Paths(l)) {
        if l in trees { assert trees[l].Paths() == old(trees[l].Paths()); }
      }
      forall l | l in trees ensures trees[l].Valid() && l.timestamp in timestamps { assert old(trees[l].Valid()); }
    }

    method Insert(k: Key, tree: LookAheadJobIdTree)
      requires Valid() && k.timestamp in timestamps && k !in trees
      requires tree.Valid() && tree.Paths() == {} && forall l :: l in trees ==> trees[l].root != tree.root
      modifies this`trees
      ensures Valid() && trees == old(trees)[k := tree] && Nodes() <= old(Nodes()) + tree.nodes.Values
      ensures forall l :: Paths(l) == old(Paths(l))
    {
      AddedApart(trees, k, tree);
      hide Apart, Increasing, IsTree, Registered;
      trees := trees[k := tree];
    }

    lemma RootsOld()
      requires Valid()
      ensures forall k :: k in trees ==> trees[k].root in Nodes()
    {
      forall k | k in trees ensures trees[k].root in Nodes() {
        assert trees[k].Valid() && [] in trees[k].nodes && trees[k].nodes[[]] == trees[k].root;
        assert trees[k].root in trees[k].nodes.Values;
      }
    }

    lemma NodesApart(k: Key, l: Key)
      requires Valid() && k in trees && l in trees && k != l
      ensures trees[k].nodes.Values !! trees[l].nodes.Values && trees[k] != trees[l]
    {
      assert trees[k].Valid() && trees[l].Valid();
      forall n | n in trees[k].nodes.Values ensures n !in trees[l].nodes.Values {
        assert n.root == trees[k].root;
      }
    }

    method RegisterIn(k: Key, path: Choices) returns (done: bool)
      requires Valid() && k in trees
      modifies trees[k], trees[k].nodes.Values
      ensures Valid() && fresh(Nodes() - old(Nodes()))
      ensures done <==> !Blocked(old(Paths(k)), path)
      ensures forall l :: Paths(l) == old(Paths(l)) + if l == k && done then {path} else {}
    {
      hide IsTree, Registered, Increasing, Blocked;
      forall l | l in trees && l != k
        ensures trees[k].nodes.Values !! trees[l].nodes.Values && trees[k] != trees[l]
      {
        NodesApart(k, l);
      }
      done := trees[k].TryRegister(path);
      forall l ensures Paths(l) == old(Paths(l)) + if l == k && done then {path} else {} {
        if l in trees && l != k { assert trees[l].Paths() == old(trees[l].Paths()); }
      }
      forall l | l in trees ensures trees[l].Valid() {
        if l != k { assert old(trees[l].Valid()); }
      }
    }

    method HasRegistered(timestamp: nat, id: LookAheadJobIdentifier, path: Choices) returns (has: bool)
      requires Valid()
      ensures has <==> path in Paths(Key(timestamp, id))
    {
      if Key(timestamp, id) !in trees {
        return false;
      }
      has := trees[Key(timestamp, id)].HasRegistered(path);
    }
  }
}
