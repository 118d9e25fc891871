/** The registry as a tree: runs, roots, parents, owned scopes and snapshots. */
module Tree {
  import opened Options
  import opened Domain
  import opened Scopes
  import opened Lineage
  import opened Transitions
  import opened Frames

  ghost predicate RunRooted(s: State, r: Id)
    requires r < |s.runs|
  {
    var run := s.runs[r];
    && run.root < |s.nodes| && s.nodes[run.root].reg.run == r && s.nodes[run.root].reg.parent.None?
    && run.runScope < |s.scopes| && s.scopes[run.runScope].run == r && s.scopes[run.runScope].owner.None?
  }

  /** A snapshot is the parent's snapshot followed by the node's own scope, all at version 1. */
  ghost predicate NodeLinked(s: State, n: Id)
    requires n < |s.nodes|
  {
    var reg := s.nodes[n].reg;
    && reg.run < |s.runs|
    && reg.ownScope < |s.scopes|
    && s.scopes[reg.ownScope].owner == Some(n) && s.scopes[reg.ownScope].run == reg.run
    && reg.registeredAt <= s.clock
    && match reg.parent
       case None =>
         && n == s.runs[reg.run].root && reg.generation == 0 && reg.causedBy.None?
         && reg.snapshot == [Snap(s.runs[reg.run].runScope, 1), Snap(reg.ownScope, 1)]
       case Some(p) =>
         && p < n
         && s.nodes[p].reg.run == reg.run
         && reg.generation == s.nodes[p].reg.generation + 1
         && reg.snapshot == s.nodes[p].reg.snapshot + [Snap(reg.ownScope, 1)]
         && reg.capabilities <= s.nodes[p].reg.capabilities
         && s.nodes[p].reg.registeredAt < reg.registeredAt
  }

  ghost predicate ScopeHoused(s: State, k: Id)
    requires k < |s.scopes|
  {
    var scope := s.scopes[k];
    && scope.run < |s.runs|
    && (scope.owner.None? ==> k == s.runs[scope.run].runScope)
    && (scope.owner.Some? ==> scope.owner.value < |s.nodes| && s.nodes[scope.owner.value].reg.ownScope == k)
  }

  ghost predicate WellTreed(s: State) {
    && (forall r {:trigger s.runs[r]} | 0 <= r < |s.runs| :: RunRooted(s, r))
    && (forall n {:trigger s.nodes[n]} | 0 <= n < |s.nodes| :: NodeLinked(s, n))
    && (forall k {:trigger s.scopes[k]} | 0 <= k < |s.scopes| :: ScopeHoused(s, k))
  }

  /** The node is the ancestor or lies below it. */
  ghost predicate Under(nodes: seq<Node>, ancestor: Id, n: Id)
    requires n < |nodes|
    decreases n
  {
    n == ancestor
    || (nodes[n].reg.parent.Some? && nodes[n].reg.parent.value < n && Under(nodes, ancestor, nodes[n].reg.parent.value))
  }

  /** In a well-formed registry, descent is what the authorization walk computes. */
  lemma {:induction false} UnderIsReaches(s: Database, ancestor: Id, n: Id)
    requires WellTreed(s) && n < |s.nodes|
    ensures Under(s.nodes, ancestor, n) <==> Reaches(ParentsOf(s.nodes, s.nodes[n].reg.run, None), ancestor, n)
    decreases n
  {
    var parents := ParentsOf(s.nodes, s.nodes[n].reg.run, None);
    ReachesUnfold(parents, ancestor, n);
    assert NodeLinked(s, n);
    if s.nodes[n].reg.parent.Some? {
      UnderIsReaches(s, ancestor, s.nodes[n].reg.parent.value);
    }
  }

  /** Ancestors share the run and registered earlier. */
  lemma {:induction false} UnderKeeps(s: Database, ancestor: Id, n: Id)
    requires WellTreed(s) && n < |s.nodes| && Under(s.nodes, ancestor, n)
    ensures ancestor <= n && s.nodes[ancestor].reg.run == s.nodes[n].reg.run
    ensures s.nodes[ancestor].reg.registeredAt <= s.nodes[n].reg.registeredAt
    ensures s.nodes[n].reg.capabilities <= s.nodes[ancestor].reg.capabilities
    decreases n
  {
    assert NodeLinked(s, n);
    if n != ancestor {
      UnderKeeps(s, ancestor, s.nodes[n].reg.parent.value);
    }
  }

  lemma {:induction false} UnderTrans(nodes: seq<Node>, a: Id, b: Id, n: Id)
    requires b < |nodes| && n < |nodes| && Under(nodes, a, b) && Under(nodes, b, n)
    ensures Under(nodes, a, n)
    decreases n
  {
    if n != b {
      UnderTrans(nodes, a, b, nodes[n].reg.parent.value);
    }
  }

  /** Every node of a run lies below the root of that run. */
  lemma {:induction false} UnderRoot(s: Database, n: Id)
    requires WellTreed(s) && n < |s.nodes|
    ensures Under(s.nodes, s.runs[s.nodes[n].reg.run].root, n)
    decreases n
  {
    assert NodeLinked(s, n);
    if s.nodes[n].reg.parent.Some? {
      UnderRoot(s, s.nodes[n].reg.parent.value);
    }
  }

  /** The snapshot of a node lists the run scope and the own scope of each of its ancestors. */
  lemma {:induction false} SnapshotIsPath(s: Database, n: Id, item: Snap)
    requires WellTreed(s) && n < |s.nodes|
    ensures item in s.nodes[n].reg.snapshot
            <==> item == Snap(s.runs[s.nodes[n].reg.run].runScope, 1)
                 || exists a | 0 <= a < |s.nodes| :: Under(s.nodes, a, n) && item == Snap(s.nodes[a].reg.ownScope, 1)
    decreases n
  {
    var reg := s.nodes[n].reg;
    assert NodeLinked(s, n);
    assert Under(s.nodes, n, n);
    if reg.parent.Some? {
      var p := reg.parent.value;
      SnapshotIsPath(s, p, item);
      assert forall a | 0 <= a < |s.nodes| :: Under(s.nodes, a, n) <==> a == n || Under(s.nodes, a, p);
    } else {
      assert forall a | 0 <= a < |s.nodes| :: Under(s.nodes, a, n) <==> a == n;
    }
  }

  // ---------------------------------------------------------------- every step keeps the tree

  /** Nothing the tree speaks about changes. */
  ghost predicate SameTree(s: State, t: State) {
    && s.clock <= t.clock
    && |t.runs| == |s.runs|
    && (forall r {:trigger t.runs[r]} | 0 <= r < |s.runs| ::
          t.runs[r].root == s.runs[r].root && t.runs[r].runScope == s.runs[r].runScope)
    && |t.nodes| == |s.nodes|
    && (forall n {:trigger t.nodes[n]} | 0 <= n < |s.nodes| :: t.nodes[n].reg == s.nodes[n].reg)
    && |t.scopes| == |s.scopes|
    && (forall k {:trigger t.scopes[k]} | 0 <= k < |s.scopes| ::
          t.scopes[k].run == s.scopes[k].run && t.scopes[k].owner == s.scopes[k].owner)
  }

  lemma TreeFrame(s: State, t: State)
    requires WellTreed(s) && SameTree(s, t)
    ensures WellTreed(t)
  {
    forall r | 0 <= r < |t.runs| ensures RunRooted(t, r) {
      assert RunRooted(s, r);
    }
    forall n | 0 <= n < |t.nodes| ensures NodeLinked(t, n) {
      assert NodeLinked(s, n);
    }
    forall k | 0 <= k < |t.scopes| ensures ScopeHoused(t, k) {
      assert ScopeHoused(s, k);
    }
  }

  lemma CalmSameTree(s: State, t: State)
    requires Calm(s, t)
    ensures SameTree(s, t)
  {
    assert forall r | 0 <= r < |s.runs| :: RunKept(s.runs[r], t.runs[r], s.clock);
  }

  lemma {:induction false} UnderFrame(nodes: seq<Node>, later: seq<Node>, a: Id, n: Id)
    requires |nodes| <= |later| && forall i | 0 <= i < |nodes| :: later[i].reg == nodes[i].reg
    requires n < |nodes|
    ensures Under(later, a, n) == Under(nodes, a, n)
    decreases n
  {
    if nodes[n].reg.parent.Some? && nodes[n].reg.parent.value < n {
      UnderFrame(nodes, later, a, nodes[n].reg.parent.value);
    }
  }

  lemma RegisterTree(
    s: Database, cfg: Config, parent: Id, request: SpawnRequest, supersedes: Option<Id>, causedBy: Option<Id>, v: nat)
    requires WellTreed(s) && parent < |s.nodes|
    requires request.capabilities <= s.nodes[parent].reg.capabilities
    requires s.nodes[parent].reg.registeredAt < s.clock
    ensures WellTreed(Register(s, cfg, parent, request, supersedes, causedBy, v))
  {
    var t := Register(s, cfg, parent, request, supersedes, causedBy, v);
    assert NodeLinked(s, parent);
    forall r | 0 <= r < |t.runs| ensures RunRooted(t, r) {
      assert RunRooted(s, r);
    }
    forall n | 0 <= n < |t.nodes| ensures NodeLinked(t, n) {
      if n < |s.nodes| { assert NodeLinked(s, n); }
    }
    forall k | 0 <= k < |t.scopes| ensures ScopeHoused(t, k) {
      if k < |s.scopes| { assert ScopeHoused(s, k); }
    }
  }

  /** The rows of a new run, next to the rows there were. */
  ghost predicate StartsRun(s: State, t: State) {
    var r, n, k := |s.runs|, |s.nodes|, |s.scopes|;
    && t.clock == s.clock && |t.runs| == r + 1 && |t.nodes| == n + 1 && |t.scopes| == k + 2
    && s.runs <= t.runs && s.nodes <= t.nodes && s.scopes <= t.scopes
    && t.runs[r].root == n && t.runs[r].runScope == k
    && t.scopes[k].run == r && t.scopes[k].owner.None?
    && t.scopes[k + 1].run == r && t.scopes[k + 1].owner == Some(n)
    && var reg := t.nodes[n].reg;
       && reg.run == r && reg.parent.None? && reg.causedBy.None? && reg.generation == 0
       && reg.ownScope == k + 1 && reg.registeredAt == s.clock && reg.snapshot == [Snap(k, 1), Snap(k + 1, 1)]
  }

  lemma CreateRunStarts(s: Database, cfg: Config, role: string, instruction: Json, capabilities: set<Capability>)
    ensures var t := CreateRun(s, cfg, role, instruction, capabilities).db; t == s || StartsRun(s, t)
  {
    hide CountActiveRuns;
  }

  lemma StartsRunTree(s: State, t: State)
    requires WellTreed(s) && StartsRun(s, t)
    ensures WellTreed(t)
  {
    forall r | 0 <= r < |t.runs| ensures RunRooted(t, r) {
      if r < |s.runs| { assert RunRooted(s, r); }
    }
    forall n | 0 <= n < |t.nodes| ensures NodeLinked(t, n) {
      if n < |s.nodes| { assert NodeLinked(s, n); }
    }
    forall k | 0 <= k < |t.scopes| ensures ScopeHoused(t, k) {
      if k < |s.scopes| { assert ScopeHoused(s, k); }
    }
  }

  lemma CreateRunTree(s: Database, cfg: Config, role: string, instruction: Json, capabilities: set<Capability>)
    requires WellTreed(s)
    ensures WellTreed(CreateRun(s, cfg, role, instruction, capabilities).db)
  {
    hide CreateRun, WellTreed, StartsRun;
    var t := CreateRun(s, cfg, role, instruction, capabilities).db;
    CreateRunStarts(s, cfg, role, instruction, capabilities);
    if t != s { StartsRunTree(s, t); }
  }
}
