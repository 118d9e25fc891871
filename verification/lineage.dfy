/** Walks over parent links.  Nothing here assumes that the links form a tree: both walks
    terminate and agree on every parent map, cyclic or dangling ones included. */
module Lineage {
  import opened Options
  import opened Domain

  type ParentMap = map<Id, Option<Id>>

  /** The parent links of one run, optionally cut at a registration time. */
  function ParentsOf(nodes: seq<Node>, run: Id, before: Option<Time>): ParentMap {
    map n: nat |
      n < |nodes| && nodes[n].reg.run == run && (before.None? || nodes[n].reg.registeredAt <= before.value)
      :: nodes[n].reg.parent
  }

  /** The k-th ancestor of a node, if the chain of links gets that far. */
  function Up(parents: ParentMap, n: Id, k: nat): Option<Id> {
    if k == 0 then Some(n) else
      match Up(parents, n, k - 1)
      case None => None
      case Some(m) => if m in parents then parents[m] else None
  }

  /** Some number of parent steps leads from the node to the ancestor. */
  ghost predicate Reaches(parents: ParentMap, ancestor: Id, n: Id) {
    exists k: nat :: Up(parents, n, k) == Some(ancestor)
  }

  lemma {:induction false} UpFromParent(parents: ParentMap, n: Id, k: nat)
    requires n in parents && parents[n].Some?
    ensures Up(parents, n, k + 1) == Up(parents, parents[n].value, k)
  {
    if k != 0 {
      UpFromParent(parents, n, k - 1);
    } else {
      assert Up(parents, n, 0) == Some(n);
    }
  }

  /** One step of the recursion that defines descent. */
  lemma ReachesUnfold(parents: ParentMap, ancestor: Id, n: Id)
    ensures Reaches(parents, ancestor, n)
            <==> n == ancestor
                 || (n in parents && parents[n].Some? && Reaches(parents, ancestor, parents[n].value))
  {
    assert Up(parents, n, 0) == Some(n);
    assert Up(parents, n, 1) == if n in parents then parents[n] else None;
    if Reaches(parents, ancestor, n) && n != ancestor {
      var k: nat :| Up(parents, n, k) == Some(ancestor);
      if n !in parents || parents[n].None? {
        UpStaysNone(parents, n, 1, k);
      } else {
        UpFromParent(parents, n, k - 1);
      }
    }
    if n in parents && parents[n].Some? && Reaches(parents, ancestor, parents[n].value) {
      var k: nat :| Up(parents, parents[n].value, k) == Some(ancestor);
      UpFromParent(parents, n, k);
    }
  }

  lemma {:induction false} UpStaysNone(parents: ParentMap, n: Id, i: nat, k: nat)
    requires Up(parents, n, i) == None && i <= k
    ensures Up(parents, n, k) == None
  {
    if i < k {
      UpStaysNone(parents, n, i, k - 1);
    }
  }

  /** Once an ancestor repeats, the chain never leaves the ancestors already seen. */
  lemma {:induction false} UpRepeats(parents: ParentMap, n: Id, j: nat, i: nat, k: nat) returns (seen: nat)
    requires j < i && Up(parents, n, j) == Up(parents, n, i)
    ensures seen < i && Up(parents, n, seen) == Up(parents, n, k)
  {
    if k < i {
      seen := k;
    } else {
      var before := UpRepeats(parents, n, j, i, k - 1);
      seen := if before + 1 == i then j else before + 1;
    }
  }

  /** The authorization walk: follow parent links upward until the ancestor, the end of the
      run, or a node seen before. */
  method IsDescendant(nodes: seq<Node>, run: Id, ancestor: Id, target: Id) returns (descends: bool)
    ensures descends <==> ancestor != target && Reaches(ParentsOf(nodes, run, None), ancestor, target)
  {
    if ancestor == target {
      return false;
    }
    ghost var parents := ParentsOf(nodes, run, None);
    var current := Some(target);
    var visited: set<Id> := {};
    ghost var i := 0;
    while current.Some?
      invariant current == Up(parents, target, i)
      invariant Trail(parents, target, i, visited)
      invariant visited <= parents.Keys
      invariant Missed(parents, target, ancestor, i)
      decreases parents.Keys - visited, current.Some?
    {
      var id := current.value;
      if id in visited {
        CycleMisses(parents, target, ancestor, i, visited);
        return false;
      }
      if id >= |nodes| || nodes[id].reg.run != run {
        EndMisses(parents, target, ancestor, i + 1);
        return false;
      }
      var parent := nodes[id].reg.parent;
      assert id in parents && parents[id] == parent;
      visited := visited + {id};
      i := i + 1;
      if parent == Some(ancestor) {
        assert Up(parents, target, i) == Some(ancestor);
        return true;
      }
      current := parent;
    }
    EndMisses(parents, target, ancestor, i);
    descends := false;
  }

  /** The visited set is exactly the first ancestors of the target. */
  ghost predicate Trail(parents: ParentMap, target: Id, i: nat, visited: set<Id>) {
    && (forall k: nat | k < i :: Up(parents, target, k).Some? && Up(parents, target, k).value in visited)
    && (forall v | v in visited :: exists k: nat :: k < i && Up(parents, target, k) == Some(v))
  }

  ghost predicate Missed(parents: ParentMap, target: Id, ancestor: Id, i: nat) {
    forall k: nat | k <= i :: Up(parents, target, k) != Some(ancestor)
  }

  lemma CycleMisses(parents: ParentMap, target: Id, ancestor: Id, i: nat, visited: set<Id>)
    requires Trail(parents, target, i, visited) && Missed(parents, target, ancestor, i)
    requires Up(parents, target, i).Some? && Up(parents, target, i).value in visited
    ensures !Reaches(parents, ancestor, target)
  {
    var j: nat :| j < i && Up(parents, target, j) == Up(parents, target, i);
    forall k: nat ensures Up(parents, target, k) != Some(ancestor) {
      var seen := UpRepeats(parents, target, j, i, k);
    }
  }

  lemma EndMisses(parents: ParentMap, target: Id, ancestor: Id, i: nat)
    requires Up(parents, target, i) == None && forall k: nat | k < i :: Up(parents, target, k) != Some(ancestor)
    ensures !Reaches(parents, ancestor, target)
  {
    forall k: nat ensures Up(parents, target, k) != Some(ancestor) {
      if k > i { UpStaysNone(parents, target, i, k); }
    }
  }

  function ChildList(byParent: map<Option<Id>, seq<Id>>, p: Option<Id>): seq<Id> {
    if p in byParent then byParent[p] else []
  }

  predicate ChildOf(nodes: seq<Node>, run: Id, before: Option<Time>, p: Option<Id>, n: Id) {
    && n < |nodes| && nodes[n].reg.run == run && nodes[n].reg.parent == p
    && (before.None? || nodes[n].reg.registeredAt <= before.value)
  }

  lemma ChildListAdds(byParent: map<Option<Id>, seq<Id>>, parent: Option<Id>, n: Id, p: Option<Id>)
    ensures ChildList(byParent[parent := ChildList(byParent, parent) + [n]], p)
            == if p == parent then ChildList(byParent, p) + [n] else ChildList(byParent, p)
  {
  }

  /** The children index of the subtree walk. */
  method IndexChildren(nodes: seq<Node>, run: Id, before: Option<Time>)
    returns (byParent: map<Option<Id>, seq<Id>>)
    ensures var parents := ParentsOf(nodes, run, before);
      forall p, n :: n in ChildList(byParent, p) <==> n in parents && parents[n] == p
  {
    byParent := map[];
    for i := 0 to |nodes|
      invariant forall p, n: Id :: n in ChildList(byParent, p) <==> n < i && ChildOf(nodes, run, before, p, n)
    {
      var reg := nodes[i].reg;
      if reg.run == run && (before.None? || reg.registeredAt <= before.value) {
        ghost var older := byParent;
        byParent := byParent[reg.parent := ChildList(byParent, reg.parent) + [i]];
        forall p, n: Id
          ensures n in ChildList(byParent, p) <==> n < i + 1 && ChildOf(nodes, run, before, p, n)
        {
          ChildListAdds(older, reg.parent, i, p);
          assert n in ChildList(older, p) <==> n < i && ChildOf(nodes, run, before, p, n);
        }
      }
    }
    forall p, n: Id
      ensures n in ChildList(byParent, p)
              <==> n in ParentsOf(nodes, run, before) && ParentsOf(nodes, run, before)[n] == p
    {
      assert n in ChildList(byParent, p) <==> ChildOf(nodes, run, before, p, n);
    }
  }

  /** The retrospective subtree walk: a stack, a visited set, and the result in visiting order. */
  method DescendantsIncludingSelf(nodes: seq<Node>, run: Id, root: Id, before: Option<Time>)
    returns (result: seq<Id>)
    ensures var parents := ParentsOf(nodes, run, before);
      forall n :: n in result <==> root in parents && n in parents && Reaches(parents, root, n)
    ensures forall i, j | 0 <= i < j < |result| :: result[i] != result[j]
  {
    ghost var parents := ParentsOf(nodes, run, before);
    var byParent := IndexChildren(nodes, run, before);
    if root >= |nodes| || nodes[root].reg.run != run
       || (before.Some? && nodes[root].reg.registeredAt > before.value) {
      return [];
    }
    result := WalkStack(byParent, root, parents);
  }

  method WalkStack(byParent: map<Option<Id>, seq<Id>>, root: Id, ghost parents: ParentMap)
    returns (result: seq<Id>)
    requires root in parents
    requires forall p, n :: n in ChildList(byParent, p) <==> n in parents && parents[n] == p
    ensures forall n :: n in result <==> n in parents && Reaches(parents, root, n)
    ensures forall i, j | 0 <= i < j < |result| :: result[i] != result[j]
  {
    result := [];
    var stack := [root];
    var visited: set<Id> := {};
    WalkStarts(parents, root);
    hide WalkInvariant, Reaches, Up, ChildList;
    while stack != []
      invariant forall n :: n in visited <==> n in result
      invariant WalkInvariant(parents, root, visited, stack)
      invariant forall i, j | 0 <= i < j < |result| :: result[i] != result[j]
      decreases parents.Keys - visited, |stack|
    {
      var id := stack[|stack| - 1];
      var rest := stack[..|stack| - 1];
      assert stack == rest + [id];
      if id in visited {
        WalkSkips(parents, root, visited, rest, id);
        stack := rest;
      } else {
        var children := ChildList(byParent, Some(id));
        WalkVisits(parents, root, visited, rest, id, children);
        assert id in parents.Keys - visited;
        visited := visited + {id};
        result := result + [id];
        stack := rest + children;
      }
    }
    WalkEnds(parents, root, visited);
  }

  lemma WalkStarts(parents: ParentMap, root: Id)
    requires root in parents
    ensures WalkInvariant(parents, root, {}, [root])
  {
    ReachesUnfold(parents, root, root);
  }

  lemma WalkEnds(parents: ParentMap, root: Id, visited: set<Id>)
    requires WalkInvariant(parents, root, visited, [])
    ensures forall n :: n in visited <==> n in parents && Reaches(parents, root, n)
  {
    forall n | n in parents && Reaches(parents, root, n) ensures n in visited {
      var k: nat :| Up(parents, n, k) == Some(root);
      ClosedUnderChildren(parents, root, visited, n, k);
    }
  }

  /** Everything found descends from the root, and what has been visited is closed under children
      up to what is still on the stack. */
  ghost predicate WalkInvariant(parents: ParentMap, root: Id, visited: set<Id>, stack: seq<Id>) {
    && visited <= parents.Keys
    && (forall n | n in visited :: Reaches(parents, root, n))
    && (forall n | n in stack :: n in parents && Reaches(parents, root, n))
    && (root in visited || root in stack)
    && (forall n | n in parents && parents[n].Some? && parents[n].value in visited :: n in visited || n in stack)
  }

  lemma WalkSkips(parents: ParentMap, root: Id, visited: set<Id>, stack: seq<Id>, id: Id)
    requires WalkInvariant(parents, root, visited, stack + [id]) && id in visited
    ensures WalkInvariant(parents, root, visited, stack)
  {
    assert forall n :: n in stack + [id] <==> n in stack || n == id;
  }

  lemma WalkVisits(parents: ParentMap, root: Id, visited: set<Id>, stack: seq<Id>, id: Id, children: seq<Id>)
    requires WalkInvariant(parents, root, visited, stack + [id])
    requires forall n :: n in children <==> n in parents && parents[n] == Some(id)
    ensures WalkInvariant(parents, root, visited + {id}, stack + children)
    ensures id in parents
  {
    assert id in stack + [id];
    forall n | n in children ensures Reaches(parents, root, n) {
      ReachesUnfold(parents, root, n);
    }
    assert forall n :: n in stack + [id] <==> n in stack || n == id;
    assert forall n :: n in stack + children <==> n in stack || n in children;
  }

  lemma {:induction false} ClosedUnderChildren(parents: ParentMap, root: Id, closed: set<Id>, n: Id, k: nat)
    requires root in closed
    requires forall p, m | p in closed && m in parents && parents[m] == Some(p) :: m in closed
    requires Up(parents, n, k) == Some(root)
    ensures n in closed
    decreases k
  {
    if k != 0 {
      assert Up(parents, n, 1) == if n in parents then parents[n] else None by {
        assert Up(parents, n, 0) == Some(n);
      }
      if n !in parents || parents[n].None? {
        UpStaysNone(parents, n, 1, k);
      } else {
        UpFromParent(parents, n, k - 1);
        ClosedUnderChildren(parents, root, closed, parents[n].value, k - 1);
      }
    }
  }

  /** The two walks give the same answer on every parent map. */
  lemma WalksAgree(nodes: seq<Node>, run: Id, root: Id, n: Id)
    requires root in ParentsOf(nodes, run, None)
    ensures var parents := ParentsOf(nodes, run, None);
      (n in parents && Reaches(parents, root, n))
      <==> n == root || (root != n && Reaches(parents, root, n))
  {
    ReachesUnfold(ParentsOf(nodes, run, None), root, n);
  }
}
