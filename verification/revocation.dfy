/** Checking a frozen snapshot lazily gives the same answer as marking the subtree eagerly. */
module Revocation {
  import opened Options
  import opened Domain
  import opened Scopes
  import opened Tools
  import opened Transitions
  import opened Frames
  import opened Tree
  import opened Fences

  /** The command was aimed at this node: at its run, or at itself or an ancestor. */
  ghost predicate Targets(s: State, c: Id, n: Id)
    requires c < |s.commands| && n < |s.nodes|
  {
    var order := s.commands[c].order;
    if order.kind == CancelRun then s.nodes[n].reg.run == order.run else Under(s.nodes, order.target, n)
  }

  ghost predicate Revoked(s: State, n: Id)
    requires n < |s.nodes|
  {
    exists c | 0 <= c < |s.commands| :: Targets(s, c, n)
  }

  lemma MismatchesAppend(scopes: seq<Scope>, run: Id, snapshot: seq<Snap>, item: Snap)
    ensures Mismatches(scopes, run, snapshot + [item])
            == Mismatches(scopes, run, snapshot)
               + match MismatchOf(scopes, run, item) case None => [] case Some(m) => [m]
  {
    assert (snapshot + [item])[..|snapshot|] == snapshot;
  }

  /** A scope of the run mismatches version 1 exactly when a command closed it. */
  lemma ClosedScopeMismatches(s: State, run: Id, k: Id)
    requires WellFenced(s) && k < |s.scopes| && s.scopes[k].run == run
    ensures MismatchOf(s.scopes, run, Snap(k, 1)).Some? <==> FenceOf(s.commands, k).Some?
    ensures MismatchOf(s.scopes, run, Snap(k, 1)).Some? ==>
      MismatchOf(s.scopes, run, Snap(k, 1)).value
      == Mismatch(k, 1, Some(2), Some(s.scopes[k].status),
                  if s.scopes[k].status == ScopeCancelled then ScopeIsCancelled else ScopeIsSuperseded)
  {
    assert ScopeFenced(s, k);
  }

  lemma MismatchesOfRoot(s: Database, n: Id)
    requires WellTreed(s) && n < |s.nodes| && s.nodes[n].reg.parent.None?
    ensures var run := s.nodes[n].reg.run;
      EvaluationOf(s, n).mismatches
      == (match MismatchOf(s.scopes, run, Snap(s.runs[run].runScope, 1)) case None => [] case Some(m) => [m])
         + match MismatchOf(s.scopes, run, Snap(s.nodes[n].reg.ownScope, 1)) case None => [] case Some(m) => [m]
  {
    var run := s.nodes[n].reg.run;
    var outer, own := Snap(s.runs[run].runScope, 1), Snap(s.nodes[n].reg.ownScope, 1);
    assert NodeLinked(s, n);
    assert [outer, own] == [outer] + [own] && [outer] == [] + [outer];
    MismatchesAppend(s.scopes, run, [outer], own);
    MismatchesAppend(s.scopes, run, [], outer);
  }

  /** A child sees its parent's mismatches and then possibly its own scope. */
  lemma MismatchesOfChild(s: Database, n: Id)
    requires WellTreed(s) && n < |s.nodes| && s.nodes[n].reg.parent.Some?
    ensures s.nodes[n].reg.parent.value < |s.nodes|
    ensures EvaluationOf(s, n).mismatches
            == EvaluationOf(s, s.nodes[n].reg.parent.value).mismatches
               + match MismatchOf(s.scopes, s.nodes[n].reg.run, Snap(s.nodes[n].reg.ownScope, 1))
                 case None => [] case Some(m) => [m]
  {
    assert NodeLinked(s, n);
    var p := s.nodes[n].reg.parent.value;
    assert NodeLinked(s, p);
    MismatchesAppend(s.scopes, s.nodes[n].reg.run, s.nodes[p].reg.snapshot, Snap(s.nodes[n].reg.ownScope, 1));
  }

  lemma FencedOwnScope(s: Database, n: Id)
    requires WellTreed(s) && WellFenced(s) && n < |s.nodes|
    ensures FenceOf(s.commands, s.nodes[n].reg.ownScope).Some?
            <==> exists c | 0 <= c < |s.commands| ::
                   s.commands[c].order.kind != CancelRun && s.commands[c].order.target == n
  {
    var own := s.nodes[n].reg.ownScope;
    assert NodeLinked(s, n);
    var f := FenceOf(s.commands, own);
    if f.Some? {
      assert CommandFences(s, f.value);
      var order := s.commands[f.value].order;
      assert RunRooted(s, order.run) && NodeLinked(s, order.target);
      assert s.commands[f.value].order.target == n;
    }
    forall c | 0 <= c < |s.commands| && s.commands[c].order.kind != CancelRun && s.commands[c].order.target == n
      ensures f.Some?
    {
      assert CommandFences(s, c);
    }
  }

  lemma FencedRunScope(s: Database, r: Id)
    requires WellTreed(s) && WellFenced(s) && r < |s.runs|
    ensures s.runs[r].runScope < |s.scopes|
    ensures FenceOf(s.commands, s.runs[r].runScope).Some?
            <==> exists c | 0 <= c < |s.commands| ::
                   s.commands[c].order.kind == CancelRun && s.commands[c].order.run == r
  {
    assert RunRooted(s, r);
    var f := FenceOf(s.commands, s.runs[r].runScope);
    if f.Some? {
      assert CommandFences(s, f.value);
      var order := s.commands[f.value].order;
      assert RunRooted(s, order.run) && NodeLinked(s, order.target);
      assert s.commands[f.value].order.run == r;
    }
    forall c | 0 <= c < |s.commands| && s.commands[c].order.kind == CancelRun && s.commands[c].order.run == r
      ensures f.Some?
    {
      assert CommandFences(s, c);
    }
  }

  /** Lazy invalidation refines eager revocation: the snapshot check allows a node exactly when
      no committed command targets it, an ancestor of it, or its run. */
  lemma {:induction false} LazyIsEager(s: Database, n: Id)
    requires WellTreed(s) && WellFenced(s) && n < |s.nodes|
    ensures EvaluationOf(s, n).allowed <==> !Revoked(s, n)
    ensures EvaluationOf(s, n).allowed <==> EvaluationOf(s, n).mismatches == []
    decreases n
  {
    var reg := s.nodes[n].reg;
    assert NodeLinked(s, n);
    assert reg.snapshot != [];
    ClosedScopeMismatches(s, reg.run, reg.ownScope);
    FencedOwnScope(s, n);
    if reg.parent.Some? {
      var p := reg.parent.value;
      LazyIsEager(s, p);
      MismatchesOfChild(s, n);
      assert s.nodes[p].reg.snapshot != [] by { assert NodeLinked(s, p); }
      RevokedThroughParent(s, n);
    } else {
      RunRootedScope(s, reg.run);
      ClosedScopeMismatches(s, reg.run, s.runs[reg.run].runScope);
      FencedRunScope(s, reg.run);
      MismatchesOfRoot(s, n);
      RevokedRoot(s, n);
    }
  }

  lemma RunRootedScope(s: Database, r: Id)
    requires WellTreed(s) && r < |s.runs|
    ensures s.runs[r].runScope < |s.scopes| && s.scopes[s.runs[r].runScope].run == r
  {
    assert RunRooted(s, r);
  }

  lemma RevokedThroughParent(s: Database, n: Id)
    requires WellTreed(s) && n < |s.nodes| && s.nodes[n].reg.parent.Some?
    ensures var p := s.nodes[n].reg.parent.value;
      p < |s.nodes|
      && (Revoked(s, n)
          <==> Revoked(s, p)
               || exists c | 0 <= c < |s.commands| ::
                    s.commands[c].order.kind != CancelRun && s.commands[c].order.target == n)
  {
    assert NodeLinked(s, n);
    var p := s.nodes[n].reg.parent.value;
    forall c | 0 <= c < |s.commands|
      ensures Targets(s, c, n)
              <==> Targets(s, c, p) || (s.commands[c].order.kind != CancelRun && s.commands[c].order.target == n)
    {
    }
  }

  lemma RevokedRoot(s: Database, n: Id)
    requires WellTreed(s) && WellFenced(s) && n < |s.nodes| && s.nodes[n].reg.parent.None?
    ensures Revoked(s, n)
            <==> (exists c | 0 <= c < |s.commands| ::
                    s.commands[c].order.kind == CancelRun && s.commands[c].order.run == s.nodes[n].reg.run)
                 || (exists c | 0 <= c < |s.commands| ::
                    s.commands[c].order.kind != CancelRun && s.commands[c].order.target == n)
  {
    forall c | 0 <= c < |s.commands|
      ensures Targets(s, c, n)
              <==> || (s.commands[c].order.kind == CancelRun && s.commands[c].order.run == s.nodes[n].reg.run)
                   || (s.commands[c].order.kind != CancelRun && s.commands[c].order.target == n)
    {
    }
  }

  // ---------------------------------------------------------------- nobody joins a revoked subtree

  /** A command targets only nodes that had registered before it committed. */
  ghost predicate WellJoined(s: State) {
    forall c, n {:trigger Targets(s, c, n)} | 0 <= c < |s.commands| && 0 <= n < |s.nodes| ::
      Targets(s, c, n) ==> s.nodes[n].reg.registeredAt < s.commands[c].order.createdAt
  }

  /** Registered nodes and committed orders stay. */
  ghost predicate Extends(s: State, t: State) {
    && |s.nodes| <= |t.nodes| && |s.commands| <= |t.commands|
    && (forall n {:trigger t.nodes[n]} | 0 <= n < |s.nodes| :: t.nodes[n].reg == s.nodes[n].reg)
    && (forall c {:trigger t.commands[c]} | 0 <= c < |s.commands| :: t.commands[c].order == s.commands[c].order)
  }

  lemma TargetsFrame(s: State, t: State, c: Id, n: Id)
    requires Extends(s, t) && c < |s.commands| && n < |s.nodes|
    ensures Targets(t, c, n) <==> Targets(s, c, n)
  {
    UnderFrame(s.nodes, t.nodes, s.commands[c].order.target, n);
  }

  lemma RevokedStays(s: State, t: State, n: Id)
    requires Extends(s, t) && n < |s.nodes| && Revoked(s, n)
    ensures Revoked(t, n)
  {
    var c :| 0 <= c < |s.commands| && Targets(s, c, n);
    TargetsFrame(s, t, c, n);
  }

  lemma JoinedFrame(s: State, t: State)
    requires WellJoined(s) && Extends(s, t) && |t.nodes| == |s.nodes| && |t.commands| == |s.commands|
    ensures WellJoined(t)
  {
    forall c, n | 0 <= c < |t.commands| && 0 <= n < |t.nodes| && Targets(t, c, n)
      ensures t.nodes[n].reg.registeredAt < t.commands[c].order.createdAt
    {
      TargetsFrame(s, t, c, n);
    }
  }

  /** A node registers only below a parent that no command targets. */
  lemma RegisterJoined(s: State, t: State, parent: Id)
    requires WellFenced(s) && WellJoined(s) && Extends(s, t) && |t.commands| == |s.commands|
    requires parent < |s.nodes| && !Revoked(s, parent)
    requires |t.nodes| == |s.nodes| + 1
    requires t.nodes[|s.nodes|].reg.parent == Some(parent) && t.nodes[|s.nodes|].reg.run == s.nodes[parent].reg.run
    ensures WellJoined(t) && !Revoked(t, |s.nodes|)
  {
    forall c, n | 0 <= c < |t.commands| && 0 <= n < |t.nodes| && Targets(t, c, n)
      ensures n < |s.nodes| && t.nodes[n].reg.registeredAt < t.commands[c].order.createdAt
    {
      assert CommandFences(s, c);
      assert !Targets(s, c, parent);
      TargetsFrame(s, t, c, parent);
      if n < |s.nodes| { TargetsFrame(s, t, c, n); }
    }
  }

  /** The root of a new run is below nothing, and no command belongs to a new run. */
  lemma RunJoined(s: State, t: State)
    requires WellFenced(s) && WellJoined(s) && Extends(s, t) && |t.commands| == |s.commands|
    requires |t.nodes| == |s.nodes| + 1
    requires t.nodes[|s.nodes|].reg.parent.None? && t.nodes[|s.nodes|].reg.run == |s.runs|
    ensures WellJoined(t)
  {
    forall c, n | 0 <= c < |t.commands| && 0 <= n < |t.nodes| && Targets(t, c, n)
      ensures t.nodes[n].reg.registeredAt < t.commands[c].order.createdAt
    {
      assert CommandFences(s, c);
      if n < |s.nodes| { TargetsFrame(s, t, c, n); }
    }
  }

  lemma CommitJoined(s: State, t: State)
    requires WellJoined(s) && Extends(s, t) && |t.nodes| == |s.nodes| && |t.commands| == |s.commands| + 1
    requires t.commands[|s.commands|].order.createdAt == s.clock
    requires forall n {:trigger s.nodes[n]} | 0 <= n < |s.nodes| :: s.nodes[n].reg.registeredAt < s.clock
    ensures WellJoined(t)
  {
    forall c, n | 0 <= c < |t.commands| && 0 <= n < |t.nodes| && Targets(t, c, n)
      ensures t.nodes[n].reg.registeredAt < t.commands[c].order.createdAt
    {
      if c < |s.commands| { TargetsFrame(s, t, c, n); }
    }
  }
}
