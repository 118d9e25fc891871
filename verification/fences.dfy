/** Scopes and commands in bijection, and what a scope evaluation says about the tree. */
module Fences {
  import opened Options
  import opened Domain
  import opened Scopes
  import opened Tools
  import opened Transitions
  import opened Frames
  import opened Tree

  /** The earliest command that targets this scope. */
  function FenceOf(commands: seq<Command>, k: Id): (c: Option<Id>)
    ensures c.Some? ==> c.value < |commands| && commands[c.value].order.targetScope == k
    ensures c.None? ==> forall i | 0 <= i < |commands| :: commands[i].order.targetScope != k
  {
    if commands == [] then None else
      var last := |commands| - 1;
      var older := FenceOf(commands[..last], k);
      if older.Some? then older
      else if commands[last].order.targetScope == k then Some(last)
      else None
  }

  function FencedStatus(kind: CommandType): ScopeStatus {
    if kind == CorrectSubtree then ScopeSuperseded else ScopeCancelled
  }

  /** A scope is active at version 1, or it was closed once, by the command that targets it. */
  ghost predicate ScopeFenced(s: State, k: Id)
    requires k < |s.scopes|
  {
    match FenceOf(s.commands, k)
    case None => s.scopes[k].version == 1 && s.scopes[k].status == ScopeActive
    case Some(c) => s.scopes[k].version == 2 && s.scopes[k].status == FencedStatus(s.commands[c].order.kind)
  }

  ghost predicate CommandFences(s: State, c: Id)
    requires c < |s.commands|
  {
    var order := s.commands[c].order;
    && order.fromVersion == 1 && order.toVersion == 2 && order.createdAt <= s.clock
    && order.run < |s.runs| && order.target < |s.nodes| && order.targetScope < |s.scopes|
    && s.nodes[order.target].reg.run == order.run
    && s.nodes[order.target].reg.registeredAt < order.createdAt
    && FenceOf(s.commands, order.targetScope) == Some(c)
    && (if order.kind == CancelRun
        then order.target == s.runs[order.run].root && order.targetScope == s.runs[order.run].runScope
        else order.target != s.runs[order.run].root && order.targetScope == s.nodes[order.target].reg.ownScope)
  }

  ghost predicate RunFenced(s: State, r: Id)
    requires r < |s.runs|
  {
    && s.runs[r].runScope < |s.scopes|
    && s.runs[r].status != RunCreated
    && (s.runs[r].status == RunCancelled <==> s.scopes[s.runs[r].runScope].status != ScopeActive)
  }

  ghost predicate WellFenced(s: State) {
    && (forall k {:trigger s.scopes[k]} | 0 <= k < |s.scopes| :: ScopeFenced(s, k))
    && (forall c {:trigger s.commands[c]} | 0 <= c < |s.commands| :: CommandFences(s, c))
    && (forall r {:trigger s.runs[r]} | 0 <= r < |s.runs| :: RunFenced(s, r))
  }

  /** Scopes and commands are in bijection: an active scope is at version 1 and no command targets
      it; any other is at version 2 and exactly one command, with that version, closed it. */
  lemma ScopesMatchCommands(s: State, k: Id)
    requires WellFenced(s) && k < |s.scopes|
    ensures if s.scopes[k].status == ScopeActive
      then s.scopes[k].version == 1 && forall c | 0 <= c < |s.commands| :: s.commands[c].order.targetScope != k
      else s.scopes[k].version == 2 && exists c | 0 <= c < |s.commands| ::
             (&& s.commands[c].order.targetScope == k && s.commands[c].order.toVersion == 2
              && s.scopes[k].status == FencedStatus(s.commands[c].order.kind)
              && forall d | 0 <= d < |s.commands| :: s.commands[d].order.targetScope == k ==> d == c)
  {
    assert ScopeFenced(s, k);
    var f := FenceOf(s.commands, k);
    assert f.Some? ==> CommandFences(s, f.value);
    forall d | 0 <= d < |s.commands| && s.commands[d].order.targetScope == k ensures f == Some(d) {
      assert CommandFences(s, d);
    }
  }

  // ---------------------------------------------------------------- every step keeps the bijection

  lemma {:induction false} FenceSameOrders(a: seq<Command>, b: seq<Command>, k: Id)
    requires |a| == |b| && forall i | 0 <= i < |a| :: b[i].order == a[i].order
    ensures FenceOf(a, k) == FenceOf(b, k)
  {
    if a != [] {
      FenceSameOrders(a[..|a| - 1], b[..|b| - 1], k);
    }
  }

  lemma FenceAppend(a: seq<Command>, x: Command, k: Id)
    ensures FenceOf(a + [x], k)
            == if FenceOf(a, k).Some? then FenceOf(a, k)
               else if x.order.targetScope == k then Some(|a|) else None
  {
    assert (a + [x])[..|a|] == a;
  }

  lemma CalmFenced(s: State, t: State)
    requires WellFenced(s) && Calm(s, t)
    ensures WellFenced(t)
  {
    forall k | 0 <= k < |t.scopes| ensures ScopeFenced(t, k) {
      assert ScopeFenced(s, k);
      FenceSameOrders(s.commands, t.commands, k);
    }
    forall c | 0 <= c < |t.commands| ensures CommandFences(t, c) {
      assert CommandFences(s, c);
      assert RunKept(s.runs[s.commands[c].order.run], t.runs[s.commands[c].order.run], s.clock);
      FenceSameOrders(s.commands, t.commands, s.commands[c].order.targetScope);
    }
    forall r | 0 <= r < |t.runs| ensures RunFenced(t, r) {
      assert RunFenced(s, r) && RunKept(s.runs[r], t.runs[r], s.clock);
    }
  }

  /** New rows that no command mentions. */
  lemma GrowFenced(s: State, t: State)
    requires WellFenced(s) && WellTreed(t)
    requires s.clock <= t.clock && s.runs <= t.runs && s.nodes <= t.nodes && s.scopes <= t.scopes
    requires |t.commands| == |s.commands| && forall c | 0 <= c < |s.commands| :: t.commands[c].order == s.commands[c].order
    requires forall k | |s.scopes| <= k < |t.scopes| :: t.scopes[k].version == 1 && t.scopes[k].status == ScopeActive
    requires forall r | |s.runs| <= r < |t.runs| :: t.runs[r].status == RunRunning && t.runs[r].runScope >= |s.scopes|
    ensures WellFenced(t)
  {
    forall k | 0 <= k < |t.scopes| ensures ScopeFenced(t, k) {
      FenceSameOrders(s.commands, t.commands, k);
      var f := FenceOf(s.commands, k);
      assert f.Some? ==> CommandFences(s, f.value);
      if k < |s.scopes| { assert ScopeFenced(s, k); }
    }
    forall c | 0 <= c < |t.commands| ensures CommandFences(t, c) {
      assert CommandFences(s, c);
      FenceSameOrders(s.commands, t.commands, s.commands[c].order.targetScope);
    }
    forall r | 0 <= r < |t.runs| ensures RunFenced(t, r) {
      assert RunRooted(t, r);
      if r < |s.runs| { assert RunFenced(s, r); }
    }
  }

  /** The rows a committed command leaves behind. */
  ghost predicate Committed(s: State, t: State, x: Command, closed: Run) {
    var order := x.order;
    && order.run < |s.runs| && order.targetScope < |s.scopes| && order.target < |s.nodes|
    && t.clock == s.clock && t.nodes == s.nodes && t.intents == s.intents && t.envelopes == s.envelopes
    && t.attempts == s.attempts && t.matches == s.matches && t.acks == s.acks
    && t.commands == s.commands + [x]
    && t.runs == s.runs[order.run := closed]
    && t.scopes == s.scopes[order.targetScope := s.scopes[order.targetScope].(
                     version := s.scopes[order.targetScope].version + 1, status := FencedStatus(order.kind))]
    && order.run == s.nodes[order.target].reg.run
    && order.fromVersion == s.scopes[order.targetScope].version
    && order.toVersion == order.fromVersion + 1
    && order.createdAt == s.clock
    && x.replacementNode == None
    && x.replacementStatus == (if order.kind == CorrectSubtree then Some(ReplacementPending) else None)
    && (order.kind != CancelRun ==> closed == s.runs[order.run])
    && (order.kind == CancelRun ==>
          closed == s.runs[order.run].(status := RunCancelled, finishedAt := Some(s.clock)))
  }

  lemma CommitCommits(
    s: Database, issuer: Issuer, request: CommandRequest, scope: Id, parent: Option<Id>, manifest: Option<Manifest>)
    returns (x: Command, closed: Run)
    requires request.body.target < |s.nodes| && scope < |s.scopes|
    requires s.runs[s.nodes[request.body.target].reg.run].status == RunRunning
    ensures CommitCommand(s, issuer, request, scope, parent, manifest).Some?
    ensures Committed(s, CommitCommand(s, issuer, request, scope, parent, manifest).value, x, closed)
    ensures x.order.targetScope == scope && x.order.target == request.body.target && x.order.kind == request.body.kind
    ensures x.order.issuer == issuer && x.order.key == request.key && x.order.request == Digest(request)
    ensures x.order.sourceProposal == request.sourceProposal && x.order.replacementParent == parent
    ensures x.order.instruction == request.body.instruction && x.order.expectedTool == request.body.expectedTool
    ensures x.order.manifest == manifest
    ensures x.order.manifestDigest == if manifest.Some? then Some(Digest(manifest.value)) else None
  {
    var t := CommitCommand(s, issuer, request, scope, parent, manifest).value;
    x := t.commands[|s.commands|];
    closed := t.runs[x.order.run];
  }

  /** The command targets what its kind says, through a scope that was active until now. */
  ghost predicate Aimed(s: State, order: Order)
    requires order.run < |s.runs| && order.target < |s.nodes| && order.targetScope < |s.scopes|
  {
    && s.scopes[order.targetScope].status == ScopeActive
    && s.nodes[order.target].reg.registeredAt < s.clock
    && if order.kind == CancelRun
       then order.target == s.runs[order.run].root && order.targetScope == s.runs[order.run].runScope
       else order.target != s.runs[order.run].root && order.targetScope == s.nodes[order.target].reg.ownScope
  }

  lemma CommitFenced(s: Database, t: State, x: Command, closed: Run)
    requires WellTreed(s) && WellFenced(s) && Committed(s, t, x, closed) && Aimed(s, x.order)
    ensures SameTree(s, t) && WellFenced(t)
  {
    hide CommandFences, RunFenced;
    forall k | 0 <= k < |t.scopes| ensures ScopeFenced(t, k) {
      assert ScopeFenced(s, k);
      FenceAppend(s.commands, x, k);
    }
    CommitFencesCommands(s, t, x, closed);
    CommitRunsFenced(s, t, x, closed);
    forall c | 0 <= c < |t.commands| ensures CommandFences(t, c) {
      var command := t.commands[c];
    }
    forall r | 0 <= r < |t.runs| ensures RunFenced(t, r) {
      var run := t.runs[r];
    }
  }

  lemma CommitFencesCommands(s: Database, t: State, x: Command, closed: Run)
    requires WellTreed(s) && WellFenced(s) && Committed(s, t, x, closed) && Aimed(s, x.order)
    ensures forall c {:trigger t.commands[c]} | 0 <= c < |t.commands| :: CommandFences(t, c)
  {
    assert NodeLinked(s, x.order.target) && ScopeFenced(s, x.order.targetScope);
    forall c | 0 <= c < |t.commands| ensures CommandFences(t, c) {
      FenceAppend(s.commands, x, t.commands[c].order.targetScope);
      if c < |s.commands| { assert CommandFences(s, c); }
    }
  }

  lemma CommitRunsFenced(s: Database, t: State, x: Command, closed: Run)
    requires WellTreed(s) && WellFenced(s) && Committed(s, t, x, closed)
    requires if x.order.kind == CancelRun
      then x.order.targetScope == s.runs[x.order.run].runScope
      else x.order.targetScope == s.nodes[x.order.target].reg.ownScope
    ensures forall r {:trigger t.runs[r]} | 0 <= r < |t.runs| :: RunFenced(t, r)
  {
    assert NodeLinked(s, x.order.target);
    forall r | 0 <= r < |t.runs| ensures RunFenced(t, r) {
      assert RunFenced(s, r) && RunRooted(s, r);
      assert s.scopes[s.runs[r].runScope].owner.None? && s.scopes[s.runs[r].runScope].run == r;
    }
  }
}
