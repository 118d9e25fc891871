/** Attribution: a denial and an acknowledgement name exactly the commands that caused them. */
module Attribution {
  import opened Options
  import opened Domain
  import opened Scopes
  import opened Tools
  import opened Transitions
  import opened Frames
  import opened Tree
  import opened Fences
  import opened Revocation

  /** How a scope closed by this command looks to a snapshot. */
  function ClosedBy(order: Order): Mismatch {
    Mismatch(order.targetScope, 1, Some(2), Some(FencedStatus(order.kind)),
             if order.kind == CorrectSubtree then ScopeIsSuperseded else ScopeIsCancelled)
  }

  lemma TargetedScope(s: Database, c: Id, n: Id)
    requires WellTreed(s) && WellFenced(s) && c < |s.commands| && n < |s.nodes|
    ensures Targets(s, c, n)
            <==> s.commands[c].order.run == s.nodes[n].reg.run
                 && Snap(s.commands[c].order.targetScope, 1) in s.nodes[n].reg.snapshot
  {
    var order := s.commands[c].order;
    var run := s.nodes[n].reg.run;
    assert CommandFences(s, c) && NodeLinked(s, n) && RunRooted(s, run) && RunRooted(s, order.run);
    SnapshotIsPath(s, n, Snap(order.targetScope, 1));
    if order.kind == CancelRun {
      assert forall a | 0 <= a < |s.nodes| :: NodeLinked(s, a) && s.nodes[a].reg.ownScope != order.targetScope;
    } else {
      assert NodeLinked(s, order.target);
      assert forall a | 0 <= a < |s.nodes| :: NodeLinked(s, a) && (s.nodes[a].reg.ownScope == order.targetScope ==> a == order.target);
      if Under(s.nodes, order.target, n) { UnderKeeps(s, order.target, n); }
    }
  }

  /** The outdated items of a node's snapshot are those that commands closed. */
  lemma MismatchIsClosed(s: Database, n: Id, m: Mismatch)
    requires WellTreed(s) && WellFenced(s) && n < |s.nodes|
    ensures m in EvaluationOf(s, n).mismatches
            <==> exists c | 0 <= c < |s.commands| :: Targets(s, c, n) && m == ClosedBy(s.commands[c].order)
  {
    var reg := s.nodes[n].reg;
    assert NodeLinked(s, n);
    MismatchMembers(s.scopes, reg.run, reg.snapshot, m);
    if m in EvaluationOf(s, n).mismatches {
      var i :| 0 <= i < |reg.snapshot| && MismatchOf(s.scopes, reg.run, reg.snapshot[i]) == Some(m);
      SnapshotItem(s, n, i);
      var k := reg.snapshot[i].scope;
      ClosedScopeMismatches(s, reg.run, k);
      var c := FenceOf(s.commands, k).value;
      assert ScopeFenced(s, k) && CommandFences(s, c);
      FencedCommandRun(s, c);
      TargetedScope(s, c, n);
      assert m == ClosedBy(s.commands[c].order);
    }
    forall c | 0 <= c < |s.commands| && Targets(s, c, n) && m == ClosedBy(s.commands[c].order)
      ensures m in EvaluationOf(s, n).mismatches
    {
      TargetedScope(s, c, n);
      var k := s.commands[c].order.targetScope;
      var i :| 0 <= i < |reg.snapshot| && reg.snapshot[i] == Snap(k, 1);
      assert CommandFences(s, c) && ScopeFenced(s, k);
      FencedCommandRun(s, c);
      ClosedScopeMismatches(s, reg.run, k);
    }
  }

  /** A command's scope belongs to the command's run. */
  lemma FencedCommandRun(s: Database, c: Id)
    requires WellTreed(s) && WellFenced(s) && c < |s.commands|
    ensures s.commands[c].order.targetScope < |s.scopes|
    ensures s.scopes[s.commands[c].order.targetScope].run == s.commands[c].order.run
  {
    assert CommandFences(s, c);
    var order := s.commands[c].order;
    assert RunRooted(s, order.run) && NodeLinked(s, order.target);
  }

  lemma {:induction false} SnapshotItem(s: Database, n: Id, i: Id)
    requires WellTreed(s) && n < |s.nodes| && i < |s.nodes[n].reg.snapshot|
    ensures var item := s.nodes[n].reg.snapshot[i];
      item.version == 1 && item.scope < |s.scopes| && s.scopes[item.scope].run == s.nodes[n].reg.run
    decreases n
  {
    assert NodeLinked(s, n);
    var reg := s.nodes[n].reg;
    if reg.parent.None? {
      assert RunRooted(s, reg.run);
    } else if i < |reg.snapshot| - 1 {
      SnapshotItem(s, reg.parent.value, i);
    }
  }

  /** The commands a node's mismatches are attributed to are exactly those that target it. */
  lemma AttributedIsTargets(s: Database, n: Id, c: Id)
    requires WellTreed(s) && WellFenced(s) && n < |s.nodes|
    ensures c in AttributedTo(s, n) <==> c < |s.commands| && Targets(s, c, n)
  {
    var ms := EvaluationOf(s, n).mismatches;
    var run := s.nodes[n].reg.run;
    AttributedMembers(s.commands, ms, run);
    if c < |s.commands| {
      var order := s.commands[c].order;
      assert CommandFences(s, c);
      if Targets(s, c, n) {
        TargetedScope(s, c, n);
        MismatchIsClosed(s, n, ClosedBy(order));
        var i :| 0 <= i < |ms| && ms[i] == ClosedBy(order);
        assert Blames(ms, order.targetScope, order.toVersion);
      }
      if Blames(ms, order.targetScope, order.toVersion) {
        var i :| 0 <= i < |ms| && ms[i].scope == order.targetScope && ms[i].liveVersion == Some(order.toVersion);
        MismatchIsClosed(s, n, ms[i]);
        var d :| 0 <= d < |s.commands| && Targets(s, d, n) && ms[i] == ClosedBy(s.commands[d].order);
        assert CommandFences(s, d);
        assert d == c;
      }
    }
  }

  /** What the runtime check amounts to: a node is live exactly when its run is running, it is working
      under an unexpired lease, and no command targets it; and the reason of a refusal is the first of
      these that fails, where a targeted node is told how one of its commands closed a scope, never
      that a scope is missing or at another version. */
  lemma LiveExactly(s: Database, n: Id)
    requires WellTreed(s) && WellFenced(s) && n < |s.nodes|
    ensures var life, running, runtime := s.nodes[n].life, s.runs[s.nodes[n].reg.run].status == RunRunning, RuntimeOf(s, n);
      && (runtime.allowed <==> running && Working(life.status) && LeaseLive(life, s.clock) && !Revoked(s, n))
      && (runtime.allowed <==> runtime.reason.None?)
      && (!runtime.allowed ==>
            if !running then runtime.reason == Some(RunNotActive)
            else if !Working(life.status) then runtime.reason == Some(NodeNotActive)
            else if !LeaseLive(life, s.clock) then runtime.reason == Some(LeaseIsExpired)
            else exists c | 0 <= c < |s.commands| ::
                   Targets(s, c, n) && runtime.reason == Some(ClosedBy(s.commands[c].order).reason))
  {
    hide Evaluate, Targets;
    LazyIsEager(s, n);
    var ms := EvaluationOf(s, n).mismatches;
    if ms != [] {
      MismatchIsClosed(s, n, ms[0]);
    }
  }

  /** Every outdated node is attributed: the unattributed fallback never happens. */
  lemma OutdatedIsAttributed(s: Database, n: Id)
    requires WellTreed(s) && WellFenced(s) && n < |s.nodes|
    ensures AttributedTo(s, n) == [] <==> EvaluationOf(s, n).allowed
  {
    LazyIsEager(s, n);
    if Revoked(s, n) {
      var c :| 0 <= c < |s.commands| && Targets(s, c, n);
      AttributedIsTargets(s, n, c);
    }
    if AttributedTo(s, n) != [] {
      AttributedIsTargets(s, n, AttributedTo(s, n)[0]);
    }
  }

  /** The mismatch recorded with a command is the one its own scope produced. */
  lemma {:induction false} FirstMismatchFinds(ms: seq<Mismatch>, m: Mismatch)
    requires m in ms && forall x | x in ms && x.scope == m.scope :: x == m
    ensures FirstMismatch(ms, m.scope) == Some(m)
  {
    if ms[0].scope != m.scope {
      assert m in ms[1..];
      FirstMismatchFinds(ms[1..], m);
    } else {
      assert ms[0] in ms;
    }
  }

  lemma OwnMismatch(s: Database, n: Id, c: Id)
    requires WellTreed(s) && WellFenced(s) && n < |s.nodes| && c < |s.commands| && Targets(s, c, n)
    ensures FirstMismatch(EvaluationOf(s, n).mismatches, s.commands[c].order.targetScope)
            == Some(ClosedBy(s.commands[c].order))
  {
    var ms := EvaluationOf(s, n).mismatches;
    var m := ClosedBy(s.commands[c].order);
    MismatchIsClosed(s, n, m);
    assert CommandFences(s, c);
    forall x | x in ms && x.scope == m.scope ensures x == m {
      MismatchIsClosed(s, n, x);
      var d :| 0 <= d < |s.commands| && Targets(s, d, n) && x == ClosedBy(s.commands[d].order);
      assert CommandFences(s, d);
    }
    FirstMismatchFinds(ms, m);
  }

  // ---------------------------------------------------------------- what the tables record

  predicate Stale(x: Attempt) {
    x.decision == Deny && x.reason.Some? && StaleReason(x.reason.value)
  }

  /** The command targeted the acting node when the action was attempted. */
  ghost predicate Blocks(s: State, key: MatchKey) {
    && key.action < |s.attempts| && key.command < |s.commands|
    && s.attempts[key.action].node < |s.nodes|
    && Targets(s, key.command, s.attempts[key.action].node)
    && s.commands[key.command].order.createdAt < s.attempts[key.action].attemptedAt
  }

  ghost predicate MatchRight(s: State, key: MatchKey) {
    && (key in s.matches <==> Blocks(s, key) && Stale(s.attempts[key.action]))
    && (key in s.matches ==>
          && s.matches[key] == ClosedBy(s.commands[key.command].order)
          && AckKey(key.command, s.attempts[key.action].node, GatewayBlockAck) in s.acks)
  }

  /** A stale denial names one of its commands together with that command's own scope. */
  ghost predicate DenialRight(s: State, a: Id)
    requires a < |s.attempts|
  {
    var x := s.attempts[a];
    if Stale(x) then
      && x.matchedCommand.Some? && MatchKey(a, x.matchedCommand.value) in s.matches
      && x.matchedScope == Some(s.matches[MatchKey(a, x.matchedCommand.value)])
    else x.matchedCommand.None? && x.matchedScope.None?
  }

  ghost predicate AckRight(s: State, key: AckKey)
    requires key in s.acks
  {
    && key.command < |s.commands| && key.node < |s.nodes| && Targets(s, key.command, key.node)
    && s.acks[key].version == 2
    && s.commands[key.command].order.createdAt < s.acks[key].observedAt <= s.clock
  }

  ghost predicate WellAcked(s: State) {
    forall key {:trigger s.acks[key]} | key in s.acks :: AckRight(s, key)
  }

  ghost predicate WellMatched(s: State) {
    && (forall key: MatchKey {:trigger key in s.matches} :: MatchRight(s, key))
    && (forall a {:trigger s.attempts[a]} | 0 <= a < |s.attempts| :: DenialRight(s, a))
  }

  // ---------------------------------------------------------------- frames

  ghost predicate AcksGrow(s: State, t: State) {
    forall key | key in s.acks :: key in t.acks && t.acks[key] == s.acks[key]
  }

  lemma AckedFrame(s: State, t: State)
    requires WellAcked(s) && Extends(s, t) && t.acks == s.acks && s.clock <= t.clock
    ensures WellAcked(t)
  {
    forall key | key in t.acks ensures AckRight(t, key) {
      assert AckRight(s, key);
      TargetsFrame(s, t, key.command, key.node);
    }
  }

  /** No action is recorded, and a new command is later than every action. */
  lemma MatchedFrame(s: State, t: State)
    requires WellMatched(s) && Extends(s, t) && AcksGrow(s, t)
    requires t.attempts == s.attempts && t.matches == s.matches
    requires forall a {:trigger s.attempts[a]} | 0 <= a < |s.attempts| :: s.attempts[a].node < |s.nodes|
    requires |s.commands| < |t.commands| ==>
      forall a {:trigger s.attempts[a]} | 0 <= a < |s.attempts| :: s.attempts[a].attemptedAt < s.clock
    requires forall c {:trigger t.commands[c]} | |s.commands| <= c < |t.commands| ::
      t.commands[c].order.createdAt == s.clock
    ensures WellMatched(t)
  {
    forall key: MatchKey ensures MatchRight(t, key) {
      assert MatchRight(s, key);
      if key.action < |s.attempts| && key.command < |s.commands| {
        TargetsFrame(s, t, key.command, s.attempts[key.action].node);
      }
    }
    forall a | 0 <= a < |t.attempts| ensures DenialRight(t, a) {
      assert DenialRight(s, a);
    }
  }

  lemma {:induction false} RecordAcksAdds(
    acks: map<AckKey, Ack>, commands: seq<Command>, ids: seq<Id>, n: Id, kind: AckKind, now: Time, key: AckKey)
    requires forall i | 0 <= i < |ids| :: ids[i] < |commands|
    ensures var r := RecordAcks(acks, commands, ids, n, kind, now);
      && (key in r <==> key in acks || (key.node == n && key.kind == kind && key.command in ids))
      && (key in acks ==> r[key] == acks[key])
      && (key in r && key !in acks ==> key.command < |commands| && r[key] == Ack(commands[key.command].order.toVersion, now))
  {
    if ids != [] {
      RecordAcksAdds(acks, commands, ids[..|ids| - 1], n, kind, now, key);
      assert ids == ids[..|ids| - 1] + [ids[|ids| - 1]];
    }
  }

  /** Acknowledging adds exactly the commands that target the node. */
  lemma AcknowledgeAcked(s: Database, n: Id, kind: AckKind)
    requires WellTreed(s) && WellFenced(s) && WellAcked(s) && n < |s.nodes|
    requires forall c {:trigger s.commands[c]} | 0 <= c < |s.commands| :: s.commands[c].order.createdAt < s.clock
    ensures WellAcked(Acknowledge(s, n, kind)) && AcksGrow(s, Acknowledge(s, n, kind))
    ensures forall c | 0 <= c < |s.commands| && Targets(s, c, n) :: AckKey(c, n, kind) in Acknowledge(s, n, kind).acks
  {
    hide AttributedTo;
    var t := Acknowledge(s, n, kind);
    var ids := AttributedTo(s, n);
    forall key
      ensures key in t.acks <==> key in s.acks || (key.node == n && key.kind == kind && key.command in ids)
      ensures key in s.acks ==> t.acks[key] == s.acks[key]
      ensures key in t.acks ==> AckRight(t, key)
    {
      RecordAcksAdds(s.acks, s.commands, ids, n, kind, s.clock, key);
      AttributedIsTargets(s, n, key.command);
      if key in s.acks {
        assert AckRight(s, key);
        TargetsFrame(s, t, key.command, key.node);
      } else if key in t.acks {
        assert CommandFences(s, key.command);
        TargetsFrame(s, t, key.command, key.node);
      }
    }
    forall c | 0 <= c < |s.commands| && Targets(s, c, n) ensures AckKey(c, n, kind) in t.acks {
      AttributedIsTargets(s, n, c);
    }
  }

  // ---------------------------------------------------------------- acknowledging services

  /** What acknowledging relies on: the tree, the bijection, and commands of earlier transactions. */
  ghost predicate Attributable(s: State) {
    && WellTreed(s) && WellFenced(s) && WellAcked(s)
    && (forall c {:trigger s.commands[c]} | 0 <= c < |s.commands| :: s.commands[c].order.createdAt < s.clock)
  }

  /** Acknowledgements only accumulate, and everything they rely on stays. */
  ghost predicate Acknowledges(s: State, t: State) {
    Attributable(s) ==> Attributable(t) && AcksGrow(s, t)
  }

  lemma QuietAcknowledges(s: State, t: State)
    requires Quiet(s, t) && t.acks == s.acks
    ensures Acknowledges(s, t)
  {
    if Attributable(s) {
      CalmSameTree(s, t);
      TreeFrame(s, t);
      CalmFenced(s, t);
      AckedFrame(s, t);
    }
  }

  lemma AcknowledgeAcknowledges(s: Database, n: Id, kind: AckKind)
    requires n < |s.nodes|
    ensures Acknowledges(s, Acknowledge(s, n, kind))
  {
    if Attributable(s) {
      var t := Acknowledge(s, n, kind);
      AcknowledgeAcked(s, n, kind);
      AcknowledgeQuiet(s, n, kind);
      CalmSameTree(s, t);
      TreeFrame(s, t);
      CalmFenced(s, t);
    }
  }

  lemma SetLifeAcknowledges(s: Database, n: Id, life: Life)
    requires n < |s.nodes|
    ensures Acknowledges(s, SetLife(s, n, life))
  {
    SetLifeQuiet(s, n, life);
    QuietAcknowledges(s, SetLife(s, n, life));
  }

  lemma MarkAcknowledges(s: Database, n: Id)
    requires n < |s.nodes|
    ensures Acknowledges(s, MarkExpired(s, n))
  {
    hide Attributable, Acknowledge;
    SetLifeAcknowledges(s, n, s.nodes[n].life.(status := LeaseExpired));
    AcknowledgeAcknowledges(SetStatus(s, n, LeaseExpired), n, LeaseExpiredAck);
  }

  lemma DemotionAcknowledges(s: Database, n: Id, kind: AckKind, status: NodeStatus)
    requires n < |s.nodes|
    ensures Acknowledges(s, SetStatus(Acknowledge(s, n, kind), n, status))
  {
    hide Attributable, AttributedTo, RecordAcks;
    var t := Acknowledge(s, n, kind);
    AcknowledgeAcknowledges(s, n, kind);
    SetLifeAcknowledges(t, n, t.nodes[n].life.(status := status));
  }

  lemma SweepAcknowledges(s: Database, n: Id)
    requires n < |s.nodes|
    ensures Acknowledges(s, Sweep(s, n))
  {
    hide Attributable, Acknowledge, LapseReplacement, FailRun, SetLife, Quiet;
    var s1 := SetStatus(s, n, LeaseExpired);
    StatusKeepsCount(s, n, LeaseExpired);
    var s2 := LapseReplacement(s1, n);
    var s3 := FailRun(s2, n);
    SetLifeAcknowledges(s, n, s.nodes[n].life.(status := LeaseExpired));
    LapseQuiet(s1, n);
    LapseKeepsAcks(s1, n);
    QuietAcknowledges(s1, s2);
    FailRunQuiet(s2, n);
    FailRunKeepsAcks(s2, n);
    QuietAcknowledges(s2, s3);
    AcknowledgeAcknowledges(s3, n, LeaseExpiredAck);
    assert Sweep(s, n) == Acknowledge(s3, n, LeaseExpiredAck);
  }

  lemma LapseKeepsAcks(s: Database, n: Id)
    requires n < |s.nodes|
    ensures LapseReplacement(s, n).acks == s.acks
  {
  }

  lemma FailRunKeepsAcks(s: Database, n: Id)
    requires n < |s.nodes|
    ensures FailRun(s, n).acks == s.acks
  {
  }

  lemma {:induction false} MarkAllAcknowledges(s: Database, ids: seq<Id>)
    requires forall i | 0 <= i < |ids| :: ids[i] < |s.nodes|
    ensures Acknowledges(s, MarkAllExpired(s, ids))
  {
    hide Attributable, MarkExpired;
    if ids != [] {
      MarkAllAcknowledges(s, ids[..|ids| - 1]);
      MarkAcknowledges(MarkAllExpired(s, ids[..|ids| - 1]), ids[|ids| - 1]);
    }
  }

  lemma {:induction false} SweepAllAcknowledges(s: Database, ids: seq<Id>)
    requires forall i | 0 <= i < |ids| :: ids[i] < |s.nodes|
    ensures Acknowledges(s, SweepAll(s, ids))
  {
    hide Attributable, Sweep;
    if ids != [] {
      SweepAllAcknowledges(s, ids[..|ids| - 1]);
      SweepAcknowledges(SweepAll(s, ids[..|ids| - 1]), ids[|ids| - 1]);
    }
  }

  lemma HeartbeatAcknowledges(s: Database, cfg: Config, throttled: bool, n: Id, token: Token)
    ensures Acknowledges(s, Heartbeat(s, cfg, throttled, n, token).db)
  {
    hide Attributable, MarkExpired, SetStatus, SetLife, Acknowledge, EvaluationOf;
    if n < |s.nodes| {
      MarkAcknowledges(s, n);
      DemotionAcknowledges(s, n, CooperativeAck, EvaluationOf(s, n).effective);
      SetLifeAcknowledges(s, n, s.nodes[n].life.(lease := Some(s.clock + cfg.leaseTtl)));
    }
  }

  lemma CheckpointAcknowledges(s: Database, throttled: bool, n: Id, token: Token)
    ensures Acknowledges(s, Checkpoint(s, throttled, n, token).db)
  {
    hide Attributable, MarkExpired, Acknowledge, EvaluationOf, AttributedTo, RuntimeOf;
    if n < |s.nodes| {
      MarkAcknowledges(s, n);
      DemotionAcknowledges(s, n, CooperativeAck, EvaluationOf(s, n).effective);
      SetLifeAcknowledges(s, n, s.nodes[n].life.(status := Waiting));
    }
  }

  lemma FinishAcknowledges(s: Database, n: Id)
    requires n < |s.nodes| && FinishNode(s, n).Some?
    ensures Acknowledges(s, FinishNode(s, n).value)
  {
    FinishQuiet(s, n);
    QuietAcknowledges(s, FinishNode(s, n).value);
  }

  lemma CompleteAcknowledges(s: Database, throttled: bool, n: Id, token: Token)
    ensures Acknowledges(s, Complete(s, throttled, n, token).db)
  {
    hide Attributable, MarkAllExpired, EvaluationOf, DueOthers, FinishNode, BlocksCompletion, RuntimeOf, Quiet;
    if n < |s.nodes| {
      if FinishNode(s, n).Some? { FinishAcknowledges(s, n); }
      var run := s.nodes[n].reg.run;
      var t := MarkAllExpired(s, DueOthers(s, run, n, |s.nodes|));
      MarkAllAcknowledges(s, DueOthers(s, run, n, |s.nodes|));
      if run < |t.runs| && TransitionRun(t.runs[run], RunCompleted, t.clock).Some? && t.runs[run].status == RunRunning {
        var u := t.(runs := t.runs[run := TransitionRun(t.runs[run], RunCompleted, t.clock).value]);
        CloseRunQuiet(t, run, u.runs[run], RunCompleted);
        QuietAcknowledges(t, u);
        if FinishNode(u, n).Some? { FinishAcknowledges(u, n); }
      }
    }
  }

  // ---------------------------------------------------------------- the gateway

  lemma {:induction false} RecordMatchesAdds(
    matches: map<MatchKey, Mismatch>, commands: seq<Command>, ids: seq<Id>, ms: seq<Mismatch>, action: Id, key: MatchKey)
    requires forall i | 0 <= i < |ids| ::
      (ids[i] < |commands|
       && FirstMismatch(ms, commands[ids[i]].order.targetScope) == Some(ClosedBy(commands[ids[i]].order)))
    ensures var r := RecordMatches(matches, commands, ids, ms, action);
      && (key in r <==> key in matches || (key.action == action && key.command in ids))
      && (key in r ==> if key.action == action && key.command in ids
            then key.command < |commands| && r[key] == ClosedBy(commands[key.command].order)
            else key in matches && r[key] == matches[key])
  {
    if ids != [] {
      RecordMatchesAdds(matches, commands, ids[..|ids| - 1], ms, action, key);
      assert ids == ids[..|ids| - 1] + [ids[|ids| - 1]];
    }
  }

  /** A stale denial records one match and one acknowledgement for every command that targets the
      node, each with the mismatch of that command's own scope. */
  lemma StaleDenialRecords(s: Database, n: Id, request: ActionRequest, spec: ToolSpec, code: Code, key: MatchKey)
    requires Attributable(s) && n < |s.nodes| && StaleReason(code)
    ensures var t := DenyAction(s, n, request, spec, code);
      && (key in t.matches
          <==> || key in s.matches
               || (key.action == |s.attempts| && key.command < |s.commands| && Targets(s, key.command, n)))
      && (key.action == |s.attempts| && key.command < |s.commands| && Targets(s, key.command, n) ==>
            t.matches[key] == ClosedBy(s.commands[key.command].order)
            && AckKey(key.command, n, GatewayBlockAck) in t.acks)
      && (key in s.matches && key.action != |s.attempts| ==> t.matches[key] == s.matches[key])
  {
    var t := DenyAction(s, n, request, spec, code);
    var ids := AttributedTo(s, n);
    var ms := EvaluationOf(s, n).mismatches;
    forall i | 0 <= i < |ids|
      ensures FirstMismatch(ms, s.commands[ids[i]].order.targetScope) == Some(ClosedBy(s.commands[ids[i]].order))
    {
      AttributedIsTargets(s, n, ids[i]);
      OwnMismatch(s, n, ids[i]);
    }
    RecordMatchesAdds(s.matches, s.commands, ids, ms, |s.attempts|, key);
    AttributedIsTargets(s, n, key.command);
    DenialAcks(s, n, request, spec, code);
    RecordAcksAdds(s.acks, s.commands, ids, n, GatewayBlockAck, s.clock, AckKey(key.command, n, GatewayBlockAck));
  }

  lemma DenialAcks(s: Database, n: Id, request: ActionRequest, spec: ToolSpec, code: Code)
    requires n < |s.nodes| && StaleReason(code)
    ensures var t := DenyAction(s, n, request, spec, code);
      && t.acks == RecordAcks(s.acks, s.commands, AttributedTo(s, n), n, GatewayBlockAck, s.clock)
      && t.matches == RecordMatches(s.matches, s.commands, AttributedTo(s, n), EvaluationOf(s, n).mismatches, |s.attempts|)
      && t.acks == SetStatus(Acknowledge(s, n, GatewayBlockAck), n, EvaluationOf(s, n).effective).acks
  {
  }

  lemma DenyMatched(s: Database, n: Id, request: ActionRequest, spec: ToolSpec, code: Code)
    requires Attributable(s) && WellMatched(s) && n < |s.nodes|
    requires StaleReason(code) ==> !EvaluationOf(s, n).allowed
    requires forall a {:trigger s.attempts[a]} | 0 <= a < |s.attempts| :: s.attempts[a].node < |s.nodes|
    ensures WellMatched(DenyAction(s, n, request, spec, code))
  {
    hide DenyAction, Evaluate, Attributed, RecordAcks, RecordMatches, Attributable, MatchRight;
    var t := DenyAction(s, n, request, spec, code);
    DenyAppends(s, n, request, spec, code);
    forall key: MatchKey ensures MatchRight(t, key) {
      DenyMatchRight(s, n, request, spec, code, key);
    }
    forall a | 0 <= a < |t.attempts| ensures DenialRight(t, a) {
      DenyDenialRight(s, n, request, spec, code, a);
    }
  }

  lemma DenyAppends(s: Database, n: Id, request: ActionRequest, spec: ToolSpec, code: Code)
    requires n < |s.nodes|
    ensures |DenyAction(s, n, request, spec, code).attempts| == |s.attempts| + 1
    ensures Extends(s, DenyAction(s, n, request, spec, code))
  {
    hide EvaluationOf, AttributedTo, RecordAcks, RecordMatches, ReportedMismatch, LastOf;
  }

  lemma DenyMatchRight(s: Database, n: Id, request: ActionRequest, spec: ToolSpec, code: Code, key: MatchKey)
    requires Attributable(s) && WellMatched(s) && n < |s.nodes|
    requires forall a {:trigger s.attempts[a]} | 0 <= a < |s.attempts| :: s.attempts[a].node < |s.nodes|
    ensures MatchRight(DenyAction(s, n, request, spec, code), key)
  {
    hide Evaluate, Attributed, RecordAcks, RecordMatches, ReportedMismatch, Attributable, AttributedTo;
    var t := DenyAction(s, n, request, spec, code);
    assert MatchRight(s, key);
    if StaleReason(code) {
      StaleDenialRecords(s, n, request, spec, code, key);
      DenialAcks(s, n, request, spec, code);
      DemotionAcknowledges(s, n, GatewayBlockAck, EvaluationOf(s, n).effective);
    }
    if key.action == |s.attempts| {
      NewMatchRight(s, n, request, spec, code, key);
    } else if key.action < |s.attempts| && key.command < |s.commands| {
      assert t.attempts[key.action] == s.attempts[key.action];
      TargetsFrame(s, t, key.command, s.attempts[key.action].node);
      assert Blocks(t, key) == Blocks(s, key);
    }
  }

  lemma NewMatchRight(s: Database, n: Id, request: ActionRequest, spec: ToolSpec, code: Code, key: MatchKey)
    requires Attributable(s) && n < |s.nodes| && key.action == |s.attempts| && MatchRight(s, key)
    ensures MatchRight(DenyAction(s, n, request, spec, code), key)
  {
    hide Evaluate, Attributed, RecordAcks, RecordMatches, ReportedMismatch, AttributedTo;
    var t := DenyAction(s, n, request, spec, code);
    var x := t.attempts[key.action];
    assert x.node == n && x.attemptedAt == s.clock && Stale(x) == StaleReason(code);
    if StaleReason(code) { StaleDenialRecords(s, n, request, spec, code, key); }
    if key.command < |s.commands| {
      TargetsFrame(s, t, key.command, n);
      assert Blocks(t, key) == Targets(s, key.command, n);
    }
  }

  lemma DenyDenialRight(s: Database, n: Id, request: ActionRequest, spec: ToolSpec, code: Code, a: Id)
    requires Attributable(s) && WellMatched(s) && n < |s.nodes| && a <= |s.attempts|
    requires StaleReason(code) ==> !EvaluationOf(s, n).allowed
    ensures DenialRight(DenyAction(s, n, request, spec, code), a)
  {
    hide Evaluate, Attributed, RecordAcks, RecordMatches;
    var t := DenyAction(s, n, request, spec, code);
    if a < |s.attempts| {
      assert DenialRight(s, a) && t.attempts[a] == s.attempts[a];
      if Stale(s.attempts[a]) {
        var key := MatchKey(a, s.attempts[a].matchedCommand.value);
        if StaleReason(code) { StaleDenialRecords(s, n, request, spec, code, key); }
      }
    } else if StaleReason(code) {
      NewDenialRight(s, n, request, spec, code);
    }
  }

  lemma NewDenialRight(s: Database, n: Id, request: ActionRequest, spec: ToolSpec, code: Code)
    requires Attributable(s) && n < |s.nodes| && StaleReason(code) && !EvaluationOf(s, n).allowed
    ensures DenialRight(DenyAction(s, n, request, spec, code), |s.attempts|)
  {
    hide Evaluate, Attributed, RecordAcks, RecordMatches;
    OutdatedIsAttributed(s, n);
    var ids := AttributedTo(s, n);
    var c := ids[|ids| - 1];
    AttributedIsTargets(s, n, c);
    OwnMismatch(s, n, c);
    StaleDenialRecords(s, n, request, spec, code, MatchKey(|s.attempts|, c));
    var x := DenyAction(s, n, request, spec, code).attempts[|s.attempts|];
    assert x.matchedCommand == Some(c);
    assert x.matchedScope == Some(ClosedBy(s.commands[c].order));
  }

  lemma AdmitMatched(s: Database, n: Id, request: ActionRequest, spec: ToolSpec)
    requires WellMatched(s) && n < |s.nodes|
    requires forall a {:trigger s.attempts[a]} | 0 <= a < |s.attempts| :: s.attempts[a].node < |s.nodes|
    ensures WellMatched(AdmitAction(s, n, request, spec))
  {
    hide RunTool;
    AllowedMatched(s, AdmitAction(s, n, request, spec), AdmitAction(s, n, request, spec).attempts[|s.attempts|]);
  }

  /** An allowed action is matched with nothing. */
  lemma AllowedMatched(s: State, t: State, x: Attempt)
    requires WellMatched(s) && t == s.(attempts := s.attempts + [x], services := t.services)
    requires x.decision == Allow && x.matchedCommand.None? && x.matchedScope.None?
    requires forall a {:trigger s.attempts[a]} | 0 <= a < |s.attempts| :: s.attempts[a].node < |s.nodes|
    ensures WellMatched(t)
  {
    forall key: MatchKey ensures MatchRight(t, key) {
      assert MatchRight(s, key);
      if key.action < |s.attempts| && key.command < |s.commands| {
        assert t.attempts[key.action] == s.attempts[key.action];
        TargetsFrame(s, t, key.command, s.attempts[key.action].node);
      }
    }
    forall a | 0 <= a < |t.attempts| ensures DenialRight(t, a) {
      if a < |s.attempts| { assert DenialRight(s, a); }
    }
  }
}
