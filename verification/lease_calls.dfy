/** What heartbeats, checkpoints, completions and the lease scan do: their answer and the whole state
    after them, told from rows and commands and not from the services' bodies. */
module LeaseCalls {
  import opened Options
  import opened Domain
  import opened Scopes
  import opened Tools
  import opened Transitions
  import opened Frames
  import opened Tree
  import opened Fences
  import opened Revocation
  import opened Lives
  import opened Replacements
  import opened Attribution
  import opened Standing
  import opened Coherence

  // ---------------------------------------------------------------- heartbeat and checkpoint

  /** A live node's lease is renewed; a node that is not live is told why, and its loss is recorded. */
  ghost predicate HeartbeatDoes(s: Database, cfg: Config, throttled: bool, n: Id, token: Token, r: Reply) {
    && TurnsAway(s, n, token, r)
    && (Bears(s, n, token) ==>
          if throttled then r == Reply(s, Refused(RateLimited))
          else if Live(s, n) then
            r.out == HeartbeatDone
            && r.db == WithLife(s, n, s.nodes[n].life.(lease := Some(s.clock + cfg.leaseTtl)))
          else
            && r.out.HeartbeatDenied? && Barred(s, n, r.out.code)
            && match r.out.code
               case RunNotActive => r.db == s
               case NodeNotActive => r.db == s
               case LeaseIsExpired => Marks(s, r.db, {n}, LeaseExpired, LeaseExpiredAck)
               case _ => Marks(s, r.db, {n}, ClosedStatus(s, n), CooperativeAck))
  }

  lemma HeartbeatExactly(s: Database, cfg: Config, throttled: bool, n: Id, token: Token)
    requires WellTreed(s) && WellFenced(s)
    ensures HeartbeatDoes(s, cfg, throttled, n, token, Heartbeat(s, cfg, throttled, n, token))
  {
    hide EvaluationOf, Revoked, RevokedAs, ClosedStatus, Acknowledge, SetStatus, Marks, WellTreed, WellFenced;
    if Bears(s, n, token) {
      EvaluationExactly(s, n);
      if OwnBar(s, n) == Some(LeaseIsExpired) {
        MarkExactly(s, n, LeaseExpired, LeaseExpiredAck);
      } else if OwnBar(s, n).None? && Revoked(s, n) {
        MarkExactly(s, n, ClosedStatus(s, n), CooperativeAck);
        ClosingCodes(s, n, EvaluationOf(s, n).PrimaryReason().value);
      }
    }
  }

  lemma ClosingCodes(s: State, n: Id, code: Code)
    requires n < |s.nodes| && RevokedAs(s, n, code)
    ensures code == ScopeIsCancelled || code == ScopeIsSuperseded
  {
  }

  /** A live node waits; any other is told why and which command is to blame, and its loss is recorded. */
  ghost predicate CheckpointDoes(s: Database, throttled: bool, n: Id, token: Token, r: Reply) {
    && TurnsAway(s, n, token, r)
    && (Bears(s, n, token) ==>
          if throttled then r == Reply(s, Refused(RateLimited))
          else if Live(s, n) then
            r.out == CheckpointDone(true, Waiting, None, None)
            && r.db == WithLife(s, n, s.nodes[n].life.(status := Waiting))
          else
            && r.out.CheckpointDone? && !r.out.allowed && r.out.reason.Some? && Barred(s, n, r.out.reason.value)
            && Blamed(s, n, r.out.blame)
            && if r.out.reason == Some(LeaseIsExpired) then
                 r.out.effective == LeaseExpired && Marks(s, r.db, {n}, LeaseExpired, LeaseExpiredAck)
               else if Revoked(s, n) then
                 r.out.effective == ClosedStatus(s, n) && Marks(s, r.db, {n}, ClosedStatus(s, n), CooperativeAck)
               else r.out.effective == Active && r.db == s)
  }

  lemma CheckpointExactly(s: Database, throttled: bool, n: Id, token: Token)
    requires WellTreed(s) && WellFenced(s)
    ensures CheckpointDoes(s, throttled, n, token, Checkpoint(s, throttled, n, token))
  {
    hide EvaluationOf, RuntimeOf, AttributedTo, Revoked, Live, Barred, Blamed, ClosedStatus, Acknowledge, Marks;
    if Bears(s, n, token) {
      RuntimeExactly(s, n);
      EvaluationExactly(s, n);
      BlameExactly(s, n);
      MarkExactly(s, n, LeaseExpired, LeaseExpiredAck);
      MarkExactly(s, n, ClosedStatus(s, n), CooperativeAck);
    }
  }

  // ---------------------------------------------------------------- marking several nodes

  lemma QuietStructure(s: State, t: State)
    requires WellTreed(s) && WellFenced(s) && Quiet(s, t)
    ensures WellTreed(t) && WellFenced(t) && Extends(s, t)
  {
    hide NodeLinked, ScopeFenced, CommandFences;
    CalmSameTree(s, t);
    TreeFrame(s, t);
    CalmFenced(s, t);
  }

  lemma NobodyMarked(s: State, status: NodeStatus, kind: AckKind)
    ensures Marks(s, s, {}, status, kind)
  {
  }

  lemma AcksCompose(s: State, t: State, acks: map<AckKey, Ack>, ids: set<Id>, n: Id, kind: AckKind)
    requires Extends(s, t) && |t.nodes| == |s.nodes| && |t.commands| == |s.commands| && t.clock == s.clock && n < |s.nodes|
    requires (forall m | m in ids :: m < |s.nodes|) && AcksAdded(s, t.acks, ids, kind) && AcksAdded(t, acks, {n}, kind)
    ensures AcksAdded(s, acks, ids + {n}, kind)
  {
    hide Targets;
    forall key: AckKey
      ensures key in acks <==>
        || key in s.acks
        || (key.kind == kind && key.node in ids + {n} && key.command < |s.commands| && Targets(s, key.command, key.node))
    {
      assert key in t.acks <==>
        || key in s.acks
        || (key.kind == kind && key.node in ids && key.command < |s.commands| && Targets(s, key.command, key.node));
      if key.command < |s.commands| && key.node < |s.nodes| { TargetsFrame(s, t, key.command, key.node); }
    }
    forall key | key in acks ensures acks[key] == if key in s.acks then s.acks[key] else Ack(2, s.clock) {
      assert key in t.acks ==> t.acks[key] == if key in s.acks then s.acks[key] else Ack(2, s.clock);
    }
  }

  lemma MarksCompose(s: State, t: State, u: State, ids: set<Id>, n: Id, status: NodeStatus, kind: AckKind)
    requires Extends(s, t) && Marks(s, t, ids, status, kind) && Marks(t, u, {n}, status, kind)
    ensures Marks(s, u, ids + {n}, status, kind)
  {
    hide AcksAdded;
    AcksCompose(s, t, u.acks, ids, n, kind);
    forall m | 0 <= m < |s.nodes|
      ensures u.nodes[m] == if m in ids + {n} then s.nodes[m].(life := s.nodes[m].life.(status := status)) else s.nodes[m]
    {
      assert t.nodes[m] == if m in ids then s.nodes[m].(life := s.nodes[m].life.(status := status)) else s.nodes[m];
    }
  }

  lemma {:induction false} MarkAllExactly(s: Database, ids: seq<Id>)
    requires WellTreed(s) && WellFenced(s) && forall i | 0 <= i < |ids| :: ids[i] < |s.nodes|
    ensures Marks(s, MarkAllExpired(s, ids), Among(ids), LeaseExpired, LeaseExpiredAck)
  {
    hide Marks, Quiet, WellTreed, WellFenced, Extends, MarkExpired;
    if ids == [] {
      NobodyMarked(s, LeaseExpired, LeaseExpiredAck);
      assert Among(ids) == {};
    } else {
      var older, last := ids[..|ids| - 1], ids[|ids| - 1];
      var t := MarkAllExpired(s, older);
      MarkAllExactly(s, older);
      MarkAllQuiet(s, older);
      QuietStructure(s, t);
      MarkExpiredExactly(t, last);
      MarksCompose(s, t, MarkExpired(t, last), Among(older), last, LeaseExpired, LeaseExpiredAck);
      assert ids == older + [last];
      assert Among(ids) == Among(older) + {last};
    }
  }

  lemma MarkExpiredExactly(s: Database, n: Id)
    requires WellTreed(s) && WellFenced(s) && n < |s.nodes|
    ensures Marks(s, MarkExpired(s, n), {n}, LeaseExpired, LeaseExpiredAck)
  {
    hide Marks;
    MarkExactly(s, n, LeaseExpired, LeaseExpiredAck);
  }

  // ---------------------------------------------------------------- completion

  predicate Open(status: NodeStatus) { status == Pending || status == Active || status == Waiting }

  /** The lease of a working node, or the intent of a pending one, has run out. */
  predicate Lapsed(s: State, n: Id)
    requires n < |s.nodes|
  {
    var life := s.nodes[n].life;
    if life.status == Pending then n !in s.intents || (s.intents[n].consumedAt.None? && s.intents[n].expiresAt <= s.clock)
    else life.lease.None? || life.lease.value <= s.clock
  }

  /** The open nodes of a run besides its root that have lapsed. */
  ghost function WrittenOff(s: State, run: Id, root: Id): set<Id> {
    set n | 0 <= n < |s.nodes| && s.nodes[n].reg.run == run && n != root && Open(s.nodes[n].life.status) && Lapsed(s, n)
  }

  /** An open node of the run that has not lapsed and that no command targets. */
  ghost predicate HoldsUp(s: State, run: Id, root: Id, n: Id)
    requires n < |s.nodes|
  {
    s.nodes[n].reg.run == run && n != root && Open(s.nodes[n].life.status) && !Lapsed(s, n) && !Revoked(s, n)
  }

  /** The node is completed now. */
  function CompletedLife(life: Life, now: Time): Life { life.(status := Completed, completedAt := Some(now)) }

  /** A worker completes, and with it the correction that caused it. A root completes with its run, and
      the other open nodes are written off, unless one of them holds the run up. */
  ghost predicate CompleteDoes(s: Database, throttled: bool, n: Id, token: Token, r: Reply) {
    && TurnsAway(s, n, token, r)
    && (Bears(s, n, token) ==>
          if throttled then r == Reply(s, Refused(RateLimited))
          else if !Live(s, n) then r.db == s && r.out.Refused? && Barred(s, n, r.out.code)
          else if s.runs[s.nodes[n].reg.run].root != n then r.out == Finished && WorkerCompletes(s, r.db, n)
          else if exists m | 0 <= m < |s.nodes| :: HoldsUp(s, s.nodes[n].reg.run, n, m) then
            r == Reply(s, Refused(RunHasLiveNodes))
          else r.out == Finished && RunCompletes(s, r.db, n))
  }

  ghost predicate WorkerCompletes(s: Database, t: State, n: Id)
    requires n < |s.nodes|
  {
    var done := WithLife(s, n, CompletedLife(s.nodes[n].life, s.clock));
    match s.nodes[n].reg.causedBy
    case None => t == done
    case Some(c) =>
      c < |s.commands|
      && t == done.(commands := s.commands[c := s.commands[c].(replacementStatus := Some(ReplacementCompleted))])
  }

  ghost predicate RunCompletes(s: Database, t: State, root: Id)
    requires root < |s.nodes|
  {
    var run := s.nodes[root].reg.run;
    && |t.nodes| == |s.nodes|
    && t.nodes[root] == s.nodes[root].(life := CompletedLife(s.nodes[root].life, s.clock))
    && t.runs == s.runs[run := s.runs[run].(status := RunCompleted, finishedAt := Some(s.clock))]
    && Marks(s, t.(runs := s.runs, nodes := t.nodes[root := s.nodes[root]]), WrittenOff(s, run, root),
             LeaseExpired, LeaseExpiredAck)
  }

  lemma {:induction false} DueExactly(s: Database, run: Id, root: Id, upto: nat, n: Id)
    requires upto <= |s.nodes|
    ensures n in DueOthers(s, run, root, upto) <==> n < upto && n in WrittenOff(s, run, root)
  {
    if upto > 0 {
      DueExactly(s, run, root, upto - 1, n);
    }
  }

  lemma BlocksExactly(s: Database, run: Id, root: Id, n: Id)
    requires WellTreed(s) && WellFenced(s) && n < |s.nodes|
    ensures BlocksCompletion(s, run, root, n) <==> HoldsUp(s, run, root, n)
  {
    hide EvaluationOf, Revoked;
    EvaluationExactly(s, n);
  }

  lemma WorkerFinishes(s: Database, n: Id)
    requires WellReplaced(s) && Lived(s) && n < |s.nodes| && s.nodes[n].life.token.Some?
    requires Working(s.nodes[n].life.status)
    ensures FinishNode(s, n).Some? && WorkerCompletes(s, FinishNode(s, n).value, n)
  {
    var cause := s.nodes[n].reg.causedBy;
    assert NodeReplaces(s, n) && LifeShape(s.nodes[n].life);
    assert cause.Some? ==> CommandReplaces(s, cause.value);
  }

  lemma RootFinishesExactly(s: Database, n: Id)
    requires WellTreed(s) && WellFenced(s) && n < |s.nodes| && Live(s, n) && s.runs[s.nodes[n].reg.run].root == n
    ensures var run := s.nodes[n].reg.run;
      var r := FinishRoot(s, MarkAllExpired(s, DueOthers(s, run, n, |s.nodes|)), run, n);
      r.out == Finished && RunCompletes(s, r.db, n)
  {
    hide Revoked, DueOthers, MarkAllExpired, AcksAdded, Lapsed, Open;
    var run := s.nodes[n].reg.run;
    var ids := DueOthers(s, run, n, |s.nodes|);
    assert NodeLinked(s, n);
    forall m: Id ensures m in ids <==> m in WrittenOff(s, run, n) {
      DueExactly(s, run, n, |s.nodes|, m);
    }
    assert Among(ids) == WrittenOff(s, run, n);
    MarkAllExactly(s, ids);
    var t := MarkAllExpired(s, ids);
    var u := FinishRoot(s, t, run, n).db;
    assert u.nodes[n := s.nodes[n]] == t.nodes;
  }

  lemma CompleteExactly(s: Database, throttled: bool, n: Id, token: Token)
    requires Coherent(s)
    ensures CompleteDoes(s, throttled, n, token, Complete(s, throttled, n, token))
  {
    hide Coherent, RuntimeOf, BlocksCompletion, HoldsUp, Barred, Revoked, DueOthers, MarkAllExpired, FinishNode, FinishRoot,
         WorkerCompletes, RunCompletes;
    if Bears(s, n, token) {
      RowsFor(s);
      RuntimeExactly(s, n);
      forall m | 0 <= m < |s.nodes|
        ensures BlocksCompletion(s, s.nodes[n].reg.run, n, m) <==> HoldsUp(s, s.nodes[n].reg.run, n, m)
      {
        BlocksExactly(s, s.nodes[n].reg.run, n, m);
      }
      if Live(s, n) {
        if s.runs[s.nodes[n].reg.run].root == n { RootFinishesExactly(s, n); }
        else { WorkerFinishes(s, n); }
      }
    }
  }

  lemma RowsFor(s: State)
    requires Coherent(s)
    ensures WellTreed(s) && WellFenced(s) && Lived(s) && WellReplaced(s)
  {
  }

  // ---------------------------------------------------------------- the lease scan

  /** The lease of a working node, or the unspent intent of a pending one, is in the past. */
  predicate Overran(s: State, n: Id)
    requires n < |s.nodes|
  {
    var life := s.nodes[n].life;
    || ((life.status == Active || life.status == Waiting) && life.lease.Some? && life.lease.value < s.clock)
    || (life.status == Pending && n in s.intents && s.intents[n].consumedAt.None? && s.intents[n].expiresAt < s.clock)
  }

  ghost function Overrunning(s: State, scan: Option<Id>): set<Id> {
    set n | 0 <= n < |s.nodes| && (scan.None? || s.nodes[n].reg.run == scan.value) && Overran(s, n)
  }

  /** These nodes expire and acknowledge their commands; a running run fails with its root; a correction
      whose designated attempt had not been activated lapses with it; and nothing else changes. */
  ghost predicate Sweeps(s: State, t: State, ids: set<Id>) {
    && Marks(s, t.(runs := s.runs, commands := s.commands), ids, LeaseExpired, LeaseExpiredAck)
    && |t.runs| == |s.runs| && |t.commands| == |s.commands|
    && (forall r {:trigger t.runs[r]} | 0 <= r < |s.runs| ::
          t.runs[r] == if s.runs[r].status == RunRunning && s.runs[r].root in ids
                       then s.runs[r].(status := RunFailed, finishedAt := Some(s.clock)) else s.runs[r])
    && (forall c {:trigger t.commands[c]} | 0 <= c < |s.commands| ::
          t.commands[c] == if Lapses(s.commands[c], ids)
                           then s.commands[c].(replacementStatus := Some(ActivationExpired)) else s.commands[c])
  }

  predicate Lapses(command: Command, ids: set<Id>) {
    command.replacementStatus == Some(ReplacementPending) && command.replacementNode.Some?
    && command.replacementNode.value in ids
  }

  /** A scan sweeps exactly the nodes of its runs that overran, and answers with their number. */
  ghost predicate ExpireDoes(s: Database, scan: Option<Id>, r: Reply) {
    r.out == Swept(|Overrunning(s, scan)|) && Sweeps(s, r.db, Overrunning(s, scan))
  }

  lemma SweepExactly(s: Database, n: Id)
    requires WellTreed(s) && WellFenced(s) && WellReplaced(s) && n < |s.nodes|
    ensures Sweeps(s, Sweep(s, n), {n})
  {
    hide Acknowledge, Marks;
    var t := Sweep(s, n);
    SweepCommands(s, n);
    SweepRuns(s, n);
    SweepMarks(s, n);
  }

  lemma SweepCommands(s: Database, n: Id)
    requires WellReplaced(s) && n < |s.nodes|
    ensures var t := Sweep(s, n);
      |t.commands| == |s.commands|
      && forall c {:trigger t.commands[c]} | 0 <= c < |s.commands| ::
           t.commands[c] == if Lapses(s.commands[c], {n})
                            then s.commands[c].(replacementStatus := Some(ActivationExpired)) else s.commands[c]
  {
    hide EvaluationOf, RecordAcks, TransitionRun;
    var t := Sweep(s, n);
    assert NodeReplaces(s, n);
    forall c | 0 <= c < |s.commands|
      ensures t.commands[c] == if Lapses(s.commands[c], {n})
                               then s.commands[c].(replacementStatus := Some(ActivationExpired)) else s.commands[c]
    {
      assert CommandReplaces(s, c);
    }
  }

  lemma SweepRuns(s: Database, n: Id)
    requires WellTreed(s) && n < |s.nodes|
    ensures var t := Sweep(s, n);
      |t.runs| == |s.runs|
      && forall r {:trigger t.runs[r]} | 0 <= r < |s.runs| ::
           t.runs[r] == if s.runs[r].status == RunRunning && s.runs[r].root == n
                        then s.runs[r].(status := RunFailed, finishedAt := Some(s.clock)) else s.runs[r]
  {
    hide EvaluationOf, RecordAcks;
    var t := Sweep(s, n);
    forall r | 0 <= r < |s.runs|
      ensures t.runs[r] == if s.runs[r].status == RunRunning && s.runs[r].root == n
                           then s.runs[r].(status := RunFailed, finishedAt := Some(s.clock)) else s.runs[r]
    {
      assert RunRooted(s, r);
    }
  }

  lemma SweepMarks(s: Database, n: Id)
    requires WellTreed(s) && WellFenced(s) && n < |s.nodes|
    ensures Marks(s, Sweep(s, n).(runs := s.runs, commands := s.commands), {n}, LeaseExpired, LeaseExpiredAck)
  {
    hide Acknowledge, LapseReplacement, FailRun, Quiet, WellTreed, WellFenced, AcksAdded;
    var s1 := SetStatus(s, n, LeaseExpired);
    var s2 := LapseReplacement(s1, n);
    var s3 := FailRun(s2, n);
    SetStatusQuiet(s, n, LeaseExpired);
    LapseQuiet(s1, n);
    FailRunQuiet(s2, n);
    QuietTrans(s, s1, s2);
    QuietTrans(s, s2, s3);
    QuietStructure(s, s3);
    AcknowledgesExactly(s3, n, LeaseExpiredAck);
    OnlyRunsAndCommands(s1, n);
    AcksSameTargets(s, s3, Acknowledge(s3, n, LeaseExpiredAck).acks, n);
  }

  lemma OnlyRunsAndCommands(s: Database, n: Id)
    requires n < |s.nodes|
    ensures LapseReplacement(s, n) == s.(commands := LapseReplacement(s, n).commands)
    ensures |LapseReplacement(s, n).commands| == |s.commands|
    ensures n < |LapseReplacement(s, n).nodes|
    ensures var t := LapseReplacement(s, n); FailRun(t, n) == t.(runs := FailRun(t, n).runs)
  {
  }

  lemma AcksSameTargets(s: State, t: State, acks: map<AckKey, Ack>, n: Id)
    requires Extends(s, t) && |t.commands| == |s.commands| && |t.nodes| == |s.nodes| && n < |s.nodes|
    requires t.acks == s.acks && t.clock == s.clock && AcksAdded(t, acks, {n}, LeaseExpiredAck)
    ensures AcksAdded(s, acks, {n}, LeaseExpiredAck)
  {
    hide Targets;
    forall c | 0 <= c < |s.commands| ensures Targets(t, c, n) <==> Targets(s, c, n) {
      TargetsFrame(s, t, c, n);
    }
  }

  lemma SweepsCompose(s: State, t: State, u: State, ids: set<Id>, n: Id)
    requires Extends(s, t) && Sweeps(s, t, ids) && Sweeps(t, u, {n})
    ensures Sweeps(s, u, ids + {n})
  {
    hide Marks;
    var t', u' := t.(runs := s.runs, commands := s.commands), u.(runs := s.runs, commands := s.commands);
    assert Marks(t', u', {n}, LeaseExpired, LeaseExpiredAck) by {
      MarksElsewhere(t, u.(runs := t.runs, commands := t.commands), s, n);
    }
    assert Extends(s, t') by { SameRegistrations(s, t); }
    MarksCompose(s, t', u', ids, n, LeaseExpired, LeaseExpiredAck);
    forall r | 0 <= r < |s.runs|
      ensures u.runs[r] == if s.runs[r].status == RunRunning && s.runs[r].root in ids + {n}
                           then s.runs[r].(status := RunFailed, finishedAt := Some(s.clock)) else s.runs[r]
    {
      var run := t.runs[r];
      assert t.clock == s.clock by { MarksClock(s, t', ids); }
    }
    forall c | 0 <= c < |s.commands|
      ensures u.commands[c] == if Lapses(s.commands[c], ids + {n})
                               then s.commands[c].(replacementStatus := Some(ActivationExpired)) else s.commands[c]
    {
      var command := t.commands[c];
    }
  }

  lemma MarksClock(s: State, t: State, ids: set<Id>)
    requires Marks(s, t, ids, LeaseExpired, LeaseExpiredAck)
    ensures t.clock == s.clock
  {
  }

  lemma SameRegistrations(s: State, t: State)
    requires Extends(s, t)
    ensures Extends(s, t.(runs := s.runs, commands := s.commands))
  {
  }

  /** Marking looks at no run and at no column of a command that ever changes. */
  lemma MarksElsewhere(t: State, u: State, s: State, n: Id)
    requires Marks(t, u, {n}, LeaseExpired, LeaseExpiredAck)
    requires Extends(s, t) && |s.commands| == |t.commands|
    ensures Marks(t.(runs := s.runs, commands := s.commands), u.(runs := s.runs, commands := s.commands), {n},
                  LeaseExpired, LeaseExpiredAck)
  {
    hide Targets;
    var t' := t.(runs := s.runs, commands := s.commands);
    forall c | 0 <= c < |s.commands| ensures Targets(t', c, n) <==> Targets(t, c, n) {
      TargetsFrame(t', t, c, n);
    }
  }

  lemma {:induction false} SweepAllExactly(s: Database, ids: seq<Id>)
    requires WellTreed(s) && WellFenced(s) && WellReplaced(s) && Lived(s) && forall i | 0 <= i < |ids| :: ids[i] < |s.nodes|
    ensures Sweeps(s, SweepAll(s, ids), Among(ids))
  {
    hide Sweeps, Quiet, WellTreed, WellFenced, WellReplaced, Lived, Extends, Sweep;
    if ids == [] {
      NobodySwept(s);
      assert Among(ids) == {};
    } else {
      var older, last := ids[..|ids| - 1], ids[|ids| - 1];
      var t := SweepAll(s, older);
      SweepAllExactly(s, older);
      SweepAllQuiet(s, older);
      QuietStructure(s, t);
      SweepAllReplaced(s, older);
      SweepExactly(t, last);
      SweepsCompose(s, t, Sweep(t, last), Among(older), last);
      assert ids == older + [last];
      assert Among(ids) == Among(older) + {last};
    }
  }

  lemma NobodySwept(s: State)
    ensures Sweeps(s, s, {})
  {
  }

  predicate Increasing(ids: seq<Id>) { forall i, j | 0 <= i < j < |ids| :: ids[i] < ids[j] }

  lemma {:induction false} LeasesListed(s: Database, scan: Option<Id>, upto: nat, n: Id)
    requires upto <= |s.nodes|
    ensures n in StaleLeases(s, scan, upto) <==>
      n < upto && InScan(s, n, scan) && Overran(s, n) && s.nodes[n].life.status != Pending
    ensures Increasing(StaleLeases(s, scan, upto))
    ensures forall i | 0 <= i < |StaleLeases(s, scan, upto)| :: StaleLeases(s, scan, upto)[i] < upto
  {
    if upto > 0 {
      LeasesListed(s, scan, upto - 1, n);
    }
  }

  lemma {:induction false} IntentsListed(s: Database, scan: Option<Id>, upto: nat, n: Id)
    requires upto <= |s.nodes|
    ensures n in StaleIntents(s, scan, upto) <==>
      n < upto && InScan(s, n, scan) && Overran(s, n) && s.nodes[n].life.status == Pending
    ensures Increasing(StaleIntents(s, scan, upto))
    ensures forall i | 0 <= i < |StaleIntents(s, scan, upto)| :: StaleIntents(s, scan, upto)[i] < upto
  {
    if upto > 0 {
      IntentsListed(s, scan, upto - 1, n);
    }
  }

  /** A list without repetition is as long as the set of its members is large. */
  lemma {:induction false} AmongSize(ids: seq<Id>)
    requires forall i, j | 0 <= i < j < |ids| :: ids[i] != ids[j]
    ensures |Among(ids)| == |ids|
  {
    if ids == [] {
      assert Among(ids) == {};
    } else {
      var older, last := ids[..|ids| - 1], ids[|ids| - 1];
      AmongSize(older);
      assert ids == older + [last] && last !in older;
      assert Among(ids) == Among(older) + {last};
    }
  }

  lemma StaleExactly(s: Database, scan: Option<Id>)
    ensures Among(StaleNodes(s, scan)) == Overrunning(s, scan) && |StaleNodes(s, scan)| == |Overrunning(s, scan)|
  {
    var a, b := StaleLeases(s, scan, |s.nodes|), StaleIntents(s, scan, |s.nodes|);
    forall n: Id
      ensures n in a <==> n < |s.nodes| && InScan(s, n, scan) && Overran(s, n) && s.nodes[n].life.status != Pending
      ensures n in b <==> n < |s.nodes| && InScan(s, n, scan) && Overran(s, n) && s.nodes[n].life.status == Pending
    {
      LeasesListed(s, scan, |s.nodes|, n);
      IntentsListed(s, scan, |s.nodes|, n);
    }
    LeasesListed(s, scan, |s.nodes|, 0);
    IntentsListed(s, scan, |s.nodes|, 0);
    hide Overran, StaleLeases, StaleIntents;
    var ids := StaleNodes(s, scan);
    forall i, j | 0 <= i < j < |ids| ensures ids[i] != ids[j] {
      if i < |a| <= j { assert ids[i] in a && ids[j] in b; }
    }
    AmongSize(ids);
    assert forall n: Id :: n in ids <==> n in a || n in b;
  }

  lemma ExpireExactly(s: Database, scan: Option<Id>)
    requires Coherent(s)
    ensures ExpireDoes(s, scan, ExpireStale(s, scan))
  {
    hide Coherent, Sweeps, StaleNodes, SweepAll, Overrunning;
    RowsFor(s);
    StaleExactly(s, scan);
    SweepAllExactly(s, StaleNodes(s, scan));
  }
}
