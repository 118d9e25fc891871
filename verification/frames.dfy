/** What a step may change: the frame conditions that the invariants are proved over. */
module Frames {
  import opened Options
  import opened Domain
  import opened Scopes
  import opened Tools
  import opened Transitions

  /** Registrations, scopes and commands stay; a running run may complete or fail. */
  ghost predicate Calm(s: State, t: State) {
    && t.clock == s.clock
    && |t.runs| == |s.runs|
    && (forall r {:trigger t.runs[r]} | 0 <= r < |s.runs| :: RunKept(s.runs[r], t.runs[r], s.clock))
    && |t.nodes| == |s.nodes|
    && (forall n {:trigger t.nodes[n]} | 0 <= n < |s.nodes| :: t.nodes[n].reg == s.nodes[n].reg)
    && t.scopes == s.scopes
    && |t.commands| == |s.commands|
    && (forall c {:trigger t.commands[c]} | 0 <= c < |s.commands| ::
          t.commands[c].order == s.commands[c].order && t.commands[c].replacementNode == s.commands[c].replacementNode)
  }

  /** Calm, and no action, service row or proposal changes either. */
  ghost predicate Quiet(s: State, t: State) {
    && Calm(s, t) && t.attempts == s.attempts && t.matches == s.matches
    && t.services == s.services && t.proposals == s.proposals
  }

  /** A run stays as it is, or it is closed now. */
  predicate RunKept(a: Run, b: Run, now: Time) {
    a == b || (a.status == RunRunning && b == a.(status := b.status, finishedAt := Some(now))
               && (b.status == RunCompleted || b.status == RunFailed))
  }

  lemma QuietTrans(s: State, t: State, u: State)
    requires Quiet(s, t) && Quiet(t, u)
    ensures Quiet(s, u)
  {
    forall r | 0 <= r < |s.runs| ensures RunKept(s.runs[r], u.runs[r], s.clock) {
      assert RunKept(s.runs[r], t.runs[r], s.clock) && RunKept(t.runs[r], u.runs[r], s.clock);
    }
    forall n | 0 <= n < |s.nodes| ensures u.nodes[n].reg == s.nodes[n].reg {
      assert t.nodes[n].reg == s.nodes[n].reg;
    }
    forall c | 0 <= c < |s.commands|
      ensures u.commands[c].order == s.commands[c].order
      ensures u.commands[c].replacementNode == s.commands[c].replacementNode
    {
      assert t.commands[c].order == s.commands[c].order;
    }
  }

  lemma QuietRefl(s: State)
    ensures Quiet(s, s)
  {
  }

  lemma SetLifeQuiet(s: Database, n: Id, life: Life)
    requires n < |s.nodes|
    ensures Quiet(s, SetLife(s, n, life))
  {
  }

  lemma SetStatusQuiet(s: Database, n: Id, status: NodeStatus)
    requires n < |s.nodes|
    ensures Quiet(s, SetStatus(s, n, status))
  {
  }

  lemma AcknowledgeQuiet(s: Database, n: Id, kind: AckKind)
    requires n < |s.nodes|
    ensures Quiet(s, Acknowledge(s, n, kind))
  {
  }

  lemma SetReplacementStatusQuiet(s: Database, c: Id, status: ReplacementStatus)
    requires c < |s.commands|
    ensures Quiet(s, SetReplacementStatus(s, c, status))
  {
  }

  lemma CloseRunQuiet(s: Database, r: Id, run: Run, target: RunStatus)
    requires r < |s.runs| && s.runs[r].status == RunRunning && (target == RunCompleted || target == RunFailed)
    requires TransitionRun(s.runs[r], target, s.clock) == Some(run)
    ensures Quiet(s, s.(runs := s.runs[r := run]))
  {
  }

  lemma MarkExpiredQuiet(s: Database, n: Id)
    requires n < |s.nodes|
    ensures Quiet(s, MarkExpired(s, n))
  {
    var t := SetStatus(s, n, LeaseExpired);
    SetLifeQuiet(s, n, s.nodes[n].life.(status := LeaseExpired));
    AcknowledgeQuiet(t, n, LeaseExpiredAck);
    QuietTrans(s, t, MarkExpired(s, n));
  }

  /** The denial of a heartbeat or a checkpoint: acknowledge, then take the effective status. */
  lemma AcknowledgedStatusQuiet(s: Database, n: Id, kind: AckKind, status: NodeStatus)
    requires n < |s.nodes|
    ensures Quiet(s, SetStatus(Acknowledge(s, n, kind), n, status))
  {
    var t := Acknowledge(s, n, kind);
    AcknowledgeQuiet(s, n, kind);
    SetLifeQuiet(t, n, t.nodes[n].life.(status := status));
    QuietTrans(s, t, SetStatus(t, n, status));
  }

  lemma LapseQuiet(s: Database, n: Id)
    requires n < |s.nodes|
    ensures Quiet(s, LapseReplacement(s, n))
  {
    QuietRefl(s);
    var cause := s.nodes[n].reg.causedBy;
    if cause.Some? && cause.value < |s.commands| { SetReplacementStatusQuiet(s, cause.value, ActivationExpired); }
  }

  lemma FailRunQuiet(s: Database, n: Id)
    requires n < |s.nodes|
    ensures Quiet(s, FailRun(s, n))
  {
    QuietRefl(s);
    var run := s.nodes[n].reg.run;
    if s.runs[run].status == RunRunning {
      CloseRunQuiet(s, run, TransitionRun(s.runs[run], RunFailed, s.clock).value, RunFailed);
    }
  }

  lemma SweepQuiet(s: Database, n: Id)
    requires n < |s.nodes|
    ensures Quiet(s, Sweep(s, n))
  {
    hide Quiet, Acknowledge, LapseReplacement, FailRun, SetLife;
    var s1 := SetStatus(s, n, LeaseExpired);
    assert n < |s1.nodes| by { StatusKeepsCount(s, n, LeaseExpired); }
    var s2 := LapseReplacement(s1, n);
    var s3 := FailRun(s2, n);
    SetLifeQuiet(s, n, s.nodes[n].life.(status := LeaseExpired));
    LapseQuiet(s1, n);
    FailRunQuiet(s2, n);
    AcknowledgeQuiet(s3, n, LeaseExpiredAck);
    QuietTrans(s, s1, s2);
    QuietTrans(s, s2, s3);
    QuietTrans(s, s3, Sweep(s, n));
  }

  lemma StatusKeepsCount(s: Database, n: Id, status: NodeStatus)
    requires n < |s.nodes|
    ensures |SetStatus(s, n, status).nodes| == |s.nodes|
  {
  }

  lemma {:induction false} SweepAllQuiet(s: Database, ids: seq<Id>)
    requires forall i | 0 <= i < |ids| :: ids[i] < |s.nodes|
    ensures Quiet(s, SweepAll(s, ids))
  {
    QuietRefl(s);
    if ids != [] {
      var t := SweepAll(s, ids[..|ids| - 1]);
      SweepAllQuiet(s, ids[..|ids| - 1]);
      SweepQuiet(t, ids[|ids| - 1]);
      QuietTrans(s, t, SweepAll(s, ids));
    }
  }

  lemma {:induction false} MarkAllQuiet(s: Database, ids: seq<Id>)
    requires forall i | 0 <= i < |ids| :: ids[i] < |s.nodes|
    ensures Quiet(s, MarkAllExpired(s, ids))
    ensures MarkAllExpired(s, ids).runs == s.runs && MarkAllExpired(s, ids).commands == s.commands
  {
    QuietRefl(s);
    if ids != [] {
      var t := MarkAllExpired(s, ids[..|ids| - 1]);
      MarkAllQuiet(s, ids[..|ids| - 1]);
      MarkExpiredQuiet(t, ids[|ids| - 1]);
      QuietTrans(s, t, MarkAllExpired(s, ids));
    }
  }

  lemma RecoverSpawnQuiet(s: Database, cfg: Config, key: EnvelopeKey)
    requires key in s.envelopes
    ensures Quiet(s, RecoverSpawn(s, cfg, key).db)
  {
  }

  lemma RecoverActivationQuiet(s: Database, cfg: Config, n: Id, key: EnvelopeKey)
    requires n < |s.nodes| && key in s.envelopes
    ensures Quiet(s, RecoverActivation(s, cfg, n, key).db)
  {
    var life := s.nodes[n].life.(token := Some(s.nextToken));
    SetLifeQuiet(s, n, life);
  }

  lemma ConsumeQuiet(s: Database, cfg: Config, n: Id)
    requires n < |s.nodes| && n in s.intents
    requires s.nodes[n].reg.causedBy.Some? ==> s.nodes[n].reg.causedBy.value < |s.commands|
    ensures Quiet(s, Consume(s, cfg, n))
  {
  }

  lemma SealQuiet(
    s: Database, t: Database, cfg: Config, op: RecoveryOp, caller: Id, k: Option<string>, subject: Id,
    request: Digest<RecoveryPayload>, response: Response)
    requires Quiet(s, t) && caller < |t.nodes|
    ensures Quiet(s, SealedIfKeyed(t, cfg, op, caller, k, subject, request, response))
  {
  }

  lemma ActivateQuiet(s: Database, cfg: Config, throttled: bool, n: Id, request: ActivateRequest)
    ensures Quiet(s, Activate(s, cfg, throttled, n, request).db)
  {
    hide Quiet, RecoverActivation, EvaluationOf, ActivationAnswer, Consume, SealedIfKeyed;
    QuietRefl(s);
    if n < |s.nodes| && n in s.intents {
      var key := EnvelopeKey(ActivationOp, n, if request.operationKey.Some? then request.operationKey.value else "");
      if key in s.envelopes { RecoverActivationQuiet(s, cfg, n, key); }
      if s.nodes[n].reg.causedBy.Some? ==> s.nodes[n].reg.causedBy.value < |s.commands| {
        ConsumeQuiet(s, cfg, n);
        SealQuiet(s, Consume(s, cfg, n), cfg, ActivationOp, n, request.operationKey, n,
                  Digest(ActivatePayload(request.activationToken, request.processId)),
                  ActivationAnswer(s, n, s.nextToken, s.clock + cfg.leaseTtl));
      }
    }
  }

  lemma HeartbeatQuiet(s: Database, cfg: Config, throttled: bool, n: Id, token: Token)
    ensures Quiet(s, Heartbeat(s, cfg, throttled, n, token).db)
  {
    hide Quiet, MarkExpired, SetStatus, SetLife, Acknowledge, EvaluationOf;
    QuietRefl(s);
    if n < |s.nodes| {
      MarkExpiredQuiet(s, n);
      AcknowledgedStatusQuiet(s, n, CooperativeAck, EvaluationOf(s, n).effective);
      SetLifeQuiet(s, n, s.nodes[n].life.(lease := Some(s.clock + cfg.leaseTtl)));
    }
  }

  lemma CheckpointQuiet(s: Database, throttled: bool, n: Id, token: Token)
    ensures Quiet(s, Checkpoint(s, throttled, n, token).db)
  {
    hide Quiet, MarkExpired, SetStatus, SetLife, Acknowledge, EvaluationOf, AttributedTo, RuntimeOf;
    QuietRefl(s);
    if n < |s.nodes| {
      MarkExpiredQuiet(s, n);
      AcknowledgedStatusQuiet(s, n, CooperativeAck, EvaluationOf(s, n).effective);
      SetStatusQuiet(s, n, Waiting);
    }
  }

  lemma FinishQuiet(s: Database, n: Id)
    requires n < |s.nodes|
    ensures FinishNode(s, n).Some? ==> Quiet(s, FinishNode(s, n).value)
  {
  }

  lemma CompleteQuiet(s: Database, throttled: bool, n: Id, token: Token)
    ensures Quiet(s, Complete(s, throttled, n, token).db)
  {
    hide Quiet, MarkAllExpired, EvaluationOf, DueOthers, FinishNode, FinishRoot, RuntimeOf, BlocksCompletion;
    QuietRefl(s);
    if n < |s.nodes| {
      FinishQuiet(s, n);
      var run := s.nodes[n].reg.run;
      var t := MarkAllExpired(s, DueOthers(s, run, n, |s.nodes|));
      MarkAllQuiet(s, DueOthers(s, run, n, |s.nodes|));
      FinishRootQuiet(s, t, run, n);
    }
  }

  lemma FinishRootQuiet(s: Database, t: Database, run: Id, n: Id)
    requires Quiet(s, t) && n < |t.nodes|
    ensures Quiet(s, FinishRoot(s, t, run, n).db)
  {
    hide Quiet, FinishNode;
    QuietRefl(s);
    if run < |t.runs| {
      var closed := TransitionRun(t.runs[run], RunCompleted, t.clock);
      if closed.Some? && t.runs[run].status == RunRunning {
        var u := t.(runs := t.runs[run := closed.value]);
        CloseRunQuiet(t, run, closed.value, RunCompleted);
        FinishQuiet(u, n);
        QuietTrans(s, t, u);
        if FinishNode(u, n).Some? { QuietTrans(s, u, FinishNode(u, n).value); }
      }
    }
  }

  lemma ExpireQuiet(s: Database, scan: Option<Id>)
    ensures Quiet(s, ExpireStale(s, scan).db)
  {
    SweepAllQuiet(s, StaleNodes(s, scan));
  }
}
