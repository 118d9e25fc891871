/** The life of a node: what one step may do to it, and what holds of it throughout. */
module Lives {
  import opened Options
  import opened Domain
  import opened Scopes
  import opened Tools
  import opened Transitions
  import opened Frames

  /** A node holds a token and a lease exactly since its activation. */
  predicate LifeShape(life: Life) {
    && (life.activatedAt.Some? <==> life.token.Some?)
    && (life.activatedAt.Some? ==> life.lease.Some? && life.status != Pending)
    && (life.activatedAt.None? ==>
          life.lease.None? && life.completedAt.None? && (life.status == Pending || life.status == LeaseExpired))
    && (life.status == Completed ==> life.completedAt.Some?)
    && (life.completedAt.Some? ==> !Working(life.status))
  }

  /** Every spawned node has one intent, and it is spent exactly when the node is activated. */
  ghost predicate IntentMatches(s: State, n: Id)
    requires n < |s.nodes|
  {
    && (s.nodes[n].reg.parent.Some? <==> n in s.intents)
    && (n !in s.intents ==> s.nodes[n].life.activatedAt.Some?)
    && (n in s.intents ==> (s.intents[n].consumedAt.Some? <==> s.nodes[n].life.activatedAt.Some?))
  }

  ghost predicate Lived(s: State) {
    && (forall n {:trigger s.nodes[n]} | 0 <= n < |s.nodes| :: LifeShape(s.nodes[n].life) && IntentMatches(s, n))
    && (forall n | n in s.intents :: n < |s.nodes|)
  }

  /** The changes a node's life can undergo in one transaction; only a live node renews, waits or
      completes, only a pending one activates, and rotation needs a live lease. */
  predicate LifeStep(a: Life, b: Life, live: bool, now: Time) {
    || b == a
    || b == a.(status := LeaseExpired)
    || (a.token.Some? && (b == a.(status := Cancelled) || b == a.(status := Superseded)))
    || (live && b.lease.Some? && b == a.(lease := b.lease))
    || (live && b == a.(status := Waiting))
    || (live && b == a.(status := Completed, completedAt := Some(now)))
    || (a.status == Pending && a.token.None? && b.token.Some? && b.lease.Some?
        && b == a.(status := Active, token := b.token, activatedAt := Some(now), lease := b.lease))
    || (Working(a.status) && LeaseLive(a, now) && a.token.Some? && b.token.Some? && b == a.(token := b.token))
  }

  ghost predicate NodeAges(s: Database, t: State, n: Id)
    requires n < |s.nodes| && n < |t.nodes|
  {
    && LifeStep(s.nodes[n].life, t.nodes[n].life, RuntimeOf(s, n).allowed, s.clock)
    && (n in s.intents <==> n in t.intents)
    && (n in s.intents ==>
          if t.nodes[n].life.activatedAt == s.nodes[n].life.activatedAt
          then t.intents[n].consumedAt == s.intents[n].consumedAt
          else t.intents[n].consumedAt.Some?)
  }

  ghost predicate Ages(s: Database, t: State) {
    && |s.nodes| <= |t.nodes|
    && (forall n {:trigger t.nodes[n]} | 0 <= n < |s.nodes| :: NodeAges(s, t, n))
  }

  lemma AgesRefl(s: Database)
    ensures Ages(s, s)
  {
    forall n | 0 <= n < |s.nodes| ensures NodeAges(s, s, n) {
    }
  }

  lemma AgesLived(s: Database, t: State)
    requires Lived(s) && Calm(s, t) && Ages(s, t)
    requires t.intents.Keys == s.intents.Keys
    ensures Lived(t)
  {
    forall n | 0 <= n < |t.nodes| ensures LifeShape(t.nodes[n].life) && IntentMatches(t, n) {
      assert NodeAges(s, t, n) && LifeShape(s.nodes[n].life) && IntentMatches(s, n);
    }
  }

  // ---------------------------------------------------------------- expiry

  /** Some nodes became lease-expired and no life changed otherwise. */
  ghost predicate Expires(s: State, t: State) {
    && |t.nodes| == |s.nodes| && t.intents == s.intents && t.clock == s.clock
    && (forall n {:trigger t.nodes[n]} | 0 <= n < |s.nodes| ::
          t.nodes[n].life == s.nodes[n].life || t.nodes[n].life == s.nodes[n].life.(status := LeaseExpired))
  }

  lemma ExpiresTrans(s: State, t: State, u: State)
    requires Expires(s, t) && Expires(t, u)
    ensures Expires(s, u)
  {
    forall n | 0 <= n < |s.nodes|
      ensures u.nodes[n].life == s.nodes[n].life || u.nodes[n].life == s.nodes[n].life.(status := LeaseExpired)
    {
      assert t.nodes[n].life == s.nodes[n].life || t.nodes[n].life == s.nodes[n].life.(status := LeaseExpired);
    }
  }

  lemma MarkExpires(s: Database, n: Id)
    requires n < |s.nodes|
    ensures Expires(s, MarkExpired(s, n))
    ensures forall m | 0 <= m < |s.nodes| && m != n :: MarkExpired(s, n).nodes[m] == s.nodes[m]
  {
  }

  lemma SweepExpires(s: Database, n: Id)
    requires n < |s.nodes|
    ensures Expires(s, Sweep(s, n))
    ensures Sweep(s, n).nodes == s.nodes[n := s.nodes[n].(life := s.nodes[n].life.(status := LeaseExpired))]
    ensures Sweep(s, n).envelopes == s.envelopes
  {
    hide LapseReplacement, FailRun, AttributedTo, RecordAcks;
    var t := SetStatus(s, n, LeaseExpired);
    LapseElsewhere(t, n);
    FailRunElsewhere(LapseReplacement(t, n), n);
  }

  lemma LapseElsewhere(s: Database, n: Id)
    requires n < |s.nodes|
    ensures var t := LapseReplacement(s, n);
      t.intents == s.intents && t.clock == s.clock && t.envelopes == s.envelopes
  {
  }

  lemma FailRunElsewhere(s: Database, n: Id)
    requires n < |s.nodes|
    ensures var t := FailRun(s, n); t.intents == s.intents && t.clock == s.clock && t.envelopes == s.envelopes
  {
  }

  lemma {:induction false} MarkAllExpires(s: Database, ids: seq<Id>)
    requires forall i | 0 <= i < |ids| :: ids[i] < |s.nodes|
    ensures Expires(s, MarkAllExpired(s, ids))
    ensures forall m | 0 <= m < |s.nodes| && m !in ids :: MarkAllExpired(s, ids).nodes[m] == s.nodes[m]
  {
    if ids != [] {
      var rest := ids[..|ids| - 1];
      var t := MarkAllExpired(s, rest);
      MarkAllExpires(s, rest);
      MarkExpires(t, ids[|ids| - 1]);
      ExpiresTrans(s, t, MarkAllExpired(s, ids));
    }
  }

  lemma {:induction false} SweepAllExpires(s: Database, ids: seq<Id>)
    requires forall i | 0 <= i < |ids| :: ids[i] < |s.nodes|
    ensures Expires(s, SweepAll(s, ids))
  {
    if ids != [] {
      var t := SweepAll(s, ids[..|ids| - 1]);
      SweepAllExpires(s, ids[..|ids| - 1]);
      SweepExpires(t, ids[|ids| - 1]);
      ExpiresTrans(s, t, SweepAll(s, ids));
    }
  }

  lemma ExpiresAges(s: Database, t: State)
    requires Expires(s, t)
    ensures Ages(s, t)
  {
    forall n | 0 <= n < |s.nodes| ensures NodeAges(s, t, n) {
    }
  }

  // ---------------------------------------------------------------- one life at a time

  lemma SetLifeAges(s: Database, n: Id, life: Life)
    requires n < |s.nodes|
    requires LifeStep(s.nodes[n].life, life, RuntimeOf(s, n).allowed, s.clock)
    requires life.activatedAt == s.nodes[n].life.activatedAt
    ensures Ages(s, SetLife(s, n, life))
  {
    hide RuntimeOf;
    forall m | 0 <= m < |s.nodes| ensures NodeAges(s, SetLife(s, n, life), m) {
    }
  }

  /** Tables outside nodes and intents do not matter. */
  lemma AgesElsewhere(s: Database, t: State, u: State)
    requires Ages(s, t) && u.nodes == t.nodes && u.intents == t.intents
    ensures Ages(s, u)
  {
    forall n | 0 <= n < |s.nodes| ensures NodeAges(s, u, n) {
      assert NodeAges(s, t, n);
    }
  }

  lemma HeartbeatAges(s: Database, cfg: Config, throttled: bool, n: Id, token: Token)
    ensures Ages(s, Heartbeat(s, cfg, throttled, n, token).db)
  {
    hide Evaluate, Acknowledge, Ages, Attributed;
    AgesRefl(s);
    if n < |s.nodes| && s.nodes[n].life.token == Some(token) {
      var life := s.nodes[n].life;
      var e := EvaluationOf(s, n);
      MarkExpires(s, n);
      ExpiresAges(s, MarkExpired(s, n));
      if RuntimeOf(s, n).allowed {
        SetLifeAges(s, n, life.(lease := Some(s.clock + cfg.leaseTtl)));
      }
      if !e.allowed {
        DemotionAges(s, n, CooperativeAck);
      }
    }
  }

  /** Acknowledging and then taking the effective status of an outdated, activated node. */
  lemma DemotionAges(s: Database, n: Id, kind: AckKind)
    requires n < |s.nodes| && s.nodes[n].life.token.Some? && !EvaluationOf(s, n).allowed
    ensures Ages(s, SetStatus(Acknowledge(s, n, kind), n, EvaluationOf(s, n).effective))
  {
    var e := EvaluationOf(s, n);
    var life := s.nodes[n].life.(status := e.effective);
    assert e.effective == Cancelled || e.effective == Superseded;
    SetLifeAges(s, n, life);
    AgesElsewhere(s, SetLife(s, n, life), SetStatus(Acknowledge(s, n, kind), n, e.effective));
  }

  lemma AttributedOutdated(s: Database, n: Id)
    requires n < |s.nodes| && AttributedTo(s, n) != []
    ensures !EvaluationOf(s, n).allowed
  {
    if EvaluationOf(s, n).mismatches == [] { NothingAttributed(s.commands, s.nodes[n].reg.run); }
  }

  lemma CheckpointAges(s: Database, throttled: bool, n: Id, token: Token)
    ensures Ages(s, Checkpoint(s, throttled, n, token).db)
  {
    hide Evaluate, Acknowledge, Ages, Attributed, AttributedTo, EvaluationOf, RuntimeOf, MarkExpired;
    AgesRefl(s);
    if n < |s.nodes| && s.nodes[n].life.token == Some(token) {
      MarkExpires(s, n);
      ExpiresAges(s, MarkExpired(s, n));
      if RuntimeOf(s, n).allowed {
        SetLifeAges(s, n, s.nodes[n].life.(status := Waiting));
      }
      if AttributedTo(s, n) != [] {
        AttributedOutdated(s, n);
        DemotionAges(s, n, CooperativeAck);
      }
    }
  }

  lemma {:induction false} DueExcludesRoot(s: Database, run: Id, root: Id, upto: nat)
    requires upto <= |s.nodes|
    ensures root !in DueOthers(s, run, root, upto)
  {
    if upto != 0 {
      DueExcludesRoot(s, run, root, upto - 1);
    }
  }

  lemma CompleteAges(s: Database, throttled: bool, n: Id, token: Token)
    ensures Ages(s, Complete(s, throttled, n, token).db)
  {
    hide Ages, MarkAllExpired, EvaluationOf, DueOthers, FinishNode, FinishRoot, BlocksCompletion, RuntimeOf;
    AgesRefl(s);
    if n < |s.nodes| && RuntimeOf(s, n).allowed {
      var run := s.nodes[n].reg.run;
      var ids := DueOthers(s, run, n, |s.nodes|);
      FinishAges(s, s, n);
      MarkAllExpires(s, ids);
      DueExcludesRoot(s, run, n, |s.nodes|);
      FinishRootAges(s, MarkAllExpired(s, ids), run, n);
    }
  }

  /** Completion of a live node after other nodes may have been written off. */
  lemma FinishAges(s: Database, t: Database, n: Id)
    requires n < |s.nodes| && RuntimeOf(s, n).allowed
    requires Expires(s, t) && t.nodes[n].life == s.nodes[n].life
    ensures FinishNode(t, n).Some? ==> Ages(s, FinishNode(t, n).value)
  {
    hide RuntimeOf;
    if FinishNode(t, n).Some? {
      var u := FinishNode(t, n).value;
      assert u.nodes[n].life == s.nodes[n].life.(status := Completed, completedAt := Some(s.clock));
      forall m | 0 <= m < |s.nodes| ensures NodeAges(s, u, m) {
        if m != n { assert u.nodes[m] == t.nodes[m]; }
      }
    }
  }

  lemma FinishRootAges(s: Database, t: Database, run: Id, n: Id)
    requires n < |s.nodes| && RuntimeOf(s, n).allowed
    requires Expires(s, t) && t.nodes[n].life == s.nodes[n].life
    ensures Ages(s, FinishRoot(s, t, run, n).db)
  {
    hide Ages, FinishNode, RuntimeOf;
    AgesRefl(s);
    if run < |t.runs| {
      var closed := TransitionRun(t.runs[run], RunCompleted, t.clock);
      if closed.Some? {
        FinishAges(s, t.(runs := t.runs[run := closed.value]), n);
      }
    }
  }

  lemma ExpireStaleAges(s: Database, scan: Option<Id>)
    ensures Ages(s, ExpireStale(s, scan).db)
    ensures ExpireStale(s, scan).db.intents == s.intents
  {
    SweepAllExpires(s, StaleNodes(s, scan));
    ExpiresAges(s, ExpireStale(s, scan).db);
  }

  // ---------------------------------------------------------------- activation and recovery

  lemma ConsumeAges(s: Database, cfg: Config, n: Id)
    requires n < |s.nodes| && n in s.intents && s.nodes[n].life.status == Pending
    requires s.nodes[n].life.token.None? && s.nodes[n].life.activatedAt.None?
    requires s.nodes[n].reg.causedBy.Some? ==> s.nodes[n].reg.causedBy.value < |s.commands|
    ensures Ages(s, Consume(s, cfg, n))
  {
    hide RuntimeOf;
    forall m | 0 <= m < |s.nodes| ensures NodeAges(s, Consume(s, cfg, n), m) {
    }
  }

  lemma RecoverActivationAges(s: Database, cfg: Config, n: Id, key: EnvelopeKey)
    requires Lived(s) && n < |s.nodes| && key in s.envelopes
    ensures Ages(s, RecoverActivation(s, cfg, n, key).db)
  {
    hide RuntimeOf;
    AgesRefl(s);
    var life := s.nodes[n].life;
    if s.envelopes[key].expiresAt <= s.clock && Working(life.status) && LeaseLive(life, s.clock) {
      assert LifeShape(life);
      var t := SetLife(s, n, life.(token := Some(s.nextToken)));
      SetLifeAges(s, n, life.(token := Some(s.nextToken)));
      AgesElsewhere(s, t, RecoverActivation(s, cfg, n, key).db);
    }
  }

  lemma ActivateAges(s: Database, cfg: Config, throttled: bool, n: Id, request: ActivateRequest)
    requires Lived(s)
    ensures Ages(s, Activate(s, cfg, throttled, n, request).db)
    ensures Activate(s, cfg, throttled, n, request).db.intents.Keys == s.intents.Keys
  {
    hide Ages, Evaluate, EvaluationOf, ActivationAnswer;
    AgesRefl(s);
    if n < |s.nodes| && n in s.intents {
      var key := EnvelopeKey(ActivationOp, n, if request.operationKey.Some? then request.operationKey.value else "");
      if key in s.envelopes { RecoverActivationAges(s, cfg, n, key); }
      if && (s.nodes[n].reg.causedBy.Some? ==> s.nodes[n].reg.causedBy.value < |s.commands|)
         && s.nodes[n].life.status == Pending && s.nodes[n].life.token.None? {
        assert LifeShape(s.nodes[n].life);
        var t := Consume(s, cfg, n);
        ConsumeAges(s, cfg, n);
        assert t.intents.Keys == s.intents.Keys;
        AgesElsewhere(s, t, SealedIfKeyed(t, cfg, ActivationOp, n, request.operationKey, n,
                                          Digest(ActivatePayload(request.activationToken, request.processId)),
                                          ActivationAnswer(s, n, s.nextToken, s.clock + cfg.leaseTtl)));
      }
    }
  }

  lemma RecoverSpawnAges(s: Database, cfg: Config, key: EnvelopeKey)
    requires key in s.envelopes
    ensures Ages(s, RecoverSpawn(s, cfg, key).db)
    ensures RecoverSpawn(s, cfg, key).db.intents.Keys == s.intents.Keys
  {
    hide RuntimeOf;
    forall m | 0 <= m < |s.nodes| ensures NodeAges(s, RecoverSpawn(s, cfg, key).db, m) {
    }
  }

  lemma DenyAges(s: Database, n: Id, request: ActionRequest, spec: ToolSpec, code: Code)
    requires n < |s.nodes| && s.nodes[n].life.token.Some?
    requires StaleReason(code) ==> !EvaluationOf(s, n).allowed
    ensures Ages(s, DenyAction(s, n, request, spec, code))
  {
    hide Ages, RecordAcks, Evaluate, Attributed, RuntimeOf, LifeStep;
    AgesRefl(s);
    if StaleReason(code) {
      DemotionAges(s, n, GatewayBlockAck);
      DenyNodes(s, n, request, spec, code);
      AgesElsewhere(s, SetStatus(Acknowledge(s, n, GatewayBlockAck), n, EvaluationOf(s, n).effective),
                    DenyAction(s, n, request, spec, code));
    } else {
      AgesElsewhere(s, s, DenyAction(s, n, request, spec, code));
    }
  }

  lemma DenyNodes(s: Database, n: Id, request: ActionRequest, spec: ToolSpec, code: Code)
    requires n < |s.nodes| && StaleReason(code)
    ensures DenyAction(s, n, request, spec, code).nodes == SetStatus(s, n, EvaluationOf(s, n).effective).nodes
    ensures DenyAction(s, n, request, spec, code).intents == s.intents
  {
  }
}
