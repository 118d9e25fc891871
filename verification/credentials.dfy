/** Credential recovery: a sealed envelope always holds the credential that is stored now. */
module Credentials {
  import opened Options
  import opened Domain
  import opened Scopes
  import opened Tools
  import opened Transitions
  import opened Frames
  import opened Lives

  /** What the request that registered a node bound. */
  function RegisteredAs(reg: Registration): Digest<RecoveryPayload> {
    Digest(SpawnPayload(reg.causedBy, reg.role, reg.instruction, reg.capabilities, reg.behavior))
  }

  ghost predicate EnvelopeSound(s: State, key: EnvelopeKey)
    requires key in s.envelopes
  {
    var e := s.envelopes[key];
    var response := e.content.response;
    && key.caller < |s.nodes| && e.subject < |s.nodes|
    && e.content.aad == SealedData(key, e.request, e.subject)
    && if key.op == ActivationOp then
         && e.subject == key.caller
         && s.nodes[e.subject].life.activatedAt.Some?
         && response.ActivationResponse? && response.node == e.subject
         && response.run == s.nodes[e.subject].reg.run && response.role == s.nodes[e.subject].reg.role
         && Some(response.nodeToken) == s.nodes[e.subject].life.token
       else
         && s.nodes[e.subject].reg.parent == Some(key.caller)
         && e.request == RegisteredAs(s.nodes[e.subject].reg)
         && (key.op == SpawnOp ==> s.nodes[e.subject].reg.causedBy.None?)
         && e.subject in s.intents
         && response.SpawnResponse? && response.child == e.subject
         && response.activationToken == s.intents[e.subject].token
         && response.expiresAt == s.intents[e.subject].expiresAt
  }

  /** A node has at most one envelope for its activation token and one for its node token. */
  ghost predicate SealedOnce(s: State, a: EnvelopeKey, b: EnvelopeKey)
    requires a in s.envelopes && b in s.envelopes
  {
    s.envelopes[a].subject == s.envelopes[b].subject && (a.op == ActivationOp <==> b.op == ActivationOp) ==> a == b
  }

  ghost predicate WellSealed(s: State) {
    && (forall key {:trigger s.envelopes[key]} | key in s.envelopes :: EnvelopeSound(s, key))
    && (forall a, b {:trigger s.envelopes[a], s.envelopes[b]} | a in s.envelopes && b in s.envelopes :: SealedOnce(s, a, b))
  }

  /** No credential moves, and no registered node goes away. */
  ghost predicate SameCredentials(s: State, t: State) {
    && t.envelopes == s.envelopes && |s.nodes| <= |t.nodes|
    && (forall n | n in s.intents :: n in t.intents && t.intents[n] == s.intents[n])
    && (forall n {:trigger t.nodes[n]} | 0 <= n < |s.nodes| ::
          && t.nodes[n].reg == s.nodes[n].reg
          && t.nodes[n].life.token == s.nodes[n].life.token
          && t.nodes[n].life.activatedAt == s.nodes[n].life.activatedAt)
  }

  lemma SameCredentialsTrans(s: State, t: State, u: State)
    requires SameCredentials(s, t) && SameCredentials(t, u)
    ensures SameCredentials(s, u)
  {
    forall n | 0 <= n < |s.nodes|
      ensures u.nodes[n].reg == s.nodes[n].reg
      ensures u.nodes[n].life.token == s.nodes[n].life.token
      ensures u.nodes[n].life.activatedAt == s.nodes[n].life.activatedAt
    {
      assert t.nodes[n].reg == s.nodes[n].reg;
    }
  }

  lemma SealedFrame(s: State, t: State)
    requires WellSealed(s) && SameCredentials(s, t)
    ensures WellSealed(t)
  {
    forall key | key in t.envelopes ensures EnvelopeSound(t, key) {
      assert EnvelopeSound(s, key);
    }
    forall a, b | a in t.envelopes && b in t.envelopes ensures SealedOnce(t, a, b) {
      assert SealedOnce(s, a, b);
    }
  }

  // ---------------------------------------------------------------- rotation and activation

  /** One envelope is written; the credentials behind every other envelope stay. */
  lemma SealStep(s: State, t: State, key: EnvelopeKey)
    requires WellSealed(s) && key in t.envelopes && t.envelopes == s.envelopes[key := t.envelopes[key]]
    requires if key in s.envelopes then t.envelopes[key].subject == s.envelopes[key].subject
             else forall a {:trigger s.envelopes[a]} | a in s.envelopes ::
                    s.envelopes[a].subject == t.envelopes[key].subject ==>
                      !(a.op == ActivationOp <==> key.op == ActivationOp)
    requires EnvelopeSound(t, key)
    requires forall k {:trigger s.envelopes[k]} | k in s.envelopes && k != key :: EnvelopeSound(t, k)
    ensures WellSealed(t)
  {
    hide EnvelopeSound;
    forall a, b | a in t.envelopes && b in t.envelopes ensures SealedOnce(t, a, b) {
      assert a != key ==> a in s.envelopes && t.envelopes[a] == s.envelopes[a];
      assert b != key ==> b in s.envelopes && t.envelopes[b] == s.envelopes[b];
      if a in s.envelopes && b in s.envelopes { assert SealedOnce(s, a, b); }
    }
    forall k | k in t.envelopes ensures EnvelopeSound(t, k) {
      if k != key { assert k in s.envelopes && t.envelopes[k] == s.envelopes[k]; }
    }
  }

  lemma RecoverSpawnSealed(s: Database, cfg: Config, key: EnvelopeKey)
    requires WellSealed(s) && key in s.envelopes && key.op != ActivationOp
    ensures WellSealed(RecoverSpawn(s, cfg, key).db)
  {
    var t := RecoverSpawn(s, cfg, key).db;
    assert EnvelopeSound(s, key);
    if t != s {
      forall k | k in s.envelopes && k != key ensures EnvelopeSound(t, k) {
        assert EnvelopeSound(s, k) && SealedOnce(s, k, key);
      }
      SealStep(s, t, key);
    }
  }

  lemma RecoverActivationSealed(s: Database, cfg: Config, n: Id, key: EnvelopeKey)
    requires WellSealed(s) && key in s.envelopes && key.op == ActivationOp && key.caller == n && n < |s.nodes|
    ensures WellSealed(RecoverActivation(s, cfg, n, key).db)
  {
    var t := RecoverActivation(s, cfg, n, key).db;
    assert EnvelopeSound(s, key);
    if t != s {
      forall k | k in s.envelopes && k != key ensures EnvelopeSound(t, k) {
        assert EnvelopeSound(s, k) && SealedOnce(s, k, key);
      }
      SealStep(s, t, key);
    }
  }

  lemma ActivateSealed(s: Database, cfg: Config, throttled: bool, n: Id, request: ActivateRequest)
    requires WellSealed(s) && Lived(s)
    ensures WellSealed(Activate(s, cfg, throttled, n, request).db)
  {
    hide WellSealed, RecoverActivation, Evaluate, Consume, SealedIfKeyed;
    if n < |s.nodes| && n in s.intents {
      var key := EnvelopeKey(ActivationOp, n, if request.operationKey.Some? then request.operationKey.value else "");
      if key in s.envelopes { RecoverActivationSealed(s, cfg, n, key); }
      if && (s.nodes[n].reg.causedBy.Some? ==> s.nodes[n].reg.causedBy.value < |s.commands|)
         && s.nodes[n].life.status == Pending && s.nodes[n].life.token.None?
         && (request.operationKey.Some? ==> key !in s.envelopes) {
        FirstActivationSealed(s, cfg, n, request);
      }
    }
  }

  lemma FirstActivationSealed(s: Database, cfg: Config, n: Id, request: ActivateRequest)
    requires WellSealed(s) && Lived(s) && n < |s.nodes| && n in s.intents
    requires s.nodes[n].life.status == Pending && s.nodes[n].life.token.None?
    requires s.nodes[n].reg.causedBy.Some? ==> s.nodes[n].reg.causedBy.value < |s.commands|
    ensures WellSealed(SealedIfKeyed(Consume(s, cfg, n), cfg, ActivationOp, n, request.operationKey, n,
                                     Digest(ActivatePayload(request.activationToken, request.processId)),
                                     ActivationAnswer(s, n, s.nextToken, s.clock + cfg.leaseTtl)))
  {
    var t := Consume(s, cfg, n);
    var u := SealedIfKeyed(t, cfg, ActivationOp, n, request.operationKey, n,
                           Digest(ActivatePayload(request.activationToken, request.processId)),
                           ActivationAnswer(s, n, s.nextToken, s.clock + cfg.leaseTtl));
    ConsumeSealed(s, cfg, n);
    if request.operationKey.Some? {
      var key := EnvelopeKey(ActivationOp, n, request.operationKey.value);
      forall k | k in t.envelopes && k != key ensures EnvelopeSound(u, k) {
        assert EnvelopeSound(t, k);
      }
      SealStep(t, u, key);
    }
  }

  /** A node that is only now activated has no envelope for a node token yet. */
  lemma ConsumeSealed(s: Database, cfg: Config, n: Id)
    requires WellSealed(s) && Lived(s) && n < |s.nodes| && n in s.intents
    requires s.nodes[n].life.status == Pending && s.nodes[n].life.token.None?
    requires s.nodes[n].reg.causedBy.Some? ==> s.nodes[n].reg.causedBy.value < |s.commands|
    ensures WellSealed(Consume(s, cfg, n))
    ensures Consume(s, cfg, n).envelopes == s.envelopes
    ensures forall k {:trigger s.envelopes[k]} | k in s.envelopes && k.op == ActivationOp :: s.envelopes[k].subject != n
  {
    var t := Consume(s, cfg, n);
    assert LifeShape(s.nodes[n].life);
    forall k | k in s.envelopes
      ensures EnvelopeSound(t, k)
      ensures k.op == ActivationOp ==> s.envelopes[k].subject != n
    {
      assert EnvelopeSound(s, k);
    }
    forall a, b | a in t.envelopes && b in t.envelopes ensures SealedOnce(t, a, b) {
      assert SealedOnce(s, a, b);
    }
  }

  // ---------------------------------------------------------------- registration

  lemma RegisterKeeps(
    s: Database, cfg: Config, parent: Id, request: SpawnRequest, supersedes: Option<Id>, causedBy: Option<Id>, v: nat)
    requires Lived(s) && parent < |s.nodes|
    ensures SameCredentials(s, Register(s, cfg, parent, request, supersedes, causedBy, v))
    ensures Lived(Register(s, cfg, parent, request, supersedes, causedBy, v))
  {
    var t := Register(s, cfg, parent, request, supersedes, causedBy, v);
    forall n | 0 <= n < |t.nodes| ensures LifeShape(t.nodes[n].life) && IntentMatches(t, n) {
      if n < |s.nodes| { assert LifeShape(s.nodes[n].life) && IntentMatches(s, n); }
    }
  }

  /** Sealing the answer of the registration that has just happened. */
  lemma SealNewborn(
    s: Database, t: Database, cfg: Config, op: RecoveryOp, caller: Id, k: Option<string>,
    digest: Digest<RecoveryPayload>, response: Response)
    requires WellSealed(s) && SameCredentials(s, t) && op != ActivationOp
    requires caller < |s.nodes| && |t.nodes| == |s.nodes| + 1
    requires k.Some? ==> EnvelopeKey(op, caller, k.value) !in s.envelopes
    requires t.nodes[|s.nodes|].reg.parent == Some(caller) && |s.nodes| in t.intents
    requires digest == RegisteredAs(t.nodes[|s.nodes|].reg)
    requires op == SpawnOp ==> t.nodes[|s.nodes|].reg.causedBy.None?
    requires response == SpawnResponse(|s.nodes|, t.intents[|s.nodes|].token, t.intents[|s.nodes|].expiresAt)
    ensures WellSealed(SealedIfKeyed(t, cfg, op, caller, k, |s.nodes|, digest, response))
  {
    SealedFrame(s, t);
    var u := SealedIfKeyed(t, cfg, op, caller, k, |s.nodes|, digest, response);
    forall key | key in u.envelopes ensures EnvelopeSound(u, key) {
      if key in s.envelopes { assert EnvelopeSound(t, key); }
    }
    forall a, b | a in u.envelopes && b in u.envelopes ensures SealedOnce(u, a, b) {
      if a in s.envelopes { assert EnvelopeSound(s, a); }
      if b in s.envelopes { assert EnvelopeSound(s, b); }
      if a in s.envelopes && b in s.envelopes { assert SealedOnce(t, a, b); }
    }
  }

  // ---------------------------------------------------------------- services that leave credentials alone

  lemma {:induction false} MarkAllCredentials(s: Database, ids: seq<Id>)
    requires forall i | 0 <= i < |ids| :: ids[i] < |s.nodes|
    ensures SameCredentials(s, MarkAllExpired(s, ids))
  {
    if ids != [] {
      var t := MarkAllExpired(s, ids[..|ids| - 1]);
      MarkAllCredentials(s, ids[..|ids| - 1]);
      SameCredentialsTrans(s, t, MarkAllExpired(s, ids));
    }
  }

  lemma {:induction false} SweepAllCredentials(s: Database, ids: seq<Id>)
    requires forall i | 0 <= i < |ids| :: ids[i] < |s.nodes|
    ensures SameCredentials(s, SweepAll(s, ids))
  {
    if ids != [] {
      var t := SweepAll(s, ids[..|ids| - 1]);
      SweepAllCredentials(s, ids[..|ids| - 1]);
      SweepCredentials(t, ids[|ids| - 1]);
      SameCredentialsTrans(s, t, SweepAll(s, ids));
    }
  }

  lemma SweepCredentials(s: Database, n: Id)
    requires n < |s.nodes|
    ensures SameCredentials(s, Sweep(s, n))
  {
    hide Sweep;
    SweepExpires(s, n);
  }

  lemma SetLifeCredentials(s: Database, n: Id, life: Life)
    requires n < |s.nodes| && life.token == s.nodes[n].life.token && life.activatedAt == s.nodes[n].life.activatedAt
    ensures SameCredentials(s, SetLife(s, n, life))
  {
  }

  lemma AcknowledgedStatusCredentials(s: Database, n: Id, kind: AckKind, status: NodeStatus)
    requires n < |s.nodes|
    ensures SameCredentials(s, SetStatus(Acknowledge(s, n, kind), n, status))
    ensures SameCredentials(s, SetStatus(s, n, status))
  {
    SetLifeCredentials(s, n, s.nodes[n].life.(status := status));
  }

  lemma MarkExpiredCredentials(s: Database, n: Id)
    requires n < |s.nodes|
    ensures SameCredentials(s, MarkExpired(s, n))
  {
    SetLifeCredentials(s, n, s.nodes[n].life.(status := LeaseExpired));
  }

  lemma HeartbeatCredentials(s: Database, cfg: Config, throttled: bool, n: Id, token: Token)
    ensures SameCredentials(s, Heartbeat(s, cfg, throttled, n, token).db)
  {
    hide SameCredentials, MarkExpired, SetStatus, Acknowledge, EvaluationOf;
    CredentialsRefl(s);
    if n < |s.nodes| {
      MarkExpiredCredentials(s, n);
      AcknowledgedStatusCredentials(s, n, CooperativeAck, EvaluationOf(s, n).effective);
      SetLifeCredentials(s, n, s.nodes[n].life.(lease := Some(s.clock + cfg.leaseTtl)));
    }
  }

  lemma CheckpointCredentials(s: Database, throttled: bool, n: Id, token: Token)
    ensures SameCredentials(s, Checkpoint(s, throttled, n, token).db)
  {
    hide SameCredentials, MarkExpired, SetStatus, Acknowledge, EvaluationOf, AttributedTo, RuntimeOf;
    CredentialsRefl(s);
    if n < |s.nodes| {
      MarkExpiredCredentials(s, n);
      AcknowledgedStatusCredentials(s, n, CooperativeAck, EvaluationOf(s, n).effective);
      AcknowledgedStatusCredentials(s, n, CooperativeAck, Waiting);
    }
  }

  lemma FinishCredentials(s: Database, n: Id)
    requires n < |s.nodes|
    ensures FinishNode(s, n).Some? ==> SameCredentials(s, FinishNode(s, n).value)
  {
  }

  lemma CompleteCredentials(s: Database, throttled: bool, n: Id, token: Token)
    ensures SameCredentials(s, Complete(s, throttled, n, token).db)
  {
    hide SameCredentials, MarkAllExpired, EvaluationOf, DueOthers, FinishNode, BlocksCompletion, RuntimeOf;
    assert SameCredentials(s, s) by { CredentialsRefl(s); }
    if n < |s.nodes| {
      var run := s.nodes[n].reg.run;
      var t := MarkAllExpired(s, DueOthers(s, run, n, |s.nodes|));
      FinishCredentials(s, n);
      MarkAllCredentials(s, DueOthers(s, run, n, |s.nodes|));
      if run < |t.runs| && TransitionRun(t.runs[run], RunCompleted, t.clock).Some? {
        var u := t.(runs := t.runs[run := TransitionRun(t.runs[run], RunCompleted, t.clock).value]);
        ElsewhereCredentials(s, t, u);
        FinishCredentials(u, n);
        if FinishNode(u, n).Some? { SameCredentialsTrans(s, u, FinishNode(u, n).value); }
      }
    }
  }

  lemma CredentialsRefl(s: State)
    ensures SameCredentials(s, s)
  {
  }

  lemma ElsewhereCredentials(s: State, t: State, u: State)
    requires SameCredentials(s, t) && u.nodes == t.nodes && u.intents == t.intents && u.envelopes == t.envelopes
    ensures SameCredentials(s, u)
  {
  }

  lemma DenyCredentials(s: Database, n: Id, request: ActionRequest, spec: ToolSpec, code: Code)
    requires n < |s.nodes|
    ensures SameCredentials(s, DenyAction(s, n, request, spec, code))
  {
    hide Evaluate, RecordAcks, Attributed, RecordMatches, ReportedMismatch;
  }
}
