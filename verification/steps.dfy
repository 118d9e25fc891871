/** Every service keeps the registry coherent and evolves it only as a transaction may. */
module Steps {
  import opened Options
  import opened Domain
  import opened Scopes
  import opened Tools
  import opened Transitions
  import opened Frames
  import opened Tree
  import opened Fences
  import opened Revocation
  import opened Lives
  import opened Credentials
  import opened Replacements
  import opened Admissions
  import opened Conservation
  import opened Attribution
  import opened Authority
  import opened Coherence

  // ---------------------------------------------------------------- quiet services

  lemma ActivateCoherent(s: Database, cfg: Config, throttled: bool, n: Id, request: ActivateRequest)
    requires Coherent(s) && Past(s)
    ensures var t := Activate(s, cfg, throttled, n, request).db; Coherent(t) && Evolves(s, t)
  {
    hide Activate, Quiet, Ages, WellSealed, WellReplaced, Attributable;
    var t := Activate(s, cfg, throttled, n, request).db;
    ActivateQuiet(s, cfg, throttled, n, request);
    ActivateAges(s, cfg, throttled, n, request);
    ActivateSealed(s, cfg, throttled, n, request);
    ActivateReplaced(s, cfg, throttled, n, request);
    ActivateEnvelopes(s, cfg, throttled, n, request);
    QuietAcknowledges(s, t);
    QuietCoherent(s, t);
  }

  lemma ActivateEnvelopes(s: Database, cfg: Config, throttled: bool, n: Id, request: ActivateRequest)
    requires WellSealed(s)
    ensures EnvelopesStay(s, Activate(s, cfg, throttled, n, request).db)
    ensures Activate(s, cfg, throttled, n, request).db.acks == s.acks
  {
    hide EvaluationOf, WellSealed, EnvelopesStay, Consume, RecoverActivation, SealedIfKeyed;
    assert EnvelopesStay(s, s) by { StayRefl(s); }
    if n < |s.nodes| && n in s.intents {
      var key := EnvelopeKey(ActivationOp, n, if request.operationKey.Some? then request.operationKey.value else "");
      if key in s.envelopes { RecoverActivationEnvelopes(s, cfg, n, key); }
      if && (request.operationKey.Some? ==> key !in s.envelopes)
         && (s.nodes[n].reg.causedBy.Some? ==> s.nodes[n].reg.causedBy.value < |s.commands|) {
        ConsumeEnvelopes(s, cfg, n);
        SealEnvelopes(Consume(s, cfg, n), cfg, ActivationOp, n, request.operationKey, n,
                      Digest(ActivatePayload(request.activationToken, request.processId)),
                      ActivationAnswer(s, n, s.nextToken, s.clock + cfg.leaseTtl));
        StaySame(s, Consume(s, cfg, n), SealedIfKeyed(Consume(s, cfg, n), cfg, ActivationOp, n, request.operationKey, n,
                      Digest(ActivatePayload(request.activationToken, request.processId)),
                      ActivationAnswer(s, n, s.nextToken, s.clock + cfg.leaseTtl)));
      }
    }
  }

  lemma StayRefl(s: State)
    ensures EnvelopesStay(s, s)
  {
  }

  lemma StaySame(s: State, t: State, u: State)
    requires s.envelopes == t.envelopes && EnvelopesStay(t, u)
    ensures EnvelopesStay(s, u)
  {
  }

  /** Resealing an envelope for its own subject and request. */
  lemma ResealEnvelopes(s: Database, t: Database, cfg: Config, key: EnvelopeKey, run: Id, subject: Id, response: Response)
    requires key in s.envelopes && s.envelopes[key].subject == subject && t.envelopes == s.envelopes
    ensures EnvelopesStay(s, Seal(t, cfg, key, run, subject, s.envelopes[key].request, response))
    ensures Seal(t, cfg, key, run, subject, s.envelopes[key].request, response).acks == t.acks
  {
  }

  lemma RecoverActivationEnvelopes(s: Database, cfg: Config, n: Id, key: EnvelopeKey)
    requires WellSealed(s) && n < |s.nodes| && key in s.envelopes && key.op == ActivationOp && key.caller == n
    ensures EnvelopesStay(s, RecoverActivation(s, cfg, n, key).db)
    ensures RecoverActivation(s, cfg, n, key).db.acks == s.acks
  {
    hide SealedOnce, Open, ActivationAnswer, Seal, EnvelopesStay;
    assert EnvelopeSound(s, key);
    assert EnvelopesStay(s, s) by { StayRefl(s); }
    var life := s.nodes[n].life;
    if life.lease.Some? {
      var t := SetLife(s, n, life.(token := Some(s.nextToken))).(nextToken := s.nextToken + 1);
      ResealEnvelopes(s, t, cfg, key, s.nodes[n].reg.run, n, ActivationAnswer(s, n, s.nextToken, life.lease.value));
    }
  }

  lemma ConsumeEnvelopes(s: Database, cfg: Config, n: Id)
    requires n < |s.nodes| && n in s.intents
    requires s.nodes[n].reg.causedBy.Some? ==> s.nodes[n].reg.causedBy.value < |s.commands|
    ensures Consume(s, cfg, n).envelopes == s.envelopes && Consume(s, cfg, n).acks == s.acks
  {
  }

  lemma SealEnvelopes(
    s: Database, cfg: Config, op: RecoveryOp, caller: Id, k: Option<string>, subject: Id,
    request: Digest<RecoveryPayload>, response: Response)
    requires caller < |s.nodes| && (k.Some? ==> EnvelopeKey(op, caller, k.value) !in s.envelopes)
    ensures EnvelopesStay(s, SealedIfKeyed(s, cfg, op, caller, k, subject, request, response))
    ensures SealedIfKeyed(s, cfg, op, caller, k, subject, request, response).acks == s.acks
  {
  }

  lemma UnactivatedReplaced(s: Database, t: State)
    requires Lived(s) && WellReplaced(s) && Ages(s, t) && Calm(s, t) && SameCredentials(s, t) && NoneCompletes(s, t)
    requires t.commands == s.commands
    ensures WellReplaced(t)
  {
    AgesSameAttempts(s, t);
    ReplacedFrame(s, t);
  }

  /** Intents, envelopes and commands stay, and no node completes. */
  ghost predicate Elsewhere(s: State, t: State) {
    t.intents == s.intents && t.envelopes == s.envelopes && t.commands == s.commands && NoneCompletes(s, t)
  }

  lemma LifeElsewhere(s: Database, n: Id, life: Life, kind: AckKind)
    requires n < |s.nodes| && life.completedAt == s.nodes[n].life.completedAt
    ensures Elsewhere(s, SetLife(s, n, life)) && Elsewhere(s, MarkExpired(s, n))
    ensures Elsewhere(s, SetStatus(s, n, life.status)) && Elsewhere(s, SetStatus(Acknowledge(s, n, kind), n, life.status))
  {
    hide AttributedTo, RecordAcks;
  }

  lemma HeartbeatElsewhere(s: Database, cfg: Config, throttled: bool, n: Id, token: Token)
    ensures Elsewhere(s, Heartbeat(s, cfg, throttled, n, token).db)
  {
    hide EvaluationOf, Elsewhere, SetLife, SetStatus, MarkExpired, Acknowledge;
    assert Elsewhere(s, s) by { ElsewhereRefl(s); }
    if n < |s.nodes| {
      var life := s.nodes[n].life;
      LifeElsewhere(s, n, life.(lease := Some(s.clock + cfg.leaseTtl)), CooperativeAck);
      LifeElsewhere(s, n, life.(status := EvaluationOf(s, n).effective), CooperativeAck);
    }
  }

  lemma ElsewhereRefl(s: State)
    ensures Elsewhere(s, s)
  {
  }

  lemma HeartbeatCoherent(s: Database, cfg: Config, throttled: bool, n: Id, token: Token)
    requires Coherent(s) && Past(s)
    ensures var t := Heartbeat(s, cfg, throttled, n, token).db; Coherent(t) && Evolves(s, t)
  {
    hide Heartbeat, Quiet, Ages, WellSealed, WellReplaced, Attributable, SameCredentials;
    var t := Heartbeat(s, cfg, throttled, n, token).db;
    HeartbeatQuiet(s, cfg, throttled, n, token);
    HeartbeatAges(s, cfg, throttled, n, token);
    HeartbeatElsewhere(s, cfg, throttled, n, token);
    HeartbeatCredentials(s, cfg, throttled, n, token);
    HeartbeatAcknowledges(s, cfg, throttled, n, token);
    SealedFrame(s, t);
    QuietCalm(s, t);
    UnactivatedReplaced(s, t);
    QuietCoherent(s, t);
  }

  lemma QuietCalm(s: State, t: State)
    requires Quiet(s, t)
    ensures Calm(s, t)
  {
  }

  lemma CheckpointElsewhere(s: Database, throttled: bool, n: Id, token: Token)
    ensures Elsewhere(s, Checkpoint(s, throttled, n, token).db)
  {
    hide EvaluationOf, Elsewhere, SetStatus, MarkExpired, Acknowledge, AttributedTo, RuntimeOf;
    assert Elsewhere(s, s) by { ElsewhereRefl(s); }
    if n < |s.nodes| {
      LifeElsewhere(s, n, s.nodes[n].life.(status := Waiting), CooperativeAck);
      LifeElsewhere(s, n, s.nodes[n].life.(status := EvaluationOf(s, n).effective), CooperativeAck);
    }
  }

  lemma CheckpointCoherent(s: Database, throttled: bool, n: Id, token: Token)
    requires Coherent(s) && Past(s)
    ensures var t := Checkpoint(s, throttled, n, token).db; Coherent(t) && Evolves(s, t)
  {
    hide Checkpoint, Quiet, Ages, WellSealed, WellReplaced, Attributable, SameCredentials;
    var t := Checkpoint(s, throttled, n, token).db;
    CheckpointQuiet(s, throttled, n, token);
    CheckpointAges(s, throttled, n, token);
    CheckpointElsewhere(s, throttled, n, token);
    CheckpointCredentials(s, throttled, n, token);
    CheckpointAcknowledges(s, throttled, n, token);
    SealedFrame(s, t);
    QuietCalm(s, t);
    UnactivatedReplaced(s, t);
    QuietCoherent(s, t);
  }

  lemma FinishElsewhere(s: Database, n: Id)
    requires n < |s.nodes| && FinishNode(s, n).Some?
    ensures FinishNode(s, n).value.intents == s.intents && FinishNode(s, n).value.envelopes == s.envelopes
  {
  }

  lemma CompleteElsewhere(s: Database, throttled: bool, n: Id, token: Token)
    ensures var t := Complete(s, throttled, n, token).db; t.intents == s.intents && t.envelopes == s.envelopes
  {
    hide EvaluationOf, RuntimeOf, MarkAllExpired, DueOthers, BlocksCompletion, FinishNode, Expires, SameCredentials;
    if n < |s.nodes| {
      var run := s.nodes[n].reg.run;
      var t := MarkAllExpired(s, DueOthers(s, run, n, |s.nodes|));
      assert t.intents == s.intents && t.envelopes == s.envelopes by { MarkAllElsewhere(s, DueOthers(s, run, n, |s.nodes|)); }
      if FinishNode(s, n).Some? { FinishElsewhere(s, n); }
      if run < |t.runs| && TransitionRun(t.runs[run], RunCompleted, t.clock).Some? {
        var u := t.(runs := t.runs[run := TransitionRun(t.runs[run], RunCompleted, t.clock).value]);
        if FinishNode(u, n).Some? { FinishElsewhere(u, n); }
      }
    }
  }

  lemma {:induction false} MarkAllElsewhere(s: Database, ids: seq<Id>)
    requires forall i | 0 <= i < |ids| :: ids[i] < |s.nodes|
    ensures Elsewhere(s, MarkAllExpired(s, ids))
  {
    hide MarkExpired;
    if ids != [] {
      var t := MarkAllExpired(s, ids[..|ids| - 1]);
      var n := ids[|ids| - 1];
      MarkAllElsewhere(s, ids[..|ids| - 1]);
      LifeElsewhere(t, n, t.nodes[n].life, LeaseExpiredAck);
    }
  }

  lemma CompleteCoherent(s: Database, throttled: bool, n: Id, token: Token)
    requires Coherent(s) && Past(s)
    ensures var t := Complete(s, throttled, n, token).db; Coherent(t) && Evolves(s, t)
  {
    hide Complete, Quiet, Ages, WellSealed, WellReplaced, Attributable, SameCredentials;
    var t := Complete(s, throttled, n, token).db;
    CompleteQuiet(s, throttled, n, token);
    CompleteAges(s, throttled, n, token);
    CompleteElsewhere(s, throttled, n, token);
    CompleteCredentials(s, throttled, n, token);
    CompleteAcknowledges(s, throttled, n, token);
    CompleteReplaced(s, throttled, n, token);
    SealedFrame(s, t);
    QuietCoherent(s, t);
  }

  lemma ExpireCoherent(s: Database, scan: Option<Id>)
    requires Coherent(s) && Past(s)
    ensures var t := ExpireStale(s, scan).db; Coherent(t) && Evolves(s, t)
  {
    hide Quiet, Ages, WellSealed, WellReplaced, Attributable, StaleNodes, SweepAll;
    var ids := StaleNodes(s, scan);
    var t := ExpireStale(s, scan).db;
    ExpireQuiet(s, scan);
    ExpireStaleAges(s, scan);
    SweepAllAcknowledges(s, ids);
    SweepAllCredentials(s, ids);
    SweepAllReplaced(s, ids);
    SealedFrame(s, t);
    QuietCoherent(s, t);
  }

  // ---------------------------------------------------------------- the gateway

  lemma CalmActionCoherent(s: Database, t: State)
    requires Coherent(s) && Calm(s, t) && Ages(s, t) && SameCredentials(s, t)
    requires t.intents == s.intents && t.commands == s.commands && t.proposals == s.proposals && NoneCompletes(s, t)
    requires WellAdmitted(t) && WellMatched(t) && WellAcked(t) && Balanced(t.attempts, t.services) && AcksGrow(s, t)
    requires s.matches.Keys <= t.matches.Keys && s.services.Keys <= t.services.Keys
    requires exists x :: t.attempts == s.attempts + [x] && ActsLive(s, x)
    ensures Coherent(t) && Evolves(s, t)
  {
    hide Ages, WellSealed, WellReplaced, WellTreed, WellFenced, WellJoined, WellAuthorized, Lived, Balanced,
         WellAdmitted, WellMatched, WellAcked;
    CalmStructure(s, t);
    AgesLived(s, t);
    SealedFrame(s, t);
    UnactivatedReplaced(s, t);
    CalmEvolves(s, t);
  }

  lemma DenyCalm(s: Database, n: Id, request: ActionRequest, spec: ToolSpec, code: Code)
    requires n < |s.nodes|
    ensures var t := DenyAction(s, n, request, spec, code);
      Calm(s, t) && t.intents == s.intents && t.commands == s.commands && t.proposals == s.proposals
      && t.services == s.services
  {
    hide Evaluate, Attributed, RecordAcks, RecordMatches, ReportedMismatch, Calm, Acknowledge, SetStatus;
    var t := DenyAction(s, n, request, spec, code);
    var effective := EvaluationOf(s, n).effective;
    StatusKeepsCount(s, n, effective);
    if StaleReason(code) {
      DemotedCalm(s, n, GatewayBlockAck, effective);
      DenialDemotes(s, n, request, spec, code);
      SameRowsCalm(s, Acknowledge(SetStatus(s, n, effective), n, GatewayBlockAck), t);
    } else {
      CalmRefl(s);
      SameRowsCalm(s, s, t);
    }
  }

  lemma CalmRefl(s: State)
    ensures Calm(s, s)
  {
  }

  lemma DemotedCalm(s: Database, n: Id, kind: AckKind, status: NodeStatus)
    requires n < |s.nodes|
    ensures var t := Acknowledge(SetStatus(s, n, status), n, kind);
      Calm(s, t) && t.intents == s.intents && t.commands == s.commands && t.proposals == s.proposals
      && t.services == s.services
  {
    hide AttributedTo, RecordAcks;
  }

  /** Recording the attempt and its matches changes only those tables. */
  lemma DenialDemotes(s: Database, n: Id, request: ActionRequest, spec: ToolSpec, code: Code)
    requires n < |s.nodes| && StaleReason(code)
    ensures var t := DenyAction(s, n, request, spec, code);
      t == Acknowledge(SetStatus(s, n, EvaluationOf(s, n).effective), n, GatewayBlockAck)
           .(attempts := t.attempts, matches := t.matches)
  {
    hide Evaluate, Attributed, RecordAcks, RecordMatches, ReportedMismatch;
  }

  lemma SameRowsCalm(s: State, t: State, u: State)
    requires Calm(s, t) && u == t.(attempts := u.attempts, matches := u.matches)
    ensures Calm(s, u)
  {
  }

  lemma DenyCompletesNobody(s: Database, n: Id, request: ActionRequest, spec: ToolSpec, code: Code)
    requires n < |s.nodes|
    ensures NoneCompletes(s, DenyAction(s, n, request, spec, code))
  {
    hide Evaluate, Attributed, RecordAcks, RecordMatches, ReportedMismatch;
  }

  lemma DenyAcked(s: Database, n: Id, request: ActionRequest, spec: ToolSpec, code: Code)
    requires Attributable(s) && n < |s.nodes|
    ensures WellAcked(DenyAction(s, n, request, spec, code)) && AcksGrow(s, DenyAction(s, n, request, spec, code))
  {
    hide Evaluate, Attributed, RecordAcks, RecordMatches, ReportedMismatch, Attributable;
    var t := DenyAction(s, n, request, spec, code);
    if StaleReason(code) {
      var u := SetStatus(Acknowledge(s, n, GatewayBlockAck), n, EvaluationOf(s, n).effective);
      DemotionAcknowledges(s, n, GatewayBlockAck, EvaluationOf(s, n).effective);
      DenialAcks(s, n, request, spec, code);
      assert WellAcked(u) by { AckedOf(u); }
      AckedFrame(u, t);
    } else {
      assert WellAcked(s) by { AckedOf(s); }
      AckedFrame(s, t);
    }
  }

  lemma AckedOf(s: State)
    requires Attributable(s)
    ensures WellAcked(s)
  {
  }

  lemma DenyCoherent(s: Database, n: Id, request: ActionRequest, spec: ToolSpec, code: Code)
    requires Coherent(s) && Past(s) && n < |s.nodes| && s.nodes[n].life.token.Some?
    requires SpecOf(request.tool) == Some(spec) && FindAttempt(s.attempts, n, request.key).None?
    requires StaleReason(code) ==> !EvaluationOf(s, n).allowed
    requires var t := DenyAction(s, n, request, spec, code); WellAdmitted(t) && Balanced(t.attempts, t.services)
    ensures var t := DenyAction(s, n, request, spec, code); Coherent(t) && Evolves(s, t)
  {
    hide Evaluate, Attributed, RecordAcks, RecordMatches, ReportedMismatch, Ages, Calm, SameCredentials, Balanced,
         WellTreed, WellFenced, WellAdmitted, WellMatched, WellAcked;
    var t := DenyAction(s, n, request, spec, code);
    assert Attributable(s);
    DenyCalm(s, n, request, spec, code);
    DenyCompletesNobody(s, n, request, spec, code);
    DenyAges(s, n, request, spec, code);
    DenyCredentials(s, n, request, spec, code);
    ActorsInRange(s);
    DenyMatched(s, n, request, spec, code);
    DenyAcked(s, n, request, spec, code);
    DenyKeepsMatches(s, n, request, spec, code);
    var x := t.attempts[|s.attempts|];
    assert t.attempts == s.attempts + [x] && ActsLive(s, x);
    CalmActionCoherent(s, t);
  }

  lemma {:induction false} RecordMatchesKeeps(
    matches: map<MatchKey, Mismatch>, commands: seq<Command>, ids: seq<Id>, ms: seq<Mismatch>, action: Id)
    requires forall i | 0 <= i < |ids| :: ids[i] < |commands|
    ensures matches.Keys <= RecordMatches(matches, commands, ids, ms, action).Keys
  {
    if ids != [] {
      RecordMatchesKeeps(matches, commands, ids[..|ids| - 1], ms, action);
    }
  }

  lemma DenyKeepsMatches(s: Database, n: Id, request: ActionRequest, spec: ToolSpec, code: Code)
    requires n < |s.nodes|
    ensures s.matches.Keys <= DenyAction(s, n, request, spec, code).matches.Keys
  {
    hide EvaluationOf, AttributedTo, RecordMatches, RecordAcks, ReportedMismatch;
    RecordMatchesKeeps(s.matches, s.commands, AttributedTo(s, n), EvaluationOf(s, n).mismatches, |s.attempts|);
  }

  lemma RunToolKeeps(services: Services, run: Id, action: Id, tool: ToolName, now: Time)
    ensures services.Keys <= RunTool(services, run, action, tool, now).0.Keys
  {
  }

  lemma AdmitCoherent(s: Database, cfg: Config, n: Id, request: ActionRequest, spec: ToolSpec)
    requires Coherent(s) && Past(s) && n < |s.nodes| && s.nodes[n].life.token.Some?
    requires SpecOf(request.tool) == Some(spec) && ArgumentsValid(spec, request.arguments)
    requires FindAttempt(s.attempts, n, request.key).None? && Admission(s, cfg, n, request, spec).None?
    requires var t := AdmitAction(s, n, request, spec); WellAdmitted(t) && Balanced(t.attempts, t.services)
    ensures var t := AdmitAction(s, n, request, spec); Coherent(t) && Evolves(s, t)
  {
    hide RunTool, Ages, SameCredentials, Balanced, Admission, RuntimeOf,
         WellTreed, WellFenced, WellAdmitted, WellMatched, WellAcked;
    var t := AdmitAction(s, n, request, spec);
    AgesRefl(s);
    AgesElsewhere(s, s, t);
    CredentialsRefl(s);
    ElsewhereCredentials(s, s, t);
    LadderIsRuntime(s, cfg, n, request, spec);
    ActorsInRange(s);
    AdmitMatched(s, n, request, spec);
    AckedFrame(s, t);
    var x := t.attempts[|s.attempts|];
    assert t.attempts == s.attempts + [x] && ActsLive(s, x);
    RunToolKeeps(s.services, s.nodes[n].reg.run, |s.attempts|, request.tool, s.clock);
    CalmActionCoherent(s, t);
  }

  /** The two invariants that an execution touches in earnest. */
  lemma ExecuteRows(s: Database, cfg: Config, throttled: bool, n: Id, token: Token, request: ActionRequest)
    requires Coherent(s)
    ensures var t := ExecuteAction(s, cfg, throttled, n, token, request).db;
      WellAdmitted(t) && Balanced(t.attempts, t.services)
  {
    hide ExecuteAction, WellTreed, WellFenced, Lived, WellAdmitted, Balanced;
    ExecuteAdmitted(s, cfg, throttled, n, token, request);
    ExecuteBalanced(s, cfg, throttled, n, token, request);
  }

  lemma ExecuteCoherent(s: Database, cfg: Config, throttled: bool, n: Id, token: Token, request: ActionRequest)
    requires Coherent(s) && Past(s)
    ensures var t := ExecuteAction(s, cfg, throttled, n, token, request).db; Coherent(t) && Evolves(s, t)
  {
    hide Coherent, Past, Evolves, Admission, DenyAction, AdmitAction, EvaluationOf, WellAdmitted, Balanced;
    RowsRefl(s);
    SameEvolves(s, s);
    var t := ExecuteAction(s, cfg, throttled, n, token, request).db;
    ExecuteRows(s, cfg, throttled, n, token, request);
    if t != s {
      var spec := SpecOf(request.tool).value;
      var code := Admission(s, cfg, n, request, spec);
      if code.Some? {
        StaleDenialIsOutdated(s, cfg, n, request, spec);
        DenyCoherent(s, n, request, spec, code.value);
      } else {
        AdmitCoherent(s, cfg, n, request, spec);
      }
    }
  }

  lemma StaleDenialIsOutdated(s: Database, cfg: Config, n: Id, request: ActionRequest, spec: ToolSpec)
    requires n < |s.nodes|
    ensures var code := Admission(s, cfg, n, request, spec);
      code.Some? && StaleReason(code.value) ==> !EvaluationOf(s, n).allowed
  {
    hide Evaluate, CountCommitted;
  }
}
