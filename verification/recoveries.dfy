/** What callers of the recovery paths hold: always the stored credential, always the same node. */
module Recoveries {
  import opened Options
  import opened Domain
  import opened Scopes
  import opened Tools
  import opened Transitions
  import opened Lives
  import opened Credentials
  import opened Replacements
  import opened Coherence
  import opened Steps
  import opened Growth
  import opened Histories

  /** The credential in an answer is the one stored now. */
  ghost predicate Current(t: State, response: Response) {
    match response
    case SpawnResponse(child, token, expiresAt) =>
      child in t.intents && t.intents[child].token == token && t.intents[child].expiresAt == expiresAt
    case ActivationResponse(node, run, role, token, lease) =>
      node < |t.nodes| && t.nodes[node].life.token == Some(token)
  }

  lemma RecoverSpawnCurrent(s: Database, cfg: Config, key: EnvelopeKey)
    requires WellSealed(s) && key in s.envelopes && key.op != ActivationOp
    ensures var r := RecoverSpawn(s, cfg, key);
      r.out.Answered? ==> r.out.response.SpawnResponse? && Current(r.db, r.out.response)
                          && r.out.response.child == s.envelopes[key].subject
  {
    assert EnvelopeSound(s, key);
  }

  lemma SpawnCurrent(s: Database, cfg: Config, throttled: bool, parent: Id, token: Token, request: SpawnRequest)
    requires Coherent(s)
    ensures var r := CreateSpawn(s, cfg, throttled, parent, token, request);
      r.out.Answered? ==> r.out.response.SpawnResponse? && Current(r.db, r.out.response)
  {
    hide RuntimeOf, GraphBudget, ChildBudget, RecoverSpawn, Coherent;
    assert WellSealed(s) by { AdmittedOf(s); }
    var key := EnvelopeKey(SpawnOp, parent, if request.operationKey.Some? then request.operationKey.value else "");
    if key in s.envelopes { RecoverSpawnCurrent(s, cfg, key); }
  }

  lemma ReplaceCurrent(
    s: Database, cfg: Config, throttled: bool, parent: Id, token: Token, c: Id, request: SpawnRequest)
    requires Coherent(s)
    ensures var r := CreateReplacement(s, cfg, throttled, parent, token, c, request);
      r.out.Answered? ==> r.out.response.SpawnResponse? && Current(r.db, r.out.response)
  {
    hide RuntimeOf, RecoverSpawn, Register, SealedIfKeyed, Current, Coherent, ReplacementGuard, Designate;
    var key := EnvelopeKey(ReplacementOp, parent, if request.operationKey.Some? then request.operationKey.value else "");
    assert WellSealed(s) by { AdmittedOf(s); }
    if key in s.envelopes { RecoverSpawnCurrent(s, cfg, key); }
    if parent < |s.nodes| && ReplacementGuard(s, cfg, parent, c, request, false).None? {
      GuardAttenuates(s, cfg, parent, c, request);
      ReplacedAnswer(s, cfg, parent, c, request);
    }
  }

  lemma ReplacedAnswer(s: Database, cfg: Config, parent: Id, c: Id, request: SpawnRequest)
    requires parent < |s.nodes| && c < |s.commands| && s.commands[c].order.target < |s.nodes|
    ensures Current(SealedIfKeyed(Designated(s, cfg, parent, c, request), cfg, ReplacementOp, parent, request.operationKey,
                                  |s.nodes|, Digested(request, Some(c)), SpawnAnswer(s, cfg)),
                    SpawnAnswer(s, cfg))
  {
  }

  lemma ActivateCurrent(s: Database, cfg: Config, throttled: bool, n: Id, request: ActivateRequest)
    requires Coherent(s)
    ensures var r := Activate(s, cfg, throttled, n, request);
      r.out.Answered? ==> r.out.response.ActivationResponse? && r.out.response.node == n && Current(r.db, r.out.response)
  {
    hide RecoverActivation, SealedIfKeyed, Consume, Current, Coherent, EvaluationOf;
    if n < |s.nodes| && n in s.intents {
      var key := EnvelopeKey(ActivationOp, n, if request.operationKey.Some? then request.operationKey.value else "");
      assert WellSealed(s) by { AdmittedOf(s); }
      if key in s.envelopes { RecoverActivationCurrent(s, cfg, n, key); }
      if s.nodes[n].reg.causedBy.Some? ==> s.nodes[n].reg.causedBy.value < |s.commands| {
        ConsumeAnswer(s, cfg, n, request);
      }
    }
  }

  lemma RecoverActivationCurrent(s: Database, cfg: Config, n: Id, key: EnvelopeKey)
    requires WellSealed(s) && n < |s.nodes| && key in s.envelopes && key.op == ActivationOp && key.caller == n
    ensures var r := RecoverActivation(s, cfg, n, key);
      r.out.Answered? ==> r.out.response.ActivationResponse? && r.out.response.node == n && Current(r.db, r.out.response)
  {
    assert EnvelopeSound(s, key);
  }

  lemma ConsumeAnswer(s: Database, cfg: Config, n: Id, request: ActivateRequest)
    requires n < |s.nodes| && n in s.intents
    requires s.nodes[n].reg.causedBy.Some? ==> s.nodes[n].reg.causedBy.value < |s.commands|
    ensures Current(SealedIfKeyed(Consume(s, cfg, n), cfg, ActivationOp, n, request.operationKey, n,
                                  Digest(ActivatePayload(request.activationToken, request.processId)),
                                  ActivationAnswer(s, n, s.nextToken, s.clock + cfg.leaseTtl)),
                    ActivationAnswer(s, n, s.nextToken, s.clock + cfg.leaseTtl))
  {
  }

  /** Whatever path answers a spawn, a replacement or an activation, fresh or recovered, the
      credential handed out is the stored one. */
  lemma AnswersAreCurrent(s: Database, cfg: Config, throttled: bool, op: Op)
    requires Coherent(s) && Apply(s, cfg, throttled, op).out.Answered?
    ensures Current(Apply(s, cfg, throttled, op).db, Apply(s, cfg, throttled, op).out.response)
  {
    hide Coherent, Current, CreateSpawn, CreateReplacement, Activate, IssueCommand, EvaluationOf, RuntimeOf,
         AttributedTo, Admission, MarkAllExpired, FinishNode, SweepAll;
    match op
    case OpSpawn(parent, token, spawn) => SpawnCurrent(s, cfg, throttled, parent, token, spawn);
    case OpReplace(parent, token, command, spawn) => ReplaceCurrent(s, cfg, throttled, parent, token, command, spawn);
    case OpActivate(node, activation) => ActivateCurrent(s, cfg, throttled, node, activation);
    case OpIssue(principal, order) => IssueNeverAnswers(s, cfg, throttled, principal, order);
    case _ =>
  }

  lemma IssueNeverAnswers(s: Database, cfg: Config, throttled: bool, principal: Principal, request: CommandRequest)
    ensures !IssueCommand(s, cfg, throttled, principal, request).out.Answered?
  {
    hide PlanCorrection, ReplacementParent, ProposalGuard, CountCommands, AuthorityGuard, RuntimeOf, CommitCommand;
  }

  // ---------------------------------------------------------------- one key, one node

  function KeyOf(op: Op): Option<EnvelopeKey> {
    match op
    case OpSpawn(parent, _, spawn) =>
      if spawn.operationKey.Some? then Some(EnvelopeKey(SpawnOp, parent, spawn.operationKey.value)) else None
    case OpReplace(parent, _, _, spawn) =>
      if spawn.operationKey.Some? then Some(EnvelopeKey(ReplacementOp, parent, spawn.operationKey.value)) else None
    case _ => None
  }

  /** An answered call leaves an envelope for its key, about the node it answered with. */
  lemma AnswerIsSealed(s: Database, cfg: Config, throttled: bool, op: Op)
    requires Coherent(s) && KeyOf(op).Some? && Apply(s, cfg, throttled, op).out.Answered?
    ensures var r := Apply(s, cfg, throttled, op); var key := KeyOf(op).value;
      && r.out.response.SpawnResponse?
      && key in r.db.envelopes && r.db.envelopes[key].subject == r.out.response.child
      && (key in s.envelopes ==> s.envelopes[key].subject == r.out.response.child)
  {
    hide Coherent, CreateSpawn, CreateReplacement;
    match op
    case OpSpawn(parent, token, spawn) => SpawnIsSealed(s, cfg, throttled, parent, token, spawn);
    case OpReplace(parent, token, command, spawn) => ReplaceIsSealed(s, cfg, throttled, parent, token, command, spawn);
    case _ =>
  }

  lemma RecoverSpawnKeeps(s: Database, cfg: Config, key: EnvelopeKey)
    requires key in s.envelopes
    ensures key in RecoverSpawn(s, cfg, key).db.envelopes
    ensures RecoverSpawn(s, cfg, key).db.envelopes[key].subject == s.envelopes[key].subject
  {
  }

  lemma SpawnIsSealed(s: Database, cfg: Config, throttled: bool, parent: Id, token: Token, request: SpawnRequest)
    requires Coherent(s) && request.operationKey.Some?
    requires CreateSpawn(s, cfg, throttled, parent, token, request).out.Answered?
    ensures var r := CreateSpawn(s, cfg, throttled, parent, token, request);
      var key := EnvelopeKey(SpawnOp, parent, request.operationKey.value);
      && r.out.response.SpawnResponse?
      && key in r.db.envelopes && r.db.envelopes[key].subject == r.out.response.child
      && (key in s.envelopes ==> s.envelopes[key].subject == r.out.response.child)
  {
    hide RuntimeOf, GraphBudget, ChildBudget, RecoverSpawn, Coherent;
    assert WellSealed(s) by { AdmittedOf(s); }
    var key := EnvelopeKey(SpawnOp, parent, request.operationKey.value);
    if key in s.envelopes {
      RecoverSpawnCurrent(s, cfg, key);
      RecoverSpawnKeeps(s, cfg, key);
    }
  }

  lemma ReplaceIsSealed(
    s: Database, cfg: Config, throttled: bool, parent: Id, token: Token, c: Id, request: SpawnRequest)
    requires Coherent(s) && request.operationKey.Some?
    requires CreateReplacement(s, cfg, throttled, parent, token, c, request).out.Answered?
    ensures var r := CreateReplacement(s, cfg, throttled, parent, token, c, request);
      var key := EnvelopeKey(ReplacementOp, parent, request.operationKey.value);
      && r.out.response.SpawnResponse?
      && key in r.db.envelopes && r.db.envelopes[key].subject == r.out.response.child
      && (key in s.envelopes ==> s.envelopes[key].subject == r.out.response.child)
  {
    hide RuntimeOf, ReplacementGuard, RecoverSpawn, Coherent;
    assert WellSealed(s) by { AdmittedOf(s); }
    var key := EnvelopeKey(ReplacementOp, parent, request.operationKey.value);
    if key in s.envelopes {
      RecoverSpawnCurrent(s, cfg, key);
      RecoverSpawnKeeps(s, cfg, key);
    }
    if parent < |s.nodes| && ReplacementGuard(s, cfg, parent, c, request, false).None? {
      GuardAttenuates(s, cfg, parent, c, request);
    }
  }

  /** One operation type, caller and key yield at most one node: two answered calls with the same
      key name the same node, however many transactions lie between them. */
  lemma OneKeyOneNode(s: Database, cfg: Config, first: Event, between: seq<Event>, second: Event)
    requires Coherent(s) && KeyOf(first.op).Some? && KeyOf(first.op) == KeyOf(second.op)
    requires Step(s, cfg, first).out.Answered?
    requires Step(After(Step(s, cfg, first).db, cfg, between), cfg, second).out.Answered?
    ensures var a := Step(s, cfg, first).out.response;
      var b := Step(After(Step(s, cfg, first).db, cfg, between), cfg, second).out.response;
      a.SpawnResponse? && b.SpawnResponse? && a.child == b.child
  {
    hide Coherent, Apply, Later, Past, Evolves;
    var t := Step(s, cfg, first).db;
    StepCoherent(s, cfg, first);
    AnswerIsSealed(Tick(s, first), cfg, first.throttled, first.op);
    AfterLater(t, cfg, between);
    var u := After(t, cfg, between);
    assert EnvelopesStay(t, u) by { LaterEnvelopes(t, u); }
    StepCoherent(u, cfg, second);
    AnswerIsSealed(Tick(u, second), cfg, second.throttled, second.op);
  }

  lemma LaterEnvelopes(s: State, t: State)
    requires Later(s, t)
    ensures EnvelopesStay(s, t)
  {
  }
}
