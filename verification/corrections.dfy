/** A correction acts at most once, whatever retries, denials and expiries surround it. */
module Corrections {
  import opened Options
  import opened Domain
  import opened Scopes
  import opened Tools
  import opened Transitions
  import opened Counts
  import opened Frames
  import opened Tree
  import opened Revocation
  import opened Lives
  import opened Replacements
  import opened Admissions
  import opened Attribution
  import opened Authority
  import opened Coherence
  import opened Steps
  import opened Growth

  /** The committed actions of all the nodes a correction ever caused. */
  function CountCaused(attempts: seq<Attempt>, nodes: seq<Node>, c: Id): nat {
    if attempts == [] then 0 else
      var last := attempts[|attempts| - 1];
      CountCaused(attempts[..|attempts| - 1], nodes, c)
      + if last.decision == Allow && last.node < |nodes| && nodes[last.node].reg.causedBy == Some(c) then 1 else 0
  }

  /** Only the one designated attempt ever acts. */
  lemma {:induction false} OnlyDesignatedActs(s: State, c: Id, m: Id, attempts: seq<Attempt>)
    requires m < |s.nodes|
    requires forall a | 0 <= a < |attempts| && attempts[a].decision == Allow && attempts[a].node < |s.nodes|
               && s.nodes[attempts[a].node].reg.causedBy == Some(c) ::
                 attempts[a].node == m && attempts[a].committedAt.Some?
    ensures CountCaused(attempts, s.nodes, c) <= CountCommitted(attempts, m)
  {
    if attempts != [] {
      OnlyDesignatedActs(s, c, m, attempts[..|attempts| - 1]);
    }
  }

  lemma {:induction false} NobodyActs(s: State, c: Id, attempts: seq<Attempt>)
    requires forall a | 0 <= a < |attempts| && attempts[a].decision == Allow && attempts[a].node < |s.nodes| ::
               s.nodes[attempts[a].node].reg.causedBy != Some(c)
    ensures CountCaused(attempts, s.nodes, c) == 0
  {
    if attempts != [] {
      NobodyActs(s, c, attempts[..|attempts| - 1]);
    }
  }

  /** An action of a caused node is by the attempt the correction designates now, which is active or
      complete, and is exactly the contract's tool and arguments. */
  lemma CausedActionIsDesignated(s: State, a: Id, c: Id)
    requires WellReplaced(s) && WellAdmitted(s) && a < |s.attempts| && s.attempts[a].decision == Allow
    requires s.attempts[a].node < |s.nodes| && s.nodes[s.attempts[a].node].reg.causedBy == Some(c)
    ensures c < |s.commands| && s.commands[c].replacementNode == Some(s.attempts[a].node)
    ensures s.commands[c].replacementStatus in {Some(ReplacementActive), Some(ReplacementCompleted)}
    ensures InContract(s.commands[c].order, s.attempts[a].request)
    ensures s.attempts[a].committedAt == Some(s.attempts[a].attemptedAt)
  {
    assert AttemptAdmitted(s, a) && NodeReplaces(s, s.attempts[a].node);
  }

  /** Over all retries, a correction commits at most its permitted invocations: one, or none
      without a tool. */
  lemma CorrectionActsAtMostOnce(s: Database, c: Id)
    requires Coherent(s) && c < |s.commands| && s.commands[c].order.kind == CorrectSubtree
    ensures var order := s.commands[c].order;
      && order.manifest.Some?
      && CountCaused(s.attempts, s.nodes, c) <= order.manifest.value.contract.maxInvocations <= 1
      && (order.expectedTool.None? ==> CountCaused(s.attempts, s.nodes, c) == 0)
  {
    assert CommandReplaces(s, c);
    forall a | 0 <= a < |s.attempts| && s.attempts[a].decision == Allow && s.attempts[a].node < |s.nodes|
               && s.nodes[s.attempts[a].node].reg.causedBy == Some(c)
      ensures s.commands[c].replacementNode == Some(s.attempts[a].node) && s.attempts[a].committedAt.Some?
    {
      CausedActionIsDesignated(s, a, c);
    }
    match s.commands[c].replacementNode {
      case None => NobodyActs(s, c, s.attempts);
      case Some(m) =>
        assert WithinLimit(s, m);
        OnlyDesignatedActs(s, c, m, s.attempts);
    }
  }

  /** At most one attempt of a correction is ever activated; every attempt that another one
      replaced is expired and was never activated. */
  lemma OneActivatedAttempt(s: Database, c: Id, n: Id, m: Id)
    requires Coherent(s) && c < |s.commands| && n < |s.nodes| && m < |s.nodes| && n != m
    requires s.nodes[n].reg.causedBy == Some(c) && s.nodes[m].reg.causedBy == Some(c)
    ensures s.nodes[n].life.activatedAt.None? || s.nodes[m].life.activatedAt.None?
    ensures exists k | k in {n, m} :: s.nodes[k].life.activatedAt.None? && s.nodes[k].life.status == LeaseExpired
    ensures s.nodes[n].life.activatedAt.Some? ==> s.nodes[m].life.status == LeaseExpired
  {
    assert NodeReplaces(s, n) && NodeReplaces(s, m);
    assert n in {n, m} && m in {n, m};
  }

  /** Replacements are leaves. */
  lemma ReplacementHasNoChild(s: Database, n: Id, p: Id)
    requires Coherent(s) && n < |s.nodes| && p < |s.nodes| && s.nodes[n].reg.parent == Some(p)
    ensures s.nodes[p].reg.causedBy.None?
  {
    assert NodeReplaces(s, n);
  }

  // ---------------------------------------------------------------- the admission ladder

  /** The contract of a correction lets this attempt run this tool with these arguments here, and the
      attempt has not acted yet. */
  ghost predicate ContractOpen(s: State, cfg: Config, c: Id, n: Id, request: ActionRequest, spec: ToolSpec) {
    && c < |s.commands| && InContract(s.commands[c].order, request)
    && s.commands[c].order.manifest.value.contract.environment == cfg.environment
    && s.commands[c].order.manifest.value.contract.resources == spec.resources
    && CommittedBy(s.attempts, n) == {}
  }

  /** The first term of an open contract that the request breaks. */
  function Breach(order: Order, cfg: Config, request: ActionRequest, spec: ToolSpec): Code
    requires order.manifest.Some?
  {
    var contract := order.manifest.value.contract;
    if contract.environment != cfg.environment then RecoveryEnvironmentMismatch
    else if contract.expectedTool != Some(request.tool) then RecoveryToolMismatch
    else if contract.resources != spec.resources then RecoveryResourceMismatch
    else if contract.argumentsDigest != Digest(request.arguments) then RecoveryArgumentsMismatch
    else RecoveryInvocationLimitExceeded
  }

  lemma ContractExactly(s: Database, cfg: Config, n: Id, request: ActionRequest, spec: ToolSpec, c: Id)
    requires WellReplaced(s) && n < |s.nodes| && s.nodes[n].life.activatedAt.Some? && s.nodes[n].reg.causedBy == Some(c)
    ensures RecoveryContractDenial(s, cfg, n, request, spec).None? <==> ContractOpen(s, cfg, c, n, request, spec)
    ensures c < |s.commands| && s.commands[c].order.manifest.Some?
    ensures !ContractOpen(s, cfg, c, n, request, spec) ==>
      RecoveryContractDenial(s, cfg, n, request, spec) == Some(Breach(s.commands[c].order, cfg, request, spec))
  {
    hide StatusFits, CountCommitted;
    assert NodeReplaces(s, n) && CommandReplaces(s, c);
    CommittedCounted(s.attempts, n);
    assert |CommittedBy(s.attempts, n)| == 0 <==> CommittedBy(s.attempts, n) == {};
  }

  /** The gateway admits an action exactly when the node's run is running, the node works under a live
      lease, no command targets it, it holds the tool's capability, and, if it is a replacement, its
      contract is open: the ladder's other checks of a replacement never fire. */
  lemma AdmissionExactly(s: Database, cfg: Config, n: Id, request: ActionRequest, spec: ToolSpec)
    requires Coherent(s) && n < |s.nodes|
    ensures var reg, life := s.nodes[n].reg, s.nodes[n].life;
      Admission(s, cfg, n, request, spec).None? <==>
      && s.runs[reg.run].status == RunRunning && Working(life.status) && LeaseLive(life, s.clock) && !Revoked(s, n)
      && spec.capability in reg.capabilities
      && (reg.causedBy.Some? ==> ContractOpen(s, cfg, reg.causedBy.value, n, request, spec))
  {
    hide Admission, RecoveryContractDenial, ContractOpen, Revoked, RuntimeOf;
    LadderIsRuntime(s, cfg, n, request, spec);
    LiveExactly(s, n);
    assert LifeShape(s.nodes[n].life);
    if Working(s.nodes[n].life.status) && s.nodes[n].reg.causedBy.Some? {
      ContractExactly(s, cfg, n, request, spec, s.nodes[n].reg.causedBy.value);
    }
    assert s.nodes[n].reg.causedBy.None? ==> RecoveryContractDenial(s, cfg, n, request, spec).None? by {
      OrdinaryHasNoContract(s, cfg, n, request, spec);
    }
  }

  lemma OrdinaryHasNoContract(s: Database, cfg: Config, n: Id, request: ActionRequest, spec: ToolSpec)
    requires n < |s.nodes|
    ensures s.nodes[n].reg.causedBy.None? ==> RecoveryContractDenial(s, cfg, n, request, spec).None?
  {
  }

  // ---------------------------------------------------------------- further attempts

  /** A replacement request that is refused for no reason but earlier attempts: the caller is the live,
      designated parent, nothing throttles it or exceeds its budgets, the request is the one the
      manifest authorizes, and its operation key, if any, has not been answered before. */
  ghost predicate InOrder(
    s: Database, cfg: Config, throttled: bool, parent: Id, token: Token, c: Id, request: SpawnRequest)
  {
    && Authenticate(s, parent, token).None? && !throttled
    && (request.operationKey.Some? ==>
          EnvelopeKey(ReplacementOp, parent, request.operationKey.value) !in s.envelopes)
    && RuntimeOf(s, parent).allowed && GraphBudget(s, cfg, parent).None?
    && ReplacementGuard(s, cfg, parent, c, request, true).None?
  }

  lemma GuardSplits(s: Database, cfg: Config, parent: Id, c: Id, request: SpawnRequest)
    requires parent < |s.nodes| && GraphBudget(s, cfg, parent).None?
    ensures ReplacementGuard(s, cfg, parent, c, request, false).None?
            <==> ReplacementGuard(s, cfg, parent, c, request, true).None? && c < |s.commands|
                 && PermitsAttempt(s, s.commands[c])
  {
    hide GraphBudget, RetryAllowed;
  }

  lemma GuardWithoutRoom(s: Database, cfg: Config, parent: Id, c: Id, request: SpawnRequest)
    requires parent < |s.nodes| && GraphBudget(s, cfg, parent).Some?
    ensures ReplacementGuard(s, cfg, parent, c, request, false).Some?
  {
    hide GraphBudget, RetryAllowed;
  }

  /** A call registers a replacement exactly when its request is in order and the correction permits
      another attempt; a key that has been answered before registers nothing. */
  lemma AttemptRegisteredExactly(
    s: Database, cfg: Config, throttled: bool, parent: Id, token: Token, c: Id, request: SpawnRequest)
    ensures var t := CreateReplacement(s, cfg, throttled, parent, token, c, request).db;
      if InOrder(s, cfg, throttled, parent, token, c, request) && c < |s.commands| && PermitsAttempt(s, s.commands[c])
      then |t.nodes| == |s.nodes| + 1 && t.nodes[|s.nodes|].reg.causedBy == Some(c)
           && c < |t.commands| && t.commands[c].replacementNode == Some(|s.nodes|)
      else t.nodes == s.nodes
  {
    hide RuntimeOf, GraphBudget, ReplacementGuard, RecoverSpawn, Register, SealedIfKeyed, PermitsAttempt;
    if parent < |s.nodes| {
      var key := EnvelopeKey(ReplacementOp, parent, if request.operationKey.Some? then request.operationKey.value else "");
      if key in s.envelopes { RecoverSpawnRows(s, cfg, key); }
      if GraphBudget(s, cfg, parent).None? {
        GuardSplits(s, cfg, parent, c, request);
      } else {
        GuardWithoutRoom(s, cfg, parent, c, request);
      }
      if ReplacementGuard(s, cfg, parent, c, request, false).None? {
        GuardAttenuates(s, cfg, parent, c, request);
        DesignatedNewcomer(s, cfg, parent, c, request, Digested(request, Some(c)), SpawnAnswer(s, cfg));
      }
    }
  }

  lemma DesignatedNewcomer(
    s: Database, cfg: Config, parent: Id, c: Id, request: SpawnRequest, digest: Digest<RecoveryPayload>, response: Response)
    requires parent < |s.nodes| && c < |s.commands| && s.commands[c].order.target < |s.nodes|
    ensures var r := Designated(s, cfg, parent, c, request);
      parent < |r.nodes|
      && var t := SealedIfKeyed(r, cfg, ReplacementOp, parent, request.operationKey, |s.nodes|, digest, response);
         && |t.nodes| == |s.nodes| + 1 && t.nodes[|s.nodes|].reg.causedBy == Some(c)
         && c < |t.commands| && t.commands[c].replacementNode == Some(|s.nodes|)
  {
  }

  /** Some node registered in between was caused by the command. */
  ghost predicate Attempts(s: State, t: State, c: Id) {
    exists n | |s.nodes| <= n < |t.nodes| :: t.nodes[n].reg.causedBy == Some(c)
  }

  /** No other service registers a replacement. */
  lemma OnlyReplaceAttempts(s: Database, cfg: Config, throttled: bool, op: Op, c: Id)
    requires Coherent(s) && !op.OpReplace?
    ensures !Attempts(s, Apply(s, cfg, throttled, op).db, c)
  {
    hide Coherent, CreateSpawn, Activate, Heartbeat, Checkpoint, Complete, IssueCommand, ExecuteAction, ExpireStale,
         RuntimeOf;
    match op
    case OpSpawn(parent, token, spawn) => SpawnAttemptsNothing(s, cfg, throttled, parent, token, spawn, c);
    case OpActivate(node, activation) => ActivateQuiet(s, cfg, throttled, node, activation);
    case OpHeartbeat(node, token) => HeartbeatQuiet(s, cfg, throttled, node, token);
    case OpCheckpoint(node, token) => CheckpointQuiet(s, throttled, node, token);
    case OpComplete(node, token) => CompleteQuiet(s, throttled, node, token);
    case OpExpire(scan) => ExpireQuiet(s, scan);
    case OpIssue(principal, order) => IssueKeepsNodes(s, cfg, throttled, principal, order);
    case OpExecute(node, token, action) => ExecuteKeepsNodes(s, cfg, throttled, node, token, action);
    case _ =>
  }

  lemma SpawnAttemptsNothing(
    s: Database, cfg: Config, throttled: bool, parent: Id, token: Token, request: SpawnRequest, c: Id)
    ensures !Attempts(s, CreateSpawn(s, cfg, throttled, parent, token, request).db, c)
  {
    hide RuntimeOf, GraphBudget, ChildBudget, RecoverSpawn;
    var key := EnvelopeKey(SpawnOp, parent, if request.operationKey.Some? then request.operationKey.value else "");
    if key in s.envelopes { RecoverSpawnRows(s, cfg, key); }
  }

  lemma IssueKeepsNodes(s: Database, cfg: Config, throttled: bool, principal: Principal, request: CommandRequest)
    requires Coherent(s)
    ensures IssueCommand(s, cfg, throttled, principal, request).db.nodes == s.nodes
  {
    hide Coherent, IssueCommand, NewCommand, AuthorityGuard, RuntimeOf, PlanCorrection, ReplacementParent, ProposalGuard;
    TreeOf(s);
    IssueOrSame(s, cfg, throttled, principal, request);
    if IssueCommand(s, cfg, throttled, principal, request).db != s {
      var x, closed := NewCommandIssues(s, cfg, IssuerOf(principal), request);
    }
  }

  lemma ExecuteKeepsNodes(s: Database, cfg: Config, throttled: bool, n: Id, token: Token, request: ActionRequest)
    ensures |ExecuteAction(s, cfg, throttled, n, token, request).db.nodes| == |s.nodes|
  {
    hide Admission, DenyAction, AdmitAction;
    if n < |s.nodes| && SpecOf(request.tool).Some? {
      var spec := SpecOf(request.tool).value;
      var code := Admission(s, cfg, n, request, spec);
      if code.Some? { DenyCalm(s, n, request, spec, code.value); }
      AdmitKeepsNodes(s, n, request, spec);
    }
  }

  lemma AdmitKeepsNodes(s: Database, n: Id, request: ActionRequest, spec: ToolSpec)
    requires n < |s.nodes|
    ensures AdmitAction(s, n, request, spec).nodes == s.nodes
  {
    hide RunTool;
  }

  /** A command that already has a replacement gets another one exactly by a replacement request for it
      that is in order while the designated attempt has lapsed before its activation. */
  lemma AnotherAttemptExactlyAfterExpiry(s: Database, cfg: Config, e: Event, c: Id)
    requires Coherent(s) && c < |s.commands| && s.commands[c].replacementNode.Some?
    ensures var u := Tick(s, e);
      Attempts(u, Step(s, cfg, e).db, c)
      <==> && e.op.OpReplace? && e.op.command == c
           && InOrder(u, cfg, e.throttled, e.op.parent, e.op.token, c, e.op.spawn) && RetryAllowed(u, s.commands[c])
  {
    hide Coherent, Past, InOrder, CreateReplacement, Evolves;
    var u := Tick(s, e);
    StepCoherent(s, cfg, e);
    if e.op.OpReplace? {
      AttemptRegisteredExactly(u, cfg, e.throttled, e.op.parent, e.op.token, e.op.command, e.op.spawn);
      var t := Step(s, cfg, e).db;
      if |t.nodes| == |u.nodes| + 1 {
        assert Attempts(u, t, e.op.command);
        assert Attempts(u, t, c) ==> c == e.op.command;
      }
    } else {
      OnlyReplaceAttempts(u, cfg, e.throttled, e.op, c);
    }
  }
}
