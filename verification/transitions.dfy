/** The services of the control plane as functions from a database to a database and an answer.

    Every service method is one serialized transaction, so one call is one atomic step; a call
    that raises leaves the database as it was.  The clock is the moment of the step. */
module Transitions {
  import opened Options
  import opened Domain
  import opened Scopes
  import opened Tools
  import opened Lineage

  datatype Reply = Reply(db: Database, out: Outcome)

  function Refuse(s: Database, code: Code): Reply { Reply(s, Refused(code)) }

  function Default(reason: Option<Code>, code: Code): Code {
    if reason.Some? then reason.value else code
  }

  // ---------------------------------------------------------------- reading

  function Authenticate(s: Database, n: Id, token: Token): Option<Code> {
    if n >= |s.nodes| then Some(NotFound)
    else if s.nodes[n].life.token != Some(token) then Some(AuthenticationFailed)
    else None
  }

  function EvaluationOf(s: Database, n: Id): Evaluation
    requires n < |s.nodes|
  {
    Evaluate(s.scopes, s.nodes[n].reg)
  }

  predicate Working(status: NodeStatus) { status == Active || status == Waiting }

  predicate LeaseLive(life: Life, now: Time) { life.lease.Some? && life.lease.value > now }

  datatype Runtime = Runtime(allowed: bool, reason: Option<Code>)

  /** Run, node status, lease and scopes, in that order. */
  function RuntimeOf(s: Database, n: Id): Runtime
    requires n < |s.nodes|
  {
    var node := s.nodes[n];
    var evaluation := EvaluationOf(s, n);
    if s.runs[node.reg.run].status != RunRunning then Runtime(false, Some(RunNotActive))
    else if !Working(node.life.status) then Runtime(false, Some(NodeNotActive))
    else if !LeaseLive(node.life, s.clock) then Runtime(false, Some(LeaseIsExpired))
    else if !evaluation.allowed then Runtime(false, evaluation.PrimaryReason())
    else Runtime(true, None)
  }

  function AttributedTo(s: Database, n: Id): (ids: seq<Id>)
    requires n < |s.nodes|
    ensures forall i | 0 <= i < |ids| :: ids[i] < |s.commands|
  {
    Attributed(s.commands, EvaluationOf(s, n).mismatches, s.nodes[n].reg.run)
  }

  function CountNodes(nodes: seq<Node>, run: Id): nat {
    if nodes == [] then 0 else
      CountNodes(nodes[..|nodes| - 1], run) + if nodes[|nodes| - 1].reg.run == run then 1 else 0
  }

  function CountChildren(nodes: seq<Node>, run: Id, parent: Id): nat {
    if nodes == [] then 0 else
      var reg := nodes[|nodes| - 1].reg;
      CountChildren(nodes[..|nodes| - 1], run, parent)
      + if reg.run == run && reg.parent == Some(parent) then 1 else 0
  }

  function CountActiveRuns(runs: seq<Run>): nat {
    if runs == [] then 0 else
      CountActiveRuns(runs[..|runs| - 1]) + if Terminal(runs[|runs| - 1].status) then 0 else 1
  }

  function CountCommands(commands: seq<Command>, run: Id): nat {
    if commands == [] then 0 else
      CountCommands(commands[..|commands| - 1], run) + if commands[|commands| - 1].order.run == run then 1 else 0
  }

  function CountAttempts(attempts: seq<Attempt>, run: Id): nat {
    if attempts == [] then 0 else
      CountAttempts(attempts[..|attempts| - 1], run) + if attempts[|attempts| - 1].run == run then 1 else 0
  }

  function CountProposals(proposals: seq<Proposal>, run: Id): nat {
    if proposals == [] then 0 else
      CountProposals(proposals[..|proposals| - 1], run)
      + if proposals[|proposals| - 1].payload.run == run then 1 else 0
  }

  /** The committed actions of one node. */
  function CountCommitted(attempts: seq<Attempt>, node: Id): nat {
    if attempts == [] then 0 else
      var last := attempts[|attempts| - 1];
      CountCommitted(attempts[..|attempts| - 1], node)
      + if last.node == node && last.decision == Allow && last.committedAt.Some? then 1 else 0
  }

  // ---------------------------------------------------------------- writing

  function SetLife(s: Database, n: Id, life: Life): Database
    requires n < |s.nodes|
  {
    s.(nodes := s.nodes[n := s.nodes[n].(life := life)])
  }

  function SetStatus(s: Database, n: Id, status: NodeStatus): Database
    requires n < |s.nodes|
  {
    SetLife(s, n, s.nodes[n].life.(status := status))
  }

  function SetReplacementStatus(s: Database, c: Id, status: ReplacementStatus): Database
    requires c < |s.commands|
  {
    s.(commands := s.commands[c := s.commands[c].(replacementStatus := Some(status))])
  }

  function RecordAcks(
    acks: map<AckKey, Ack>, commands: seq<Command>, ids: seq<Id>, n: Id, kind: AckKind, now: Time): map<AckKey, Ack>
    requires forall i | 0 <= i < |ids| :: ids[i] < |commands|
  {
    if ids == [] then acks else
      var c := ids[|ids| - 1];
      var older := RecordAcks(acks, commands, ids[..|ids| - 1], n, kind, now);
      var key := AckKey(c, n, kind);
      if key in older then older else older[key := Ack(commands[c].order.toVersion, now)]
  }

  /** Acknowledge every command the node's scope mismatches are attributed to. */
  function Acknowledge(s: Database, n: Id, kind: AckKind): Database
    requires n < |s.nodes|
  {
    s.(acks := RecordAcks(s.acks, s.commands, AttributedTo(s, n), n, kind, s.clock))
  }

  function MarkExpired(s: Database, n: Id): Database
    requires n < |s.nodes|
  {
    Acknowledge(SetStatus(s, n, LeaseExpired), n, LeaseExpiredAck)
  }

  predicate RunEdge(source: RunStatus, target: RunStatus) {
    match source
    case RunCreated => target == RunRunning || target == RunCancelled || target == RunFailed
    case RunRunning => target == RunCompleted || target == RunCancelled || target == RunFailed
    case _ => false
  }

  /** One allowed run transition, or nothing; the finish time must still be unset. */
  function TransitionRun(run: Run, target: RunStatus, at: Time): Option<Run> {
    if RunEdge(run.status, target) && run.finishedAt.None? then
      Some(run.(status := target, finishedAt := if Terminal(target) then Some(at) else None))
    else None
  }

  function Seal(
    s: Database, cfg: Config, key: EnvelopeKey, run: Id, subject: Id,
    request: Digest<RecoveryPayload>, response: Response): Database
  {
    var content := Sealed(SealedData(key, request, subject), response);
    s.(envelopes := s.envelopes[key := Envelope(run, subject, request, content, s.clock + cfg.recoveryTtl)])
  }

  function Open(key: EnvelopeKey, envelope: Envelope): Option<Response> {
    if envelope.content.aad == SealedData(key, envelope.request, envelope.subject)
    then Some(envelope.content.response) else None
  }

  // ---------------------------------------------------------------- create_run, seed_scenario

  function CreateRun(s: Database, cfg: Config, role: string, instruction: Json, capabilities: set<Capability>): Reply {
    if CountActiveRuns(s.runs) >= cfg.maxActiveRuns then Refuse(s, ActiveRunQuota) else
      var run, root, scope := |s.runs|, |s.nodes|, |s.scopes|;
      var reg := Registration(run, None, None, None, role, Cooperative, 0, scope + 1,
                              [Snap(scope, 1), Snap(scope + 1, 1)], 1, instruction, capabilities, s.clock);
      var life := Life(Active, Some(s.nextToken), Some(s.clock), None, Some(s.clock + cfg.leaseTtl));
      Reply(
        s.(runs := s.runs + [Run(RunRunning, root, scope, None)],
           scopes := s.scopes + [Scope(run, None, 1, ScopeActive), Scope(run, Some(root), 1, ScopeActive)],
           nodes := s.nodes + [Node(reg, life)],
           nextToken := s.nextToken + 1),
        RunMade(run, root, s.nextToken))
  }

  predicate HasServices(s: Database, run: Id) { exists k | k in s.services :: k.run == run }

  predicate HasChildren(s: Database, run: Id)
    requires run < |s.runs|
  {
    exists n | 0 <= n < |s.nodes| :: s.nodes[n].reg.run == run && n != s.runs[run].root
  }

  function SeedScenario(s: Database, run: Id): Reply {
    if run >= |s.runs| then Refuse(s, NotFound)
    else if HasServices(s, run) then Refuse(s, ScenarioAlreadyInitialized)
    else if HasChildren(s, run) || CountCommands(s.commands, run) != 0 || CountAttempts(s.attempts, run) != 0 then
      Refuse(s, ScenarioTooLate)
    else
      Reply(
        s.(services := s.services[ServiceKey(run, Postgres) := Service(Healthy, 0, 0, None, s.clock)]
                                 [ServiceKey(run, Redis) := Service(PoolExhausted, 0, 0, None, s.clock)]
                                 [ServiceKey(run, Checkout) := Service(Degraded, 0, 0, None, s.clock)]),
        Finished)
  }

  // ---------------------------------------------------------------- spawn and replacement

  function GraphBudget(s: Database, cfg: Config, parent: Id): Option<Code>
    requires parent < |s.nodes|
  {
    var reg := s.nodes[parent].reg;
    if reg.generation + 1 > cfg.maxDepth then Some(GraphDepthQuota)
    else if CountNodes(s.nodes, reg.run) >= cfg.maxNodes then Some(RunNodeQuota)
    else if CountChildren(s.nodes, reg.run, parent) >= cfg.maxChildren then Some(NodeChildQuota)
    else None
  }

  /** A replacement may not exceed the child budget of its manifest. */
  function ChildBudget(s: Database, parent: Id): Option<Code>
    requires parent < |s.nodes|
  {
    var reg := s.nodes[parent].reg;
    if reg.causedBy.None? then None
    else if reg.causedBy.value >= |s.commands| || s.commands[reg.causedBy.value].order.manifest.None? then
      Some(ReplacementManifestMissing)
    else if CountChildren(s.nodes, reg.run, parent) >= s.commands[reg.causedBy.value].order.manifest.value.maxChildren
    then Some(ReplacementChildBudget)
    else None
  }

  /** Insert the child's scope, the child with the extended snapshot, and its activation intent. */
  function Register(
    s: Database, cfg: Config, parent: Id, request: SpawnRequest,
    supersedes: Option<Id>, causedBy: Option<Id>, instructionVersion: nat): Database
    requires parent < |s.nodes|
  {
    var up := s.nodes[parent].reg;
    var child, scope := |s.nodes|, |s.scopes|;
    var reg := Registration(up.run, Some(parent), supersedes, causedBy, request.role, request.behavior,
                            up.generation + 1, scope, up.snapshot + [Snap(scope, 1)],
                            instructionVersion, request.instruction, request.capabilities, s.clock);
    s.(scopes := s.scopes + [Scope(up.run, Some(child), 1, ScopeActive)],
       nodes := s.nodes + [Node(reg, Life(Pending, None, None, None, None))],
       intents := s.intents[child := Intent(parent, s.nextToken, s.clock + cfg.intentTtl, None)],
       nextToken := s.nextToken + 1)
  }

  function SpawnAnswer(s: Database, cfg: Config): Response {
    SpawnResponse(|s.nodes|, s.nextToken, s.clock + cfg.intentTtl)
  }

  /** Answer an exact retry from its envelope, rotating the activation token once it has expired. */
  function RecoverSpawn(s: Database, cfg: Config, key: EnvelopeKey): Reply
    requires key in s.envelopes
  {
    var envelope := s.envelopes[key];
    var subject := envelope.subject;
    if || subject >= |s.nodes| || subject !in s.intents
       || s.nodes[subject].life.status != Pending
       || s.intents[subject].consumedAt.Some?
       || s.intents[subject].expiresAt <= s.clock
    then Refuse(s, CredentialRecoveryExpired)
    else if envelope.expiresAt > s.clock then
      match Open(key, envelope)
      case None => Refuse(s, EnvelopeInvalid)
      case Some(response) => if response.SpawnResponse? then Reply(s, Answered(response)) else Refuse(s, EnvelopeInvalid)
    else
      var rotated := s.intents[subject].(token := s.nextToken, expiresAt := s.clock + cfg.intentTtl);
      var response := SpawnResponse(subject, rotated.token, rotated.expiresAt);
      var s1 := s.(intents := s.intents[subject := rotated], nextToken := s.nextToken + 1);
      Reply(Seal(s1, cfg, key, envelope.run, subject, envelope.request, response), Answered(response))
  }

  function Digested(request: SpawnRequest, context: Option<Id>): Digest<RecoveryPayload> {
    Digest(SpawnPayload(context, request.role, request.instruction, request.capabilities, request.behavior))
  }

  function SealedIfKeyed(
    s: Database, cfg: Config, op: RecoveryOp, caller: Id, operationKey: Option<string>, subject: Id,
    request: Digest<RecoveryPayload>, response: Response): Database
    requires caller < |s.nodes|
  {
    match operationKey
    case None => s
    case Some(k) => Seal(s, cfg, EnvelopeKey(op, caller, k), s.nodes[caller].reg.run, subject, request, response)
  }

  function CreateSpawn(s: Database, cfg: Config, throttled: bool, parent: Id, token: Token, request: SpawnRequest): Reply {
    var denied := Authenticate(s, parent, token);
    if denied.Some? then Refuse(s, denied.value) else
    var digest := Digested(request, None);
    var key := EnvelopeKey(SpawnOp, parent, if request.operationKey.Some? then request.operationKey.value else "");
    if request.operationKey.Some? && key in s.envelopes then
      if s.envelopes[key].request != digest then Refuse(s, OperationKeyPayloadMismatch)
      else RecoverSpawn(s, cfg, key)
    else if throttled then Refuse(s, RateLimited)
    else
      var runtime := RuntimeOf(s, parent);
      var graph := GraphBudget(s, cfg, parent);
      var children := ChildBudget(s, parent);
      if !runtime.allowed then Refuse(s, Default(runtime.reason, SpawnDenied))
      else if graph.Some? then Refuse(s, graph.value)
      else if children.Some? then Refuse(s, children.value)
      else if !(request.capabilities <= s.nodes[parent].reg.capabilities) then Refuse(s, CapabilityNotDelegable)
      else
        var response := SpawnAnswer(s, cfg);
        var s1 := Register(s, cfg, parent, request, None, None, 1);
        Reply(SealedIfKeyed(s1, cfg, SpawnOp, parent, request.operationKey, |s.nodes|, digest, response),
              Answered(response))
  }

  /** Everything a replacement is checked against besides its parent's own liveness. */
  function ReplacementGuard(
    s: Database, cfg: Config, parent: Id, c: Id, request: SpawnRequest, recovered: bool): Option<Code>
    requires parent < |s.nodes|
  {
    if c >= |s.commands| then Some(NotFound) else
    var order, command := s.commands[c].order, s.commands[c];
    var run := s.nodes[parent].reg.run;
    var graph := GraphBudget(s, cfg, parent);
    if order.kind != CorrectSubtree then Some(ReplacementCommandInvalid)
    else if order.run != run then Some(CrossRunReplacement)
    else if order.replacementParent != Some(parent) then Some(ReplacementParentUnauthorized)
    else if !recovered && command.replacementNode.Some? && !RetryAllowed(s, command) then Some(ReplacementAlreadyCreated)
    else if !recovered && graph.Some? then graph
    else if order.target >= |s.nodes| || order.targetScope >= |s.scopes| then Some(CorrectionLineageInvalid)
    else
      var corrected := s.nodes[order.target].reg;
      var scope := s.scopes[order.targetScope];
      var rootFallback := parent == s.runs[run].root;
      if corrected.run != run || (corrected.parent != Some(parent) && !rootFallback) then Some(ReplacementParentMismatch)
      else if corrected.ownScope != order.targetScope then Some(CorrectionScopeMismatch)
      else if scope.status != ScopeSuperseded || scope.version != order.toVersion then Some(CorrectionScopeNotSuperseded)
      else if order.instruction != Some(request.instruction) then Some(ReplacementInstructionMismatch)
      else if order.manifest.None? || order.manifestDigest != Some(Digest(order.manifest.value)) then
        Some(ReplacementManifestInvalid)
      else
        var manifest := order.manifest.value;
        if || request.role != manifest.role
           || request.behavior != manifest.behavior
           || request.capabilities != manifest.capabilities
           || Digest(request.instruction) != manifest.instructionDigest
           || corrected.instructionVersion + 1 != manifest.instructionVersion
        then Some(ReplacementManifestMismatch)
        else if !(request.capabilities <= s.nodes[parent].reg.capabilities) then Some(CapabilityNotDelegable)
        else None
  }

  predicate RetryAllowed(s: Database, command: Command)
    requires command.replacementNode.Some?
  {
    && command.replacementStatus == Some(ActivationExpired)
    && command.replacementNode.value < |s.nodes|
    && s.nodes[command.replacementNode.value].life.status == LeaseExpired
  }

  /** Link a correction to the replacement just registered for it. */
  function Designate(s: Database, c: Id, child: Id): Database
    requires c < |s.commands|
  {
    s.(commands := s.commands[c := s.commands[c].(replacementNode := Some(child),
                                                  replacementStatus := Some(ReplacementPending))])
  }

  function CreateReplacement(
    s: Database, cfg: Config, throttled: bool, parent: Id, token: Token, c: Id, request: SpawnRequest): Reply
  {
    var denied := Authenticate(s, parent, token);
    if denied.Some? then Refuse(s, denied.value) else
    var digest := Digested(request, Some(c));
    var key := EnvelopeKey(ReplacementOp, parent, if request.operationKey.Some? then request.operationKey.value else "");
    if request.operationKey.Some? && key in s.envelopes then
      if s.envelopes[key].request != digest then Refuse(s, OperationKeyPayloadMismatch)
      else if c >= |s.commands| || s.commands[c].replacementNode != Some(s.envelopes[key].subject) then
        Refuse(s, RecoverySubjectMismatch)
      else
        var recovery := RecoverSpawn(s, cfg, key);
        var guard := ReplacementGuard(s, cfg, parent, c, request, true);
        if recovery.out.Refused? then recovery
        else if guard.Some? then Refuse(s, guard.value)
        else recovery
    else if throttled then Refuse(s, RateLimited)
    else
      var runtime := RuntimeOf(s, parent);
      var guard := ReplacementGuard(s, cfg, parent, c, request, false);
      if !runtime.allowed then Refuse(s, Default(runtime.reason, ReplacementParentDenied))
      else if guard.Some? then Refuse(s, guard.value)
      else
        var order := s.commands[c].order;
        var child := |s.nodes|;
        var response := SpawnAnswer(s, cfg);
        var s1 := Register(s, cfg, parent, request, Some(order.target), Some(c),
                           s.nodes[order.target].reg.instructionVersion + 1);
        var s2 := Designate(s1, c, child);
        Reply(SealedIfKeyed(s2, cfg, ReplacementOp, parent, request.operationKey, child, digest, response),
              Answered(response))
  }

  // ---------------------------------------------------------------- activation

  function ActivationAnswer(s: Database, n: Id, token: Token, lease: Time): Response
    requires n < |s.nodes|
  {
    ActivationResponse(n, s.nodes[n].reg.run, s.nodes[n].reg.role, token, lease)
  }

  /** An exact activation retry: the sealed credential, or a rotated one while the node is live. */
  function RecoverActivation(s: Database, cfg: Config, n: Id, key: EnvelopeKey): Reply
    requires n < |s.nodes| && key in s.envelopes
  {
    var envelope := s.envelopes[key];
    var life := s.nodes[n].life;
    if envelope.expiresAt > s.clock then
      match Open(key, envelope)
      case None => Refuse(s, EnvelopeInvalid)
      case Some(response) =>
        if response.ActivationResponse? then Reply(s, Answered(response)) else Refuse(s, EnvelopeInvalid)
    else if !Working(life.status) || !LeaseLive(life, s.clock) then Refuse(s, CredentialRecoveryExpired)
    else
      var response := ActivationAnswer(s, n, s.nextToken, life.lease.value);
      var s1 := SetLife(s, n, life.(token := Some(s.nextToken))).(nextToken := s.nextToken + 1);
      Reply(Seal(s1, cfg, key, s.nodes[n].reg.run, n, envelope.request, response), Answered(response))
  }

  function Activate(s: Database, cfg: Config, throttled: bool, n: Id, request: ActivateRequest): Reply {
    if n >= |s.nodes| then Refuse(s, NotFound)
    else if n !in s.intents || s.intents[n].token != request.activationToken then Refuse(s, InvalidActivationToken)
    else
    var digest := Digest(ActivatePayload(request.activationToken, request.processId));
    var key := EnvelopeKey(ActivationOp, n, if request.operationKey.Some? then request.operationKey.value else "");
    if request.operationKey.Some? && key in s.envelopes then
      if s.envelopes[key].request != digest then Refuse(s, OperationKeyPayloadMismatch)
      else RecoverActivation(s, cfg, n, key)
    else if s.intents[n].consumedAt.Some? then Refuse(s, ActivationTokenUsed)
    else if throttled then Refuse(s, RateLimited)
    else if s.intents[n].expiresAt <= s.clock then Refuse(s, ActivationTokenExpired)
    else if s.nodes[n].life.status != Pending || s.nodes[n].life.token.Some? then Refuse(s, NodeNotPending)
    else
      var evaluation := EvaluationOf(s, n);
      var cause := s.nodes[n].reg.causedBy;
      if !evaluation.allowed then Refuse(s, Default(evaluation.PrimaryReason(), ScopeInvalid))
      else if cause.Some? && !ReplacementIs(s, cause.value, n, ReplacementPending) then
        Refuse(s, ReplacementLifecycleInvalid)
      else
        var response := ActivationAnswer(s, n, s.nextToken, s.clock + cfg.leaseTtl);
        Reply(SealedIfKeyed(Consume(s, cfg, n), cfg, ActivationOp, n, request.operationKey, n, digest, response),
              Answered(response))
  }

  /** Spend the intent, hand out the token, grant the lease, and mark a replacement active. */
  function Consume(s: Database, cfg: Config, n: Id): (r: Database)
    requires n < |s.nodes| && n in s.intents
    requires s.nodes[n].reg.causedBy.Some? ==> s.nodes[n].reg.causedBy.value < |s.commands|
    ensures |r.nodes| == |s.nodes|
  {
    var cause := s.nodes[n].reg.causedBy;
    var life := s.nodes[n].life.(status := Active, token := Some(s.nextToken),
                                 activatedAt := Some(s.clock), lease := Some(s.clock + cfg.leaseTtl));
    var s1 := SetLife(s, n, life)
              .(intents := s.intents[n := s.intents[n].(consumedAt := Some(s.clock))],
                nextToken := s.nextToken + 1);
    if cause.Some? then SetReplacementStatus(s1, cause.value, ReplacementActive) else s1
  }

  predicate ReplacementIs(s: Database, c: Id, n: Id, status: ReplacementStatus) {
    c < |s.commands| && s.commands[c].replacementNode == Some(n) && s.commands[c].replacementStatus == Some(status)
  }

  // ---------------------------------------------------------------- heartbeat, checkpoint

  function Heartbeat(s: Database, cfg: Config, throttled: bool, n: Id, token: Token): Reply {
    var denied := Authenticate(s, n, token);
    if denied.Some? then Refuse(s, denied.value)
    else if throttled then Refuse(s, RateLimited)
    else
      var node := s.nodes[n];
      var evaluation := EvaluationOf(s, n);
      if s.runs[node.reg.run].status != RunRunning then Reply(s, HeartbeatDenied(RunNotActive))
      else if !Working(node.life.status) then Reply(s, HeartbeatDenied(NodeNotActive))
      else if !LeaseLive(node.life, s.clock) then Reply(MarkExpired(s, n), HeartbeatDenied(LeaseIsExpired))
      else if !evaluation.allowed then
        Reply(SetStatus(Acknowledge(s, n, CooperativeAck), n, evaluation.effective),
              HeartbeatDenied(Default(evaluation.PrimaryReason(), ScopeInvalid)))
      else
        Reply(SetLife(s, n, node.life.(lease := Some(s.clock + cfg.leaseTtl))), HeartbeatDone)
  }

  function LastOf(ids: seq<Id>): Option<Id> {
    if ids == [] then None else Some(ids[|ids| - 1])
  }

  function Checkpoint(s: Database, throttled: bool, n: Id, token: Token): Reply {
    var denied := Authenticate(s, n, token);
    if denied.Some? then Refuse(s, denied.value)
    else if throttled then Refuse(s, RateLimited)
    else
      var runtime := RuntimeOf(s, n);
      var effective := EvaluationOf(s, n).effective;
      var ids := AttributedTo(s, n);
      if runtime.allowed then Reply(SetStatus(s, n, Waiting), CheckpointDone(true, Waiting, None, None))
      else if runtime.reason == Some(LeaseIsExpired) then
        Reply(MarkExpired(s, n), CheckpointDone(false, LeaseExpired, LastOf(ids), runtime.reason))
      else if ids != [] then
        Reply(SetStatus(Acknowledge(s, n, CooperativeAck), n, effective),
              CheckpointDone(false, effective, LastOf(ids), runtime.reason))
      else Reply(s, CheckpointDone(false, effective, None, runtime.reason))
  }

  // ---------------------------------------------------------------- complete

  predicate Settled(status: NodeStatus) {
    status == Completed || status == Cancelled || status == Superseded || status == LeaseExpired
  }

  /** A node that root completion may write off: its lease, or its unconsumed intent, has run out. */
  predicate RanOut(s: Database, n: Id)
    requires n < |s.nodes|
  {
    if Working(s.nodes[n].life.status) then !LeaseLive(s.nodes[n].life, s.clock)
    else s.nodes[n].life.status == Pending
         && (n !in s.intents || (s.intents[n].consumedAt.None? && s.intents[n].expiresAt <= s.clock))
  }

  predicate BlocksCompletion(s: Database, run: Id, root: Id, n: Id)
    requires n < |s.nodes|
  {
    && s.nodes[n].reg.run == run && n != root
    && !Settled(s.nodes[n].life.status) && !RanOut(s, n) && EvaluationOf(s, n).allowed
  }

  function DueOthers(s: Database, run: Id, root: Id, upto: nat): (ids: seq<Id>)
    requires upto <= |s.nodes|
    ensures forall i | 0 <= i < |ids| :: ids[i] < |s.nodes|
  {
    if upto == 0 then [] else
      var older := DueOthers(s, run, root, upto - 1);
      var n := upto - 1;
      if s.nodes[n].reg.run == run && n != root && !Settled(s.nodes[n].life.status) && RanOut(s, n)
      then older + [n] else older
  }

  function MarkAllExpired(s: Database, ids: seq<Id>): (r: Database)
    requires forall i | 0 <= i < |ids| :: ids[i] < |s.nodes|
    ensures |r.nodes| == |s.nodes|
  {
    if ids == [] then s else MarkExpired(MarkAllExpired(s, ids[..|ids| - 1]), ids[|ids| - 1])
  }

  /** The node's own completion; nothing when a replacement's lifecycle disagrees. */
  function FinishNode(s: Database, n: Id): Option<Database>
    requires n < |s.nodes|
  {
    var cause := s.nodes[n].reg.causedBy;
    var s1 := SetLife(s, n, s.nodes[n].life.(status := Completed, completedAt := Some(s.clock)));
    if cause.None? then Some(s1)
    else if !ReplacementIs(s, cause.value, n, ReplacementActive) then None
    else Some(SetReplacementStatus(s1, cause.value, ReplacementCompleted))
  }

  function Complete(s: Database, throttled: bool, n: Id, token: Token): Reply {
    var denied := Authenticate(s, n, token);
    if denied.Some? then Refuse(s, denied.value)
    else if throttled then Refuse(s, RateLimited)
    else
      var runtime := RuntimeOf(s, n);
      var run := s.nodes[n].reg.run;
      if !runtime.allowed then Refuse(s, Default(runtime.reason, CompleteDenied))
      else if s.runs[run].root == n then
        if exists other | 0 <= other < |s.nodes| :: BlocksCompletion(s, run, n, other) then Refuse(s, RunHasLiveNodes)
        else
          var s1 := MarkAllExpired(s, DueOthers(s, run, n, |s.nodes|));
          FinishRoot(s, s1, run, n)
      else
        match FinishNode(s, n)
        case None => Refuse(s, ReplacementLifecycleInvalid)
        case Some(s2) => Reply(s2, Finished)
  }

  function FinishRoot(s: Database, s1: Database, run: Id, n: Id): Reply
    requires n < |s1.nodes|
  {
    if run >= |s1.runs| then Refuse(s, NotFound) else
    match TransitionRun(s1.runs[run], RunCompleted, s1.clock)
    case None => Refuse(s, RunTerminalState)
    case Some(closed) =>
      match FinishNode(s1.(runs := s1.runs[run := closed]), n)
      case None => Refuse(s, ReplacementLifecycleInvalid)
      case Some(s2) => Reply(s2, Finished)
  }

  // ---------------------------------------------------------------- the lease scanner

  predicate InScan(s: Database, n: Id, run: Option<Id>)
    requires n < |s.nodes|
  {
    run.None? || s.nodes[n].reg.run == run.value
  }

  function StaleLeases(s: Database, run: Option<Id>, upto: nat): (ids: seq<Id>)
    requires upto <= |s.nodes|
    ensures forall i | 0 <= i < |ids| :: ids[i] < |s.nodes|
  {
    if upto == 0 then [] else
      var older := StaleLeases(s, run, upto - 1);
      var life := s.nodes[upto - 1].life;
      if Working(life.status) && life.lease.Some? && life.lease.value < s.clock && InScan(s, upto - 1, run)
      then older + [upto - 1] else older
  }

  function StaleIntents(s: Database, run: Option<Id>, upto: nat): (ids: seq<Id>)
    requires upto <= |s.nodes|
    ensures forall i | 0 <= i < |ids| :: ids[i] < |s.nodes|
  {
    if upto == 0 then [] else
      var older := StaleIntents(s, run, upto - 1);
      var n := upto - 1;
      if && s.nodes[n].life.status == Pending && n in s.intents && s.intents[n].consumedAt.None?
         && s.intents[n].expiresAt < s.clock && InScan(s, n, run)
      then older + [n] else older
  }

  /** A replacement that never activated lapses with its node. */
  function LapseReplacement(s: Database, n: Id): (r: Database)
    requires n < |s.nodes|
    ensures r.nodes == s.nodes && r.runs == s.runs
  {
    var cause := s.nodes[n].reg.causedBy;
    if cause.Some? && ReplacementIs(s, cause.value, n, ReplacementPending)
    then SetReplacementStatus(s, cause.value, ActivationExpired) else s
  }

  /** A running run fails with its root. */
  function FailRun(s: Database, n: Id): (r: Database)
    requires n < |s.nodes|
    ensures r.nodes == s.nodes && r.commands == s.commands
  {
    var run := s.nodes[n].reg.run;
    if s.runs[run].root == n && s.runs[run].status == RunRunning
    then s.(runs := s.runs[run := TransitionRun(s.runs[run], RunFailed, s.clock).value]) else s
  }

  /** Expire one node: its status, a replacement that never activated, a running run whose root
      it is, and the acknowledgements. */
  function Sweep(s: Database, n: Id): Database
    requires n < |s.nodes|
  {
    Acknowledge(FailRun(LapseReplacement(SetStatus(s, n, LeaseExpired), n), n), n, LeaseExpiredAck)
  }

  function SweepAll(s: Database, ids: seq<Id>): (r: Database)
    requires forall i | 0 <= i < |ids| :: ids[i] < |s.nodes|
    ensures |r.nodes| == |s.nodes|
  {
    if ids == [] then s else Sweep(SweepAll(s, ids[..|ids| - 1]), ids[|ids| - 1])
  }

  function StaleNodes(s: Database, run: Option<Id>): (ids: seq<Id>)
    ensures forall i | 0 <= i < |ids| :: ids[i] < |s.nodes|
  {
    StaleLeases(s, run, |s.nodes|) + StaleIntents(s, run, |s.nodes|)
  }

  function ExpireStale(s: Database, run: Option<Id>): Reply {
    Reply(SweepAll(s, StaleNodes(s, run)), Swept(|StaleNodes(s, run)|))
  }

  // ---------------------------------------------------------------- proposals

  /** The request model's rule for the replacement fields of a command body. */
  predicate Shaped(body: Authorization) {
    if body.kind == CorrectSubtree then body.instruction.Some?
    else && body.instruction.None? && body.expectedTool.None? && body.role.None? && body.behavior.None?
         && body.capabilities.None? && body.arguments.None? && body.maxChildren.None? && body.stability == 0
  }

  function Propose(
    s: Database, cfg: Config, throttled: bool, reporter: Id, token: Token, target: Id,
    kind: ProposalType, reason: string): Reply
  {
    var denied := Authenticate(s, reporter, token);
    if denied.Some? then Refuse(s, denied.value)
    else if throttled then Refuse(s, RateLimited)
    else
      var reg := s.nodes[reporter].reg;
      var runtime := RuntimeOf(s, reporter);
      if !runtime.allowed then Refuse(s, Default(runtime.reason, ReporterNotLive))
      else if ProposeCorrection !in reg.capabilities then Refuse(s, ProposalCapabilityRequired)
      else if target >= |s.nodes| then Refuse(s, NotFound)
      else if s.nodes[target].reg.run != reg.run then Refuse(s, CrossRunProposal)
      else if CountProposals(s.proposals, reg.run) >= cfg.maxProposals then Refuse(s, RunProposalQuota)
      else
        var id := |s.proposals|;
        var payload := ProposalPayload(id, reg.run, reporter, target, kind, reason, s.clock);
        Reply(s.(proposals := s.proposals + [Proposal(payload, ProposalPending, None, None, None, None, None)]),
              Proposed(id))
  }

  function ProposedKind(kind: ProposalType): CommandType {
    if kind == ProposeCorrect then CorrectSubtree else CancelSubtree
  }

  /** Acceptance carries the exact command it authorizes; rejection carries none. */
  function Review(s: Database, p: Id, authorization: Option<Authorization>, reviewer: string): Reply {
    if authorization.Some? && (authorization.value.kind == CancelRun || !Shaped(authorization.value)) then
      Refuse(s, RequestInvalid)
    else if p >= |s.proposals| then Refuse(s, NotFound)
    else
      var proposal := s.proposals[p];
      if proposal.status != ProposalPending then Refuse(s, ProposalAlreadyReviewed)
      else if authorization.Some? && authorization.value.target != proposal.payload.target then
        Refuse(s, ProposalTargetMismatch)
      else if authorization.Some? && authorization.value.kind != ProposedKind(proposal.payload.kind) then
        Refuse(s, ProposalTypeMismatch)
      else
        var reviewed := proposal.(
          status := if authorization.Some? then ProposalAccepted else ProposalRejected,
          reviewer := Some(reviewer),
          acceptedDigest := Some(Digest(proposal.payload)),
          authorized := authorization,
          authorizedDigest := if authorization.Some? then Some(Digest(authorization.value)) else None);
        Reply(s.(proposals := s.proposals[p := reviewed]), Reviewed)
  }

  // ---------------------------------------------------------------- commands

  /** The authority decision; no code means allowed. */
  function MayIssue(
    human: bool, issuer: Option<Registration>, issuerIsRoot: bool, target: Registration, targetIsRoot: bool,
    run: Id, kind: CommandType, targetDescends: bool): Option<Code>
  {
    if target.run != run then Some(CrossRunDenied)
    else if kind == CancelRun && !targetIsRoot then Some(RunCancellationTargetMustBeRoot)
    else if human then None
    else if issuer.None? then Some(IssuerNodeRequired)
    else if issuer.value.run != run then Some(CrossRunDenied)
    else if kind == CancelRun then (if issuerIsRoot then None else Some(RunCancellationRequiresRoot))
    else if issuerIsRoot then None
    else if ControlDescendants !in issuer.value.capabilities then Some(ControlCapabilityRequired)
    else if targetDescends then None
    else Some(NonDescendantTarget)
  }

  /** The earliest command of this issuer with this idempotency key. */
  function FindCommand(commands: seq<Command>, run: Id, issuer: Issuer, key: string): (c: Option<Id>)
    ensures c.Some? ==> c.value < |commands| && IssuedAs(commands[c.value].order, run, issuer, key)
    ensures c.None? ==> forall i | 0 <= i < |commands| :: !IssuedAs(commands[i].order, run, issuer, key)
  {
    if commands == [] then None else
      var last := |commands| - 1;
      var older := FindCommand(commands[..last], run, issuer, key);
      var order := commands[last].order;
      if older.Some? then older
      else if IssuedAs(order, run, issuer, key) then Some(last)
      else None
  }

  predicate IssuedAs(order: Order, run: Id, issuer: Issuer, key: string) {
    order.run == run && order.issuer == issuer && order.key == key
  }

  function IssuerOf(principal: Principal): Issuer {
    match principal
    case AgentPrincipal(node, _) => AgentIssuer(if node.Some? then node.value else 0)
    case HumanPrincipal(id) => HumanIssuer(if id.Some? && id.value != "" then id.value else "human:operator")
  }

  /** Binding of a command to the accepted proposal it claims as its source. */
  function ProposalGuard(s: Database, run: Id, request: CommandRequest): Option<Code> {
    if request.sourceProposal.None? then None
    else if request.sourceProposal.value >= |s.proposals| then Some(SourceProposalNotFound)
    else
      var proposal := s.proposals[request.sourceProposal.value];
      if proposal.payload.run != run then Some(SourceProposalNotFound)
      else if proposal.status != ProposalAccepted then Some(SourceProposalNotAccepted)
      else if proposal.resultingCommand.Some? then Some(SourceProposalAlreadyUsed)
      else if proposal.payload.target != request.body.target then Some(SourceProposalTargetMismatch)
      else if request.body.kind != ProposedKind(proposal.payload.kind) then Some(SourceProposalTypeMismatch)
      else if proposal.acceptedDigest != Some(Digest(proposal.payload)) then Some(SourceProposalDigestMismatch)
      else if || proposal.authorized.None? || proposal.authorizedDigest.None?
              || proposal.authorizedDigest.value != Digest(proposal.authorized.value)
      then Some(SourceProposalAuthorizationCorrupt)
      else if Digest(request.body) != proposal.authorizedDigest.value then Some(SourceProposalCommandMismatch)
      else None
  }

  datatype Plan = Planned(services: Services, manifest: Option<Manifest>) | Unplanned(code: Code)

  /** The replacement manifest of a correction, frozen from policy and the request. */
  function PlanCorrection(s: Database, cfg: Config, request: CommandRequest): Plan
    requires request.body.target < |s.nodes| && Shaped(request.body)
  {
    var body := request.body;
    if body.kind != CorrectSubtree then Planned(s.services, None) else
    var target := s.nodes[body.target].reg;
    var spec := if body.expectedTool.Some? then SpecOf(body.expectedTool.value) else None;
    if body.expectedTool.Some? && spec.None? then Unplanned(UnsupportedTool) else
    var role := if spec.Some? && spec.value.replacementRole.Some? then spec.value.replacementRole.value
                else target.role + "_replacement";
    var exact := if spec.Some? then {spec.value.capability} else {};
    var requested := if body.capabilities.Some? && body.capabilities.value != {} then body.capabilities.value else exact;
    var arguments := if body.arguments.Some? then body.arguments.value else map[];
    if body.role.Some? && body.role.value != role then Unplanned(ReplacementRolePolicy)
    else if body.behavior.Some? && body.behavior.value != Cooperative then Unplanned(ReplacementBehaviorPolicy)
    else if requested != exact then Unplanned(ReplacementCapabilityPolicy)
    else if spec.Some? && !ArgumentsValid(spec.value, arguments) then Unplanned(InvalidToolArguments)
    else if spec.None? && arguments != map[] then Unplanned(ReplacementArgumentsWithoutTool)
    else if body.maxChildren.Some? && body.maxChildren.value != 0 then Unplanned(ReplacementChildBudgetPolicy)
    else
      var built := if spec.Some?
        then BuildContract(s.services, cfg.environment, target.run, body.expectedTool.value, spec.value,
                           arguments, body.stability, s.clock)
        else (s.services, Contract(None, Digest(map[]), cfg.environment, {}, 0, body.stability, []));
      Planned(built.0, Some(Manifest(role, Cooperative, Digest(body.instruction.value),
                                     target.instructionVersion + 1, requested, 0, built.1)))
  }

  /** The designated creator of a replacement: the live parent, else the live root. */
  function ReplacementParent(s: Database, target: Id): Option<Id>
    requires target < |s.nodes|
  {
    var reg := s.nodes[target].reg;
    var root := s.runs[reg.run].root;
    if reg.parent.Some? && reg.parent.value < |s.nodes| && RuntimeOf(s, reg.parent.value).allowed then reg.parent
    else if root < |s.nodes| && root != target && RuntimeOf(s, root).allowed then Some(root)
    else None
  }

  /** Bump the one targeted scope and insert the command; a run cancellation also closes the run. */
  function CommitCommand(
    s: Database, issuer: Issuer, request: CommandRequest, scope: Id, parent: Option<Id>, manifest: Option<Manifest>):
    (r: Option<Database>)
    requires request.body.target < |s.nodes| && scope < |s.scopes|
  {
    var run := s.nodes[request.body.target].reg.run;
    var kind := request.body.kind;
    var live := s.scopes[scope];
    var bumped := live.(version := live.version + 1,
                        status := if kind == CorrectSubtree then ScopeSuperseded else ScopeCancelled);
    var order := Order(run, issuer, request.key, Digest(request), kind, request.body.target, scope,
                       live.version, live.version + 1, request.sourceProposal, parent, request.body.instruction,
                       request.body.expectedTool, manifest,
                       if manifest.Some? then Some(Digest(manifest.value)) else None, s.clock);
    var command := Command(order, None, if kind == CorrectSubtree then Some(ReplacementPending) else None);
    var proposals := if request.sourceProposal.Some? && request.sourceProposal.value < |s.proposals|
      then s.proposals[request.sourceProposal.value :=
             s.proposals[request.sourceProposal.value].(resultingCommand := Some(|s.commands|))]
      else s.proposals;
    var closed := if kind == CancelRun then TransitionRun(s.runs[run], RunCancelled, s.clock) else Some(s.runs[run]);
    if closed.None? then None else
      Some(s.(scopes := s.scopes[scope := bumped], commands := s.commands + [command],
              runs := s.runs[run := closed.value], proposals := proposals))
  }

  /** Who is asking, and whether the target is theirs to control. */
  ghost function AuthorityGuard(s: Database, principal: Principal, request: CommandRequest): Option<Code>
    requires request.body.target < |s.nodes|
  {
    var target := s.nodes[request.body.target].reg;
    var run := s.runs[target.run];
    if principal.AgentPrincipal? && (principal.node.None? || principal.token.None?) then Some(PrincipalIncomplete)
    else if principal.AgentPrincipal? && Authenticate(s, principal.node.value, principal.token.value).Some? then
      Authenticate(s, principal.node.value, principal.token.value)
    else
      var issuer := if principal.AgentPrincipal? then Some(s.nodes[principal.node.value].reg) else None;
      var issuerIsRoot := principal.AgentPrincipal? && principal.node.value == run.root;
      var descends := && principal.AgentPrincipal? && !issuerIsRoot
                      && principal.node.value != request.body.target
                      && Reaches(ParentsOf(s.nodes, target.run, None), principal.node.value, request.body.target);
      var denied := MayIssue(principal.HumanPrincipal?, issuer, issuerIsRoot, target,
                             request.body.target == run.root, target.run, request.body.kind, descends);
      if denied.Some? then denied
      else if request.body.target == run.root && request.body.kind != CancelRun then Some(RootSubtreeControlUnsupported)
      else None
  }

  ghost function IssueCommand(
    s: Database, cfg: Config, throttled: bool, principal: Principal, request: CommandRequest): Reply
  {
    if !Shaped(request.body) then Refuse(s, RequestInvalid)
    else if request.body.target >= |s.nodes| then Refuse(s, NotFound)
    else
      var authority := AuthorityGuard(s, principal, request);
      if authority.Some? then Refuse(s, authority.value) else
      var run := s.nodes[request.body.target].reg.run;
      var existing := FindCommand(s.commands, run, IssuerOf(principal), request.key);
      if existing.Some? then
        if s.commands[existing.value].order.request != Digest(request) then Refuse(s, IdempotencyPayloadMismatch)
        else Reply(s, Issued(existing.value, true))
      else if throttled then Refuse(s, RateLimited)
      else if principal.AgentPrincipal? && !RuntimeOf(s, principal.node.value).allowed then Refuse(s, IssuerNotLive)
      else NewCommand(s, cfg, IssuerOf(principal), request)
  }

  /** The part of issuing that follows authentication, replay and the issuer's liveness. */
  function NewCommand(s: Database, cfg: Config, issuer: Issuer, request: CommandRequest): Reply
    requires Shaped(request.body) && request.body.target < |s.nodes|
  {
    var target := s.nodes[request.body.target].reg;
    var run := target.run;
    var source := ProposalGuard(s, run, request);
    var scope := if request.body.kind == CancelRun then s.runs[run].runScope else target.ownScope;
    if s.runs[run].status != RunRunning then Refuse(s, RunTerminalState)
    else if CountCommands(s.commands, run) >= cfg.maxCommands then Refuse(s, RunCommandQuota)
    else if source.Some? then Refuse(s, source.value)
    else PlannedCommand(s, issuer, request, scope, ReplacementParent(s, request.body.target),
                        PlanCorrection(s, cfg, request))
  }

  /** Commit the command as planned, or nothing. */
  function PlannedCommand(
    s: Database, issuer: Issuer, request: CommandRequest, scope: Id, parent: Option<Id>, plan: Plan): Reply
    requires request.body.target < |s.nodes|
  {
    if plan.Unplanned? then Refuse(s, plan.code)
    else if request.body.kind == CorrectSubtree && parent.None? then Refuse(s, ReplacementParentUnavailable)
    else if scope >= |s.scopes| || s.scopes[scope].run != s.nodes[request.body.target].reg.run then Refuse(s, ScopeNotFound)
    else if s.scopes[scope].status != ScopeActive then Refuse(s, ScopeNotActive)
    else
      var designated := if request.body.kind == CorrectSubtree then parent else None;
      match CommitCommand(s.(services := plan.services), issuer, request, scope, designated, plan.manifest)
      case None => Refuse(s, RunTerminalState)
      case Some(s1) => Reply(s1, Issued(|s.commands|, false))
  }

  // ---------------------------------------------------------------- the action gateway

  predicate StaleReason(code: Code) {
    code == ScopeIsCancelled || code == ScopeIsSuperseded || code == ScopeVersionMismatch
  }

  function FindAttempt(attempts: seq<Attempt>, node: Id, key: string): (a: Option<Id>)
    ensures a.Some? ==> a.value < |attempts| && AttemptedAs(attempts[a.value], node, key)
    ensures a.None? ==> forall i | 0 <= i < |attempts| :: !AttemptedAs(attempts[i], node, key)
  {
    if attempts == [] then None else
      var last := |attempts| - 1;
      var older := FindAttempt(attempts[..last], node, key);
      if older.Some? then older
      else if AttemptedAs(attempts[last], node, key) then Some(last)
      else None
  }

  predicate AttemptedAs(attempt: Attempt, node: Id, key: string) {
    attempt.node == node && attempt.request.key == key
  }

  /** What a replacement's action is checked against; no code means it may proceed. */
  function RecoveryContractDenial(
    s: Database, cfg: Config, n: Id, request: ActionRequest, spec: ToolSpec): Option<Code>
    requires n < |s.nodes|
  {
    var reg := s.nodes[n].reg;
    if reg.causedBy.None? then None
    else if || reg.causedBy.value >= |s.commands|
            || s.commands[reg.causedBy.value].order.kind != CorrectSubtree
            || s.commands[reg.causedBy.value].order.run != reg.run
    then Some(RecoveryCommandMismatch)
    else
      var command := s.commands[reg.causedBy.value];
      var order := command.order;
      if command.replacementNode != Some(n) then Some(RecoveryNodeMismatch)
      else if order.manifest.None? || order.manifestDigest != Some(Digest(order.manifest.value)) then
        Some(RecoveryManifestInvalid)
      else
        var manifest := order.manifest.value;
        var contract := manifest.contract;
        if reg.role != manifest.role then Some(RecoveryRoleMismatch)
        else if reg.behavior != manifest.behavior then Some(RecoveryBehaviorMismatch)
        else if reg.capabilities != manifest.capabilities then Some(RecoveryCapabilitiesMismatch)
        else if Digest(reg.instruction) != manifest.instructionDigest then Some(RecoveryInstructionMismatch)
        else if reg.instructionVersion != manifest.instructionVersion then Some(RecoveryInstructionVersionMismatch)
        else if contract.environment != cfg.environment then Some(RecoveryEnvironmentMismatch)
        else if Some(request.tool) != contract.expectedTool || order.expectedTool != contract.expectedTool then
          Some(RecoveryToolMismatch)
        else if spec.resources != contract.resources then Some(RecoveryResourceMismatch)
        else if Digest(request.arguments) != contract.argumentsDigest then Some(RecoveryArgumentsMismatch)
        else if CountCommitted(s.attempts, n) >= contract.maxInvocations then Some(RecoveryInvocationLimitExceeded)
        else None
  }

  /** The admission ladder; no code means the action may commit. */
  function Admission(s: Database, cfg: Config, n: Id, request: ActionRequest, spec: ToolSpec): Option<Code>
    requires n < |s.nodes|
  {
    var node := s.nodes[n];
    var evaluation := EvaluationOf(s, n);
    if s.runs[node.reg.run].status != RunRunning then Some(RunNotActive)
    else if !Working(node.life.status) then Some(NodeNotActive)
    else if !LeaseLive(node.life, s.clock) then Some(LeaseIsExpired)
    else if !evaluation.allowed then Some(Default(evaluation.PrimaryReason(), ScopeInvalid))
    else
      var contract := RecoveryContractDenial(s, cfg, n, request, spec);
      if contract.Some? then contract
      else if spec.capability !in node.reg.capabilities then Some(ToolNotAllowed)
      else None
  }

  function FirstMismatch(mismatches: seq<Mismatch>, scope: Id): Option<Mismatch> {
    if mismatches == [] then None
    else if mismatches[0].scope == scope then Some(mismatches[0])
    else FirstMismatch(mismatches[1..], scope)
  }

  function RecordMatches(
    matches: map<MatchKey, Mismatch>, commands: seq<Command>, ids: seq<Id>, mismatches: seq<Mismatch>, action: Id):
    map<MatchKey, Mismatch>
    requires forall i | 0 <= i < |ids| :: ids[i] < |commands|
  {
    if ids == [] then matches else
      var c := ids[|ids| - 1];
      var older := RecordMatches(matches, commands, ids[..|ids| - 1], mismatches, action);
      match FirstMismatch(mismatches, commands[c].order.targetScope)
      case None => older
      case Some(m) =>
        if m.liveVersion.None? || m.liveStatus.None? then older else older[MatchKey(action, c) := m]
  }

  /** The mismatch a denial reports: that of its latest command, else the outermost one. */
  function ReportedMismatch(commands: seq<Command>, ids: seq<Id>, mismatches: seq<Mismatch>): Option<Mismatch>
    requires forall i | 0 <= i < |ids| :: ids[i] < |commands|
  {
    var own := if ids == [] then None
               else FirstMismatch(mismatches, commands[ids[|ids| - 1]].order.targetScope);
    if own.Some? then own
    else if mismatches != [] then Some(mismatches[0])
    else None
  }

  /** Commit a denial: the attempt, its command matches, the node's status, the acknowledgements. */
  function DenyAction(s: Database, n: Id, request: ActionRequest, spec: ToolSpec, code: Code): Database
    requires n < |s.nodes|
  {
    var run := s.nodes[n].reg.run;
    var evaluation := EvaluationOf(s, n);
    var action := |s.attempts|;
    if StaleReason(code) then
      var ids := AttributedTo(s, n);
      var attempt := Attempt(run, n, request, spec.sideEffecting, Deny, Some(code), LastOf(ids),
                             ReportedMismatch(s.commands, ids, evaluation.mismatches), s.clock, None, None);
      var s1 := s.(attempts := s.attempts + [attempt],
                   matches := RecordMatches(s.matches, s.commands, ids, evaluation.mismatches, action));
      Acknowledge(SetStatus(s1, n, evaluation.effective), n, GatewayBlockAck)
    else
      s.(attempts := s.attempts + [Attempt(run, n, request, spec.sideEffecting, Deny, Some(code), None, None,
                                           s.clock, None, None)])
  }

  /** Commit an allowed action together with the service rows it changes. */
  function AdmitAction(s: Database, n: Id, request: ActionRequest, spec: ToolSpec): Database
    requires n < |s.nodes|
  {
    var run := s.nodes[n].reg.run;
    var ran := RunTool(s.services, run, |s.attempts|, request.tool, s.clock);
    s.(attempts := s.attempts + [Attempt(run, n, request, spec.sideEffecting, Allow, None, None, None,
                                         s.clock, Some(ran.1), Some(s.clock))],
       services := ran.0)
  }

  function ExecuteAction(
    s: Database, cfg: Config, throttled: bool, n: Id, token: Token, request: ActionRequest): Reply
  {
    var denied := Authenticate(s, n, token);
    if denied.Some? then Refuse(s, denied.value) else
    var existing := FindAttempt(s.attempts, n, request.key);
    if existing.Some? then
      var attempt := s.attempts[existing.value];
      if attempt.request != request then Refuse(s, IdempotencyPayloadMismatch)
      else Reply(s, ActionDecided(existing.value, attempt.decision, attempt.reason, true))
    else if throttled then Refuse(s, RateLimited)
    else if SpecOf(request.tool).None? then Refuse(s, UnsupportedTool)
    else
      var spec := SpecOf(request.tool).value;
      var code := Admission(s, cfg, n, request, spec);
      if CountAttempts(s.attempts, s.nodes[n].reg.run) >= cfg.maxActions then Refuse(s, RunActionQuota)
      else if code.Some? then
        Reply(DenyAction(s, n, request, spec, code.value), ActionDecided(|s.attempts|, Deny, code, false))
      else if !ArgumentsValid(spec, request.arguments) then Refuse(s, InvalidToolArguments)
      else Reply(AdmitAction(s, n, request, spec), ActionDecided(|s.attempts|, Allow, None, false))
  }

  // ---------------------------------------------------------------- steps and runs

  datatype Op =
    | OpCreateRun(role: string, instruction: Json, capabilities: set<Capability>)
    | OpSeed(run: Id)
    | OpSpawn(parent: Id, token: Token, spawn: SpawnRequest)
    | OpReplace(parent: Id, token: Token, command: Id, spawn: SpawnRequest)
    | OpActivate(node: Id, activation: ActivateRequest)
    | OpHeartbeat(node: Id, token: Token)
    | OpCheckpoint(node: Id, token: Token)
    | OpComplete(node: Id, token: Token)
    | OpIssue(principal: Principal, order: CommandRequest)
    | OpExecute(node: Id, token: Token, action: ActionRequest)
    | OpExpire(scan: Option<Id>)
    | OpPropose(node: Id, token: Token, target: Id, kind: ProposalType, reason: string)
    | OpReview(proposal: Id, authorization: Option<Authorization>, reviewer: string)

  /** A call, the time since the previous transaction, and whether its rate limiter refuses it. */
  datatype Event = Event(wait: nat, throttled: bool, op: Op)

  ghost function Apply(s: Database, cfg: Config, throttled: bool, op: Op): Reply {
    match op
    case OpCreateRun(role, instruction, capabilities) => CreateRun(s, cfg, role, instruction, capabilities)
    case OpSeed(run) => SeedScenario(s, run)
    case OpSpawn(parent, token, spawn) => CreateSpawn(s, cfg, throttled, parent, token, spawn)
    case OpReplace(parent, token, command, spawn) => CreateReplacement(s, cfg, throttled, parent, token, command, spawn)
    case OpActivate(node, activation) => Activate(s, cfg, throttled, node, activation)
    case OpHeartbeat(node, token) => Heartbeat(s, cfg, throttled, node, token)
    case OpCheckpoint(node, token) => Checkpoint(s, throttled, node, token)
    case OpComplete(node, token) => Complete(s, throttled, node, token)
    case OpIssue(principal, order) => IssueCommand(s, cfg, throttled, principal, order)
    case OpExecute(node, token, action) => ExecuteAction(s, cfg, throttled, node, token, action)
    case OpExpire(scan) => ExpireStale(s, scan)
    case OpPropose(node, token, target, kind, reason) => Propose(s, cfg, throttled, node, token, target, kind, reason)
    case OpReview(proposal, authorization, reviewer) => Review(s, proposal, authorization, reviewer)
  }

  /** Transactions are serialized, and the clock strictly increases from one to the next. */
  function Tick(s: Database, e: Event): Database { s.(clock := s.clock + 1 + e.wait) }

  ghost function Step(s: Database, cfg: Config, e: Event): Reply { Apply(Tick(s, e), cfg, e.throttled, e.op) }

  ghost function After(s: Database, cfg: Config, events: seq<Event>): Database
    decreases |events|
  {
    if events == [] then s else After(Step(s, cfg, events[0]).db, cfg, events[1..])
  }
}
