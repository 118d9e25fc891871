/** The rows of the TraceFence registry and the requests its services accept.

    Every table only grows, so a table is a sequence and a row's identifier is its
    index: a fresh identifier is the length of the table.  Digests and token hashes are
    injective, so a digest is its pre-image in a wrapper and a stored token hash is the
    token; a sealed envelope keeps the authenticated data it was sealed under. */
module Domain {
  import opened Options

  type Id = nat
  type Time = nat
  type Token = nat
  type Json = string
  type Arguments = map<string, string>

  datatype Digest<+T> = Digest(preimage: T)

  datatype RunStatus = RunCreated | RunRunning | RunCompleted | RunCancelled | RunFailed
  datatype NodeStatus = Pending | Active | Waiting | Completed | Cancelled | Superseded | LeaseExpired
  datatype ScopeStatus = ScopeActive | ScopeCancelled | ScopeSuperseded
  datatype CommandType = CancelRun | CancelSubtree | CorrectSubtree
  datatype ReplacementStatus =
    | ReplacementPending | ActivationExpired | ReplacementActive | ReplacementCompleted | ReplacementFailed
  datatype ProposalType = ProposeCancel | ProposeCorrect
  datatype ProposalStatus = ProposalPending | ProposalAccepted | ProposalRejected
  datatype AckKind = CooperativeAck | GatewayBlockAck | LeaseExpiredAck
  datatype RecoveryOp = SpawnOp | ReplacementOp | ActivationOp
  datatype Behavior = Cooperative | NonCompliant | OtherBehavior

  datatype ToolName = ReadMetrics | RestartPostgres | ResetRedisPool | OtherTool(name: string)
  datatype Capability =
    | ControlDescendants | ProposeCorrection | UseReadMetrics | UseRestartPostgres | UseResetRedisPool
  datatype ServiceName = Postgres | Redis | Checkout
  datatype ServiceStatus = Healthy | Degraded | PoolExhausted
  datatype Resource = MetricsResource | PostgresResource | RedisResource | CheckoutResource

  /** Reason codes of refusals and denials. */
  datatype Code =
    | NotFound | AuthenticationFailed | RequestInvalid | RateLimited | PrincipalIncomplete
    | RunNotActive | NodeNotActive | LeaseIsExpired
    | ScopeNotFound | ScopeIsCancelled | ScopeIsSuperseded | ScopeVersionMismatch | ScopeInvalid
    | SpawnDenied | CompleteDenied | ReplacementParentDenied | ReporterNotLive | IssuerNotLive
    | ActiveRunQuota | GraphDepthQuota | RunNodeQuota | NodeChildQuota | RunCommandQuota | RunActionQuota
    | RunProposalQuota | ReplacementManifestMissing | ReplacementChildBudget | CapabilityNotDelegable
    | OperationKeyPayloadMismatch | CredentialRecoveryExpired | EnvelopeInvalid | RecoverySubjectMismatch
    | InvalidActivationToken | ActivationTokenUsed | ActivationTokenExpired | NodeNotPending
    | ReplacementLifecycleInvalid | RunHasLiveNodes | RunTerminalState | RunTransitionInvalid
    | CrossRunDenied | RunCancellationTargetMustBeRoot | IssuerNodeRequired | RunCancellationRequiresRoot
    | ControlCapabilityRequired | NonDescendantTarget | RootSubtreeControlUnsupported
    | IdempotencyPayloadMismatch
    | SourceProposalNotFound | SourceProposalNotAccepted | SourceProposalAlreadyUsed
    | SourceProposalTargetMismatch | SourceProposalTypeMismatch | SourceProposalDigestMismatch
    | SourceProposalAuthorizationCorrupt | SourceProposalCommandMismatch
    | ReplacementRolePolicy | ReplacementBehaviorPolicy | ReplacementCapabilityPolicy
    | ReplacementArgumentsWithoutTool | ReplacementChildBudgetPolicy | ReplacementParentUnavailable
    | ScopeNotActive | UnsupportedTool | InvalidToolArguments
    | ReplacementCommandInvalid | CrossRunReplacement | ReplacementParentUnauthorized
    | ReplacementAlreadyCreated | CorrectionLineageInvalid | ReplacementParentMismatch
    | CorrectionScopeMismatch | CorrectionScopeNotSuperseded | ReplacementInstructionMismatch
    | ReplacementManifestInvalid | ReplacementManifestMismatch
    | RecoveryCommandMismatch | RecoveryNodeMismatch | RecoveryManifestInvalid | RecoveryRoleMismatch
    | RecoveryBehaviorMismatch | RecoveryCapabilitiesMismatch | RecoveryInstructionMismatch
    | RecoveryInstructionVersionMismatch | RecoveryEnvironmentMismatch | RecoveryToolMismatch
    | RecoveryResourceMismatch | RecoveryArgumentsMismatch | RecoveryInvocationLimitExceeded
    | ToolNotAllowed | ScenarioAlreadyInitialized | ScenarioTooLate
    | ProposalCapabilityRequired | CrossRunProposal | ProposalAlreadyReviewed
    | ProposalTargetMismatch | ProposalTypeMismatch

  datatype Config = Config(
    leaseTtl: nat, intentTtl: nat, recoveryTtl: nat, environment: string,
    maxActiveRuns: nat, maxNodes: nat, maxDepth: nat, maxChildren: nat,
    maxCommands: nat, maxActions: nat, maxProposals: nat)

  // ---------------------------------------------------------------- rows

  datatype Run = Run(status: RunStatus, root: Id, runScope: Id, finishedAt: Option<Time>)

  /** One inherited scope with the version the node registered under. */
  datatype Snap = Snap(scope: Id, version: nat)

  /** The columns of a node that never change after it is registered. */
  datatype Registration = Registration(
    run: Id, parent: Option<Id>, supersedes: Option<Id>, causedBy: Option<Id>,
    role: string, behavior: Behavior, generation: nat, ownScope: Id, snapshot: seq<Snap>,
    instructionVersion: nat, instruction: Json, capabilities: set<Capability>, registeredAt: Time)

  /** The columns of a node that its lifecycle updates in place. */
  datatype Life = Life(
    status: NodeStatus, token: Option<Token>, activatedAt: Option<Time>,
    completedAt: Option<Time>, lease: Option<Time>)

  datatype Node = Node(reg: Registration, life: Life)

  datatype Scope = Scope(run: Id, owner: Option<Id>, version: nat, status: ScopeStatus)

  datatype Intent = Intent(parent: Id, token: Token, expiresAt: Time, consumedAt: Option<Time>)

  datatype Response =
    | SpawnResponse(child: Id, activationToken: Token, expiresAt: Time)
    | ActivationResponse(node: Id, run: Id, role: string, nodeToken: Token, lease: Time)

  /** What a recovery request digest binds: the payload and, for a replacement, its command. */
  datatype RecoveryPayload =
    | SpawnPayload(context: Option<Id>, role: string, instruction: Json,
                   capabilities: set<Capability>, behavior: Behavior)
    | ActivatePayload(activationToken: Token, processId: Option<nat>)

  datatype EnvelopeKey = EnvelopeKey(op: RecoveryOp, caller: Id, key: string)
  datatype SealedData = SealedData(key: EnvelopeKey, request: Digest<RecoveryPayload>, subject: Id)
  datatype Sealed = Sealed(aad: SealedData, response: Response)
  datatype Envelope = Envelope(
    run: Id, subject: Id, request: Digest<RecoveryPayload>, content: Sealed, expiresAt: Time)

  datatype PostField = FieldStatus | FieldRestartCount | FieldPoolResetCount
  datatype PostValue = StatusValue(status: ServiceStatus) | CountValue(count: nat)
  datatype Postcondition = Postcondition(
    service: ServiceName, field: PostField, expected: PostValue, requireAction: bool)
  datatype Contract = Contract(
    expectedTool: Option<ToolName>, argumentsDigest: Digest<Arguments>, environment: string,
    resources: set<Resource>, maxInvocations: nat, stability: nat, postconditions: seq<Postcondition>)
  datatype Manifest = Manifest(
    role: string, behavior: Behavior, instructionDigest: Digest<Json>, instructionVersion: nat,
    capabilities: set<Capability>, maxChildren: nat, contract: Contract)

  datatype Issuer = AgentIssuer(node: Id) | HumanIssuer(principal: string)

  /** The columns of a command that never change after it commits. */
  datatype Order = Order(
    run: Id, issuer: Issuer, key: string, request: Digest<CommandRequest>, kind: CommandType,
    target: Id, targetScope: Id, fromVersion: nat, toVersion: nat, sourceProposal: Option<Id>,
    replacementParent: Option<Id>, instruction: Option<Json>, expectedTool: Option<ToolName>,
    manifest: Option<Manifest>, manifestDigest: Option<Digest<Manifest>>, createdAt: Time)

  datatype Command = Command(
    order: Order, replacementNode: Option<Id>, replacementStatus: Option<ReplacementStatus>)

  datatype AckKey = AckKey(command: Id, node: Id, kind: AckKind)
  datatype Ack = Ack(version: nat, observedAt: Time)

  datatype Mismatch = Mismatch(
    scope: Id, snapshotVersion: nat, liveVersion: Option<nat>, liveStatus: Option<ScopeStatus>, reason: Code)

  datatype ToolResult =
    | MetricsResult(services: map<ServiceName, Service>)
    | RestartResult(restartCount: nat)
    | ResetResult(poolResetCount: nat)

  datatype Decision = Allow | Deny
  datatype Attempt = Attempt(
    run: Id, node: Id, request: ActionRequest, sideEffecting: bool, decision: Decision,
    reason: Option<Code>, matchedCommand: Option<Id>, matchedScope: Option<Mismatch>,
    attemptedAt: Time, result: Option<ToolResult>, committedAt: Option<Time>)

  datatype MatchKey = MatchKey(action: Id, command: Id)

  datatype ProposalPayload = ProposalPayload(
    id: Id, run: Id, reporter: Id, target: Id, kind: ProposalType, reason: string, createdAt: Time)
  datatype Proposal = Proposal(
    payload: ProposalPayload, status: ProposalStatus, reviewer: Option<string>,
    acceptedDigest: Option<Digest<ProposalPayload>>, authorized: Option<Authorization>,
    authorizedDigest: Option<Digest<Authorization>>, resultingCommand: Option<Id>)

  datatype ServiceKey = ServiceKey(run: Id, name: ServiceName)
  datatype Service = Service(
    status: ServiceStatus, restartCount: nat, poolResetCount: nat, lastAction: Option<Id>, updatedAt: Time)

  // ---------------------------------------------------------------- requests

  datatype SpawnRequest = SpawnRequest(
    operationKey: Option<string>, role: string, instruction: Json,
    capabilities: set<Capability>, behavior: Behavior)

  datatype ActivateRequest = ActivateRequest(
    operationKey: Option<string>, activationToken: Token, processId: Option<nat>)

  /** The body of a command that an operator authorizes when accepting a proposal. */
  datatype Authorization = Authorization(
    kind: CommandType, target: Id, reason: string, instruction: Option<Json>,
    expectedTool: Option<ToolName>, role: Option<string>, behavior: Option<Behavior>,
    capabilities: Option<set<Capability>>, arguments: Option<Arguments>,
    maxChildren: Option<nat>, stability: nat)

  datatype CommandRequest = CommandRequest(
    key: string, sourceProposal: Option<Id>, body: Authorization)

  datatype ActionRequest = ActionRequest(key: string, tool: ToolName, arguments: Arguments)

  datatype Principal = AgentPrincipal(node: Option<Id>, token: Option<Token>) | HumanPrincipal(id: Option<string>)

  datatype Outcome =
    | Refused(code: Code)                       // the service raised and its transaction rolled back
    | RunMade(run: Id, root: Id, token: Token)
    | Answered(response: Response)
    | HeartbeatDone
    | HeartbeatDenied(code: Code)               // raised after the denial was committed
    | CheckpointDone(allowed: bool, effective: NodeStatus, blame: Option<Id>, reason: Option<Code>)
    | Finished
    | Issued(command: Id, duplicate: bool)
    | ActionDecided(action: Id, decision: Decision, reason: Option<Code>, duplicate: bool)
    | Swept(count: nat)
    | Proposed(proposal: Id)
    | Reviewed

  // ---------------------------------------------------------------- the database

  datatype State = State(
    clock: Time, nextToken: Token,
    runs: seq<Run>, nodes: seq<Node>, scopes: seq<Scope>,
    intents: map<Id, Intent>, envelopes: map<EnvelopeKey, Envelope>,
    commands: seq<Command>, acks: map<AckKey, Ack>,
    attempts: seq<Attempt>, matches: map<MatchKey, Mismatch>,
    proposals: seq<Proposal>, services: map<ServiceKey, Service>)

  const EMPTY: State := State(0, 0, [], [], [], map[], map[], [], map[], [], map[], [], map[])

  predicate Terminal(status: RunStatus) {
    status == RunCompleted || status == RunCancelled || status == RunFailed
  }

  /** The two schema constraints that lookups rely on: a node's run exists, and a run carries a
      finish time exactly when it is terminal. */
  predicate Keyed(s: State) {
    && (forall n | 0 <= n < |s.nodes| :: s.nodes[n].reg.run < |s.runs|)
    && (forall r | 0 <= r < |s.runs| :: Terminal(s.runs[r].status) <==> s.runs[r].finishedAt.Some?)
  }

  type Database = s: State | Keyed(s) witness EMPTY
}
