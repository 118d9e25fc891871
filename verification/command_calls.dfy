/** What issuing a command, proposing and reviewing do: their answers and the whole state after them,
    told from rows and commands and not from the services' bodies. */
module CommandCalls {
  import opened Options
  import opened Domain
  import opened Scopes
  import opened Tools
  import opened Transitions
  import opened Counts
  import opened Lineage
  import opened Tree
  import opened Fences
  import opened Revocation
  import opened Replacements
  import opened Conservation
  import opened Attribution
  import opened Standing
  import opened Authority
  import opened Coherence
  import opened Growth
  import opened LeaseCalls

  // ---------------------------------------------------------------- who may command

  /** Why the caller may not command the target. An agent needs its token and, unless it is the root of
      the target's run, the control capability and a target strictly below it; only a run cancellation
      aims at a root, and only a human or the root cancels a run. */
  ghost function Unauthorized(s: Database, principal: Principal, body: Authorization): Option<Code>
    requires body.target < |s.nodes|
  {
    var run := s.nodes[body.target].reg.run;
    var root := s.runs[run].root;
    var misaimed := if body.kind == CancelRun && body.target != root then Some(RunCancellationTargetMustBeRoot) else None;
    var unsupported := if body.kind != CancelRun && body.target == root then Some(RootSubtreeControlUnsupported) else None;
    match principal
    case HumanPrincipal(_) => if misaimed.Some? then misaimed else unsupported
    case AgentPrincipal(node, token) =>
      if node.None? || token.None? then Some(PrincipalIncomplete)
      else if node.value >= |s.nodes| then Some(NotFound)
      else if s.nodes[node.value].life.token != token then Some(AuthenticationFailed)
      else if misaimed.Some? then misaimed
      else if s.nodes[node.value].reg.run != run then Some(CrossRunDenied)
      else if node.value == root then unsupported
      else if body.kind == CancelRun then Some(RunCancellationRequiresRoot)
      else if ControlDescendants !in s.nodes[node.value].reg.capabilities then Some(ControlCapabilityRequired)
      else if node.value == body.target || !Under(s.nodes, node.value, body.target) then Some(NonDescendantTarget)
      else unsupported
  }

  lemma AuthorityExactly(s: Database, principal: Principal, request: CommandRequest)
    requires WellTreed(s) && request.body.target < |s.nodes|
    ensures AuthorityGuard(s, principal, request) == Unauthorized(s, principal, request.body)
  {
    hide Reaches, ParentsOf, Under;
    if principal.AgentPrincipal? && principal.node.Some? {
      UnderIsReaches(s, principal.node.value, request.body.target);
    }
  }

  // ---------------------------------------------------------------- what a correction plans

  /** The role, capabilities and arguments that the policy leaves no choice about. */
  function PolicyRole(s: State, body: Authorization): string
    requires body.target < |s.nodes|
  {
    match body.expectedTool
    case Some(RestartPostgres) => "postgres_recovery"
    case Some(ResetRedisPool) => "redis_recovery"
    case _ => s.nodes[body.target].reg.role + "_replacement"
  }

  function PolicyCapabilities(tool: Option<ToolName>): set<Capability> {
    match tool
    case Some(ReadMetrics) => {UseReadMetrics}
    case Some(RestartPostgres) => {UseRestartPostgres}
    case Some(ResetRedisPool) => {UseResetRedisPool}
    case _ => {}
  }

  /** Why a correction's wishes are refused: they may only repeat the policy. */
  function OffPolicy(s: State, body: Authorization): Option<Code>
    requires body.target < |s.nodes|
  {
    var arguments := if body.arguments.Some? then body.arguments.value else map[];
    if body.kind != CorrectSubtree then None
    else if body.expectedTool.Some? && body.expectedTool.value.OtherTool? then Some(UnsupportedTool)
    else if body.role.Some? && body.role.value != PolicyRole(s, body) then Some(ReplacementRolePolicy)
    else if body.behavior.Some? && body.behavior.value != Cooperative then Some(ReplacementBehaviorPolicy)
    else if body.capabilities.Some? && body.capabilities.value != {}
            && body.capabilities.value != PolicyCapabilities(body.expectedTool)
    then Some(ReplacementCapabilityPolicy)
    else if arguments != map[] then
      Some(if body.expectedTool.Some? then InvalidToolArguments else ReplacementArgumentsWithoutTool)
    else if body.maxChildren.Some? && body.maxChildren.value != 0 then Some(ReplacementChildBudgetPolicy)
    else None
  }

  function ToolResources(tool: Option<ToolName>): set<Resource> {
    match tool
    case Some(ReadMetrics) => {MetricsResource}
    case Some(RestartPostgres) => {PostgresResource}
    case Some(ResetRedisPool) => {CheckoutResource, PostgresResource, RedisResource}
    case _ => {}
  }

  /** What the tool is to bring about: healthy services, one more run of the tool, and no run of another. */
  function Effects(attempts: seq<Attempt>, run: Id, tool: Option<ToolName>): seq<Postcondition> {
    var restarts, resets := CountRan(attempts, run, RestartPostgres), CountRan(attempts, run, ResetRedisPool);
    match tool
    case Some(RestartPostgres) =>
      [Postcondition(Postgres, FieldStatus, StatusValue(Healthy), true),
       Postcondition(Postgres, FieldRestartCount, CountValue(restarts + 1), true)]
    case Some(ResetRedisPool) =>
      [Postcondition(Redis, FieldStatus, StatusValue(Healthy), true),
       Postcondition(Redis, FieldPoolResetCount, CountValue(resets + 1), true),
       Postcondition(Checkout, FieldStatus, StatusValue(Healthy), true),
       Postcondition(Postgres, FieldRestartCount, CountValue(restarts), false)]
    case _ => []
  }

  /** The one manifest that the policy allows for a correction. */
  function PolicyManifest(s: State, cfg: Config, body: Authorization): Manifest
    requires body.target < |s.nodes| && body.instruction.Some?
  {
    var target := s.nodes[body.target].reg;
    Manifest(PolicyRole(s, body), Cooperative, Digest(body.instruction.value), target.instructionVersion + 1,
             PolicyCapabilities(body.expectedTool), 0,
             Contract(body.expectedTool, Digest(map[]), cfg.environment, ToolResources(body.expectedTool),
                      if body.expectedTool.Some? then 1 else 0, body.stability,
                      Effects(s.attempts, target.run, body.expectedTool)))
  }

  /** The services that a contract looks up, which gives them rows. */
  function Consulted(body: Authorization): set<ServiceName> {
    if body.kind != CorrectSubtree then {} else
    match body.expectedTool
    case Some(RestartPostgres) => {Postgres}
    case Some(ResetRedisPool) => {Postgres, Redis, Checkout}
    case _ => {}
  }

  /** Services without a row get their initial one, and nothing else changes. */
  ghost predicate Seeded(services: Services, later: Services, run: Id, names: set<ServiceName>, now: Time) {
    && (forall key: ServiceKey {:trigger key in later} ::
          key in later <==> key in services || (key.run == run && key.name in names))
    && (forall key {:trigger later[key]} | key in later ::
          later[key] == if key in services then services[key] else Service(InitialStatus(key.name), 0, 0, None, now))
  }

  lemma ArgumentsExactly(tool: ToolName, arguments: Arguments)
    requires SpecOf(tool).Some?
    ensures ArgumentsValid(SpecOf(tool).value, arguments) <==> arguments == map[]
  {
  }

  lemma CountsShown(s: Database, run: Id, name: ServiceName)
    requires Balanced(s.attempts, s.services)
    ensures var row := StateOf(s.services, run, name, InitialStatus(name), s.clock);
      && (name == Postgres ==> row.restartCount == CountRan(s.attempts, run, RestartPostgres))
      && (name == Redis ==> row.poolResetCount == CountRan(s.attempts, run, ResetRedisPool))
  {
    hide Balanced, CountRan;
    StateBalanced(s.attempts, s.services, run, name, s.clock);
  }

  lemma ContractIsPolicy(s: Database, cfg: Config, body: Authorization)
    requires Balanced(s.attempts, s.services) && body.target < |s.nodes|
    requires body.kind == CorrectSubtree && body.expectedTool.Some? && !body.expectedTool.value.OtherTool?
    ensures var run := s.nodes[body.target].reg.run;
      var built := BuildContract(s.services, cfg.environment, run, body.expectedTool.value,
                                 SpecOf(body.expectedTool.value).value, map[], body.stability, s.clock);
      && built.1 == Contract(body.expectedTool, Digest(map[]), cfg.environment, ToolResources(body.expectedTool), 1,
                             body.stability, Effects(s.attempts, run, body.expectedTool))
      && Seeded(s.services, built.0, run, Consulted(body), s.clock)
  {
    hide Balanced, CountRan;
    var run := s.nodes[body.target].reg.run;
    CountsShown(s, run, Postgres);
    CountsShown(s, run, Redis);
  }

  lemma PlanExactly(s: Database, cfg: Config, request: CommandRequest)
    requires Balanced(s.attempts, s.services) && request.body.target < |s.nodes| && Shaped(request.body)
    ensures var plan := PlanCorrection(s, cfg, request); var body := request.body;
      match OffPolicy(s, body)
      case Some(code) => plan == Unplanned(code)
      case None =>
        && plan.Planned?
        && plan.manifest == (if body.kind == CorrectSubtree then Some(PolicyManifest(s, cfg, body)) else None)
        && Seeded(s.services, plan.services, s.nodes[body.target].reg.run, Consulted(body), s.clock)
  {
    hide Balanced, BuildContract, Effects, Seeded, ArgumentsValid;
    var body := request.body;
    assert Seeded(s.services, s.services, s.nodes[body.target].reg.run, {}, s.clock) by { NothingSeeded(s); }
    if body.kind == CorrectSubtree && body.expectedTool.Some? && !body.expectedTool.value.OtherTool? {
      ArgumentsExactly(body.expectedTool.value, if body.arguments.Some? then body.arguments.value else map[]);
      ContractIsPolicy(s, cfg, body);
    }
    assert Effects(s.attempts, s.nodes[body.target].reg.run, None) == [] by { NoEffects(s.attempts, s.nodes[body.target].reg.run); }
  }

  lemma NoEffects(attempts: seq<Attempt>, run: Id)
    ensures Effects(attempts, run, None) == []
  {
  }

  lemma NothingSeeded(s: State)
    ensures forall run, now :: Seeded(s.services, s.services, run, {}, now)
  {
  }

  // ---------------------------------------------------------------- whom a correction designates

  /** The corrected node's parent if it is live, else the live root of the run, else nobody. */
  ghost function Creator(s: Database, target: Id): Option<Id>
    requires target < |s.nodes|
  {
    var parent, root := s.nodes[target].reg.parent, s.runs[s.nodes[target].reg.run].root;
    if parent.Some? && parent.value < |s.nodes| && Live(s, parent.value) then parent
    else if root != target && root < |s.nodes| && Live(s, root) then Some(root)
    else None
  }

  lemma CreatorExactly(s: Database, target: Id)
    requires WellTreed(s) && WellFenced(s) && target < |s.nodes|
    ensures ReplacementParent(s, target) == Creator(s, target)
  {
    hide RuntimeOf, Live, Barred;
    var parent, root := s.nodes[target].reg.parent, s.runs[s.nodes[target].reg.run].root;
    if parent.Some? && parent.value < |s.nodes| { RuntimeExactly(s, parent.value); }
    if root < |s.nodes| { RuntimeExactly(s, root); }
  }

  // ---------------------------------------------------------------- obstacles

  /** Why a command cannot claim the proposal it names as its source: only an accepted and unused proposal
      of the run whose review authorized exactly this command can be claimed. */
  function Unsourced(s: State, run: Id, request: CommandRequest): Option<Code> {
    if request.sourceProposal.None? then None
    else if request.sourceProposal.value >= |s.proposals| then Some(SourceProposalNotFound)
    else
      var proposal := s.proposals[request.sourceProposal.value];
      if proposal.payload.run != run then Some(SourceProposalNotFound)
      else if proposal.status != ProposalAccepted then Some(SourceProposalNotAccepted)
      else if proposal.resultingCommand.Some? then Some(SourceProposalAlreadyUsed)
      else if proposal.payload.target != request.body.target then Some(SourceProposalTargetMismatch)
      else if request.body.kind != ProposedKind(proposal.payload.kind) then Some(SourceProposalTypeMismatch)
      else if proposal.authorized != Some(request.body) then Some(SourceProposalCommandMismatch)
      else None
  }

  lemma SourceExactly(s: Database, run: Id, request: CommandRequest)
    requires WellAuthorized(s)
    ensures ProposalGuard(s, run, request) == Unsourced(s, run, request)
  {
    if request.sourceProposal.Some? && request.sourceProposal.value < |s.proposals| {
      assert ProposalBound(s, request.sourceProposal.value);
    }
  }

  /** A cancellation or correction already aims at this very node. */
  ghost predicate Taken(s: State, body: Authorization) {
    body.kind != CancelRun
    && exists c | 0 <= c < |s.commands| :: s.commands[c].order.kind != CancelRun && s.commands[c].order.target == body.target
  }

  /** What keeps an authorized, new command from being committed, in the order in which it is told. */
  ghost function Obstacle(s: Database, cfg: Config, request: CommandRequest): Option<Code>
    requires request.body.target < |s.nodes|
  {
    var run := s.nodes[request.body.target].reg.run;
    if s.runs[run].status != RunRunning then Some(RunTerminalState)
    else if |CommandsIn(s.commands, run)| >= cfg.maxCommands then Some(RunCommandQuota)
    else if Unsourced(s, run, request).Some? then Unsourced(s, run, request)
    else if OffPolicy(s, request.body).Some? then OffPolicy(s, request.body)
    else if request.body.kind == CorrectSubtree && Creator(s, request.body.target).None? then
      Some(ReplacementParentUnavailable)
    else if Taken(s, request.body) then Some(ScopeNotActive)
    else None
  }

  lemma ScopeExactly(s: Database, body: Authorization)
    requires WellTreed(s) && WellFenced(s) && body.target < |s.nodes|
    requires s.runs[s.nodes[body.target].reg.run].status == RunRunning
    ensures var run := s.nodes[body.target].reg.run;
      var k := if body.kind == CancelRun then s.runs[run].runScope else s.nodes[body.target].reg.ownScope;
      && k < |s.scopes| && s.scopes[k].run == run
      && (s.scopes[k].status == ScopeActive <==> !Taken(s, body))
      && (!Taken(s, body) ==> s.scopes[k].version == 1)
  {
    var run := s.nodes[body.target].reg.run;
    assert NodeLinked(s, body.target) && RunRooted(s, run) && RunFenced(s, run);
    FencedOwnScope(s, body.target);
    assert ScopeFenced(s, s.runs[run].runScope) && ScopeFenced(s, s.nodes[body.target].reg.ownScope);
  }

  // ---------------------------------------------------------------- committing

  /** The new command closes one scope, and the run too if it cancels it; a correction carries the policy's
      manifest and its creator; the claimed proposal names it; nothing else changes but new service rows. */
  ghost predicate Commissions(s: Database, cfg: Config, issuer: Issuer, request: CommandRequest, r: Reply)
    requires request.body.target < |s.nodes| && Shaped(request.body)
  {
    var body, run := request.body, s.nodes[request.body.target].reg.run;
    var k := if body.kind == CancelRun then s.runs[run].runScope else s.nodes[body.target].reg.ownScope;
    var manifest := if body.kind == CorrectSubtree then Some(PolicyManifest(s, cfg, body)) else None;
    && k < |s.scopes|
    && r.out == Issued(|s.commands|, false)
    && Seeded(s.services, r.db.services, run, Consulted(body), s.clock)
    && r.db == s.(
         services := r.db.services,
         commands := s.commands + [Command(
           Order(run, issuer, request.key, Digest(request), body.kind, body.target, k, 1, 2, request.sourceProposal,
                 if body.kind == CorrectSubtree then Creator(s, body.target) else None, body.instruction,
                 body.expectedTool, manifest, if manifest.Some? then Some(Digest(manifest.value)) else None, s.clock),
           None, if body.kind == CorrectSubtree then Some(ReplacementPending) else None)],
         scopes := s.scopes[k := s.scopes[k].(
           version := 2, status := if body.kind == CorrectSubtree then ScopeSuperseded else ScopeCancelled)],
         runs := if body.kind == CancelRun
                 then s.runs[run := s.runs[run].(status := RunCancelled, finishedAt := Some(s.clock))] else s.runs,
         proposals := if request.sourceProposal.Some? && request.sourceProposal.value < |s.proposals|
                      then s.proposals[request.sourceProposal.value :=
                             s.proposals[request.sourceProposal.value].(resultingCommand := Some(|s.commands|))]
                      else s.proposals)
  }

  lemma CommitExactly(s: Database, issuer: Issuer, request: CommandRequest, k: Id, parent: Option<Id>, manifest: Option<Manifest>)
    requires request.body.target < |s.nodes| && k < |s.scopes|
    requires s.runs[s.nodes[request.body.target].reg.run].status == RunRunning && s.scopes[k].version == 1
    ensures var body, run := request.body, s.nodes[request.body.target].reg.run;
      CommitCommand(s, issuer, request, k, parent, manifest) == Some(s.(
         commands := s.commands + [Command(
           Order(run, issuer, request.key, Digest(request), body.kind, body.target, k, 1, 2, request.sourceProposal,
                 parent, body.instruction, body.expectedTool, manifest,
                 if manifest.Some? then Some(Digest(manifest.value)) else None, s.clock),
           None, if body.kind == CorrectSubtree then Some(ReplacementPending) else None)],
         scopes := s.scopes[k := s.scopes[k].(
           version := 2, status := if body.kind == CorrectSubtree then ScopeSuperseded else ScopeCancelled)],
         runs := if body.kind == CancelRun
                 then s.runs[run := s.runs[run].(status := RunCancelled, finishedAt := Some(s.clock))] else s.runs,
         proposals := if request.sourceProposal.Some? && request.sourceProposal.value < |s.proposals|
                      then s.proposals[request.sourceProposal.value :=
                             s.proposals[request.sourceProposal.value].(resultingCommand := Some(|s.commands|))]
                      else s.proposals))
  {
    var run := s.nodes[request.body.target].reg.run;
    assert s.runs[run].finishedAt.None?;
    assert s.runs[run := s.runs[run]] == s.runs;
  }

  lemma NewCommandExactly(s: Database, cfg: Config, issuer: Issuer, request: CommandRequest)
    requires Coherent(s) && request.body.target < |s.nodes| && Shaped(request.body)
    ensures var r := NewCommand(s, cfg, issuer, request);
      match Obstacle(s, cfg, request)
      case Some(code) => r == Reply(s, Refused(code))
      case None => Commissions(s, cfg, issuer, request, r)
  {
    hide Coherent, PlanCorrection, ReplacementParent, ProposalGuard, CountCommands, PlannedCommand, Creator, Unsourced, OffPolicy,
         Taken, Commissions, PolicyManifest, Seeded;
    var body, run := request.body, s.nodes[request.body.target].reg.run;
    CommandRows(s);
    CommandsCounted(s.commands, run);
    SourceExactly(s, run, request);
    PlanExactly(s, cfg, request);
    CreatorExactly(s, body.target);
    if s.runs[run].status == RunRunning {
      PlannedExactly(s, cfg, issuer, request, PlanCorrection(s, cfg, request));
    }
  }

  /** Committing what was planned. */
  lemma PlannedExactly(s: Database, cfg: Config, issuer: Issuer, request: CommandRequest, plan: Plan)
    requires WellTreed(s) && WellFenced(s) && request.body.target < |s.nodes| && Shaped(request.body)
    requires s.runs[s.nodes[request.body.target].reg.run].status == RunRunning
    requires plan.Planned? ==>
      && Seeded(s.services, plan.services, s.nodes[request.body.target].reg.run, Consulted(request.body), s.clock)
      && plan.manifest == (if request.body.kind == CorrectSubtree then Some(PolicyManifest(s, cfg, request.body)) else None)
    ensures var body, run := request.body, s.nodes[request.body.target].reg.run;
      var k := if body.kind == CancelRun then s.runs[run].runScope else s.nodes[body.target].reg.ownScope;
      var r := PlannedCommand(s, issuer, request, k, Creator(s, body.target), plan);
      if plan.Unplanned? then r == Reply(s, Refused(plan.code))
      else if body.kind == CorrectSubtree && Creator(s, body.target).None? then
        r == Reply(s, Refused(ReplacementParentUnavailable))
      else if Taken(s, body) then r == Reply(s, Refused(ScopeNotActive))
      else Commissions(s, cfg, issuer, request, r)
  {
    hide CommitCommand, Creator, PolicyManifest, Seeded, Consulted, Taken, WellTreed, WellFenced;
    var body, run := request.body, s.nodes[request.body.target].reg.run;
    ScopeExactly(s, body);
    if plan.Planned? && !Taken(s, body) {
      var k := if body.kind == CancelRun then s.runs[run].runScope else s.nodes[body.target].reg.ownScope;
      CommitExactly(s.(services := plan.services), issuer, request, k,
                    if body.kind == CorrectSubtree then Creator(s, body.target) else None, plan.manifest);
    }
  }

  lemma CommandRows(s: State)
    requires Coherent(s)
    ensures WellTreed(s) && WellFenced(s) && WellAuthorized(s) && Balanced(s.attempts, s.services)
  {
  }

  // ---------------------------------------------------------------- the call

  /** A key already used by this issuer in this run is answered with its command. Otherwise an authorized
      caller, who is live if an agent, commits a new command unless an obstacle stands in the way. */
  ghost predicate IssueDoes(
    s: Database, cfg: Config, throttled: bool, principal: Principal, request: CommandRequest, r: Reply)
  {
    if !Shaped(request.body) then r == Reply(s, Refused(RequestInvalid))
    else if request.body.target >= |s.nodes| then r == Reply(s, Refused(NotFound))
    else if Unauthorized(s, principal, request.body).Some? then
      r == Reply(s, Refused(Unauthorized(s, principal, request.body).value))
    else
      var run, issuer := s.nodes[request.body.target].reg.run, IssuerOf(principal);
      if exists c | 0 <= c < |s.commands| :: IssuedAs(s.commands[c].order, run, issuer, request.key)
      then Reissues(s, run, issuer, request, r)
      else if throttled then r == Reply(s, Refused(RateLimited))
      else if principal.AgentPrincipal? && !Live(s, principal.node.value) then r == Reply(s, Refused(IssuerNotLive))
      else match Obstacle(s, cfg, request)
      case Some(code) => r == Reply(s, Refused(code))
      case None => Commissions(s, cfg, issuer, request, r)
  }

  ghost predicate Reissues(s: Database, run: Id, issuer: Issuer, request: CommandRequest, r: Reply) {
    forall c {:trigger s.commands[c]} | 0 <= c < |s.commands| ::
      s.commands[c].order.run == run && s.commands[c].order.issuer == issuer && s.commands[c].order.key == request.key ==>
        r == Reply(s, if s.commands[c].order.request == Digest(request) then Issued(c, true)
                      else Refused(IdempotencyPayloadMismatch))
  }

  lemma OnlyCommandOf(s: State, c: Id, run: Id, issuer: Issuer, key: string)
    requires WellAuthorized(s) && c < |s.commands| && IssuedAs(s.commands[c].order, run, issuer, key)
    ensures FindCommand(s.commands, run, issuer, key) == Some(c)
  {
    var found := FindCommand(s.commands, run, issuer, key);
    var d := found.value;
    var x, y := s.commands[if c < d then c else d].order, s.commands[if c < d then d else c].order;
    assert c != d ==> !IssuedAs(y, x.run, x.issuer, x.key);
  }

  lemma ReissueExactly(s: Database, run: Id, issuer: Issuer, key: string)
    requires WellAuthorized(s)
    ensures FindCommand(s.commands, run, issuer, key).Some? <==>
      exists c | 0 <= c < |s.commands| :: IssuedAs(s.commands[c].order, run, issuer, key)
    ensures forall c {:trigger s.commands[c]} | 0 <= c < |s.commands| ::
      IssuedAs(s.commands[c].order, run, issuer, key) ==> FindCommand(s.commands, run, issuer, key) == Some(c)
  {
    hide WellAuthorized;
    forall c | 0 <= c < |s.commands| && IssuedAs(s.commands[c].order, run, issuer, key)
      ensures FindCommand(s.commands, run, issuer, key) == Some(c)
    {
      OnlyCommandOf(s, c, run, issuer, key);
    }
  }

  lemma IssueExactly(s: Database, cfg: Config, throttled: bool, principal: Principal, request: CommandRequest)
    requires Coherent(s)
    ensures IssueDoes(s, cfg, throttled, principal, request, IssueCommand(s, cfg, throttled, principal, request))
  {
    hide Coherent, NewCommand, AuthorityGuard, Unauthorized, RuntimeOf, Obstacle, Commissions, Live, Barred, FindCommand;
    if Shaped(request.body) && request.body.target < |s.nodes| {
      CommandRows(s);
      AuthorityExactly(s, principal, request);
      NewCommandExactly(s, cfg, IssuerOf(principal), request);
      ReissueExactly(s, s.nodes[request.body.target].reg.run, IssuerOf(principal), request.key);
      if Unauthorized(s, principal, request.body).None? && principal.AgentPrincipal? {
        AgentIsKnown(s, principal, request.body);
        RuntimeExactly(s, principal.node.value);
      }
    }
  }

  lemma AgentIsKnown(s: Database, principal: Principal, body: Authorization)
    requires body.target < |s.nodes| && Unauthorized(s, principal, body).None? && principal.AgentPrincipal?
    ensures principal.node.Some? && principal.node.value < |s.nodes|
  {
  }

  // ---------------------------------------------------------------- proposals

  /** A live reporter with the capability proposes for a node of its own run, within the run's quota. */
  ghost predicate ProposeDoes(
    s: Database, cfg: Config, throttled: bool, reporter: Id, token: Token, target: Id, kind: ProposalType, reason: string,
    r: Reply)
  {
    && TurnsAway(s, reporter, token, r)
    && (Bears(s, reporter, token) ==>
          var run, p := s.nodes[reporter].reg.run, |s.proposals|;
          if throttled then r == Reply(s, Refused(RateLimited))
          else if !Live(s, reporter) then r.db == s && r.out.Refused? && Barred(s, reporter, r.out.code)
          else if ProposeCorrection !in s.nodes[reporter].reg.capabilities then
            r == Reply(s, Refused(ProposalCapabilityRequired))
          else if target >= |s.nodes| then r == Reply(s, Refused(NotFound))
          else if s.nodes[target].reg.run != run then r == Reply(s, Refused(CrossRunProposal))
          else if |ProposalsIn(s.proposals, run)| >= cfg.maxProposals then r == Reply(s, Refused(RunProposalQuota))
          else
            r.out == Proposed(p)
            && r.db == s.(proposals := s.proposals + [Proposal(
                            ProposalPayload(p, run, reporter, target, kind, reason, s.clock),
                            ProposalPending, None, None, None, None, None)]))
  }

  lemma ProposeExactly(
    s: Database, cfg: Config, throttled: bool, reporter: Id, token: Token, target: Id, kind: ProposalType, reason: string)
    requires Coherent(s)
    ensures ProposeDoes(s, cfg, throttled, reporter, token, target, kind, reason,
                        Propose(s, cfg, throttled, reporter, token, target, kind, reason))
  {
    hide Coherent, RuntimeOf, Live, Barred;
    if Bears(s, reporter, token) {
      CommandRows(s);
      RuntimeExactly(s, reporter);
      ProposalsCounted(s.proposals, s.nodes[reporter].reg.run);
    }
  }

  /** The review of a pending proposal freezes its payload, and with an acceptance the one command that it
      authorizes, which must be of the proposed kind for the proposed target and no run cancellation. */
  predicate ReviewDoes(s: Database, p: Id, authorization: Option<Authorization>, reviewer: string, r: Reply) {
    if authorization.Some? && (authorization.value.kind == CancelRun || !Shaped(authorization.value)) then
      r == Reply(s, Refused(RequestInvalid))
    else if p >= |s.proposals| then r == Reply(s, Refused(NotFound))
    else if s.proposals[p].status != ProposalPending then r == Reply(s, Refused(ProposalAlreadyReviewed))
    else if authorization.Some? && authorization.value.target != s.proposals[p].payload.target then
      r == Reply(s, Refused(ProposalTargetMismatch))
    else if authorization.Some?
            && (authorization.value.kind == CorrectSubtree) != (s.proposals[p].payload.kind == ProposeCorrect)
    then r == Reply(s, Refused(ProposalTypeMismatch))
    else
      && r.out == Reviewed
      && r.db == s.(proposals := r.db.proposals) && |r.db.proposals| == |s.proposals|
      && (forall q {:trigger r.db.proposals[q]} | 0 <= q < |s.proposals| && q != p :: r.db.proposals[q] == s.proposals[q])
      && r.db.proposals[p] == Proposal(
           s.proposals[p].payload, if authorization.None? then ProposalRejected else ProposalAccepted, Some(reviewer),
           Some(Digest(s.proposals[p].payload)), authorization,
           match authorization case None => None case Some(body) => Some(Digest(body)),
           s.proposals[p].resultingCommand)
  }

  lemma ReviewExactly(s: Database, p: Id, authorization: Option<Authorization>, reviewer: string)
    ensures ReviewDoes(s, p, authorization, reviewer, Review(s, p, authorization, reviewer))
  {
  }
}
