/** The budgets of the registry hold in every reachable state, although each service counts the rows
    only before the one row it adds. */
module Quotas {
  import opened Options
  import opened Domain
  import opened Scopes
  import opened Tools
  import opened Transitions
  import opened Frames
  import opened Fences
  import opened Authority
  import opened Coherence
  import opened Steps
  import opened Growth

  predicate RunsFit(runs: seq<Run>, cfg: Config) { CountActiveRuns(runs) <= cfg.maxActiveRuns }

  /** A run has room for its root even under a node budget of zero. */
  ghost predicate NodesFit(nodes: seq<Node>, cfg: Config) {
    && (forall run: Id :: CountNodes(nodes, run) <= if cfg.maxNodes == 0 then 1 else cfg.maxNodes)
    && (forall run: Id, parent: Id :: CountChildren(nodes, run, parent) <= cfg.maxChildren)
    && (forall n | 0 <= n < |nodes| :: nodes[n].reg.generation <= cfg.maxDepth)
  }

  ghost predicate CommandsFit(commands: seq<Command>, cfg: Config) {
    forall run: Id :: CountCommands(commands, run) <= cfg.maxCommands
  }

  ghost predicate ActionsFit(attempts: seq<Attempt>, cfg: Config) {
    forall run: Id :: CountAttempts(attempts, run) <= cfg.maxActions
  }

  ghost predicate ProposalsFit(proposals: seq<Proposal>, cfg: Config) {
    forall run: Id :: CountProposals(proposals, run) <= cfg.maxProposals
  }

  ghost predicate WithinQuotas(s: State, cfg: Config) {
    && RunsFit(s.runs, cfg) && NodesFit(s.nodes, cfg) && CommandsFit(s.commands, cfg)
    && ActionsFit(s.attempts, cfg) && ProposalsFit(s.proposals, cfg)
  }

  // ---------------------------------------------------------------- counting

  /** Runs that are closed stay closed, so that no closed run counts again. */
  lemma {:induction false} ActiveRunsShrink(a: seq<Run>, b: seq<Run>)
    requires |a| == |b| && forall r | 0 <= r < |a| :: Terminal(a[r].status) ==> Terminal(b[r].status)
    ensures CountActiveRuns(b) <= CountActiveRuns(a)
  {
    if a != [] {
      ActiveRunsShrink(a[..|a| - 1], b[..|b| - 1]);
    }
  }

  lemma {:induction false} SameNodeCounts(a: seq<Node>, b: seq<Node>, run: Id, parent: Id)
    requires |a| == |b| && forall n | 0 <= n < |a| :: b[n].reg == a[n].reg
    ensures CountNodes(b, run) == CountNodes(a, run) && CountChildren(b, run, parent) == CountChildren(a, run, parent)
  {
    if a != [] {
      SameNodeCounts(a[..|a| - 1], b[..|b| - 1], run, parent);
    }
  }

  lemma {:induction false} SameCommandCounts(a: seq<Command>, b: seq<Command>, run: Id)
    requires |a| == |b| && forall c | 0 <= c < |a| :: b[c].order == a[c].order
    ensures CountCommands(b, run) == CountCommands(a, run)
  {
    if a != [] {
      SameCommandCounts(a[..|a| - 1], b[..|b| - 1], run);
    }
  }

  lemma {:induction false} SameProposalCounts(a: seq<Proposal>, b: seq<Proposal>, run: Id)
    requires |a| == |b| && forall p | 0 <= p < |a| :: b[p].payload == a[p].payload
    ensures CountProposals(b, run) == CountProposals(a, run)
  {
    if a != [] {
      SameProposalCounts(a[..|a| - 1], b[..|b| - 1], run);
    }
  }

  lemma {:induction false} NoNodesYet(nodes: seq<Node>, run: Id)
    requires forall n | 0 <= n < |nodes| :: nodes[n].reg.run != run
    ensures CountNodes(nodes, run) == 0
  {
    if nodes != [] {
      NoNodesYet(nodes[..|nodes| - 1], run);
    }
  }

  // ---------------------------------------------------------------- one row at a time

  lemma SameNodesFit(a: seq<Node>, b: seq<Node>, cfg: Config)
    requires NodesFit(a, cfg) && |a| == |b| && forall n {:trigger b[n]} | 0 <= n < |a| :: b[n].reg == a[n].reg
    ensures NodesFit(b, cfg)
  {
    forall run: Id ensures CountNodes(b, run) == CountNodes(a, run) {
      SameNodeCounts(a, b, run, 0);
    }
    forall run: Id, parent: Id ensures CountChildren(b, run, parent) == CountChildren(a, run, parent) {
      SameNodeCounts(a, b, run, parent);
    }
    forall n | 0 <= n < |b| ensures b[n].reg.generation <= cfg.maxDepth {
      assert b[n].reg == a[n].reg;
    }
  }

  lemma SameCommandsFit(a: seq<Command>, b: seq<Command>, cfg: Config)
    requires CommandsFit(a, cfg) && |a| == |b| && forall c {:trigger b[c]} | 0 <= c < |a| :: b[c].order == a[c].order
    ensures CommandsFit(b, cfg)
  {
    forall run: Id ensures CountCommands(b, run) <= cfg.maxCommands {
      SameCommandCounts(a, b, run);
    }
  }

  lemma SameProposalsFit(a: seq<Proposal>, b: seq<Proposal>, cfg: Config)
    requires ProposalsFit(a, cfg) && |a| == |b| && forall p {:trigger b[p]} | 0 <= p < |a| :: b[p].payload == a[p].payload
    ensures ProposalsFit(b, cfg)
  {
    forall run: Id ensures CountProposals(b, run) <= cfg.maxProposals {
      SameProposalCounts(a, b, run);
    }
  }

  /** A root is its run's first node; any other node passed the budget of its run and its parent. */
  lemma NodeFits(nodes: seq<Node>, x: Node, cfg: Config)
    requires NodesFit(nodes, cfg) && x.reg.generation <= cfg.maxDepth
    requires CountNodes(nodes, x.reg.run) == 0 || CountNodes(nodes, x.reg.run) < cfg.maxNodes
    requires x.reg.parent.Some? ==> CountChildren(nodes, x.reg.run, x.reg.parent.value) < cfg.maxChildren
    ensures NodesFit(nodes + [x], cfg)
  {
    var more := nodes + [x];
    assert more[..|nodes|] == nodes;
    forall run: Id ensures CountNodes(more, run) <= if cfg.maxNodes == 0 then 1 else cfg.maxNodes {
      assert CountNodes(nodes, run) <= if cfg.maxNodes == 0 then 1 else cfg.maxNodes;
    }
    forall run: Id, parent: Id ensures CountChildren(more, run, parent) <= cfg.maxChildren {
      assert CountChildren(nodes, run, parent) <= cfg.maxChildren;
    }
  }

  lemma CommandFits(commands: seq<Command>, x: Command, cfg: Config)
    requires CommandsFit(commands, cfg) && CountCommands(commands, x.order.run) < cfg.maxCommands
    ensures CommandsFit(commands + [x], cfg)
  {
    assert (commands + [x])[..|commands|] == commands;
  }

  lemma ActionFits(attempts: seq<Attempt>, x: Attempt, cfg: Config)
    requires ActionsFit(attempts, cfg) && CountAttempts(attempts, x.run) < cfg.maxActions
    ensures ActionsFit(attempts + [x], cfg)
  {
    assert (attempts + [x])[..|attempts|] == attempts;
  }

  lemma ProposalFits(proposals: seq<Proposal>, x: Proposal, cfg: Config)
    requires ProposalsFit(proposals, cfg) && CountProposals(proposals, x.payload.run) < cfg.maxProposals
    ensures ProposalsFit(proposals + [x], cfg)
  {
    assert (proposals + [x])[..|proposals|] == proposals;
  }

  // ---------------------------------------------------------------- the services

  lemma QuietQuotas(s: Database, t: State, cfg: Config)
    requires WithinQuotas(s, cfg) && Quiet(s, t)
    ensures WithinQuotas(t, cfg)
  {
    hide NodesFit, CommandsFit, ActionsFit, ProposalsFit;
    forall r | 0 <= r < |s.runs| && Terminal(s.runs[r].status) ensures Terminal(t.runs[r].status) {
      assert RunKept(s.runs[r], t.runs[r], s.clock);
    }
    ActiveRunsShrink(s.runs, t.runs);
    SameNodesFit(s.nodes, t.nodes, cfg);
    SameCommandsFit(s.commands, t.commands, cfg);
  }

  lemma CreateRunQuotas(s: Database, cfg: Config, role: string, instruction: Json, capabilities: set<Capability>)
    requires WithinQuotas(s, cfg)
    ensures WithinQuotas(CreateRun(s, cfg, role, instruction, capabilities).db, cfg)
  {
    hide NodesFit, CommandsFit, ActionsFit, ProposalsFit;
    var t := CreateRun(s, cfg, role, instruction, capabilities).db;
    if t != s {
      assert t.runs[..|s.runs|] == s.runs;
      NoNodesYet(s.nodes, |s.runs|);
      NodeFits(s.nodes, t.nodes[|s.nodes|], cfg);
    }
  }

  /** A node registers below a parent whose budgets have room. */
  lemma RegisterQuotas(s: Database, t: State, cfg: Config, parent: Id)
    requires WithinQuotas(s, cfg) && parent < |s.nodes| && GraphBudget(s, cfg, parent).None?
    requires |t.nodes| == |s.nodes| + 1 && t.nodes[..|s.nodes|] == s.nodes
    requires var reg := t.nodes[|s.nodes|].reg;
      && reg.parent == Some(parent) && reg.run == s.nodes[parent].reg.run
      && reg.generation == s.nodes[parent].reg.generation + 1
    requires t.runs == s.runs && t.attempts == s.attempts && t.proposals == s.proposals
    requires |t.commands| == |s.commands|
    requires forall c {:trigger t.commands[c]} | 0 <= c < |s.commands| :: t.commands[c].order == s.commands[c].order
    ensures WithinQuotas(t, cfg)
  {
    hide NodesFit, CommandsFit, ActionsFit, ProposalsFit;
    assert t.nodes == s.nodes + [t.nodes[|s.nodes|]];
    NodeFits(s.nodes, t.nodes[|s.nodes|], cfg);
    SameCommandsFit(s.commands, t.commands, cfg);
  }

  lemma SpawnQuotas(s: Database, cfg: Config, throttled: bool, parent: Id, token: Token, request: SpawnRequest)
    requires WithinQuotas(s, cfg)
    ensures WithinQuotas(CreateSpawn(s, cfg, throttled, parent, token, request).db, cfg)
  {
    hide WithinQuotas, RuntimeOf, GraphBudget, ChildBudget, RecoverSpawn;
    if parent < |s.nodes| {
      var t := CreateSpawn(s, cfg, throttled, parent, token, request).db;
      var key := EnvelopeKey(SpawnOp, parent, if request.operationKey.Some? then request.operationKey.value else "");
      if request.operationKey.Some? && key in s.envelopes {
        RecoverSpawnQuiet(s, cfg, key);
        QuietQuotas(s, RecoverSpawn(s, cfg, key).db, cfg);
      } else if t != s {
        RegisterQuotas(s, t, cfg, parent);
      }
    }
  }

  lemma ReplaceQuotas(
    s: Database, cfg: Config, throttled: bool, parent: Id, token: Token, c: Id, request: SpawnRequest)
    requires WithinQuotas(s, cfg)
    ensures WithinQuotas(CreateReplacement(s, cfg, throttled, parent, token, c, request).db, cfg)
  {
    hide WithinQuotas, RuntimeOf, GraphBudget, ReplacementGuard, RecoverSpawn;
    if parent < |s.nodes| {
      var t := CreateReplacement(s, cfg, throttled, parent, token, c, request).db;
      var key := EnvelopeKey(ReplacementOp, parent, if request.operationKey.Some? then request.operationKey.value else "");
      if request.operationKey.Some? && key in s.envelopes {
        RecoverSpawnQuiet(s, cfg, key);
        QuietQuotas(s, RecoverSpawn(s, cfg, key).db, cfg);
      } else if t != s {
        GuardHasRoom(s, cfg, parent, c, request);
        RegisterQuotas(s, t, cfg, parent);
      }
    }
  }

  lemma GuardHasRoom(s: Database, cfg: Config, parent: Id, c: Id, request: SpawnRequest)
    requires parent < |s.nodes| && ReplacementGuard(s, cfg, parent, c, request, false).None?
    ensures GraphBudget(s, cfg, parent).None? && c < |s.commands| && s.commands[c].order.target < |s.nodes|
  {
    hide GraphBudget, RetryAllowed;
  }

  lemma IssueQuotas(s: Database, cfg: Config, throttled: bool, principal: Principal, request: CommandRequest)
    requires Coherent(s) && WithinQuotas(s, cfg)
    ensures WithinQuotas(IssueCommand(s, cfg, throttled, principal, request).db, cfg)
  {
    hide Coherent, IssueCommand, NewCommand, AuthorityGuard, RuntimeOf, PlanCorrection, ReplacementParent, ProposalGuard,
         WithinQuotas, Issues;
    TreeOf(s);
    IssueOrSame(s, cfg, throttled, principal, request);
    var t := IssueCommand(s, cfg, throttled, principal, request).db;
    if t != s {
      var x, closed := NewCommandIssues(s, cfg, IssuerOf(principal), request);
      NewCommandHasRoom(s, cfg, IssuerOf(principal), request);
      IssuesQuotas(s, t, cfg, IssuerOf(principal), request, x, closed);
    }
  }

  lemma NewCommandHasRoom(s: Database, cfg: Config, issuer: Issuer, request: CommandRequest)
    requires Shaped(request.body) && request.body.target < |s.nodes| && NewCommand(s, cfg, issuer, request).out.Issued?
    ensures CountCommands(s.commands, s.nodes[request.body.target].reg.run) < cfg.maxCommands
  {
    hide PlanCorrection, ReplacementParent, ProposalGuard, CountCommands, PlannedCommand;
  }

  lemma IssuesQuotas(
    s: Database, t: State, cfg: Config, issuer: Issuer, request: CommandRequest, x: Command, closed: Run)
    requires WithinQuotas(s, cfg) && Issues(s, t, issuer, request, x, closed)
    requires request.body.target < |s.nodes|
    requires CountCommands(s.commands, s.nodes[request.body.target].reg.run) < cfg.maxCommands
    ensures WithinQuotas(t, cfg)
  {
    hide NodesFit, CommandsFit, ActionsFit, ProposalsFit;
    CommandFits(s.commands, x, cfg);
    ActiveRunsShrink(s.runs, t.runs);
    SameProposalsFit(s.proposals, t.proposals, cfg);
  }

  lemma ExecuteQuotas(s: Database, cfg: Config, throttled: bool, n: Id, token: Token, request: ActionRequest)
    requires WithinQuotas(s, cfg)
    ensures WithinQuotas(ExecuteAction(s, cfg, throttled, n, token, request).db, cfg)
  {
    hide WithinQuotas, Admission, DenyAction, AdmitAction, EvaluationOf, CountAttempts;
    var t := ExecuteAction(s, cfg, throttled, n, token, request).db;
    if t != s {
      var spec := SpecOf(request.tool).value;
      var code := Admission(s, cfg, n, request, spec);
      if code.Some? {
        DenyCalm(s, n, request, spec, code.value);
        DenyActs(s, n, request, spec, code.value);
      } else {
        AdmitActs(s, n, request, spec);
      }
      ActsQuotas(s, t, cfg, n);
    }
  }

  lemma DenyActs(s: Database, n: Id, request: ActionRequest, spec: ToolSpec, code: Code)
    requires n < |s.nodes|
    ensures var t := DenyAction(s, n, request, spec, code);
      |t.attempts| == |s.attempts| + 1 && t.attempts[..|s.attempts|] == s.attempts
      && t.attempts[|s.attempts|].run == s.nodes[n].reg.run
  {
    hide Evaluate, Attributed, RecordAcks, RecordMatches, ReportedMismatch;
  }

  lemma AdmitActs(s: Database, n: Id, request: ActionRequest, spec: ToolSpec)
    requires n < |s.nodes|
    ensures var t := AdmitAction(s, n, request, spec);
      && |t.attempts| == |s.attempts| + 1 && t.attempts[..|s.attempts|] == s.attempts
      && t.attempts[|s.attempts|].run == s.nodes[n].reg.run
      && Calm(s, t) && t.proposals == s.proposals
  {
    hide RunTool;
  }

  lemma ActsQuotas(s: Database, t: State, cfg: Config, n: Id)
    requires WithinQuotas(s, cfg) && n < |s.nodes| && Calm(s, t) && t.proposals == s.proposals
    requires |t.attempts| == |s.attempts| + 1 && t.attempts[..|s.attempts|] == s.attempts
    requires t.attempts[|s.attempts|].run == s.nodes[n].reg.run
    requires CountAttempts(s.attempts, s.nodes[n].reg.run) < cfg.maxActions
    ensures WithinQuotas(t, cfg)
  {
    hide NodesFit, CommandsFit, ActionsFit, ProposalsFit, CountAttempts;
    assert t.attempts == s.attempts + [t.attempts[|s.attempts|]];
    ActionFits(s.attempts, t.attempts[|s.attempts|], cfg);
    forall r | 0 <= r < |s.runs| && Terminal(s.runs[r].status) ensures Terminal(t.runs[r].status) {
      assert RunKept(s.runs[r], t.runs[r], s.clock);
    }
    ActiveRunsShrink(s.runs, t.runs);
    SameNodesFit(s.nodes, t.nodes, cfg);
    SameCommandsFit(s.commands, t.commands, cfg);
  }

  lemma ProposeQuotas(
    s: Database, cfg: Config, throttled: bool, reporter: Id, token: Token, target: Id, kind: ProposalType, reason: string)
    requires WithinQuotas(s, cfg)
    ensures WithinQuotas(Propose(s, cfg, throttled, reporter, token, target, kind, reason).db, cfg)
  {
    hide RuntimeOf, NodesFit, CommandsFit, ActionsFit, ProposalsFit, CountProposals;
    var t := Propose(s, cfg, throttled, reporter, token, target, kind, reason).db;
    if t != s {
      ProposalFits(s.proposals, t.proposals[|s.proposals|], cfg);
    }
  }

  lemma ReviewQuotas(s: Database, cfg: Config, p: Id, authorization: Option<Authorization>, reviewer: string)
    requires WithinQuotas(s, cfg)
    ensures WithinQuotas(Review(s, p, authorization, reviewer).db, cfg)
  {
    hide NodesFit, CommandsFit, ActionsFit, ProposalsFit;
    SameProposalsFit(s.proposals, Review(s, p, authorization, reviewer).db.proposals, cfg);
  }

  // ---------------------------------------------------------------- every run

  lemma ApplyQuotas(s: Database, cfg: Config, throttled: bool, op: Op)
    requires Coherent(s) && WithinQuotas(s, cfg)
    ensures WithinQuotas(Apply(s, cfg, throttled, op).db, cfg)
  {
    hide Coherent, WithinQuotas, CreateRun, CreateSpawn, CreateReplacement, Activate, Heartbeat, Checkpoint, Complete,
         IssueCommand, ExecuteAction, ExpireStale, Propose, Review, SeedScenario, Quiet;
    match op
    case OpCreateRun(role, instruction, capabilities) => CreateRunQuotas(s, cfg, role, instruction, capabilities);
    case OpSeed(run) => SeedQuotas(s, cfg, run);
    case OpSpawn(parent, token, spawn) => SpawnQuotas(s, cfg, throttled, parent, token, spawn);
    case OpReplace(parent, token, command, spawn) => ReplaceQuotas(s, cfg, throttled, parent, token, command, spawn);
    case OpActivate(node, activation) =>
      ActivateQuiet(s, cfg, throttled, node, activation);
      QuietQuotas(s, Activate(s, cfg, throttled, node, activation).db, cfg);
    case OpHeartbeat(node, token) =>
      HeartbeatQuiet(s, cfg, throttled, node, token);
      QuietQuotas(s, Heartbeat(s, cfg, throttled, node, token).db, cfg);
    case OpCheckpoint(node, token) =>
      CheckpointQuiet(s, throttled, node, token);
      QuietQuotas(s, Checkpoint(s, throttled, node, token).db, cfg);
    case OpComplete(node, token) =>
      CompleteQuiet(s, throttled, node, token);
      QuietQuotas(s, Complete(s, throttled, node, token).db, cfg);
    case OpIssue(principal, order) => IssueQuotas(s, cfg, throttled, principal, order);
    case OpExecute(node, token, action) => ExecuteQuotas(s, cfg, throttled, node, token, action);
    case OpExpire(scan) =>
      ExpireQuiet(s, scan);
      QuietQuotas(s, ExpireStale(s, scan).db, cfg);
    case OpPropose(node, token, target, kind, reason) =>
      ProposeQuotas(s, cfg, throttled, node, token, target, kind, reason);
    case OpReview(proposal, authorization, reviewer) => ReviewQuotas(s, cfg, proposal, authorization, reviewer);
  }

  lemma SeedQuotas(s: Database, cfg: Config, run: Id)
    requires WithinQuotas(s, cfg)
    ensures WithinQuotas(SeedScenario(s, run).db, cfg)
  {
    hide NodesFit, CommandsFit, ActionsFit, ProposalsFit;
  }

  lemma TickQuotas(s: Database, cfg: Config, e: Event)
    requires WithinQuotas(s, cfg)
    ensures WithinQuotas(Tick(s, e), cfg)
  {
    hide NodesFit, CommandsFit, ActionsFit, ProposalsFit;
  }

  lemma {:induction false} QuotasKept(s: Database, cfg: Config, events: seq<Event>)
    requires Coherent(s) && WithinQuotas(s, cfg)
    ensures WithinQuotas(After(s, cfg, events), cfg)
    decreases |events|
  {
    hide Coherent, WithinQuotas, Apply, Past, Evolves;
    if events != [] {
      StepCoherent(s, cfg, events[0]);
      TickCoherent(s, events[0]);
      TickQuotas(s, cfg, events[0]);
      ApplyQuotas(Tick(s, events[0]), cfg, events[0].throttled, events[0].op);
      QuotasKept(Step(s, cfg, events[0]).db, cfg, events[1..]);
    }
  }

  /** In every reachable state the active runs, and in each run the nodes, their depth and fan-out,
      the commands, the action attempts and the proposals are within their budgets. */
  lemma QuotasHold(cfg: Config, events: seq<Event>)
    ensures WithinQuotas(After(EMPTY, cfg, events), cfg)
  {
    hide Coherent;
    EmptyCoherent();
    QuotasKept(EMPTY, cfg, events);
  }
}
