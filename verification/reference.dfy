/** The reference behaviour of every call: one relation between a coherent state and a reply, which the
    services satisfy and which leaves them no choice. */
module Reference {
  import opened Options
  import opened Domain
  import opened Scopes
  import opened Tools
  import opened Transitions
  import opened Counts
  import opened Tree
  import opened Fences
  import opened Revocation
  import opened Lives
  import opened Conservation
  import opened Attribution
  import opened Standing
  import opened Coherence
  import opened Growth
  import opened LeaseCalls
  import opened CommandCalls
  import opened RegistryCalls
  import opened Corrections
  import opened GatewayCalls

  ghost predicate Does(s: Database, cfg: Config, throttled: bool, op: Op, r: Reply) {
    match op
    case OpCreateRun(role, instruction, capabilities) => CreateRunDoes(s, cfg, role, instruction, capabilities, r)
    case OpSeed(run) => SeedDoes(s, run, r)
    case OpSpawn(parent, token, spawn) => SpawnDoes(s, cfg, throttled, parent, token, spawn, r)
    case OpReplace(parent, token, command, spawn) => ReplaceDoes(s, cfg, throttled, parent, token, command, spawn, r)
    case OpActivate(node, activation) => ActivateDoes(s, cfg, throttled, node, activation, r)
    case OpHeartbeat(node, token) => HeartbeatDoes(s, cfg, throttled, node, token, r)
    case OpCheckpoint(node, token) => CheckpointDoes(s, throttled, node, token, r)
    case OpComplete(node, token) => CompleteDoes(s, throttled, node, token, r)
    case OpIssue(principal, order) => IssueDoes(s, cfg, throttled, principal, order, r)
    case OpExecute(node, token, action) => ExecuteDoes(s, cfg, throttled, node, token, action, r)
    case OpExpire(scan) => ExpireDoes(s, scan, r)
    case OpPropose(node, token, target, kind, reason) => ProposeDoes(s, cfg, throttled, node, token, target, kind, reason, r)
    case OpReview(proposal, authorization, reviewer) => ReviewDoes(s, proposal, authorization, reviewer, r)
  }

  lemma ApplyDoes(s: Database, cfg: Config, throttled: bool, op: Op)
    requires Coherent(s) && Past(s)
    ensures Does(s, cfg, throttled, op, Apply(s, cfg, throttled, op))
  {
    hide Coherent, Past, WellTreed, WellFenced, CreateRunDoes, SeedDoes, SpawnDoes, ReplaceDoes, ActivateDoes, HeartbeatDoes,
         CheckpointDoes, CompleteDoes, IssueDoes, ExecuteDoes, ExpireDoes, ProposeDoes, ReviewDoes, CreateRun, SeedScenario,
         CreateSpawn, CreateReplacement, Activate, Heartbeat, Checkpoint, Complete, IssueCommand, ExecuteAction, ExpireStale,
         Propose, Review;
    TreeAndFences(s);
    match op
    case OpCreateRun(role, instruction, capabilities) => CreateRunExactly(s, cfg, role, instruction, capabilities);
    case OpSeed(run) => SeedExactly(s, run);
    case OpSpawn(parent, token, spawn) => SpawnExactly(s, cfg, throttled, parent, token, spawn);
    case OpReplace(parent, token, command, spawn) => ReplaceExactly(s, cfg, throttled, parent, token, command, spawn);
    case OpActivate(node, activation) => ActivateExactly(s, cfg, throttled, node, activation);
    case OpHeartbeat(node, token) => HeartbeatExactly(s, cfg, throttled, node, token);
    case OpCheckpoint(node, token) => CheckpointExactly(s, throttled, node, token);
    case OpComplete(node, token) => CompleteExactly(s, throttled, node, token);
    case OpIssue(principal, order) => IssueExactly(s, cfg, throttled, principal, order);
    case OpExecute(node, token, action) => ExecuteExactly(s, cfg, throttled, node, token, action);
    case OpExpire(scan) => ExpireExactly(s, scan);
    case OpPropose(node, token, target, kind, reason) => ProposeExactly(s, cfg, throttled, node, token, target, kind, reason);
    case OpReview(proposal, authorization, reviewer) => ReviewExactly(s, proposal, authorization, reviewer);
  }

  lemma TreeAndFences(s: State)
    requires Coherent(s)
    ensures WellTreed(s) && WellFenced(s)
  {
  }

  // ---------------------------------------------------------------- the relation leaves no choice

  lemma OutermostUnique(s: Database, n: Id, c: Id, d: Id)
    requires WellFenced(s) && n < |s.nodes| && c < |s.commands| && d < |s.commands|
    requires Outermost(s, c, n) && Outermost(s, d, n)
    ensures c == d
  {
    hide Targets;
    assert CommandFences(s, c) && CommandFences(s, d);
  }

  lemma BarredUnique(s: Database, n: Id, a: Code, b: Code)
    requires WellFenced(s) && n < |s.nodes|
    ensures Barred(s, n, a) && Barred(s, n, b) ==> a == b
  {
    hide OwnBar, RevokedAs, WellFenced;
    RevokedAsUnique(s, n, a, b);
  }

  lemma RevokedAsUnique(s: Database, n: Id, a: Code, b: Code)
    requires WellFenced(s) && n < |s.nodes|
    ensures RevokedAs(s, n, a) && RevokedAs(s, n, b) ==> a == b
  {
    hide Outermost, WellFenced, ClosingCode;
    if RevokedAs(s, n, a) && RevokedAs(s, n, b) {
      var c :| 0 <= c < |s.commands| && Outermost(s, c, n) && a == ClosingCode(s.commands[c].order.kind);
      var d :| 0 <= d < |s.commands| && Outermost(s, d, n) && b == ClosingCode(s.commands[d].order.kind);
      OutermostUnique(s, n, c, d);
    }
  }

  lemma BlamedUnique(s: State, n: Id, a: Option<Id>, b: Option<Id>)
    requires n < |s.nodes| && Blamed(s, n, a) && Blamed(s, n, b)
    ensures a == b
  {
    hide Targets;
  }

  lemma MarksUnique(s: State, t: State, u: State, ids: set<Id>, status: NodeStatus, kind: AckKind)
    requires Marks(s, t, ids, status, kind) && Marks(s, u, ids, status, kind)
    ensures t == u
  {
    hide Targets;
    assert t.nodes == u.nodes;
    assert forall key: AckKey :: key in t.acks <==> key in u.acks;
    assert t.acks == u.acks;
  }

  lemma HeartbeatUnique(s: Database, cfg: Config, throttled: bool, n: Id, token: Token, r: Reply, q: Reply)
    requires WellFenced(s) && HeartbeatDoes(s, cfg, throttled, n, token, r) && HeartbeatDoes(s, cfg, throttled, n, token, q)
    ensures r == q
  {
    hide Live, Barred, Marks, ClosedStatus, WellFenced;
    if Bears(s, n, token) && !throttled && !Live(s, n) {
      BarredUnique(s, n, r.out.code, q.out.code);
      match r.out.code
      case RunNotActive =>
      case NodeNotActive =>
      case LeaseIsExpired => MarksUnique(s, r.db, q.db, {n}, LeaseExpired, LeaseExpiredAck);
      case _ => MarksUnique(s, r.db, q.db, {n}, ClosedStatus(s, n), CooperativeAck);
    }
  }

  lemma CheckpointUnique(s: Database, throttled: bool, n: Id, token: Token, r: Reply, q: Reply)
    requires WellFenced(s) && CheckpointDoes(s, throttled, n, token, r) && CheckpointDoes(s, throttled, n, token, q)
    ensures r == q
  {
    hide Live, Barred, Blamed, Marks, ClosedStatus, Revoked, WellFenced;
    if Bears(s, n, token) && !throttled && !Live(s, n) {
      BarredUnique(s, n, r.out.reason.value, q.out.reason.value);
      BlamedUnique(s, n, r.out.blame, q.out.blame);
      if r.out.reason == Some(LeaseIsExpired) {
        MarksUnique(s, r.db, q.db, {n}, LeaseExpired, LeaseExpiredAck);
      } else if Revoked(s, n) {
        MarksUnique(s, r.db, q.db, {n}, ClosedStatus(s, n), CooperativeAck);
      }
    }
  }

  lemma RunCompletesUnique(s: Database, t: State, u: State, root: Id)
    requires root < |s.nodes| && RunCompletes(s, t, root) && RunCompletes(s, u, root)
    ensures t == u
  {
    hide Marks;
    var t', u' := t.(runs := s.runs, nodes := t.nodes[root := s.nodes[root]]),
                  u.(runs := s.runs, nodes := u.nodes[root := s.nodes[root]]);
    MarksUnique(s, t', u', WrittenOff(s, s.nodes[root].reg.run, root), LeaseExpired, LeaseExpiredAck);
    assert t.nodes == t'.nodes[root := t.nodes[root]] && u.nodes == u'.nodes[root := u.nodes[root]];
  }

  lemma CompleteUnique(s: Database, throttled: bool, n: Id, token: Token, r: Reply, q: Reply)
    requires WellFenced(s) && CompleteDoes(s, throttled, n, token, r) && CompleteDoes(s, throttled, n, token, q)
    ensures r == q
  {
    hide Live, Barred, RunCompletes, HoldsUp, WellFenced;
    if Bears(s, n, token) && !throttled {
      if !Live(s, n) {
        BarredUnique(s, n, r.out.code, q.out.code);
      } else if r.out == Finished && s.runs[s.nodes[n].reg.run].root == n {
        RunCompletesUnique(s, r.db, q.db, n);
      }
    }
  }

  lemma ExpireUnique(s: Database, scan: Option<Id>, r: Reply, q: Reply)
    requires ExpireDoes(s, scan, r) && ExpireDoes(s, scan, q)
    ensures r == q
  {
    hide Marks, Overrunning, Lapses;
    var t, u := r.db, q.db;
    MarksUnique(s, t.(runs := s.runs, commands := s.commands), u.(runs := s.runs, commands := s.commands), Overrunning(s, scan),
                LeaseExpired, LeaseExpiredAck);
    assert t.runs == u.runs && t.commands == u.commands;
    assert t == t.(runs := s.runs, commands := s.commands).(runs := t.runs, commands := t.commands);
    assert u == u.(runs := s.runs, commands := s.commands).(runs := u.runs, commands := u.commands);
  }

  lemma DeniedAsUnique(s: Database, cfg: Config, n: Id, request: ActionRequest, spec: ToolSpec, a: Code, b: Code)
    requires WellFenced(s) && n < |s.nodes| && DeniedAs(s, cfg, n, request, spec, a) && DeniedAs(s, cfg, n, request, spec, b)
    ensures a == b
  {
    hide Live, Barred, ContractOpen, WellFenced;
    BarredUnique(s, n, a, b);
  }

  lemma MatchesUnique(s: State, a: map<MatchKey, Mismatch>, b: map<MatchKey, Mismatch>, n: Id)
    requires n < |s.nodes| && MatchesAdded(s, a, n) && MatchesAdded(s, b, n)
    ensures a == b
  {
    hide Targets;
    assert forall key: MatchKey :: key in a <==> key in b;
  }

  lemma DeniesUnique(s: Database, cfg: Config, n: Id, request: ActionRequest, spec: ToolSpec, r: Reply, q: Reply)
    requires WellFenced(s) && n < |s.nodes| && Denies(s, cfg, n, request, spec, r) && Denies(s, cfg, n, request, spec, q)
    ensures r == q
  {
    hide DeniedAs, Blamed, MatchesAdded, Marks, ClosedStatus, WellFenced;
    var x, y, t, u := r.db.attempts[|s.attempts|], q.db.attempts[|s.attempts|], r.db, q.db;
    DeniedAsUnique(s, cfg, n, request, spec, x.reason.value, y.reason.value);
    if x.reason == Some(ScopeIsCancelled) || x.reason == Some(ScopeIsSuperseded) {
      BlamedUnique(s, n, x.matchedCommand, y.matchedCommand);
      MatchesUnique(s, t.matches, u.matches, n);
      var t', u' := t.(attempts := s.attempts, matches := s.matches), u.(attempts := s.attempts, matches := s.matches);
      MarksUnique(s, t', u', {n}, ClosedStatus(s, n), GatewayBlockAck);
      assert t == t'.(attempts := t.attempts, matches := t.matches) && u == u'.(attempts := u.attempts, matches := u.matches);
    }
  }

  lemma ReturnsUnique(s: State, attempts: seq<Attempt>, run: Id, tool: ToolName, a: ToolResult, b: ToolResult)
    requires Returns(s, attempts, run, tool, a) && Returns(s, attempts, run, tool, b)
    ensures a == b
  {
    if a.MetricsResult? && b.MetricsResult? {
      assert a.services == b.services;
    }
  }

  lemma SameRan(x: Attempt, y: Attempt, attempts: seq<Attempt>, run: Id, tool: ToolName)
    requires Ran(x, run, tool) == Ran(y, run, tool)
    ensures CountRan(attempts + [x], run, tool) == CountRan(attempts + [y], run, tool)
    ensures LastRan(attempts + [x], run, tool) == LastRan(attempts + [y], run, tool)
  {
    RanAppend(attempts, x, run, tool);
    RanAppend(attempts, y, run, tool);
  }

  lemma CommitsUnique(s: Database, n: Id, request: ActionRequest, spec: ToolSpec, r: Reply, q: Reply)
    requires n < |s.nodes| && Commits(s, n, request, spec, r) && Commits(s, n, request, spec, q)
    ensures r == q
  {
    hide Returns, RunsTool;
    var x, y, run := r.db.attempts[|s.attempts|], q.db.attempts[|s.attempts|], s.nodes[n].reg.run;
    assert r.db.attempts == s.attempts + [x] && q.db.attempts == s.attempts + [y];
    assert Returns(s, r.db.attempts, run, request.tool, y.result.value) by {
      SameRan(x, y, s.attempts, run, request.tool);
      SameReturns(s, q.db.attempts, r.db.attempts, run, request.tool, y.result.value);
    }
    ReturnsUnique(s, r.db.attempts, run, request.tool, x.result.value, y.result.value);
    ServicesUnique(s, r.db.attempts, r.db.services, q.db.services, run, request.tool);
  }

  lemma SameReturns(s: State, a: seq<Attempt>, b: seq<Attempt>, run: Id, tool: ToolName, result: ToolResult)
    requires CountRan(a, run, tool) == CountRan(b, run, tool) && Returns(s, a, run, tool, result)
    ensures Returns(s, b, run, tool, result)
  {
  }

  lemma ServicesUnique(s: State, attempts: seq<Attempt>, a: Services, b: Services, run: Id, tool: ToolName)
    requires RunsTool(s, attempts, a, run, tool) && RunsTool(s, attempts, b, run, tool)
    requires s.attempts < attempts && Ran(attempts[|s.attempts|], run, tool) && |attempts| == |s.attempts| + 1
    ensures a == b
  {
    hide CountRan;
    forall key | key in a ensures key in b && a[key] == b[key] {
      if key.run == run && ToolOf(key.name) == tool {
        assert RowBalanced(attempts, key, a[key]) && RowBalanced(attempts, key, b[key]);
        assert LastRan(attempts, run, tool).Some?;
      }
    }
    assert forall key: ServiceKey :: key in a <==> key in b;
  }

  lemma ExecuteUnique(s: Database, cfg: Config, throttled: bool, n: Id, token: Token, request: ActionRequest, r: Reply, q: Reply)
    requires WellFenced(s)
    requires ExecuteDoes(s, cfg, throttled, n, token, request, r) && ExecuteDoes(s, cfg, throttled, n, token, request, q)
    ensures r == q
  {
    hide MayAct, Denies, Commits, WellFenced;
    if Bears(s, n, token) {
      if a :| 0 <= a < |s.attempts| && AttemptedAs(s.attempts[a], n, request.key) {
        var x := s.attempts[a];
      } else if SpecOf(request.tool).Some? {
        var spec := SpecOf(request.tool).value;
        if Denies(s, cfg, n, request, spec, r) && Denies(s, cfg, n, request, spec, q) {
          DeniesUnique(s, cfg, n, request, spec, r, q);
        }
        if Commits(s, n, request, spec, r) && Commits(s, n, request, spec, q) { CommitsUnique(s, n, request, spec, r, q); }
      }
    }
  }

  lemma SeededUnique(services: Services, a: Services, b: Services, run: Id, names: set<ServiceName>, now: Time)
    requires Seeded(services, a, run, names, now) && Seeded(services, b, run, names, now)
    ensures a == b
  {
    assert forall key: ServiceKey :: key in a <==> key in b;
  }

  lemma IssueUnique(s: Database, cfg: Config, throttled: bool, principal: Principal, request: CommandRequest, r: Reply, q: Reply)
    requires IssueDoes(s, cfg, throttled, principal, request, r) && IssueDoes(s, cfg, throttled, principal, request, q)
    ensures r == q
  {
    hide Unauthorized, Live, Obstacle, Commissions;
    if Shaped(request.body) && request.body.target < |s.nodes| {
      var run, issuer := s.nodes[request.body.target].reg.run, IssuerOf(principal);
      if c :| 0 <= c < |s.commands| && IssuedAs(s.commands[c].order, run, issuer, request.key) {
        var command := s.commands[c];
      } else if Commissions(s, cfg, issuer, request, r) && Commissions(s, cfg, issuer, request, q) {
        CommissionsUnique(s, cfg, issuer, request, r, q);
      }
    }
  }

  lemma CommissionsUnique(s: Database, cfg: Config, issuer: Issuer, request: CommandRequest, r: Reply, q: Reply)
    requires request.body.target < |s.nodes| && Shaped(request.body)
    requires Commissions(s, cfg, issuer, request, r) && Commissions(s, cfg, issuer, request, q)
    ensures r == q
  {
    hide Seeded, Consulted, Creator, PolicyManifest;
    SeededUnique(s.services, r.db.services, q.db.services, s.nodes[request.body.target].reg.run, Consulted(request.body), s.clock);
  }

  lemma ProposeUnique(
    s: Database, cfg: Config, throttled: bool, n: Id, token: Token, target: Id, kind: ProposalType, reason: string,
    r: Reply, q: Reply)
    requires WellFenced(s) && ProposeDoes(s, cfg, throttled, n, token, target, kind, reason, r)
    requires ProposeDoes(s, cfg, throttled, n, token, target, kind, reason, q)
    ensures r == q
  {
    hide Live, Barred, WellFenced;
    if Bears(s, n, token) && !throttled && !Live(s, n) { BarredUnique(s, n, r.out.code, q.out.code); }
  }

  lemma ReviewUnique(s: Database, p: Id, authorization: Option<Authorization>, reviewer: string, r: Reply, q: Reply)
    requires ReviewDoes(s, p, authorization, reviewer, r) && ReviewDoes(s, p, authorization, reviewer, q)
    ensures r == q
  {
    if r.out == Reviewed && q.out == Reviewed {
      forall i | 0 <= i < |s.proposals| ensures r.db.proposals[i] == q.db.proposals[i] {
        var a, b := r.db.proposals[i], q.db.proposals[i];
      }
      assert r.db.proposals == q.db.proposals;
    }
  }

  lemma SeedUnique(s: Database, run: Id, r: Reply, q: Reply)
    requires SeedDoes(s, run, r) && SeedDoes(s, run, q)
    ensures r == q
  {
    hide CommandsIn, AttemptsIn;
    if r.out == Finished && q.out == Finished {
      assert forall key: ServiceKey :: key in r.db.services <==> key in q.db.services;
      assert r.db.services == q.db.services;
    }
  }

  lemma SpawnUnique(s: Database, cfg: Config, throttled: bool, parent: Id, token: Token, request: SpawnRequest, r: Reply, q: Reply)
    requires WellFenced(s) && SpawnDoes(s, cfg, throttled, parent, token, request, r)
    requires SpawnDoes(s, cfg, throttled, parent, token, request, q)
    ensures r == q
  {
    hide Live, Barred, OverBudget, WellFenced;
    if Bears(s, parent, token) && !throttled && !Live(s, parent) && r.out.Refused? && q.out.Refused? {
      BarredUnique(s, parent, r.out.code, q.out.code);
    }
  }

  lemma ReplaceUnique(
    s: Database, cfg: Config, throttled: bool, parent: Id, token: Token, c: Id, request: SpawnRequest, r: Reply, q: Reply)
    requires WellFenced(s) && ReplaceDoes(s, cfg, throttled, parent, token, c, request, r)
    requires ReplaceDoes(s, cfg, throttled, parent, token, c, request, q)
    ensures r == q
  {
    hide Live, Barred, OverBudget, NoCreator, Unfit, WellFenced;
    if Bears(s, parent, token) && !throttled && !Live(s, parent) && r.out.Refused? && q.out.Refused? {
      BarredUnique(s, parent, r.out.code, q.out.code);
    }
  }

  lemma ActivateUnique(s: Database, cfg: Config, throttled: bool, n: Id, request: ActivateRequest, r: Reply, q: Reply)
    requires WellFenced(s) && ActivateDoes(s, cfg, throttled, n, request, r) && ActivateDoes(s, cfg, throttled, n, request, q)
    ensures r == q
  {
    hide Revoked, RevokedAs, WellFenced;
    if n < |s.nodes| && r.out.Refused? && q.out.Refused? {
      RevokedAsUnique(s, n, r.out.code, q.out.code);
    }
  }

  lemma DoesUnique(s: Database, cfg: Config, throttled: bool, op: Op, r: Reply, q: Reply)
    requires WellFenced(s) && Does(s, cfg, throttled, op, r) && Does(s, cfg, throttled, op, q)
    ensures r == q
  {
    hide SeedDoes, SpawnDoes, ReplaceDoes, ActivateDoes, HeartbeatDoes, CheckpointDoes, CompleteDoes, IssueDoes, ExecuteDoes,
         ExpireDoes, ProposeDoes, ReviewDoes, WellFenced;
    match op
    case OpCreateRun(role, instruction, capabilities) =>
    case OpSeed(run) => SeedUnique(s, run, r, q);
    case OpSpawn(parent, token, spawn) => SpawnUnique(s, cfg, throttled, parent, token, spawn, r, q);
    case OpReplace(parent, token, command, spawn) => ReplaceUnique(s, cfg, throttled, parent, token, command, spawn, r, q);
    case OpActivate(node, activation) => ActivateUnique(s, cfg, throttled, node, activation, r, q);
    case OpHeartbeat(node, token) => HeartbeatUnique(s, cfg, throttled, node, token, r, q);
    case OpCheckpoint(node, token) => CheckpointUnique(s, throttled, node, token, r, q);
    case OpComplete(node, token) => CompleteUnique(s, throttled, node, token, r, q);
    case OpIssue(principal, order) => IssueUnique(s, cfg, throttled, principal, order, r, q);
    case OpExecute(node, token, action) => ExecuteUnique(s, cfg, throttled, node, token, action, r, q);
    case OpExpire(scan) => ExpireUnique(s, scan, r, q);
    case OpPropose(node, token, target, kind, reason) =>
      ProposeUnique(s, cfg, throttled, node, token, target, kind, reason, r, q);
    case OpReview(proposal, authorization, reviewer) => ReviewUnique(s, proposal, authorization, reviewer, r, q);
  }

  /** Every call from every coherent state does exactly what the reference says: its reply, answer and
      whole new state, is the only one that the relation admits at the time of the call. */
  lemma EveryCallDoes(s: Database, cfg: Config, e: Event, r: Reply)
    requires Coherent(s)
    ensures Does(Tick(s, e), cfg, e.throttled, e.op, r) <==> r == Step(s, cfg, e)
  {
    hide Coherent, Past, Does, Apply, WellFenced, WellTreed;
    var u := Tick(s, e);
    TickCoherent(s, e);
    TreeAndFences(u);
    ApplyDoes(u, cfg, e.throttled, e.op);
    if Does(u, cfg, e.throttled, e.op, r) {
      DoesUnique(u, cfg, e.throttled, e.op, r, Step(s, cfg, e));
    }
  }

  // ---------------------------------------------------------------- what callers can rely on

  lemma StepDoes(s: Database, cfg: Config, e: Event)
    requires Coherent(s)
    ensures Does(Tick(s, e), cfg, e.throttled, e.op, Step(s, cfg, e))
    ensures Coherent(Tick(s, e)) && Past(Tick(s, e))
  {
    hide Coherent, Past, Does, Apply;
    TickCoherent(s, e);
    EveryCallDoes(s, cfg, e, Step(s, cfg, e));
  }

  /** The gateway never says anything but what it recorded: the answered decision is that of this node's
      attempt with this request, new exactly when it is no duplicate, and committed exactly if allowed. */
  lemma DecisionIsRecord(s: Database, cfg: Config, e: Event)
    requires Coherent(s) && e.op.OpExecute?
    ensures Recorded(Tick(s, e), e.op.node, e.op.action, Step(s, cfg, e))
  {
    hide Coherent, Past, ExecuteAction;
    TickCoherent(s, e);
    AnswerIsRecord(Tick(s, e), cfg, e.throttled, e.op.node, e.op.token, e.op.action);
  }

  /** A fresh action is allowed exactly when the node may act, the tool takes the arguments and the run has
      room; otherwise nothing is committed. */
  lemma AllowedExactly(s: Database, cfg: Config, e: Event)
    requires Coherent(s) && e.op.OpExecute?
    requires !exists a | 0 <= a < |s.attempts| :: AttemptedAs(s.attempts[a], e.op.node, e.op.action.key)
    ensures var u, out, n, request := Tick(s, e), Step(s, cfg, e).out, e.op.node, e.op.action;
      out == ActionDecided(|s.attempts|, Allow, None, false) <==>
        && Bears(u, n, e.op.token) && !e.throttled
        && SpecOf(request.tool).Some? && request.arguments.Keys <= SpecOf(request.tool).value.allowedKeys
        && |AttemptsIn(u.attempts, u.nodes[n].reg.run)| < cfg.maxActions
        && MayAct(u, cfg, n, request, SpecOf(request.tool).value)
  {
    hide Coherent, Past, Step, MayAct, DeniedAs, Blamed, ClosedStatus, MatchesAdded, Marks, Returns, RunsTool;
    StepDoes(s, cfg, e);
  }

  /** Nothing refuses the correction before a creator is looked for. */
  ghost predicate Orderly(s: Database, cfg: Config, throttled: bool, principal: Principal, request: CommandRequest) {
    && Shaped(request.body) && request.body.target < |s.nodes|
    && var run := s.nodes[request.body.target].reg.run;
       && Unauthorized(s, principal, request.body).None? && !throttled
       && (forall c | 0 <= c < |s.commands| :: !IssuedAs(s.commands[c].order, run, IssuerOf(principal), request.key))
       && (principal.AgentPrincipal? ==> Live(s, principal.node.value))
       && s.runs[run].status == RunRunning && |CommandsIn(s.commands, run)| < cfg.maxCommands
       && Unsourced(s, run, request).None? && OffPolicy(s, request.body).None?
  }

  /** A correction in order designates the target's parent if that is live, and the live root only otherwise;
      it is refused for want of a creator exactly if neither is live, and commits unless its scope is closed. */
  lemma CorrectionDesignates(s: Database, cfg: Config, e: Event)
    requires Coherent(s) && e.op.OpIssue? && e.op.order.body.kind == CorrectSubtree
    ensures var u, r, request := Tick(s, e), Step(s, cfg, e), e.op.order; var target := request.body.target;
      var orderly := Orderly(u, cfg, e.throttled, e.op.principal, request);
      && (r.out == Issued(|u.commands|, false) <==> orderly && Creator(u, target).Some? && !Taken(u, request.body))
      && (r.out == Issued(|u.commands|, false) ==>
            |r.db.commands| == |u.commands| + 1
            && r.db.commands[|u.commands|].order.replacementParent == Creator(u, target))
      && (r.out == Refused(ReplacementParentUnavailable) <==> orderly && Creator(u, target).None?)
  {
    hide Coherent, Past, Step, Unauthorized, Live, Creator, OffPolicy, Unsourced, Taken, PolicyManifest, Seeded;
    StepDoes(s, cfg, e);
    var u, r := Tick(s, e), Step(s, cfg, e);
    if e.op.order.body.target < |u.nodes| {
      OtherCodes(u, e.op.principal, e.op.order);
    }
  }

  lemma OtherCodes(s: Database, principal: Principal, request: CommandRequest)
    requires request.body.target < |s.nodes|
    ensures Unauthorized(s, principal, request.body) != Some(ReplacementParentUnavailable)
    ensures Unsourced(s, s.nodes[request.body.target].reg.run, request) != Some(ReplacementParentUnavailable)
    ensures OffPolicy(s, request.body) != Some(ReplacementParentUnavailable)
  {
  }

  /** A running run fails exactly with its root: when a scan of the run finds that the root's lease ran out. */
  lemma RunFailsWithItsRoot(s: Database, cfg: Config, e: Event, run: Id)
    requires Coherent(s) && e.op.OpExpire? && run < |s.runs|
    ensures var u, t := Tick(s, e), Step(s, cfg, e).db; var root := u.runs[run].root;
      && run < |t.runs| && root < |u.nodes|
      && t.runs[run] ==
         if u.runs[run].status == RunRunning && (e.op.scan.None? || e.op.scan.value == run)
            && (u.nodes[root].life.status == Active || u.nodes[root].life.status == Waiting)
            && u.nodes[root].life.lease.value < u.clock
         then u.runs[run].(status := RunFailed, finishedAt := Some(u.clock)) else u.runs[run]
  {
    hide Coherent, Past, Step, Marks, Lapses;
    StepDoes(s, cfg, e);
    var u := Tick(s, e);
    RootIsHeld(u, run);
    var root := u.runs[run].root;
    var closed := Step(s, cfg, e).db.runs[run];
  }

  /** A scan expires exactly the nodes of its runs whose lease or intent overran, and answers with their
      number; every other life stays as it is. */
  lemma ScanExpires(s: Database, cfg: Config, e: Event)
    requires Coherent(s) && e.op.OpExpire?
    ensures var u, r := Tick(s, e), Step(s, cfg, e); var ids := Overrunning(u, e.op.scan);
      && r.out == Swept(|ids|) && |r.db.nodes| == |u.nodes|
      && (forall n {:trigger r.db.nodes[n]} | 0 <= n < |u.nodes| ::
            r.db.nodes[n].life == if n in ids then u.nodes[n].life.(status := LeaseExpired) else u.nodes[n].life)
  {
    hide Coherent, Past, Step, Overrunning, AcksAdded, Lapses;
    StepDoes(s, cfg, e);
  }

  lemma RootIsHeld(s: State, run: Id)
    requires Coherent(s) && run < |s.runs|
    ensures var root := s.runs[run].root;
      root < |s.nodes| && s.nodes[root].reg.run == run && s.nodes[root].life.lease.Some?
      && s.nodes[root].life.status != Pending
  {
    hide WellFenced, WellJoined, WellMatched, WellAcked;
    assert RunRooted(s, run);
    var root := s.runs[run].root;
    assert NodeLinked(s, root) && LifeShape(s.nodes[root].life) && IntentMatches(s, root);
  }

  /** A live worker that completes is told so, is done for good, and its correction with it; no other node
      and no run changes. */
  lemma WorkerIsDone(s: Database, cfg: Config, e: Event)
    requires Coherent(s) && e.op.OpComplete? && !e.throttled && Bears(Tick(s, e), e.op.node, e.op.token)
    requires Live(Tick(s, e), e.op.node) && s.runs[s.nodes[e.op.node].reg.run].root != e.op.node
    ensures var u, r, n := Tick(s, e), Step(s, cfg, e), e.op.node;
      && r.out == Finished && |r.db.nodes| == |u.nodes| && !Live(r.db, n)
      && r.db.nodes[n].life == u.nodes[n].life.(status := Completed, completedAt := Some(u.clock))
      && (forall m | 0 <= m < |u.nodes| && m != n :: r.db.nodes[m] == u.nodes[m])
      && r.db.runs == u.runs && r.db.scopes == u.scopes
      && (u.nodes[n].reg.causedBy.Some? ==>
            u.nodes[n].reg.causedBy.value < |r.db.commands|
            && r.db.commands[u.nodes[n].reg.causedBy.value].replacementStatus == Some(ReplacementCompleted))
  {
    hide Coherent, Past, Step, Revoked, RunCompletes, HoldsUp, Barred;
    StepDoes(s, cfg, e);
  }
}
