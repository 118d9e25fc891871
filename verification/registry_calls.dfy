/** What creating runs, seeding, spawning, replacing and activating do: their answers and the whole state
    after them, told from rows and commands and not from the services' bodies. */
module RegistryCalls {
  import opened Options
  import opened Domain
  import opened Scopes
  import opened Tools
  import opened Transitions
  import opened Counts
  import opened Tree
  import opened Fences
  import opened Revocation
  import opened Lives
  import opened Credentials
  import opened Replacements
  import opened Conservation
  import opened Attribution
  import opened Standing
  import opened Authority
  import opened Coherence
  import opened Steps
  import opened Growth
  import opened LeaseCalls

  // ---------------------------------------------------------------- runs and services

  /** A run starts running with one live node, its root, and two open scopes, if the quota has room. */
  ghost predicate CreateRunDoes(
    s: Database, cfg: Config, role: string, instruction: Json, capabilities: set<Capability>, r: Reply)
  {
    var run, root, k := |s.runs|, |s.nodes|, |s.scopes|;
    if |RunsOpen(s.runs)| >= cfg.maxActiveRuns then r == Reply(s, Refused(ActiveRunQuota))
    else
      && r.out == RunMade(run, root, s.nextToken)
      && r.db == s.(
           runs := s.runs + [Run(RunRunning, root, k, None)],
           scopes := s.scopes + [Scope(run, None, 1, ScopeActive), Scope(run, Some(root), 1, ScopeActive)],
           nodes := s.nodes + [Node(
             Registration(run, None, None, None, role, Cooperative, 0, k + 1, [Snap(k, 1), Snap(k + 1, 1)], 1, instruction,
                          capabilities, s.clock),
             Life(Active, Some(s.nextToken), Some(s.clock), None, Some(s.clock + cfg.leaseTtl)))],
           nextToken := s.nextToken + 1)
  }

  lemma CreateRunExactly(s: Database, cfg: Config, role: string, instruction: Json, capabilities: set<Capability>)
    ensures CreateRunDoes(s, cfg, role, instruction, capabilities, CreateRun(s, cfg, role, instruction, capabilities))
  {
    ActiveRunsCounted(s.runs);
  }

  /** A fresh run gets its three services in their initial state, once and before anything happened in it. */
  ghost predicate SeedDoes(s: Database, run: Id, r: Reply) {
    if run >= |s.runs| then r == Reply(s, Refused(NotFound))
    else if exists key | key in s.services :: key.run == run then r == Reply(s, Refused(ScenarioAlreadyInitialized))
    else if || (exists n | 0 <= n < |s.nodes| :: s.nodes[n].reg.run == run && s.nodes[n].reg.parent.Some?)
            || CommandsIn(s.commands, run) != {} || AttemptsIn(s.attempts, run) != {}
    then r == Reply(s, Refused(ScenarioTooLate))
    else
      && r.out == Finished && r.db == s.(services := r.db.services)
      && (forall key: ServiceKey {:trigger key in r.db.services} ::
            key in r.db.services <==> key in s.services || key.run == run)
      && (forall key {:trigger r.db.services[key]} | key in r.db.services ::
            r.db.services[key] == if key.run == run then Service(InitialStatus(key.name), 0, 0, None, s.clock)
                                  else if key in s.services then s.services[key] else r.db.services[key])
  }

  lemma SeedExactly(s: Database, run: Id)
    requires WellTreed(s)
    ensures SeedDoes(s, run, SeedScenario(s, run))
  {
    if run < |s.runs| {
      CommandsCounted(s.commands, run);
      AttemptsCounted(s.attempts, run);
      assert |CommandsIn(s.commands, run)| == 0 <==> CommandsIn(s.commands, run) == {};
      assert |AttemptsIn(s.attempts, run)| == 0 <==> AttemptsIn(s.attempts, run) == {};
      forall n | 0 <= n < |s.nodes| && s.nodes[n].reg.run == run ensures n == s.runs[run].root <==> s.nodes[n].reg.parent.None? {
        assert NodeLinked(s, n) && RunRooted(s, run);
      }
      if && !HasServices(s, run) && !HasChildren(s, run)
         && CountCommands(s.commands, run) == 0 && CountAttempts(s.attempts, run) == 0 {
        SeedRows(s, run);
      }
    }
  }

  lemma SeedRows(s: Database, run: Id)
    requires run < |s.runs| && !HasServices(s, run) && !HasChildren(s, run)
    requires CountCommands(s.commands, run) == 0 && CountAttempts(s.attempts, run) == 0
    ensures var r := SeedScenario(s, run);
      && r.out == Finished && r.db == s.(services := r.db.services)
      && (forall key: ServiceKey {:trigger key in r.db.services} ::
            key in r.db.services <==> key in s.services || key.run == run)
      && (forall key {:trigger r.db.services[key]} | key in r.db.services ::
            r.db.services[key] == if key.run == run then Service(InitialStatus(key.name), 0, 0, None, s.clock)
                                  else if key in s.services then s.services[key] else r.db.services[key])
  {
    var t := SeedScenario(s, run).db.services;
    forall key: ServiceKey ensures key in t <==> key in s.services || key.run == run {
      match key.name
      case Postgres => assert key == ServiceKey(key.run, Postgres);
      case Redis => assert key == ServiceKey(key.run, Redis);
      case Checkout => assert key == ServiceKey(key.run, Checkout);
    }
  }

  // ---------------------------------------------------------------- registering a node

  /** A child registers below its parent with its own scope and an intent, under fresh numbers; a keyed
      request is sealed with its answer. */
  ghost predicate Registered(
    s: Database, cfg: Config, op: RecoveryOp, parent: Id, request: SpawnRequest, supersedes: Option<Id>,
    causedBy: Option<Id>, version: nat, commands: seq<Command>, r: Reply)
    requires parent < |s.nodes|
  {
    var up, child, k := s.nodes[parent].reg, |s.nodes|, |s.scopes|;
    var answer := SpawnResponse(child, s.nextToken, s.clock + cfg.intentTtl);
    var digest := Digest(SpawnPayload(causedBy, request.role, request.instruction, request.capabilities, request.behavior));
    && r.out == Answered(answer)
    && r.db == s.(
         nextToken := s.nextToken + 1,
         scopes := s.scopes + [Scope(up.run, Some(child), 1, ScopeActive)],
         nodes := s.nodes + [Node(
           Registration(up.run, Some(parent), supersedes, causedBy, request.role, request.behavior, up.generation + 1, k,
                        up.snapshot + [Snap(k, 1)], version, request.instruction, request.capabilities, s.clock),
           Life(Pending, None, None, None, None))],
         intents := s.intents[child := Intent(parent, s.nextToken, s.clock + cfg.intentTtl, None)],
         commands := commands,
         envelopes := match request.operationKey
                      case None => s.envelopes
                      case Some(key) => s.envelopes[EnvelopeKey(op, parent, key) := Envelope(
                        up.run, child, digest, Sealed(SealedData(EnvelopeKey(op, parent, key), digest, child), answer),
                        s.clock + cfg.recoveryTtl)])
  }

  /** A retry is answered while the registered node still waits for its activation: from the envelope with
      the stored credential, or, when the envelope has run out, with a new credential in place of the old. */
  ghost predicate Recovers(s: Database, cfg: Config, key: EnvelopeKey, r: Reply)
    requires key in s.envelopes
  {
    var e, child := s.envelopes[key], s.envelopes[key].subject;
    && child < |s.nodes| && child in s.intents
    && var intent := s.intents[child];
       if s.nodes[child].life.status != Pending || intent.consumedAt.Some? || intent.expiresAt <= s.clock then
         r == Reply(s, Refused(CredentialRecoveryExpired))
       else if e.expiresAt > s.clock then r == Reply(s, Answered(SpawnResponse(child, intent.token, intent.expiresAt)))
       else
         var answer := SpawnResponse(child, s.nextToken, s.clock + cfg.intentTtl);
         && r.out == Answered(answer)
         && r.db == s.(
              nextToken := s.nextToken + 1,
              intents := s.intents[child := intent.(token := s.nextToken, expiresAt := s.clock + cfg.intentTtl)],
              envelopes := s.envelopes[key := Envelope(
                e.run, child, e.request, Sealed(SealedData(key, e.request, child), answer), s.clock + cfg.recoveryTtl)])
  }

  lemma RecoverExactly(s: Database, cfg: Config, key: EnvelopeKey)
    requires WellSealed(s) && key in s.envelopes && key.op != ActivationOp
    ensures Recovers(s, cfg, key, RecoverSpawn(s, cfg, key))
  {
    assert EnvelopeSound(s, key);
  }

  /** The budgets that a new child of the parent would exceed, in the order in which they are told. */
  ghost function OverBudget(s: State, cfg: Config, parent: Id): Option<Code>
    requires parent < |s.nodes|
  {
    var up := s.nodes[parent].reg;
    if up.generation >= cfg.maxDepth then Some(GraphDepthQuota)
    else if |NodesIn(s.nodes, up.run)| >= cfg.maxNodes then Some(RunNodeQuota)
    else if |ChildrenOf(s.nodes, up.run, parent)| >= cfg.maxChildren then Some(NodeChildQuota)
    else None
  }

  lemma BudgetExactly(s: Database, cfg: Config, parent: Id)
    requires parent < |s.nodes|
    ensures GraphBudget(s, cfg, parent) == OverBudget(s, cfg, parent)
  {
    hide CountNodes, CountChildren;
    NodesCounted(s.nodes, s.nodes[parent].reg.run);
    ChildrenCounted(s.nodes, s.nodes[parent].reg.run, parent);
  }

  /** A live parent within the budgets that is no replacement spawns a child with capabilities of its own. */
  ghost predicate SpawnDoes(s: Database, cfg: Config, throttled: bool, parent: Id, token: Token, request: SpawnRequest, r: Reply) {
    && TurnsAway(s, parent, token, r)
    && (Bears(s, parent, token) ==>
          var digest := Digest(SpawnPayload(None, request.role, request.instruction, request.capabilities, request.behavior));
          if request.operationKey.Some? && EnvelopeKey(SpawnOp, parent, request.operationKey.value) in s.envelopes then
            var key := EnvelopeKey(SpawnOp, parent, request.operationKey.value);
            if s.envelopes[key].request != digest then r == Reply(s, Refused(OperationKeyPayloadMismatch))
            else Recovers(s, cfg, key, r)
          else if throttled then r == Reply(s, Refused(RateLimited))
          else if !Live(s, parent) then r.db == s && r.out.Refused? && Barred(s, parent, r.out.code)
          else if OverBudget(s, cfg, parent).Some? then r == Reply(s, Refused(OverBudget(s, cfg, parent).value))
          else if s.nodes[parent].reg.causedBy.Some? then r == Reply(s, Refused(ReplacementChildBudget))
          else if !(request.capabilities <= s.nodes[parent].reg.capabilities) then r == Reply(s, Refused(CapabilityNotDelegable))
          else Registered(s, cfg, SpawnOp, parent, request, None, None, 1, s.commands, r))
  }

  lemma ChildBudgetExactly(s: Database, parent: Id)
    requires WellReplaced(s) && parent < |s.nodes|
    ensures ChildBudget(s, parent) == if s.nodes[parent].reg.causedBy.Some? then Some(ReplacementChildBudget) else None
  {
    var cause := s.nodes[parent].reg.causedBy;
    assert NodeReplaces(s, parent);
    assert cause.Some? ==> CommandReplaces(s, cause.value);
  }

  lemma RegisteredBySpawn(s: Database, cfg: Config, parent: Id, request: SpawnRequest)
    requires parent < |s.nodes|
    ensures var answer := SpawnAnswer(s, cfg);
      var t := SealedIfKeyed(Register(s, cfg, parent, request, None, None, 1), cfg, SpawnOp, parent, request.operationKey,
                             |s.nodes|, Digested(request, None), answer);
      Registered(s, cfg, SpawnOp, parent, request, None, None, 1, s.commands, Reply(t, Answered(answer)))
  {
  }

  lemma SpawnExactly(s: Database, cfg: Config, throttled: bool, parent: Id, token: Token, request: SpawnRequest)
    requires Coherent(s)
    ensures SpawnDoes(s, cfg, throttled, parent, token, request, CreateSpawn(s, cfg, throttled, parent, token, request))
  {
    hide Coherent, RuntimeOf, GraphBudget, ChildBudget, RecoverSpawn, Register, SealedIfKeyed, Live, Barred, OverBudget, Recovers,
         Registered, WellTreed, WellFenced, WellReplaced, WellSealed, Lived;
    if Bears(s, parent, token) {
      RegistryRows(s);
      RuntimeExactly(s, parent);
      BudgetExactly(s, cfg, parent);
      ChildBudgetExactly(s, parent);
      RegisteredBySpawn(s, cfg, parent, request);
      var key := EnvelopeKey(SpawnOp, parent, if request.operationKey.Some? then request.operationKey.value else "");
      if key in s.envelopes { RecoverExactly(s, cfg, key); }
    }
  }

  lemma RegistryRows(s: State)
    requires Coherent(s)
    ensures WellTreed(s) && WellFenced(s) && WellReplaced(s) && WellSealed(s) && Lived(s)
  {
  }

  // ---------------------------------------------------------------- replacements

  /** Why the command does not let this parent create a replacement at all. */
  function NoCreator(s: State, parent: Id, c: Id): Option<Code>
    requires parent < |s.nodes|
  {
    if c >= |s.commands| then Some(NotFound)
    else
      var order := s.commands[c].order;
      if order.kind != CorrectSubtree then Some(ReplacementCommandInvalid)
      else if order.run != s.nodes[parent].reg.run then Some(CrossRunReplacement)
      else if order.replacementParent != Some(parent) then Some(ReplacementParentUnauthorized)
      else None
  }

  /** The correction has an attempt that has not lapsed. */
  predicate HasAttempt(command: Command) {
    command.replacementNode.Some? && command.replacementStatus != Some(ActivationExpired)
  }

  /** Why the request is not the one replacement that the correction's manifest describes. */
  function Unfit(s: State, parent: Id, order: Order, request: SpawnRequest): Option<Code>
    requires parent < |s.nodes| && order.manifest.Some?
  {
    var manifest := order.manifest.value;
    if order.instruction != Some(request.instruction) then Some(ReplacementInstructionMismatch)
    else if request.role != manifest.role || request.behavior != manifest.behavior
            || request.capabilities != manifest.capabilities
    then Some(ReplacementManifestMismatch)
    else if !(request.capabilities <= s.nodes[parent].reg.capabilities) then Some(CapabilityNotDelegable)
    else None
  }

  /** A retry under an answered key. */
  ghost predicate ReplaceRepeats(s: Database, cfg: Config, key: EnvelopeKey, c: Id, request: SpawnRequest, r: Reply)
    requires key in s.envelopes
  {
    if s.envelopes[key].request
       != Digest(SpawnPayload(Some(c), request.role, request.instruction, request.capabilities, request.behavior))
    then r == Reply(s, Refused(OperationKeyPayloadMismatch))
    else if c >= |s.commands| || s.commands[c].replacementNode != Some(s.envelopes[key].subject) then
      r == Reply(s, Refused(RecoverySubjectMismatch))
    else Recovers(s, cfg, key, r)
  }

  /** The live creator that the correction designates registers the one replacement that its manifest
      describes, within the budgets, unless there is an attempt that has not lapsed. */
  ghost predicate ReplaceDoes(
    s: Database, cfg: Config, throttled: bool, parent: Id, token: Token, c: Id, request: SpawnRequest, r: Reply)
  {
    && TurnsAway(s, parent, token, r)
    && (Bears(s, parent, token) ==>
          if request.operationKey.Some? && EnvelopeKey(ReplacementOp, parent, request.operationKey.value) in s.envelopes
          then ReplaceRepeats(s, cfg, EnvelopeKey(ReplacementOp, parent, request.operationKey.value), c, request, r)
          else if throttled then r == Reply(s, Refused(RateLimited))
          else if !Live(s, parent) then r.db == s && r.out.Refused? && Barred(s, parent, r.out.code)
          else if NoCreator(s, parent, c).Some? then r == Reply(s, Refused(NoCreator(s, parent, c).value))
          else ReplaceFresh(s, cfg, parent, c, request, r))
  }

  ghost predicate ReplaceFresh(s: Database, cfg: Config, parent: Id, c: Id, request: SpawnRequest, r: Reply)
    requires parent < |s.nodes| && c < |s.commands|
  {
    var command := s.commands[c];
    && command.order.manifest.Some? && command.order.target < |s.nodes|
    && if HasAttempt(command) then r == Reply(s, Refused(ReplacementAlreadyCreated))
       else if OverBudget(s, cfg, parent).Some? then r == Reply(s, Refused(OverBudget(s, cfg, parent).value))
       else if Unfit(s, parent, command.order, request).Some? then
         r == Reply(s, Refused(Unfit(s, parent, command.order, request).value))
       else
         Registered(s, cfg, ReplacementOp, parent, request, Some(command.order.target), Some(c),
                    s.nodes[command.order.target].reg.instructionVersion + 1,
                    s.commands[c := command.(replacementNode := Some(|s.nodes|),
                                             replacementStatus := Some(ReplacementPending))], r)
  }

  lemma AttemptExactly(s: Database, c: Id)
    requires WellReplaced(s) && c < |s.commands| && s.commands[c].order.kind == CorrectSubtree
    ensures HasAttempt(s.commands[c]) <==> s.commands[c].replacementNode.Some? && !RetryAllowed(s, s.commands[c])
  {
    assert CommandReplaces(s, c);
    var m := s.commands[c].replacementNode;
    assert m.Some? && m.value < |s.nodes| ==> NodeReplaces(s, m.value);
  }

  /** What remains of the guard in a coherent registry. */
  lemma GuardExactly(s: Database, cfg: Config, parent: Id, c: Id, request: SpawnRequest, recovered: bool)
    requires WellTreed(s) && WellFenced(s) && WellReplaced(s) && parent < |s.nodes|
    ensures var guard := ReplacementGuard(s, cfg, parent, c, request, recovered);
      if NoCreator(s, parent, c).Some? then guard == NoCreator(s, parent, c)
      else
        && c < |s.commands| && s.commands[c].order.manifest.Some? && s.commands[c].order.target < |s.nodes|
        && if !recovered && HasAttempt(s.commands[c]) then guard == Some(ReplacementAlreadyCreated)
           else if !recovered && OverBudget(s, cfg, parent).Some? then guard == OverBudget(s, cfg, parent)
           else guard == Unfit(s, parent, s.commands[c].order, request)
  {
    hide GraphBudget, OverBudget, RetryAllowed, HasAttempt, StatusFits;
    BudgetExactly(s, cfg, parent);
    if NoCreator(s, parent, c).None? {
      var order := s.commands[c].order;
      AttemptExactly(s, c);
      assert CommandReplaces(s, c) && CommandFences(s, c);
      assert ScopeFenced(s, order.targetScope);
      RootOrParent(s, parent, order);
    }
  }

  lemma RootOrParent(s: Database, parent: Id, order: Order)
    requires WellTreed(s) && parent < |s.nodes| && order.target < |s.nodes| && CreatorFits(s, order)
    requires order.replacementParent == Some(parent) && order.run == s.nodes[parent].reg.run
    ensures s.nodes[order.target].reg.parent == Some(parent) || parent == s.runs[s.nodes[parent].reg.run].root
  {
    assert NodeLinked(s, parent);
  }

  /** The attempt a correction designates was registered under it, by its creator and as its manifest says. */
  lemma DesignatedFits(s: Database, key: EnvelopeKey, c: Id, request: SpawnRequest)
    requires WellTreed(s) && WellReplaced(s) && WellSealed(s)
    requires key in s.envelopes && key.op == ReplacementOp && c < |s.commands|
    requires s.commands[c].replacementNode == Some(s.envelopes[key].subject)
    requires s.envelopes[key].request == Digested(request, Some(c))
    ensures key.caller < |s.nodes| && NoCreator(s, key.caller, c).None? && s.commands[c].order.manifest.Some?
    ensures Unfit(s, key.caller, s.commands[c].order, request).None?
  {
    hide StatusFits;
    assert EnvelopeSound(s, key) && CommandReplaces(s, c);
    var m := s.envelopes[key].subject;
    assert NodeReplaces(s, m) && NodeLinked(s, m);
  }

  lemma RegisteredByReplace(s: Database, cfg: Config, parent: Id, c: Id, request: SpawnRequest)
    requires parent < |s.nodes| && c < |s.commands| && s.commands[c].order.target < |s.nodes|
    ensures var t := Designated(s, cfg, parent, c, request); var answer := SpawnAnswer(s, cfg); var order := s.commands[c].order;
      && parent < |t.nodes|
      && Registered(s, cfg, ReplacementOp, parent, request, Some(order.target), Some(c),
                    s.nodes[order.target].reg.instructionVersion + 1,
                    s.commands[c := s.commands[c].(replacementNode := Some(|s.nodes|),
                                                   replacementStatus := Some(ReplacementPending))],
                    Reply(SealedIfKeyed(t, cfg, ReplacementOp, parent, request.operationKey, |s.nodes|,
                                        Digested(request, Some(c)), answer), Answered(answer)))
  {
  }

  lemma ReplaceExactly(s: Database, cfg: Config, throttled: bool, parent: Id, token: Token, c: Id, request: SpawnRequest)
    requires Coherent(s)
    ensures ReplaceDoes(s, cfg, throttled, parent, token, c, request,
                        CreateReplacement(s, cfg, throttled, parent, token, c, request))
  {
    hide Coherent, RuntimeOf, Live, Barred, ReplacementGuard, NoCreator, ReplaceFresh, ReplaceRepeats;
    if Bears(s, parent, token) {
      RegistryRows(s);
      RuntimeExactly(s, parent);
      var key := EnvelopeKey(ReplacementOp, parent, if request.operationKey.Some? then request.operationKey.value else "");
      if request.operationKey.Some? && key in s.envelopes {
        RepeatsExactly(s, cfg, throttled, parent, token, c, request);
      } else if !throttled && Live(s, parent) {
        FreshReplaceExactly(s, cfg, parent, token, c, request);
      }
    }
  }

  lemma RepeatsExactly(s: Database, cfg: Config, throttled: bool, parent: Id, token: Token, c: Id, request: SpawnRequest)
    requires WellTreed(s) && WellFenced(s) && WellReplaced(s) && WellSealed(s) && Bears(s, parent, token)
    requires request.operationKey.Some? && EnvelopeKey(ReplacementOp, parent, request.operationKey.value) in s.envelopes
    ensures ReplaceRepeats(s, cfg, EnvelopeKey(ReplacementOp, parent, request.operationKey.value), c, request,
                           CreateReplacement(s, cfg, throttled, parent, token, c, request))
  {
    hide RuntimeOf, ReplacementGuard, RecoverSpawn, Recovers, NoCreator, Unfit, Register, SealedIfKeyed;
    var key := EnvelopeKey(ReplacementOp, parent, request.operationKey.value);
    RecoverExactly(s, cfg, key);
    GuardExactly(s, cfg, parent, c, request, true);
    if && s.envelopes[key].request == Digested(request, Some(c))
       && c < |s.commands| && s.commands[c].replacementNode == Some(s.envelopes[key].subject) {
      DesignatedFits(s, key, c, request);
    }
  }

  lemma FreshReplaceExactly(s: Database, cfg: Config, parent: Id, token: Token, c: Id, request: SpawnRequest)
    requires WellTreed(s) && WellFenced(s) && WellReplaced(s) && Bears(s, parent, token) && Live(s, parent)
    requires request.operationKey.Some? ==> EnvelopeKey(ReplacementOp, parent, request.operationKey.value) !in s.envelopes
    ensures var r := CreateReplacement(s, cfg, false, parent, token, c, request);
      match NoCreator(s, parent, c)
      case Some(code) => r == Reply(s, Refused(code))
      case None => c < |s.commands| && ReplaceFresh(s, cfg, parent, c, request, r)
  {
    hide RuntimeOf, Live, Barred, ReplacementGuard, RecoverSpawn, NoCreator, Unfit, OverBudget, HasAttempt, Registered, Register,
         SealedIfKeyed;
    RuntimeExactly(s, parent);
    GuardExactly(s, cfg, parent, c, request, false);
    if c < |s.commands| && s.commands[c].order.target < |s.nodes| {
      RegisteredByReplace(s, cfg, parent, c, request);
    }
  }

  // ---------------------------------------------------------------- activation

  /** A retry under an answered key: the stored token from the envelope, or, when the envelope has run out,
      a new one while the node still works under a live lease. */
  ghost predicate ActivateRepeats(s: Database, cfg: Config, n: Id, key: EnvelopeKey, r: Reply)
    requires n < |s.nodes| && key in s.envelopes
  {
    var e, reg, life := s.envelopes[key], s.nodes[n].reg, s.nodes[n].life;
    && life.token.Some? && e.content.response.ActivationResponse?
    && if e.expiresAt > s.clock then
         r == Reply(s, Answered(ActivationResponse(n, reg.run, reg.role, life.token.value, e.content.response.lease)))
       else if (life.status != Active && life.status != Waiting) || life.lease.None? || life.lease.value <= s.clock then
         r == Reply(s, Refused(CredentialRecoveryExpired))
       else
         var answer := ActivationResponse(n, reg.run, reg.role, s.nextToken, life.lease.value);
         && r.out == Answered(answer)
         && r.db == WithLife(s, n, life.(token := Some(s.nextToken))).(
              nextToken := s.nextToken + 1,
              envelopes := s.envelopes[key := Envelope(
                reg.run, n, e.request, Sealed(SealedData(key, e.request, n), answer), s.clock + cfg.recoveryTtl)])
  }

  /** The node becomes active with a new token and a lease, its intent is spent, and its correction's
      attempt becomes active; a keyed request is sealed with its answer. */
  ghost predicate Activated(s: Database, cfg: Config, n: Id, request: ActivateRequest, r: Reply)
    requires n < |s.nodes| && n in s.intents
  {
    var reg, cause := s.nodes[n].reg, s.nodes[n].reg.causedBy;
    var digest := Digest(ActivatePayload(request.activationToken, request.processId));
    var answer := ActivationResponse(n, reg.run, reg.role, s.nextToken, s.clock + cfg.leaseTtl);
    && (cause.Some? ==> cause.value < |s.commands|)
    && r.out == Answered(answer)
    && r.db == WithLife(s, n, s.nodes[n].life.(status := Active, token := Some(s.nextToken), activatedAt := Some(s.clock),
                                               lease := Some(s.clock + cfg.leaseTtl))).(
         nextToken := s.nextToken + 1,
         intents := s.intents[n := s.intents[n].(consumedAt := Some(s.clock))],
         commands := match cause
                     case None => s.commands
                     case Some(c) => s.commands[c := s.commands[c].(replacementStatus := Some(ReplacementActive))],
         envelopes := match request.operationKey
                      case None => s.envelopes
                      case Some(key) => s.envelopes[EnvelopeKey(ActivationOp, n, key) := Envelope(
                        reg.run, n, digest, Sealed(SealedData(EnvelopeKey(ActivationOp, n, key), digest, n), answer),
                        s.clock + cfg.recoveryTtl)])
  }

  /** The bearer of an unspent and unexpired intent activates its pending node, unless a command targets it. */
  ghost predicate ActivateDoes(s: Database, cfg: Config, throttled: bool, n: Id, request: ActivateRequest, r: Reply) {
    if n >= |s.nodes| then r == Reply(s, Refused(NotFound))
    else if n !in s.intents || s.intents[n].token != request.activationToken then r == Reply(s, Refused(InvalidActivationToken))
    else if request.operationKey.Some? && EnvelopeKey(ActivationOp, n, request.operationKey.value) in s.envelopes then
      var key := EnvelopeKey(ActivationOp, n, request.operationKey.value);
      if s.envelopes[key].request != Digest(ActivatePayload(request.activationToken, request.processId)) then
        r == Reply(s, Refused(OperationKeyPayloadMismatch))
      else ActivateRepeats(s, cfg, n, key, r)
    else if s.intents[n].consumedAt.Some? then r == Reply(s, Refused(ActivationTokenUsed))
    else if throttled then r == Reply(s, Refused(RateLimited))
    else if s.intents[n].expiresAt <= s.clock then r == Reply(s, Refused(ActivationTokenExpired))
    else if s.nodes[n].life.status != Pending then r == Reply(s, Refused(NodeNotPending))
    else if Revoked(s, n) then r.db == s && r.out.Refused? && RevokedAs(s, n, r.out.code)
    else Activated(s, cfg, n, request, r)
  }

  lemma ActivationRepeatsExactly(s: Database, cfg: Config, n: Id, key: EnvelopeKey)
    requires WellSealed(s) && Lived(s) && n < |s.nodes| && key in s.envelopes && key.op == ActivationOp && key.caller == n
    ensures ActivateRepeats(s, cfg, n, key, RecoverActivation(s, cfg, n, key))
  {
    hide WellSealed, Lived, Transitions.Open;
    ActivationEnvelope(s, n, key);
  }

  /** An envelope of an activation opens to the node's own registration and its current token. */
  lemma ActivationEnvelope(s: Database, n: Id, key: EnvelopeKey)
    requires WellSealed(s) && Lived(s) && n < |s.nodes| && key in s.envelopes && key.op == ActivationOp && key.caller == n
    ensures var e, reg, life := s.envelopes[key], s.nodes[n].reg, s.nodes[n].life;
      && life.token.Some? && e.content.response.ActivationResponse?
      && Transitions.Open(key, e) == Some(ActivationResponse(n, reg.run, reg.role, life.token.value, e.content.response.lease))
  {
    assert EnvelopeSound(s, key) && LifeShape(s.nodes[n].life);
  }

  /** A pending node's correction still designates it. */
  lemma PendingIsDesignated(s: Database, n: Id)
    requires WellReplaced(s) && Lived(s) && n < |s.nodes| && s.nodes[n].life.status == Pending
    ensures s.nodes[n].life.token.None?
    ensures var cause := s.nodes[n].reg.causedBy; cause.Some? ==> ReplacementIs(s, cause.value, n, ReplacementPending)
  {
    var cause := s.nodes[n].reg.causedBy;
    assert NodeReplaces(s, n) && LifeShape(s.nodes[n].life);
    assert cause.Some? ==> CommandReplaces(s, cause.value);
  }

  lemma ConsumeRows(s: Database, cfg: Config, n: Id)
    requires n < |s.nodes| && n in s.intents
    requires s.nodes[n].reg.causedBy.Some? ==> s.nodes[n].reg.causedBy.value < |s.commands|
    ensures Consume(s, cfg, n)
         == WithLife(s, n, s.nodes[n].life.(status := Active, token := Some(s.nextToken), activatedAt := Some(s.clock),
                                            lease := Some(s.clock + cfg.leaseTtl))).(
              nextToken := s.nextToken + 1,
              intents := s.intents[n := s.intents[n].(consumedAt := Some(s.clock))],
              commands := match s.nodes[n].reg.causedBy
                          case None => s.commands
                          case Some(c) => s.commands[c := s.commands[c].(replacementStatus := Some(ReplacementActive))])
  {
  }

  lemma ActivatedByConsume(s: Database, cfg: Config, n: Id, request: ActivateRequest)
    requires n < |s.nodes| && n in s.intents
    requires s.nodes[n].reg.causedBy.Some? ==> s.nodes[n].reg.causedBy.value < |s.commands|
    ensures var answer := ActivationAnswer(s, n, s.nextToken, s.clock + cfg.leaseTtl);
      Activated(s, cfg, n, request,
                Reply(SealedIfKeyed(Consume(s, cfg, n), cfg, ActivationOp, n, request.operationKey, n,
                                    Digest(ActivatePayload(request.activationToken, request.processId)), answer),
                      Answered(answer)))
  {
    hide Consume;
    ConsumeRows(s, cfg, n);
  }

  lemma ActivateExactly(s: Database, cfg: Config, throttled: bool, n: Id, request: ActivateRequest)
    requires Coherent(s)
    ensures ActivateDoes(s, cfg, throttled, n, request, Activate(s, cfg, throttled, n, request))
  {
    hide Coherent, EvaluationOf, RecoverActivation, Consume, SealedIfKeyed, ActivationAnswer, Revoked, RevokedAs, ActivateRepeats,
         Activated, WellTreed, WellFenced, WellReplaced, WellSealed, Lived;
    if n < |s.nodes| && n in s.intents {
      RegistryRows(s);
      EvaluationExactly(s, n);
      var key := EnvelopeKey(ActivationOp, n, if request.operationKey.Some? then request.operationKey.value else "");
      if key in s.envelopes { ActivationRepeatsExactly(s, cfg, n, key); }
      if s.nodes[n].life.status == Pending {
        PendingIsDesignated(s, n);
        ActivatedByConsume(s, cfg, n, request);
      }
    }
  }
}
