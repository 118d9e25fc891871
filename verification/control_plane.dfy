/** The control plane as an object: the registry's tables are fields that the services update in
    place, each service proved against the transition it performs. */
module ControlPlaneService {
  import opened Options
  import opened Domain
  import opened Scopes
  import opened Tools
  import opened Lineage
  import opened Transitions
  import opened Frames
  import opened Lives
  import Coherence
  import Growth

  class ControlPlane {
    const cfg: Config
    var clock: Time
    var nextToken: Token
    var runs: seq<Run>
    var nodes: seq<Node>
    var scopes: seq<Scope>
    var intents: map<Id, Intent>
    var envelopes: map<EnvelopeKey, Envelope>
    var commands: seq<Command>
    var acks: map<AckKey, Ack>
    var attempts: seq<Attempt>
    var matches: map<MatchKey, Mismatch>
    var proposals: seq<Proposal>
    var services: Services

    function Contents(): State
      reads this
    {
      State(clock, nextToken, runs, nodes, scopes, intents, envelopes, commands, acks, attempts, matches, proposals,
            services)
    }

    predicate Valid()
      reads this
    {
      Keyed(Contents())
    }

    function Db(): Database
      reads this
      requires Valid()
    {
      Contents()
    }

    constructor (cfg: Config)
      ensures this.cfg == cfg && Contents() == EMPTY && Valid()
    {
      this.cfg := cfg;
      clock, nextToken, runs, nodes, scopes := 0, 0, [], [], [];
      intents, envelopes, commands, acks, attempts, matches, proposals, services :=
        map[], map[], [], map[], [], map[], [], map[];
    }

    /** Undo everything the transaction has written; a transaction that is undone records no action. */
    method Rollback(s: State)
      requires Keyed(s) && clock == s.clock && attempts == s.attempts && matches == s.matches
      modifies this
      ensures Contents() == s && Valid()
    {
      hide Keyed;
      nextToken, runs, nodes, scopes := s.nextToken, s.runs, s.nodes, s.scopes;
      intents, envelopes, commands, acks := s.intents, s.envelopes, s.commands, s.acks;
      proposals, services := s.proposals, s.services;
    }

    /** The time between two transactions. */
    method PassTime(e: Event)
      requires Valid()
      modifies this`clock
      ensures Valid() && Contents() == Tick(old(Db()), e)
    {
      clock := clock + 1 + e.wait;
    }

    // -------------------------------------------------------------- shared steps

    method ValidateRuntime(n: Id) returns (runtime: Runtime, evaluation: Evaluation)
      requires Valid() && n < |nodes|
      ensures runtime == RuntimeOf(Db(), n) && evaluation == EvaluationOf(Db(), n)
    {
      evaluation := EvaluateScopes(scopes, nodes[n].reg);
      var life := nodes[n].life;
      if runs[nodes[n].reg.run].status != RunRunning {
        runtime := Runtime(false, Some(RunNotActive));
      } else if !Working(life.status) {
        runtime := Runtime(false, Some(NodeNotActive));
      } else if life.lease.None? || life.lease.value <= clock {
        runtime := Runtime(false, Some(LeaseIsExpired));
      } else if !evaluation.allowed {
        runtime := Runtime(false, evaluation.PrimaryReason());
      } else {
        runtime := Runtime(true, None);
      }
    }

    method AddAcks(ids: seq<Id>, n: Id, kind: AckKind)
      requires forall i | 0 <= i < |ids| :: ids[i] < |commands|
      modifies this`acks
      ensures acks == RecordAcks(old(acks), commands, ids, n, kind, clock)
    {
      for i := 0 to |ids|
        invariant acks == RecordAcks(old(acks), commands, ids[..i], n, kind, clock)
      {
        assert ids[..i + 1][..i] == ids[..i];
        var key := AckKey(ids[i], n, kind);
        if key !in acks {
          acks := acks[key := Ack(commands[ids[i]].order.toVersion, clock)];
        }
      }
      assert ids[..|ids|] == ids;
    }

    /** Acknowledge the commands that the node's outdated scopes are attributed to. */
    method AcknowledgeFor(n: Id, kind: AckKind)
      requires Valid() && n < |nodes|
      modifies this`acks
      ensures Valid() && Contents() == Acknowledge(old(Db()), n, kind)
    {
      var evaluation := EvaluateScopes(scopes, nodes[n].reg);
      var ids := CommandsForMismatches(commands, evaluation.mismatches, nodes[n].reg.run);
      AddAcks(ids, n, kind);
    }

    method SetNodeStatus(n: Id, status: NodeStatus)
      requires Valid() && n < |nodes|
      modifies this`nodes
      ensures Valid() && Contents() == SetStatus(old(Db()), n, status)
    {
      nodes := nodes[n := nodes[n].(life := nodes[n].life.(status := status))];
    }

    method ExpireNode(n: Id)
      requires Valid() && n < |nodes|
      modifies this`nodes, this`acks
      ensures Valid() && Contents() == MarkExpired(old(Db()), n)
    {
      hide Acknowledge;
      SetNodeStatus(n, LeaseExpired);
      AcknowledgeFor(n, LeaseExpiredAck);
    }

    /** The conditional update: only an allowed edge from a run without a finish time. */
    method Transition(r: Id, target: RunStatus) returns (refusal: Option<Code>)
      requires r < |runs|
      modifies this`runs
      ensures refusal.None? <==> TransitionRun(old(runs)[r], target, clock).Some?
      ensures refusal.None? ==> runs == old(runs)[r := TransitionRun(old(runs)[r], target, clock).value]
      ensures refusal.Some? ==> runs == old(runs)
      ensures refusal.Some? ==> refusal.value in {RunTerminalState, RunTransitionInvalid}
    {
      var source := runs[r].status;
      if !RunEdge(source, target) {
        return Some(if Terminal(source) then RunTerminalState else RunTransitionInvalid);
      }
      if runs[r].finishedAt.Some? {
        return Some(RunTerminalState);
      }
      runs := runs[r := runs[r].(status := target, finishedAt := if Terminal(target) then Some(clock) else None)];
      refusal := None;
    }

    // -------------------------------------------------------------- create_run, seed_scenario

    method CreateNewRun(role: string, instruction: Json, capabilities: set<Capability>) returns (out: Outcome)
      requires Valid()
      modifies this
      ensures Valid() && Reply(Contents(), out) == CreateRun(old(Db()), cfg, role, instruction, capabilities)
    {
      if CountActiveRuns(runs) >= cfg.maxActiveRuns {
        return Refused(ActiveRunQuota);
      }
      var run, root, scope, token := |runs|, |nodes|, |scopes|, nextToken;
      runs := runs + [Run(RunRunning, root, scope, None)];
      scopes := scopes + [Scope(run, None, 1, ScopeActive), Scope(run, Some(root), 1, ScopeActive)];
      nodes := nodes + [Node(
        Registration(run, None, None, None, role, Cooperative, 0, scope + 1, [Snap(scope, 1), Snap(scope + 1, 1)], 1,
                     instruction, capabilities, clock),
        Life(Active, Some(token), Some(clock), None, Some(clock + cfg.leaseTtl)))];
      nextToken := token + 1;
      out := RunMade(run, root, token);
    }

    method Seed(run: Id) returns (out: Outcome)
      requires Valid()
      modifies this`services
      ensures Valid() && Reply(Contents(), out) == SeedScenario(old(Db()), run)
    {
      if run >= |runs| {
        return Refused(NotFound);
      }
      if HasServices(Db(), run) {
        return Refused(ScenarioAlreadyInitialized);
      }
      if HasChildren(Db(), run) || CountCommands(commands, run) != 0 || CountAttempts(attempts, run) != 0 {
        return Refused(ScenarioTooLate);
      }
      var defaults := [(Postgres, Healthy), (Redis, PoolExhausted), (Checkout, Degraded)];
      for i := 0 to |defaults|
        invariant services == Seeded(old(services), run, defaults[..i], clock)
      {
        assert defaults[..i + 1][..i] == defaults[..i];
        services := services[ServiceKey(run, defaults[i].0) := Service(defaults[i].1, 0, 0, None, clock)];
      }
      assert defaults[..3] == defaults;
      SeededAll(old(services), run, clock);
      out := Finished;
    }

    // -------------------------------------------------------------- spawn

    /** Insert scope, node and intent for a child. */
    method CreateSpawnLocked(
      parent: Id, request: SpawnRequest, supersedes: Option<Id>, causedBy: Option<Id>, version: nat)
      returns (response: Response)
      requires Valid() && parent < |nodes|
      modifies this`nextToken, this`scopes, this`nodes, this`intents
      ensures Valid() && Contents() == Register(old(Db()), cfg, parent, request, supersedes, causedBy, version)
      ensures response == SpawnAnswer(old(Db()), cfg)
    {
      var up := nodes[parent].reg;
      var child, scope, token, expiresAt := |nodes|, |scopes|, nextToken, clock + cfg.intentTtl;
      scopes := scopes + [Scope(up.run, Some(child), 1, ScopeActive)];
      nodes := nodes + [Node(
        Registration(up.run, Some(parent), supersedes, causedBy, request.role, request.behavior, up.generation + 1,
                     scope, up.snapshot + [Snap(scope, 1)], version, request.instruction, request.capabilities, clock),
        Life(Pending, None, None, None, None))];
      intents := intents[child := Intent(parent, token, expiresAt, None)];
      nextToken := token + 1;
      response := SpawnResponse(child, token, expiresAt);
    }

    method SealEnvelope(
      key: EnvelopeKey, run: Id, subject: Id, request: Digest<RecoveryPayload>, response: Response)
      requires Valid()
      modifies this`envelopes
      ensures Valid() && Contents() == Seal(old(Db()), cfg, key, run, subject, request, response)
    {
      var content := Sealed(SealedData(key, request, subject), response);
      envelopes := envelopes[key := Envelope(run, subject, request, content, clock + cfg.recoveryTtl)];
    }

    method RecoverSpawnResponse(key: EnvelopeKey) returns (out: Outcome)
      requires Valid() && key in envelopes
      modifies this`nextToken, this`intents, this`envelopes
      ensures Valid() && Reply(Contents(), out) == RecoverSpawn(old(Db()), cfg, key)
    {
      var envelope := envelopes[key];
      var subject := envelope.subject;
      if subject >= |nodes| || subject !in intents || nodes[subject].life.status != Pending
         || intents[subject].consumedAt.Some? || intents[subject].expiresAt <= clock {
        return Refused(CredentialRecoveryExpired);
      }
      if envelope.expiresAt > clock {
        var unsealed := Open(key, envelope);
        if unsealed.Some? && unsealed.value.SpawnResponse? {
          return Answered(unsealed.value);
        }
        return Refused(EnvelopeInvalid);
      }
      var token := nextToken;
      nextToken := token + 1;
      intents := intents[subject := intents[subject].(token := token, expiresAt := clock + cfg.intentTtl)];
      var response := SpawnResponse(subject, token, clock + cfg.intentTtl);
      SealEnvelope(key, envelope.run, subject, envelope.request, response);
      out := Answered(response);
    }

    method Spawn(throttled: bool, parent: Id, token: Token, request: SpawnRequest) returns (out: Outcome)
      requires Valid()
      modifies this
      ensures Valid() && Reply(Contents(), out) == CreateSpawn(old(Db()), cfg, throttled, parent, token, request)
    {
      var denied := Authenticate(Db(), parent, token);
      if denied.Some? {
        return Refused(denied.value);
      }
      hide RuntimeOf, GraphBudget, ChildBudget, RecoverSpawn, Register, Seal;
      var digest := Digested(request, None);
      if request.operationKey.Some? {
        var key := EnvelopeKey(SpawnOp, parent, request.operationKey.value);
        if key in envelopes {
          if envelopes[key].request != digest {
            return Refused(OperationKeyPayloadMismatch);
          }
          out := RecoverSpawnResponse(key);
          return;
        }
      }
      if throttled {
        return Refused(RateLimited);
      }
      var runtime, _ := ValidateRuntime(parent);
      if !runtime.allowed {
        return Refused(Default(runtime.reason, SpawnDenied));
      }
      var graph := GraphBudget(Db(), cfg, parent);
      if graph.Some? {
        return Refused(graph.value);
      }
      var children := ChildBudget(Db(), parent);
      if children.Some? {
        return Refused(children.value);
      }
      if !(request.capabilities <= nodes[parent].reg.capabilities) {
        return Refused(CapabilityNotDelegable);
      }
      var child := |nodes|;
      var response := CreateSpawnLocked(parent, request, None, None, 1);
      RegisteredRows(old(Db()), cfg, parent, request, None, None, 1);
      if request.operationKey.Some? {
        SealEnvelope(EnvelopeKey(SpawnOp, parent, request.operationKey.value), nodes[parent].reg.run, child, digest,
                     response);
      }
      out := Answered(response);
    }

    /** The recovered answer, undone when the correction no longer permits it. */
    method RecoverReplacement(parent: Id, c: Id, request: SpawnRequest, key: EnvelopeKey) returns (out: Outcome)
      requires Valid() && parent < |nodes| && key in envelopes
      modifies this`nextToken, this`intents, this`envelopes
      ensures Valid()
      ensures var recovery := RecoverSpawn(old(Db()), cfg, key);
        var guard := ReplacementGuard(old(Db()), cfg, parent, c, request, true);
        Reply(Contents(), out) == if recovery.out.Refused? then recovery
                                  else if guard.Some? then Refuse(old(Db()), guard.value) else recovery
    {
      hide RecoverSpawn, ReplacementGuard, Keyed;
      var token, before, envelopesBefore := nextToken, intents, envelopes;
      var guard := ReplacementGuard(Db(), cfg, parent, c, request, true);
      out := RecoverSpawnResponse(key);
      if !out.Refused? && guard.Some? {
        nextToken, intents, envelopes := token, before, envelopesBefore;
        out := Refused(guard.value);
      }
    }

    method Replace(throttled: bool, parent: Id, token: Token, c: Id, request: SpawnRequest) returns (out: Outcome)
      requires Valid()
      modifies this
      ensures Valid()
      ensures Reply(Contents(), out) == CreateReplacement(old(Db()), cfg, throttled, parent, token, c, request)
    {
      var denied := Authenticate(Db(), parent, token);
      if denied.Some? {
        return Refused(denied.value);
      }
      hide RuntimeOf, RecoverSpawn, Register, Seal, ReplacementGuard;
      var digest := Digested(request, Some(c));
      if request.operationKey.Some? {
        var key := EnvelopeKey(ReplacementOp, parent, request.operationKey.value);
        if key in envelopes {
          if envelopes[key].request != digest {
            return Refused(OperationKeyPayloadMismatch);
          }
          if c >= |commands| || commands[c].replacementNode != Some(envelopes[key].subject) {
            return Refused(RecoverySubjectMismatch);
          }
          out := RecoverReplacement(parent, c, request, key);
          return;
        }
      }
      if throttled {
        return Refused(RateLimited);
      }
      var runtime, _ := ValidateRuntime(parent);
      if !runtime.allowed {
        return Refused(Default(runtime.reason, ReplacementParentDenied));
      }
      var guard := ReplacementGuard(Db(), cfg, parent, c, request, false);
      if guard.Some? {
        return Refused(guard.value);
      }
      GuardedCommand(Db(), cfg, parent, c, request);
      var child, target := |nodes|, commands[c].order.target;
      var version := nodes[target].reg.instructionVersion + 1;
      var response := CreateSpawnLocked(parent, request, Some(target), Some(c), version);
      RegisteredRows(old(Db()), cfg, parent, request, Some(target), Some(c), version);
      commands := commands[c := commands[c].(replacementNode := Some(child),
                                             replacementStatus := Some(ReplacementPending))];
      if request.operationKey.Some? {
        SealEnvelope(EnvelopeKey(ReplacementOp, parent, request.operationKey.value), nodes[parent].reg.run, child, digest,
                     response);
      }
      out := Answered(response);
    }

    // -------------------------------------------------------------- activation, heartbeat, checkpoint

    method ActivateNode(throttled: bool, n: Id, request: ActivateRequest) returns (out: Outcome)
      requires Valid()
      modifies this
      ensures Valid() && Reply(Contents(), out) == Activate(old(Db()), cfg, throttled, n, request)
    {
      hide Consume, SealedIfKeyed, EvaluationOf, RecoverActivation;
      if n >= |nodes| {
        return Refused(NotFound);
      }
      if n !in intents || intents[n].token != request.activationToken {
        return Refused(InvalidActivationToken);
      }
      var digest := Digest(ActivatePayload(request.activationToken, request.processId));
      if request.operationKey.Some? {
        var key := EnvelopeKey(ActivationOp, n, request.operationKey.value);
        if key in envelopes {
          if envelopes[key].request != digest {
            return Refused(OperationKeyPayloadMismatch);
          }
          out := RecoverActivationResponse(n, key);
          return;
        }
      }
      if intents[n].consumedAt.Some? {
        return Refused(ActivationTokenUsed);
      }
      if throttled {
        return Refused(RateLimited);
      }
      if intents[n].expiresAt <= clock {
        return Refused(ActivationTokenExpired);
      }
      if nodes[n].life.status != Pending || nodes[n].life.token.Some? {
        return Refused(NodeNotPending);
      }
      var evaluation := Evaluated(n);
      if !evaluation.allowed {
        return Refused(Default(evaluation.PrimaryReason(), ScopeInvalid));
      }
      var cause := nodes[n].reg.causedBy;
      if cause.Some? && !ReplacementIs(Db(), cause.value, n, ReplacementPending) {
        return Refused(ReplacementLifecycleInvalid);
      }
      var response := ActivationAnswer(Db(), n, nextToken, clock + cfg.leaseTtl);
      ConsumeIntent(n);
      SealAnswer(ActivationOp, n, request.operationKey, n, digest, response);
      out := Answered(response);
    }

    method Evaluated(n: Id) returns (evaluation: Evaluation)
      requires Valid() && n < |nodes|
      ensures evaluation == EvaluationOf(Db(), n)
    {
      evaluation := EvaluateScopes(scopes, nodes[n].reg);
    }

    method SealAnswer(op: RecoveryOp, caller: Id, operationKey: Option<string>, subject: Id,
                      request: Digest<RecoveryPayload>, response: Response)
      requires Valid() && caller < |nodes|
      modifies this`envelopes
      ensures Valid()
      ensures Contents() == SealedIfKeyed(old(Db()), cfg, op, caller, operationKey, subject, request, response)
    {
      if operationKey.Some? {
        SealEnvelope(EnvelopeKey(op, caller, operationKey.value), nodes[caller].reg.run, subject, request, response);
      }
    }

    /** The token is spent, the node becomes active under a lease, its replacement active. */
    method ConsumeIntent(n: Id)
      requires Valid() && n < |nodes| && n in intents
      requires nodes[n].reg.causedBy.Some? ==> nodes[n].reg.causedBy.value < |commands|
      modifies this`nextToken, this`nodes, this`intents, this`commands
      ensures Valid() && |nodes| == |old(nodes)| && Contents() == Consume(old(Db()), cfg, n)
    {
      var token := nextToken;
      nextToken := token + 1;
      intents := intents[n := intents[n].(consumedAt := Some(clock))];
      nodes := nodes[n := nodes[n].(life := nodes[n].life.(
        status := Active, token := Some(token), activatedAt := Some(clock), lease := Some(clock + cfg.leaseTtl)))];
      var cause := nodes[n].reg.causedBy;
      if cause.Some? {
        commands := commands[cause.value := commands[cause.value].(replacementStatus := Some(ReplacementActive))];
      }
    }

    method RecoverActivationResponse(n: Id, key: EnvelopeKey) returns (out: Outcome)
      requires Valid() && n < |nodes| && key in envelopes
      modifies this
      ensures Valid() && Reply(Contents(), out) == RecoverActivation(old(Db()), cfg, n, key)
    {
      var envelope := envelopes[key];
      if envelope.expiresAt > clock {
        var unsealed := Open(key, envelope);
        if unsealed.Some? && unsealed.value.ActivationResponse? {
          return Answered(unsealed.value);
        }
        return Refused(EnvelopeInvalid);
      }
      var life := nodes[n].life;
      if !Working(life.status) || life.lease.None? || life.lease.value <= clock {
        return Refused(CredentialRecoveryExpired);
      }
      var token := nextToken;
      var response := ActivationAnswer(Db(), n, token, life.lease.value);
      nextToken := token + 1;
      nodes := nodes[n := nodes[n].(life := life.(token := Some(token)))];
      SealEnvelope(key, nodes[n].reg.run, n, envelope.request, response);
      out := Answered(response);
    }

    /** A denied heartbeat is raised only after its effects have been committed. */
    method Beat(throttled: bool, n: Id, token: Token) returns (out: Outcome)
      requires Valid()
      modifies this
      ensures Valid() && Reply(Contents(), out) == Heartbeat(old(Db()), cfg, throttled, n, token)
    {
      hide EvaluationOf, Acknowledge, MarkExpired, SetStatus;
      var denied := Authenticate(Db(), n, token);
      if denied.Some? {
        return Refused(denied.value);
      }
      if throttled {
        return Refused(RateLimited);
      }
      var life := nodes[n].life;
      if runs[nodes[n].reg.run].status != RunRunning {
        return HeartbeatDenied(RunNotActive);
      }
      if !Working(life.status) {
        return HeartbeatDenied(NodeNotActive);
      }
      if life.lease.None? || life.lease.value <= clock {
        ExpireNode(n);
        return HeartbeatDenied(LeaseIsExpired);
      }
      var evaluation := Evaluated(n);
      if !evaluation.allowed {
        Demote(n, CooperativeAck, evaluation.effective);
        return HeartbeatDenied(Default(evaluation.PrimaryReason(), ScopeInvalid));
      }
      nodes := nodes[n := nodes[n].(life := life.(lease := Some(clock + cfg.leaseTtl)))];
      out := HeartbeatDone;
    }

    method Demote(n: Id, kind: AckKind, status: NodeStatus)
      requires Valid() && n < |nodes|
      modifies this`acks, this`nodes
      ensures Valid() && Contents() == SetStatus(Acknowledge(old(Db()), n, kind), n, status)
    {
      AcknowledgeFor(n, kind);
      SetNodeStatus(n, status);
    }

    method Check(throttled: bool, n: Id, token: Token) returns (out: Outcome)
      requires Valid()
      modifies this
      ensures Valid() && Reply(Contents(), out) == Checkpoint(old(Db()), throttled, n, token)
    {
      hide EvaluationOf, Acknowledge, MarkExpired, SetStatus, RuntimeOf, AttributedTo;
      var denied := Authenticate(Db(), n, token);
      if denied.Some? {
        return Refused(denied.value);
      }
      if throttled {
        return Refused(RateLimited);
      }
      var runtime, evaluation := ValidateRuntime(n);
      if runtime.allowed {
        SetNodeStatus(n, Waiting);
        return CheckpointDone(true, Waiting, None, None);
      }
      var ids := AttributedCommands(n, evaluation);
      if runtime.reason == Some(LeaseIsExpired) {
        ExpireNode(n);
        return CheckpointDone(false, LeaseExpired, LastOf(ids), runtime.reason);
      }
      if ids != [] {
        Demote(n, CooperativeAck, evaluation.effective);
        return CheckpointDone(false, evaluation.effective, LastOf(ids), runtime.reason);
      }
      out := CheckpointDone(false, evaluation.effective, None, runtime.reason);
    }

    method AttributedCommands(n: Id, evaluation: Evaluation) returns (ids: seq<Id>)
      requires Valid() && n < |nodes| && evaluation == EvaluationOf(Db(), n)
      ensures ids == AttributedTo(Db(), n)
    {
      ids := CommandsForMismatches(commands, evaluation.mismatches, nodes[n].reg.run);
    }

    // -------------------------------------------------------------- complete

    method CompleteNode(throttled: bool, n: Id, token: Token) returns (out: Outcome)
      requires Valid()
      modifies this
      ensures Valid() && Reply(Contents(), out) == Complete(old(Db()), throttled, n, token)
    {
      hide RuntimeOf, BlocksCompletion, DueOthers, MarkAllExpired, FinishNode, EvaluationOf;
      var denied := Authenticate(Db(), n, token);
      if denied.Some? {
        return Refused(denied.value);
      }
      if throttled {
        return Refused(RateLimited);
      }
      var runtime, _ := ValidateRuntime(n);
      if !runtime.allowed {
        return Refused(Default(runtime.reason, CompleteDenied));
      }
      var before := Contents();
      var run := nodes[n].reg.run;
      if runs[run].root == n {
        var live := WriteOffOthers(run, n);
        if live {
          Rollback(before);
          return Refused(RunHasLiveNodes);
        }
        var refusal := Transition(run, RunCompleted);
        if refusal.Some? {
          Rollback(before);
          return Refused(RunTerminalState);
        }
      }
      var finished := FinishOwn(n);
      if !finished {
        Rollback(before);
        return Refused(ReplacementLifecycleInvalid);
      }
      out := Finished;
    }

    /** The loop over the other nodes of the run: those that ran out are written off, and those that
        are still live are reported. */
    method WriteOffOthers(run: Id, root: Id) returns (live: bool)
      requires Valid() && run < |runs| && root < |nodes|
      modifies this`nodes, this`acks
      ensures Valid() && |nodes| == |old(nodes)| && runs == old(runs)
      ensures Contents() == MarkAllExpired(old(Db()), DueOthers(old(Db()), run, root, |old(nodes)|))
      ensures live <==> exists other | 0 <= other < |old(nodes)| :: BlocksCompletion(old(Db()), run, root, other)
    {
      hide MarkAllExpired, DueOthers, EvaluationOf, Keyed;
      var s := Db();
      assert Contents() == MarkAllExpired(s, DueOthers(s, run, root, 0)) by { DueStart(s, run, root); }
      live := false;
      for i := 0 to |nodes|
        invariant Valid() && |nodes| == |s.nodes| && runs == s.runs
        invariant Contents() == MarkAllExpired(s, DueOthers(s, run, root, i))
        invariant live <==> exists other | 0 <= other < i :: BlocksCompletion(s, run, root, other)
      {
        DueStep(s, run, root, i);
        assert BlocksCompletion(s, run, root, i)
            <==> nodes[i].reg.run == run && i != root && !Settled(nodes[i].life.status)
                 && !RanOut(Db(), i) && EvaluationOf(Db(), i).allowed;
        if nodes[i].reg.run == run && i != root && !Settled(nodes[i].life.status) {
          if RanOut(Db(), i) {
            ExpireNode(i);
          } else {
            var evaluation := Evaluated(i);
            if evaluation.allowed {
              live := true;
            }
          }
        }
      }
    }

    method FinishOwn(n: Id) returns (ok: bool)
      requires Valid() && n < |nodes|
      modifies this`nodes, this`commands
      ensures Valid() && ok == FinishNode(old(Db()), n).Some?
      ensures ok ==> Contents() == FinishNode(old(Db()), n).value
    {
      var cause := nodes[n].reg.causedBy;
      ok := cause.None? || ReplacementIs(Db(), cause.value, n, ReplacementActive);
      nodes := nodes[n := nodes[n].(life := nodes[n].life.(status := Completed, completedAt := Some(clock)))];
      if ok && cause.Some? {
        commands := commands[cause.value := commands[cause.value].(replacementStatus := Some(ReplacementCompleted))];
      }
    }

    // -------------------------------------------------------------- the lease scanner

    method Expire(scan: Option<Id>) returns (out: Outcome)
      requires Valid()
      modifies this
      ensures Valid() && Reply(Contents(), out) == ExpireStale(old(Db()), scan)
    {
      hide SweepAll, StaleLeases, StaleIntents, Keyed;
      var s := Db();
      var leases := FindStaleLeases(scan);
      var pending := FindStaleIntents(scan);
      var stale := leases + pending;
      var expired := 0;
      assert SweepAll(s, stale[..0]) == s by { SweepNone(s, stale[..0]); }
      for i := 0 to |stale|
        invariant Valid() && |nodes| == |s.nodes|
        invariant Contents() == SweepAll(s, stale[..i]) && expired == i
      {
        SweepStep(s, stale, i);
        SweepNode(stale[i]);
        expired := expired + 1;
      }
      assert stale[..|stale|] == stale;
      out := Swept(expired);
    }

    method FindStaleLeases(scan: Option<Id>) returns (ids: seq<Id>)
      requires Valid()
      ensures ids == StaleLeases(Db(), scan, |nodes|)
    {
      ids := [];
      for i := 0 to |nodes|
        invariant ids == StaleLeases(Db(), scan, i)
      {
        var life := nodes[i].life;
        if Working(life.status) && life.lease.Some? && life.lease.value < clock
           && (scan.None? || nodes[i].reg.run == scan.value) {
          ids := ids + [i];
        }
      }
    }

    method FindStaleIntents(scan: Option<Id>) returns (ids: seq<Id>)
      requires Valid()
      ensures ids == StaleIntents(Db(), scan, |nodes|)
    {
      ids := [];
      for i := 0 to |nodes|
        invariant ids == StaleIntents(Db(), scan, i)
      {
        if nodes[i].life.status == Pending && i in intents && intents[i].consumedAt.None? && intents[i].expiresAt < clock
           && (scan.None? || nodes[i].reg.run == scan.value) {
          ids := ids + [i];
        }
      }
    }

    /** A replacement that was still pending lapses. */
    method Lapse(n: Id)
      requires Valid() && n < |nodes|
      modifies this`commands
      ensures Valid() && Contents() == LapseReplacement(old(Db()), n)
    {
      var cause := nodes[n].reg.causedBy;
      if cause.Some? && cause.value < |commands| && commands[cause.value].replacementNode == Some(n)
         && commands[cause.value].replacementStatus == Some(ReplacementPending) {
        commands := commands[cause.value := commands[cause.value].(replacementStatus := Some(ActivationExpired))];
      }
    }

    /** A running run whose root this is fails. */
    method FailRunOf(n: Id)
      requires Valid() && n < |nodes|
      modifies this`runs
      ensures Valid() && Contents() == FailRun(old(Db()), n)
    {
      var run := nodes[n].reg.run;
      if runs[run].root == n && runs[run].status == RunRunning {
        var refusal := Transition(run, RunFailed);
      }
    }

    method SweepNode(n: Id)
      requires Valid() && n < |nodes|
      modifies this`nodes, this`commands, this`runs, this`acks
      ensures Valid() && |nodes| == |old(nodes)| && Contents() == Sweep(old(Db()), n)
    {
      hide Keyed, LapseReplacement, FailRun, Acknowledge;
      SetNodeStatus(n, LeaseExpired);
      Lapse(n);
      FailRunOf(n);
      AcknowledgeFor(n, LeaseExpiredAck);
    }

    // -------------------------------------------------------------- proposals

    method CreateProposal(
      throttled: bool, reporter: Id, token: Token, target: Id, kind: ProposalType, reason: string)
      returns (out: Outcome)
      requires Valid()
      modifies this`proposals
      ensures Valid()
      ensures Reply(Contents(), out) == Propose(old(Db()), cfg, throttled, reporter, token, target, kind, reason)
    {
      hide RuntimeOf;
      var denied := Authenticate(Db(), reporter, token);
      if denied.Some? {
        return Refused(denied.value);
      }
      if throttled {
        return Refused(RateLimited);
      }
      var runtime, _ := ValidateRuntime(reporter);
      var reg := nodes[reporter].reg;
      if !runtime.allowed {
        return Refused(Default(runtime.reason, ReporterNotLive));
      }
      if ProposeCorrection !in reg.capabilities {
        return Refused(ProposalCapabilityRequired);
      }
      if target >= |nodes| {
        return Refused(NotFound);
      }
      if nodes[target].reg.run != reg.run {
        return Refused(CrossRunProposal);
      }
      if CountProposals(proposals, reg.run) >= cfg.maxProposals {
        return Refused(RunProposalQuota);
      }
      var id := |proposals|;
      var payload := ProposalPayload(id, reg.run, reporter, target, kind, reason, clock);
      proposals := proposals + [Proposal(payload, ProposalPending, None, None, None, None, None)];
      out := Proposed(id);
    }

    method ReviewProposal(p: Id, authorization: Option<Authorization>, reviewer: string) returns (out: Outcome)
      requires Valid()
      modifies this`proposals
      ensures Valid() && Reply(Contents(), out) == Review(old(Db()), p, authorization, reviewer)
    {
      if authorization.Some? && (authorization.value.kind == CancelRun || !Shaped(authorization.value)) {
        return Refused(RequestInvalid);
      }
      if p >= |proposals| {
        return Refused(NotFound);
      }
      var proposal := proposals[p];
      if proposal.status != ProposalPending {
        return Refused(ProposalAlreadyReviewed);
      }
      if authorization.Some? {
        if authorization.value.target != proposal.payload.target {
          return Refused(ProposalTargetMismatch);
        }
        if authorization.value.kind != ProposedKind(proposal.payload.kind) {
          return Refused(ProposalTypeMismatch);
        }
      }
      proposal := proposal.(status := if authorization.Some? then ProposalAccepted else ProposalRejected);
      proposal := proposal.(reviewer := Some(reviewer), acceptedDigest := Some(Digest(proposal.payload)));
      proposal := proposal.(authorized := authorization,
                            authorizedDigest := if authorization.Some? then Some(Digest(authorization.value)) else None);
      proposals := proposals[p := proposal];
      out := Reviewed;
    }

    // -------------------------------------------------------------- commands

    method Issue(throttled: bool, principal: Principal, request: CommandRequest) returns (out: Outcome)
      requires Valid()
      modifies this
      ensures Valid() && Reply(Contents(), out) == IssueCommand(old(Db()), cfg, throttled, principal, request)
    {
      hide RuntimeOf, NewCommand, Reaches, ParentsOf, FindCommand;
      if !Shaped(request.body) {
        return Refused(RequestInvalid);
      }
      if request.body.target >= |nodes| {
        return Refused(NotFound);
      }
      var target := nodes[request.body.target].reg;
      var run := runs[target.run];
      var issuer, issuerIsRoot, descends := None, false, false;
      if principal.AgentPrincipal? {
        if principal.node.None? || principal.token.None? {
          return Refused(PrincipalIncomplete);
        }
        var denied := Authenticate(Db(), principal.node.value, principal.token.value);
        if denied.Some? {
          return Refused(denied.value);
        }
        issuer, issuerIsRoot := Some(nodes[principal.node.value].reg), principal.node.value == run.root;
        if !issuerIsRoot {
          descends := IsDescendant(nodes, target.run, principal.node.value, request.body.target);
        }
      }
      var denied := MayIssue(principal.HumanPrincipal?, issuer, issuerIsRoot, target, request.body.target == run.root,
                             target.run, request.body.kind, descends);
      if denied.Some? {
        return Refused(denied.value);
      }
      if request.body.target == run.root && request.body.kind != CancelRun {
        return Refused(RootSubtreeControlUnsupported);
      }
      assert AuthorityGuard(old(Db()), principal, request).None?;
      var existing := FindCommand(commands, target.run, IssuerOf(principal), request.key);
      if existing.Some? {
        if commands[existing.value].order.request != Digest(request) {
          return Refused(IdempotencyPayloadMismatch);
        }
        return Issued(existing.value, true);
      }
      if throttled {
        return Refused(RateLimited);
      }
      if principal.AgentPrincipal? {
        var runtime, _ := ValidateRuntime(principal.node.value);
        if !runtime.allowed {
          return Refused(IssuerNotLive);
        }
      }
      out := IssueNew(IssuerOf(principal), request);
    }

    method IssueNew(issuer: Issuer, request: CommandRequest) returns (out: Outcome)
      requires Valid() && Shaped(request.body) && request.body.target < |nodes|
      modifies this`services, this`scopes, this`runs, this`commands, this`proposals
      ensures Valid() && Reply(Contents(), out) == NewCommand(old(Db()), cfg, issuer, request)
    {
      hide RuntimeOf, PlanCorrection, ProposalGuard, ReplacementParent, PlannedCommand, CountCommands;
      var target := nodes[request.body.target].reg;
      var run := target.run;
      if runs[run].status != RunRunning {
        return Refused(RunTerminalState);
      }
      if CountCommands(commands, run) >= cfg.maxCommands {
        return Refused(RunCommandQuota);
      }
      var source := ProposalGuard(Db(), run, request);
      if source.Some? {
        return Refused(source.value);
      }
      var scope := if request.body.kind == CancelRun then runs[run].runScope else target.ownScope;
      out := PlanAndCommit(issuer, request, scope);
    }

    method PlanAndCommit(issuer: Issuer, request: CommandRequest, scope: Id) returns (out: Outcome)
      requires Valid() && Shaped(request.body) && request.body.target < |nodes|
      modifies this`services, this`scopes, this`runs, this`commands, this`proposals
      ensures Valid()
      ensures Reply(Contents(), out)
              == PlannedCommand(old(Db()), issuer, request, scope, ReplacementParent(old(Db()), request.body.target),
                                PlanCorrection(old(Db()), cfg, request))
    {
      hide RuntimeOf, PlanCorrection, ReplacementParent, CommitCommand;
      var services0, scopes0, runs0, commands0, proposals0 := services, scopes, runs, commands, proposals;
      var run, kind, id := nodes[request.body.target].reg.run, request.body.kind, |commands|;
      var parent := ChooseParent(request.body.target);
      var refusal, manifest := PlanReplacement(request);
      if refusal.None? {
        if kind == CorrectSubtree && parent.None? {
          refusal := Some(ReplacementParentUnavailable);
        } else if scope >= |scopes| || scopes[scope].run != run {
          refusal := Some(ScopeNotFound);
        } else if scopes[scope].status != ScopeActive {
          refusal := Some(ScopeNotActive);
        } else {
          var committed := Commit(issuer, request, scope, if kind == CorrectSubtree then parent else None, manifest);
          if committed {
            return Issued(id, false);
          }
          refusal := Some(RunTerminalState);
        }
      }
      services, scopes, runs, commands, proposals := services0, scopes0, runs0, commands0, proposals0;
      out := Refused(refusal.value);
    }

    /** The designated creator of a replacement: the live parent, else the live root. */
    method ChooseParent(target: Id) returns (parent: Option<Id>)
      requires Valid() && target < |nodes|
      ensures parent == ReplacementParent(Db(), target)
    {
      hide RuntimeOf;
      var reg := nodes[target].reg;
      if reg.parent.Some? && reg.parent.value < |nodes| {
        var intended, _ := ValidateRuntime(reg.parent.value);
        if intended.allowed {
          return reg.parent;
        }
      }
      var root := runs[reg.run].root;
      if root < |nodes| && root != target {
        var live, _ := ValidateRuntime(root);
        if live.allowed {
          return Some(root);
        }
      }
      parent := None;
    }

    /** Replacement policy; building the contract creates the service rows it looks up. */
    method PlanReplacement(request: CommandRequest) returns (refusal: Option<Code>, manifest: Option<Manifest>)
      requires Valid() && request.body.target < |nodes| && Shaped(request.body)
      modifies this`services
      ensures Valid()
      ensures var plan := PlanCorrection(old(Db()), cfg, request);
        if plan.Planned? then refusal.None? && manifest == plan.manifest && services == plan.services
        else refusal == Some(plan.code) && services == old(services)
    {
      hide BuildContract;
      var body := request.body;
      refusal, manifest := None, None;
      if body.kind != CorrectSubtree {
        return;
      }
      var target := nodes[body.target].reg;
      var spec := None;
      if body.expectedTool.Some? {
        spec := SpecOf(body.expectedTool.value);
        if spec.None? {
          return Some(UnsupportedTool), None;
        }
      }
      var role := target.role + "_replacement";
      if spec.Some? && spec.value.replacementRole.Some? {
        role := spec.value.replacementRole.value;
      }
      if body.role.Some? && body.role.value != role {
        return Some(ReplacementRolePolicy), None;
      }
      if body.behavior.Some? && body.behavior.value != Cooperative {
        return Some(ReplacementBehaviorPolicy), None;
      }
      var exact := if spec.Some? then {spec.value.capability} else {};
      var requested := exact;
      if body.capabilities.Some? && body.capabilities.value != {} {
        requested := body.capabilities.value;
      }
      if requested != exact {
        return Some(ReplacementCapabilityPolicy), None;
      }
      var arguments := if body.arguments.Some? then body.arguments.value else map[];
      var before, contract := services, Contract(None, Digest(map[]), cfg.environment, {}, 0, body.stability, []);
      if spec.Some? {
        if !ArgumentsValid(spec.value, arguments) {
          return Some(InvalidToolArguments), None;
        }
        var built := BuildContract(services, cfg.environment, target.run, body.expectedTool.value, spec.value, arguments,
                                   body.stability, clock);
        services, contract := built.0, built.1;
      } else if arguments != map[] {
        return Some(ReplacementArgumentsWithoutTool), None;
      }
      if body.maxChildren.Some? && body.maxChildren.value != 0 {
        services := before;
        return Some(ReplacementChildBudgetPolicy), None;
      }
      manifest := Some(Manifest(role, Cooperative, Digest(body.instruction.value), target.instructionVersion + 1,
                                requested, 0, contract));
    }

    /** Bump the one scope, close a cancelled run, insert the command, link its proposal. */
    method Commit(issuer: Issuer, request: CommandRequest, k: Id, parent: Option<Id>, manifest: Option<Manifest>)
      returns (ok: bool)
      requires Valid() && request.body.target < |nodes| && k < |scopes|
      modifies this`scopes, this`runs, this`commands, this`proposals
      ensures ok ==> Valid()
      ensures ok == CommitCommand(old(Db()), issuer, request, k, parent, manifest).Some?
      ensures ok ==> Contents() == CommitCommand(old(Db()), issuer, request, k, parent, manifest).value
    {
      var run := nodes[request.body.target].reg.run;
      assert run < |runs|;
      CommitRows(Db(), issuer, request, k, parent, manifest);
      ghost var committed := CommitCommand(Db(), issuer, request, k, parent, manifest);
      hide Keyed, CommitCommand, TransitionRun;
      var kind, fromVersion := request.body.kind, scopes[k].version;
      scopes := scopes[k := scopes[k].(version := fromVersion + 1,
                                       status := if kind == CorrectSubtree then ScopeSuperseded else ScopeCancelled)];
      if kind == CancelRun {
        var refusal := Transition(run, RunCancelled);
        if refusal.Some? {
          return false;
        }
      }
      InsertCommand(
        Order(run, issuer, request.key, Digest(request), kind, request.body.target, k, fromVersion, fromVersion + 1,
              request.sourceProposal, parent, request.body.instruction, request.body.expectedTool, manifest,
              if manifest.Some? then Some(Digest(manifest.value)) else None, clock));
      assert scopes == committed.value.scopes && runs == committed.value.runs;
      assert commands == committed.value.commands && proposals == committed.value.proposals;
      assert Contents() == committed.value;
      ok := true;
    }

    method InsertCommand(order: Order)
      modifies this`commands, this`proposals
      ensures commands == old(commands)
        + [Command(order, None, if order.kind == CorrectSubtree then Some(ReplacementPending) else None)]
      ensures proposals == if order.sourceProposal.Some? && order.sourceProposal.value < |old(proposals)|
        then old(proposals)[order.sourceProposal.value :=
               old(proposals)[order.sourceProposal.value].(resultingCommand := Some(|old(commands)|))]
        else old(proposals)
    {
      var id := |commands|;
      commands := commands + [Command(order, None, if order.kind == CorrectSubtree then Some(ReplacementPending) else None)];
      if order.sourceProposal.Some? && order.sourceProposal.value < |proposals| {
        var p := order.sourceProposal.value;
        proposals := proposals[p := proposals[p].(resultingCommand := Some(id))];
      }
    }

    // -------------------------------------------------------------- the action gateway

    method Execute(throttled: bool, n: Id, token: Token, request: ActionRequest) returns (out: Outcome)
      requires Valid()
      modifies this
      ensures Valid() && Reply(Contents(), out) == ExecuteAction(old(Db()), cfg, throttled, n, token, request)
    {
      hide Admission, DenyAction, AdmitAction, FindAttempt;
      var denied := Authenticate(Db(), n, token);
      if denied.Some? {
        return Refused(denied.value);
      }
      var existing := FindAttempt(attempts, n, request.key);
      if existing.Some? {
        var attempt := attempts[existing.value];
        if attempt.request != request {
          return Refused(IdempotencyPayloadMismatch);
        }
        return ActionDecided(existing.value, attempt.decision, attempt.reason, true);
      }
      if throttled {
        return Refused(RateLimited);
      }
      var spec := SpecOf(request.tool);
      if spec.None? {
        return Refused(UnsupportedTool);
      }
      if CountAttempts(attempts, nodes[n].reg.run) >= cfg.maxActions {
        return Refused(RunActionQuota);
      }
      var action := |attempts|;
      var denial := Ladder(n, request, spec.value);
      if denial.Some? {
        Deny(n, request, spec.value, denial.value);
        return ActionDecided(action, Decision.Deny, denial, false);
      }
      if !ArgumentsValid(spec.value, request.arguments) {
        return Refused(InvalidToolArguments);
      }
      Allow(n, request, spec.value);
      out := ActionDecided(action, Decision.Allow, None, false);
    }

    /** The admission ladder. */
    method Ladder(n: Id, request: ActionRequest, spec: ToolSpec) returns (denial: Option<Code>)
      requires Valid() && n < |nodes|
      ensures denial == Admission(Db(), cfg, n, request, spec)
    {
      hide EvaluationOf, RecoveryContractDenial;
      var evaluation := Evaluated(n);
      var node := nodes[n];
      if runs[node.reg.run].status != RunRunning {
        return Some(RunNotActive);
      }
      if !Working(node.life.status) {
        return Some(NodeNotActive);
      }
      if node.life.lease.None? || node.life.lease.value <= clock {
        return Some(LeaseIsExpired);
      }
      if !evaluation.allowed {
        return Some(Default(evaluation.PrimaryReason(), ScopeInvalid));
      }
      denial := RecoveryContractDenial(Db(), cfg, n, request, spec);
      if denial.None? && spec.capability !in node.reg.capabilities {
        denial := Some(ToolNotAllowed);
      }
    }

    method Deny(n: Id, request: ActionRequest, spec: ToolSpec, code: Code)
      requires Valid() && n < |nodes|
      modifies this`attempts, this`matches, this`nodes, this`acks
      ensures Valid() && Contents() == DenyAction(old(Db()), n, request, spec, code)
    {
      if StaleReason(code) {
        DenyStale(n, request, spec, code);
      } else {
        attempts := attempts + [Attempt(nodes[n].reg.run, n, request, spec.sideEffecting, Decision.Deny, Some(code), None,
                                        None, clock, None, None)];
      }
    }

    /** The denial of an outdated node: attempt, matches, status, acknowledgements. */
    method DenyStale(n: Id, request: ActionRequest, spec: ToolSpec, code: Code)
      requires Valid() && n < |nodes| && StaleReason(code)
      modifies this`attempts, this`matches, this`nodes, this`acks
      ensures Valid() && Contents() == DenyAction(old(Db()), n, request, spec, code)
    {
      hide EvaluationOf, ReportedMismatch, RecordMatches, RecordAcks, AttributedTo, DenyAction, Keyed;
      var evaluation := Evaluated(n);
      var run, action := nodes[n].reg.run, |attempts|;
      var ids := AttributedCommands(n, evaluation);
      var reported := ReportedMismatch(commands, ids, evaluation.mismatches);
      DeniedRows(Db(), n, request, spec, code);
      attempts := attempts + [Attempt(run, n, request, spec.sideEffecting, Decision.Deny, Some(code), LastOf(ids),
                                      reported, clock, None, None)];
      AddMatches(ids, evaluation.mismatches, action);
      nodes := nodes[n := nodes[n].(life := nodes[n].life.(status := evaluation.effective))];
      AddAcks(ids, n, GatewayBlockAck);
    }

    /** One row per attributed command, with the mismatch of that command's scope. */
    method AddMatches(ids: seq<Id>, mismatches: seq<Mismatch>, action: Id)
      requires forall i | 0 <= i < |ids| :: ids[i] < |commands|
      modifies this`matches
      ensures matches == RecordMatches(old(matches), commands, ids, mismatches, action)
    {
      for i := 0 to |ids|
        invariant matches == RecordMatches(old(matches), commands, ids[..i], mismatches, action)
      {
        assert ids[..i + 1][..i] == ids[..i];
        var own := FirstMismatch(mismatches, commands[ids[i]].order.targetScope);
        if own.None? || own.value.liveVersion.None? || own.value.liveStatus.None? {
          continue;
        }
        matches := matches[MatchKey(action, ids[i]) := own.value];
      }
      assert ids[..|ids|] == ids;
    }

    method Allow(n: Id, request: ActionRequest, spec: ToolSpec)
      requires Valid() && n < |nodes|
      modifies this`attempts, this`services
      ensures Valid() && Contents() == AdmitAction(old(Db()), n, request, spec)
    {
      var run, action := nodes[n].reg.run, |attempts|;
      var ran := RunTool(services, run, action, request.tool, clock);
      services := ran.0;
      attempts := attempts + [Attempt(run, n, request, spec.sideEffecting, Decision.Allow, None, None, None, clock,
                                      Some(ran.1), Some(clock))];
    }

    // -------------------------------------------------------------- one transaction

    /** Any call, after some time: the object takes the step of the transition system and stays coherent. */
    method Serve(e: Event) returns (out: Outcome)
      requires Valid() && Coherence.Coherent(Contents())
      modifies this
      ensures Valid() && Reply(Contents(), out) == Transitions.Step(old(Db()), cfg, e)
      ensures Coherence.Coherent(Contents()) && Coherence.Evolves(Tick(old(Db()), e), Contents())
    {
      hide Keyed, Coherence.Coherent, Coherence.Evolves, Coherence.Past, CreateRun, SeedScenario, CreateSpawn,
           CreateReplacement, Activate, Heartbeat, Checkpoint, Complete, IssueCommand, ExecuteAction, ExpireStale, Propose,
           Review;
      Growth.StepCoherent(Db(), cfg, e);
      PassTime(e);
      match e.op {
        case OpCreateRun(role, instruction, capabilities) => out := CreateNewRun(role, instruction, capabilities);
        case OpSeed(run) => out := Seed(run);
        case OpSpawn(parent, token, spawn) => out := Spawn(e.throttled, parent, token, spawn);
        case OpReplace(parent, token, command, spawn) => out := Replace(e.throttled, parent, token, command, spawn);
        case OpActivate(node, activation) => out := ActivateNode(e.throttled, node, activation);
        case OpHeartbeat(node, token) => out := Beat(e.throttled, node, token);
        case OpCheckpoint(node, token) => out := Check(e.throttled, node, token);
        case OpComplete(node, token) => out := CompleteNode(e.throttled, node, token);
        case OpIssue(principal, order) => out := Issue(e.throttled, principal, order);
        case OpExecute(node, token, action) => out := Execute(e.throttled, node, token, action);
        case OpExpire(scan) => out := Expire(scan);
        case OpPropose(node, token, target, kind, reason) =>
          out := CreateProposal(e.throttled, node, token, target, kind, reason);
        case OpReview(proposal, authorization, reviewer) => out := ReviewProposal(proposal, authorization, reviewer);
      }
    }
  }

  function Seeded(services: Services, run: Id, defaults: seq<(ServiceName, ServiceStatus)>, now: Time): Services {
    if defaults == [] then services else
      var last := defaults[|defaults| - 1];
      Seeded(services, run, defaults[..|defaults| - 1], now)[ServiceKey(run, last.0) := Service(last.1, 0, 0, None, now)]
  }

  lemma SeededAll(services: Services, run: Id, now: Time)
    ensures Seeded(services, run, [(Postgres, Healthy), (Redis, PoolExhausted), (Checkout, Degraded)], now)
            == services[ServiceKey(run, Postgres) := Service(Healthy, 0, 0, None, now)]
                       [ServiceKey(run, Redis) := Service(PoolExhausted, 0, 0, None, now)]
                       [ServiceKey(run, Checkout) := Service(Degraded, 0, 0, None, now)]
  {
    var defaults := [(Postgres, Healthy), (Redis, PoolExhausted), (Checkout, Degraded)];
    var two, one := defaults[..2], defaults[..1];
    assert two[..1] == one && one[..0] == [];
    assert Seeded(services, run, one[..0], now) == services;
    assert Seeded(services, run, one, now) == services[ServiceKey(run, Postgres) := Service(Healthy, 0, 0, None, now)];
  }

  lemma RegisteredRows(
    s: Database, cfg: Config, parent: Id, request: SpawnRequest, supersedes: Option<Id>, causedBy: Option<Id>, v: nat)
    requires parent < |s.nodes|
    ensures var t := Register(s, cfg, parent, request, supersedes, causedBy, v);
      && |t.nodes| == |s.nodes| + 1 && t.nodes[parent] == s.nodes[parent] && t.commands == s.commands
      && t.envelopes == s.envelopes && t.clock == s.clock
  {
  }

  lemma GuardedCommand(s: Database, cfg: Config, parent: Id, c: Id, request: SpawnRequest)
    requires parent < |s.nodes| && ReplacementGuard(s, cfg, parent, c, request, false).None?
    ensures c < |s.commands| && s.commands[c].order.target < |s.nodes|
  {
    hide GraphBudget, RetryAllowed;
  }

  lemma DueStart(s: Database, run: Id, root: Id)
    ensures MarkAllExpired(s, DueOthers(s, run, root, 0)) == s
  {
  }

  lemma {:induction false} DueBelow(s: Database, run: Id, root: Id, upto: nat)
    requires upto <= |s.nodes|
    ensures forall i | 0 <= i < |DueOthers(s, run, root, upto)| :: DueOthers(s, run, root, upto)[i] < upto
  {
    if upto != 0 {
      DueBelow(s, run, root, upto - 1);
    }
  }

  /** What the write-off loop finds at a node is what was there before it started. */
  lemma DueStep(s: Database, run: Id, root: Id, i: Id)
    requires i < |s.nodes|
    ensures var t := MarkAllExpired(s, DueOthers(s, run, root, i));
      && i < |t.nodes| && t.nodes[i] == s.nodes[i]
      && RanOut(t, i) == RanOut(s, i) && EvaluationOf(t, i) == EvaluationOf(s, i)
      && MarkAllExpired(s, DueOthers(s, run, root, i + 1))
         == if s.nodes[i].reg.run == run && i != root && !Settled(s.nodes[i].life.status) && RanOut(s, i)
            then MarkExpired(t, i) else t
  {
    hide EvaluationOf, MarkExpired;
    var ids := DueOthers(s, run, root, i);
    DueBelow(s, run, root, i);
    MarkAllExpires(s, ids);
    MarkAllQuiet(s, ids);
    assert EvaluationOf(MarkAllExpired(s, ids), i) == EvaluationOf(s, i) by { SameEvaluation(s, MarkAllExpired(s, ids), i); }
    assert (ids + [i])[..|ids|] == ids;
  }

  lemma SameEvaluation(s: Database, t: Database, n: Id)
    requires n < |s.nodes| && n < |t.nodes| && t.nodes[n].reg == s.nodes[n].reg && t.scopes == s.scopes
    ensures EvaluationOf(t, n) == EvaluationOf(s, n)
  {
  }

  lemma SweepNone(s: Database, ids: seq<Id>)
    requires ids == []
    ensures SweepAll(s, ids) == s
  {
  }

  lemma SweepStep(s: Database, ids: seq<Id>, i: nat)
    requires (forall k | 0 <= k < |ids| :: ids[k] < |s.nodes|) && i < |ids|
    ensures SweepAll(s, ids[..i + 1]) == Sweep(SweepAll(s, ids[..i]), ids[i])
  {
    hide Sweep;
    assert ids[..i + 1][..i] == ids[..i];
  }

  /** The rows of a committed command, side by side. */
  lemma CommitRows(
    s: Database, issuer: Issuer, request: CommandRequest, k: Id, parent: Option<Id>, manifest: Option<Manifest>)
    requires request.body.target < |s.nodes| && k < |s.scopes|
    ensures var run := s.nodes[request.body.target].reg.run; var kind := request.body.kind; var version := s.scopes[k].version;
      var order := Order(run, issuer, request.key, Digest(request), kind, request.body.target, k, version, version + 1,
                         request.sourceProposal, parent, request.body.instruction, request.body.expectedTool, manifest,
                         if manifest.Some? then Some(Digest(manifest.value)) else None, s.clock);
      var closed := if kind == CancelRun then TransitionRun(s.runs[run], RunCancelled, s.clock) else Some(s.runs[run]);
      var status := if kind == CorrectSubtree then ScopeSuperseded else ScopeCancelled;
      var t := CommitCommand(s, issuer, request, k, parent, manifest);
      && t.Some? == closed.Some?
      && (t.Some? ==>
            t.value == s.(
              scopes := s.scopes[k := s.scopes[k].(version := version + 1, status := status)],
              commands := s.commands
                + [Command(order, None, if kind == CorrectSubtree then Some(ReplacementPending) else None)],
              runs := s.runs[run := closed.value],
              proposals := if request.sourceProposal.Some? && request.sourceProposal.value < |s.proposals|
                then s.proposals[request.sourceProposal.value :=
                       s.proposals[request.sourceProposal.value].(resultingCommand := Some(|s.commands|))]
                else s.proposals))
  {
  }

  /** The rows of a stale denial, side by side. */
  lemma DeniedRows(s: Database, n: Id, request: ActionRequest, spec: ToolSpec, code: Code)
    requires n < |s.nodes| && StaleReason(code)
    ensures var e := EvaluationOf(s, n); var ids := AttributedTo(s, n);
      DenyAction(s, n, request, spec, code)
      == s.(attempts := s.attempts + [Attempt(s.nodes[n].reg.run, n, request, spec.sideEffecting, Decision.Deny, Some(code),
                                              LastOf(ids), ReportedMismatch(s.commands, ids, e.mismatches), s.clock, None,
                                              None)],
            matches := RecordMatches(s.matches, s.commands, ids, e.mismatches, |s.attempts|),
            nodes := s.nodes[n := s.nodes[n].(life := s.nodes[n].life.(status := e.effective))],
            acks := RecordAcks(s.acks, s.commands, ids, n, GatewayBlockAck, s.clock))
  {
  }
}
