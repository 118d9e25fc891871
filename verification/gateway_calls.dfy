/** What the action gateway does: its answer, the row it records and the whole state after it, told from
    rows and commands and not from the gateway's body. */
module GatewayCalls {
  import opened Options
  import opened Domain
  import opened Scopes
  import opened Tools
  import opened Transitions
  import opened Counts
  import opened Tree
  import opened Fences
  import opened Revocation
  import opened Lives
  import opened Replacements
  import opened Admissions
  import opened Conservation
  import opened Attribution
  import opened Standing
  import opened Coherence
  import opened Steps
  import opened LeaseCalls
  import opened Corrections
  import opened Replays

  // ---------------------------------------------------------------- the decision

  /** Live, with the tool's capability and, as a replacement, inside an open contract. */
  ghost predicate MayAct(s: Database, cfg: Config, n: Id, request: ActionRequest, spec: ToolSpec)
    requires n < |s.nodes|
  {
    var reg := s.nodes[n].reg;
    && Live(s, n)
    && (reg.causedBy.Some? ==> ContractOpen(s, cfg, reg.causedBy.value, n, request, spec))
    && spec.capability in reg.capabilities
  }

  /** Why a node may not act: its standing, then its contract, then its capabilities. */
  ghost predicate DeniedAs(s: Database, cfg: Config, n: Id, request: ActionRequest, spec: ToolSpec, code: Code)
    requires n < |s.nodes|
  {
    var reg := s.nodes[n].reg;
    if !Live(s, n) then Barred(s, n, code)
    else if reg.causedBy.Some? && !ContractOpen(s, cfg, reg.causedBy.value, n, request, spec) then
      && reg.causedBy.value < |s.commands| && s.commands[reg.causedBy.value].order.manifest.Some?
      && code == Breach(s.commands[reg.causedBy.value].order, cfg, request, spec)
    else code == ToolNotAllowed
  }

  lemma DecisionExactly(s: Database, cfg: Config, n: Id, request: ActionRequest, spec: ToolSpec)
    requires Coherent(s) && n < |s.nodes|
    ensures var code := Admission(s, cfg, n, request, spec);
      if MayAct(s, cfg, n, request, spec) then code.None?
      else code.Some? && DeniedAs(s, cfg, n, request, spec, code.value)
  {
    hide Coherent, RecoveryContractDenial, ContractOpen, Revoked, RuntimeOf, Live, Barred, Breach;
    RowsFor(s);
    RuntimeExactly(s, n);
    LadderReason(s, cfg, n, request, spec);
    LadderIsRuntime(s, cfg, n, request, spec);
    var cause := s.nodes[n].reg.causedBy;
    assert cause.None? ==> RecoveryContractDenial(s, cfg, n, request, spec).None? by {
      OrdinaryHasNoContract(s, cfg, n, request, spec);
    }
    if RuntimeOf(s, n).allowed && cause.Some? {
      LiveIsActivated(s, n);
      ContractExactly(s, cfg, n, request, spec, cause.value);
    }
  }

  lemma LiveIsActivated(s: Database, n: Id)
    requires Lived(s) && n < |s.nodes| && Live(s, n)
    ensures s.nodes[n].life.activatedAt.Some?
  {
    assert LifeShape(s.nodes[n].life);
  }

  lemma LadderReason(s: Database, cfg: Config, n: Id, request: ActionRequest, spec: ToolSpec)
    requires n < |s.nodes|
    ensures var code := Admission(s, cfg, n, request, spec);
      if !RuntimeOf(s, n).allowed then RuntimeOf(s, n).reason.Some? ==> code == RuntimeOf(s, n).reason
      else if RecoveryContractDenial(s, cfg, n, request, spec).Some? then
        code == RecoveryContractDenial(s, cfg, n, request, spec)
      else code.Some? ==> code == Some(ToolNotAllowed)
  {
    hide RecoveryContractDenial, EvaluationOf;
  }

  // ---------------------------------------------------------------- denials

  /** Exactly the matches of the new action with the commands that target its node are added. */
  ghost predicate MatchesAdded(s: State, matches: map<MatchKey, Mismatch>, n: Id)
    requires n < |s.nodes|
  {
    && (forall key: MatchKey {:trigger key in matches} :: key in matches <==>
          || key in s.matches
          || (key.action == |s.attempts| && key.command < |s.commands| && Targets(s, key.command, n)))
    && (forall key {:trigger matches[key]} | key in matches ::
          if key in s.matches then matches[key] == s.matches[key]
          else key.command < |s.commands| && matches[key] == ClosedBy(s.commands[key.command].order))
  }

  /** A denial is recorded and answered with its reason. If commands closed the node's scopes, the row
      names the latest of them, each is matched and acknowledged, and the node takes their status. */
  ghost predicate Denies(s: Database, cfg: Config, n: Id, request: ActionRequest, spec: ToolSpec, r: Reply)
    requires n < |s.nodes|
  {
    && |r.db.attempts| == |s.attempts| + 1
    && var x, t := r.db.attempts[|s.attempts|], r.db;
       && t.attempts == s.attempts + [x] && x.reason.Some? && DeniedAs(s, cfg, n, request, spec, x.reason.value)
       && r.out == ActionDecided(|s.attempts|, Deny, x.reason, false)
       && x == Attempt(s.nodes[n].reg.run, n, request, spec.sideEffecting, Deny, x.reason, x.matchedCommand,
                       x.matchedScope, s.clock, None, None)
       && if x.reason == Some(ScopeIsCancelled) || x.reason == Some(ScopeIsSuperseded) then
            && Blamed(s, n, x.matchedCommand) && x.matchedCommand.Some?
            && x.matchedScope == Some(ClosedBy(s.commands[x.matchedCommand.value].order))
            && MatchesAdded(s, t.matches, n)
            && Marks(s, t.(attempts := s.attempts, matches := s.matches), {n}, ClosedStatus(s, n), GatewayBlockAck)
          else x.matchedCommand.None? && x.matchedScope.None? && t == s.(attempts := t.attempts)
  }

  lemma DenialRow(s: Database, n: Id, request: ActionRequest, spec: ToolSpec, code: Code)
    requires n < |s.nodes|
    ensures var t := DenyAction(s, n, request, spec, code); var ids := AttributedTo(s, n);
      t.attempts == s.attempts + [Attempt(
        s.nodes[n].reg.run, n, request, spec.sideEffecting, Deny, Some(code),
        if StaleReason(code) then LastOf(ids) else None,
        if StaleReason(code) then ReportedMismatch(s.commands, ids, EvaluationOf(s, n).mismatches) else None,
        s.clock, None, None)]
    ensures !StaleReason(code) ==>
      var t := DenyAction(s, n, request, spec, code); t == s.(attempts := t.attempts)
  {
    hide EvaluationOf, AttributedTo, RecordAcks, RecordMatches, ReportedMismatch, LastOf;
  }

  lemma DenialMatches(s: Database, n: Id, request: ActionRequest, spec: ToolSpec, code: Code)
    requires Coherent(s) && Past(s) && n < |s.nodes| && StaleReason(code)
    ensures MatchesAdded(s, DenyAction(s, n, request, spec, code).matches, n)
  {
    hide DenyAction, Targets, Attributable;
    var t := DenyAction(s, n, request, spec, code);
    assert Attributable(s) by { AttributableOf(s); }
    forall key: MatchKey
      ensures key in t.matches <==>
        || key in s.matches
        || (key.action == |s.attempts| && key.command < |s.commands| && Targets(s, key.command, n))
      ensures key in t.matches && key.action == |s.attempts| && key.command < |s.commands| ==>
        t.matches[key] == ClosedBy(s.commands[key.command].order)
      ensures key in s.matches && key.action != |s.attempts| ==> key in t.matches && t.matches[key] == s.matches[key]
    {
      StaleDenialRecords(s, n, request, spec, code, key);
      assert MatchRight(s, key);
    }
  }

  lemma AttributableOf(s: State)
    requires Coherent(s) && Past(s)
    ensures Attributable(s)
  {
  }

  /** The reported mismatch is that of the latest command. */
  lemma ReportsBlamed(s: Database, n: Id)
    requires WellTreed(s) && WellFenced(s) && n < |s.nodes| && Revoked(s, n)
    ensures var ids := AttributedTo(s, n);
      && LastOf(ids).Some? && LastOf(ids).value < |s.commands|
      && ReportedMismatch(s.commands, ids, EvaluationOf(s, n).mismatches)
         == Some(ClosedBy(s.commands[LastOf(ids).value].order))
  {
    hide EvaluationOf, Targets, Revoked;
    BlameExactly(s, n);
    OwnMismatch(s, n, LastOf(AttributedTo(s, n)).value);
  }

  lemma DenialExactly(s: Database, cfg: Config, n: Id, request: ActionRequest, spec: ToolSpec, code: Code)
    requires Coherent(s) && Past(s) && n < |s.nodes| && DeniedAs(s, cfg, n, request, spec, code)
    requires StaleReason(code) <==> (code == ScopeIsCancelled || code == ScopeIsSuperseded) && Revoked(s, n)
    ensures Denies(s, cfg, n, request, spec,
                   Reply(DenyAction(s, n, request, spec, code), ActionDecided(|s.attempts|, Deny, Some(code), false)))
  {
    hide Coherent, Past, DenyAction, DeniedAs, EvaluationOf, AttributedTo, Revoked, Blamed, ClosedStatus, MatchesAdded, Marks,
         ReportedMismatch, LastOf, Acknowledge, SetStatus;
    RowsFor(s);
    DenialRow(s, n, request, spec, code);
    if StaleReason(code) {
      BlameExactly(s, n);
      ReportsBlamed(s, n);
      EvaluationExactly(s, n);
      DenialMatches(s, n, request, spec, code);
      MarkExactly(s, n, ClosedStatus(s, n), GatewayBlockAck);
      StatusCounts(s, n);
      DenialDemotes(s, n, request, spec, code);
      DemotionKeeps(s, n);
    }
  }

  lemma StatusCounts(s: Database, n: Id)
    requires n < |s.nodes|
    ensures forall status :: n < |SetStatus(s, n, status).nodes|
  {
  }

  lemma DemotionKeeps(s: Database, n: Id)
    requires n < |s.nodes| && (forall status :: n < |SetStatus(s, n, status).nodes|)
    ensures var t := Acknowledge(SetStatus(s, n, EvaluationOf(s, n).effective), n, GatewayBlockAck);
      t.attempts == s.attempts && t.matches == s.matches
  {
    hide EvaluationOf, RecordAcks, AttributedTo;
  }

  /** Which denials are about closed scopes. */
  lemma StaleCodes(s: Database, cfg: Config, n: Id, request: ActionRequest, spec: ToolSpec, code: Code)
    requires n < |s.nodes| && DeniedAs(s, cfg, n, request, spec, code)
    ensures StaleReason(code) <==> (code == ScopeIsCancelled || code == ScopeIsSuperseded) && Revoked(s, n)
  {
    hide ContractOpen;
  }

  // ---------------------------------------------------------------- commits

  /** The services after a tool ran: its own rows are there and count it, and all others are untouched. */
  ghost predicate RunsTool(s: State, attempts: seq<Attempt>, services: Services, run: Id, tool: ToolName) {
    && Balanced(attempts, services)
    && (forall key: ServiceKey {:trigger key in services} ::
          key in services <==> key in s.services || (key.run == run && ToolOf(key.name) == tool))
    && (forall key {:trigger services[key]} | key in s.services && !(key.run == run && ToolOf(key.name) == tool) ::
          key in services && services[key] == s.services[key])
  }

  /** What the tool returns: the number of times it ran in this run, or the run's service rows. */
  ghost predicate Returns(s: State, attempts: seq<Attempt>, run: Id, tool: ToolName, result: ToolResult) {
    match tool
    case RestartPostgres => result == RestartResult(CountRan(attempts, run, tool))
    case ResetRedisPool => result == ResetResult(CountRan(attempts, run, tool))
    case _ =>
      && result.MetricsResult?
      && (forall name :: name in result.services <==> ServiceKey(run, name) in s.services)
      && (forall name | name in result.services :: result.services[name] == s.services[ServiceKey(run, name)])
  }

  /** The action is recorded as committed now, together with its effect, and answered as allowed. */
  ghost predicate Commits(s: Database, n: Id, request: ActionRequest, spec: ToolSpec, r: Reply)
    requires n < |s.nodes|
  {
    && |r.db.attempts| == |s.attempts| + 1
    && var x, t, run := r.db.attempts[|s.attempts|], r.db, s.nodes[n].reg.run;
       && r.out == ActionDecided(|s.attempts|, Allow, None, false)
       && x.result.Some? && Returns(s, t.attempts, run, request.tool, x.result.value)
       && t == s.(attempts := s.attempts + [Attempt(run, n, request, spec.sideEffecting, Allow, None, None, None, s.clock,
                                                    x.result, Some(s.clock))],
                  services := t.services)
       && RunsTool(s, t.attempts, t.services, run, request.tool)
  }

  lemma CommitExactly(s: Database, n: Id, request: ActionRequest, spec: ToolSpec)
    requires Balanced(s.attempts, s.services) && n < |s.nodes|
    ensures Commits(s, n, request, spec,
                    Reply(AdmitAction(s, n, request, spec), ActionDecided(|s.attempts|, Allow, None, false)))
  {
    hide Balanced, RunTool, Returns, CountRan;
    var t := AdmitAction(s, n, request, spec);
    var run := s.nodes[n].reg.run;
    AdmitBalanced(s, n, request, spec);
    ToolKeeps(s.services, run, |s.attempts|, request.tool, s.clock);
    ToolReturns(s, t.attempts, t.services, run, request.tool);
  }

  lemma ToolKeeps(services: Services, run: Id, action: Id, tool: ToolName, now: Time)
    ensures var t := RunTool(services, run, action, tool, now).0;
      && (forall key: ServiceKey {:trigger key in t} ::
            key in t <==> key in services || (key.run == run && ToolOf(key.name) == tool))
      && (forall key {:trigger t[key]} | key in services && !(key.run == run && ToolOf(key.name) == tool) ::
            key in t && t[key] == services[key])
  {
  }

  lemma ToolReturns(s: State, attempts: seq<Attempt>, services: Services, run: Id, tool: ToolName)
    requires services == RunTool(s.services, run, |s.attempts|, tool, s.clock).0 && Balanced(attempts, services)
    ensures Returns(s, attempts, run, tool, RunTool(s.services, run, |s.attempts|, tool, s.clock).1)
  {
    var pg, rd := ServiceKey(run, Postgres), ServiceKey(run, Redis);
    assert pg in services ==> RowBalanced(attempts, pg, services[pg]);
    assert rd in services ==> RowBalanced(attempts, rd, services[rd]);
  }

  // ---------------------------------------------------------------- the call

  /** A key already used is answered from its row. A fresh action commits exactly when the node may act,
      its arguments are valid and the run has room; otherwise it is denied on record, or refused. */
  ghost predicate ExecuteDoes(
    s: Database, cfg: Config, throttled: bool, n: Id, token: Token, request: ActionRequest, r: Reply)
  {
    && TurnsAway(s, n, token, r)
    && (Bears(s, n, token) ==>
          if exists a | 0 <= a < |s.attempts| :: AttemptedAs(s.attempts[a], n, request.key)
          then Repeats(s, n, request, r) else FreshDoes(s, cfg, throttled, n, request, r))
  }

  ghost predicate Repeats(s: Database, n: Id, request: ActionRequest, r: Reply) {
    forall a {:trigger s.attempts[a]} | 0 <= a < |s.attempts| ::
      s.attempts[a].node == n && s.attempts[a].request.key == request.key ==>
        r == Reply(s, if s.attempts[a].request == request
                      then ActionDecided(a, s.attempts[a].decision, s.attempts[a].reason, true)
                      else Refused(IdempotencyPayloadMismatch))
  }

  ghost predicate FreshDoes(s: Database, cfg: Config, throttled: bool, n: Id, request: ActionRequest, r: Reply)
    requires n < |s.nodes|
  {
    if throttled then r == Reply(s, Refused(RateLimited))
    else if SpecOf(request.tool).None? then r == Reply(s, Refused(UnsupportedTool))
    else if |AttemptsIn(s.attempts, s.nodes[n].reg.run)| >= cfg.maxActions then r == Reply(s, Refused(RunActionQuota))
    else
      var spec := SpecOf(request.tool).value;
      if !MayAct(s, cfg, n, request, spec) then Denies(s, cfg, n, request, spec, r)
      else if !(request.arguments.Keys <= spec.allowedKeys) then r == Reply(s, Refused(InvalidToolArguments))
      else Commits(s, n, request, spec, r)
  }

  lemma ExecuteExactly(s: Database, cfg: Config, throttled: bool, n: Id, token: Token, request: ActionRequest)
    requires Coherent(s) && Past(s)
    ensures ExecuteDoes(s, cfg, throttled, n, token, request, ExecuteAction(s, cfg, throttled, n, token, request))
  {
    hide Coherent, Past, Admission, DenyAction, AdmitAction, FreshDoes, Repeats, FindAttempt;
    if Bears(s, n, token) {
      if a :| 0 <= a < |s.attempts| && AttemptedAs(s.attempts[a], n, request.key) {
        RepeatExactly(s, cfg, throttled, n, token, request);
      } else {
        FreshExactly(s, cfg, throttled, n, token, request);
      }
    }
  }

  lemma RepeatExactly(s: Database, cfg: Config, throttled: bool, n: Id, token: Token, request: ActionRequest)
    requires Coherent(s) && Bears(s, n, token)
    ensures (exists a | 0 <= a < |s.attempts| :: AttemptedAs(s.attempts[a], n, request.key)) ==>
      Repeats(s, n, request, ExecuteAction(s, cfg, throttled, n, token, request))
  {
    hide Coherent, Admission, DenyAction, AdmitAction;
    assert WellAdmitted(s) by { AdmittedRows(s); }
    forall a | 0 <= a < |s.attempts| && AttemptedAs(s.attempts[a], n, request.key)
      ensures FindAttempt(s.attempts, n, request.key) == Some(a)
    {
      FindsThe(s, a, n, request.key);
    }
  }

  lemma AdmittedRows(s: State)
    requires Coherent(s)
    ensures WellAdmitted(s) && Balanced(s.attempts, s.services)
  {
  }

  lemma FreshExactly(s: Database, cfg: Config, throttled: bool, n: Id, token: Token, request: ActionRequest)
    requires Coherent(s) && Past(s) && Bears(s, n, token)
    requires !exists a | 0 <= a < |s.attempts| :: AttemptedAs(s.attempts[a], n, request.key)
    ensures FreshDoes(s, cfg, throttled, n, request, ExecuteAction(s, cfg, throttled, n, token, request))
  {
    hide Coherent, Past, Admission, DenyAction, AdmitAction, MayAct, Denies, Commits, DeniedAs, Balanced, WellAdmitted;
    AdmittedRows(s);
    AttemptsCounted(s.attempts, s.nodes[n].reg.run);
    assert FindAttempt(s.attempts, n, request.key).None?;
    if SpecOf(request.tool).Some? {
      var spec := SpecOf(request.tool).value;
      var code := Admission(s, cfg, n, request, spec);
      DecisionExactly(s, cfg, n, request, spec);
      CommitExactly(s, n, request, spec);
      if code.Some? {
        StaleCodes(s, cfg, n, request, spec, code.value);
        DenialExactly(s, cfg, n, request, spec, code.value);
      }
    }
  }

  /** The answered decision is the one on record. */
  ghost predicate Recorded(s: State, n: Id, request: ActionRequest, r: Reply) {
    r.out.ActionDecided? ==>
      && r.out.action < |r.db.attempts|
      && var x := r.db.attempts[r.out.action];
         && x.node == n && x.request == request && x.decision == r.out.decision && x.reason == r.out.reason
         && (r.out.duplicate <==> r.out.action < |s.attempts|)
         && (x.committedAt.Some? <==> r.out.decision == Allow)
  }

  lemma FreshIsRecorded(s: Database, cfg: Config, throttled: bool, n: Id, request: ActionRequest, r: Reply)
    requires n < |s.nodes| && FreshDoes(s, cfg, throttled, n, request, r)
    ensures Recorded(s, n, request, r)
  {
    hide MayAct, DeniedAs, Blamed, ClosedStatus, MatchesAdded, Marks, Returns, RunsTool;
  }

  /** Every decision the gateway answers is the one on record for this node and request, under a key that
      is new exactly when the record is; and only what is answered as allowed is committed. */
  lemma AnswerIsRecord(s: Database, cfg: Config, throttled: bool, n: Id, token: Token, request: ActionRequest)
    requires Coherent(s) && Past(s)
    ensures Recorded(s, n, request, ExecuteAction(s, cfg, throttled, n, token, request))
  {
    hide Coherent, Past, ExecuteAction, FreshDoes;
    ExecuteExactly(s, cfg, throttled, n, token, request);
    var r := ExecuteAction(s, cfg, throttled, n, token, request);
    if Bears(s, n, token) {
      if a :| 0 <= a < |s.attempts| && AttemptedAs(s.attempts[a], n, request.key) {
        assert AttemptAdmitted(s, a) by { AdmittedRows(s); }
      } else {
        FreshIsRecorded(s, cfg, throttled, n, request, r);
      }
    }
  }
}
