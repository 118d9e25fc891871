/** Service rows are conserved: each is the fold of the actions committed in its run. */
module Conservation {
  import opened Options
  import opened Domain
  import opened Scopes
  import opened Tools
  import opened Transitions

  predicate Ran(x: Attempt, run: Id, tool: ToolName) {
    x.run == run && x.decision == Allow && x.request.tool == tool
  }

  function CountRan(attempts: seq<Attempt>, run: Id, tool: ToolName): nat {
    if attempts == [] then 0 else
      CountRan(attempts[..|attempts| - 1], run, tool) + if Ran(attempts[|attempts| - 1], run, tool) then 1 else 0
  }

  /** The latest committed action of a tool in a run. */
  function LastRan(attempts: seq<Attempt>, run: Id, tool: ToolName): (a: Option<Id>)
    ensures a.Some? ==> a.value < |attempts| && Ran(attempts[a.value], run, tool)
    ensures forall i | (if a.Some? then a.value + 1 else 0) <= i < |attempts| :: !Ran(attempts[i], run, tool)
  {
    if attempts == [] then None else
      var last := |attempts| - 1;
      if Ran(attempts[last], run, tool) then Some(last) else LastRan(attempts[..last], run, tool)
  }

  /** The tool whose actions change a service. */
  function ToolOf(name: ServiceName): ToolName {
    if name == Postgres then RestartPostgres else ResetRedisPool
  }

  function InitialStatus(name: ServiceName): ServiceStatus {
    match name
    case Postgres => Healthy
    case Redis => PoolExhausted
    case Checkout => Degraded
  }

  /** The row records exactly the committed actions of its tool: their number and the latest one. */
  ghost predicate RowBalanced(attempts: seq<Attempt>, key: ServiceKey, row: Service) {
    var count := CountRan(attempts, key.run, ToolOf(key.name));
    var last := LastRan(attempts, key.run, ToolOf(key.name));
    && row.restartCount == (if key.name == Postgres then count else 0)
    && row.poolResetCount == (if key.name == Redis then count else 0)
    && row.lastAction == last
    && row.status == (if last.Some? then Healthy else InitialStatus(key.name))
    && (last.Some? ==> row.updatedAt == attempts[last.value].attemptedAt)
  }

  /** Every row balances, and a service without a row has never been acted on. */
  ghost predicate Balanced(attempts: seq<Attempt>, services: Services) {
    && (forall key {:trigger services[key]} | key in services :: RowBalanced(attempts, key, services[key]))
    && (forall key: ServiceKey {:trigger key in services} | key !in services ::
          LastRan(attempts, key.run, ToolOf(key.name)).None?)
  }

  lemma {:induction false} NeverRan(attempts: seq<Attempt>, run: Id, tool: ToolName)
    ensures CountRan(attempts, run, tool) == 0 <==> LastRan(attempts, run, tool).None?
  {
    if attempts != [] {
      NeverRan(attempts[..|attempts| - 1], run, tool);
    }
  }

  lemma RanAppend(attempts: seq<Attempt>, x: Attempt, run: Id, tool: ToolName)
    ensures CountRan(attempts + [x], run, tool) == CountRan(attempts, run, tool) + if Ran(x, run, tool) then 1 else 0
    ensures LastRan(attempts + [x], run, tool)
            == if Ran(x, run, tool) then Some(|attempts|) else LastRan(attempts, run, tool)
  {
    assert (attempts + [x])[..|attempts|] == attempts;
  }

  /** The row that a lookup finds or creates balances. */
  lemma StateBalanced(attempts: seq<Attempt>, services: Services, run: Id, name: ServiceName, now: Time)
    requires Balanced(attempts, services)
    ensures RowBalanced(attempts, ServiceKey(run, name), StateOf(services, run, name, InitialStatus(name), now))
  {
    var key := ServiceKey(run, name);
    NeverRan(attempts, run, ToolOf(name));
    if key in services { assert RowBalanced(attempts, key, services[key]); }
  }

  lemma EnsureBalanced(attempts: seq<Attempt>, services: Services, run: Id, name: ServiceName, now: Time)
    requires Balanced(attempts, services)
    ensures Balanced(attempts, EnsureService(services, run, name, InitialStatus(name), now))
  {
    StateBalanced(attempts, services, run, name, now);
    var t := EnsureService(services, run, name, InitialStatus(name), now);
    forall key | key in t ensures RowBalanced(attempts, key, t[key]) {
      if key != ServiceKey(run, name) { assert RowBalanced(attempts, key, services[key]); }
    }
  }

  /** Freezing a recovery contract counts nothing. */
  lemma PlanBalanced(s: Database, cfg: Config, request: CommandRequest)
    requires Balanced(s.attempts, s.services) && request.body.target < |s.nodes| && Shaped(request.body)
    ensures PlanCorrection(s, cfg, request).Planned? ==>
      Balanced(s.attempts, PlanCorrection(s, cfg, request).services)
  {
    hide Balanced;
    var run := s.nodes[request.body.target].reg.run;
    EnsureBalanced(s.attempts, s.services, run, Postgres, s.clock);
    EnsureBalanced(s.attempts, s.services, run, Redis, s.clock);
    var s1 := EnsureService(s.services, run, Redis, PoolExhausted, s.clock);
    EnsureBalanced(s.attempts, s1, run, Checkout, s.clock);
    EnsureBalanced(s.attempts, EnsureService(s1, run, Checkout, Degraded, s.clock), run, Postgres, s.clock);
  }

  lemma SeedBalanced(s: Database, run: Id)
    requires Balanced(s.attempts, s.services)
    ensures var t := SeedScenario(s, run).db; Balanced(t.attempts, t.services)
  {
    var t := SeedScenario(s, run).db;
    if t != s {
      NeverRan(s.attempts, run, RestartPostgres);
      NeverRan(s.attempts, run, ResetRedisPool);
      forall name ensures ServiceKey(run, name) !in s.services {
      }
      forall key | key in t.services ensures RowBalanced(s.attempts, key, t.services[key]) {
        if key in s.services { assert RowBalanced(s.attempts, key, s.services[key]); }
      }
    }
  }

  /** An attempt that ran nothing changes no balance. */
  lemma IdleBalanced(attempts: seq<Attempt>, x: Attempt, services: Services)
    requires Balanced(attempts, services)
    requires x.decision == Deny || (x.request.tool != RestartPostgres && x.request.tool != ResetRedisPool)
    ensures Balanced(attempts + [x], services)
  {
    forall key | key in services ensures RowBalanced(attempts + [x], key, services[key]) {
      assert RowBalanced(attempts, key, services[key]);
      RanAppend(attempts, x, key.run, ToolOf(key.name));
    }
    forall key: ServiceKey | key !in services ensures LastRan(attempts + [x], key.run, ToolOf(key.name)).None? {
      RanAppend(attempts, x, key.run, ToolOf(key.name));
    }
  }

  /** A committed action is counted once, on its own run's rows, together with its commit. */
  lemma RunBalanced(attempts: seq<Attempt>, x: Attempt, services: Services)
    requires Balanced(attempts, services) && x.decision == Allow
    ensures Balanced(attempts + [x], RunTool(services, x.run, |attempts|, x.request.tool, x.attemptedAt).0)
  {
    var t := RunTool(services, x.run, |attempts|, x.request.tool, x.attemptedAt).0;
    if x.request.tool != RestartPostgres && x.request.tool != ResetRedisPool {
      IdleBalanced(attempts, x, services);
    } else {
      forall key | key in t ensures RowBalanced(attempts + [x], key, t[key]) {
        StateBalanced(attempts, services, key.run, key.name, x.attemptedAt);
        RanAppend(attempts, x, key.run, ToolOf(key.name));
      }
      forall key: ServiceKey | key !in t ensures LastRan(attempts + [x], key.run, ToolOf(key.name)).None? {
        assert key !in services;
        RanAppend(attempts, x, key.run, ToolOf(key.name));
      }
    }
  }

  lemma DenyBalanced(s: Database, n: Id, request: ActionRequest, spec: ToolSpec, code: Code)
    requires Balanced(s.attempts, s.services) && n < |s.nodes|
    ensures var t := DenyAction(s, n, request, spec, code); Balanced(t.attempts, t.services)
  {
    hide Balanced, RecordAcks, RecordMatches, ReportedMismatch, EvaluationOf, Attributed;
    var t := DenyAction(s, n, request, spec, code);
    IdleBalanced(s.attempts, t.attempts[|s.attempts|], s.services);
  }

  lemma AdmitBalanced(s: Database, n: Id, request: ActionRequest, spec: ToolSpec)
    requires Balanced(s.attempts, s.services) && n < |s.nodes|
    ensures var t := AdmitAction(s, n, request, spec); Balanced(t.attempts, t.services)
  {
    hide Balanced, RunTool;
    RunBalanced(s.attempts, AdmitAction(s, n, request, spec).attempts[|s.attempts|], s.services);
  }

  /** The gateway keeps every service row equal to the fold of the committed actions. */
  lemma ExecuteBalanced(s: Database, cfg: Config, throttled: bool, n: Id, token: Token, request: ActionRequest)
    requires Balanced(s.attempts, s.services)
    ensures var t := ExecuteAction(s, cfg, throttled, n, token, request).db; Balanced(t.attempts, t.services)
  {
    hide Balanced, Admission, DenyAction, AdmitAction, FindAttempt;
    if n < |s.nodes| && SpecOf(request.tool).Some? {
      var spec := SpecOf(request.tool).value;
      var code := Admission(s, cfg, n, request, spec);
      if code.Some? { DenyBalanced(s, n, request, spec, code.value); }
      AdmitBalanced(s, n, request, spec);
    }
  }
}
