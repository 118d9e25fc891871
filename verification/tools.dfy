/** The tool registry: capabilities, executors over service rows, recovery contracts, and the
    postconditions a proof evaluates. */
module Tools {
  import opened Options
  import opened Domain

  datatype ToolSpec = ToolSpec(
    capability: Capability, sideEffecting: bool, allowedKeys: set<string>,
    resources: set<Resource>, replacementRole: Option<string>)

  function SpecOf(tool: ToolName): Option<ToolSpec> {
    match tool
    case ReadMetrics => Some(ToolSpec(UseReadMetrics, false, {}, {MetricsResource}, None))
    case RestartPostgres =>
      Some(ToolSpec(UseRestartPostgres, true, {}, {PostgresResource}, Some("postgres_recovery")))
    case ResetRedisPool =>
      Some(ToolSpec(UseResetRedisPool, true, {}, {CheckoutResource, PostgresResource, RedisResource},
                    Some("redis_recovery")))
    case OtherTool(_) => None
  }

  predicate ArgumentsValid(spec: ToolSpec, arguments: Arguments) {
    arguments.Keys <= spec.allowedKeys
  }

  type Services = map<ServiceKey, Service>

  /** The row of a service, created on first use. */
  function StateOf(services: Services, run: Id, name: ServiceName, initial: ServiceStatus, now: Time): Service {
    var key := ServiceKey(run, name);
    if key in services then services[key] else Service(initial, 0, 0, None, now)
  }

  /** What an executor writes and returns. */
  function RunTool(services: Services, run: Id, action: Id, tool: ToolName, now: Time): (Services, ToolResult) {
    match tool
    case RestartPostgres =>
      var postgres := StateOf(services, run, Postgres, Healthy, now);
      var restarted := postgres.(restartCount := postgres.restartCount + 1, status := Healthy,
                                 lastAction := Some(action), updatedAt := now);
      (services[ServiceKey(run, Postgres) := restarted], RestartResult(restarted.restartCount))
    case ResetRedisPool =>
      var redis := StateOf(services, run, Redis, PoolExhausted, now);
      var reset := redis.(poolResetCount := redis.poolResetCount + 1, status := Healthy,
                          lastAction := Some(action), updatedAt := now);
      var checkout := StateOf(services, run, Checkout, Degraded, now)
                      .(status := Healthy, lastAction := Some(action), updatedAt := now);
      (services[ServiceKey(run, Redis) := reset][ServiceKey(run, Checkout) := checkout],
       ResetResult(reset.poolResetCount))
    case _ =>
      (services, MetricsResult(map name: ServiceName | ServiceKey(run, name) in services :: services[ServiceKey(run, name)]))
  }

  /** Building a contract looks services up, which creates their rows. */
  function EnsureService(services: Services, run: Id, name: ServiceName, initial: ServiceStatus, now: Time): Services {
    services[ServiceKey(run, name) := StateOf(services, run, name, initial, now)]
  }

  function BuildContract(
    services: Services, environment: string, run: Id, tool: ToolName, spec: ToolSpec,
    arguments: Arguments, stability: nat, now: Time): (Services, Contract)
  {
    match tool
    case RestartPostgres =>
      var s1 := EnsureService(services, run, Postgres, Healthy, now);
      (s1, Contract(Some(tool), Digest(arguments), environment, spec.resources, 1, stability,
        [Postcondition(Postgres, FieldStatus, StatusValue(Healthy), true),
         Postcondition(Postgres, FieldRestartCount,
           CountValue(s1[ServiceKey(run, Postgres)].restartCount + 1), true)]))
    case ResetRedisPool =>
      var s1 := EnsureService(services, run, Redis, PoolExhausted, now);
      var s2 := EnsureService(s1, run, Checkout, Degraded, now);
      var s3 := EnsureService(s2, run, Postgres, Healthy, now);
      (s3, Contract(Some(tool), Digest(arguments), environment, spec.resources, 1, stability,
        [Postcondition(Redis, FieldStatus, StatusValue(Healthy), true),
         Postcondition(Redis, FieldPoolResetCount,
           CountValue(s1[ServiceKey(run, Redis)].poolResetCount + 1), true),
         Postcondition(Checkout, FieldStatus, StatusValue(Healthy), true),
         Postcondition(Postgres, FieldRestartCount,
           CountValue(s3[ServiceKey(run, Postgres)].restartCount), false)]))
    case _ =>
      (services, Contract(Some(tool), Digest(arguments), environment, spec.resources, 1, stability, []))
  }

  function FieldOf(service: Service, field: PostField): PostValue {
    match field
    case FieldStatus => StatusValue(service.status)
    case FieldRestartCount => CountValue(service.restartCount)
    case FieldPoolResetCount => CountValue(service.poolResetCount)
  }

  // ---------------------------------------------------------------- postconditions

  datatype PostVerdict = PostMissing | PostFailed | PostUnbound | PostUnstable | PostHolds

  function JudgePost(
    services: Services, run: Id, action: Id, stability: nat, stableBefore: int, p: Postcondition): PostVerdict
  {
    var key := ServiceKey(run, p.service);
    if key !in services then PostMissing
    else if FieldOf(services[key], p.field) != p.expected then PostFailed
    else if p.requireAction && services[key].lastAction != Some(action) then PostUnbound
    else if stability > 0 && services[key].updatedAt > stableBefore then PostUnstable
    else PostHolds
  }

  datatype PostEvaluation = PostEvaluation(inconsistent: bool, incomplete: bool, unstable: bool)

  /** One of the first postconditions of the contract has one of these verdicts. */
  ghost predicate SomePost(
    services: Services, run: Id, action: Id, contract: Contract, stableBefore: int, upto: nat,
    verdicts: set<PostVerdict>)
    requires upto <= |contract.postconditions|
  {
    exists k | 0 <= k < upto ::
      JudgePost(services, run, action, contract.stability, stableBefore, contract.postconditions[k]) in verdicts
  }

  /** The evaluator's loop over flags, against the verdicts of the single postconditions. */
  method VerifyPostconditions(services: Services, run: Id, action: Id, contract: Contract, stableBefore: int)
    returns (e: PostEvaluation)
    ensures var n := |contract.postconditions|;
      && (e.inconsistent <==> SomePost(services, run, action, contract, stableBefore, n, {PostUnbound}))
      && (e.incomplete <==> SomePost(services, run, action, contract, stableBefore, n, {PostMissing, PostFailed}))
      && (e.unstable
          <==> SomePost(services, run, action, contract, stableBefore, n, {PostMissing, PostFailed, PostUnstable}))
  {
    var inconsistent, incomplete, unstable := false, false, false;
    for i := 0 to |contract.postconditions|
      invariant inconsistent <==> SomePost(services, run, action, contract, stableBefore, i, {PostUnbound})
      invariant incomplete <==> SomePost(services, run, action, contract, stableBefore, i, {PostMissing, PostFailed})
      invariant unstable
                <==> SomePost(services, run, action, contract, stableBefore, i, {PostMissing, PostFailed, PostUnstable})
    {
      var p := contract.postconditions[i];
      var key := ServiceKey(run, p.service);
      if key !in services {
        incomplete, unstable := true, true;
        continue;
      }
      var state := services[key];
      if FieldOf(state, p.field) != p.expected {
        incomplete, unstable := true, true;
        continue;
      }
      if p.requireAction && state.lastAction != Some(action) {
        inconsistent := true;
        continue;
      }
      if contract.stability > 0 && state.updatedAt > stableBefore {
        unstable := true;
      }
    }
    e := PostEvaluation(inconsistent, incomplete, unstable);
  }
}
