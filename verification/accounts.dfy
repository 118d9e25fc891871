/** How nodes come to be accounted for: which class of the control proof each service puts a node into. */
module Accounts {
  import opened Options
  import opened Domain
  import opened Scopes
  import opened Tools
  import opened Transitions
  import opened Revocation
  import opened Attribution
  import opened Standing
  import opened Coherence
  import opened LeaseCalls
  import opened GatewayCalls
  import opened Audit
  import opened Reference

  /** The node had neither completed nor acknowledged another command by the time of this one. */
  ghost predicate Unconverged(s: State, c: Id, n: Id)
    requires c < |s.commands| && n < |s.nodes|
  {
    !Evidence(s, c, n, CompletedBeforeCommand) && !AckedBefore(s, c, n)
  }

  lemma OlderCommand(s: State, c: Id)
    requires Past(s) && c < |s.commands|
    ensures s.commands[c].order.createdAt < s.clock
  {
  }

  /** Acknowledgements made now are later than every command, so they converge nothing. */
  lemma StaysUnconverged(s: State, t: State, c: Id, n: Id, ids: set<Id>, status: NodeStatus, kind: AckKind)
    requires Past(s) && c < |s.commands| && n < |s.nodes| && Marks(s, t, ids, status, kind) && Unconverged(s, c, n)
    ensures c < |t.commands| && n < |t.nodes| && Unconverged(t, c, n)
  {
    hide Targets, Past;
    OlderCommand(s, c);
    var node := t.nodes[n];
    forall key | key in t.acks && key.node == n && key.command != c
      ensures t.acks[key].observedAt > t.commands[c].order.createdAt
    {
      assert key in s.acks ==> s.acks[key].observedAt > s.commands[c].order.createdAt;
    }
  }

  lemma MarkIsAcked(s: State, t: State, c: Id, n: Id, status: NodeStatus, kind: AckKind)
    requires c < |s.commands| && n < |s.nodes| && Targets(s, c, n) && Marks(s, t, {n}, status, kind)
    ensures AckKey(c, n, kind) in t.acks
    ensures forall other | other != kind :: AckKey(c, n, other) in t.acks <==> AckKey(c, n, other) in s.acks
  {
    hide Targets;
  }

  lemma DemotionMarks(s: Database, cfg: Config, e: Event, n: Id)
    requires Coherent(s) && n < |s.nodes|
    requires var out := Step(s, cfg, e).out;
      || (e.op.OpHeartbeat? && e.op.node == n && out.HeartbeatDenied?
          && (out.code == ScopeIsCancelled || out.code == ScopeIsSuperseded))
      || (e.op.OpCheckpoint? && e.op.node == n && out.CheckpointDone? && out.blame.Some?
          && out.reason != Some(LeaseIsExpired))
    ensures Past(Tick(s, e)) && Marks(Tick(s, e), Step(s, cfg, e).db, {n}, ClosedStatus(Tick(s, e), n), CooperativeAck)
  {
    hide Coherent, Past, Step, Live, Barred, Marks, ClosedStatus, Targets;
    StepDoes(s, cfg, e);
  }

  /** A heartbeat or a checkpoint that demotes an unconverged node for its closed scopes accounts for it as
      having acknowledged the command. */
  lemma DemotionAcknowledges(s: Database, cfg: Config, e: Event, c: Id, n: Id)
    requires Coherent(s) && c < |s.commands| && n < |s.nodes| && Targets(Tick(s, e), c, n) && Unconverged(Tick(s, e), c, n)
    requires var out := Step(s, cfg, e).out;
      || (e.op.OpHeartbeat? && e.op.node == n && out.HeartbeatDenied?
          && (out.code == ScopeIsCancelled || out.code == ScopeIsSuperseded))
      || (e.op.OpCheckpoint? && e.op.node == n && out.CheckpointDone? && out.blame.Some?
          && out.reason != Some(LeaseIsExpired))
    ensures var t := Step(s, cfg, e).db; c < |t.commands| && n < |t.nodes| && Accounted(t, c, n, AcknowledgedCommand)
  {
    hide Coherent, Past, Step, Marks, ClosedStatus, Targets, AckedBefore, Accounted;
    var u, t := Tick(s, e), Step(s, cfg, e).db;
    DemotionMarks(s, cfg, e, n);
    StaysUnconverged(u, t, c, n, {n}, ClosedStatus(u, n), CooperativeAck);
    MarkIsAcked(u, t, c, n, ClosedStatus(u, n), CooperativeAck);
    FirstOfFive(t, c, n, AcknowledgedCommand);
  }

  /** A denial for closed scopes accounts for an unconverged node that has not acknowledged the command
      itself as blocked at the gateway. */
  lemma DenialBlocks(s: Database, cfg: Config, e: Event, c: Id, n: Id)
    requires Coherent(s) && c < |s.commands| && n < |s.nodes| && Targets(Tick(s, e), c, n) && Unconverged(Tick(s, e), c, n)
    requires AckKey(c, n, CooperativeAck) !in s.acks && e.op.OpExecute? && e.op.node == n
    requires Step(s, cfg, e).out == ActionDecided(|s.attempts|, Deny, Some(ScopeIsCancelled), false)
             || Step(s, cfg, e).out == ActionDecided(|s.attempts|, Deny, Some(ScopeIsSuperseded), false)
    ensures var t := Step(s, cfg, e).db; c < |t.commands| && n < |t.nodes| && Accounted(t, c, n, BlockedAtGateway)
  {
    hide Coherent, Past, Step, MayAct, DeniedAs, Blamed, MatchesAdded, Marks, ClosedStatus, Targets, AckedBefore, Returns,
         RunsTool;
    StepDoes(s, cfg, e);
    var u, t := Tick(s, e), Step(s, cfg, e).db;
    var t' := t.(attempts := u.attempts, matches := u.matches);
    assert Marks(u, t', {n}, ClosedStatus(u, n), GatewayBlockAck);
    StaysUnconverged(u, t', c, n, {n}, ClosedStatus(u, n), GatewayBlockAck);
    MarkIsAcked(u, t', c, n, ClosedStatus(u, n), GatewayBlockAck);
    SameAcksSame(t', t, c, n);
    FirstOfFive(t, c, n, BlockedAtGateway);
  }

  lemma SameAcksSame(s: State, t: State, c: Id, n: Id)
    requires c < |s.commands| && n < |s.nodes| && t == s.(attempts := t.attempts, matches := t.matches)
    ensures Unconverged(t, c, n) == Unconverged(s, c, n)
  {
  }

  /** A scan that expires an unconverged node that neither acknowledged the command nor was blocked by it
      accounts for it as having run out of its lease. */
  lemma ExpiryRunsOut(s: Database, cfg: Config, e: Event, c: Id, n: Id)
    requires Coherent(s) && c < |s.commands| && n < |s.nodes| && Targets(Tick(s, e), c, n) && Unconverged(Tick(s, e), c, n)
    requires !Evidence(s, c, n, AcknowledgedCommand) && !Evidence(s, c, n, BlockedAtGateway)
    requires e.op.OpExpire? && n in Overrunning(Tick(s, e), e.op.scan)
    ensures var t := Step(s, cfg, e).db; c < |t.commands| && n < |t.nodes| && Accounted(t, c, n, LeaseRanOut)
  {
    hide Coherent, Past, Step, Marks, Targets, AckedBefore, Overran, Lapses;
    StepDoes(s, cfg, e);
    var u, t, ids := Tick(s, e), Step(s, cfg, e).db, Overrunning(Tick(s, e), e.op.scan);
    var t' := t.(runs := u.runs, commands := u.commands);
    StaysUnconverged(u, t', c, n, ids, LeaseExpired, LeaseExpiredAck);
    SweptAcks(u, t', c, n, ids);
    var command := t.commands[c];
    SameOrderSame(t', t, c, n);
    FirstOfFive(t, c, n, LeaseRanOut);
  }

  lemma SweptAcks(s: State, t: State, c: Id, n: Id, ids: set<Id>)
    requires c < |s.commands| && n < |s.nodes| && n in ids && Targets(s, c, n)
    requires Marks(s, t, ids, LeaseExpired, LeaseExpiredAck)
    ensures AckKey(c, n, LeaseExpiredAck) in t.acks && n < |t.nodes| && t.nodes[n].life.status == LeaseExpired
    ensures AckKey(c, n, CooperativeAck) in t.acks <==> AckKey(c, n, CooperativeAck) in s.acks
    ensures AckKey(c, n, GatewayBlockAck) in t.acks <==> AckKey(c, n, GatewayBlockAck) in s.acks
    ensures t.attempts == s.attempts && t.matches == s.matches
  {
    hide Targets;
    var node := t.nodes[n];
  }

  lemma SameOrderSame(s: State, t: State, c: Id, n: Id)
    requires c < |s.commands| && n < |s.nodes| && t == s.(runs := t.runs, commands := t.commands) && c < |t.commands|
    requires t.commands[c].order == s.commands[c].order
    ensures Unconverged(t, c, n) == Unconverged(s, c, n)
  {
  }
}
