/** Authority and capabilities only shrink on the way down the tree. */
module Delegation {
  import opened Options
  import opened Domain
  import opened Scopes
  import opened Tools
  import opened Transitions
  import opened Frames
  import opened Tree
  import opened Fences
  import opened Revocation
  import opened Admissions
  import opened Attribution
  import opened Authority
  import opened Coherence
  import opened Growth

  /** Every committed action used a capability that every ancestor of the acting node holds. */
  lemma CapabilityHeldByAncestors(s: Database, a: Id, ancestor: Id)
    requires Coherent(s) && a < |s.attempts| && s.attempts[a].decision == Allow
    requires s.attempts[a].node < |s.nodes| && Under(s.nodes, ancestor, s.attempts[a].node)
    ensures SpecOf(s.attempts[a].request.tool).Some?
    ensures ancestor < |s.nodes|
    ensures SpecOf(s.attempts[a].request.tool).value.capability in s.nodes[ancestor].reg.capabilities
  {
    assert AttemptAdmitted(s, a);
    UnderKeeps(s, ancestor, s.attempts[a].node);
  }

  /** Every command an agent issued aims strictly below the issuer, or the issuer is the root; and
      a command that is not a run cancellation never aims at its own issuer. */
  lemma AgentsCommandBelow(s: Database, c: Id)
    requires Coherent(s) && c < |s.commands| && s.commands[c].order.issuer.AgentIssuer?
    ensures var order := s.commands[c].order; var i := order.issuer.node;
      && i < |s.nodes| && order.target < |s.nodes| && order.run < |s.runs| && s.nodes[i].reg.run == order.run
      && (i == s.runs[order.run].root || (i != order.target && Under(s.nodes, i, order.target)))
      && (order.kind != CancelRun ==> !Targets(s, c, i))
  {
    hide WellJoined, WellAdmitted, WellMatched, WellAcked;
    var order := s.commands[c].order;
    assert RightlyIssued(s, order) && CommandFences(s, c);
    var i := order.issuer.node;
    assert RunRooted(s, order.run);
    if Under(s.nodes, order.target, i) { UnderKeeps(s, order.target, i); }
    if Under(s.nodes, i, order.target) { UnderKeeps(s, i, order.target); }
  }

  lemma {:induction false} ClosingElsewhere(scopes: seq<Scope>, later: seq<Scope>, k: Id, run: Id, snapshot: seq<Snap>)
    requires k < |scopes| && |later| == |scopes| && forall j | 0 <= j < |scopes| && j != k :: later[j] == scopes[j]
    requires forall i | 0 <= i < |snapshot| :: snapshot[i].scope != k
    ensures Mismatches(later, run, snapshot) == Mismatches(scopes, run, snapshot)
  {
    if snapshot != [] {
      ClosingElsewhere(scopes, later, k, run, snapshot[..|snapshot| - 1]);
    }
  }

  /** Issuing a command other than a run cancellation does not change the evaluation of any node it
      does not target, in particular of the agent that issues it. */
  lemma CommandSparesOthers(s: Database, t: Database, x: Command, closed: Run, n: Id)
    requires Coherent(s) && Coherent(t) && Committed(s, t, x, closed) && n < |s.nodes|
    requires !Targets(t, |s.commands|, n) && x.order.run == s.nodes[n].reg.run
    ensures EvaluationOf(t, n) == EvaluationOf(s, n)
  {
    hide WellJoined, WellAdmitted, WellMatched, WellAcked, WellAuthorized;
    TargetedScope(t, |s.commands|, n);
    var k := x.order.targetScope;
    var snapshot := s.nodes[n].reg.snapshot;
    forall i | 0 <= i < |snapshot| ensures snapshot[i].scope != k {
      SnapshotItem(s, n, i);
      assert snapshot[i] == Snap(snapshot[i].scope, 1) && snapshot[i] in snapshot;
    }
    ClosingElsewhere(s.scopes, t.scopes, k, s.nodes[n].reg.run, snapshot);
  }

  /** The issuing agent's own standing is untouched by its command. */
  lemma IssuerUnaffected(s: Database, cfg: Config, throttled: bool, principal: Principal, request: CommandRequest)
    requires Coherent(s) && Past(s) && principal.AgentPrincipal? && principal.node.Some?
    requires request.body.kind != CancelRun && principal.node.value < |s.nodes|
    ensures var t := IssueCommand(s, cfg, throttled, principal, request).db;
      principal.node.value < |t.nodes| && EvaluationOf(t, principal.node.value) == EvaluationOf(s, principal.node.value)
  {
    hide Coherent, Past, IssueCommand, NewCommand, PlanCorrection, ReplacementParent, AuthorityGuard, RuntimeOf, Evolves,
         EvaluationOf, Targets;
    var t := IssueCommand(s, cfg, throttled, principal, request).db;
    TreeOf(s);
    IssueOrSame(s, cfg, throttled, principal, request);
    IssueCoherent(s, cfg, throttled, principal, request);
    if t != s {
      var x, closed := NewCommandIssues(s, cfg, IssuerOf(principal), request);
      assert t.commands[|s.commands|] == x;
      AgentsCommandBelow(t, |s.commands|);
      CommandSparesOthers(s, t, x, closed, principal.node.value);
    }
  }
}
