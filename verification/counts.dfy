/** The counting queries count rows. */
module Counts {
  import opened Options
  import opened Domain
  import opened Scopes
  import opened Tools
  import opened Transitions

  predicate IsChild(node: Node, run: Id, parent: Id) { node.reg.run == run && node.reg.parent == Some(parent) }

  predicate CommitsFor(x: Attempt, n: Id) { x.node == n && x.decision == Allow && x.committedAt.Some? }

  ghost function RunsOpen(runs: seq<Run>): set<Id> { set r | 0 <= r < |runs| && !Terminal(runs[r].status) }

  ghost function NodesIn(nodes: seq<Node>, run: Id): set<Id> { set n | 0 <= n < |nodes| && nodes[n].reg.run == run }

  ghost function ChildrenOf(nodes: seq<Node>, run: Id, parent: Id): set<Id> {
    set n | 0 <= n < |nodes| && IsChild(nodes[n], run, parent)
  }

  ghost function CommandsIn(commands: seq<Command>, run: Id): set<Id> {
    set c | 0 <= c < |commands| && commands[c].order.run == run
  }

  ghost function AttemptsIn(attempts: seq<Attempt>, run: Id): set<Id> {
    set a | 0 <= a < |attempts| && attempts[a].run == run
  }

  ghost function ProposalsIn(proposals: seq<Proposal>, run: Id): set<Id> {
    set p | 0 <= p < |proposals| && proposals[p].payload.run == run
  }

  ghost function CommittedBy(attempts: seq<Attempt>, n: Id): set<Id> {
    set a | 0 <= a < |attempts| && CommitsFor(attempts[a], n)
  }

  lemma {:induction false} ActiveRunsCounted(runs: seq<Run>)
    ensures CountActiveRuns(runs) == |RunsOpen(runs)|
  {
    if runs == [] {
      assert RunsOpen(runs) == {};
    } else {
      var last := |runs| - 1;
      ActiveRunsCounted(runs[..last]);
      assert forall i | 0 <= i < last :: runs[..last][i] == runs[i];
      assert RunsOpen(runs) == RunsOpen(runs[..last]) + if Terminal(runs[last].status) then {} else {last};
    }
  }

  lemma {:induction false} NodesCounted(nodes: seq<Node>, run: Id)
    ensures CountNodes(nodes, run) == |NodesIn(nodes, run)|
  {
    if nodes == [] {
      assert NodesIn(nodes, run) == {};
    } else {
      var last := |nodes| - 1;
      NodesCounted(nodes[..last], run);
      assert forall i | 0 <= i < last :: nodes[..last][i] == nodes[i];
      assert NodesIn(nodes, run) == NodesIn(nodes[..last], run) + if nodes[last].reg.run == run then {last} else {};
    }
  }

  lemma {:induction false} ChildrenCounted(nodes: seq<Node>, run: Id, parent: Id)
    ensures CountChildren(nodes, run, parent) == |ChildrenOf(nodes, run, parent)|
  {
    if nodes == [] {
      assert ChildrenOf(nodes, run, parent) == {};
    } else {
      var last := |nodes| - 1;
      var hit := IsChild(nodes[last], run, parent);
      ChildrenCounted(nodes[..last], run, parent);
      assert forall i | 0 <= i < last :: nodes[..last][i] == nodes[i];
      assert ChildrenOf(nodes, run, parent) == ChildrenOf(nodes[..last], run, parent) + if hit then {last} else {};
    }
  }

  lemma {:induction false} CommandsCounted(commands: seq<Command>, run: Id)
    ensures CountCommands(commands, run) == |CommandsIn(commands, run)|
  {
    if commands == [] {
      assert CommandsIn(commands, run) == {};
    } else {
      var last := |commands| - 1;
      var hit := commands[last].order.run == run;
      CommandsCounted(commands[..last], run);
      assert forall i | 0 <= i < last :: commands[..last][i] == commands[i];
      assert CommandsIn(commands, run) == CommandsIn(commands[..last], run) + if hit then {last} else {};
    }
  }

  lemma {:induction false} AttemptsCounted(attempts: seq<Attempt>, run: Id)
    ensures CountAttempts(attempts, run) == |AttemptsIn(attempts, run)|
  {
    if attempts == [] {
      assert AttemptsIn(attempts, run) == {};
    } else {
      var last := |attempts| - 1;
      AttemptsCounted(attempts[..last], run);
      assert forall i | 0 <= i < last :: attempts[..last][i] == attempts[i];
      assert AttemptsIn(attempts, run) == AttemptsIn(attempts[..last], run) + if attempts[last].run == run then {last} else {};
    }
  }

  lemma {:induction false} ProposalsCounted(proposals: seq<Proposal>, run: Id)
    ensures CountProposals(proposals, run) == |ProposalsIn(proposals, run)|
  {
    if proposals == [] {
      assert ProposalsIn(proposals, run) == {};
    } else {
      var last := |proposals| - 1;
      var hit := proposals[last].payload.run == run;
      ProposalsCounted(proposals[..last], run);
      assert forall i | 0 <= i < last :: proposals[..last][i] == proposals[i];
      assert ProposalsIn(proposals, run) == ProposalsIn(proposals[..last], run) + if hit then {last} else {};
    }
  }

  lemma {:induction false} CommittedCounted(attempts: seq<Attempt>, n: Id)
    ensures CountCommitted(attempts, n) == |CommittedBy(attempts, n)|
  {
    if attempts == [] {
      assert CommittedBy(attempts, n) == {};
    } else {
      var last := |attempts| - 1;
      var hit := CommitsFor(attempts[last], n);
      assert CountCommitted(attempts, n) == CountCommitted(attempts[..last], n) + if hit then 1 else 0;
      hide CommitsFor;
      CommittedCounted(attempts[..last], n);
      assert forall i | 0 <= i < last :: attempts[..last][i] == attempts[i];
      assert CommittedBy(attempts, n) == CommittedBy(attempts[..last], n) + if hit then {last} else {};
    }
  }
}
