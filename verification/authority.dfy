/** Who may command whom, and what an operator's authorization binds. */
module Authority {
  import opened Options
  import opened Domain
  import opened Scopes
  import opened Tools
  import opened Transitions
  import opened Lineage
  import opened Tree
  import opened Fences
  import opened Revocation
  import opened Replacements

  /** An agent commands strictly below itself, unless it is the root of the run; only the root or a
      human cancels a run. */
  ghost predicate RightlyIssued(s: State, order: Order) {
    match order.issuer
    case HumanIssuer(_) => true
    case AgentIssuer(i) =>
      && i < |s.nodes| && order.target < |s.nodes| && order.run < |s.runs|
      && s.nodes[i].reg.run == order.run
      && (i == s.runs[order.run].root
          || (order.kind != CancelRun && i != order.target && Under(s.nodes, i, order.target)
              && ControlDescendants in s.nodes[i].reg.capabilities))
  }

  /** A command that names a proposal is the one and only result of that proposal, and its body is
      exactly what the operator authorized. */
  ghost predicate RightlySourced(s: State, c: Id)
    requires c < |s.commands|
  {
    var order := s.commands[c].order;
    && order.key == order.request.preimage.key && order.kind == order.request.preimage.body.kind
    && order.target == order.request.preimage.body.target
    && order.sourceProposal == order.request.preimage.sourceProposal
    && (order.sourceProposal.Some? ==>
          && order.sourceProposal.value < |s.proposals|
          && var proposal := s.proposals[order.sourceProposal.value];
             && proposal.resultingCommand == Some(c) && proposal.status == ProposalAccepted
             && proposal.authorized == Some(order.request.preimage.body)
             && proposal.payload.run == order.run && proposal.payload.target == order.target
             && order.kind == ProposedKind(proposal.payload.kind))
  }

  /** A review froze the payload and the authorization, which fits what was proposed. */
  predicate ReviewRecorded(proposal: Proposal) {
    && (proposal.status != ProposalPending ==> proposal.acceptedDigest == Some(Digest(proposal.payload)))
    && (proposal.authorized.Some? ==>
          && proposal.authorizedDigest == Some(Digest(proposal.authorized.value))
          && proposal.authorized.value.target == proposal.payload.target
          && proposal.authorized.value.kind == ProposedKind(proposal.payload.kind))
  }

  ghost predicate ProposalBound(s: State, p: Id)
    requires p < |s.proposals|
  {
    var proposal := s.proposals[p];
    && proposal.payload.id == p
    && (proposal.status == ProposalAccepted <==> proposal.authorized.Some?)
    && ReviewRecorded(proposal)
    && (proposal.resultingCommand.Some? ==>
          proposal.resultingCommand.value < |s.commands|
          && s.commands[proposal.resultingCommand.value].order.sourceProposal == Some(p))
  }

  ghost predicate WellAuthorized(s: State) {
    && (forall c {:trigger s.commands[c]} | 0 <= c < |s.commands| ::
          RightlyIssued(s, s.commands[c].order) && RightlySourced(s, c))
    && (forall p {:trigger s.proposals[p]} | 0 <= p < |s.proposals| :: ProposalBound(s, p))
    && (forall a, b | 0 <= a < b < |s.commands| ::
          !IssuedAs(s.commands[b].order, s.commands[a].order.run, s.commands[a].order.issuer, s.commands[a].order.key))
  }

  // ---------------------------------------------------------------- frames

  /** Runs keep their root. */
  ghost predicate KeepsRoots(s: State, t: State) {
    && |s.runs| <= |t.runs|
    && forall r {:trigger t.runs[r]} | 0 <= r < |s.runs| :: t.runs[r].root == s.runs[r].root
  }

  lemma IssuedFrame(s: State, t: State, order: Order)
    requires Extends(s, t) && KeepsRoots(s, t) && RightlyIssued(s, order)
    ensures RightlyIssued(t, order)
  {
    if order.issuer.AgentIssuer? {
      UnderFrame(s.nodes, t.nodes, order.issuer.node, order.target);
    }
  }

  lemma AuthorizedFrame(s: State, t: State)
    requires WellAuthorized(s) && Extends(s, t) && KeepsRoots(s, t)
    requires |t.commands| == |s.commands| && t.proposals == s.proposals
    ensures WellAuthorized(t)
  {
    forall c | 0 <= c < |t.commands| ensures RightlyIssued(t, t.commands[c].order) && RightlySourced(t, c) {
      assert RightlyIssued(s, s.commands[c].order) && RightlySourced(s, c);
      IssuedFrame(s, t, s.commands[c].order);
    }
    forall p | 0 <= p < |t.proposals| ensures ProposalBound(t, p) {
      assert ProposalBound(s, p);
    }
  }

  /** Only proposals without a resulting command are added or reviewed. */
  lemma ProposalsAuthorized(s: State, t: State)
    requires WellAuthorized(s) && t == s.(proposals := t.proposals) && |s.proposals| <= |t.proposals|
    requires forall p {:trigger t.proposals[p]} | 0 <= p < |t.proposals| ::
      if p < |s.proposals| && (s.proposals[p].status != ProposalPending || t.proposals[p] == s.proposals[p])
      then t.proposals[p] == s.proposals[p]
      else && t.proposals[p].payload.id == p
           && (p < |s.proposals| ==> t.proposals[p].resultingCommand == s.proposals[p].resultingCommand)
           && (p >= |s.proposals| ==> t.proposals[p].resultingCommand.None?)
           && (t.proposals[p].status == ProposalAccepted <==> t.proposals[p].authorized.Some?)
           && ReviewRecorded(t.proposals[p])
    ensures WellAuthorized(t)
  {
    forall c | 0 <= c < |t.commands| ensures RightlyIssued(t, t.commands[c].order) && RightlySourced(t, c) {
      assert RightlyIssued(s, s.commands[c].order) && RightlySourced(s, c);
      IssuedFrame(s, t, s.commands[c].order);
    }
    forall p | 0 <= p < |t.proposals| ensures ProposalBound(t, p) {
      if p < |s.proposals| { assert ProposalBound(s, p); }
    }
  }

  lemma ProposeAuthorized(
    s: Database, cfg: Config, throttled: bool, reporter: Id, token: Token, target: Id, kind: ProposalType, reason: string)
    requires WellAuthorized(s)
    ensures WellAuthorized(Propose(s, cfg, throttled, reporter, token, target, kind, reason).db)
  {
    hide RuntimeOf, WellAuthorized;
    assert forall p | 0 <= p < |s.proposals| :: s.proposals[p].payload.id == p by { ProposalIds(s); }
    ProposalsAuthorized(s, Propose(s, cfg, throttled, reporter, token, target, kind, reason).db);
  }

  lemma ProposalIds(s: State)
    requires WellAuthorized(s)
    ensures forall p | 0 <= p < |s.proposals| :: s.proposals[p].payload.id == p
  {
    forall p | 0 <= p < |s.proposals| ensures s.proposals[p].payload.id == p {
      assert ProposalBound(s, p);
    }
  }

  lemma ReviewAuthorized(s: Database, p: Id, authorization: Option<Authorization>, reviewer: string)
    requires WellAuthorized(s)
    ensures WellAuthorized(Review(s, p, authorization, reviewer).db)
  {
    hide WellAuthorized;
    assert forall p | 0 <= p < |s.proposals| :: s.proposals[p].payload.id == p by { ProposalIds(s); }
    ProposalsAuthorized(s, Review(s, p, authorization, reviewer).db);
  }

  // ---------------------------------------------------------------- a new command

  /** What a command that commits looks like next to the state it committed in. */
  ghost predicate Issues(s: Database, t: State, issuer: Issuer, request: CommandRequest, x: Command, closed: Run) {
    var order := x.order;
    && Committed(s, t, x, closed)
    && order.issuer == issuer && order.key == request.key && order.request == Digest(request)
    && order.kind == request.body.kind && order.target == request.body.target
    && order.sourceProposal == request.sourceProposal && order.expectedTool == request.body.expectedTool
    && order.instruction == request.body.instruction
    && s.runs[order.run].status == RunRunning
    && s.scopes[order.targetScope].status == ScopeActive && s.scopes[order.targetScope].run == order.run
    && order.targetScope == (if order.kind == CancelRun then s.runs[order.run].runScope
                             else s.nodes[order.target].reg.ownScope)
    && order.manifestDigest == (if order.manifest.Some? then Some(Digest(order.manifest.value)) else None)
    && ProposalGuard(s, order.run, request).None?
    && t.proposals == (if request.sourceProposal.Some? && request.sourceProposal.value < |s.proposals|
         then s.proposals[request.sourceProposal.value :=
                s.proposals[request.sourceProposal.value].(resultingCommand := Some(|s.commands|))]
         else s.proposals)
  }

  lemma NewCommandIssues(s: Database, cfg: Config, issuer: Issuer, request: CommandRequest)
    returns (x: Command, closed: Run)
    requires Shaped(request.body) && request.body.target < |s.nodes|
    requires NewCommand(s, cfg, issuer, request).out.Issued?
    ensures NewCommand(s, cfg, issuer, request).out == Issued(|s.commands|, false)
    ensures Issues(s, NewCommand(s, cfg, issuer, request).db, issuer, request, x, closed)
    ensures PlanCorrection(s, cfg, request).Planned?
    ensures x.order.manifest == PlanCorrection(s, cfg, request).manifest
    ensures x.order.replacementParent
            == if request.body.kind == CorrectSubtree then ReplacementParent(s, request.body.target) else None
    ensures request.body.kind == CorrectSubtree ==> x.order.replacementParent.Some?
    ensures NewCommand(s, cfg, issuer, request).db.services == PlanCorrection(s, cfg, request).services
  {
    hide PlanCorrection, ReplacementParent, ProposalGuard, CountCommands, CommitCommand;
    var target := s.nodes[request.body.target].reg;
    var plan := PlanCorrection(s, cfg, request);
    var parent := ReplacementParent(s, request.body.target);
    var scope := if request.body.kind == CancelRun then s.runs[target.run].runScope else target.ownScope;
    var designated := if request.body.kind == CorrectSubtree then parent else None;
    var planned := s.(services := plan.services);
    x, closed := CommitCommits(planned, issuer, request, scope, designated, plan.manifest);
    CommitElsewhere(planned, issuer, request, scope, designated, plan.manifest);
  }

  lemma CommitElsewhere(
    s: Database, issuer: Issuer, request: CommandRequest, scope: Id, parent: Option<Id>, manifest: Option<Manifest>)
    requires request.body.target < |s.nodes| && scope < |s.scopes|
    requires CommitCommand(s, issuer, request, scope, parent, manifest).Some?
    ensures var t := CommitCommand(s, issuer, request, scope, parent, manifest).value;
      && t.services == s.services
      && t.proposals == (if request.sourceProposal.Some? && request.sourceProposal.value < |s.proposals|
           then s.proposals[request.sourceProposal.value :=
                  s.proposals[request.sourceProposal.value].(resultingCommand := Some(|s.commands|))]
           else s.proposals)
  {
  }

  lemma IssueAuthorized(s: Database, t: State, issuer: Issuer, request: CommandRequest, x: Command, closed: Run)
    requires WellAuthorized(s) && Issues(s, t, issuer, request, x, closed)
    requires RightlyIssued(s, x.order) && FindCommand(s.commands, x.order.run, issuer, request.key).None?
    ensures WellAuthorized(t)
  {
    hide RightlyIssued, RightlySourced, ProposalGuard, ProposalBound;
    IssueSourced(s, t, issuer, request, x, closed);
    forall c | 0 <= c < |t.commands| ensures RightlyIssued(t, t.commands[c].order) && RightlySourced(t, c) {
      if c < |s.commands| { assert RightlyIssued(s, s.commands[c].order); }
      IssuedFrame(s, t, t.commands[c].order);
    }
    forall a, b | 0 <= a < b < |t.commands|
      ensures !IssuedAs(t.commands[b].order, t.commands[a].order.run, t.commands[a].order.issuer, t.commands[a].order.key)
    {
      assert !IssuedAs(s.commands[a].order, x.order.run, issuer, request.key);
    }
    forall p | 0 <= p < |t.proposals| ensures ProposalBound(t, p) {
      var bound := t.proposals[p];
    }
  }

  lemma IssueSourced(s: Database, t: State, issuer: Issuer, request: CommandRequest, x: Command, closed: Run)
    requires WellAuthorized(s) && Issues(s, t, issuer, request, x, closed)
    ensures forall c {:trigger t.commands[c]} | 0 <= c < |t.commands| :: RightlySourced(t, c)
    ensures forall p {:trigger t.proposals[p]} | 0 <= p < |t.proposals| :: ProposalBound(t, p)
  {
    hide RightlyIssued;
    forall c | 0 <= c < |t.commands| ensures RightlySourced(t, c) {
      if c < |s.commands| { assert RightlySourced(s, c); }
    }
    forall p | 0 <= p < |t.proposals| ensures ProposalBound(t, p) {
      assert ProposalBound(s, p);
    }
  }

  /** The authority decision lets an agent through only for its strict descendants or as the root. */
  lemma GuardIsRightful(s: Database, principal: Principal, request: CommandRequest, x: Command)
    requires WellTreed(s) && request.body.target < |s.nodes|
    requires AuthorityGuard(s, principal, request).None?
    requires x.order.issuer == IssuerOf(principal) && x.order.target == request.body.target
    requires x.order.run == s.nodes[request.body.target].reg.run && x.order.kind == request.body.kind
    ensures RightlyIssued(s, x.order)
    ensures request.body.kind == CancelRun <==> request.body.target == s.runs[x.order.run].root
  {
    hide Reaches, ParentsOf;
    if principal.AgentPrincipal? {
      UnderIsReaches(s, principal.node.value, request.body.target);
    }
  }

  /** Nothing changes when issuing does not end in a new command. */
  lemma IssueOrSame(s: Database, cfg: Config, throttled: bool, principal: Principal, request: CommandRequest)
    requires WellTreed(s)
    ensures var r := IssueCommand(s, cfg, throttled, principal, request);
      r.db == s || (
        && Shaped(request.body) && request.body.target < |s.nodes|
        && AuthorityGuard(s, principal, request).None?
        && FindCommand(s.commands, s.nodes[request.body.target].reg.run, IssuerOf(principal), request.key).None?
        && r == NewCommand(s, cfg, IssuerOf(principal), request) && r.out.Issued?
        && (principal.AgentPrincipal? ==>
              principal.node.Some? && principal.node.value < |s.nodes| && RuntimeOf(s, principal.node.value).allowed))
  {
    hide NewCommand, RuntimeOf;
    if Shaped(request.body) && request.body.target < |s.nodes| {
      NewCommandOrSame(s, cfg, IssuerOf(principal), request);
    }
  }

  lemma NewCommandOrSame(s: Database, cfg: Config, issuer: Issuer, request: CommandRequest)
    requires Shaped(request.body) && request.body.target < |s.nodes|
    ensures NewCommand(s, cfg, issuer, request).db == s || NewCommand(s, cfg, issuer, request).out.Issued?
  {
    hide PlanCorrection, ReplacementParent, ProposalGuard, CountCommands, CommitCommand;
  }

  // ---------------------------------------------------------------- the correction a command plans

  lemma PlanFixes(s: Database, cfg: Config, issuer: Issuer, request: CommandRequest, t: State, x: Command, closed: Run)
    requires request.body.target < |s.nodes| && Shaped(request.body)
    requires Issues(s, t, issuer, request, x, closed)
    requires PlanCorrection(s, cfg, request).Planned? && x.order.manifest == PlanCorrection(s, cfg, request).manifest
    ensures if request.body.kind == CorrectSubtree
      then ManifestFixed(x.order)
           && x.order.manifest.value.instructionVersion == s.nodes[request.body.target].reg.instructionVersion + 1
      else x.order.manifest.None?
  {
  }

  /** The designated creator is the corrected node's parent or its root; neither is a replacement. */
  lemma ParentIsOrdinary(s: Database, target: Id)
    requires WellTreed(s) && WellReplaced(s) && target < |s.nodes|
    ensures var p := ReplacementParent(s, target);
      p.Some? ==> p.value < |s.nodes| && s.nodes[p.value].reg.causedBy.None?
                  && s.nodes[p.value].reg.run == s.nodes[target].reg.run && RuntimeOf(s, p.value).allowed
                  && (s.nodes[target].reg.parent == p || s.nodes[p.value].reg.parent.None?)
  {
    hide RuntimeOf;
    assert NodeLinked(s, target) && NodeReplaces(s, target);
    var root := s.runs[s.nodes[target].reg.run].root;
    assert RunRooted(s, s.nodes[target].reg.run);
    assert NodeLinked(s, root);
  }

  lemma IssueReplaced(s: Database, cfg: Config, issuer: Issuer, request: CommandRequest, t: State, x: Command, closed: Run)
    requires WellTreed(s) && WellReplaced(s) && request.body.target < |s.nodes| && Shaped(request.body)
    requires Issues(s, t, issuer, request, x, closed)
    requires PlanCorrection(s, cfg, request).Planned? && x.order.manifest == PlanCorrection(s, cfg, request).manifest
    requires x.order.replacementParent
             == if request.body.kind == CorrectSubtree then ReplacementParent(s, request.body.target) else None
    requires request.body.kind == CorrectSubtree ==> x.order.replacementParent.Some?
    ensures WellReplaced(t)
  {
    hide PlanCorrection, ReplacementParent, ManifestFixed, ProposalGuard;
    PlanFixes(s, cfg, issuer, request, t, x, closed);
    ParentIsOrdinary(s, request.body.target);
    NewcomersReplaced(s, t, x, closed);
  }

  /** A new correction whose manifest and creator fit keeps corrections and attempts in agreement. */
  lemma NewcomersReplaced(s: State, t: State, x: Command, closed: Run)
    requires WellReplaced(s) && Committed(s, t, x, closed)
    requires if x.order.kind == CorrectSubtree then ManifestFixed(x.order) && CreatorFits(s, x.order)
             else x.order.manifest.None? && x.order.replacementParent.None?
    ensures WellReplaced(t)
  {
    hide ManifestFixed, Fits, StatusFits;
    forall n | 0 <= n < |t.nodes| ensures NodeReplaces(t, n) {
      assert NodeReplaces(s, n);
    }
    forall c | 0 <= c < |t.commands| ensures CommandReplaces(t, c) {
      if c < |s.commands| { SameCommandReplaces(s, t, c); }
    }
  }

  lemma SameCommandReplaces(s: State, t: State, c: Id)
    requires c < |s.commands| && c < |t.commands| && t.commands[c] == s.commands[c] && t.nodes == s.nodes
    requires WellReplaced(s)
    ensures CommandReplaces(t, c)
  {
    assert CommandReplaces(s, c);
  }
}
