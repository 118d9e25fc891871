/** Idempotency: a repeated key is answered from the first attempt or command and changes nothing. */
module Replays {
  import opened Options
  import opened Domain
  import opened Scopes
  import opened Tools
  import opened Transitions
  import opened Revocation
  import opened Admissions
  import opened Authority
  import opened Coherence
  import opened Growth
  import opened Histories

  /** A node and an idempotency key name at most one action over a whole run: any later call with
      them is refused, or repeats the recorded decision, and leaves every table as it was. */
  lemma OneKeyOneAction(
    s: Database, cfg: Config, a: Id, between: seq<Event>, e: Event, token: Token, request: ActionRequest)
    requires Coherent(s) && a < |s.attempts| && e.op == OpExecute(s.attempts[a].node, token, request)
    requires request.key == s.attempts[a].request.key
    ensures var u := After(s, cfg, between); var r := Step(u, cfg, e);
      && r.db == Tick(u, e)
      && (r.out.Refused?
          || (request == s.attempts[a].request
              && r.out == ActionDecided(a, s.attempts[a].decision, s.attempts[a].reason, true)))
  {
    hide Coherent, Later;
    AfterLater(s, cfg, between);
    var u := After(s, cfg, between);
    assert s.attempts <= u.attempts && WellAdmitted(u) by {
      LaterAttempts(s, u);
      AdmittedOf(u);
    }
    FindsThe(u, a, s.attempts[a].node, request.key);
    ReplaysAction(Tick(u, e), cfg, e.throttled, s.attempts[a].node, token, request, a);
  }

  lemma LaterAttempts(s: State, t: State)
    requires Later(s, t)
    ensures s.attempts <= t.attempts && Extends(s, t)
  {
  }

  lemma FindsThe(s: State, a: Id, n: Id, key: string)
    requires WellAdmitted(s) && a < |s.attempts| && AttemptedAs(s.attempts[a], n, key)
    ensures FindAttempt(s.attempts, n, key) == Some(a)
  {
    var found := FindAttempt(s.attempts, n, key);
    assert found.Some?;
    var b := found.value;
    var x, y := s.attempts[if a < b then a else b], s.attempts[if a < b then b else a];
    assert a != b ==> !AttemptedAs(y, x.node, x.request.key);
  }

  lemma ReplaysAction(s: Database, cfg: Config, throttled: bool, n: Id, token: Token, request: ActionRequest, a: Id)
    requires FindAttempt(s.attempts, n, request.key) == Some(a)
    ensures var r := ExecuteAction(s, cfg, throttled, n, token, request);
      r.db == s && (r.out.Refused? || (request == s.attempts[a].request
        && r.out == ActionDecided(a, s.attempts[a].decision, s.attempts[a].reason, true)))
  {
    hide Admission, DenyAction, AdmitAction;
  }

  /** An issuer and an idempotency key name at most one command of a run over a whole history. */
  lemma OneKeyOneCommand(
    s: Database, cfg: Config, c: Id, between: seq<Event>, e: Event, principal: Principal, request: CommandRequest)
    requires Coherent(s) && c < |s.commands| && e.op == OpIssue(principal, request)
    requires IssuerOf(principal) == s.commands[c].order.issuer && request.key == s.commands[c].order.key
    requires request.body.target < |s.nodes| && s.nodes[request.body.target].reg.run == s.commands[c].order.run
    ensures var u := After(s, cfg, between); var r := Step(u, cfg, e);
      && r.db == Tick(u, e)
      && (r.out.Refused? || (s.commands[c].order.request == Digest(request) && r.out == Issued(c, true)))
  {
    hide Coherent, Later, IssueCommand, Extends, WellAuthorized;
    AfterLater(s, cfg, between);
    var u := After(s, cfg, between);
    LaterAttempts(s, u);
    KeepsCommand(s, u, c, request.body.target);
    assert WellAuthorized(u) by { AuthorizedOf(u); }
    FindsCommand(u, c);
    ReplaysCommand(Tick(u, e), cfg, e.throttled, principal, request, c);
  }

  lemma KeepsCommand(s: State, t: State, c: Id, n: Id)
    requires Extends(s, t) && c < |s.commands| && n < |s.nodes|
    ensures c < |t.commands| && t.commands[c].order == s.commands[c].order
    ensures n < |t.nodes| && t.nodes[n].reg == s.nodes[n].reg
  {
  }

  lemma AuthorizedOf(s: State)
    requires Coherent(s)
    ensures WellAuthorized(s)
  {
  }

  lemma FindsCommand(s: State, c: Id)
    requires WellAuthorized(s) && c < |s.commands|
    ensures FindCommand(s.commands, s.commands[c].order.run, s.commands[c].order.issuer, s.commands[c].order.key) == Some(c)
  {
    var order := s.commands[c].order;
    var found := FindCommand(s.commands, order.run, order.issuer, order.key);
    assert IssuedAs(order, order.run, order.issuer, order.key);
    var d := found.value;
    var x, y := s.commands[if c < d then c else d].order, s.commands[if c < d then d else c].order;
    assert c != d ==> !IssuedAs(y, x.run, x.issuer, x.key);
  }

  lemma ReplaysCommand(s: Database, cfg: Config, throttled: bool, principal: Principal, request: CommandRequest, c: Id)
    requires request.body.target < |s.nodes|
    requires FindCommand(s.commands, s.nodes[request.body.target].reg.run, IssuerOf(principal), request.key) == Some(c)
    ensures var r := IssueCommand(s, cfg, throttled, principal, request);
      r.db == s && (r.out.Refused? || (s.commands[c].order.request == Digest(request) && r.out == Issued(c, true)))
  {
    hide NewCommand, RuntimeOf, AuthorityGuard;
  }

  // ---------------------------------------------------------------- reviews

  lemma ReviewReviews(s: Database, p: Id, authorization: Option<Authorization>, reviewer: string)
    ensures var r := Review(s, p, authorization, reviewer);
      if r.out == Reviewed then
        && p < |s.proposals| && s.proposals[p].status == ProposalPending && |r.db.proposals| == |s.proposals|
        && r.db.proposals[p].status == (if authorization.Some? then ProposalAccepted else ProposalRejected)
        && r.db.proposals[p].authorized == authorization
      else r.out.Refused? && r.db == s
  {
  }

  lemma LaterProposal(s: State, t: State, p: Id)
    requires Later(s, t) && p < |s.proposals|
    ensures p < |t.proposals| && ProposalMoves(s.proposals[p], t.proposals[p])
  {
    var proposal := t.proposals[p];
  }

  /** A command that names a proposal is what its review authorized. */
  lemma SourcedAsAuthorized(s: State, c: Id, p: Id)
    requires WellAuthorized(s) && c < |s.commands| && s.commands[c].order.sourceProposal == Some(p)
    ensures p < |s.proposals| && s.proposals[p].authorized == Some(s.commands[c].order.request.preimage.body)
  {
    assert RightlySourced(s, c);
  }

  /** A proposal is reviewed at most once: whatever happens after its review, any further review is
      refused and changes nothing, the proposal keeps the review's verdict, reviewer and
      authorization, and every command that ever names it has exactly the authorized body, so that a
      rejected proposal never leads to a command. */
  lemma ReviewedOnce(s: Database, cfg: Config, review: Event, between: seq<Event>, again: Event)
    requires Coherent(s) && review.op.OpReview? && Step(s, cfg, review).out == Reviewed
    requires again.op.OpReview? && again.op.proposal == review.op.proposal
    ensures var p, t := review.op.proposal, Step(s, cfg, review).db;
      var u := After(t, cfg, between);
      var r := Step(u, cfg, again);
      && p < |s.proposals| && p < |t.proposals| && p < |u.proposals|
      && s.proposals[p].status == ProposalPending
      && t.proposals[p].status == (if review.op.authorization.Some? then ProposalAccepted else ProposalRejected)
      && u.proposals[p] == t.proposals[p].(resultingCommand := u.proposals[p].resultingCommand)
      && r.out.Refused? && r.db == Tick(u, again)
      && (forall c | 0 <= c < |u.commands| && u.commands[c].order.sourceProposal == Some(p) ::
            review.op.authorization == Some(u.commands[c].order.request.preimage.body))
  {
    hide Coherent, Later, Review, WellAuthorized, Past, Evolves;
    var p, t := review.op.proposal, Step(s, cfg, review).db;
    var u := After(t, cfg, between);
    ReviewReviews(Tick(s, review), p, review.op.authorization, review.op.reviewer);
    StepCoherent(s, cfg, review);
    AfterLater(t, cfg, between);
    LaterProposal(t, u, p);
    ReviewReviews(Tick(u, again), p, again.op.authorization, again.op.reviewer);
    AuthorizedOf(u);
    forall c | 0 <= c < |u.commands| && u.commands[c].order.sourceProposal == Some(p)
      ensures review.op.authorization == Some(u.commands[c].order.request.preimage.body)
    {
      SourcedAsAuthorized(u, c, p);
    }
  }
}
