/** The invariant of the whole registry, and what one transaction may do to it. */
module Coherence {
  import opened Options
  import opened Domain
  import opened Scopes
  import opened Tools
  import opened Transitions
  import opened Frames
  import opened Tree
  import opened Fences
  import opened Revocation
  import opened Lives
  import opened Credentials
  import opened Replacements
  import opened Admissions
  import opened Conservation
  import opened Attribution
  import opened Authority

  ghost predicate Coherent(s: State) {
    && WellTreed(s) && WellFenced(s) && WellJoined(s)
    && Lived(s) && WellSealed(s) && WellReplaced(s)
    && WellAdmitted(s) && Balanced(s.attempts, s.services)
    && WellAcked(s) && WellMatched(s) && WellAuthorized(s)
  }

  /** Everything on record happened in an earlier transaction. */
  ghost predicate Past(s: State) {
    && (forall n {:trigger s.nodes[n]} | 0 <= n < |s.nodes| :: s.nodes[n].reg.registeredAt < s.clock)
    && (forall c {:trigger s.commands[c]} | 0 <= c < |s.commands| :: s.commands[c].order.createdAt < s.clock)
    && (forall a {:trigger s.attempts[a]} | 0 <= a < |s.attempts| :: s.attempts[a].attemptedAt < s.clock)
  }

  lemma TickCoherent(s: Database, e: Event)
    requires Coherent(s)
    ensures Coherent(Tick(s, e)) && Past(Tick(s, e))
  {
    hide NodeReplaces, CommandReplaces, RightlyIssued, RightlySourced, EnvelopeSound, IntentMatches, DenialRight;
    var t := Tick(s, e);
    TreeFrame(s, t);
    GrowFenced(s, t);
    JoinedFrame(s, t);
    TickRows(s, t);
    AdmittedFrame(s, t) by { CausesInRange(s); }
    AckedFrame(s, t);
    MatchedFrame(s, t) by { ActorsInRange(s); }
    AuthorizedFrame(s, t);
    TickPast(s, t);
  }

  lemma TickRows(s: Database, t: State)
    requires t == s.(clock := t.clock) && Lived(s) && WellSealed(s) && WellReplaced(s)
    ensures Lived(t) && WellSealed(t) && WellReplaced(t)
  {
    SealedFrame(s, t);
    ReplacedFrame(s, t);
    forall n | 0 <= n < |t.nodes| ensures LifeShape(t.nodes[n].life) && IntentMatches(t, n) {
      assert IntentMatches(s, n);
    }
  }

  lemma TickPast(s: Database, t: State)
    requires Coherent(s) && t == s.(clock := t.clock) && s.clock < t.clock
    ensures Past(t)
  {
    forall n | 0 <= n < |t.nodes| ensures t.nodes[n].reg.registeredAt < t.clock {
      assert NodeLinked(s, n);
    }
    forall c | 0 <= c < |t.commands| ensures t.commands[c].order.createdAt < t.clock {
      assert CommandFences(s, c);
    }
    forall a | 0 <= a < |t.attempts| ensures t.attempts[a].attemptedAt < t.clock {
      assert AttemptAdmitted(s, a);
    }
  }

  lemma CausesInRange(s: State)
    requires WellReplaced(s)
    ensures forall n {:trigger s.nodes[n]} | 0 <= n < |s.nodes| ::
      s.nodes[n].reg.causedBy.Some? ==> s.nodes[n].reg.causedBy.value < |s.commands|
  {
    forall n | 0 <= n < |s.nodes| && s.nodes[n].reg.causedBy.Some?
      ensures s.nodes[n].reg.causedBy.value < |s.commands|
    {
      assert NodeReplaces(s, n);
    }
  }

  lemma ActorsInRange(s: State)
    requires WellAdmitted(s)
    ensures forall a {:trigger s.attempts[a]} | 0 <= a < |s.attempts| :: s.attempts[a].node < |s.nodes|
  {
    forall a | 0 <= a < |s.attempts| ensures s.attempts[a].node < |s.nodes| {
      assert AttemptAdmitted(s, a);
    }
  }

  // ---------------------------------------------------------------- what a transaction may do

  /** A run keeps its root and scope, and is closed at most once, now. */
  predicate RunMoves(a: Run, b: Run, now: Time) {
    a == b || (a.status == RunRunning && Terminal(b.status)
               && b == a.(status := b.status, finishedAt := Some(now)))
  }

  /** The correction has no replacement yet, or its last one lapsed before activation. */
  predicate PermitsAttempt(s: Database, command: Command) {
    command.replacementNode.None? || RetryAllowed(s, command)
  }

  /** A node registers now, below a parent that is live, or as the root of a run created now; as a
      replacement it needs a correction that permits another attempt. */
  ghost predicate JoinsLive(s: Database, t: State, n: Id)
    requires n < |t.nodes|
  {
    var reg := t.nodes[n].reg;
    && reg.registeredAt == s.clock
    && (reg.causedBy.Some? ==>
          reg.causedBy.value < |s.commands| && PermitsAttempt(s, s.commands[reg.causedBy.value]))
    && if reg.parent.None? then reg.run >= |s.runs|
       else reg.parent.value < |s.nodes| && reg.run == s.nodes[reg.parent.value].reg.run
            && RuntimeOf(s, reg.parent.value).allowed
  }

  /** A command commits now, in a running run, from a human or a live agent. */
  ghost predicate OrdersLive(s: Database, order: Order) {
    && order.createdAt == s.clock
    && order.run < |s.runs| && s.runs[order.run].status == RunRunning
    && (order.issuer.AgentIssuer? ==>
          order.issuer.node < |s.nodes| && RuntimeOf(s, order.issuer.node).allowed)
  }

  /** An action is attempted now, and it commits only for a live node. */
  ghost predicate ActsLive(s: Database, x: Attempt) {
    && x.attemptedAt == s.clock && x.node < |s.nodes|
    && (x.decision == Allow ==> RuntimeOf(s, x.node).allowed)
  }

  ghost predicate EnvelopesStay(s: State, t: State) {
    forall key | key in s.envelopes ::
      key in t.envelopes && t.envelopes[key].subject == s.envelopes[key].subject
      && t.envelopes[key].request == s.envelopes[key].request
  }

  /** A proposal keeps its payload; once reviewed it changes only by getting its one result. */
  predicate ProposalMoves(a: Proposal, b: Proposal) {
    && b.payload == a.payload
    && (a.status != ProposalPending ==> b == a.(resultingCommand := b.resultingCommand))
    && (a.resultingCommand.Some? ==> b.resultingCommand == a.resultingCommand)
  }

  /** Scopes keep run and owner, proposals move on, and keyed rows keep their keys. */
  ghost predicate KeepsRows(s: State, t: State) {
    && |s.scopes| <= |t.scopes| && |s.proposals| <= |t.proposals|
    && (forall k {:trigger t.scopes[k]} | 0 <= k < |s.scopes| ::
          t.scopes[k].run == s.scopes[k].run && t.scopes[k].owner == s.scopes[k].owner)
    && (forall p {:trigger t.proposals[p]} | 0 <= p < |s.proposals| :: ProposalMoves(s.proposals[p], t.proposals[p]))
    && s.intents.Keys <= t.intents.Keys && s.matches.Keys <= t.matches.Keys && s.services.Keys <= t.services.Keys
  }

  ghost predicate Evolves(s: Database, t: State) {
    && t.clock == s.clock && KeepsRows(s, t)
    && Extends(s, t) && Ages(s, t) && EnvelopesStay(s, t) && AcksGrow(s, t)
    && |s.runs| <= |t.runs|
    && (forall r {:trigger t.runs[r]} | 0 <= r < |s.runs| :: RunMoves(s.runs[r], t.runs[r], s.clock))
    && (forall n {:trigger t.nodes[n]} | |s.nodes| <= n < |t.nodes| :: JoinsLive(s, t, n))
    && (forall c {:trigger t.commands[c]} | |s.commands| <= c < |t.commands| :: OrdersLive(s, t.commands[c].order))
    && s.attempts <= t.attempts
    && (forall a {:trigger t.attempts[a]} | |s.attempts| <= a < |t.attempts| :: ActsLive(s, t.attempts[a]))
  }

  lemma SameEvolves(s: Database, t: State)
    requires t.clock == s.clock && t.runs == s.runs && t.nodes == s.nodes && t.commands == s.commands
    requires t.attempts == s.attempts && t.acks == s.acks && t.envelopes == s.envelopes && t.intents == s.intents
    requires KeepsRows(s, t)
    ensures Evolves(s, t)
  {
    AgesRefl(s);
    AgesElsewhere(s, s, t);
  }

  // ---------------------------------------------------------------- steps that register and command nothing

  lemma AgesActivated(s: Database, t: State)
    requires Ages(s, t)
    ensures StaysActivated(s, t)
  {
    forall n | 0 <= n < |s.nodes| && s.nodes[n].life.activatedAt.Some? ensures t.nodes[n].life.activatedAt.Some? {
      assert NodeAges(s, t, n);
    }
  }

  lemma CalmStructure(s: Database, t: State)
    requires WellTreed(s) && WellFenced(s) && WellJoined(s) && WellAuthorized(s)
    requires Calm(s, t) && t.proposals == s.proposals
    ensures WellTreed(t) && WellFenced(t) && WellJoined(t) && WellAuthorized(t) && Extends(s, t)
  {
    hide RightlyIssued, RightlySourced, ProposalBound, CommandFences, ScopeFenced, NodeLinked;
    CalmSameTree(s, t);
    TreeFrame(s, t);
    CalmFenced(s, t);
    JoinedFrame(s, t);
    AuthorizedFrame(s, t);
  }

  lemma CalmEvolves(s: Database, t: State)
    requires Calm(s, t) && Ages(s, t) && EnvelopesStay(s, t) && AcksGrow(s, t) && s.attempts <= t.attempts
    requires KeepsRows(s, t)
    requires forall a {:trigger t.attempts[a]} | |s.attempts| <= a < |t.attempts| :: ActsLive(s, t.attempts[a])
    ensures Evolves(s, t)
  {
    hide Ages;
    forall r | 0 <= r < |s.runs| ensures RunMoves(s.runs[r], t.runs[r], s.clock) {
      assert RunKept(s.runs[r], t.runs[r], s.clock);
    }
  }

  lemma QuietRows(s: State, t: State)
    requires Quiet(s, t) && t.intents.Keys == s.intents.Keys
    ensures KeepsRows(s, t)
  {
  }

  lemma RowsRefl(s: State)
    ensures KeepsRows(s, s)
  {
  }

  lemma QuietCoherent(s: Database, t: State)
    requires Coherent(s) && Past(s) && Quiet(s, t) && Ages(s, t) && EnvelopesStay(s, t)
    requires t.intents.Keys == s.intents.Keys && Acknowledges(s, t) && WellSealed(t) && WellReplaced(t)
    ensures Coherent(t) && Evolves(s, t)
  {
    hide Ages, WellSealed, WellReplaced, WellTreed, WellFenced, WellJoined, WellAuthorized, Lived, Balanced,
         WellAdmitted, WellMatched, WellAcked;
    assert Attributable(s);
    CalmStructure(s, t);
    AgesLived(s, t);
    AgesActivated(s, t);
    CausesInRange(s);
    AdmittedFrame(s, t);
    ActorsInRange(s);
    MatchedFrame(s, t);
    QuietRows(s, t);
    CalmEvolves(s, t);
  }
}
