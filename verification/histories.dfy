/** Theorems over whole runs: what no sequence of transactions can do. */
module Histories {
  import opened Options
  import opened Domain
  import opened Scopes
  import opened Tools
  import opened Transitions
  import opened Frames
  import opened Tree
  import opened Fences
  import opened Revocation
  import opened Lives
  import opened Credentials
  import opened Replacements
  import opened Admissions
  import opened Attribution
  import opened Authority
  import opened Coherence
  import opened Steps
  import opened Growth

  // ---------------------------------------------------------------- what every later state keeps

  /** A closed run stays as it is and gains no node, no command and no committed action. */
  ghost predicate StaysClosed(s: State, t: State, r: Id)
    requires r < |s.runs| && r < |t.runs|
  {
    Terminal(s.runs[r].status) ==>
      && t.runs[r] == s.runs[r]
      && (forall n | |s.nodes| <= n < |t.nodes| :: t.nodes[n].reg.run != r)
      && (forall c | |s.commands| <= c < |t.commands| :: t.commands[c].order.run != r)
      && (forall a | |s.attempts| <= a < |t.attempts| :: t.attempts[a].decision == Allow ==> t.attempts[a].run != r)
  }

  /** The past is never rewritten, and whatever is new happened after it. */
  ghost predicate Later(s: State, t: State) {
    && s.clock <= t.clock && Extends(s, t) && StaysActivated(s, t) && EnvelopesStay(s, t) && AcksGrow(s, t)
    && s.attempts <= t.attempts
    && KeepsRoots(s, t) && KeepsRows(s, t)
    && (forall r {:trigger t.runs[r]} | 0 <= r < |s.runs| :: StaysClosed(s, t, r))
    && (forall n {:trigger t.nodes[n]} | |s.nodes| <= n < |t.nodes| :: s.clock < t.nodes[n].reg.registeredAt)
    && (forall c {:trigger t.commands[c]} | |s.commands| <= c < |t.commands| :: s.clock < t.commands[c].order.createdAt)
    && (forall a {:trigger t.attempts[a]} | |s.attempts| <= a < |t.attempts| :: s.clock < t.attempts[a].attemptedAt)
  }

  lemma LaterRefl(s: State)
    ensures Later(s, s)
  {
    RowsRefl(s);
    forall r | 0 <= r < |s.runs| ensures StaysClosed(s, s, r) {
    }
  }

  lemma LaterTrans(s: State, t: State, u: State)
    requires Later(s, t) && Later(t, u)
    ensures Later(s, u)
  {
    hide StaysClosed, EnvelopesStay, KeepsRows;
    forall r | 0 <= r < |s.runs| ensures StaysClosed(s, u, r) {
      assert t.runs[r].root == s.runs[r].root && u.runs[r].root == t.runs[r].root;
      ClosedTrans(s, t, u, r);
    }
    forall n | 0 <= n < |s.nodes| ensures u.nodes[n].reg == s.nodes[n].reg {
      assert t.nodes[n].reg == s.nodes[n].reg;
    }
    forall n | 0 <= n < |s.nodes| && s.nodes[n].life.activatedAt.Some? ensures u.nodes[n].life.activatedAt.Some? {
      assert t.nodes[n].life.activatedAt.Some?;
    }
    forall r | 0 <= r < |s.runs| ensures u.runs[r].root == s.runs[r].root {
      assert t.runs[r].root == s.runs[r].root;
    }
    EnvelopesTrans(s, t, u);
    KeepsRowsTrans(s, t, u);
    LaterOrders(s, t, u);
  }

  lemma KeepsRowsTrans(s: State, t: State, u: State)
    requires KeepsRows(s, t) && KeepsRows(t, u)
    ensures KeepsRows(s, u)
  {
    forall k | 0 <= k < |s.scopes| ensures u.scopes[k].run == s.scopes[k].run && u.scopes[k].owner == s.scopes[k].owner {
      assert t.scopes[k].run == s.scopes[k].run;
    }
    forall p | 0 <= p < |s.proposals| ensures ProposalMoves(s.proposals[p], u.proposals[p]) {
      assert ProposalMoves(s.proposals[p], t.proposals[p]) && ProposalMoves(t.proposals[p], u.proposals[p]);
    }
  }

  lemma EnvelopesTrans(s: State, t: State, u: State)
    requires EnvelopesStay(s, t) && EnvelopesStay(t, u)
    ensures EnvelopesStay(s, u)
  {
    forall key | key in s.envelopes
      ensures key in u.envelopes && u.envelopes[key].subject == s.envelopes[key].subject
      ensures key in u.envelopes ==> u.envelopes[key].request == s.envelopes[key].request
    {
      assert key in t.envelopes && t.envelopes[key].subject == s.envelopes[key].subject;
    }
  }

  lemma ClosedTrans(s: State, t: State, u: State, r: Id)
    requires r < |s.runs| <= |t.runs| <= |u.runs| && |s.nodes| <= |t.nodes| <= |u.nodes|
    requires |s.commands| <= |t.commands| <= |u.commands| && s.attempts <= t.attempts <= u.attempts
    requires forall n {:trigger u.nodes[n]} | 0 <= n < |t.nodes| :: u.nodes[n].reg == t.nodes[n].reg
    requires forall c {:trigger u.commands[c]} | 0 <= c < |t.commands| :: u.commands[c].order == t.commands[c].order
    requires StaysClosed(s, t, r) && StaysClosed(t, u, r)
    ensures StaysClosed(s, u, r)
  {
  }

  lemma LaterOrders(s: State, t: State, u: State)
    requires Later(s, t) && Later(t, u)
    ensures forall c {:trigger u.commands[c]} | 0 <= c < |s.commands| :: u.commands[c].order == s.commands[c].order
    ensures forall n {:trigger u.nodes[n]} | |s.nodes| <= n < |u.nodes| :: s.clock < u.nodes[n].reg.registeredAt
    ensures forall c {:trigger u.commands[c]} | |s.commands| <= c < |u.commands| :: s.clock < u.commands[c].order.createdAt
    ensures forall a {:trigger u.attempts[a]} | |s.attempts| <= a < |u.attempts| :: s.clock < u.attempts[a].attemptedAt
  {
    hide StaysClosed, EnvelopesStay, KeepsRoots, StaysActivated, KeepsRows;
    forall c | 0 <= c < |s.commands| ensures u.commands[c].order == s.commands[c].order {
      assert t.commands[c].order == s.commands[c].order;
    }
    forall n | |s.nodes| <= n < |u.nodes| ensures s.clock < u.nodes[n].reg.registeredAt {
      if n < |t.nodes| { assert s.clock < t.nodes[n].reg.registeredAt; }
    }
    forall c | |s.commands| <= c < |u.commands| ensures s.clock < u.commands[c].order.createdAt {
      if c < |t.commands| { assert s.clock < t.commands[c].order.createdAt; }
    }
    forall a | |s.attempts| <= a < |u.attempts| ensures s.clock < u.attempts[a].attemptedAt {
      if a < |t.attempts| { assert s.clock < t.attempts[a].attemptedAt; }
    }
  }

  lemma EvolvesClosed(s: Database, t: State, r: Id)
    requires Evolves(s, t) && r < |s.runs| && WellAdmitted(t)
    ensures r < |t.runs| && StaysClosed(s, t, r)
  {
    hide Ages, Extends;
    assert RunMoves(s.runs[r], t.runs[r], s.clock);
    if Terminal(s.runs[r].status) {
      forall n | |s.nodes| <= n < |t.nodes| ensures t.nodes[n].reg.run != r {
        assert JoinsLive(s, t, n);
      }
      forall c | |s.commands| <= c < |t.commands| ensures t.commands[c].order.run != r {
        assert OrdersLive(s, t.commands[c].order);
      }
      forall a | |s.attempts| <= a < |t.attempts| && t.attempts[a].decision == Allow ensures t.attempts[a].run != r {
        assert ActsLive(s, t.attempts[a]) && AttemptAdmitted(t, a);
        EvolvesKeepsRun(s, t, t.attempts[a].node);
      }
    }
  }

  lemma EvolvesKeepsRun(s: Database, t: State, n: Id)
    requires Evolves(s, t) && n < |s.nodes|
    ensures t.nodes[n].reg == s.nodes[n].reg
  {
  }

  lemma EvolvesLater(s: Database, e: Event, t: State)
    requires Evolves(Tick(s, e), t) && WellAdmitted(t)
    ensures Later(s, t)
  {
    hide Ages, StaysClosed, WellAdmitted, KeepsRows;
    var u := Tick(s, e);
    KeepsRowsIgnoresClock(u, s, t);
    forall r | 0 <= r < |s.runs| ensures StaysClosed(s, t, r) && t.runs[r].root == s.runs[r].root {
      EvolvesClosed(u, t, r);
      assert StaysClosed(u, t, r) == StaysClosed(s, t, r) by { ClosedIgnoresClock(u, s, t, r); }
      assert RunMoves(u.runs[r], t.runs[r], u.clock);
    }
    AgesActivated(u, t);
    forall n | |s.nodes| <= n < |t.nodes| ensures s.clock < t.nodes[n].reg.registeredAt {
      assert JoinsLive(u, t, n);
    }
    forall c | |s.commands| <= c < |t.commands| ensures s.clock < t.commands[c].order.createdAt {
      assert OrdersLive(u, t.commands[c].order);
    }
    forall a | |s.attempts| <= a < |t.attempts| ensures s.clock < t.attempts[a].attemptedAt {
      assert ActsLive(u, t.attempts[a]);
    }
  }

  lemma KeepsRowsIgnoresClock(u: State, s: State, t: State)
    requires u == s.(clock := u.clock) && KeepsRows(u, t)
    ensures KeepsRows(s, t)
  {
  }

  lemma ClosedIgnoresClock(u: State, s: State, t: State, r: Id)
    requires u == s.(clock := u.clock) && r < |s.runs| && r < |t.runs|
    ensures StaysClosed(u, t, r) == StaysClosed(s, t, r)
  {
  }

  lemma AdmittedOf(s: State)
    requires Coherent(s)
    ensures WellAdmitted(s) && WellTreed(s) && WellFenced(s) && WellJoined(s) && WellSealed(s)
  {
  }

  lemma {:induction false} AfterLater(s: Database, cfg: Config, events: seq<Event>)
    requires Coherent(s)
    ensures Later(s, After(s, cfg, events)) && Coherent(After(s, cfg, events))
    decreases |events|
  {
    hide Coherent, Step, Later, Evolves, Past, WellAdmitted, WellTreed, WellFenced, WellJoined, WellSealed;
    if events == [] {
      LaterRefl(s);
    } else {
      var t := Step(s, cfg, events[0]).db;
      StepCoherent(s, cfg, events[0]);
      AdmittedOf(t);
      EvolvesLater(s, events[0], t);
      AfterLater(t, cfg, events[1..]);
      LaterTrans(s, t, After(t, cfg, events[1..]));
    }
  }

  // ---------------------------------------------------------------- the whole-run fence

  /** After a command has committed, no node it targets ever commits another action, and no node
      ever joins what it targets. */
  lemma WholeRunFence(s: Database, cfg: Config, events: seq<Event>, c: Id)
    requires Coherent(s) && c < |s.commands|
    ensures var t := After(s, cfg, events);
      && c < |t.commands|
      && (forall a | |s.attempts| <= a < |t.attempts| ::
            t.attempts[a].node < |t.nodes|
            && (Targets(t, c, t.attempts[a].node) ==> t.attempts[a].decision == Deny))
      && (forall n | 0 <= n < |t.nodes| :: Targets(t, c, n) ==> n < |s.nodes| && Targets(s, c, n))
  {
    hide Coherent, WellSealed, WellTreed;
    var t := After(s, cfg, events);
    AfterLater(s, cfg, events);
    AdmittedOf(t);
    AdmittedOf(s);
    assert CommandFences(s, c);
    forall a | |s.attempts| <= a < |t.attempts|
      ensures t.attempts[a].node < |t.nodes|
      ensures Targets(t, c, t.attempts[a].node) ==> t.attempts[a].decision == Deny
    {
      assert AttemptAdmitted(t, a);
      assert t.commands[c].order == s.commands[c].order;
    }
    forall n | 0 <= n < |t.nodes| && Targets(t, c, n) ensures n < |s.nodes| && Targets(s, c, n) {
      assert t.nodes[n].reg.registeredAt < t.commands[c].order.createdAt;
      if n < |s.nodes| { TargetsFrame(s, t, c, n); }
    }
  }

  /** Rows stay, and each keeps the run it belongs to: a sequence row by its own column, a keyed row
      because its key stays and names a node, a command or a run. */
  ghost predicate KeepsRuns(s: State, t: State) {
    && |s.nodes| <= |t.nodes| && |s.scopes| <= |t.scopes| && |s.proposals| <= |t.proposals|
    && |s.commands| <= |t.commands| && |s.attempts| <= |t.attempts|
    && (forall n | 0 <= n < |s.nodes| :: t.nodes[n].reg.run == s.nodes[n].reg.run)
    && (forall k | 0 <= k < |s.scopes| :: t.scopes[k].run == s.scopes[k].run)
    && (forall p | 0 <= p < |s.proposals| :: t.proposals[p].payload.run == s.proposals[p].payload.run)
    && (forall c | 0 <= c < |s.commands| :: t.commands[c].order.run == s.commands[c].order.run)
    && (forall a | 0 <= a < |s.attempts| :: t.attempts[a].run == s.attempts[a].run)
    && (forall n | n in s.intents :: n in t.intents && n < |s.nodes|)
    && (forall key | key in s.acks :: key in t.acks && key.command < |s.commands|)
    && (forall key | key in s.matches :: key in t.matches && key.command < |s.commands|)
    && (forall key | key in s.services :: key in t.services)
  }

  /** No row of the registry's proof tables ever moves to another run. */
  lemma RowsKeepTheirRun(s: Database, cfg: Config, events: seq<Event>)
    requires Coherent(s)
    ensures KeepsRuns(s, After(s, cfg, events))
  {
    hide Coherent;
    AfterLater(s, cfg, events);
    KeysInRange(s);
    LaterKeepsRuns(s, After(s, cfg, events));
  }

  lemma KeysInRange(s: State)
    requires Coherent(s)
    ensures forall n | n in s.intents :: n < |s.nodes|
    ensures forall key | key in s.acks :: key.command < |s.commands|
    ensures forall key | key in s.matches :: key.command < |s.commands|
  {
    forall key | key in s.acks ensures key.command < |s.commands| {
      assert AckRight(s, key);
    }
    forall key | key in s.matches ensures key.command < |s.commands| {
      assert MatchRight(s, key);
    }
  }

  lemma LaterKeepsRuns(s: State, t: State)
    requires Later(s, t)
    requires forall n | n in s.intents :: n < |s.nodes|
    requires forall key | key in s.acks :: key.command < |s.commands|
    requires forall key | key in s.matches :: key.command < |s.commands|
    ensures KeepsRuns(s, t)
  {
    forall p | 0 <= p < |s.proposals| ensures t.proposals[p].payload.run == s.proposals[p].payload.run {
      assert ProposalMoves(s.proposals[p], t.proposals[p]);
    }
  }

  // ---------------------------------------------------------------- authority is never regained

  /** One transaction cannot revive an activated node that is not live. */
  lemma DeadStaysDead(s: Database, t: Database, n: Id)
    requires WellTreed(s) && WellFenced(s) && WellTreed(t) && WellFenced(t)
    requires Lived(s) && Evolves(s, t) && n < |s.nodes|
    requires s.nodes[n].life.activatedAt.Some? && !RuntimeOf(s, n).allowed
    ensures t.nodes[n].life.activatedAt.Some? && !RuntimeOf(t, n).allowed
  {
    hide WellTreed, WellFenced, Evaluate;
    assert NodeAges(s, t, n) && LifeShape(s.nodes[n].life);
    assert t.nodes[n].reg == s.nodes[n].reg;
    assert RunMoves(s.runs[s.nodes[n].reg.run], t.runs[s.nodes[n].reg.run], s.clock);
    LazyIsEager(s, n);
    LazyIsEager(t, n);
    if Revoked(s, n) { RevokedStays(s, t, n); }
  }

  /** Time passing revives nothing either. */
  lemma TickKillsOnly(s: Database, e: Event, n: Id)
    requires n < |s.nodes| && !RuntimeOf(s, n).allowed
    ensures !RuntimeOf(Tick(s, e), n).allowed
  {
  }

  /** Authority once lost is lost in every later state, whatever services are called. */
  lemma {:induction false} AuthorityNeverRegained(s: Database, cfg: Config, events: seq<Event>, n: Id)
    requires Coherent(s) && n < |s.nodes| && s.nodes[n].life.activatedAt.Some? && !RuntimeOf(s, n).allowed
    ensures n < |After(s, cfg, events).nodes| && !RuntimeOf(After(s, cfg, events), n).allowed
    decreases |events|
  {
    hide Coherent, Step, Evolves, RuntimeOf, Past, WellTreed, WellFenced, Lived;
    if events != [] {
      var u := Tick(s, events[0]);
      var t := Step(s, cfg, events[0]).db;
      StepCoherent(s, cfg, events[0]);
      TickKillsOnly(s, events[0], n);
      LifeTicks(s, events[0], n);
      DeadStaysDead(u, t, n) by { CoreOf(u); CoreOf(t); }
      EvolvesExtends(u, t);
      AuthorityNeverRegained(t, cfg, events[1..], n);
    }
  }

  lemma LifeTicks(s: Database, e: Event, n: Id)
    requires n < |s.nodes|
    ensures |Tick(s, e).nodes| == |s.nodes| && Tick(s, e).nodes[n] == s.nodes[n]
  {
  }

  lemma CoreOf(s: State)
    requires Coherent(s)
    ensures WellTreed(s) && WellFenced(s) && Lived(s)
  {
  }

  lemma EvolvesExtends(s: Database, t: State)
    requires Evolves(s, t)
    ensures Extends(s, t)
  {
  }

  // ---------------------------------------------------------------- run lifecycle

  /** A run closes at most once; a closed run keeps its status and finish time and gains nothing. */
  lemma RunClosesOnce(s: Database, cfg: Config, events: seq<Event>, r: Id)
    requires Coherent(s) && r < |s.runs|
    ensures r < |After(s, cfg, events).runs| && StaysClosed(s, After(s, cfg, events), r)
  {
    hide Coherent, StaysClosed;
    AfterLater(s, cfg, events);
    var t := After(s, cfg, events);
    assert t.runs[r].root == s.runs[r].root;
  }

  /** A run is cancelled exactly when its scope is. */
  lemma CancelledWithItsScope(s: Database, r: Id)
    requires Coherent(s) && r < |s.runs|
    ensures s.runs[r].runScope < |s.scopes|
    ensures s.runs[r].status == RunCancelled <==> s.scopes[s.runs[r].runScope].status == ScopeCancelled
    ensures s.runs[r].status == RunCancelled
            <==> exists c | 0 <= c < |s.commands| :: s.commands[c].order.kind == CancelRun && s.commands[c].order.run == r
  {
    hide WellJoined, Lived, WellSealed, WellReplaced, WellAdmitted, WellAcked, WellMatched, WellAuthorized;
    assert RunFenced(s, r) && RunRooted(s, r) && ScopeFenced(s, s.runs[r].runScope);
    FencedRunScope(s, r);
    var f := FenceOf(s.commands, s.runs[r].runScope);
    if f.Some? {
      assert CommandFences(s, f.value);
      var order := s.commands[f.value].order;
      assert NodeLinked(s, order.target);
    }
  }
}
