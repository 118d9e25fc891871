/** A node's standing, told from rows and commands alone, and what recording a loss of it changes. */
module Standing {
  import opened Options
  import opened Domain
  import opened Scopes
  import opened Tools
  import opened Transitions
  import opened Frames
  import opened Tree
  import opened Fences
  import opened Revocation
  import opened Attribution

  /** The run is running, the node works under a lease that has not run out, and no command targets it. */
  ghost predicate Live(s: Database, n: Id)
    requires n < |s.nodes|
  {
    var life := s.nodes[n].life;
    && s.runs[s.nodes[n].reg.run].status == RunRunning
    && (life.status == Active || life.status == Waiting)
    && life.lease.Some? && life.lease.value > s.clock
    && !Revoked(s, n)
  }

  /** Of the commands that target the node, this one's scope comes first in the node's snapshot. */
  ghost predicate Outermost(s: State, c: Id, n: Id)
    requires c < |s.commands| && n < |s.nodes|
  {
    var snapshot := s.nodes[n].reg.snapshot;
    && Targets(s, c, n)
    && exists i | 0 <= i < |snapshot| ::
         (&& snapshot[i].scope == s.commands[c].order.targetScope
          && forall j, d | 0 <= j < i && 0 <= d < |s.commands| :: snapshot[j].scope != s.commands[d].order.targetScope)
  }

  function ClosingCode(kind: CommandType): Code {
    match kind
    case CorrectSubtree => ScopeIsSuperseded
    case CancelSubtree => ScopeIsCancelled
    case CancelRun => ScopeIsCancelled
  }

  /** The reason that a node is not live: the first of its run, its status, its lease and its commands. */
  ghost predicate Barred(s: Database, n: Id, code: Code)
    requires n < |s.nodes|
  {
    if OwnBar(s, n).Some? then code == OwnBar(s, n).value else RevokedAs(s, n, code)
  }

  /** The reason that a node's run, its status or its lease gives, commands aside. */
  function OwnBar(s: Database, n: Id): Option<Code>
    requires n < |s.nodes|
  {
    var life := s.nodes[n].life;
    if s.runs[s.nodes[n].reg.run].status != RunRunning then Some(RunNotActive)
    else if life.status != Active && life.status != Waiting then Some(NodeNotActive)
    else if life.lease.None? || life.lease.value <= s.clock then Some(LeaseIsExpired)
    else None
  }

  ghost predicate RevokedAs(s: State, n: Id, code: Code)
    requires n < |s.nodes|
  {
    exists c | 0 <= c < |s.commands| :: Outermost(s, c, n) && code == ClosingCode(s.commands[c].order.kind)
  }

  /** What a node whose scopes were closed is taken to be: cancelled unless all its commands are corrections. */
  ghost function ClosedStatus(s: State, n: Id): NodeStatus
    requires n < |s.nodes|
  {
    if exists c | 0 <= c < |s.commands| :: Targets(s, c, n) && s.commands[c].order.kind != CorrectSubtree then Cancelled
    else Superseded
  }

  /** The latest command that targets the node, if any does. */
  ghost predicate Blamed(s: State, n: Id, blame: Option<Id>)
    requires n < |s.nodes|
  {
    match blame
    case None => !Revoked(s, n)
    case Some(c) => c < |s.commands| && Targets(s, c, n) && forall d | c < d < |s.commands| :: !Targets(s, d, n)
  }

  /** Exactly the acknowledgements by these nodes of the commands that target them are added, now. */
  ghost predicate AcksAdded(s: State, acks: map<AckKey, Ack>, ids: set<Id>, kind: AckKind)
    requires forall n | n in ids :: n < |s.nodes|
  {
    && (forall key: AckKey {:trigger key in acks} :: key in acks <==>
          || key in s.acks
          || (key.kind == kind && key.node in ids && key.command < |s.commands| && Targets(s, key.command, key.node)))
    && (forall key {:trigger acks[key]} | key in acks :: acks[key] == if key in s.acks then s.acks[key] else Ack(2, s.clock))
  }

  /** These nodes take the status and acknowledge their commands, and nothing else changes. */
  ghost predicate Marks(s: State, t: State, ids: set<Id>, status: NodeStatus, kind: AckKind) {
    && (forall n | n in ids :: n < |s.nodes|)
    && t == s.(nodes := t.nodes, acks := t.acks)
    && |t.nodes| == |s.nodes|
    && (forall n {:trigger t.nodes[n]} | 0 <= n < |s.nodes| ::
          t.nodes[n] == if n in ids then s.nodes[n].(life := s.nodes[n].life.(status := status)) else s.nodes[n])
    && AcksAdded(s, t.acks, ids, kind)
  }

  /** An unknown node and a wrong token are turned away, changing nothing. */
  predicate TurnsAway(s: Database, n: Id, token: Token, r: Reply) {
    && (n >= |s.nodes| ==> r == Reply(s, Refused(NotFound)))
    && (n < |s.nodes| && s.nodes[n].life.token != Some(token) ==> r == Reply(s, Refused(AuthenticationFailed)))
  }

  predicate Bears(s: Database, n: Id, token: Token) { n < |s.nodes| && s.nodes[n].life.token == Some(token) }

  function WithLife(s: State, n: Id, life: Life): State
    requires n < |s.nodes|
  {
    s.(nodes := s.nodes[n := s.nodes[n].(life := life)])
  }

  ghost function Among(ids: seq<Id>): set<Id> { set n | n in ids }

  // ---------------------------------------------------------------- the runtime check

  /** What the check finds about a scope of the snapshot: nothing unless a command closed it. */
  lemma ItemExactly(s: Database, n: Id, i: nat)
    requires WellTreed(s) && WellFenced(s) && n < |s.nodes| && i < |s.nodes[n].reg.snapshot|
    ensures var reg := s.nodes[n].reg; var m := MismatchOf(s.scopes, reg.run, reg.snapshot[i]);
      if m.None? then forall d | 0 <= d < |s.commands| :: reg.snapshot[i].scope != s.commands[d].order.targetScope
      else exists c | 0 <= c < |s.commands| ::
             (&& Targets(s, c, n) && reg.snapshot[i].scope == s.commands[c].order.targetScope
              && m.value.reason == ClosingCode(s.commands[c].order.kind))
  {
    hide WellTreed, WellFenced, Targets, FenceOf, MismatchOf;
    var reg := s.nodes[n].reg;
    var k := reg.snapshot[i].scope;
    SnapshotItem(s, n, i);
    ClosedScopeMismatches(s, reg.run, k);
    if FenceOf(s.commands, k).Some? {
      var c := FenceOf(s.commands, k).value;
      FenceStatus(s, k);
      FencedCommandRun(s, c);
      TargetedScope(s, c, n);
      assert Targets(s, c, n);
    }
  }

  lemma FenceStatus(s: Database, k: Id)
    requires WellFenced(s) && k < |s.scopes| && FenceOf(s.commands, k).Some?
    ensures s.scopes[k].status == FencedStatus(s.commands[FenceOf(s.commands, k).value].order.kind)
  {
    assert ScopeFenced(s, k);
  }

  lemma OutermostOf(s: Database, n: Id)
    requires WellTreed(s) && WellFenced(s) && n < |s.nodes| && EvaluationOf(s, n).mismatches != []
    ensures RevokedAs(s, n, EvaluationOf(s, n).mismatches[0].reason)
  {
    hide WellTreed, WellFenced, Targets, MismatchOf, ClosingCode;
    var reg := s.nodes[n].reg;
    var i := PrimaryIsOutermost(s.scopes, reg.run, reg.snapshot);
    ItemExactly(s, n, i);
    var c :| 0 <= c < |s.commands| && Targets(s, c, n) && reg.snapshot[i].scope == s.commands[c].order.targetScope
             && EvaluationOf(s, n).mismatches[0].reason == ClosingCode(s.commands[c].order.kind);
    forall j, d | 0 <= j < i && 0 <= d < |s.commands| ensures reg.snapshot[j].scope != s.commands[d].order.targetScope {
      ItemExactly(s, n, j);
    }
    assert Outermost(s, c, n);
  }

  /** The runtime check decides standing, with the first reason that bars the node. */
  lemma RuntimeExactly(s: Database, n: Id)
    requires WellTreed(s) && WellFenced(s) && n < |s.nodes|
    ensures RuntimeOf(s, n).allowed <==> Live(s, n)
    ensures RuntimeOf(s, n).allowed ==> RuntimeOf(s, n).reason.None?
    ensures !RuntimeOf(s, n).allowed ==> RuntimeOf(s, n).reason.Some? && Barred(s, n, RuntimeOf(s, n).reason.value)
  {
    hide Evaluate, Revoked, RevokedAs;
    LazyIsEager(s, n);
    if EvaluationOf(s, n).mismatches != [] {
      OutermostOf(s, n);
    }
  }

  /** The evaluation of a snapshot: allowed, and its status and reason otherwise. */
  lemma EvaluationExactly(s: Database, n: Id)
    requires WellTreed(s) && WellFenced(s) && n < |s.nodes|
    ensures EvaluationOf(s, n).allowed <==> !Revoked(s, n)
    ensures EvaluationOf(s, n).effective == if Revoked(s, n) then ClosedStatus(s, n) else Active
    ensures Revoked(s, n) ==>
      EvaluationOf(s, n).PrimaryReason().Some? && RevokedAs(s, n, EvaluationOf(s, n).PrimaryReason().value)
  {
    hide Targets, RevokedAs, Outermost;
    var ms := EvaluationOf(s, n).mismatches;
    LazyIsEager(s, n);
    assert s.nodes[n].reg.snapshot != [] by { assert NodeLinked(s, n); }
    if ms != [] {
      OutermostOf(s, n);
      forall i | 0 <= i < |ms| && Kills(ms[i]) ensures ClosedStatus(s, n) == Cancelled {
        MismatchIsClosed(s, n, ms[i]);
      }
      forall c | 0 <= c < |s.commands| && Targets(s, c, n) && s.commands[c].order.kind != CorrectSubtree
        ensures Effective(ms) == Cancelled
      {
        MismatchIsClosed(s, n, ClosedBy(s.commands[c].order));
        var i :| 0 <= i < |ms| && ms[i] == ClosedBy(s.commands[c].order);
        assert Kills(ms[i]);
      }
    }
  }

  /** The attribution ends with the latest of the commands that target the node. */
  lemma BlameExactly(s: Database, n: Id)
    requires WellTreed(s) && WellFenced(s) && n < |s.nodes|
    ensures Blamed(s, n, LastOf(AttributedTo(s, n)))
    ensures AttributedTo(s, n) != [] <==> Revoked(s, n)
  {
    hide EvaluationOf, Targets;
    var ids := AttributedTo(s, n);
    OutdatedIsAttributed(s, n);
    LazyIsEager(s, n);
    AttributedMembers(s.commands, EvaluationOf(s, n).mismatches, s.nodes[n].reg.run);
    if ids != [] {
      LastIsGreatest(ids);
      AttributedIsTargets(s, n, ids[|ids| - 1]);
      forall d | ids[|ids| - 1] < d < |s.commands| ensures !Targets(s, d, n) {
        AttributedIsTargets(s, n, d);
      }
    }
  }

  lemma LastIsGreatest(ids: seq<Id>)
    requires ids != [] && forall i, j | 0 <= i < j < |ids| :: ids[i] < ids[j]
    ensures forall d | d in ids :: d <= ids[|ids| - 1]
  {
    forall d | d in ids ensures d <= ids[|ids| - 1] {
      var i :| 0 <= i < |ids| && ids[i] == d;
    }
  }

  // ---------------------------------------------------------------- marking

  lemma AcknowledgesExactly(s: Database, n: Id, kind: AckKind)
    requires WellTreed(s) && WellFenced(s) && n < |s.nodes|
    ensures var t := Acknowledge(s, n, kind); t == s.(acks := t.acks) && AcksAdded(s, t.acks, {n}, kind)
  {
    hide EvaluationOf, Targets;
    var t := Acknowledge(s, n, kind);
    forall key: AckKey
      ensures key in t.acks <==>
        || key in s.acks
        || (key.kind == kind && key.node == n && key.command < |s.commands| && Targets(s, key.command, n))
      ensures key in t.acks ==> t.acks[key] == if key in s.acks then s.acks[key] else Ack(2, s.clock)
    {
      RecordAcksAdds(s.acks, s.commands, AttributedTo(s, n), n, kind, s.clock, key);
      AttributedIsTargets(s, n, key.command);
      assert key.command < |s.commands| ==> CommandFences(s, key.command);
    }
  }

  lemma MarkExactly(s: Database, n: Id, status: NodeStatus, kind: AckKind)
    requires WellTreed(s) && WellFenced(s) && n < |s.nodes|
    ensures Marks(s, SetStatus(Acknowledge(s, n, kind), n, status), {n}, status, kind)
    ensures Marks(s, Acknowledge(SetStatus(s, n, status), n, kind), {n}, status, kind)
  {
    hide Acknowledge, AcksAdded;
    AcknowledgesExactly(s, n, kind);
    SameAcknowledge(s, n, status, kind);
  }

  lemma SameAcknowledge(s: Database, n: Id, status: NodeStatus, kind: AckKind)
    requires n < |s.nodes|
    ensures n < |SetStatus(s, n, status).nodes|
    ensures Acknowledge(SetStatus(s, n, status), n, kind)
         == SetStatus(s, n, status).(acks := Acknowledge(s, n, kind).acks)
  {
    hide RecordAcks, Attributed;
  }
}
