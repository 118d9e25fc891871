/** The proof builder and the invariant auditor: their own notions of the affected nodes, and what
    they find in every coherent registry. */
module Audit {
  import opened Options
  import opened Domain
  import opened Scopes
  import opened Tools
  import opened Lineage
  import opened Transitions
  import opened Tree
  import opened Fences
  import opened Revocation
  import opened Lives
  import opened Admissions
  import opened Attribution
  import opened Coherence
  import opened Steps

  // ---------------------------------------------------------------- three definitions of "affected"

  /** The proof builder's: the parent-link walk over the nodes registered by the command's time. */
  ghost predicate WalkAffected(s: State, c: Id, n: Id)
    requires c < |s.commands|
  {
    var order := s.commands[c].order;
    var parents := ParentsOf(s.nodes, order.run, Some(order.createdAt));
    n in parents && (order.kind == CancelRun || (order.target in parents && Reaches(parents, order.target, n)))
  }

  /** The auditor's: the target scope occurs in the node's snapshot at the version before the command. */
  predicate SnapshotAffected(order: Order, reg: Registration) {
    && reg.registeredAt <= order.createdAt
    && (order.kind == CancelRun
        || exists i | 0 <= i < |reg.snapshot| ::
             reg.snapshot[i].scope == order.targetScope && reg.snapshot[i].version == order.fromVersion)
  }

  lemma {:induction false} CutWalk(s: Database, before: Time, ancestor: Id, n: Id)
    requires WellTreed(s) && n < |s.nodes| && s.nodes[n].reg.registeredAt <= before
    ensures Reaches(ParentsOf(s.nodes, s.nodes[n].reg.run, Some(before)), ancestor, n) <==> Under(s.nodes, ancestor, n)
    decreases n
  {
    var parents := ParentsOf(s.nodes, s.nodes[n].reg.run, Some(before));
    ReachesUnfold(parents, ancestor, n);
    assert NodeLinked(s, n);
    if s.nodes[n].reg.parent.Some? {
      CutWalk(s, before, ancestor, s.nodes[n].reg.parent.value);
    }
  }

  /** The walk cut at command time, the auditor's snapshot test and the current full subtree agree. */
  lemma AffectedAgree(s: Database, c: Id, n: Id)
    requires Coherent(s) && c < |s.commands| && n < |s.nodes| && s.nodes[n].reg.run == s.commands[c].order.run
    ensures WalkAffected(s, c, n) <==> Targets(s, c, n)
    ensures SnapshotAffected(s.commands[c].order, s.nodes[n].reg) <==> Targets(s, c, n)
  {
    hide WellAdmitted, WellMatched, WellAcked;
    var order := s.commands[c].order;
    var reg := s.nodes[n].reg;
    assert CommandFences(s, c);
    TargetedScope(s, c, n);
    assert Targets(s, c, n) ==> reg.registeredAt < order.createdAt;
    if reg.registeredAt <= order.createdAt { CutWalk(s, order.createdAt, order.target, n); }
    if order.kind != CancelRun && SnapshotAffected(order, reg) {
      var i :| 0 <= i < |reg.snapshot| && reg.snapshot[i].scope == order.targetScope
               && reg.snapshot[i].version == order.fromVersion;
      assert reg.snapshot[i] == Snap(order.targetScope, 1);
    }
    if order.kind != CancelRun && Targets(s, c, n) {
      var i :| 0 <= i < |reg.snapshot| && reg.snapshot[i] == Snap(order.targetScope, 1);
      assert order.target in ParentsOf(s.nodes, order.run, Some(order.createdAt));
    }
    if order.kind == CancelRun { assert Targets(s, c, n); }
  }

  /** The walk never leaves the command's run. */
  lemma WalkStaysInRun(s: State, c: Id, n: Id)
    requires c < |s.commands| && WalkAffected(s, c, n)
    ensures n < |s.nodes| && s.nodes[n].reg.run == s.commands[c].order.run
  {
  }

  /** The proof builder's list of affected nodes. */
  method AffectedNodes(s: Database, c: Id) returns (affected: seq<Id>)
    requires c < |s.commands|
    ensures forall n: Id :: n in affected <==> WalkAffected(s, c, n)
    ensures forall i, j | 0 <= i < j < |affected| :: affected[i] != affected[j]
  {
    var order := s.commands[c].order;
    if order.kind == CancelRun {
      affected := [];
      for n := 0 to |s.nodes|
        invariant forall m: Id :: m in affected <==> m < n && WalkAffected(s, c, m)
        invariant forall i, j | 0 <= i < j < |affected| :: affected[i] != affected[j]
      {
        assert WalkAffected(s, c, n)
            <==> s.nodes[n].reg.run == order.run && s.nodes[n].reg.registeredAt <= order.createdAt;
        if s.nodes[n].reg.run == order.run && s.nodes[n].reg.registeredAt <= order.createdAt {
          affected := affected + [n];
        }
      }
    } else {
      affected := DescendantsIncludingSelf(s.nodes, order.run, order.target, Some(order.createdAt));
    }
  }

  // ---------------------------------------------------------------- the control proof

  datatype Class =
    | CompletedBeforeCommand | ConvergedBeforeCommand | AcknowledgedCommand | BlockedAtGateway | LeaseRanOut

  /** Another command's acknowledgement by this node, observed by the command's time. */
  predicate AckedBefore(s: State, c: Id, n: Id)
    requires c < |s.commands|
  {
    exists key | key in s.acks ::
      key.node == n && key.command != c && s.acks[key].observedAt <= s.commands[c].order.createdAt
  }

  predicate BlockedAction(s: State, c: Id, a: Id)
    requires c < |s.commands| && a < |s.attempts|
  {
    var x := s.attempts[a];
    x.attemptedAt >= s.commands[c].order.createdAt && x.decision == Deny && x.reason.Some? && StaleReason(x.reason.value)
    && MatchKey(a, c) in s.matches
  }

  /** How the proof accounts for an affected node; nothing means unclassified. */
  function Classify(s: State, c: Id, n: Id): Option<Class>
    requires c < |s.commands| && n < |s.nodes|
  {
    var life, at := s.nodes[n].life, s.commands[c].order.createdAt;
    if life.completedAt.Some? && life.completedAt.value <= at then Some(CompletedBeforeCommand)
    else if AckedBefore(s, c, n) && Settled(life.status) then Some(ConvergedBeforeCommand)
    else if AckKey(c, n, CooperativeAck) in s.acks then Some(AcknowledgedCommand)
    else if || AckKey(c, n, GatewayBlockAck) in s.acks
            || exists a | 0 <= a < |s.attempts| :: s.attempts[a].node == n && BlockedAction(s, c, a)
    then Some(BlockedAtGateway)
    else if || AckKey(c, n, LeaseExpiredAck) in s.acks || life.status == LeaseExpired
            || (life.lease.Some? && life.lease.value <= s.clock)
    then Some(LeaseRanOut)
    else None
  }

  /** What on record puts a node into a class, whatever else is on record. */
  ghost predicate Evidence(s: State, c: Id, n: Id, k: Class)
    requires c < |s.commands| && n < |s.nodes|
  {
    var life, at := s.nodes[n].life, s.commands[c].order.createdAt;
    match k
    case CompletedBeforeCommand => life.completedAt.Some? && life.completedAt.value <= at
    case ConvergedBeforeCommand =>
      && AckedBefore(s, c, n)
      && life.status != Pending && life.status != Active && life.status != Waiting
    case AcknowledgedCommand => AckKey(c, n, CooperativeAck) in s.acks
    case BlockedAtGateway =>
      || AckKey(c, n, GatewayBlockAck) in s.acks
      || exists a | 0 <= a < |s.attempts| ::
           (&& s.attempts[a].node == n && MatchKey(a, c) in s.matches && s.attempts[a].attemptedAt >= at
            && s.attempts[a].decision == Deny && s.attempts[a].reason.Some?
            && s.attempts[a].reason.value in {ScopeIsCancelled, ScopeIsSuperseded, ScopeVersionMismatch})
    case LeaseRanOut =>
      || AckKey(c, n, LeaseExpiredAck) in s.acks || life.status == LeaseExpired
      || (life.lease.Some? && life.lease.value <= s.clock)
  }

  /** The precedence of the classes. */
  function Rank(k: Class): nat {
    match k
    case CompletedBeforeCommand => 0
    case ConvergedBeforeCommand => 1
    case AcknowledgedCommand => 2
    case BlockedAtGateway => 3
    case LeaseRanOut => 4
  }

  /** A node counts in the first class that it has evidence for. */
  ghost predicate Accounted(s: State, c: Id, n: Id, k: Class)
    requires c < |s.commands| && n < |s.nodes|
  {
    Evidence(s, c, n, k) && forall j: Class | Rank(j) < Rank(k) :: !Evidence(s, c, n, j)
  }

  lemma ClassifyExactly(s: State, c: Id, n: Id, k: Class)
    requires c < |s.commands| && n < |s.nodes|
    ensures Classify(s, c, n) == Some(k) <==> Accounted(s, c, n, k)
    ensures Classify(s, c, n).None? ==> !Evidence(s, c, n, k)
  {
    hide AckedBefore;
    BlockedExactly(s, c, n);
    FirstOfFive(s, c, n, k);
  }

  lemma FirstOfFive(s: State, c: Id, n: Id, k: Class)
    requires c < |s.commands| && n < |s.nodes|
    ensures Accounted(s, c, n, k) <==>
      && Evidence(s, c, n, k)
      && (Rank(k) > 0 ==> !Evidence(s, c, n, CompletedBeforeCommand))
      && (Rank(k) > 1 ==> !Evidence(s, c, n, ConvergedBeforeCommand))
      && (Rank(k) > 2 ==> !Evidence(s, c, n, AcknowledgedCommand))
      && (Rank(k) > 3 ==> !Evidence(s, c, n, BlockedAtGateway))
  {
    hide Evidence;
    forall j: Class | Rank(j) < Rank(k)
      ensures j == CompletedBeforeCommand || j == ConvergedBeforeCommand || j == AcknowledgedCommand || j == BlockedAtGateway
    {
    }
    assert Rank(CompletedBeforeCommand) == 0 && Rank(ConvergedBeforeCommand) == 1;
    assert Rank(AcknowledgedCommand) == 2 && Rank(BlockedAtGateway) == 3;
  }

  lemma BlockedExactly(s: State, c: Id, n: Id)
    requires c < |s.commands| && n < |s.nodes|
    ensures Evidence(s, c, n, BlockedAtGateway) <==>
      || AckKey(c, n, GatewayBlockAck) in s.acks
      || exists a | 0 <= a < |s.attempts| :: s.attempts[a].node == n && BlockedAction(s, c, a)
  {
  }

  /** A committed side effect at or after the command's time. */
  predicate CommittedSince(s: State, c: Id, a: Id)
    requires c < |s.commands| && a < |s.attempts|
  {
    var x := s.attempts[a];
    x.attemptedAt >= s.commands[c].order.createdAt && x.sideEffecting && x.decision == Allow && x.committedAt.Some?
  }

  /** An outdated node outside the affected set that saw the command's own scope. */
  predicate InterruptedBy(s: Database, c: Id, n: Id)
    requires c < |s.commands| && n < |s.nodes|
  {
    var e := EvaluationOf(s, n);
    !e.allowed && exists i | 0 <= i < |e.mismatches| :: e.mismatches[i].scope == s.commands[c].order.targetScope
  }

  datatype ControlVerdict = ControlVerified | ControlIncomplete | ControlInconsistent

  datatype ControlProof = ControlProof(
    verdict: ControlVerdict, affected: nat, classes: multiset<Class>, unclassified: seq<Id>,
    staleAttempts: nat, staleCommitted: nat, unrelatedInterrupted: nat)

  ghost function InClass(s: State, c: Id, k: Class): set<Id>
    requires c < |s.commands|
  {
    set n | 0 <= n < |s.nodes| && WalkAffected(s, c, n) && Accounted(s, c, n, k)
  }

  /** The proof builder's loops over the affected nodes, their actions and the other nodes. */
  method BuildControlProof(s: Database, c: Id) returns (p: ControlProof)
    requires c < |s.commands|
    ensures |p.classes| + |p.unclassified| == p.affected
    ensures forall k :: p.classes[k] == |InClass(s, c, k)|
    ensures forall n: Id :: n in p.unclassified <==>
      n < |s.nodes| && WalkAffected(s, c, n) && forall k :: !Evidence(s, c, n, k)
    ensures p.staleAttempts
            == |set a | 0 <= a < |s.attempts| && WalkAffected(s, c, s.attempts[a].node)
                        && s.attempts[a].sideEffecting && BlockedAction(s, c, a)|
    ensures p.staleCommitted
            == |set a | 0 <= a < |s.attempts| && WalkAffected(s, c, s.attempts[a].node) && CommittedSince(s, c, a)|
    ensures p.unrelatedInterrupted
            == |set n | 0 <= n < |s.nodes| && s.commands[c].order.kind != CancelRun
                        && s.nodes[n].reg.run == s.commands[c].order.run
                        && !WalkAffected(s, c, n) && InterruptedBy(s, c, n)|
    ensures p.verdict == if p.staleCommitted > 0 then ControlInconsistent
                         else if p.unclassified != [] || p.unrelatedInterrupted > 0 then ControlIncomplete
                         else ControlVerified
  {
    hide WalkAffected, Classify, Evidence, Accounted, InterruptedBy;
    var affected := AffectedNodes(s, c);
    forall n: Id | n in affected ensures n < |s.nodes| {
      WalkStaysInRun(s, c, n);
    }
    var classes, unclassified := ClassifyAll(s, c, affected);
    forall k ensures classes[k] == |InClass(s, c, k)| {
      forall n | n in affected ensures Classify(s, c, n) == Some(k) <==> Accounted(s, c, n, k) {
        ClassifyExactly(s, c, n, k);
      }
      assert InClass(s, c, k) == Classed(s, c, affected, k);
    }
    forall n: Id | n in affected ensures Classify(s, c, n).None? <==> forall k :: !Evidence(s, c, n, k) {
      UnclassifiedExactly(s, c, n);
    }
    var staleAttempts := CountStaleAttempts(s, c, affected);
    var staleCommitted := CountStaleCommitted(s, c, affected);
    var interrupted := 0;
    if s.commands[c].order.kind != CancelRun {
      interrupted := CountInterrupted(s, c, affected);
    }
    assert (set a | 0 <= a < |s.attempts| && WalkAffected(s, c, s.attempts[a].node) && CommittedSince(s, c, a))
        == set a | 0 <= a < |s.attempts| && s.attempts[a].node in affected && CommittedSince(s, c, a);
    assert (set a | 0 <= a < |s.attempts| && WalkAffected(s, c, s.attempts[a].node)
                    && s.attempts[a].sideEffecting && BlockedAction(s, c, a))
        == set a | 0 <= a < |s.attempts| && s.attempts[a].node in affected
                   && s.attempts[a].sideEffecting && BlockedAction(s, c, a);
    assert (set n | 0 <= n < |s.nodes| && s.commands[c].order.kind != CancelRun
                    && s.nodes[n].reg.run == s.commands[c].order.run && !WalkAffected(s, c, n) && InterruptedBy(s, c, n))
        == if s.commands[c].order.kind == CancelRun then {} else
             set n | 0 <= n < |s.nodes| && s.nodes[n].reg.run == s.commands[c].order.run
                     && n !in affected && InterruptedBy(s, c, n);
    p := ControlProof(
      if staleCommitted > 0 then ControlInconsistent
      else if unclassified != [] || interrupted > 0 then ControlIncomplete
      else ControlVerified,
      |affected|, classes, unclassified, staleAttempts, staleCommitted, interrupted);
  }

  lemma UnclassifiedExactly(s: State, c: Id, n: Id)
    requires c < |s.commands| && n < |s.nodes|
    ensures Classify(s, c, n).None? <==> forall k :: !Evidence(s, c, n, k)
  {
    hide Classify, Evidence;
    forall k ensures Classify(s, c, n) == Some(k) ==> Evidence(s, c, n, k)
             ensures Classify(s, c, n).None? ==> !Evidence(s, c, n, k)
    {
      ClassifyExactly(s, c, n, k);
    }
  }

  ghost function Classed(s: State, c: Id, ids: seq<Id>, k: Class): set<Id>
    requires c < |s.commands|
  {
    set n | n in ids && n < |s.nodes| && Classify(s, c, n) == Some(k)
  }

  lemma ClassedAppend(s: State, c: Id, ids: seq<Id>, n: Id, k: Class)
    requires c < |s.commands| && n < |s.nodes| && n !in ids
    ensures |Classed(s, c, ids + [n], k)| == |Classed(s, c, ids, k)| + if Classify(s, c, n) == Some(k) then 1 else 0
  {
    assert Classed(s, c, ids + [n], k)
        == Classed(s, c, ids, k) + if Classify(s, c, n) == Some(k) then {n} else {};
  }

  method ClassifyAll(s: Database, c: Id, affected: seq<Id>) returns (classes: multiset<Class>, unclassified: seq<Id>)
    requires c < |s.commands| && forall n | n in affected :: n < |s.nodes|
    requires forall i, j | 0 <= i < j < |affected| :: affected[i] != affected[j]
    ensures |classes| + |unclassified| == |affected|
    ensures forall k :: classes[k] == |Classed(s, c, affected, k)|
    ensures forall n: Id :: n in unclassified <==> n in affected && n < |s.nodes| && Classify(s, c, n).None?
  {
    hide Classify, Classed;
    classes, unclassified := multiset{}, [];
    forall k ensures |Classed(s, c, [], k)| == 0 {
      ClassedNone(s, c, k);
    }
    for i := 0 to |affected|
      invariant |classes| + |unclassified| == i
      invariant forall k :: classes[k] == |Classed(s, c, affected[..i], k)|
      invariant forall n: Id :: n in unclassified <==> n in affected[..i] && n < |s.nodes| && Classify(s, c, n).None?
    {
      var n := affected[i];
      assert n in affected && affected[..i + 1] == affected[..i] + [n];
      forall k ensures |Classed(s, c, affected[..i + 1], k)|
                       == |Classed(s, c, affected[..i], k)| + if Classify(s, c, n) == Some(k) then 1 else 0
      {
        ClassedAppend(s, c, affected[..i], n, k);
      }
      match Classify(s, c, n) {
        case Some(k) => classes := classes + multiset{k};
        case None => unclassified := unclassified + [n];
      }
    }
    assert affected[..|affected|] == affected;
  }

  lemma ClassedNone(s: State, c: Id, k: Class)
    requires c < |s.commands|
    ensures Classed(s, c, [], k) == {}
  {
  }

  method CountStaleAttempts(s: Database, c: Id, affected: seq<Id>) returns (count: nat)
    requires c < |s.commands|
    ensures count == |set a | 0 <= a < |s.attempts| && s.attempts[a].node in affected
                              && s.attempts[a].sideEffecting && BlockedAction(s, c, a)|
  {
    hide BlockedAction;
    count := 0;
    for a := 0 to |s.attempts|
      invariant count == |set b | 0 <= b < a && s.attempts[b].node in affected
                                  && s.attempts[b].sideEffecting && BlockedAction(s, c, b)|
    {
      var hit := s.attempts[a].node in affected && s.attempts[a].sideEffecting && BlockedAction(s, c, a);
      assert (set b | 0 <= b < a + 1 && s.attempts[b].node in affected
                      && s.attempts[b].sideEffecting && BlockedAction(s, c, b))
          == (set b | 0 <= b < a && s.attempts[b].node in affected
                      && s.attempts[b].sideEffecting && BlockedAction(s, c, b)) + if hit then {a} else {};
      if hit {
        count := count + 1;
      }
    }
  }

  method CountStaleCommitted(s: Database, c: Id, affected: seq<Id>) returns (count: nat)
    requires c < |s.commands|
    ensures count == |set a | 0 <= a < |s.attempts| && s.attempts[a].node in affected && CommittedSince(s, c, a)|
  {
    hide CommittedSince;
    count := 0;
    for a := 0 to |s.attempts|
      invariant count == |set b | 0 <= b < a && s.attempts[b].node in affected && CommittedSince(s, c, b)|
    {
      var hit := s.attempts[a].node in affected && CommittedSince(s, c, a);
      assert (set b | 0 <= b < a + 1 && s.attempts[b].node in affected && CommittedSince(s, c, b))
          == (set b | 0 <= b < a && s.attempts[b].node in affected && CommittedSince(s, c, b))
             + if hit then {a} else {};
      if hit {
        count := count + 1;
      }
    }
  }

  method CountInterrupted(s: Database, c: Id, affected: seq<Id>) returns (count: nat)
    requires c < |s.commands|
    ensures count == |set n | 0 <= n < |s.nodes| && s.nodes[n].reg.run == s.commands[c].order.run
                              && n !in affected && InterruptedBy(s, c, n)|
  {
    hide InterruptedBy;
    var run := s.commands[c].order.run;
    count := 0;
    for n := 0 to |s.nodes|
      invariant count == |set m | 0 <= m < n && s.nodes[m].reg.run == run && m !in affected && InterruptedBy(s, c, m)|
    {
      var hit := s.nodes[n].reg.run == run && n !in affected && InterruptedBy(s, c, n);
      assert (set m | 0 <= m < n + 1 && s.nodes[m].reg.run == run && m !in affected && InterruptedBy(s, c, m))
          == (set m | 0 <= m < n && s.nodes[m].reg.run == run && m !in affected && InterruptedBy(s, c, m))
             + if hit then {n} else {};
      if hit {
        count := count + 1;
      }
    }
  }

  /** Nothing was committed by an affected node since the command, and no node outside the
      affected set was interrupted by it: the proof's two alarms never fire. */
  lemma NoStaleCommitNoInterruption(s: Database, c: Id)
    requires Coherent(s) && c < |s.commands|
    ensures forall a | 0 <= a < |s.attempts| :: WalkAffected(s, c, s.attempts[a].node) ==> !CommittedSince(s, c, a)
    ensures forall n | 0 <= n < |s.nodes| ::
      s.nodes[n].reg.run == s.commands[c].order.run && !WalkAffected(s, c, n) ==> !InterruptedBy(s, c, n)
  {
    hide Coherent, WalkAffected, EvaluationOf;
    assert WellAdmitted(s) && WellTreed(s) && WellFenced(s) by { RowsOf(s); }
    forall a | 0 <= a < |s.attempts| && WalkAffected(s, c, s.attempts[a].node) ensures !CommittedSince(s, c, a) {
      assert AttemptAdmitted(s, a);
      WalkStaysInRun(s, c, s.attempts[a].node);
      AffectedAgree(s, c, s.attempts[a].node);
    }
    forall n | 0 <= n < |s.nodes| && s.nodes[n].reg.run == s.commands[c].order.run && !WalkAffected(s, c, n)
      ensures !InterruptedBy(s, c, n)
    {
      AffectedAgree(s, c, n);
      UntargetedUnharmed(s, c, n);
    }
  }

  lemma RowsOf(s: State)
    requires Coherent(s)
    ensures WellAdmitted(s) && WellTreed(s) && WellFenced(s) && Lived(s)
  {
  }

  lemma UntargetedUnharmed(s: Database, c: Id, n: Id)
    requires WellTreed(s) && WellFenced(s) && c < |s.commands| && n < |s.nodes| && !Targets(s, c, n)
    ensures !InterruptedBy(s, c, n)
  {
    var ms := EvaluationOf(s, n).mismatches;
    forall i | 0 <= i < |ms| ensures ms[i].scope != s.commands[c].order.targetScope {
      MismatchIsClosed(s, n, ms[i]);
      var d :| 0 <= d < |s.commands| && Targets(s, d, n) && ms[i] == ClosedBy(s.commands[d].order);
      assert CommandFences(s, d) && CommandFences(s, c);
    }
  }

  /** In every coherent registry the control verdict is decided by classification alone: it is
      verified exactly when every node the command targets is accounted for, and never inconsistent. */
  method ProveControl(s: Database, c: Id) returns (p: ControlProof)
    requires Coherent(s) && c < |s.commands|
    ensures p.verdict != ControlInconsistent && p.staleCommitted == 0 && p.unrelatedInterrupted == 0
    ensures p.verdict == ControlVerified
            <==> forall n | 0 <= n < |s.nodes| :: Targets(s, c, n) ==> exists k :: Evidence(s, c, n, k)
  {
    p := BuildControlProof(s, c);
    EmptyAlarms(s, c);
    TargetsShareRun(s, c);
    forall n | 0 <= n < |s.nodes| && s.nodes[n].reg.run == s.commands[c].order.run
      ensures WalkAffected(s, c, n) <==> Targets(s, c, n)
    {
      AffectedAgree(s, c, n);
    }
    hide Coherent, WalkAffected, Targets, Evidence;
    forall n: Id
      ensures n in p.unclassified <==> n < |s.nodes| && Targets(s, c, n) && forall k :: !Evidence(s, c, n, k)
    {
      if WalkAffected(s, c, n) { WalkStaysInRun(s, c, n); }
    }
    if p.unclassified != [] { assert p.unclassified[0] in p.unclassified; }
  }

  lemma EmptyAlarms(s: Database, c: Id)
    requires Coherent(s) && c < |s.commands|
    ensures (set a | 0 <= a < |s.attempts| && WalkAffected(s, c, s.attempts[a].node) && CommittedSince(s, c, a)) == {}
    ensures (set n | 0 <= n < |s.nodes| && s.commands[c].order.kind != CancelRun
                     && s.nodes[n].reg.run == s.commands[c].order.run
                     && !WalkAffected(s, c, n) && InterruptedBy(s, c, n)) == {}
  {
    NoStaleCommitNoInterruption(s, c);
  }

  lemma TargetsShareRun(s: Database, c: Id)
    requires Coherent(s) && c < |s.commands|
    ensures forall n | 0 <= n < |s.nodes| :: Targets(s, c, n) ==> s.nodes[n].reg.run == s.commands[c].order.run
  {
    assert WellTreed(s) && WellFenced(s);
    forall n | 0 <= n < |s.nodes| && Targets(s, c, n) ensures s.nodes[n].reg.run == s.commands[c].order.run {
      TargetedScope(s, c, n);
    }
  }

  // ---------------------------------------------------------------- the auditor

  datatype Candidate = Candidate(command: Id, action: Id)

  /** A side effect committed at or after a command that the auditor holds to affect its node. */
  predicate IsCandidate(s: State, run: Option<Id>, k: Candidate) {
    && k.command < |s.commands| && k.action < |s.attempts|
    && var order := s.commands[k.command].order; var x := s.attempts[k.action];
       && (run.None? || order.run == run.value)
       && x.node < |s.nodes| && s.nodes[x.node].reg.run == order.run && x.run == order.run
       && SnapshotAffected(order, s.nodes[x.node].reg)
       && CommittedSince(s, k.command, k.action)
  }

  /** The auditor's nested loops find exactly the candidates, each once. */
  method DiscoverCandidates(s: Database, run: Option<Id>) returns (found: seq<Candidate>)
    ensures forall k :: k in found <==> IsCandidate(s, run, k)
    ensures forall i, j | 0 <= i < j < |found| :: found[i] != found[j]
  {
    found := [];
    for c := 0 to |s.commands|
      invariant forall k :: k in found <==> k.command < c && IsCandidate(s, run, k)
      invariant forall i, j | 0 <= i < j < |found| :: found[i] != found[j]
    {
      var order := s.commands[c].order;
      if run.None? || order.run == run.value {
        var affected := set n | 0 <= n < |s.nodes| && s.nodes[n].reg.run == order.run
                                && SnapshotAffected(order, s.nodes[n].reg);
        for a := 0 to |s.attempts|
          invariant forall k :: k in found <==>
                      IsCandidate(s, run, k) && (k.command < c || (k.command == c && k.action < a))
          invariant forall i, j | 0 <= i < j < |found| :: found[i] != found[j]
        {
          var x := s.attempts[a];
          if x.run == order.run && x.node in affected && CommittedSince(s, c, a) {
            found := found + [Candidate(c, a)];
          }
        }
      }
    }
  }

  /** The auditor never finds anything in a coherent registry. */
  lemma AuditIsClean(s: Database, run: Option<Id>, k: Candidate)
    requires Coherent(s)
    ensures !IsCandidate(s, run, k)
  {
    if IsCandidate(s, run, k) {
      AffectedAgree(s, k.command, s.attempts[k.action].node);
      NoStaleCommitNoInterruption(s, k.command);
    }
  }

  // ---------------------------------------------------------------- convergence

  /** The lease or the intent of every node the command targets has run out. */
  ghost predicate Overdue(s: State, c: Id)
    requires c < |s.commands|
  {
    forall n {:trigger s.nodes[n]} | 0 <= n < |s.nodes| && Targets(s, c, n) ::
      && (s.nodes[n].life.lease.Some? ==> s.nodes[n].life.lease.value < s.clock)
      && (n in s.intents && s.intents[n].consumedAt.None? ==> s.intents[n].expiresAt < s.clock)
  }

  lemma {:induction false} StaleIntentListed(s: Database, run: Option<Id>, upto: nat, n: Id)
    requires n < upto <= |s.nodes|
    requires s.nodes[n].life.status == Pending && n in s.intents && s.intents[n].consumedAt.None?
    requires s.intents[n].expiresAt < s.clock && InScan(s, n, run)
    ensures n in StaleIntents(s, run, upto)
  {
    if n < upto - 1 {
      StaleIntentListed(s, run, upto - 1, n);
    }
  }

  lemma {:induction false} SweptIsExpired(s: Database, ids: seq<Id>, n: Id)
    requires forall i | 0 <= i < |ids| :: ids[i] < |s.nodes|
    requires n in ids
    ensures n < |s.nodes| && SweepAll(s, ids).nodes[n].life.status == LeaseExpired
  {
    var t := SweepAll(s, ids[..|ids| - 1]);
    SweepExpires(t, ids[|ids| - 1]);
    if n != ids[|ids| - 1] {
      SweptIsExpired(s, ids[..|ids| - 1], n);
    }
  }

  /** Once the leases and intents have run out, one lease scan accounts for every affected node. */
  lemma ScanConverges(s: Database, c: Id, scan: Option<Id>, n: Id)
    requires Coherent(s) && Past(s) && c < |s.commands| && Overdue(s, c)
    requires scan.None? || scan.value == s.commands[c].order.run
    requires n < |s.nodes| && Targets(s, c, n)
    ensures var t := ExpireStale(s, scan).db;
      c < |t.commands| && n < |t.nodes| && Targets(t, c, n) && exists k :: Evidence(t, c, n, k)
  {
    hide AckedBefore, BlockedAction, StaleNodes, SweepAll, Evaluate, RuntimeOf;
    var t := ExpireStale(s, scan).db;
    ExpireCoherent(s, scan);
    TargetsFrame(s, t, c, n);
    TargetsShareRun(s, c);
    SweepAllExpires(s, StaleNodes(s, scan));
    assert t.nodes[n].life == s.nodes[n].life || t.nodes[n].life == s.nodes[n].life.(status := LeaseExpired);
    UnactivatedIsSwept(s, c, scan, n);
    assert Evidence(t, c, n, LeaseRanOut);
  }

  lemma UnactivatedIsSwept(s: Database, c: Id, scan: Option<Id>, n: Id)
    requires Coherent(s) && c < |s.commands| && Overdue(s, c) && n < |s.nodes| && Targets(s, c, n)
    requires scan.None? || scan.value == s.commands[c].order.run
    ensures || s.nodes[n].life.status == LeaseExpired
            || (s.nodes[n].life.lease.Some? && s.nodes[n].life.lease.value < s.clock)
            || ExpireStale(s, scan).db.nodes[n].life.status == LeaseExpired
  {
    hide Coherent, SweepAll;
    RowsOf(s);
    TargetsShareRun(s, c);
    assert LifeShape(s.nodes[n].life) && IntentMatches(s, n);
    if s.nodes[n].life.activatedAt.None? && s.nodes[n].life.status == Pending {
      StaleIntentListed(s, scan, |s.nodes|, n);
      SweptIsExpired(s, StaleNodes(s, scan), n);
    }
  }
}
