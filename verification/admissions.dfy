/** The actions the gateway committed: by whom, under which capability and contract, and when. */
module Admissions {
  import opened Options
  import opened Domain
  import opened Scopes
  import opened Tools
  import opened Transitions
  import opened Tree
  import opened Fences
  import opened Lives
  import opened Revocation

  predicate InContract(order: Order, request: ActionRequest) {
    && order.manifest.Some?
    && order.manifest.value.contract.expectedTool == Some(request.tool)
    && order.manifest.value.contract.argumentsDigest == Digest(request.arguments)
  }

  /** What every committed action satisfies. */
  ghost predicate RightlyAllowed(s: State, x: Attempt)
    requires x.node < |s.nodes|
  {
    var reg := s.nodes[x.node].reg;
    && x.reason.None? && x.committedAt == Some(x.attemptedAt) && x.result.Some?
    && s.nodes[x.node].life.activatedAt.Some?
    && SpecOf(x.request.tool).Some?
    && SpecOf(x.request.tool).value.capability in reg.capabilities
    && ArgumentsValid(SpecOf(x.request.tool).value, x.request.arguments)
    && (reg.causedBy.Some? ==>
          reg.causedBy.value < |s.commands| && InContract(s.commands[reg.causedBy.value].order, x.request))
    && forall c {:trigger s.commands[c]} | 0 <= c < |s.commands| ::
         Targets(s, c, x.node) ==> x.attemptedAt < s.commands[c].order.createdAt
  }

  ghost predicate AttemptAdmitted(s: State, a: Id)
    requires a < |s.attempts|
  {
    var x := s.attempts[a];
    && x.node < |s.nodes| && x.run == s.nodes[x.node].reg.run
    && x.attemptedAt <= s.clock
    && (x.decision == Deny ==> x.committedAt.None? && x.reason.Some?)
    && (SpecOf(x.request.tool).Some? && x.sideEffecting == SpecOf(x.request.tool).value.sideEffecting)
    && (x.decision == Allow ==> RightlyAllowed(s, x))
  }

  /** A replacement has committed no more actions than its manifest permits. */
  ghost predicate WithinLimit(s: State, n: Id)
    requires n < |s.nodes|
  {
    var cause := s.nodes[n].reg.causedBy;
    cause.Some? && cause.value < |s.commands| && s.commands[cause.value].order.manifest.Some? ==>
      CountCommitted(s.attempts, n) <= s.commands[cause.value].order.manifest.value.contract.maxInvocations
  }

  ghost predicate WellAdmitted(s: State) {
    && (forall a {:trigger s.attempts[a]} | 0 <= a < |s.attempts| :: AttemptAdmitted(s, a))
    && (forall n {:trigger s.nodes[n]} | 0 <= n < |s.nodes| :: WithinLimit(s, n))
    && (forall a, b | 0 <= a < b < |s.attempts| ::
          !AttemptedAs(s.attempts[b], s.attempts[a].node, s.attempts[a].request.key))
  }

  lemma {:induction false} NothingCommitted(attempts: seq<Attempt>, n: Id)
    requires forall a | 0 <= a < |attempts| :: attempts[a].node != n
    ensures CountCommitted(attempts, n) == 0
  {
    if attempts != [] {
      NothingCommitted(attempts[..|attempts| - 1], n);
    }
  }

  // ---------------------------------------------------------------- frames

  /** Activated nodes stay activated. */
  ghost predicate StaysActivated(s: State, t: State) {
    && |s.nodes| <= |t.nodes|
    && forall n {:trigger t.nodes[n]} | 0 <= n < |s.nodes| ::
         s.nodes[n].life.activatedAt.Some? ==> t.nodes[n].life.activatedAt.Some?
  }

  lemma AllowedFrame(s: State, t: State, x: Attempt)
    requires Extends(s, t) && StaysActivated(s, t) && x.node < |s.nodes| && RightlyAllowed(s, x)
    requires forall c {:trigger t.commands[c]} | |s.commands| <= c < |t.commands| ::
      x.attemptedAt < t.commands[c].order.createdAt
    ensures RightlyAllowed(t, x)
  {
    forall c | 0 <= c < |t.commands| && Targets(t, c, x.node)
      ensures x.attemptedAt < t.commands[c].order.createdAt
    {
      if c < |s.commands| { TargetsFrame(s, t, c, x.node); }
    }
  }

  /** No action is recorded; a command that is new is later than every action. */
  lemma AdmittedFrame(s: State, t: State)
    requires WellAdmitted(s) && Extends(s, t) && StaysActivated(s, t)
    requires t.attempts == s.attempts && s.clock <= t.clock
    requires |s.commands| < |t.commands| ==>
      forall a {:trigger s.attempts[a]} | 0 <= a < |s.attempts| :: s.attempts[a].attemptedAt < s.clock
    requires forall c {:trigger t.commands[c]} | |s.commands| <= c < |t.commands| ::
      t.commands[c].order.createdAt == s.clock
    requires forall n {:trigger t.nodes[n]} | 0 <= n < |s.nodes| ::
      s.nodes[n].reg.causedBy.Some? ==> s.nodes[n].reg.causedBy.value < |s.commands|
    ensures WellAdmitted(t)
  {
    forall a | 0 <= a < |t.attempts| ensures AttemptAdmitted(t, a) {
      assert AttemptAdmitted(s, a);
      if s.attempts[a].decision == Allow { AllowedFrame(s, t, s.attempts[a]); }
    }
    forall n | 0 <= n < |t.nodes| ensures WithinLimit(t, n) {
      if n < |s.nodes| {
        assert WithinLimit(s, n);
      } else {
        forall a | 0 <= a < |s.attempts| ensures s.attempts[a].node != n {
          assert AttemptAdmitted(s, a);
        }
        NothingCommitted(s.attempts, n);
      }
    }
  }

  /** One action is recorded and nodes only change their lives. */
  lemma RecordAdmitted(s: State, t: State, x: Attempt)
    requires WellAdmitted(s) && Extends(s, t) && StaysActivated(s, t)
    requires |t.nodes| == |s.nodes| && |t.commands| == |s.commands| && t.clock == s.clock
    requires t.attempts == s.attempts + [x]
    requires AttemptAdmitted(t, |s.attempts|) && WithinLimit(t, x.node)
    requires FindAttempt(s.attempts, x.node, x.request.key).None?
    ensures WellAdmitted(t)
  {
    forall a | 0 <= a < |t.attempts| ensures AttemptAdmitted(t, a) {
      if a < |s.attempts| {
        assert AttemptAdmitted(s, a);
        if s.attempts[a].decision == Allow { AllowedFrame(s, t, s.attempts[a]); }
      }
    }
    forall n | 0 <= n < |t.nodes| ensures WithinLimit(t, n) {
      assert WithinLimit(s, n);
      CommittedAppend(s.attempts, x, n);
    }
  }

  lemma CommittedAppend(attempts: seq<Attempt>, x: Attempt, n: Id)
    ensures CountCommitted(attempts + [x], n)
            == CountCommitted(attempts, n) + if x.node == n && x.decision == Allow && x.committedAt.Some? then 1 else 0
  {
    assert (attempts + [x])[..|attempts|] == attempts;
  }

  // ---------------------------------------------------------------- the gateway

  lemma DenyAdmitted(s: Database, n: Id, request: ActionRequest, spec: ToolSpec, code: Code)
    requires WellAdmitted(s) && n < |s.nodes| && SpecOf(request.tool) == Some(spec)
    requires FindAttempt(s.attempts, n, request.key).None?
    ensures WellAdmitted(DenyAction(s, n, request, spec, code))
  {
    hide WellAdmitted, WithinLimit, RecordAcks, RecordMatches, ReportedMismatch, Attributed, Evaluate;
    var t := DenyAction(s, n, request, spec, code);
    var x := t.attempts[|s.attempts|];
    assert WithinLimit(s, n) by { LimitOf(s, n); }
    LimitDenied(s, t, x, n);
    RecordAdmitted(s, t, x);
  }

  lemma LimitOf(s: State, n: Id)
    requires WellAdmitted(s) && n < |s.nodes|
    ensures WithinLimit(s, n)
  {
  }

  lemma LimitDenied(s: State, t: State, x: Attempt, n: Id)
    requires n < |s.nodes| && Extends(s, t) && |t.commands| == |s.commands| && t.attempts == s.attempts + [x]
    requires WithinLimit(s, n) && x.decision == Deny
    ensures WithinLimit(t, n)
  {
    CommittedAppend(s.attempts, x, n);
  }

  /** The admission ladder repeats the runtime check and adds the contract and the capability. */
  lemma LadderIsRuntime(s: Database, cfg: Config, n: Id, request: ActionRequest, spec: ToolSpec)
    requires n < |s.nodes|
    ensures Admission(s, cfg, n, request, spec).None?
            <==> RuntimeOf(s, n).allowed && RecoveryContractDenial(s, cfg, n, request, spec).None?
                 && spec.capability in s.nodes[n].reg.capabilities
  {
    hide RecoveryContractDenial, EvaluationOf;
  }

  /** An admitted action is by an activated node that no command targets, inside its contract. */
  lemma AdmitAdmitted(s: Database, cfg: Config, n: Id, request: ActionRequest, spec: ToolSpec)
    requires WellTreed(s) && WellFenced(s) && Lived(s) && WellAdmitted(s) && n < |s.nodes|
    requires SpecOf(request.tool) == Some(spec) && ArgumentsValid(spec, request.arguments)
    requires s.nodes[n].life.token.Some?
    requires FindAttempt(s.attempts, n, request.key).None? && Admission(s, cfg, n, request, spec).None?
    ensures WellAdmitted(AdmitAction(s, n, request, spec))
    ensures RuntimeOf(s, n).allowed
  {
    hide WellAdmitted, WithinLimit, RunTool, Evaluate, Targets, CountCommitted;
    var t := AdmitAction(s, n, request, spec);
    var x := t.attempts[|s.attempts|];
    assert LifeShape(s.nodes[n].life);
    LazyIsEager(s, n);
    forall c | 0 <= c < |t.commands| ensures !Targets(t, c, n) {
      TargetsFrame(s, t, c, n);
    }
    assert RightlyAllowed(t, x);
    LimitAllowed(s, cfg, n, request, spec);
    RecordAdmitted(s, t, x);
  }

  lemma LimitAllowed(s: Database, cfg: Config, n: Id, request: ActionRequest, spec: ToolSpec)
    requires n < |s.nodes| && RecoveryContractDenial(s, cfg, n, request, spec).None?
    ensures WithinLimit(AdmitAction(s, n, request, spec), n)
  {
    hide RunTool;
    var t := AdmitAction(s, n, request, spec);
    CommittedAppend(s.attempts, t.attempts[|s.attempts|], n);
  }

  lemma ExecuteAdmitted(s: Database, cfg: Config, throttled: bool, n: Id, token: Token, request: ActionRequest)
    requires WellTreed(s) && WellFenced(s) && Lived(s) && WellAdmitted(s)
    ensures WellAdmitted(ExecuteAction(s, cfg, throttled, n, token, request).db)
  {
    hide WellTreed, WellFenced, Lived, WellAdmitted, Admission, DenyAction, AdmitAction;
    if n < |s.nodes| && SpecOf(request.tool).Some? && FindAttempt(s.attempts, n, request.key).None? {
      var spec := SpecOf(request.tool).value;
      var code := Admission(s, cfg, n, request, spec);
      if code.Some? {
        DenyAdmitted(s, n, request, spec, code.value);
      } else if ArgumentsValid(spec, request.arguments) && s.nodes[n].life.token.Some? {
        AdmitAdmitted(s, cfg, n, request, spec);
      }
    }
  }
}
