/** Corrections and their replacements: the manifest, the one current attempt, and retries. */
module Replacements {
  import opened Options
  import opened Domain
  import opened Scopes
  import opened Tools
  import opened Transitions
  import opened Frames
  import opened Lives

  predicate Fits(reg: Registration, manifest: Manifest) {
    && reg.role == manifest.role && reg.behavior == manifest.behavior
    && reg.capabilities == manifest.capabilities
    && Digest(reg.instruction) == manifest.instructionDigest
    && reg.instructionVersion == manifest.instructionVersion
  }

  /** A replacement never has children; it matches its manifest exactly; only the designated one is
      ever activated, and an attempt that was replaced stays expired without activation. */
  ghost predicate NodeReplaces(s: State, n: Id)
    requires n < |s.nodes|
  {
    var reg := s.nodes[n].reg;
    && (reg.parent.Some? ==> reg.parent.value < |s.nodes| && s.nodes[reg.parent.value].reg.causedBy.None?)
    && (reg.causedBy.Some? ==>
          && reg.causedBy.value < |s.commands|
          && var command := s.commands[reg.causedBy.value];
             var order := command.order;
             && order.kind == CorrectSubtree && order.run == reg.run
             && reg.parent == order.replacementParent && reg.supersedes == Some(order.target)
             && order.manifest.Some? && Fits(reg, order.manifest.value)
             && order.createdAt < reg.registeredAt
             && (s.nodes[n].life.activatedAt.Some? ==>
                   command.replacementNode == Some(n)
                   && command.replacementStatus in {Some(ReplacementActive), Some(ReplacementCompleted)})
             && (s.nodes[n].life.activatedAt.None? && command.replacementNode != Some(n) ==>
                   s.nodes[n].life.status == LeaseExpired))
  }

  /** The manifest a correction carries: childless, and one invocation when it names a tool. */
  ghost predicate ManifestFixed(order: Order) {
    && order.manifest.Some? && order.manifestDigest == Some(Digest(order.manifest.value))
    && var manifest := order.manifest.value;
       && order.instruction.Some? && manifest.instructionDigest == Digest(order.instruction.value)
       && manifest.maxChildren == 0
       && manifest.contract.expectedTool == order.expectedTool
       && manifest.contract.maxInvocations == (if order.expectedTool.None? then 0 else 1)
  }

  /** The designated creator is no replacement, and is the corrected node's parent or a root of the run. */
  ghost predicate CreatorFits(s: State, order: Order) {
    && order.target < |s.nodes| && order.replacementParent.Some? && order.replacementParent.value < |s.nodes|
    && (order.manifest.Some? ==>
          order.manifest.value.instructionVersion == s.nodes[order.target].reg.instructionVersion + 1)
    && var creator := s.nodes[order.replacementParent.value].reg;
       && creator.causedBy.None? && creator.run == order.run
       && (s.nodes[order.target].reg.parent == order.replacementParent || creator.parent.None?)
  }

  ghost predicate CommandReplaces(s: State, c: Id)
    requires c < |s.commands|
  {
    var command := s.commands[c];
    var order := command.order;
    if order.kind != CorrectSubtree then
      && order.manifest.None? && order.replacementParent.None?
      && command.replacementNode.None? && command.replacementStatus.None?
    else
      && ManifestFixed(order) && CreatorFits(s, order)
      && (if command.replacementNode.None? then command.replacementStatus == Some(ReplacementPending)
          else StatusFits(s, c))
  }

  /** The command's replacement status agrees with the life of the attempt it designates. */
  ghost predicate StatusFits(s: State, c: Id)
    requires c < |s.commands| && s.commands[c].replacementNode.Some?
  {
    var m, status := s.commands[c].replacementNode.value, s.commands[c].replacementStatus;
    && m < |s.nodes| && s.nodes[m].reg.causedBy == Some(c)
    && if s.nodes[m].life.activatedAt.Some?
       then status == Some(if s.nodes[m].life.completedAt.Some? then ReplacementCompleted else ReplacementActive)
       else || status == Some(ReplacementPending)
            || (status == Some(ActivationExpired) && s.nodes[m].life.status == LeaseExpired)
  }

  ghost predicate WellReplaced(s: State) {
    && (forall n {:trigger s.nodes[n]} | 0 <= n < |s.nodes| :: NodeReplaces(s, n))
    && (forall c {:trigger s.commands[c]} | 0 <= c < |s.commands| :: CommandReplaces(s, c))
  }

  // ---------------------------------------------------------------- frames

  /** No activation and no registration; an unactivated node keeps its status or expires. */
  ghost predicate SameAttempts(s: State, t: State) {
    && |t.nodes| == |s.nodes|
    && (forall n {:trigger t.nodes[n]} | 0 <= n < |s.nodes| ::
          && t.nodes[n].reg == s.nodes[n].reg
          && t.nodes[n].life.activatedAt == s.nodes[n].life.activatedAt
          && (t.nodes[n].life.completedAt == s.nodes[n].life.completedAt || Settles(t, n))
          && (s.nodes[n].life.activatedAt.None? ==>
                t.nodes[n].life.status == s.nodes[n].life.status || t.nodes[n].life.status == LeaseExpired))
  }

  /** The correction that designates the node, if one does, agrees with the node's life. */
  ghost predicate Settles(s: State, n: Id)
    requires n < |s.nodes|
  {
    var cause := s.nodes[n].reg.causedBy;
    cause.Some? ==>
      cause.value < |s.commands| && s.commands[cause.value].replacementNode == Some(n) && StatusFits(s, cause.value)
  }

  /** Commands keep everything but their replacement status, and a new status fits the attempt. */
  ghost predicate SameDesignations(s: State, t: State) {
    && |t.commands| == |s.commands|
    && (forall c {:trigger t.commands[c]} | 0 <= c < |s.commands| ::
          t.commands[c] == s.commands[c]
          || (&& t.commands[c] == s.commands[c].(replacementStatus := t.commands[c].replacementStatus)
              && t.commands[c].order.kind == CorrectSubtree
              && t.commands[c].replacementNode.Some? && StatusFits(t, c)))
  }

  lemma ReplacedFrame(s: State, t: State)
    requires WellReplaced(s) && SameAttempts(s, t) && SameDesignations(s, t)
    ensures WellReplaced(t)
  {
    ReplacedNodes(s, t);
    forall c | 0 <= c < |t.commands| ensures CommandReplaces(t, c) {
      assert CommandReplaces(s, c);
    }
  }

  lemma ReplacedNodes(s: State, t: State)
    requires WellReplaced(s) && SameAttempts(s, t) && SameDesignations(s, t)
    ensures forall n | 0 <= n < |t.nodes| :: NodeReplaces(t, n)
  {
    forall n | 0 <= n < |t.nodes| ensures NodeReplaces(t, n) {
      assert NodeReplaces(s, n);
      assert s.nodes[n].reg.parent.Some? ==>
        t.nodes[s.nodes[n].reg.parent.value].reg == s.nodes[s.nodes[n].reg.parent.value].reg;
    }
  }

  ghost predicate NoneCompletes(s: State, t: State) {
    && |s.nodes| <= |t.nodes|
    && forall n {:trigger t.nodes[n]} | 0 <= n < |s.nodes| :: t.nodes[n].life.completedAt == s.nodes[n].life.completedAt
  }

  /** In a step without activation, the permitted life changes are such changes. */
  lemma AgesSameAttempts(s: Database, t: State)
    requires Lived(s) && Ages(s, t) && Calm(s, t)
    requires forall n {:trigger t.nodes[n]} | 0 <= n < |s.nodes| ::
      t.nodes[n].life.activatedAt == s.nodes[n].life.activatedAt
    requires NoneCompletes(s, t)
    ensures SameAttempts(s, t)
  {
    forall n | 0 <= n < |s.nodes|
      ensures t.nodes[n].reg == s.nodes[n].reg
      ensures s.nodes[n].life.activatedAt.None? ==>
        t.nodes[n].life.status == s.nodes[n].life.status || t.nodes[n].life.status == LeaseExpired
    {
      assert NodeAges(s, t, n) && LifeShape(s.nodes[n].life);
    }
  }

  // ---------------------------------------------------------------- activation, completion, expiry

  lemma ConsumeReplaced(s: Database, cfg: Config, n: Id)
    requires WellReplaced(s) && n < |s.nodes| && n in s.intents
    requires s.nodes[n].life.status == Pending && s.nodes[n].life.activatedAt.None? && s.nodes[n].life.completedAt.None?
    requires s.nodes[n].reg.causedBy.Some? ==> ReplacementIs(s, s.nodes[n].reg.causedBy.value, n, ReplacementPending)
    ensures WellReplaced(Consume(s, cfg, n))
  {
    hide ManifestFixed, Fits;
    var t := Consume(s, cfg, n);
    assert NodeReplaces(s, n);
    forall m | 0 <= m < |t.nodes| ensures NodeReplaces(t, m) {
      assert NodeReplaces(s, m);
    }
    ConsumeCommands(s, cfg, n);
    forall c | 0 <= c < |t.commands| ensures CommandReplaces(t, c) {
      var command := t.commands[c];
    }
  }

  lemma ConsumeCommands(s: Database, cfg: Config, n: Id)
    requires WellReplaced(s) && n < |s.nodes| && n in s.intents
    requires s.nodes[n].life.status == Pending && s.nodes[n].life.activatedAt.None? && s.nodes[n].life.completedAt.None?
    requires s.nodes[n].reg.causedBy.Some? ==> ReplacementIs(s, s.nodes[n].reg.causedBy.value, n, ReplacementPending)
    ensures var t := Consume(s, cfg, n); forall c {:trigger t.commands[c]} | 0 <= c < |t.commands| :: CommandReplaces(t, c)
  {
    hide ManifestFixed, Fits, NodeReplaces;
    var t := Consume(s, cfg, n);
    forall c | 0 <= c < |t.commands| ensures CommandReplaces(t, c) {
      assert CommandReplaces(s, c);
    }
  }

  lemma ActivateReplaced(s: Database, cfg: Config, throttled: bool, n: Id, request: ActivateRequest)
    requires WellReplaced(s) && Lived(s)
    ensures WellReplaced(Activate(s, cfg, throttled, n, request).db)
  {
    hide WellReplaced, Evaluate, Consume;
    if n < |s.nodes| && n in s.intents {
      var key := EnvelopeKey(ActivationOp, n, if request.operationKey.Some? then request.operationKey.value else "");
      if key in s.envelopes { RecoverActivationReplaced(s, cfg, n, key); }
      assert LifeShape(s.nodes[n].life);
      if && s.nodes[n].life.status == Pending
         && (s.nodes[n].reg.causedBy.Some? ==> ReplacementIs(s, s.nodes[n].reg.causedBy.value, n, ReplacementPending)) {
        ConsumeReplaced(s, cfg, n);
        ReplacedElsewhere(Consume(s, cfg, n), SealedIfKeyed(
          Consume(s, cfg, n), cfg, ActivationOp, n, request.operationKey, n,
          Digest(ActivatePayload(request.activationToken, request.processId)),
          ActivationAnswer(s, n, s.nextToken, s.clock + cfg.leaseTtl)));
      }
    }
  }

  lemma ReplacedElsewhere(s: State, t: State)
    requires WellReplaced(s) && t.nodes == s.nodes && t.commands == s.commands
    ensures WellReplaced(t)
  {
    ReplacedFrame(s, t);
  }

  lemma RecoverActivationReplaced(s: Database, cfg: Config, n: Id, key: EnvelopeKey)
    requires WellReplaced(s) && n < |s.nodes| && key in s.envelopes
    ensures WellReplaced(RecoverActivation(s, cfg, n, key).db)
  {
    ReplacedFrame(s, RecoverActivation(s, cfg, n, key).db);
  }

  lemma FinishReplaced(s: Database, n: Id)
    requires WellReplaced(s) && n < |s.nodes| && s.nodes[n].life.activatedAt.Some?
    ensures FinishNode(s, n).Some? ==> WellReplaced(FinishNode(s, n).value)
  {
    hide CommandReplaces, NodeReplaces, WellReplaced, SameAttempts, SameDesignations;
    if FinishNode(s, n).Some? {
      NodeOf(s, n);
      FinishKeepsAttempts(s, n);
      ReplacedFrame(s, FinishNode(s, n).value);
    }
  }

  lemma FinishKeepsAttempts(s: Database, n: Id)
    requires n < |s.nodes| && NodeReplaces(s, n) && s.nodes[n].life.activatedAt.Some? && FinishNode(s, n).Some?
    ensures SameAttempts(s, FinishNode(s, n).value) && SameDesignations(s, FinishNode(s, n).value)
  {
    hide CommandReplaces, Fits, Keyed;
  }

  lemma NodeOf(s: State, n: Id)
    requires WellReplaced(s) && n < |s.nodes|
    ensures NodeReplaces(s, n)
  {
  }

  lemma {:induction false} MarkAllReplaced(s: Database, ids: seq<Id>)
    requires WellReplaced(s) && forall i | 0 <= i < |ids| :: ids[i] < |s.nodes|
    ensures WellReplaced(MarkAllExpired(s, ids))
    ensures forall m {:trigger s.nodes[m]} | 0 <= m < |s.nodes| ::
      MarkAllExpired(s, ids).nodes[m].life.activatedAt == s.nodes[m].life.activatedAt
  {
    if ids != [] {
      var t := MarkAllExpired(s, ids[..|ids| - 1]);
      MarkAllReplaced(s, ids[..|ids| - 1]);
      ReplacedFrame(t, MarkExpired(t, ids[|ids| - 1]));
    }
  }

  lemma CompleteReplaced(s: Database, throttled: bool, n: Id, token: Token)
    requires WellReplaced(s) && Lived(s)
    ensures WellReplaced(Complete(s, throttled, n, token).db)
  {
    hide WellReplaced, MarkAllExpired, EvaluationOf, DueOthers, FinishNode, BlocksCompletion, RuntimeOf;
    if n < |s.nodes| && s.nodes[n].life.token == Some(token) {
      var run := s.nodes[n].reg.run;
      var t := MarkAllExpired(s, DueOthers(s, run, n, |s.nodes|));
      assert LifeShape(s.nodes[n].life);
      FinishReplaced(s, n);
      MarkAllReplaced(s, DueOthers(s, run, n, |s.nodes|));
      if run < |t.runs| && TransitionRun(t.runs[run], RunCompleted, t.clock).Some? {
        var u := t.(runs := t.runs[run := TransitionRun(t.runs[run], RunCompleted, t.clock).value]);
        ReplacedElsewhere(t, u);
        FinishReplaced(u, n);
      }
    }
  }

  lemma SweepReplaced(s: Database, n: Id)
    requires WellReplaced(s) && Lived(s) && n < |s.nodes|
    ensures WellReplaced(Sweep(s, n))
  {
    hide Evaluate, RecordAcks, Attributed, TransitionRun, WellReplaced, CommandReplaces;
    assert LifeShape(s.nodes[n].life);
    NodeOf(s, n);
    SweepAttempts(s, n);
    SweepDesignations(s, n);
    ReplacedFrame(s, Sweep(s, n));
  }

  lemma SweepAttempts(s: Database, n: Id)
    requires n < |s.nodes|
    ensures SameAttempts(s, Sweep(s, n))
  {
    SweepExpires(s, n);
  }

  lemma SweepDesignations(s: Database, n: Id)
    requires Lived(s) && n < |s.nodes| && NodeReplaces(s, n)
    ensures SameDesignations(s, Sweep(s, n))
  {
    hide Evaluate, RecordAcks, Attributed, TransitionRun;
    assert LifeShape(s.nodes[n].life);
  }

  lemma {:induction false} SweepAllReplaced(s: Database, ids: seq<Id>)
    requires WellReplaced(s) && Lived(s) && forall i | 0 <= i < |ids| :: ids[i] < |s.nodes|
    ensures WellReplaced(SweepAll(s, ids)) && Lived(SweepAll(s, ids))
  {
    hide Sweep, WellReplaced, Lived, Ages, Calm;
    if ids != [] {
      var t := SweepAll(s, ids[..|ids| - 1]);
      SweepAllReplaced(s, ids[..|ids| - 1]);
      SweepReplaced(t, ids[|ids| - 1]);
      SweepLived(t, ids[|ids| - 1]);
    }
  }

  lemma SweepLived(s: Database, n: Id)
    requires Lived(s) && n < |s.nodes|
    ensures Lived(Sweep(s, n))
  {
    hide Sweep;
    SweepExpires(s, n);
    SweepQuiet(s, n);
    ExpiresAges(s, Sweep(s, n));
    AgesLived(s, Sweep(s, n));
  }

  // ---------------------------------------------------------------- registration and designation

  lemma RegisterReplaced(
    s: Database, cfg: Config, parent: Id, request: SpawnRequest, supersedes: Option<Id>, v: nat)
    requires WellReplaced(s) && parent < |s.nodes| && s.nodes[parent].reg.causedBy.None?
    ensures WellReplaced(Register(s, cfg, parent, request, supersedes, None, v))
  {
    var t := Register(s, cfg, parent, request, supersedes, None, v);
    forall m | 0 <= m < |t.nodes| ensures NodeReplaces(t, m) {
      if m < |s.nodes| { assert NodeReplaces(s, m); }
    }
    forall c | 0 <= c < |t.commands| ensures CommandReplaces(t, c) {
      assert CommandReplaces(s, c);
    }
  }

  /** A spawn under a replacement is always over its child budget. */
  lemma ReplacementsAreLeaves(s: Database, parent: Id)
    requires WellReplaced(s) && parent < |s.nodes| && ChildBudget(s, parent).None?
    ensures s.nodes[parent].reg.causedBy.None?
  {
    var cause := s.nodes[parent].reg.causedBy;
    assert NodeReplaces(s, parent);
    assert cause.Some? ==> CommandReplaces(s, cause.value);
  }

  /** The state in which a correction's newest attempt has just been registered and designated. */
  function Designated(s: Database, cfg: Config, parent: Id, c: Id, request: SpawnRequest): Database
    requires parent < |s.nodes| && c < |s.commands| && s.commands[c].order.target < |s.nodes|
  {
    var order := s.commands[c].order;
    Designate(Register(s, cfg, parent, request, Some(order.target), Some(c),
                       s.nodes[order.target].reg.instructionVersion + 1), c, |s.nodes|)
  }

  lemma DesignateReplaced(s: Database, cfg: Config, parent: Id, c: Id, request: SpawnRequest)
    requires WellReplaced(s) && parent < |s.nodes|
    requires ReplacementGuard(s, cfg, parent, c, request, false).None?
    requires s.commands[c].order.createdAt < s.clock
    ensures WellReplaced(Designated(s, cfg, parent, c, request))
  {
    hide GraphBudget;
    var t := Designated(s, cfg, parent, c, request);
    assert CommandReplaces(s, c);
    DesignatedNodes(s, cfg, parent, c, request);
    forall m | 0 <= m < |t.nodes| ensures NodeReplaces(t, m) {
      var node := t.nodes[m];
    }
    forall d | 0 <= d < |t.commands| ensures CommandReplaces(t, d) {
      assert CommandReplaces(s, d);
    }
  }

  lemma DesignatedNodes(s: Database, cfg: Config, parent: Id, c: Id, request: SpawnRequest)
    requires WellReplaced(s) && parent < |s.nodes|
    requires ReplacementGuard(s, cfg, parent, c, request, false).None?
    requires s.commands[c].order.createdAt < s.clock
    ensures var t := Designated(s, cfg, parent, c, request);
      forall m {:trigger t.nodes[m]} | 0 <= m < |t.nodes| :: NodeReplaces(t, m)
  {
    hide GraphBudget;
    var t := Designated(s, cfg, parent, c, request);
    assert CommandReplaces(s, c);
    forall m | 0 <= m < |t.nodes| ensures NodeReplaces(t, m) {
      if m < |s.nodes| { assert NodeReplaces(s, m); }
    }
  }
}
