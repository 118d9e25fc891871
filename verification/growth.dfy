/** The services that register nodes, runs, commands and proposals keep the registry coherent. */
module Growth {
  import opened Options
  import opened Domain
  import opened Scopes
  import opened Tools
  import opened Transitions
  import opened Frames
  import opened Tree
  import opened Fences
  import opened Revocation
  import opened Lives
  import opened Credentials
  import opened Replacements
  import opened Admissions
  import opened Conservation
  import opened Attribution
  import opened Authority
  import opened Coherence
  import opened Steps

  // ---------------------------------------------------------------- services and proposals

  lemma SeedCoherent(s: Database, run: Id)
    requires Coherent(s) && Past(s)
    ensures var t := SeedScenario(s, run).db; Coherent(t) && Evolves(s, t)
  {
    hide WellTreed, WellFenced, WellJoined, WellAuthorized, Lived, WellReplaced, WellAdmitted, WellMatched, WellSealed,
         Balanced, WellAcked, Evolves;
    var t := SeedScenario(s, run).db;
    SeedBalanced(s, run);
    assert t == s.(services := t.services);
    RowsCoherent(s, t);
    WellAuthorizedSame(s, t);
    SameEvolves(s, t);
  }

  /** Only service rows or proposals differ. */
  lemma RowsCoherent(s: Database, t: State)
    requires Coherent(s) && t == s.(services := t.services, proposals := t.proposals)
    ensures WellTreed(t) && WellFenced(t) && WellJoined(t) && Lived(t) && WellSealed(t) && WellReplaced(t)
    ensures WellAdmitted(t) && WellAcked(t) && WellMatched(t)
  {
    hide RightlyIssued, RightlySourced, ProposalBound, CommandFences, ScopeFenced, NodeLinked, NodeReplaces,
         CommandReplaces, EnvelopeSound, AttemptAdmitted, WithinLimit, DenialRight, MatchRight;
    TreeFrame(s, t);
    GrowFenced(s, t);
    JoinedFrame(s, t);
    SealedFrame(s, t);
    ReplacedElsewhere(s, t);
    RowsLived(s, t);
    CausesInRange(s);
    AdmittedFrame(s, t);
    AckedFrame(s, t);
    ActorsInRange(s);
    MatchedFrame(s, t);
  }

  lemma RowsLived(s: State, t: State)
    requires Lived(s) && t.nodes == s.nodes && t.intents == s.intents
    ensures Lived(t)
  {
    forall n | 0 <= n < |t.nodes| ensures LifeShape(t.nodes[n].life) && IntentMatches(t, n) {
      assert IntentMatches(s, n);
    }
  }

  lemma WellAuthorizedSame(s: State, t: State)
    requires WellAuthorized(s) && t == s.(services := t.services)
    ensures WellAuthorized(t)
  {
    AuthorizedFrame(s, t);
  }

  lemma ProposeCoherent(
    s: Database, cfg: Config, throttled: bool, reporter: Id, token: Token, target: Id, kind: ProposalType, reason: string)
    requires Coherent(s) && Past(s)
    ensures var t := Propose(s, cfg, throttled, reporter, token, target, kind, reason).db; Coherent(t) && Evolves(s, t)
  {
    hide WellTreed, WellFenced, WellJoined, WellAuthorized, Lived, WellReplaced, WellAdmitted, WellMatched, WellSealed,
         Balanced, WellAcked, Evolves, RuntimeOf;
    var t := Propose(s, cfg, throttled, reporter, token, target, kind, reason).db;
    assert t == s.(proposals := t.proposals);
    RowsCoherent(s, t);
    ProposeAuthorized(s, cfg, throttled, reporter, token, target, kind, reason);
    SameEvolves(s, t);
  }

  lemma ReviewCoherent(s: Database, p: Id, authorization: Option<Authorization>, reviewer: string)
    requires Coherent(s) && Past(s)
    ensures var t := Review(s, p, authorization, reviewer).db; Coherent(t) && Evolves(s, t)
  {
    hide WellTreed, WellFenced, WellJoined, WellAuthorized, Lived, WellReplaced, WellAdmitted, WellMatched, WellSealed,
         Balanced, WellAcked, Evolves;
    var t := Review(s, p, authorization, reviewer).db;
    assert t == s.(proposals := t.proposals);
    RowsCoherent(s, t);
    ReviewAuthorized(s, p, authorization, reviewer);
    SameEvolves(s, t);
  }

  // ---------------------------------------------------------------- registration

  /** One node registers and nothing else that an invariant reads about the older rows changes. */
  ghost predicate Registers(s: Database, t: State) {
    && t.clock == s.clock && Extends(s, t) && |t.commands| == |s.commands| && |t.nodes| == |s.nodes| + 1
    && t.attempts == s.attempts && t.matches == s.matches && t.acks == s.acks && t.services == s.services
    && t.proposals == s.proposals && s.runs <= t.runs && s.scopes <= t.scopes
    && (forall n {:trigger t.nodes[n]} | 0 <= n < |s.nodes| :: t.nodes[n] == s.nodes[n])
    && (forall n | n in s.intents :: n in t.intents && t.intents[n] == s.intents[n])
    && (forall n | n in t.intents && n !in s.intents :: n == |s.nodes|)
    && (forall k | |s.scopes| <= k < |t.scopes| :: t.scopes[k].version == 1 && t.scopes[k].status == ScopeActive)
    && (forall r | |s.runs| <= r < |t.runs| :: t.runs[r].status == RunRunning && t.runs[r].runScope >= |s.scopes|)
  }

  /** The registry stays coherent once the tree, the lives, the credentials and the corrections are seen to. */
  lemma RegistersCoherent(s: Database, t: State)
    requires Coherent(s) && Past(s) && Registers(s, t)
    requires WellTreed(t) && WellJoined(t) && Lived(t) && WellSealed(t) && WellReplaced(t)
    ensures Coherent(t)
  {
    hide RightlyIssued, RightlySourced, ProposalBound, CommandFences, ScopeFenced, NodeLinked, NodeReplaces,
         CommandReplaces, EnvelopeSound, AttemptAdmitted, WithinLimit, DenialRight, MatchRight, WellJoined, Lived;
    GrowFenced(s, t);
    CausesInRange(s);
    AdmittedFrame(s, t);
    AckedFrame(s, t);
    ActorsInRange(s);
    MatchedFrame(s, t);
    AuthorizedFrame(s, t);
  }

  lemma RegistersEvolves(s: Database, t: State)
    requires Registers(s, t) && EnvelopesStay(s, t) && JoinsLive(s, t, |s.nodes|) && Lived(s)
    ensures Evolves(s, t)
  {
    hide RuntimeOf;
    forall n | 0 <= n < |s.nodes| ensures NodeAges(s, t, n) {
      assert n in t.intents <==> n in s.intents;
    }
  }

  lemma CreateRunCoherent(s: Database, cfg: Config, role: string, instruction: Json, capabilities: set<Capability>)
    requires Coherent(s) && Past(s)
    ensures var t := CreateRun(s, cfg, role, instruction, capabilities).db; Coherent(t) && Evolves(s, t)
  {
    hide WellTreed, WellJoined, Lived, WellReplaced, WellAdmitted, WellMatched, WellSealed, WellAuthorized,
         Balanced, WellAcked, Evolves;
    var t := CreateRun(s, cfg, role, instruction, capabilities).db;
    if t == s {
      SameEvolves(s, t);
    } else {
      CreateRunTree(s, cfg, role, instruction, capabilities);
      RunJoined(s, t);
      CreateRunRows(s, cfg, role, instruction, capabilities);
      assert Registers(s, t) by { CreateRunRegisters(s, cfg, role, instruction, capabilities); }
      RegistersCoherent(s, t);
      RegistersEvolves(s, t);
    }
  }

  lemma CreateRunRegisters(s: Database, cfg: Config, role: string, instruction: Json, capabilities: set<Capability>)
    requires Lived(s) && CreateRun(s, cfg, role, instruction, capabilities).db != s
    ensures var t := CreateRun(s, cfg, role, instruction, capabilities).db; Registers(s, t) && EnvelopesStay(s, t)
  {
  }

  lemma CreateRunRows(s: Database, cfg: Config, role: string, instruction: Json, capabilities: set<Capability>)
    requires Lived(s) && WellSealed(s) && WellReplaced(s)
    requires CreateRun(s, cfg, role, instruction, capabilities).db != s
    ensures var t := CreateRun(s, cfg, role, instruction, capabilities).db;
      Lived(t) && WellSealed(t) && WellReplaced(t) && JoinsLive(s, t, |s.nodes|) && EnvelopesStay(s, t)
  {
    var t := CreateRun(s, cfg, role, instruction, capabilities).db;
    SealedFrame(s, t);
    forall n | 0 <= n < |t.nodes| ensures LifeShape(t.nodes[n].life) && IntentMatches(t, n) {
      if n < |s.nodes| { assert LifeShape(s.nodes[n].life) && IntentMatches(s, n); }
    }
    NewcomerReplaced(s, t);
  }

  /** A newcomer that is no replacement and has an ordinary parent. */
  lemma NewcomerReplaced(s: State, t: State)
    requires WellReplaced(s) && t.commands == s.commands && |t.nodes| == |s.nodes| + 1
    requires forall n {:trigger t.nodes[n]} | 0 <= n < |s.nodes| :: t.nodes[n] == s.nodes[n]
    requires t.nodes[|s.nodes|].reg.causedBy.None?
    requires t.nodes[|s.nodes|].reg.parent.Some? ==>
      && t.nodes[|s.nodes|].reg.parent.value < |s.nodes|
      && s.nodes[t.nodes[|s.nodes|].reg.parent.value].reg.causedBy.None?
    ensures WellReplaced(t)
  {
    forall n | 0 <= n < |t.nodes| ensures NodeReplaces(t, n) {
      if n < |s.nodes| { assert NodeReplaces(s, n); }
    }
    forall c | 0 <= c < |t.commands| ensures CommandReplaces(t, c) {
      assert CommandReplaces(s, c);
    }
  }

  // ---------------------------------------------------------------- spawn

  lemma RegisterRegisters(
    s: Database, cfg: Config, parent: Id, request: SpawnRequest, supersedes: Option<Id>, causedBy: Option<Id>, v: nat)
    requires parent < |s.nodes| && Lived(s)
    ensures var t := Register(s, cfg, parent, request, supersedes, causedBy, v);
      && Registers(s, t) && t.envelopes == s.envelopes && t.runs == s.runs && t.commands == s.commands
      && t.nodes[|s.nodes|].reg.parent == Some(parent) && t.nodes[|s.nodes|].reg.run == s.nodes[parent].reg.run
      && t.nodes[|s.nodes|].reg.causedBy == causedBy && t.nodes[|s.nodes|].reg.registeredAt == s.clock
      && |s.nodes| in t.intents && RegisteredAs(t.nodes[|s.nodes|].reg) == Digested(request, causedBy)
      && SpawnAnswer(s, cfg) == SpawnResponse(|s.nodes|, t.intents[|s.nodes|].token, t.intents[|s.nodes|].expiresAt)
  {
    assert |s.nodes| !in s.intents;
  }

  /** Sealing the answer changes only envelopes. */
  lemma SealedRegisters(
    s: Database, t: Database, cfg: Config, op: RecoveryOp, caller: Id, k: Option<string>,
    digest: Digest<RecoveryPayload>, response: Response)
    requires Coherent(s) && Past(s) && Registers(s, t) && t.envelopes == s.envelopes && op != ActivationOp
    requires caller < |s.nodes| && (k.Some? ==> EnvelopeKey(op, caller, k.value) !in s.envelopes)
    requires t.nodes[|s.nodes|].reg.parent == Some(caller) && |s.nodes| in t.intents
    requires digest == RegisteredAs(t.nodes[|s.nodes|].reg)
    requires op == SpawnOp ==> t.nodes[|s.nodes|].reg.causedBy.None?
    requires response == SpawnResponse(|s.nodes|, t.intents[|s.nodes|].token, t.intents[|s.nodes|].expiresAt)
    requires WellTreed(t) && WellJoined(t) && Lived(t) && WellReplaced(t) && JoinsLive(s, t, |s.nodes|)
    ensures var u := SealedIfKeyed(t, cfg, op, caller, k, |s.nodes|, digest, response); Coherent(u) && Evolves(s, u)
  {
    hide Coherent, Registers, WellTreed, WellJoined, Lived, WellReplaced, WellSealed, Evolves, SealedIfKeyed;
    RegistersCredentials(s, t);
    var u := SealedIfKeyed(t, cfg, op, caller, k, |s.nodes|, digest, response);
    SealNewborn(s, t, cfg, op, caller, k, digest, response);
    SealEnvelopes(t, cfg, op, caller, k, |s.nodes|, digest, response);
    StaySame(s, t, u);
    SealRows(t, cfg, op, caller, k, |s.nodes|, digest, response);
    SealOnly(s, t, u);
    RegistersCoherent(s, u);
    RegistersEvolves(s, u);
  }

  lemma RegistersCredentials(s: Database, t: State)
    requires Coherent(s) && Registers(s, t) && t.envelopes == s.envelopes
    ensures SameCredentials(s, t) && WellSealed(s) && Lived(s) && |t.nodes| == |s.nodes| + 1
  {
  }

  lemma SealRows(
    t: Database, cfg: Config, op: RecoveryOp, caller: Id, k: Option<string>, subject: Id,
    digest: Digest<RecoveryPayload>, response: Response)
    requires caller < |t.nodes|
    ensures var u := SealedIfKeyed(t, cfg, op, caller, k, subject, digest, response); u == t.(envelopes := u.envelopes)
  {
  }

  lemma SealOnly(s: Database, t: Database, u: State)
    requires Registers(s, t) && u == t.(envelopes := u.envelopes)
    requires WellTreed(t) && WellJoined(t) && Lived(t) && WellReplaced(t) && JoinsLive(s, t, |s.nodes|)
    ensures Registers(s, u) && WellTreed(u) && WellJoined(u) && Lived(u) && WellReplaced(u) && JoinsLive(s, u, |s.nodes|)
  {
    hide RuntimeOf, NodeLinked, NodeReplaces, CommandReplaces;
    TreeFrame(t, u);
    JoinedFrame(t, u);
    RowsLived(t, u);
    ReplacedElsewhere(t, u);
    RegistersSame(s, t, u);
  }

  lemma RegistersSame(s: Database, t: State, u: State)
    requires Registers(s, t) && u == t.(envelopes := u.envelopes)
    ensures Registers(s, u)
  {
  }

  lemma LiveIsUnrevoked(s: Database, n: Id)
    requires WellTreed(s) && WellFenced(s) && n < |s.nodes| && RuntimeOf(s, n).allowed
    ensures !Revoked(s, n)
  {
    LazyIsEager(s, n);
  }

  lemma SpawnRegisters(s: Database, cfg: Config, parent: Id, request: SpawnRequest)
    requires Coherent(s) && Past(s) && parent < |s.nodes| && RuntimeOf(s, parent).allowed
    requires ChildBudget(s, parent).None? && request.capabilities <= s.nodes[parent].reg.capabilities
    ensures var t := Register(s, cfg, parent, request, None, None, 1);
      WellTreed(t) && WellJoined(t) && Lived(t) && WellReplaced(t) && JoinsLive(s, t, |s.nodes|)
  {
    hide Register, WellTreed, WellFenced, WellJoined, Lived, WellReplaced, RuntimeOf, Revoked, ChildBudget;
    var t := Register(s, cfg, parent, request, None, None, 1);
    LiveIsUnrevoked(s, parent);
    RegisterRegisters(s, cfg, parent, request, None, None, 1);
    RegisterTree(s, cfg, parent, request, None, None, 1);
    RegisterJoined(s, t, parent);
    RegisterKeeps(s, cfg, parent, request, None, None, 1);
    ReplacementsAreLeaves(s, parent);
    RegisterReplaced(s, cfg, parent, request, None, 1);
  }

  lemma SpawnCoherent(s: Database, cfg: Config, throttled: bool, parent: Id, token: Token, request: SpawnRequest)
    requires Coherent(s) && Past(s)
    ensures var t := CreateSpawn(s, cfg, throttled, parent, token, request).db; Coherent(t) && Evolves(s, t)
  {
    hide Coherent, Past, Evolves, RuntimeOf, GraphBudget, ChildBudget, RecoverSpawn, Register, SealedIfKeyed, Registers,
         WellTreed, WellFenced, WellJoined, Lived, WellReplaced;
    assert Coherent(s);
    SameEvolves(s, s);
    if parent < |s.nodes| {
      var key := EnvelopeKey(SpawnOp, parent, if request.operationKey.Some? then request.operationKey.value else "");
      if key in s.envelopes { RecoverSpawnCoherent(s, cfg, key); }
      if && RuntimeOf(s, parent).allowed && ChildBudget(s, parent).None?
         && request.capabilities <= s.nodes[parent].reg.capabilities
         && (request.operationKey.Some? ==> key !in s.envelopes) {
        var t := Register(s, cfg, parent, request, None, None, 1);
        SpawnRegisters(s, cfg, parent, request);
        assert Lived(s) by { LivedOf(s); }
        RegisterRegisters(s, cfg, parent, request, None, None, 1);
        SealedRegisters(s, t, cfg, SpawnOp, parent, request.operationKey, Digested(request, None), SpawnAnswer(s, cfg));
      }
    }
  }

  lemma LivedOf(s: State)
    requires Coherent(s)
    ensures Lived(s)
  {
  }

  /** An answer from an envelope registers nothing; it may rotate the activation token. */
  lemma RecoverSpawnCoherent(s: Database, cfg: Config, key: EnvelopeKey)
    requires Coherent(s) && Past(s) && key in s.envelopes && key.op != ActivationOp
    ensures var t := RecoverSpawn(s, cfg, key).db; Coherent(t) && Evolves(s, t)
  {
    hide RecoverSpawn, Quiet, Ages, WellSealed, WellReplaced, Attributable;
    var t := RecoverSpawn(s, cfg, key).db;
    RecoverSpawnQuiet(s, cfg, key);
    RecoverSpawnAges(s, cfg, key);
    RecoverSpawnSealed(s, cfg, key);
    RecoverSpawnRows(s, cfg, key);
    ReplacedElsewhere(s, t);
    QuietAcknowledges(s, t);
    QuietCoherent(s, t);
  }

  lemma RecoverSpawnRows(s: Database, cfg: Config, key: EnvelopeKey)
    requires key in s.envelopes
    ensures var t := RecoverSpawn(s, cfg, key).db;
      t.nodes == s.nodes && t.commands == s.commands && t.acks == s.acks && EnvelopesStay(s, t)
  {
  }

  // ---------------------------------------------------------------- replacement

  lemma ReplacedRegisters(s: Database, cfg: Config, parent: Id, c: Id, request: SpawnRequest)
    requires Coherent(s) && Past(s) && parent < |s.nodes| && RuntimeOf(s, parent).allowed
    requires ReplacementGuard(s, cfg, parent, c, request, false).None?
    ensures var t := Designated(s, cfg, parent, c, request);
      && WellTreed(t) && WellJoined(t) && Lived(t) && WellReplaced(t) && JoinsLive(s, t, |s.nodes|) && Registers(s, t)
      && t.envelopes == s.envelopes && t.nodes[|s.nodes|].reg.parent == Some(parent) && |s.nodes| in t.intents
      && RegisteredAs(t.nodes[|s.nodes|].reg) == Digested(request, Some(c))
      && SpawnAnswer(s, cfg) == SpawnResponse(|s.nodes|, t.intents[|s.nodes|].token, t.intents[|s.nodes|].expiresAt)
  {
    hide Register, WellTreed, WellFenced, WellJoined, Lived, WellReplaced, RuntimeOf, Revoked, Registers;
    var order := s.commands[c].order;
    var v := s.nodes[order.target].reg.instructionVersion + 1;
    var r := Register(s, cfg, parent, request, Some(order.target), Some(c), v);
    var t := Designated(s, cfg, parent, c, request);
    GuardAttenuates(s, cfg, parent, c, request);
    LiveIsUnrevoked(s, parent);
    RegisterRegisters(s, cfg, parent, request, Some(order.target), Some(c), v);
    RegisterTree(s, cfg, parent, request, Some(order.target), Some(c), v);
    RegistersExtends(s, r);
    RegisterJoined(s, r, parent);
    RegisterKeeps(s, cfg, parent, request, Some(order.target), Some(c), v);
    DesignateReplaced(s, cfg, parent, c, request);
    DesignateRows(s, r, c);
  }

  lemma RegistersExtends(s: Database, t: State)
    requires Registers(s, t)
    ensures Extends(s, t) && |t.commands| == |s.commands| && |t.nodes| == |s.nodes| + 1
  {
  }

  lemma GuardAttenuates(s: Database, cfg: Config, parent: Id, c: Id, request: SpawnRequest)
    requires parent < |s.nodes| && ReplacementGuard(s, cfg, parent, c, request, false).None?
    ensures c < |s.commands| && s.commands[c].order.target < |s.nodes|
    ensures request.capabilities <= s.nodes[parent].reg.capabilities
  {
    hide GraphBudget, RetryAllowed;
  }

  lemma DesignateRows(s: Database, r: Database, c: Id)
    requires Registers(s, r) && c < |s.commands| && WellTreed(r) && WellJoined(r) && Lived(r) && r.envelopes == s.envelopes
    requires JoinsLive(s, r, |s.nodes|)
    ensures var t := Designate(r, c, |s.nodes|);
      && Registers(s, t) && WellTreed(t) && WellJoined(t) && Lived(t) && JoinsLive(s, t, |s.nodes|)
      && t.envelopes == s.envelopes && t.nodes == r.nodes && t.intents == r.intents
  {
    hide RuntimeOf;
    var t := Designate(r, c, |s.nodes|);
    TreeFrame(r, t);
    JoinedFrame(r, t);
    RowsLived(r, t);
  }

  lemma ReplaceCoherent(
    s: Database, cfg: Config, throttled: bool, parent: Id, token: Token, c: Id, request: SpawnRequest)
    requires Coherent(s) && Past(s)
    ensures var t := CreateReplacement(s, cfg, throttled, parent, token, c, request).db; Coherent(t) && Evolves(s, t)
  {
    hide Coherent, Past, Evolves, RuntimeOf, ReplacementGuard, RecoverSpawn, Register, SealedIfKeyed, Registers,
         WellTreed, WellFenced, WellJoined, Lived, WellReplaced, Designate;
    SameEvolves(s, s);
    if parent < |s.nodes| {
      var key := EnvelopeKey(ReplacementOp, parent, if request.operationKey.Some? then request.operationKey.value else "");
      if key in s.envelopes { RecoverSpawnCoherent(s, cfg, key); }
      if && RuntimeOf(s, parent).allowed && ReplacementGuard(s, cfg, parent, c, request, false).None?
         && (request.operationKey.Some? ==> key !in s.envelopes) {
        GuardAttenuates(s, cfg, parent, c, request);
        ReplacedRegisters(s, cfg, parent, c, request);
        SealedRegisters(s, Designated(s, cfg, parent, c, request), cfg, ReplacementOp, parent, request.operationKey,
                        Digested(request, Some(c)), SpawnAnswer(s, cfg));
      }
    }
  }

  // ---------------------------------------------------------------- commands

  lemma IssuesCoherent(
    s: Database, cfg: Config, principal: Principal, request: CommandRequest, t: State, x: Command, closed: Run)
    requires Coherent(s) && Past(s) && Shaped(request.body) && request.body.target < |s.nodes|
    requires AuthorityGuard(s, principal, request).None?
    requires FindCommand(s.commands, s.nodes[request.body.target].reg.run, IssuerOf(principal), request.key).None?
    requires Issues(s, t, IssuerOf(principal), request, x, closed)
    requires PlanCorrection(s, cfg, request).Planned? && x.order.manifest == PlanCorrection(s, cfg, request).manifest
    requires t.services == PlanCorrection(s, cfg, request).services
    requires x.order.replacementParent
             == if request.body.kind == CorrectSubtree then ReplacementParent(s, request.body.target) else None
    requires request.body.kind == CorrectSubtree ==> x.order.replacementParent.Some?
    ensures Coherent(t)
  {
    hide PlanCorrection, ReplacementParent, ProposalGuard, AuthorityGuard, RightlyIssued, WellTreed, WellFenced,
         WellJoined, Lived, WellSealed, WellReplaced, WellAdmitted, Balanced, WellAcked, WellMatched, WellAuthorized;
    GuardIsRightful(s, principal, request, x);
    CommitFenced(s, t, x, closed);
    TreeFrame(s, t);
    CommitJoined(s, t);
    RowsLived(s, t);
    SealedFrame(s, t);
    IssueReplaced(s, cfg, IssuerOf(principal), request, t, x, closed);
    CausesInRange(s);
    AdmittedFrame(s, t);
    PlanBalanced(s, cfg, request);
    AckedFrame(s, t);
    ActorsInRange(s);
    MatchedFrame(s, t);
    IssueAuthorized(s, t, IssuerOf(principal), request, x, closed);
  }

  lemma PlanKeeps(s: Database, cfg: Config, request: CommandRequest)
    requires request.body.target < |s.nodes| && Shaped(request.body) && PlanCorrection(s, cfg, request).Planned?
    ensures s.services.Keys <= PlanCorrection(s, cfg, request).services.Keys
  {
  }

  /** The proposal a command is bound to gets its first result. */
  lemma IssuesRows(s: Database, t: State, issuer: Issuer, request: CommandRequest, x: Command, closed: Run)
    requires Issues(s, t, issuer, request, x, closed) && s.services.Keys <= t.services.Keys
    ensures KeepsRows(s, t)
  {
    forall p | 0 <= p < |s.proposals| ensures ProposalMoves(s.proposals[p], t.proposals[p]) {
    }
  }

  lemma IssuesEvolves(s: Database, t: State, issuer: Issuer, request: CommandRequest, x: Command, closed: Run)
    requires Issues(s, t, issuer, request, x, closed)
    requires issuer.AgentIssuer? ==> issuer.node < |s.nodes| && RuntimeOf(s, issuer.node).allowed
    requires s.services.Keys <= t.services.Keys
    ensures Evolves(s, t)
  {
    IssuesRows(s, t, issuer, request, x, closed);
    hide RuntimeOf, ProposalGuard;
    AgesRefl(s);
    AgesElsewhere(s, s, t);
    forall r | 0 <= r < |s.runs| ensures RunMoves(s.runs[r], t.runs[r], s.clock) {
    }
  }

  lemma IssueCoherent(s: Database, cfg: Config, throttled: bool, principal: Principal, request: CommandRequest)
    requires Coherent(s) && Past(s)
    ensures var t := IssueCommand(s, cfg, throttled, principal, request).db; Coherent(t) && Evolves(s, t)
  {
    hide Coherent, Past, Evolves, IssueCommand, NewCommand, PlanCorrection, ReplacementParent, AuthorityGuard, RuntimeOf,
         Issues;
    SameEvolves(s, s);
    assert WellTreed(s) by { TreeOf(s); }
    IssueOrSame(s, cfg, throttled, principal, request);
    var t := IssueCommand(s, cfg, throttled, principal, request).db;
    if t != s {
      var x, closed := NewCommandIssues(s, cfg, IssuerOf(principal), request);
      IssuesCoherent(s, cfg, principal, request, t, x, closed);
      PlanKeeps(s, cfg, request);
      IssuesEvolves(s, t, IssuerOf(principal), request, x, closed);
    }
  }

  lemma TreeOf(s: State)
    requires Coherent(s)
    ensures WellTreed(s)
  {
  }

  // ---------------------------------------------------------------- every step, every run

  lemma ApplyCoherent(s: Database, cfg: Config, throttled: bool, op: Op)
    requires Coherent(s) && Past(s)
    ensures var t := Apply(s, cfg, throttled, op).db; Coherent(t) && Evolves(s, t)
  {
    hide Coherent, Past, Evolves, CreateRun, SeedScenario, CreateSpawn, CreateReplacement, Activate, Heartbeat, Checkpoint,
         Complete, IssueCommand, ExecuteAction, ExpireStale, Propose, Review;
    match op
    case OpCreateRun(role, instruction, capabilities) => CreateRunCoherent(s, cfg, role, instruction, capabilities);
    case OpSeed(run) => SeedCoherent(s, run);
    case OpSpawn(parent, token, spawn) => SpawnCoherent(s, cfg, throttled, parent, token, spawn);
    case OpReplace(parent, token, command, spawn) => ReplaceCoherent(s, cfg, throttled, parent, token, command, spawn);
    case OpActivate(node, activation) => ActivateCoherent(s, cfg, throttled, node, activation);
    case OpHeartbeat(node, token) => HeartbeatCoherent(s, cfg, throttled, node, token);
    case OpCheckpoint(node, token) => CheckpointCoherent(s, throttled, node, token);
    case OpComplete(node, token) => CompleteCoherent(s, throttled, node, token);
    case OpIssue(principal, order) => IssueCoherent(s, cfg, throttled, principal, order);
    case OpExecute(node, token, action) => ExecuteCoherent(s, cfg, throttled, node, token, action);
    case OpExpire(scan) => ExpireCoherent(s, scan);
    case OpPropose(node, token, target, kind, reason) =>
      ProposeCoherent(s, cfg, throttled, node, token, target, kind, reason);
    case OpReview(proposal, authorization, reviewer) => ReviewCoherent(s, proposal, authorization, reviewer);
  }

  /** Every transaction keeps the registry coherent. */
  lemma StepCoherent(s: Database, cfg: Config, e: Event)
    requires Coherent(s)
    ensures Coherent(Step(s, cfg, e).db)
    ensures Coherent(Tick(s, e)) && Past(Tick(s, e)) && Evolves(Tick(s, e), Step(s, cfg, e).db)
  {
    hide Coherent, Past, Evolves, Apply;
    TickCoherent(s, e);
    ApplyCoherent(Tick(s, e), cfg, e.throttled, e.op);
  }

  /** Every state of every run from a coherent state is coherent. */
  lemma {:induction false} AfterCoherent(s: Database, cfg: Config, events: seq<Event>)
    requires Coherent(s)
    ensures Coherent(After(s, cfg, events))
    decreases |events|
  {
    hide Coherent, Step;
    if events != [] {
      StepCoherent(s, cfg, events[0]);
      AfterCoherent(Step(s, cfg, events[0]).db, cfg, events[1..]);
    }
  }

  lemma EmptyCoherent()
    ensures Coherent(EMPTY)
  {
    assert Balanced(EMPTY.attempts, EMPTY.services);
    forall key: MatchKey ensures MatchRight(EMPTY, key) {
    }
    assert WellMatched(EMPTY);
  }

  /** The registry is coherent in every reachable state. */
  lemma ReachableCoherent(cfg: Config, events: seq<Event>)
    ensures Coherent(After(EMPTY, cfg, events))
  {
    EmptyCoherent();
    AfterCoherent(EMPTY, cfg, events);
  }
}
