/** A run of the control plane in which one command gets two replacements. */
module SecondAttempt {
  import opened Options
  import opened Domain
  import opened Scopes
  import opened Tools
  import opened Lineage
  import opened Transitions
  import opened Coherence
  import opened Growth
  import opened Corrections

  const LIMITS := Config(1000, 10, 10, "test", 10, 10, 10, 10, 10, 10, 10)

  const WORKER := SpawnRequest(None, "w", "old", {}, Cooperative)
  const REPLACEMENT := SpawnRequest(None, "w_replacement", "new", {}, Cooperative)
  const CORRECTION := CommandRequest(
    "k", None, Authorization(CorrectSubtree, 1, "fix", Some("new"), None, None, None, None, None, None, 0))

  /** A root spawns a worker, the operator corrects it, the root requests the replacement, nobody
      activates anything in time, and a lease scan passes. */
  const STORY: seq<Event> := [
    Event(0, false, OpCreateRun("root", "go", {})),
    Event(0, false, OpSpawn(0, 0, WORKER)),
    Event(0, false, OpIssue(HumanPrincipal(Some("op")), CORRECTION)),
    Event(0, false, OpReplace(0, 0, 0, REPLACEMENT)),
    Event(15, false, OpExpire(None))]

  const AGAIN := Event(0, false, OpReplace(0, 0, 0, REPLACEMENT))

  // ---------------------------------------------------------------- the rows along the way

  const RUN0 := Run(RunRunning, 0, 0, None)
  const ROOT := Node(
    Registration(0, None, None, None, "root", Cooperative, 0, 1, [Snap(0, 1), Snap(1, 1)], 1, "go", {}, 1),
    Life(Active, Some(0), Some(1), None, Some(1001)))
  const WORKER_REG := Registration(
    0, Some(0), None, None, "w", Cooperative, 1, 2, [Snap(0, 1), Snap(1, 1), Snap(2, 1)], 1, "old", {}, 2)
  const ATTEMPT_REG := Registration(
    0, Some(0), Some(1), Some(0), "w_replacement", Cooperative, 1, 3, [Snap(0, 1), Snap(1, 1), Snap(3, 1)], 2, "new", {}, 4)
  const UNBORN := Life(Pending, None, None, None, None)
  const LAPSED := Life(LeaseExpired, None, None, None, None)

  const MANIFEST := Manifest(
    "w_replacement", Cooperative, Digest("new"), 2, {}, 0, Contract(None, Digest(map[]), "test", {}, 0, 0, []))
  const ORDER := Order(
    0, HumanIssuer("op"), "k", Digest(CORRECTION), CorrectSubtree, 1, 2, 1, 2, None, Some(0), Some("new"), None,
    Some(MANIFEST), Some(Digest(MANIFEST)), 3)

  const OPEN_SCOPES := [Scope(0, None, 1, ScopeActive), Scope(0, Some(0), 1, ScopeActive)]
  const CORRECTED_SCOPES := OPEN_SCOPES + [Scope(0, Some(1), 2, ScopeSuperseded)]

  function Started(): Database {
    State(1, 1, [RUN0], [ROOT], OPEN_SCOPES, map[], map[], [], map[], [], map[], [], map[])
  }

  function Spawned(): Database {
    State(2, 2, [RUN0], [ROOT, Node(WORKER_REG, UNBORN)], OPEN_SCOPES + [Scope(0, Some(1), 1, ScopeActive)],
          map[1 := Intent(0, 1, 12, None)], map[], [], map[], [], map[], [], map[])
  }

  function Corrected(): Database {
    State(3, 2, [RUN0], [ROOT, Node(WORKER_REG, UNBORN)], CORRECTED_SCOPES,
          map[1 := Intent(0, 1, 12, None)], map[], [Command(ORDER, None, Some(ReplacementPending))],
          map[], [], map[], [], map[])
  }

  function Requested(): Database {
    State(4, 3, [RUN0], [ROOT, Node(WORKER_REG, UNBORN), Node(ATTEMPT_REG, UNBORN)],
          CORRECTED_SCOPES + [Scope(0, Some(2), 1, ScopeActive)],
          map[1 := Intent(0, 1, 12, None), 2 := Intent(0, 2, 14, None)], map[],
          [Command(ORDER, Some(2), Some(ReplacementPending))], map[], [], map[], [], map[])
  }

  function Expired(): Database {
    State(20, 3, [RUN0], [ROOT, Node(WORKER_REG, LAPSED), Node(ATTEMPT_REG, LAPSED)],
          CORRECTED_SCOPES + [Scope(0, Some(2), 1, ScopeActive)],
          map[1 := Intent(0, 1, 12, None), 2 := Intent(0, 2, 14, None)], map[],
          [Command(ORDER, Some(2), Some(ActivationExpired))],
          map[AckKey(0, 1, LeaseExpiredAck) := Ack(2, 20)], [], map[], [], map[])
  }

  // ---------------------------------------------------------------- one step at a time

  lemma StartStep()
    ensures Step(EMPTY, LIMITS, STORY[0]).db == Started()
  {
    assert CountActiveRuns([]) == 0;
  }

  /** The root's scopes are current as long as the first two scopes are untouched. */
  lemma RootCurrent(scopes: seq<Scope>)
    requires |scopes| >= 2 && scopes[0] == OPEN_SCOPES[0] && scopes[1] == OPEN_SCOPES[1]
    ensures Evaluate(scopes, ROOT.reg) == Evaluation(true, Active, [])
  {
    var snapshot := ROOT.reg.snapshot;
    assert snapshot[..1][..0] == [];
    assert Mismatches(scopes, 0, snapshot[..1][..0]) == [];
    assert Mismatches(scopes, 0, snapshot[..1]) == [];
    assert Mismatches(scopes, 0, snapshot) == [];
  }

  lemma RootLive(s: Database)
    requires s.runs == [RUN0] && |s.nodes| >= 1 && s.nodes[0] == ROOT && s.clock < 1001
    requires |s.scopes| >= 2 && s.scopes[0] == OPEN_SCOPES[0] && s.scopes[1] == OPEN_SCOPES[1]
    ensures RuntimeOf(s, 0).allowed
  {
    RootCurrent(s.scopes);
  }

  lemma {:induction false} CountsWithin(nodes: seq<Node>, run: Id, parent: Id)
    ensures CountNodes(nodes, run) <= |nodes| && CountChildren(nodes, run, parent) <= |nodes|
  {
    if nodes != [] {
      CountsWithin(nodes[..|nodes| - 1], run, parent);
    }
  }

  lemma Room(s: Database)
    requires 1 <= |s.nodes| < 10 && s.nodes[0] == ROOT
    ensures GraphBudget(s, LIMITS, 0).None?
  {
    CountsWithin(s.nodes, 0, 0);
  }

  lemma SpawnStep()
    ensures Step(Started(), LIMITS, STORY[1]).db == Spawned()
  {
    hide RuntimeOf, GraphBudget;
    var u := Tick(Started(), STORY[1]);
    RootLive(u);
    Room(u);
    assert ROOT.reg.snapshot + [Snap(2, 1)] == WORKER_REG.snapshot;
  }

  lemma CorrectionPlanned(u: Database)
    requires u == Spawned().(clock := 3)
    ensures PlanCorrection(u, LIMITS, CORRECTION) == Planned(map[], Some(MANIFEST))
    ensures ReplacementParent(u, 1) == Some(0)
  {
    hide RuntimeOf;
    RootLive(u);
    assert "w" + "_replacement" == "w_replacement";
  }

  lemma CorrectStep()
    ensures Step(Spawned(), LIMITS, STORY[2]).db == Corrected()
  {
    hide RuntimeOf, PlanCorrection, ReplacementParent, Reaches, ParentsOf;
    var u := Tick(Spawned(), STORY[2]);
    CorrectionPlanned(u);
    assert CountCommands(u.commands, 0) == 0;
  }

  lemma ReplacementFits(s: Database, request: SpawnRequest)
    requires s.runs == [RUN0] && 2 <= |s.nodes| < 10 && s.nodes[0] == ROOT && s.nodes[1].reg == WORKER_REG
    requires |s.scopes| >= 3 && s.scopes[2] == CORRECTED_SCOPES[2]
    requires |s.commands| == 1 && s.commands[0].order == ORDER && request == REPLACEMENT
    ensures ReplacementGuard(s, LIMITS, 0, 0, request, true).None?
  {
    hide GraphBudget;
  }

  lemma RequestStep()
    ensures Step(Corrected(), LIMITS, STORY[3]).db == Requested()
  {
    hide RuntimeOf, GraphBudget, ReplacementGuard;
    var u := Tick(Corrected(), STORY[3]);
    RootLive(u);
    Room(u);
    ReplacementFits(u, REPLACEMENT);
    GuardSplits(u, LIMITS, 0, 0, REPLACEMENT);
    assert ROOT.reg.snapshot + [Snap(3, 1)] == ATTEMPT_REG.snapshot;
  }

  lemma WorkerAttributed(s: Database)
    requires s.scopes == Requested().scopes && |s.nodes| == 3 && s.nodes[1].reg == WORKER_REG && s.nodes[2].reg == ATTEMPT_REG
    requires |s.commands| == 1 && s.commands[0].order == ORDER
    ensures AttributedTo(s, 1) == [0] && AttributedTo(s, 2) == []
  {
    var outdated := Mismatch(2, 1, Some(2), Some(ScopeSuperseded), ScopeIsSuperseded);
    RootCurrent(s.scopes);
    assert WORKER_REG.snapshot[..2] == ROOT.reg.snapshot && ATTEMPT_REG.snapshot[..2] == ROOT.reg.snapshot;
    assert Mismatches(s.scopes, 0, WORKER_REG.snapshot) == [outdated];
    assert Mismatches(s.scopes, 0, ATTEMPT_REG.snapshot) == [];
    assert Blames([outdated], 2, 2) by { assert [outdated][0].scope == 2; }
    assert s.commands[..0] == [];
    assert Attributed(s.commands[..0], [outdated], 0) == [];
    NothingAttributed(s.commands, 0);
  }

  /** The scan finds no stale lease and the two intents that have run out. */
  lemma ScanFinds(u: Database)
    requires u == Requested().(clock := 20)
    ensures StaleNodes(u, None) == [1, 2]
  {
    assert StaleLeases(u, None, 0) == [] && StaleLeases(u, None, 1) == [] && StaleLeases(u, None, 2) == [];
    assert StaleIntents(u, None, 0) == [] && StaleIntents(u, None, 1) == [] && StaleIntents(u, None, 2) == [1];
  }

  lemma ExpireStep()
    ensures Step(Requested(), LIMITS, STORY[4]).db == Expired()
  {
    hide AttributedTo, StaleNodes;
    var u := Tick(Requested(), STORY[4]);
    ScanFinds(u);
    var one := Sweep(u, 1);
    WorkerSwept(u);
    AttemptSwept(one);
    SweepBoth(u);
  }

  /** After the first sweep: the worker is expired and has acknowledged the correction. */
  function HalfExpired(): Database {
    Requested().(clock := 20, nodes := [ROOT, Node(WORKER_REG, LAPSED), Node(ATTEMPT_REG, UNBORN)],
                 acks := map[AckKey(0, 1, LeaseExpiredAck) := Ack(2, 20)])
  }

  lemma WorkerSwept(u: Database)
    requires u == Requested().(clock := 20)
    ensures Sweep(u, 1) == HalfExpired()
  {
    hide AttributedTo;
    var t := SetStatus(u, 1, LeaseExpired);
    WorkerAttributed(t);
    assert [0][..0] == [];
  }

  lemma AttemptSwept(u: Database)
    requires u == HalfExpired()
    ensures Sweep(u, 2) == Expired()
  {
    hide AttributedTo;
    var t := LapseReplacement(SetStatus(u, 2, LeaseExpired), 2);
    WorkerAttributed(t);
  }

  lemma SweepBoth(u: Database)
    requires |u.nodes| == 3
    ensures SweepAll(u, [1, 2]) == Sweep(Sweep(u, 1), 2)
  {
    hide Sweep;
    assert [1, 2][..1] == [1] && [1][..0] == [];
    assert SweepAll(u, []) == u;
    assert SweepAll(u, [1]) == Sweep(u, 1);
  }

  // ---------------------------------------------------------------- the run

  /** The story leads from the empty registry to the expired attempt. */
  lemma StoryEndsExpired()
    ensures After(EMPTY, LIMITS, STORY) == Expired()
  {
    hide Step;
    StartStep();
    SpawnStep();
    CorrectStep();
    RequestStep();
    ExpireStep();
    var rest := STORY[1..];
    assert rest[0] == STORY[1] && rest[1..][0] == STORY[2] && rest[1..][1..][0] == STORY[3];
    assert rest[1..][1..][1..][0] == STORY[4] && rest[1..][1..][1..][1..] == [];
    assert After(Requested(), LIMITS, rest[1..][1..][1..]) == Expired();
    assert After(Corrected(), LIMITS, rest[1..][1..]) == Expired();
    assert After(Spawned(), LIMITS, rest[1..]) == Expired();
    assert After(Started(), LIMITS, rest) == Expired();
  }

  /** One command can have two replacements: in a state that the code reaches from the empty registry,
      the root's second request registers another attempt for the same command. */
  lemma TwoAttemptsForOneCommand()
    ensures var s := After(EMPTY, LIMITS, STORY); var t := Step(s, LIMITS, AGAIN).db;
      && |s.nodes| == 3 && |t.nodes| == 4
      && s.nodes[2].reg.causedBy == Some(0) && t.nodes[3].reg.causedBy == Some(0)
      && |s.commands| == |t.commands| == 1
      && s.commands[0].replacementNode == Some(2) && t.commands[0].replacementNode == Some(3)
  {
    hide Step, RuntimeOf, GraphBudget, ReplacementGuard, CreateReplacement, Coherent;
    StoryEndsExpired();
    var u := Tick(Expired(), AGAIN);
    RootLive(u);
    Room(u);
    ReplacementFits(u, REPLACEMENT);
    SecondRequest(u);
  }

  lemma SecondRequest(u: Database)
    requires u == Tick(Expired(), AGAIN) && RuntimeOf(u, 0).allowed && GraphBudget(u, LIMITS, 0).None?
    requires ReplacementGuard(u, LIMITS, 0, 0, REPLACEMENT, true).None?
    ensures var t := Step(Expired(), LIMITS, AGAIN).db;
      && |t.nodes| == 4 && t.nodes[3].reg.causedBy == Some(0)
      && |t.commands| == 1 && t.commands[0].replacementNode == Some(3)
  {
    hide RuntimeOf, GraphBudget, ReplacementGuard, Register, Seal;
    AttemptRegisteredExactly(u, LIMITS, false, 0, 0, 0, REPLACEMENT);
    GuardSplits(u, LIMITS, 0, 0, REPLACEMENT);
    CommandsStay(u);
  }

  lemma CommandsStay(u: Database)
    requires |u.nodes| >= 2 && |u.commands| == 1 && u.commands[0].order.target == 1
    ensures |Register(u, LIMITS, 0, REPLACEMENT, Some(1), Some(0), u.nodes[1].reg.instructionVersion + 1).commands| == 1
  {
  }
}
