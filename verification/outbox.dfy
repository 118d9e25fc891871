/** The telemetry outbox: violations are recorded with their events, and workers claim, export and
    acknowledge the events in separate transactions, with failures, crashes and claim expiry. */
module Outbox {
  import opened Options

  type Time = nat
  type WorkerId = nat
  type RowId = nat

  const CLAIM_TTL: nat := 30

  /** A stale commit, identified by the command and the action. */
  datatype Violation = Violation(run: nat, command: nat, action: nat)

  datatype Row = Row(
    event: Violation, delivered: Option<Time>, nextAttempt: Option<Time>, owner: Option<WorkerId>,
    claimExpires: Option<Time>, lastAttempt: Option<Time>, attempts: nat, lastError: Option<string>)

  function NewRow(v: Violation): Row { Row(v, None, None, None, None, None, 0, None) }

  // ---------------------------------------------------------------- the transactions

  predicate Claimable(row: Row, now: Time) {
    && row.delivered.None?
    && (row.nextAttempt.None? || row.nextAttempt.value <= now)
    && (row.owner.None? || (row.claimExpires.Some? && row.claimExpires.value <= now))
  }

  /** The first claimable rows, oldest first, up to the limit. */
  function Pending(rows: seq<Row>, now: Time, limit: nat): (ids: seq<RowId>)
    ensures |ids| <= limit && forall i | 0 <= i < |ids| :: ids[i] < |rows|
  {
    if rows == [] then [] else
      var older := Pending(rows[..|rows| - 1], now, limit);
      if |older| < limit && Claimable(rows[|rows| - 1], now) then older + [|rows| - 1] else older
  }

  function ClaimRow(row: Row, w: WorkerId, now: Time): Row {
    row.(owner := Some(w), claimExpires := Some(now + CLAIM_TTL), lastAttempt := Some(now), attempts := row.attempts + 1)
  }

  function ClaimRows(rows: seq<Row>, ids: seq<RowId>, w: WorkerId, now: Time): (r: seq<Row>)
    ensures |r| == |rows|
  {
    seq(|rows|, i requires 0 <= i < |rows| => if i in ids then ClaimRow(rows[i], w, now) else rows[i])
  }

  /** The acknowledgement and the failure record both check that the row is still this worker's. */
  predicate Holds(row: Row, w: WorkerId) { row.delivered.None? && row.owner == Some(w) }

  function Acknowledged(row: Row, now: Time): Row {
    row.(delivered := Some(now), lastError := None, nextAttempt := None, owner := None, claimExpires := None)
  }

  function Power(exponent: nat): nat { if exponent == 0 then 1 else 2 * Power(exponent - 1) }

  function Backoff(attempts: nat): nat {
    var wait := Power(if attempts < 8 then attempts else 8);
    if wait < 300 then wait else 300
  }

  function Failed(row: Row, error: string, now: Time): Row {
    row.(lastError := Some(error), nextAttempt := Some(now + Backoff(row.attempts)), owner := None, claimExpires := None)
  }

  /** The persistent tables. */
  class OutboxStore {
    var rows: seq<Row>
    var violations: seq<Violation>

    constructor ()
      ensures rows == [] && violations == []
    {
      rows, violations := [], [];
    }

    /** A violation and its event are inserted together, once. */
    method Scan(candidates: seq<Violation>) returns (created: nat)
      modifies this
      ensures (violations, rows) == Scanned(old(violations), old(rows), candidates)
      ensures created == |violations| - |old(violations)|
    {
      created := 0;
      for i := 0 to |candidates|
        invariant (violations, rows) == Scanned(old(violations), old(rows), candidates[..i])
        invariant created == |violations| - |old(violations)|
      {
        assert candidates[..i + 1][..i] == candidates[..i];
        if candidates[i] !in violations {
          violations := violations + [candidates[i]];
          rows := rows + [NewRow(candidates[i])];
          created := created + 1;
        }
      }
      assert candidates[..|candidates|] == candidates;
    }

    method ClaimPending(w: WorkerId, now: Time, limit: nat) returns (ids: seq<RowId>)
      modifies this`rows
      ensures ids == Pending(old(rows), now, limit)
      ensures rows == ClaimRows(old(rows), ids, w, now)
    {
      ids := [];
      for i := 0 to |rows|
        invariant rows == old(rows)
        invariant ids == Pending(rows[..i], now, limit)
      {
        assert rows[..i + 1][..i] == rows[..i];
        if |ids| < limit && Claimable(rows[i], now) {
          ids := ids + [i];
        }
      }
      assert rows[..|rows|] == rows;
      PendingDistinct(rows, now, limit);
      for k := 0 to |ids|
        invariant |rows| == |old(rows)|
        invariant forall i | 0 <= i < |rows| ::
                    rows[i] == if i in ids[..k] then ClaimRow(old(rows)[i], w, now) else old(rows)[i]
      {
        var i := ids[k];
        assert i !in ids[..k];
        rows := rows[i := ClaimRow(rows[i], w, now)];
        assert ids[..k + 1] == ids[..k] + [i];
      }
      assert ids[..|ids|] == ids;
    }

    method Acknowledge(id: RowId, w: WorkerId, now: Time) returns (ok: bool)
      modifies this`rows
      ensures ok == (id < |old(rows)| && Holds(old(rows)[id], w))
      ensures rows == if ok then old(rows)[id := Acknowledged(old(rows)[id], now)] else old(rows)
    {
      ok := id < |rows| && rows[id].delivered.None? && rows[id].owner == Some(w);
      if ok {
        rows := rows[id := rows[id].(delivered := Some(now), lastError := None, nextAttempt := None,
                                     owner := None, claimExpires := None)];
      }
    }

    method RecordFailure(id: RowId, w: WorkerId, error: string, now: Time) returns (ok: bool)
      modifies this`rows
      ensures ok == (id < |old(rows)| && Holds(old(rows)[id], w))
      ensures rows == if ok then old(rows)[id := Failed(old(rows)[id], error, now)] else old(rows)
    {
      ok := id < |rows| && rows[id].delivered.None? && rows[id].owner == Some(w);
      if ok {
        rows := rows[id := rows[id].(lastError := Some(error), nextAttempt := Some(now + Backoff(rows[id].attempts)),
                                     owner := None, claimExpires := None)];
      }
    }
  }

  function Scanned(violations: seq<Violation>, rows: seq<Row>, candidates: seq<Violation>): (seq<Violation>, seq<Row>) {
    if candidates == [] then (violations, rows) else
      var v := candidates[|candidates| - 1];
      var older := Scanned(violations, rows, candidates[..|candidates| - 1]);
      if v in older.0 then older else (older.0 + [v], older.1 + [NewRow(v)])
  }

  lemma {:induction false} PendingDistinct(rows: seq<Row>, now: Time, limit: nat)
    ensures forall i, j | 0 <= i < j < |Pending(rows, now, limit)| ::
      Pending(rows, now, limit)[i] < Pending(rows, now, limit)[j]
    ensures forall i | 0 <= i < |Pending(rows, now, limit)| :: Claimable(rows[Pending(rows, now, limit)[i]], now)
  {
    if rows != [] {
      var rest := rows[..|rows| - 1];
      PendingDistinct(rest, now, limit);
      var older, ids := Pending(rest, now, limit), Pending(rows, now, limit);
      forall i | 0 <= i < |ids| ensures Claimable(rows[ids[i]], now) {
        if i < |older| { assert ids[i] == older[i] && rest[older[i]] == rows[ids[i]]; }
      }
    }
  }

  // ---------------------------------------------------------------- the protocol

  /** Where a worker is with the row at hand. */
  datatype Stage = Between | Loaded(row: RowId) | Exported(row: RowId) | Broken(row: RowId)

  datatype Worker = Worker(queue: seq<RowId>, stage: Stage)

  /** The tables, how often each row was exported, and the workers. */
  datatype System = System(violations: seq<Violation>, rows: seq<Row>, exports: seq<nat>, workers: seq<Worker>)

  datatype Step =
    | ScanStep(candidates: seq<Violation>)
    | ClaimStep(w: WorkerId, now: Time, limit: nat)
    | LoadStep(w: WorkerId)
    | ExportStep(w: WorkerId, exported: bool, flushed: bool)   // metric and log, then the flush
    | BreakStep(w: WorkerId)                                   // the acknowledging transaction raised
    | AckStep(w: WorkerId, now: Time)
    | FailStep(w: WorkerId, error: string, now: Time)
    | CrashStep(w: WorkerId)

  function SetWorker(s: System, w: WorkerId, worker: Worker): System
    requires w < |s.workers|
  {
    s.(workers := s.workers[w := worker])
  }

  /** One transaction, export or crash; a step that a worker is not ready for does nothing. */
  function Next(s: System, step: Step): System {
    match step
    case ScanStep(candidates) =>
      var scanned := Scanned(s.violations, s.rows, candidates);
      s.(violations := scanned.0, rows := scanned.1,
         exports := s.exports + seq(if |scanned.1| > |s.rows| then |scanned.1| - |s.rows| else 0, _ => 0))
    case ClaimStep(w, now, limit) =>
      if w >= |s.workers| || s.workers[w] != Worker([], Between) then s else
        var ids := Pending(s.rows, now, limit);
        SetWorker(s, w, Worker(ids, Between)).(rows := ClaimRows(s.rows, ids, w, now))
    case LoadStep(w) =>
      if w >= |s.workers| || s.workers[w].stage != Between || s.workers[w].queue == [] then s else
        var id, rest := s.workers[w].queue[0], s.workers[w].queue[1..];
        if id < |s.rows| && Holds(s.rows[id], w) then SetWorker(s, w, Worker(rest, Loaded(id)))
        else SetWorker(s, w, Worker(rest, Between))
    case ExportStep(w, exported, flushed) =>
      if w >= |s.workers| || !s.workers[w].stage.Loaded? || s.workers[w].stage.row >= |s.exports| then s else
        var id := s.workers[w].stage.row;
        var stage := if exported && flushed then Exported(id) else Broken(id);
        SetWorker(s, w, s.workers[w].(stage := stage))
        .(exports := if exported then s.exports[id := s.exports[id] + 1] else s.exports)
    case BreakStep(w) =>
      if w >= |s.workers| || !s.workers[w].stage.Exported? then s else
        SetWorker(s, w, s.workers[w].(stage := Broken(s.workers[w].stage.row)))
    case AckStep(w, now) =>
      if w >= |s.workers| || !s.workers[w].stage.Exported? || s.workers[w].stage.row >= |s.rows| then s else
        var id := s.workers[w].stage.row;
        SetWorker(s, w, s.workers[w].(stage := Between))
        .(rows := if Holds(s.rows[id], w) then s.rows[id := Acknowledged(s.rows[id], now)] else s.rows)
    case FailStep(w, error, now) =>
      if w >= |s.workers| || !s.workers[w].stage.Broken? || s.workers[w].stage.row >= |s.rows| then s else
        var id := s.workers[w].stage.row;
        SetWorker(s, w, s.workers[w].(stage := Between))
        .(rows := if Holds(s.rows[id], w) then s.rows[id := Failed(s.rows[id], error, now)] else s.rows)
    case CrashStep(w) =>
      if w >= |s.workers| then s else SetWorker(s, w, Worker([], Between))
  }

  function Run(s: System, steps: seq<Step>): System
    decreases |steps|
  {
    if steps == [] then s else Run(Next(s, steps[0]), steps[1..])
  }

  // ---------------------------------------------------------------- invariants

  function Occurs(queue: seq<RowId>, id: RowId): nat {
    if queue == [] then 0 else (if queue[0] == id then 1 else 0) + Occurs(queue[1..], id)
  }

  /** How many exports of the row the worker may still make under the claims it has taken. */
  function MayExport(worker: Worker, id: RowId): nat {
    Occurs(worker.queue, id) + if worker.stage == Loaded(id) then 1 else 0
  }

  function MayExportAll(workers: seq<Worker>, id: RowId): nat {
    if workers == [] then 0 else
      MayExportAll(workers[..|workers| - 1], id) + MayExport(workers[|workers| - 1], id)
  }

  /** The shapes the schema checks, and delivery only after an export. */
  predicate RowKept(row: Row, exports: nat) {
    && (row.owner.Some? <==> row.claimExpires.Some?)
    && (row.owner.Some? ==> row.attempts >= 1)
    && (row.delivered.Some? ==>
          row.attempts >= 1 && exports >= 1 && row.lastError.None? && row.owner.None? && row.nextAttempt.None?)
  }

  /** Exports made and still possible are covered by the attempts counted. */
  ghost predicate Covered(s: System, id: RowId)
    requires id < |s.rows| && id < |s.exports|
  {
    RowKept(s.rows[id], s.exports[id]) && s.exports[id] + MayExportAll(s.workers, id) <= s.rows[id].attempts
  }

  predicate WorkerKept(s: System, worker: Worker) {
    && (forall i | 0 <= i < |worker.queue| :: worker.queue[i] < |s.rows|)
    && (!worker.stage.Between? ==> worker.stage.row < |s.rows|)
    && (worker.stage.Exported? && worker.stage.row < |s.exports| ==> s.exports[worker.stage.row] >= 1)
  }

  predicate OneToOne(violations: seq<Violation>, rows: seq<Row>) {
    && |rows| == |violations|
    && (forall i | 0 <= i < |rows| :: rows[i].event == violations[i])
    && (forall i, j | 0 <= i < j < |violations| :: violations[i] != violations[j])
  }

  ghost predicate WellKept(s: System) {
    && |s.exports| == |s.rows| && OneToOne(s.violations, s.rows)
    && (forall id {:trigger s.rows[id]} | 0 <= id < |s.rows| :: Covered(s, id))
    && (forall w {:trigger s.workers[w]} | 0 <= w < |s.workers| :: WorkerKept(s, s.workers[w]))
  }

  /** Rows are never removed, delivered rows never change, and exports only accumulate. */
  ghost predicate Frozen(s: System, t: System) {
    && |s.rows| <= |t.rows| && |s.exports| <= |t.exports| && s.violations <= t.violations
    && (forall id {:trigger t.rows[id]} | 0 <= id < |s.rows| :: s.rows[id].delivered.Some? ==> t.rows[id] == s.rows[id])
    && (forall id {:trigger t.exports[id]} | 0 <= id < |s.exports| :: s.exports[id] <= t.exports[id])
  }

  // ---------------------------------------------------------------- counting exports

  lemma {:induction false} MayExportUpdate(workers: seq<Worker>, w: WorkerId, worker: Worker, id: RowId)
    requires w < |workers|
    ensures MayExportAll(workers[w := worker], id) + MayExport(workers[w], id)
            == MayExportAll(workers, id) + MayExport(worker, id)
  {
    var last := |workers| - 1;
    if w < last {
      MayExportUpdate(workers[..last], w, worker, id);
      assert workers[w := worker][..last] == workers[..last][w := worker];
    } else {
      assert workers[w := worker][..last] == workers[..last];
    }
  }

  lemma {:induction false} OccursAtMostOnce(queue: seq<RowId>, id: RowId)
    requires forall i, j | 0 <= i < j < |queue| :: queue[i] < queue[j]
    ensures Occurs(queue, id) == if id in queue then 1 else 0
  {
    if queue != [] {
      OccursAtMostOnce(queue[1..], id);
      assert forall i | 0 <= i < |queue[1..]| :: queue[1..][i] == queue[i + 1];
      assert id in queue <==> id == queue[0] || id in queue[1..];
    }
  }

  lemma {:induction false} MayExportNone(workers: seq<Worker>, id: RowId)
    requires forall w | 0 <= w < |workers| :: MayExport(workers[w], id) == 0
    ensures MayExportAll(workers, id) == 0
  {
    if workers != [] {
      MayExportNone(workers[..|workers| - 1], id);
    }
  }

  lemma {:induction false} NeverQueued(queue: seq<RowId>, id: RowId)
    requires forall i | 0 <= i < |queue| :: queue[i] != id
    ensures Occurs(queue, id) == 0
  {
    if queue != [] {
      NeverQueued(queue[1..], id);
    }
  }

  lemma {:induction false} ScannedOneToOne(violations: seq<Violation>, rows: seq<Row>, candidates: seq<Violation>)
    requires OneToOne(violations, rows)
    ensures var r := Scanned(violations, rows, candidates);
      && OneToOne(r.0, r.1) && violations <= r.0 && rows <= r.1
      && (forall i | |rows| <= i < |r.1| :: r.1[i] == NewRow(r.0[i]))
      && (forall v :: v in r.0 <==> v in violations || v in candidates)
  {
    if candidates != [] {
      var last := |candidates| - 1;
      ScannedOneToOne(violations, rows, candidates[..last]);
      assert candidates == candidates[..last] + [candidates[last]];
    }
  }

  // ---------------------------------------------------------------- every step keeps the outbox

  lemma ScanKeeps(s: System, candidates: seq<Violation>)
    requires WellKept(s)
    ensures WellKept(Next(s, ScanStep(candidates))) && Frozen(s, Next(s, ScanStep(candidates)))
  {
    var t := Next(s, ScanStep(candidates));
    ScannedOneToOne(s.violations, s.rows, candidates);
    forall id | 0 <= id < |t.rows| ensures Covered(t, id) {
      if id < |s.rows| {
        assert Covered(s, id);
      } else {
        forall w | 0 <= w < |s.workers| ensures MayExport(s.workers[w], id) == 0 {
          assert WorkerKept(s, s.workers[w]);
          NeverQueued(s.workers[w].queue, id);
        }
        MayExportNone(s.workers, id);
      }
    }
    forall w | 0 <= w < |t.workers| ensures WorkerKept(t, t.workers[w]) {
      assert WorkerKept(s, s.workers[w]);
    }
  }

  lemma ClaimKeeps(s: System, w: WorkerId, now: Time, limit: nat)
    requires WellKept(s)
    ensures WellKept(Next(s, ClaimStep(w, now, limit))) && Frozen(s, Next(s, ClaimStep(w, now, limit)))
  {
    var t := Next(s, ClaimStep(w, now, limit));
    if w < |s.workers| && s.workers[w] == Worker([], Between) {
      hide Covered;
      PendingDistinct(s.rows, now, limit);
      forall id | 0 <= id < |t.rows| ensures Covered(t, id) {
        var row := s.rows[id];
        ClaimCovers(s, w, now, limit, id);
      }
      forall v | 0 <= v < |t.workers| ensures WorkerKept(t, t.workers[v]) {
        assert WorkerKept(s, s.workers[v]);
      }
    }
  }

  /** Claiming a row counts one attempt for the one export it permits. */
  lemma ClaimCovers(s: System, w: WorkerId, now: Time, limit: nat, id: RowId)
    requires |s.exports| == |s.rows| && id < |s.rows| && Covered(s, id)
    requires w < |s.workers| && s.workers[w] == Worker([], Between)
    ensures Covered(Next(s, ClaimStep(w, now, limit)), id)
  {
    var ids := Pending(s.rows, now, limit);
    PendingDistinct(s.rows, now, limit);
    MayExportUpdate(s.workers, w, Worker(ids, Between), id);
    OccursAtMostOnce(ids, id);
    assert MayExport(Worker([], Between), id) == 0;
    if id in ids {
      var i :| 0 <= i < |ids| && ids[i] == id;
      assert Claimable(s.rows[ids[i]], now);
    }
  }

  /** A step of one worker that touches at most one row, within the claims it holds. */
  lemma WorkerStepKeeps(s: System, t: System, w: WorkerId)
    requires WellKept(s) && w < |s.workers| == |t.workers| && t.workers == s.workers[w := t.workers[w]]
    requires t.violations == s.violations && |t.rows| == |s.rows| == |t.exports| == |s.exports|
    requires forall id {:trigger t.rows[id]} | 0 <= id < |t.rows| ::
      && t.rows[id].event == s.rows[id].event && t.rows[id].attempts == s.rows[id].attempts
      && RowKept(t.rows[id], t.exports[id]) && s.exports[id] <= t.exports[id]
      && (s.rows[id].delivered.Some? ==> t.rows[id] == s.rows[id])
      && t.exports[id] + MayExport(t.workers[w], id) <= s.exports[id] + MayExport(s.workers[w], id)
    requires WorkerKept(t, t.workers[w])
    ensures WellKept(t) && Frozen(s, t)
  {
    forall id | 0 <= id < |t.rows| ensures Covered(t, id) && s.exports[id] <= t.exports[id] {
      assert Covered(s, id) && t.rows[id].attempts == s.rows[id].attempts;
      MayExportUpdate(s.workers, w, t.workers[w], id);
    }
    forall v | 0 <= v < |t.workers| ensures WorkerKept(t, t.workers[v]) {
      assert WorkerKept(s, s.workers[v]);
      if v != w && s.workers[v].stage.Exported? {
        var id := s.workers[v].stage.row;
        assert t.rows[id].event == s.rows[id].event;
      }
    }
  }

  lemma LoadKeeps(s: System, w: WorkerId)
    requires WellKept(s)
    ensures WellKept(Next(s, LoadStep(w))) && Frozen(s, Next(s, LoadStep(w)))
  {
    var t := Next(s, LoadStep(w));
    if t != s {
      assert WorkerKept(s, s.workers[w]);
      forall id | 0 <= id < |s.rows|
        ensures RowKept(t.rows[id], t.exports[id]) && MayExport(t.workers[w], id) <= MayExport(s.workers[w], id)
      {
        assert Covered(s, id);
      }
      WorkerStepKeeps(s, t, w);
    }
  }

  lemma ExportKeeps(s: System, w: WorkerId, exported: bool, flushed: bool)
    requires WellKept(s)
    ensures var t := Next(s, ExportStep(w, exported, flushed)); WellKept(t) && Frozen(s, t)
  {
    var t := Next(s, ExportStep(w, exported, flushed));
    if t != s {
      assert WorkerKept(s, s.workers[w]);
      forall id | 0 <= id < |s.rows|
        ensures RowKept(t.rows[id], t.exports[id])
        ensures t.exports[id] + MayExport(t.workers[w], id) <= s.exports[id] + MayExport(s.workers[w], id)
      {
        assert Covered(s, id);
      }
      WorkerStepKeeps(s, t, w);
    }
  }

  lemma SettleKeeps(s: System, w: WorkerId, step: Step)
    requires WellKept(s)
    requires step == BreakStep(w) || step.AckStep? || step.FailStep? || step == CrashStep(w)
    requires step.w == w
    ensures WellKept(Next(s, step)) && Frozen(s, Next(s, step))
  {
    var t := Next(s, step);
    if t != s {
      assert WorkerKept(s, s.workers[w]);
      forall id | 0 <= id < |s.rows|
        ensures RowKept(t.rows[id], t.exports[id]) && MayExport(t.workers[w], id) <= MayExport(s.workers[w], id)
        ensures s.rows[id].delivered.Some? ==> t.rows[id] == s.rows[id]
      {
        assert Covered(s, id);
      }
      WorkerStepKeeps(s, t, w);
    }
  }

  lemma StepKeeps(s: System, step: Step)
    requires WellKept(s)
    ensures WellKept(Next(s, step)) && Frozen(s, Next(s, step))
  {
    hide Next, WellKept, Frozen;
    match step
    case ScanStep(candidates) => ScanKeeps(s, candidates);
    case ClaimStep(w, now, limit) => ClaimKeeps(s, w, now, limit);
    case LoadStep(w) => LoadKeeps(s, w);
    case ExportStep(w, exported, flushed) => ExportKeeps(s, w, exported, flushed);
    case BreakStep(w) => SettleKeeps(s, w, step);
    case AckStep(w, now) => SettleKeeps(s, w, step);
    case FailStep(w, error, now) => SettleKeeps(s, w, step);
    case CrashStep(w) => SettleKeeps(s, w, step);
  }

  lemma FrozenTrans(s: System, t: System, u: System)
    requires Frozen(s, t) && Frozen(t, u)
    ensures Frozen(s, u)
  {
    forall id | 0 <= id < |s.rows| && s.rows[id].delivered.Some? ensures u.rows[id] == s.rows[id] {
      assert t.rows[id] == s.rows[id];
    }
    forall id | 0 <= id < |s.exports| ensures s.exports[id] <= u.exports[id] {
      assert s.exports[id] <= t.exports[id];
    }
  }

  /** Under every interleaving of workers, failures, crashes and expiring claims: each event is one
      violation's, it is exported before it is delivered and no more often than it was claimed, the
      schema's claim and delivery shapes hold, and a delivered event never changes again. */
  lemma {:induction false} EveryInterleavingKeeps(s: System, steps: seq<Step>)
    requires WellKept(s)
    ensures WellKept(Run(s, steps)) && Frozen(s, Run(s, steps))
    decreases |steps|
  {
    hide WellKept, Frozen, Next;
    if steps == [] {
      assert Frozen(s, s) by { FrozenRefl(s); }
    } else {
      StepKeeps(s, steps[0]);
      EveryInterleavingKeeps(Next(s, steps[0]), steps[1..]);
      FrozenTrans(s, Next(s, steps[0]), Run(Next(s, steps[0]), steps[1..]));
    }
  }

  /** An event keeps its violation, and with it its run, from its insertion on. */
  lemma EventsKeepTheirRun(s: System, steps: seq<Step>, id: RowId)
    requires WellKept(s) && id < |s.rows|
    ensures var t := Run(s, steps);
      && id < |t.rows| && id < |t.violations| && id < |s.violations|
      && t.rows[id].event == s.rows[id].event && t.violations[id] == s.violations[id]
  {
    EveryInterleavingKeeps(s, steps);
  }

  lemma FrozenRefl(s: System)
    ensures Frozen(s, s)
  {
  }

  /** An outbox that starts empty with idle workers is well kept. */
  lemma EmptyKept(workers: seq<Worker>)
    requires forall w | 0 <= w < |workers| :: workers[w] == Worker([], Between)
    ensures WellKept(System([], [], [], workers))
  {
    forall w | 0 <= w < |workers| ensures WorkerKept(System([], [], [], workers), workers[w]) {
    }
  }

  /** Exports never exceed claims, and a delivered event was exported. */
  lemma ExportsWithinAttempts(workers: seq<Worker>, steps: seq<Step>, id: RowId)
    requires forall w | 0 <= w < |workers| :: workers[w] == Worker([], Between)
    requires id < |Run(System([], [], [], workers), steps).rows|
    ensures var t := Run(System([], [], [], workers), steps);
      && id < |t.exports| && t.exports[id] <= t.rows[id].attempts
      && (t.rows[id].delivered.Some? ==> 1 <= t.exports[id])
      && id < |t.violations| && t.rows[id].event == t.violations[id]
  {
    EmptyKept(workers);
    EveryInterleavingKeeps(System([], [], [], workers), steps);
    var t := Run(System([], [], [], workers), steps);
    assert Covered(t, id);
  }

  // ---------------------------------------------------------------- claiming

  function CountClaimable(rows: seq<Row>, now: Time): nat {
    if rows == [] then 0 else
      CountClaimable(rows[..|rows| - 1], now) + if Claimable(rows[|rows| - 1], now) then 1 else 0
  }

  lemma {:induction false} PendingCounts(rows: seq<Row>, now: Time, limit: nat)
    ensures |Pending(rows, now, limit)| == if CountClaimable(rows, now) < limit then CountClaimable(rows, now) else limit
  {
    if rows != [] {
      PendingCounts(rows[..|rows| - 1], now, limit);
    }
  }

  /** A worker claims an event exactly when the event is claimable and fewer than the limit of older
      events are: nothing else keeps an event back, and nothing newer goes first. */
  lemma {:induction false} ClaimedExactly(rows: seq<Row>, id: RowId, now: Time, limit: nat)
    requires id < |rows|
    ensures id in Pending(rows, now, limit) <==>
      Claimable(rows[id], now) && CountClaimable(rows[..id], now) < limit
  {
    var last := |rows| - 1;
    if id < last {
      ClaimedExactly(rows[..last], id, now, limit);
      assert rows[..last][..id] == rows[..id];
    } else {
      PendingCounts(rows[..last], now, limit);
    }
  }

  /** A claim takes the oldest claimable events out of the way of the next one. */
  lemma {:induction false} ClaimLowersCount(rows: seq<Row>, w: WorkerId, now: Time, limit: nat, n: nat)
    requires n <= |rows|
    ensures var before := CountClaimable(rows[..n], now);
      CountClaimable(ClaimRows(rows, Pending(rows, now, limit), w, now)[..n], now) ==
      if before < limit then 0 else before - limit
  {
    hide Pending;
    if n > 0 {
      var claimed := ClaimRows(rows, Pending(rows, now, limit), w, now);
      ClaimLowersCount(rows, w, now, limit, n - 1);
      ClaimedExactly(rows, n - 1, now, limit);
      assert rows[..n][..n - 1] == rows[..n - 1] && claimed[..n][..n - 1] == claimed[..n - 1];
    }
  }

  /** The table after several workers claim at one time. */
  function ClaimedBy(rows: seq<Row>, workers: seq<WorkerId>, now: Time, limit: nat): (r: seq<Row>)
    ensures |r| == |rows|
    decreases |workers|
  {
    if workers == [] then rows else
      ClaimedBy(ClaimRows(rows, Pending(rows, now, limit), workers[0], now), workers[1..], now, limit)
  }

  /** Nothing is lost: an undelivered event whose backoff and claim have passed is claimed, by one of
      the next workers, as soon as their claims together have room for the claimable events before it. */
  lemma {:induction false} NothingIsLost(rows: seq<Row>, workers: seq<WorkerId>, id: RowId, now: Time, limit: nat)
    requires id < |rows| && Claimable(rows[id], now)
    ensures var row := ClaimedBy(rows, workers, now, limit)[id];
      if CountClaimable(rows[..id], now) < |workers| * limit
      then row.owner.Some? && row.owner.value in workers && row == ClaimRow(rows[id], row.owner.value, now)
      else row == rows[id]
    decreases |workers|
  {
    hide Pending, CountClaimable;
    if workers != [] {
      var w, rest := workers[0], workers[1..];
      var claimed := ClaimRows(rows, Pending(rows, now, limit), w, now);
      var count := CountClaimable(rows[..id], now);
      ClaimedExactly(rows, id, now, limit);
      assert |workers| * limit == limit + |rest| * limit;
      if count < limit {
        ClaimStands(claimed, rest, id, w, now, limit);
      } else {
        ClaimLowersCount(rows, w, now, limit, id);
        NothingIsLost(claimed, rest, id, now, limit);
      }
    }
  }

  /** Until it expires a claim keeps other workers out. */
  lemma {:induction false} ClaimStands(rows: seq<Row>, workers: seq<WorkerId>, id: RowId, w: WorkerId, now: Time, limit: nat)
    requires id < |rows| && rows[id].owner == Some(w)
    requires rows[id].claimExpires.None? || rows[id].claimExpires.value > now
    ensures ClaimedBy(rows, workers, now, limit)[id] == rows[id]
    decreases |workers|
  {
    hide Pending;
    if workers != [] {
      ClaimedExactly(rows, id, now, limit);
      ClaimStands(ClaimRows(rows, Pending(rows, now, limit), workers[0], now), workers[1..], id, w, now, limit);
    }
  }

  // ---------------------------------------------------------------- settling

  /** An acknowledgement by the worker that still holds the claim delivers the event for good: it was
      exported, its row never changes again and nobody can claim it. By any other worker it changes
      nothing. */
  lemma DeliveredForGood(s: System, w: WorkerId, now: Time, later: seq<Step>, at: Time)
    requires WellKept(s) && w < |s.workers| && s.workers[w].stage.Exported?
    ensures var id, t := s.workers[w].stage.row, Next(s, AckStep(w, now)); var u := Run(t, later);
      && id < |s.rows| && id < |t.rows| && id < |u.rows| && id < |u.exports|
      && (if Holds(s.rows[id], w) then
            && t.rows[id].delivered == Some(now) && u.rows[id] == t.rows[id]
            && 1 <= u.exports[id] <= u.rows[id].attempts
            && !Claimable(u.rows[id], at)
          else t.rows == s.rows)
  {
    var id, t := s.workers[w].stage.row, Next(s, AckStep(w, now));
    assert WorkerKept(s, s.workers[w]);
    StepKeeps(s, AckStep(w, now));
    EveryInterleavingKeeps(t, later);
    assert Covered(Run(t, later), id);
    var delivered := t.rows[id];
  }

  /** A recorded failure by the worker that still holds the claim frees the event exactly when its
      backoff has passed. By any other worker it changes nothing. */
  lemma FailureFreesTheEvent(s: System, w: WorkerId, error: string, now: Time, at: Time)
    requires WellKept(s) && w < |s.workers| && s.workers[w].stage.Broken?
    ensures var id, t := s.workers[w].stage.row, Next(s, FailStep(w, error, now));
      && id < |s.rows| && id < |t.rows|
      && (if Holds(s.rows[id], w) then
            && t.rows[id].attempts == s.rows[id].attempts >= 1
            && (Claimable(t.rows[id], at) <==> now + Backoff(s.rows[id].attempts) <= at)
          else t.rows == s.rows)
  {
    hide Backoff;
    var id := s.workers[w].stage.row;
    assert WorkerKept(s, s.workers[w]);
    assert Covered(s, id);
  }

  /** A claim keeps its event from everybody for thirty seconds, and no longer. */
  lemma ClaimLasts(row: Row, w: WorkerId, now: Time, at: Time)
    requires Claimable(row, now) && now <= at
    ensures Claimable(ClaimRow(row, w, now), at) <==> now + 30 <= at
    ensures Holds(ClaimRow(row, w, now), w)
  {
  }

  // ---------------------------------------------------------------- one event's way

  /** A worker at rest whose next claimed event is still its own exports and delivers it, and goes on. */
  lemma UndisturbedDelivers(s: System, w: WorkerId, now: Time)
    requires |s.exports| == |s.rows| && w < |s.workers| && s.workers[w].stage == Between && s.workers[w].queue != []
    requires var id := s.workers[w].queue[0]; id < |s.rows| && Holds(s.rows[id], w)
    ensures var id := s.workers[w].queue[0];
      Run(s, [LoadStep(w), ExportStep(w, true, true), AckStep(w, now)]) ==
      s.(workers := s.workers[w := Worker(s.workers[w].queue[1..], Between)],
         exports := s.exports[id := s.exports[id] + 1],
         rows := s.rows[id := s.rows[id].(delivered := Some(now), lastError := None, nextAttempt := None, owner := None,
                                          claimExpires := None)])
  {
    var id, rest := s.workers[w].queue[0], s.workers[w].queue[1..];
    var s1 := Next(s, LoadStep(w));
    assert s1 == s.(workers := s.workers[w := Worker(rest, Loaded(id))]);
    var s2 := Next(s1, ExportStep(w, true, true));
    assert s2 == s.(workers := s.workers[w := Worker(rest, Exported(id))], exports := s.exports[id := s.exports[id] + 1]);
    RunThree(s, LoadStep(w), ExportStep(w, true, true), AckStep(w, now));
  }

  /** If its export or flush fails, the worker records the failure, gives the event up and goes on. */
  lemma FailedExportRetries(s: System, w: WorkerId, exported: bool, flushed: bool, error: string, now: Time)
    requires |s.exports| == |s.rows| && w < |s.workers| && s.workers[w].stage == Between && s.workers[w].queue != []
    requires var id := s.workers[w].queue[0]; id < |s.rows| && Holds(s.rows[id], w)
    requires !(exported && flushed)
    ensures var id := s.workers[w].queue[0];
      Run(s, [LoadStep(w), ExportStep(w, exported, flushed), FailStep(w, error, now)]) ==
      s.(workers := s.workers[w := Worker(s.workers[w].queue[1..], Between)],
         exports := if exported then s.exports[id := s.exports[id] + 1] else s.exports,
         rows := s.rows[id := s.rows[id].(lastError := Some(error), nextAttempt := Some(now + Backoff(s.rows[id].attempts)),
                                          owner := None, claimExpires := None)])
  {
    hide Backoff, Next, Holds;
    var id, rest := s.workers[w].queue[0], s.workers[w].queue[1..];
    RunThree(s, LoadStep(w), ExportStep(w, exported, flushed), FailStep(w, error, now));
    var s1 := s.(workers := s.workers[w := Worker(rest, Loaded(id))]);
    LoadsHeld(s, w);
    BrokenExport(s1, w, id, exported, flushed);
    var broken := s1.workers[w := Worker(rest, Broken(id))];
    assert broken == s.workers[w := Worker(rest, Broken(id))];
    var s2 := s.(workers := broken, exports := if exported then s.exports[id := s.exports[id] + 1] else s.exports);
    BrokenSettles(s2, w, id, error, now);
    assert broken[w := Worker(rest, Between)] == s.workers[w := Worker(rest, Between)];
  }

  lemma LoadsHeld(s: System, w: WorkerId)
    requires w < |s.workers| && s.workers[w].stage == Between && s.workers[w].queue != []
    requires var id := s.workers[w].queue[0]; id < |s.rows| && Holds(s.rows[id], w)
    ensures Next(s, LoadStep(w))
         == s.(workers := s.workers[w := Worker(s.workers[w].queue[1..], Loaded(s.workers[w].queue[0]))])
  {
  }

  lemma BrokenExport(s: System, w: WorkerId, id: RowId, exported: bool, flushed: bool)
    requires w < |s.workers| && s.workers[w].stage == Loaded(id) && id < |s.exports| && !(exported && flushed)
    ensures Next(s, ExportStep(w, exported, flushed))
         == s.(workers := s.workers[w := s.workers[w].(stage := Broken(id))],
               exports := if exported then s.exports[id := s.exports[id] + 1] else s.exports)
  {
  }

  lemma BrokenSettles(s: System, w: WorkerId, id: RowId, error: string, now: Time)
    requires w < |s.workers| && s.workers[w].stage == Broken(id) && id < |s.rows| && Holds(s.rows[id], w)
    ensures Next(s, FailStep(w, error, now))
         == s.(workers := s.workers[w := s.workers[w].(stage := Between)],
               rows := s.rows[id := s.rows[id].(lastError := Some(error),
                                                nextAttempt := Some(now + Backoff(s.rows[id].attempts)),
                                                owner := None, claimExpires := None)])
  {
    hide Backoff;
  }

  /** An event that another worker took over meanwhile is skipped, unexported. */
  lemma LostEventIsSkipped(s: System, w: WorkerId)
    requires w < |s.workers| && s.workers[w].stage == Between && s.workers[w].queue != []
    requires var id := s.workers[w].queue[0]; id < |s.rows| ==> !Holds(s.rows[id], w)
    ensures Next(s, LoadStep(w)) == s.(workers := s.workers[w := Worker(s.workers[w].queue[1..], Between)])
  {
  }

  lemma RunThree(s: System, a: Step, b: Step, c: Step)
    ensures Run(s, [a, b, c]) == Next(Next(Next(s, a), b), c)
  {
    hide Next;
    assert [a, b, c][1..] == [b, c] && [b, c][1..] == [c] && [c][1..] == [];
    var s1 := Next(s, a);
    assert Run(s1, [b, c]) == Run(Next(s1, b), [c]);
    assert Run(Next(s1, b), [c]) == Run(Next(Next(s1, b), c), []);
  }

  /** The wait after a failure doubles with each attempt and stops at 256 seconds: the cap of 300
      that the code states is never reached. */
  lemma BackoffBounds(attempts: nat)
    requires attempts >= 1
    ensures 2 <= Backoff(attempts) <= 256
    ensures Backoff(attempts + 1) == if attempts < 8 then 2 * Backoff(attempts) else Backoff(attempts)
  {
    PowersOfTwo();
  }

  lemma PowersOfTwo()
    ensures Power(1) == 2 && Power(2) == 4 && Power(3) == 8 && Power(4) == 16
    ensures Power(5) == 32 && Power(6) == 64 && Power(7) == 128 && Power(8) == 256
  {
    assert Power(4) == 16;
    assert Power(8) == 256;
  }
}
