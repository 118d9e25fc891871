/** Exact reconciliation of runtime, trace and log evidence about one command. */
module Reconciliation {
  import opened Options

  datatype Identity = Identity(
    serviceName: string, serviceInstance: string, processInstance: string, buildCommit: string, schemaVersion: nat)

  /** A blocked action as the runtime recorded it. */
  datatype Blocked = Blocked(
    action: string, node: string, scope: string, snapshotVersion: int, liveVersion: int, liveStatus: string,
    reason: string)

  datatype Watermark = Watermark(identity: Identity, command: string, run: string, exportedAt: int, sequence: int)

  datatype Context = Context(
    command: string, run: string, createdAt: int, start: int, end: int, commandOperation: string,
    identity: Identity, blocked: seq<Blocked>, watermark: Option<Watermark>)

  datatype CommandRow = CommandRow(
    identity: Identity, trace: string, command: string, run: string, operation: string, at: int)
  datatype BlockedRow = BlockedRow(identity: Identity, command: string, run: string, blocked: Blocked,
                                   operation: string, at: int)
  datatype TraceRow = TraceRow(trace: string, row: BlockedRow)
  datatype WatermarkRow = WatermarkRow(trace: string, mark: Watermark, operation: string)

  datatype Evidence =
    | Malformed
    | Parsed(commands: seq<CommandRow>, traces: seq<TraceRow>, logs: seq<BlockedRow>, watermarks: seq<WatermarkRow>)

  datatype Discrepancy =
    | CommandCount(count: nat) | WatermarkCount(count: nat)
    | DuplicateTraceIds | DuplicateActionIds | DuplicateRuntimeIds | ActionSetsDiffer
    | WrongIdentity | WrongCommand | WrongRun | WrongOperation | OutsideWindow
    | AbsentFromRuntime(action: string) | FieldsDiffer(action: string)
    | WatermarkMissing | WatermarkDiffers | WatermarkPredates

  datatype TelemetryVerdict = TelemetryVerified | TelemetryInconsistent | TelemetryPartial | TelemetryUnavailable

  const BLOCK_OPERATION := "tracefence.action.block"
  const DENIED_EVENT := "action_denied"
  const WATERMARK_OPERATION := "tracefence.telemetry.export_watermark"

  // ---------------------------------------------------------------- one row at a time

  function Unless(holds: bool, d: Discrepancy): seq<Discrepancy> { if holds then [] else [d] }

  function CommandRowDiscrepancies(ctx: Context, row: CommandRow): seq<Discrepancy> {
    Unless(row.identity == ctx.identity, WrongIdentity)
    + Unless(row.command == ctx.command, WrongCommand)
    + Unless(row.run == ctx.run, WrongRun)
    + Unless(row.operation == ctx.commandOperation, WrongOperation)
    + Unless(ctx.start <= row.at <= ctx.end, OutsideWindow)
  }

  function BlockedRowDiscrepancies(
    ctx: Context, expected: Option<Blocked>, row: BlockedRow, operation: string): seq<Discrepancy>
  {
    Unless(row.identity == ctx.identity, WrongIdentity)
    + Unless(row.command == ctx.command, WrongCommand)
    + Unless(row.run == ctx.run, WrongRun)
    + Unless(row.operation == operation, WrongOperation)
    + Unless(ctx.start <= row.at <= ctx.end, OutsideWindow)
    + match expected
      case None => [AbsentFromRuntime(row.blocked.action)]
      case Some(b) =>
        Unless(&& row.blocked.node == b.node && row.blocked.scope == b.scope
               && row.blocked.snapshotVersion == b.snapshotVersion && row.blocked.liveVersion == b.liveVersion
               && row.blocked.liveStatus == b.liveStatus && row.blocked.reason == b.reason,
               FieldsDiffer(row.blocked.action))
  }

  function WatermarkDiscrepancies(ctx: Context, row: WatermarkRow): seq<Discrepancy> {
    Unless(row.mark.identity == ctx.identity, WrongIdentity)
    + match ctx.watermark
      case None => [WatermarkMissing]
      case Some(expected) =>
        Unless(row.mark == expected, WatermarkDiffers)
        + Unless(row.operation == WATERMARK_OPERATION, WrongOperation)
        + Unless(row.mark.exportedAt > ctx.createdAt, WatermarkPredates)
        + Unless(ctx.start <= row.mark.exportedAt <= ctx.end, OutsideWindow)
  }

  /** The runtime record under an action id; a later record shadows an earlier one. */
  function RuntimeById(blocked: seq<Blocked>, action: string): Option<Blocked> {
    if blocked == [] then None
    else if blocked[|blocked| - 1].action == action then Some(blocked[|blocked| - 1])
    else RuntimeById(blocked[..|blocked| - 1], action)
  }

  // ---------------------------------------------------------------- exact evidence

  predicate NoDuplicates<T(==)>(values: seq<T>) {
    forall i, j | 0 <= i < j < |values| :: values[i] != values[j]
  }

  function ActionIds(blocked: seq<Blocked>): seq<string> { seq(|blocked|, i requires 0 <= i < |blocked| => blocked[i].action) }

  function TraceBlocked(traces: seq<TraceRow>): seq<Blocked> {
    seq(|traces|, i requires 0 <= i < |traces| => traces[i].row.blocked)
  }

  function LogBlocked(logs: seq<BlockedRow>): seq<Blocked> {
    seq(|logs|, i requires 0 <= i < |logs| => logs[i].blocked)
  }

  function TraceIds(e: Evidence): seq<string>
    requires e.Parsed?
  {
    seq(|e.commands|, i requires 0 <= i < |e.commands| => e.commands[i].trace)
    + seq(|e.traces|, i requires 0 <= i < |e.traces| => e.traces[i].trace)
    + seq(|e.watermarks|, i requires 0 <= i < |e.watermarks| => e.watermarks[i].trace)
  }

  predicate RowFits(ctx: Context, row: BlockedRow, operation: string) {
    && row.identity == ctx.identity && row.command == ctx.command && row.run == ctx.run
    && row.operation == operation && ctx.start <= row.at <= ctx.end
  }

  /** Blocked evidence of one kind: every row fits, and the rows are a permutation of the runtime's
      blocked actions with every field equal. */
  ghost predicate BlockedExact(ctx: Context, rows: seq<BlockedRow>, operation: string) {
    && (forall i | 0 <= i < |rows| :: RowFits(ctx, rows[i], operation))
    && multiset(LogBlocked(rows)) == multiset(ctx.blocked)
  }

  function TraceRows(traces: seq<TraceRow>): seq<BlockedRow> {
    seq(|traces|, i requires 0 <= i < |traces| => traces[i].row)
  }

  /** What verified telemetry means. */
  ghost predicate Exact(ctx: Context, e: Evidence) {
    && ctx.watermark.Some? && ctx.watermark.value.exportedAt > ctx.createdAt
    && e.Parsed?
    && |e.commands| == 1 && CommandRowDiscrepancies(ctx, e.commands[0]) == []
    && |e.watermarks| == 1 && e.watermarks[0].mark == ctx.watermark.value
    && e.watermarks[0].operation == WATERMARK_OPERATION
    && ctx.watermark.value.identity == ctx.identity
    && ctx.start <= ctx.watermark.value.exportedAt <= ctx.end
    && NoDuplicates(TraceIds(e))
    && NoDuplicates(ActionIds(ctx.blocked))
    && BlockedExact(ctx, TraceRows(e.traces), BLOCK_OPERATION)
    && BlockedExact(ctx, e.logs, DENIED_EVENT)
  }

  /** The verdict in terms of what the evidence is, not of the checks. */
  ghost function VerdictOf(ctx: Context, e: Evidence): TelemetryVerdict {
    if ctx.watermark.None? then TelemetryUnavailable
    else if ctx.watermark.value.exportedAt <= ctx.createdAt then TelemetryInconsistent
    else if e.Malformed? then TelemetryPartial
    else if Exact(ctx, e) then TelemetryVerified
    else TelemetryInconsistent
  }

  // ---------------------------------------------------------------- the reconciler

  method Duplicates(values: seq<string>) returns (duplicates: set<string>)
    ensures forall v :: v in duplicates <==> exists i, j | 0 <= i < j < |values| :: values[i] == v && values[j] == v
  {
    var seen: set<string> := {};
    duplicates := {};
    for k := 0 to |values|
      invariant forall v :: v in seen <==> v in values[..k]
      invariant forall v :: v in duplicates <==> exists i, j | 0 <= i < j < k :: values[i] == v && values[j] == v
    {
      var value := values[k];
      assert values[..k + 1] == values[..k] + [value];
      forall v
        ensures (exists i, j | 0 <= i < j < k + 1 :: values[i] == v && values[j] == v)
                <==> (exists i, j | 0 <= i < j < k :: values[i] == v && values[j] == v) || (v == value && v in seen)
      {
        if v == value && v in seen {
          var i :| 0 <= i < k && values[i] == v;
          assert values[k] == v;
        }
      }
      if value in seen {
        duplicates := duplicates + {value};
      }
      seen := seen + {value};
    }
  }

  method CheckRows(ctx: Context, rows: seq<BlockedRow>, operation: string) returns (found: seq<Discrepancy>)
    ensures found == [] <==> RowsClean(ctx, rows, operation)
  {
    found := [];
    for i := 0 to |rows|
      invariant found == [] <==> forall k | 0 <= k < i ::
                  BlockedRowDiscrepancies(ctx, RuntimeById(ctx.blocked, rows[k].blocked.action), rows[k], operation) == []
    {
      found := found
        + BlockedRowDiscrepancies(ctx, RuntimeById(ctx.blocked, rows[i].blocked.action), rows[i], operation);
    }
  }

  datatype TelemetryProof = TelemetryProof(verdict: TelemetryVerdict, discrepancies: seq<Discrepancy>)

  /** Telemetry is verified exactly when the evidence is exact. */
  method Reconcile(ctx: Context, e: Evidence) returns (p: TelemetryProof)
    ensures p.verdict == VerdictOf(ctx, e)
    ensures p.verdict == TelemetryVerified <==> Exact(ctx, e)
    ensures p.verdict == TelemetryVerified ==> p.discrepancies == []
    ensures p.verdict == TelemetryUnavailable <==> ctx.watermark.None?
    ensures p.verdict == TelemetryPartial
            <==> ctx.watermark.Some? && ctx.watermark.value.exportedAt > ctx.createdAt && e.Malformed?
  {
    if ctx.watermark.None? {
      return TelemetryProof(TelemetryUnavailable, []);
    }
    if ctx.watermark.value.exportedAt <= ctx.createdAt {
      return TelemetryProof(TelemetryInconsistent, []);
    }
    if e.Malformed? {
      return TelemetryProof(TelemetryPartial, []);
    }
    var counts := Unless(|e.commands| == 1, CommandCount(|e.commands|))
                  + Unless(|e.watermarks| == 1, WatermarkCount(|e.watermarks|));
    var ids := CheckIds(ctx, e);
    var commands := CheckCommands(ctx, e.commands);
    var traces := CheckRows(ctx, TraceRows(e.traces), BLOCK_OPERATION);
    var logs := CheckRows(ctx, e.logs, DENIED_EVENT);
    var watermarks := CheckWatermarks(ctx, e.watermarks);
    var discrepancies := counts + ids + commands + traces + logs + watermarks;
    CleanIsExact(ctx, e);
    hide Exact, BlockedRowDiscrepancies, CommandRowDiscrepancies, WatermarkDiscrepancies, NoDuplicates, SameIds, TraceIds,
         ActionIds, TraceBlocked, LogBlocked, TraceRows;
    assert discrepancies == [] <==> Clean(ctx, e);
    if discrepancies != [] {
      p := TelemetryProof(TelemetryInconsistent, discrepancies);
    } else {
      p := TelemetryProof(TelemetryVerified, []);
    }
  }

  ghost predicate RowsClean(ctx: Context, rows: seq<BlockedRow>, operation: string) {
    forall i | 0 <= i < |rows| ::
      BlockedRowDiscrepancies(ctx, RuntimeById(ctx.blocked, rows[i].blocked.action), rows[i], operation) == []
  }

  ghost predicate IdsClean(ctx: Context, e: Evidence)
    requires e.Parsed?
  {
    && NoDuplicates(TraceIds(e))
    && NoDuplicates(ActionIds(ctx.blocked))
    && NoDuplicates(ActionIds(TraceBlocked(e.traces))) && NoDuplicates(ActionIds(LogBlocked(e.logs)))
    && SameIds(ctx.blocked, TraceBlocked(e.traces)) && SameIds(ctx.blocked, LogBlocked(e.logs))
  }

  /** No check of the reconciler complains. */
  ghost predicate Clean(ctx: Context, e: Evidence)
    requires e.Parsed?
  {
    && |e.commands| == 1 && |e.watermarks| == 1 && IdsClean(ctx, e)
    && (forall i | 0 <= i < |e.commands| :: CommandRowDiscrepancies(ctx, e.commands[i]) == [])
    && RowsClean(ctx, TraceRows(e.traces), BLOCK_OPERATION) && RowsClean(ctx, e.logs, DENIED_EVENT)
    && (forall i | 0 <= i < |e.watermarks| :: WatermarkDiscrepancies(ctx, e.watermarks[i]) == [])
  }

  lemma CleanIsExact(ctx: Context, e: Evidence)
    requires e.Parsed? && ctx.watermark.Some? && ctx.watermark.value.exportedAt > ctx.createdAt
    ensures Clean(ctx, e) <==> Exact(ctx, e)
  {
    hide BlockedRowDiscrepancies, CommandRowDiscrepancies, BlockedExact, NoDuplicates, SameIds, TraceIds, ActionIds;
    BlockedExactly(ctx, TraceRows(e.traces), BLOCK_OPERATION);
    BlockedExactly(ctx, e.logs, DENIED_EVENT);
    assert LogBlocked(TraceRows(e.traces)) == TraceBlocked(e.traces);
  }

  method CheckIds(ctx: Context, e: Evidence) returns (found: seq<Discrepancy>)
    requires e.Parsed?
    ensures found == [] <==> IdsClean(ctx, e)
  {
    var traceIds := Duplicates(TraceIds(e));
    var traceActions := Duplicates(ActionIds(TraceBlocked(e.traces)));
    var logActions := Duplicates(ActionIds(LogBlocked(e.logs)));
    var runtimeActions := Duplicates(ActionIds(ctx.blocked));
    NoneDuplicated(TraceIds(e), traceIds);
    NoneDuplicated(ActionIds(TraceBlocked(e.traces)), traceActions);
    NoneDuplicated(ActionIds(LogBlocked(e.logs)), logActions);
    NoneDuplicated(ActionIds(ctx.blocked), runtimeActions);
    var runtime := set a | a in ActionIds(ctx.blocked);
    var traced := set a | a in ActionIds(TraceBlocked(e.traces));
    var logged := set a | a in ActionIds(LogBlocked(e.logs));
    assert traceActions + logActions == {} <==> traceActions == {} && logActions == {};
    assert runtime == traced <==> SameIds(ctx.blocked, TraceBlocked(e.traces)) by {
      SetsOfIds(ctx.blocked, TraceBlocked(e.traces), runtime, traced);
    }
    assert runtime == logged <==> SameIds(ctx.blocked, LogBlocked(e.logs)) by {
      SetsOfIds(ctx.blocked, LogBlocked(e.logs), runtime, logged);
    }
    found := Unless(traceIds == {}, DuplicateTraceIds)
             + Unless(traceActions + logActions == {}, DuplicateActionIds)
             + Unless(runtimeActions == {}, DuplicateRuntimeIds)
             + Unless(runtime == traced && runtime == logged, ActionSetsDiffer);
  }

  lemma NoneDuplicated(values: seq<string>, duplicates: set<string>)
    requires forall v :: v in duplicates <==> exists i, j | 0 <= i < j < |values| :: values[i] == v && values[j] == v
    ensures duplicates == {} <==> NoDuplicates(values)
  {
    if i, j :| 0 <= i < j < |values| && values[i] == values[j] {
      assert values[i] in duplicates;
    }
  }

  ghost predicate SameIds(a: seq<Blocked>, b: seq<Blocked>) {
    forall id :: id in ActionIds(a) <==> id in ActionIds(b)
  }

  lemma SetsOfIds(a: seq<Blocked>, b: seq<Blocked>, x: set<string>, y: set<string>)
    requires forall id :: id in x <==> id in ActionIds(a)
    requires forall id :: id in y <==> id in ActionIds(b)
    ensures x == y <==> SameIds(a, b)
  {
    if x == y {
      forall id ensures id in ActionIds(a) <==> id in ActionIds(b) {
        assert id in x <==> id in y;
      }
    }
  }

  method CheckCommands(ctx: Context, rows: seq<CommandRow>) returns (found: seq<Discrepancy>)
    ensures found == [] <==> forall i | 0 <= i < |rows| :: CommandRowDiscrepancies(ctx, rows[i]) == []
  {
    found := [];
    for i := 0 to |rows|
      invariant found == [] <==> forall k | 0 <= k < i :: CommandRowDiscrepancies(ctx, rows[k]) == []
    {
      found := found + CommandRowDiscrepancies(ctx, rows[i]);
    }
  }

  method CheckWatermarks(ctx: Context, rows: seq<WatermarkRow>) returns (found: seq<Discrepancy>)
    ensures found == [] <==> forall i | 0 <= i < |rows| :: WatermarkDiscrepancies(ctx, rows[i]) == []
  {
    found := [];
    for i := 0 to |rows|
      invariant found == [] <==> forall k | 0 <= k < i :: WatermarkDiscrepancies(ctx, rows[k]) == []
    {
      found := found + WatermarkDiscrepancies(ctx, rows[i]);
    }
  }

  // ---------------------------------------------------------------- permutations

  lemma {:induction false} RuntimeByIdFinds(blocked: seq<Blocked>, action: string)
    ensures RuntimeById(blocked, action).Some? ==>
      RuntimeById(blocked, action).value in blocked && RuntimeById(blocked, action).value.action == action
    ensures RuntimeById(blocked, action).None? ==> forall b | b in blocked :: b.action != action
    ensures NoDuplicates(ActionIds(blocked)) ==>
      forall b | b in blocked && b.action == action :: RuntimeById(blocked, action) == Some(b)
  {
    if blocked != [] {
      var rest := blocked[..|blocked| - 1];
      RuntimeByIdFinds(rest, action);
      assert forall i | 0 <= i < |rest| :: ActionIds(rest)[i] == ActionIds(blocked)[i];
      assert ActionIds(blocked)[|blocked| - 1] == blocked[|blocked| - 1].action;
      assert forall b :: b in blocked <==> b in rest || b == blocked[|blocked| - 1];
      forall b | b in rest && NoDuplicates(ActionIds(blocked)) ensures b.action != blocked[|blocked| - 1].action {
        var i :| 0 <= i < |rest| && rest[i] == b;
        assert ActionIds(blocked)[i] == b.action;
      }
    }
  }

  /** Sequences without repetition and with the same members are permutations of each other. */
  lemma DistinctSameMembers<T>(a: seq<T>, b: seq<T>)
    requires NoDuplicates(a) && NoDuplicates(b) && forall x :: x in a <==> x in b
    ensures multiset(a) == multiset(b)
  {
    forall x ensures multiset(a)[x] == multiset(b)[x] {
      DistinctCount(a, x);
      DistinctCount(b, x);
    }
  }

  lemma {:induction false} DistinctCount<T>(a: seq<T>, x: T)
    requires NoDuplicates(a)
    ensures multiset(a)[x] == if x in a then 1 else 0
  {
    if a != [] {
      var last := a[|a| - 1];
      assert a == a[..|a| - 1] + [last];
      DistinctCount(a[..|a| - 1], x);
    }
  }

  /** A permutation of distinct elements is distinct. */
  lemma PermutationDistinct<T>(a: seq<T>, b: seq<T>)
    requires multiset(a) == multiset(b) && NoDuplicates(b)
    ensures NoDuplicates(a)
  {
    forall i, j | 0 <= i < j < |a| ensures a[i] != a[j] {
      DistinctCount(b, a[i]);
      if a[i] == a[j] { RepeatedCount(a, i, j); }
    }
  }

  lemma RepeatedCount<T>(a: seq<T>, i: nat, j: nat)
    requires i < j < |a| && a[i] == a[j]
    ensures multiset(a)[a[i]] >= 2
  {
    assert a == a[..j] + [a[j]] + a[j + 1..];
    assert a[i] in a[..j];
  }

  lemma IdsDistinctElements(a: seq<Blocked>)
    requires NoDuplicates(ActionIds(a))
    ensures NoDuplicates(a)
  {
    forall i, j | 0 <= i < j < |a| ensures a[i] != a[j] {
      assert ActionIds(a)[i] != ActionIds(a)[j];
    }
  }

  lemma PermutationIds(a: seq<Blocked>, b: seq<Blocked>)
    requires multiset(a) == multiset(b) && NoDuplicates(ActionIds(b))
    ensures NoDuplicates(ActionIds(a)) && SameIds(b, a)
  {
    IdsDistinctElements(b);
    PermutationDistinct(a, b);
    SameMembers(a, b);
    forall i, j | 0 <= i < j < |a| ensures ActionIds(a)[i] != ActionIds(a)[j] {
      assert a[i] in a && a[j] in a;
      var m :| 0 <= m < |b| && b[m] == a[i];
      var n :| 0 <= n < |b| && b[n] == a[j];
      assert ActionIds(b)[m] == a[i].action && ActionIds(b)[n] == a[j].action;
    }
    IdMembers(a);
    IdMembers(b);
  }

  lemma SameMembers<T>(a: seq<T>, b: seq<T>)
    requires multiset(a) == multiset(b)
    ensures forall x :: x in a <==> x in b
  {
    forall x ensures x in a <==> x in b {
      assert x in a <==> x in multiset(a);
      assert x in b <==> x in multiset(b);
    }
  }

  lemma IdMembers(a: seq<Blocked>)
    ensures forall id :: id in ActionIds(a) <==> exists b | b in a :: b.action == id
  {
    forall id ensures id in ActionIds(a) <==> exists b | b in a :: b.action == id {
      if id in ActionIds(a) {
        var i :| 0 <= i < |a| && ActionIds(a)[i] == id;
        assert a[i] in a;
      }
      if b :| b in a && b.action == id {
        var i :| 0 <= i < |a| && a[i] == b;
        assert ActionIds(a)[i] == id;
      }
    }
  }

  /** One kind of blocked evidence passes its row and id checks exactly when it is exact. */
  lemma BlockedExactly(ctx: Context, rows: seq<BlockedRow>, operation: string)
    ensures NoDuplicates(ActionIds(ctx.blocked)) ==>
      (BlockedExact(ctx, rows, operation)
       <==> && NoDuplicates(ActionIds(LogBlocked(rows))) && SameIds(ctx.blocked, LogBlocked(rows))
            && RowsClean(ctx, rows, operation))
  {
    hide BlockedExact, NoDuplicates, SameIds, RowsClean, ActionIds, LogBlocked;
    if NoDuplicates(ActionIds(ctx.blocked)) {
      if BlockedExact(ctx, rows, operation) { ExactPasses(ctx, rows, operation); }
      if && NoDuplicates(ActionIds(LogBlocked(rows))) && SameIds(ctx.blocked, LogBlocked(rows))
         && RowsClean(ctx, rows, operation) {
        PassesExact(ctx, rows, operation);
      }
    }
  }

  lemma ExactPasses(ctx: Context, rows: seq<BlockedRow>, operation: string)
    requires NoDuplicates(ActionIds(ctx.blocked)) && BlockedExact(ctx, rows, operation)
    ensures NoDuplicates(ActionIds(LogBlocked(rows))) && SameIds(ctx.blocked, LogBlocked(rows))
    ensures RowsClean(ctx, rows, operation)
  {
    var logged := LogBlocked(rows);
    PermutationIds(logged, ctx.blocked);
    SameMembers(logged, ctx.blocked);
    forall i | 0 <= i < |rows|
      ensures BlockedRowDiscrepancies(ctx, RuntimeById(ctx.blocked, rows[i].blocked.action), rows[i], operation) == []
    {
      assert logged[i] == rows[i].blocked && logged[i] in logged && RowFits(ctx, rows[i], operation);
      RuntimeByIdFinds(ctx.blocked, rows[i].blocked.action);
    }
  }

  lemma PassesExact(ctx: Context, rows: seq<BlockedRow>, operation: string)
    requires NoDuplicates(ActionIds(ctx.blocked))
    requires NoDuplicates(ActionIds(LogBlocked(rows))) && SameIds(ctx.blocked, LogBlocked(rows))
    requires RowsClean(ctx, rows, operation)
    ensures BlockedExact(ctx, rows, operation)
  {
    hide BlockedRowDiscrepancies, SameIds, NoDuplicates, ActionIds, RuntimeById, RowsClean;
    var logged := LogBlocked(rows);
    forall i | 0 <= i < |rows| ensures RowFits(ctx, rows[i], operation) && rows[i].blocked in ctx.blocked {
      CleanRow(ctx, rows, operation, i);
      RowPasses(ctx, rows[i], operation);
    }
    forall b | b in ctx.blocked ensures b in logged {
      PassesCovers(ctx, rows, operation, b);
    }
    IdsDistinctElements(ctx.blocked);
    IdsDistinctElements(logged);
    forall x ensures x in logged <==> x in ctx.blocked {
      if x in logged {
        var i :| 0 <= i < |rows| && logged[i] == x;
        assert rows[i].blocked in ctx.blocked;
      }
    }
    DistinctSameMembers(logged, ctx.blocked);
  }

  lemma CleanRow(ctx: Context, rows: seq<BlockedRow>, operation: string, i: nat)
    requires RowsClean(ctx, rows, operation) && i < |rows|
    ensures BlockedRowDiscrepancies(ctx, RuntimeById(ctx.blocked, rows[i].blocked.action), rows[i], operation) == []
  {
  }

  /** Every runtime record occurs among the rows that pass. */
  lemma PassesCovers(ctx: Context, rows: seq<BlockedRow>, operation: string, b: Blocked)
    requires NoDuplicates(ActionIds(ctx.blocked)) && SameIds(ctx.blocked, LogBlocked(rows))
    requires RowsClean(ctx, rows, operation) && b in ctx.blocked
    ensures b in LogBlocked(rows)
  {
    hide BlockedRowDiscrepancies, RuntimeById, NoDuplicates, RowsClean;
    var logged := LogBlocked(rows);
    IdMembers(ctx.blocked);
    IdMembers(logged);
    assert b.action in ActionIds(ctx.blocked);
    assert b.action in ActionIds(logged);
    var r :| r in logged && r.action == b.action;
    var i :| 0 <= i < |rows| && logged[i] == r;
    CleanRow(ctx, rows, operation, i);
    RowPasses(ctx, rows[i], operation);
    RuntimeByIdFinds(ctx.blocked, b.action);
  }

  /** A blocked row without discrepancies is a runtime record, field by field. */
  lemma RowPasses(ctx: Context, row: BlockedRow, operation: string)
    requires BlockedRowDiscrepancies(ctx, RuntimeById(ctx.blocked, row.blocked.action), row, operation) == []
    ensures RowFits(ctx, row, operation)
    ensures RuntimeById(ctx.blocked, row.blocked.action) == Some(row.blocked) && row.blocked in ctx.blocked
  {
    RuntimeByIdFinds(ctx.blocked, row.blocked.action);
  }

  // ---------------------------------------------------------------- order does not matter

  predicate Reordered(e: Evidence, f: Evidence)
    requires e.Parsed? && f.Parsed?
  {
    && multiset(e.commands) == multiset(f.commands) && multiset(e.traces) == multiset(f.traces)
    && multiset(e.logs) == multiset(f.logs) && multiset(e.watermarks) == multiset(f.watermarks)
  }

  /** Applying a function to the elements of a permutation gives a permutation. */
  lemma {:induction false} MapPermutes<T, U>(f: T -> U, a: seq<T>, b: seq<T>)
    requires multiset(a) == multiset(b)
    ensures multiset(Mapped(f, a)) == multiset(Mapped(f, b))
  {
    if a == [] {
      assert b == [] by { assert |multiset(a)| == |multiset(b)| == |b|; }
    } else {
      var x := a[0];
      assert a == [x] + a[1..];
      assert x in multiset(b);
      var j :| 0 <= j < |b| && b[j] == x;
      var rest := b[..j] + b[j + 1..];
      assert b == b[..j] + [x] + b[j + 1..];
      assert multiset(a) == multiset{x} + multiset(a[1..]);
      assert multiset(b) == multiset(b[..j] + [x] + b[j + 1..]) == multiset{x} + multiset(rest);
      assert multiset(a[1..]) == multiset(a) - multiset{x};
      MapPermutes(f, a[1..], rest);
      MappedConcat(f, b[..j] + [x], b[j + 1..]);
      MappedConcat(f, b[..j], [x]);
      MappedConcat(f, b[..j], b[j + 1..]);
      MappedConcat(f, [x], a[1..]);
    }
  }

  function Mapped<T, U>(f: T -> U, a: seq<T>): seq<U> { seq(|a|, i requires 0 <= i < |a| => f(a[i])) }

  lemma MappedConcat<T, U>(f: T -> U, a: seq<T>, b: seq<T>)
    ensures Mapped(f, a + b) == Mapped(f, a) + Mapped(f, b)
  {
  }

  lemma BlockedExactReorders(ctx: Context, a: seq<BlockedRow>, b: seq<BlockedRow>, operation: string)
    requires multiset(a) == multiset(b) && BlockedExact(ctx, a, operation)
    ensures BlockedExact(ctx, b, operation)
  {
    SameMembers(a, b);
    MapPermutes((row: BlockedRow) => row.blocked, a, b);
    assert Mapped((row: BlockedRow) => row.blocked, a) == LogBlocked(a);
    assert Mapped((row: BlockedRow) => row.blocked, b) == LogBlocked(b);
    forall i | 0 <= i < |b| ensures RowFits(ctx, b[i], operation) {
      assert b[i] in a;
    }
  }

  lemma TraceIdsReorder(e: Evidence, f: Evidence)
    requires e.Parsed? && f.Parsed? && Reordered(e, f)
    ensures multiset(TraceIds(e)) == multiset(TraceIds(f))
  {
    var ofCommand, ofTrace, ofMark := (r: CommandRow) => r.trace, (r: TraceRow) => r.trace, (r: WatermarkRow) => r.trace;
    MapPermutes(ofCommand, e.commands, f.commands);
    MapPermutes(ofTrace, e.traces, f.traces);
    MapPermutes(ofMark, e.watermarks, f.watermarks);
    assert TraceIds(e) == Mapped(ofCommand, e.commands) + Mapped(ofTrace, e.traces) + Mapped(ofMark, e.watermarks);
    assert TraceIds(f) == Mapped(ofCommand, f.commands) + Mapped(ofTrace, f.traces) + Mapped(ofMark, f.watermarks);
  }

  /** Exactness survives reordering, of the evidence lists and of the runtime's blocked actions. */
  lemma ExactReorders(ctx: Context, blocked: seq<Blocked>, e: Evidence, f: Evidence)
    requires multiset(blocked) == multiset(ctx.blocked)
    requires e.Parsed? && f.Parsed? && Reordered(e, f) && Exact(ctx, e)
    ensures Exact(ctx.(blocked := blocked), f)
  {
    hide BlockedExact, TraceIds, CommandRowDiscrepancies;
    var ctx' := ctx.(blocked := blocked);
    TraceIdsReorder(e, f);
    PermutationDistinct(TraceIds(f), TraceIds(e));
    SingletonReorders(e.commands, f.commands);
    SingletonReorders(e.watermarks, f.watermarks);
    MapPermutes((r: TraceRow) => r.row, e.traces, f.traces);
    assert Mapped((r: TraceRow) => r.row, e.traces) == TraceRows(e.traces);
    assert Mapped((r: TraceRow) => r.row, f.traces) == TraceRows(f.traces);
    BlockedExactReorders(ctx, TraceRows(e.traces), TraceRows(f.traces), BLOCK_OPERATION);
    BlockedExactReorders(ctx, e.logs, f.logs, DENIED_EVENT);
    PermutationIds(blocked, ctx.blocked);
    BlockedExactForContext(ctx, blocked, TraceRows(f.traces), BLOCK_OPERATION);
    BlockedExactForContext(ctx, blocked, f.logs, DENIED_EVENT);
    SameCommandChecks(ctx, blocked, f.commands[0]);
  }

  lemma BlockedExactForContext(ctx: Context, blocked: seq<Blocked>, rows: seq<BlockedRow>, operation: string)
    requires multiset(blocked) == multiset(ctx.blocked) && BlockedExact(ctx, rows, operation)
    ensures BlockedExact(ctx.(blocked := blocked), rows, operation)
  {
    forall i | 0 <= i < |rows| ensures RowFits(ctx.(blocked := blocked), rows[i], operation) {
      assert RowFits(ctx, rows[i], operation);
    }
  }

  lemma SameCommandChecks(ctx: Context, blocked: seq<Blocked>, row: CommandRow)
    ensures CommandRowDiscrepancies(ctx.(blocked := blocked), row) == CommandRowDiscrepancies(ctx, row)
  {
  }

  /** The verdict depends on no order: not on that of any evidence list, nor on the order in which the
      runtime lists its blocked actions. */
  lemma VerdictIgnoresOrder(ctx: Context, blocked: seq<Blocked>, e: Evidence, f: Evidence)
    requires multiset(blocked) == multiset(ctx.blocked)
    requires e == f || (e.Parsed? && f.Parsed? && Reordered(e, f))
    ensures VerdictOf(ctx.(blocked := blocked), f) == VerdictOf(ctx, e)
  {
    hide Exact;
    var ctx' := ctx.(blocked := blocked);
    if e.Parsed? {
      if Exact(ctx, e) { ExactReorders(ctx, blocked, e, f); }
      if Exact(ctx', f) {
        ExactReorders(ctx', ctx.blocked, f, e);
        assert ctx'.(blocked := ctx.blocked) == ctx;
      }
    }
  }

  lemma SingletonReorders<T>(a: seq<T>, b: seq<T>)
    requires multiset(a) == multiset(b) && |a| == 1
    ensures a == b
  {
    assert |b| == |multiset(b)| == |multiset(a)| == |a|;
    assert b[0] in multiset(a);
  }
}
