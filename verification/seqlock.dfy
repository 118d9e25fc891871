/** Revision-validated reads: the proof builder reads a run's revision, reads its rows one query at
    a time while writers run, and accepts the result when the revision is still the same. */
module Seqlock {
  import opened Options

  type RunId = nat
  type Instant = nat

  /** The tables whose triggers bump the revision of a run. */
  datatype Table =
    | Nodes | ControlScopes | SpawnIntents | CorrectionProposals | ControlCommands | CommandAcknowledgements
    | ActionAttempts | ActionCommandMatches | InvariantViolations | TelemetryOutbox | ServiceState

  datatype RowKey = RowKey(table: Table, id: nat)
  datatype Row = Row(run: RunId, content: string)
  datatype RunRow = RunRow(columns: string, revision: nat)
  datatype Db = Db(runs: map<RunId, RunRow>, rows: map<RowKey, Row>)

  datatype Write =
    | Insert(key: RowKey, row: Row)
    | Update(key: RowKey, row: Row)
    | Delete(key: RowKey)
    | UpdateRun(run: RunId, columns: string)

  function Bump(db: Db, r: RunId): Db {
    if r in db.runs then db.(runs := db.runs[r := db.runs[r].(revision := db.runs[r].revision + 1)]) else db
  }

  /** A write together with its trigger, which looks at the new row, or at the old one of a deletion. */
  function Apply(db: Db, w: Write): Db {
    match w
    case Insert(key, row) =>
      if key in db.rows then db else Bump(db.(rows := db.rows[key := row]), row.run)
    case Update(key, row) =>
      if key !in db.rows then db else Bump(db.(rows := db.rows[key := row]), row.run)
    case Delete(key) =>
      if key !in db.rows then db else Bump(db.(rows := db.rows - {key}), db.rows[key].run)
    case UpdateRun(r, columns) =>
      if r !in db.runs then db else Bump(db.(runs := db.runs[r := db.runs[r].(columns := columns)]), r)
  }

  datatype History = History(start: Db, writes: seq<Write>)

  /** The database after the first writes. */
  function At(h: History, t: Instant): Db
    requires t <= |h.writes|
  {
    if t == 0 then h.start else Apply(At(h, t - 1), h.writes[t - 1])
  }

  /** What the proof of a run's command reads: the run's own columns and the run's rows. */
  datatype View = View(columns: Option<string>, rows: map<RowKey, Row>)

  function ViewOf(db: Db, r: RunId): View {
    View(if r in db.runs then Some(db.runs[r].columns) else None,
         map key | key in db.rows && db.rows[key].run == r :: db.rows[key])
  }

  function Revision(db: Db, r: RunId): nat {
    if r in db.runs then db.runs[r].revision else 0
  }

  /** An update that moves a row from this run to another one. */
  predicate MovesAway(db: Db, w: Write, r: RunId) {
    w.Update? && w.key in db.rows && db.rows[w.key].run == r && w.row.run != r
  }

  /** A write changes what a run's proof reads without bumping the run's revision exactly when it
      moves a row of the run away: the trigger looks at the new row only. */
  lemma SilentExactlyWhenMoving(db: Db, w: Write, r: RunId)
    requires r in db.runs
    ensures r in Apply(db, w).runs && Revision(db, r) <= Revision(Apply(db, w), r)
    ensures (Revision(Apply(db, w), r) == Revision(db, r) && ViewOf(Apply(db, w), r) != ViewOf(db, r))
            <==> MovesAway(db, w, r)
  {
    var later := Apply(db, w);
    if MovesAway(db, w, r) {
      assert w.key in ViewOf(db, r).rows && w.key !in ViewOf(later, r).rows;
    } else if Revision(later, r) == Revision(db, r) {
      assert ViewOf(later, r).rows == ViewOf(db, r).rows;
    }
  }

  /** No write between two instants moves a row of the run away. */
  predicate Stationary(h: History, r: RunId, early: Instant, late: Instant)
    requires early <= late <= |h.writes|
  {
    forall t | early <= t < late :: !MovesAway(At(h, t), h.writes[t], r)
  }

  lemma {:induction false} RevisionGrows(h: History, r: RunId, early: Instant, late: Instant)
    requires early <= late <= |h.writes| && r in At(h, early).runs
    ensures r in At(h, late).runs && Revision(At(h, early), r) <= Revision(At(h, late), r)
  {
    if early < late {
      RevisionGrows(h, r, early, late - 1);
      SilentExactlyWhenMoving(At(h, late - 1), h.writes[late - 1], r);
    }
  }

  /** If the revision is the same at both ends, the run's rows were the same throughout. */
  lemma {:induction false} UnchangedRevisionIsConsistent(
    h: History, r: RunId, early: Instant, t: Instant, late: Instant)
    requires early <= t <= late <= |h.writes| && r in At(h, early).runs && Stationary(h, r, early, late)
    requires Revision(At(h, early), r) == Revision(At(h, late), r)
    ensures ViewOf(At(h, t), r) == ViewOf(At(h, early), r)
    decreases t
  {
    hide ViewOf, Revision, Apply;
    if early < t {
      RevisionGrows(h, r, early, t - 1);
      RevisionGrows(h, r, t - 1, t);
      RevisionGrows(h, r, t, late);
      UnchangedRevisionIsConsistent(h, r, early, t - 1, late);
      SilentExactlyWhenMoving(At(h, t - 1), h.writes[t - 1], r);
    }
  }

  // ---------------------------------------------------------------- the stability loop

  const MAX_ATTEMPTS := 3

  /** The instants of one attempt: the revision read, the later row reads, the re-check. */
  datatype Reading = Reading(revision: Instant, rows: seq<Instant>, recheck: Instant)

  predicate Timely(h: History, a: Reading) {
    && a.revision <= a.recheck <= |h.writes|
    && forall i | 0 <= i < |a.rows| :: a.revision <= a.rows[i] <= a.recheck
  }

  predicate SawSameRevision(h: History, r: RunId, a: Reading)
    requires Timely(h, a)
  {
    Revision(At(h, a.revision), r) == Revision(At(h, a.recheck), r)
  }

  datatype Build = Stable(revision: nat, views: seq<View>) | StateChangedDuringProof(views: seq<View>)

  method ReadRows(h: History, r: RunId, a: Reading) returns (views: seq<View>)
    requires Timely(h, a)
    ensures |views| == |a.rows| && forall i | 0 <= i < |views| :: views[i] == ViewOf(At(h, a.rows[i]), r)
  {
    views := [];
    for i := 0 to |a.rows|
      invariant |views| == i && forall k | 0 <= k < i :: views[k] == ViewOf(At(h, a.rows[k]), r)
    {
      views := views + [ViewOf(At(h, a.rows[i]), r)];
    }
  }

  /** All views are those of one state. */
  predicate Snapshot(views: seq<View>, view: View) {
    forall i | 0 <= i < |views| :: views[i] == view
  }

  /** The attempt's instants are in order, its run exists, and no row is moved away meanwhile. */
  predicate Readable(h: History, r: RunId, a: Reading) {
    Timely(h, a) && r in At(h, a.revision).runs && Stationary(h, r, a.revision, a.recheck)
  }

  /** When the re-check finds the same revision, all that was read belongs to one state. */
  lemma ReadConsistently(h: History, r: RunId, a: Reading, views: seq<View>)
    requires Readable(h, r, a) && SawSameRevision(h, r, a)
    requires |views| == |a.rows| && forall i | 0 <= i < |views| :: views[i] == ViewOf(At(h, a.rows[i]), r)
    ensures Snapshot(views, ViewOf(At(h, a.revision), r))
  {
    hide ViewOf, At, Revision;
    forall i | 0 <= i < |views| ensures views[i] == ViewOf(At(h, a.revision), r) {
      UnchangedRevisionIsConsistent(h, r, a.revision, a.rows[i], a.recheck);
    }
  }

  /** At most three builds: the first whose revision held is returned, and all that it read belongs
      to one state; when none held, the answer says that the state changed. */
  method StabilityLoop(h: History, r: RunId, attempts: seq<Reading>) returns (b: Build)
    requires |attempts| == MAX_ATTEMPTS
    requires forall i | 0 <= i < |attempts| :: Timely(h, attempts[i]) && Readable(h, r, attempts[i])
    ensures b.StateChangedDuringProof? <==> forall i | 0 <= i < |attempts| :: !SawSameRevision(h, r, attempts[i])
    ensures b.Stable? ==> exists i | 0 <= i < |attempts| ::
      (&& SawSameRevision(h, r, attempts[i])
       && (forall j | 0 <= j < i :: !SawSameRevision(h, r, attempts[j]))
       && b.revision == Revision(At(h, attempts[i].revision), r)
       && |b.views| == |attempts[i].rows| && Snapshot(b.views, ViewOf(At(h, attempts[i].revision), r)))
  {
    hide ViewOf, At, Revision, Snapshot, Stationary;
    var last: seq<View> := [];
    for i := 0 to MAX_ATTEMPTS
      invariant forall j | 0 <= j < i :: !SawSameRevision(h, r, attempts[j])
    {
      var a := attempts[i];
      assert Readable(h, r, a);
      var revision := Revision(At(h, a.revision), r);
      last := ReadRows(h, r, a);
      if Revision(At(h, a.recheck), r) == revision {
        ReadConsistently(h, r, a, last);
        return Stable(revision, last);
      }
    }
    b := StateChangedDuringProof(last);
  }

  lemma ReadWithin(h: History, r: RunId, a: Reading, early: Instant, late: Instant)
    requires Timely(h, a) && Readable(h, r, a) && early <= a.revision && a.recheck <= late <= |h.writes|
    ensures early <= a.revision <= late && r in At(h, a.revision).runs
  {
  }

  // ---------------------------------------------------------------- the cache

  datatype CacheKey = CacheKey(command: nat, revision: nat, watermark: string, leaseExpiry: Option<nat>)
  datatype CacheEntry = CacheEntry(views: seq<View>, expiresAt: nat)

  /** What a lookup leaves: unexpired entries, and of the command's own only the one looked for. */
  function Pruned(
    entries: map<CacheKey, CacheEntry>, command: nat, key: Option<CacheKey>, clock: nat): map<CacheKey, CacheEntry>
  {
    map k | k in entries && entries[k].expiresAt > clock && (k.command != command || Some(k) == key) :: entries[k]
  }

  /** The key of the state a proof is asked for in; without a watermark there is none. */
  function KeyAt(
    h: History, r: RunId, t: Instant, command: nat, watermark: Option<string>, lease: Option<nat>): Option<CacheKey>
    requires t <= |h.writes|
  {
    if watermark.None? then None else Some(CacheKey(command, Revision(At(h, t), r), watermark.value, lease))
  }

  /** The proof cache of one run. */
  class ProofCache {
    var entries: map<CacheKey, CacheEntry>

    constructor ()
      ensures entries == map[]
    {
      entries := map[];
    }

    /** Every entry holds what the run looked like at some earlier instant with the entry's revision. */
    ghost predicate Sound(h: History, r: RunId, now: Instant)
      reads this
      requires now <= |h.writes|
    {
      forall key | key in entries :: Witnessed(h, r, now, key, entries[key].views)
    }

    static ghost predicate Witnessed(h: History, r: RunId, now: Instant, key: CacheKey, views: seq<View>)
      requires now <= |h.writes|
    {
      exists t | 0 <= t <= now :: r in At(h, t).runs && Revision(At(h, t), r) == key.revision
                                  && Snapshot(views, ViewOf(At(h, t), r))
    }

    /** Drop expired entries and those of the same command under another key, then look the key up, if
        there is one: a hit shows the run's rows exactly as they are now. */
    method Lookup(ghost h: History, ghost r: RunId, ghost now: Instant, command: nat, key: Option<CacheKey>, clock: nat)
      returns (hit: Option<seq<View>>)
      requires now <= |h.writes| && Sound(h, r, now) && Stationary(h, r, 0, now)
      requires r in At(h, now).runs && (key.Some? ==> key.value.revision == Revision(At(h, now), r))
      modifies this
      ensures Sound(h, r, now)
      ensures entries == Pruned(old(entries), command, key, clock)
      ensures hit.Some? <==> key.Some? && key.value in entries
      ensures hit.Some? ==> hit.value == entries[key.value].views && Snapshot(hit.value, ViewOf(At(h, now), r))
    {
      entries := map k | k in entries && entries[k].expiresAt > clock && (k.command != command || Some(k) == key)
                       :: entries[k];
      if key.None? || key.value !in entries {
        return None;
      }
      ghost var views := entries[key.value].views;
      assert Witnessed(h, r, now, key.value, views);
      ghost var t :| 0 <= t <= now && r in At(h, t).runs && Revision(At(h, t), r) == key.value.revision
                     && Snapshot(views, ViewOf(At(h, t), r));
      UnchangedRevisionIsConsistent(h, r, t, now, now);
      hit := Some(entries[key.value].views);
    }

    /** A stable build is stored under the revision it was validated against. */
    method Store(ghost h: History, ghost r: RunId, ghost readAt: Instant, ghost now: Instant, key: CacheKey,
                 views: seq<View>, expiresAt: nat)
      requires readAt <= now <= |h.writes| && Sound(h, r, now)
      requires r in At(h, readAt).runs && key.revision == Revision(At(h, readAt), r)
      requires Snapshot(views, ViewOf(At(h, readAt), r))
      modifies this
      ensures Sound(h, r, now)
      ensures entries == old(entries)[key := CacheEntry(views, expiresAt)]
    {
      assert Witnessed(h, r, now, key, views);
      entries := entries[key := CacheEntry(views, expiresAt)];
    }

    /** One proof, while writers run: answered from the cache, or built until the revision holds and then
        remembered. Whatever is returned as stable shows the run at one instant of the call, also when
        an earlier call built it; otherwise the revision moved during every build. */
    method Prove(
      h: History, r: RunId, ghost since: Instant, called: Instant, attempts: seq<Reading>, ghost done: Instant,
      command: nat, watermark: Option<string>, lease: Option<nat>, clock: nat,
      reconciled: Option<string>, leaseThen: Option<nat>, clockThen: nat, expiresAt: nat) returns (b: Build)
      requires since <= called <= done <= |h.writes| && Sound(h, r, since)
      requires r in At(h, called).runs && Stationary(h, r, 0, called) && |attempts| == MAX_ATTEMPTS
      requires forall i | 0 <= i < |attempts| ::
        (&& Timely(h, attempts[i]) && Readable(h, r, attempts[i])
         && called <= attempts[i].revision && attempts[i].recheck <= done)
      modifies this
      ensures Sound(h, r, done)
      ensures b.Stable? ==> exists t | called <= t <= done ::
        b.revision == Revision(At(h, t), r) && Snapshot(b.views, ViewOf(At(h, t), r))
      ensures b.StateChangedDuringProof? ==> forall i | 0 <= i < |attempts| :: !SawSameRevision(h, r, attempts[i])
      ensures var key := KeyAt(h, r, called, command, watermark, lease);
        var kept := Pruned(old(entries), command, key, clock);
        if key.Some? && key.value in kept then b == Stable(key.value.revision, kept[key.value].views) && entries == kept
        else if b.Stable? && reconciled.Some? && expiresAt > clockThen
        then entries == kept[CacheKey(command, b.revision, reconciled.value, leaseThen) := CacheEntry(b.views, expiresAt)]
        else entries == kept
    {
      hide ViewOf, At, Revision, Snapshot, Stationary, Readable, SawSameRevision, Pruned;
      var key := KeyAt(h, r, called, command, watermark, lease);
      SoundLater(this, h, r, since, called);
      var hit := Lookup(h, r, called, command, key, clock);
      SoundLater(this, h, r, called, done);
      if hit.Some? {
        return Stable(key.value.revision, hit.value);
      }
      b := StabilityLoop(h, r, attempts);
      if b.Stable? {
        ghost var i :| 0 <= i < |attempts| && b.revision == Revision(At(h, attempts[i].revision), r)
                       && Snapshot(b.views, ViewOf(At(h, attempts[i].revision), r));
        ReadWithin(h, r, attempts[i], called, done);
        if reconciled.Some? && expiresAt > clockThen {
          Store(h, r, attempts[i].revision, done, CacheKey(command, b.revision, reconciled.value, leaseThen), b.views, expiresAt);
        }
      }
    }
  }

  /** Soundness of the cache survives the passing of time. */
  lemma SoundLater(c: ProofCache, h: History, r: RunId, early: Instant, late: Instant)
    requires early <= late <= |h.writes| && c.Sound(h, r, early)
    ensures c.Sound(h, r, late)
  {
    forall key | key in c.entries ensures ProofCache.Witnessed(h, r, late, key, c.entries[key].views) {
      assert ProofCache.Witnessed(h, r, early, key, c.entries[key].views);
    }
  }
}
