/** Evaluation of a frozen scope snapshot against the live scopes. */
module Scopes {
  import opened Options
  import opened Domain

  datatype Evaluation = Evaluation(allowed: bool, effective: NodeStatus, mismatches: seq<Mismatch>) {
    function PrimaryReason(): Option<Code> {
      if mismatches == [] then None else Some(mismatches[0].reason)
    }
  }

  function MismatchOf(scopes: seq<Scope>, run: Id, item: Snap): Option<Mismatch> {
    if item.scope >= |scopes| || scopes[item.scope].run != run then
      Some(Mismatch(item.scope, item.version, None, None, ScopeNotFound))
    else
      var live := scopes[item.scope];
      match live.status
      case ScopeCancelled =>
        Some(Mismatch(item.scope, item.version, Some(live.version), Some(live.status), ScopeIsCancelled))
      case ScopeSuperseded =>
        Some(Mismatch(item.scope, item.version, Some(live.version), Some(live.status), ScopeIsSuperseded))
      case ScopeActive =>
        if live.version == item.version then None else
          Some(Mismatch(item.scope, item.version, Some(live.version), Some(live.status), ScopeVersionMismatch))
  }

  /** The mismatches of a snapshot, outermost scope first. */
  function Mismatches(scopes: seq<Scope>, run: Id, snapshot: seq<Snap>): seq<Mismatch> {
    if snapshot == [] then [] else
      var outer := Mismatches(scopes, run, snapshot[..|snapshot| - 1]);
      match MismatchOf(scopes, run, snapshot[|snapshot| - 1])
      case None => outer
      case Some(m) => outer + [m]
  }

  predicate Kills(m: Mismatch) {
    m.reason == ScopeNotFound || m.reason == ScopeIsCancelled
  }

  /** A node whose scopes mismatch is cancelled when any of them is missing or cancelled and
      superseded otherwise, in whatever order the snapshot lists them. */
  function Effective(mismatches: seq<Mismatch>): NodeStatus {
    if exists i | 0 <= i < |mismatches| :: Kills(mismatches[i]) then Cancelled
    else if mismatches != [] then Superseded
    else Active
  }

  function Evaluate(scopes: seq<Scope>, reg: Registration): Evaluation {
    if reg.snapshot == [] then Evaluation(false, Cancelled, [])
    else
      var mismatches := Mismatches(scopes, reg.run, reg.snapshot);
      Evaluation(mismatches == [], Effective(mismatches), mismatches)
  }

  /** The service's loop: one pass with a running effective status. */
  method EvaluateScopes(scopes: seq<Scope>, reg: Registration) returns (e: Evaluation)
    ensures e == Evaluate(scopes, reg)
  {
    if reg.snapshot == [] {
      return Evaluation(false, Cancelled, []);
    }
    var mismatches: seq<Mismatch> := [];
    var effective := Active;
    for i := 0 to |reg.snapshot|
      invariant mismatches == Mismatches(scopes, reg.run, reg.snapshot[..i])
      invariant effective == Effective(mismatches)
    {
      var item := reg.snapshot[i];
      assert reg.snapshot[..i + 1][..i] == reg.snapshot[..i];
      if item.scope >= |scopes| || scopes[item.scope].run != reg.run {
        var m := Mismatch(item.scope, item.version, None, None, ScopeNotFound);
        EffectiveAppend(mismatches, m);
        mismatches := mismatches + [m];
        effective := Cancelled;
      } else {
        var live := scopes[item.scope];
        if live.status == ScopeCancelled {
          var m := Mismatch(item.scope, item.version, Some(live.version), Some(live.status), ScopeIsCancelled);
          EffectiveAppend(mismatches, m);
          mismatches := mismatches + [m];
          effective := Cancelled;
        } else if live.status == ScopeSuperseded {
          var m := Mismatch(item.scope, item.version, Some(live.version), Some(live.status), ScopeIsSuperseded);
          EffectiveAppend(mismatches, m);
          mismatches := mismatches + [m];
          if effective != Cancelled {
            effective := Superseded;
          }
        } else if live.version != item.version {
          var m := Mismatch(item.scope, item.version, Some(live.version), Some(live.status), ScopeVersionMismatch);
          EffectiveAppend(mismatches, m);
          mismatches := mismatches + [m];
          if effective == Active {
            effective := Superseded;
          }
        }
      }
    }
    assert reg.snapshot[..|reg.snapshot|] == reg.snapshot;
    e := Evaluation(mismatches == [], effective, mismatches);
  }

  lemma EffectiveAppend(ms: seq<Mismatch>, m: Mismatch)
    ensures Effective(ms + [m])
            == if Kills(m) || Effective(ms) == Cancelled then Cancelled else Superseded
  {
    assert (ms + [m])[|ms|] == m;
    assert forall i | 0 <= i < |ms| :: (ms + [m])[i] == ms[i];
  }

  // ---------------------------------------------------------------- what the evaluation means

  /** The mismatches are exactly the outdated items of the snapshot. */
  lemma {:induction false} MismatchMembers(scopes: seq<Scope>, run: Id, snapshot: seq<Snap>, m: Mismatch)
    ensures m in Mismatches(scopes, run, snapshot)
            <==> exists i | 0 <= i < |snapshot| :: MismatchOf(scopes, run, snapshot[i]) == Some(m)
  {
    if snapshot != [] {
      var last := |snapshot| - 1;
      MismatchMembers(scopes, run, snapshot[..last], m);
      assert forall i | 0 <= i < last :: snapshot[..last][i] == snapshot[i];
    }
  }

  /** Listing the same items in another order changes neither the verdict nor the status. */
  lemma EvaluationIgnoresOrder(scopes: seq<Scope>, reg: Registration, other: Registration)
    requires reg.run == other.run && multiset(reg.snapshot) == multiset(other.snapshot)
    ensures Evaluate(scopes, reg).allowed == Evaluate(scopes, other).allowed
    ensures Evaluate(scopes, reg).effective == Evaluate(scopes, other).effective
  {
    var a, b := Mismatches(scopes, reg.run, reg.snapshot), Mismatches(scopes, reg.run, other.snapshot);
    forall m ensures m in a <==> m in b {
      if m in a { SameItemsSameMismatch(scopes, reg.run, reg.snapshot, other.snapshot, m); }
      if m in b { SameItemsSameMismatch(scopes, reg.run, other.snapshot, reg.snapshot, m); }
    }
    SameMembersSameStatus(a, b);
    assert |reg.snapshot| == |multiset(reg.snapshot)| == |multiset(other.snapshot)| == |other.snapshot|;
  }

  lemma SameItemsSameMismatch(scopes: seq<Scope>, run: Id, a: seq<Snap>, b: seq<Snap>, m: Mismatch)
    requires multiset(a) == multiset(b) && m in Mismatches(scopes, run, a)
    ensures m in Mismatches(scopes, run, b)
  {
    MismatchMembers(scopes, run, a, m);
    MismatchMembers(scopes, run, b, m);
    var i :| 0 <= i < |a| && MismatchOf(scopes, run, a[i]) == Some(m);
    assert a[i] in multiset(b);
  }

  lemma SameMembersSameStatus(a: seq<Mismatch>, b: seq<Mismatch>)
    requires forall m :: m in a <==> m in b
    ensures (a == []) == (b == []) && Effective(a) == Effective(b)
  {
    if a != [] { assert a[0] in b; }
    if b != [] { assert b[0] in a; }
    assert (exists i | 0 <= i < |a| :: Kills(a[i])) <==> exists m | m in a :: Kills(m);
    assert (exists i | 0 <= i < |b| :: Kills(b[i])) <==> exists m | m in b :: Kills(m);
  }

  /** The primary reason is that of the outermost outdated scope. */
  lemma {:induction false} PrimaryIsOutermost(scopes: seq<Scope>, run: Id, snapshot: seq<Snap>) returns (i: nat)
    requires Mismatches(scopes, run, snapshot) != []
    ensures i < |snapshot|
    ensures MismatchOf(scopes, run, snapshot[i]) == Some(Mismatches(scopes, run, snapshot)[0])
    ensures forall j | 0 <= j < i :: MismatchOf(scopes, run, snapshot[j]) == None
  {
    var last := |snapshot| - 1;
    var outer := Mismatches(scopes, run, snapshot[..last]);
    if outer == [] {
      i := last;
      forall j | 0 <= j < last ensures MismatchOf(scopes, run, snapshot[j]) == None {
        var m := MismatchOf(scopes, run, snapshot[j]);
        assert snapshot[..last][j] == snapshot[j];
        if m.Some? { MismatchMembers(scopes, run, snapshot[..last], m.value); }
      }
    } else {
      i := PrimaryIsOutermost(scopes, run, snapshot[..last]);
      assert forall j | 0 <= j <= i :: snapshot[..last][j] == snapshot[j];
    }
  }

  // ---------------------------------------------------------------- attribution to commands

  /** Some mismatch saw this scope at this live version. */
  predicate Blames(mismatches: seq<Mismatch>, scope: Id, version: nat) {
    exists i | 0 <= i < |mismatches| ::
      mismatches[i].scope == scope && mismatches[i].liveVersion == Some(version)
  }

  /** The commands of a run whose scope and resulting version the mismatches saw, oldest first. */
  function Attributed(commands: seq<Command>, mismatches: seq<Mismatch>, run: Id): (ids: seq<Id>)
    ensures forall i | 0 <= i < |ids| :: ids[i] < |commands|
  {
    if commands == [] then [] else
      var last := |commands| - 1;
      var older := Attributed(commands[..last], mismatches, run);
      var order := commands[last].order;
      if order.run == run && Blames(mismatches, order.targetScope, order.toVersion)
      then older + [last] else older
  }

  method CommandsForMismatches(commands: seq<Command>, mismatches: seq<Mismatch>, run: Id)
    returns (ids: seq<Id>)
    ensures ids == Attributed(commands, mismatches, run)
  {
    ids := [];
    if mismatches == [] {
      NothingAttributed(commands, run);
      return;
    }
    for i := 0 to |commands|
      invariant ids == Attributed(commands[..i], mismatches, run)
    {
      assert commands[..i + 1][..i] == commands[..i];
      var order := commands[i].order;
      if order.run == run && Blames(mismatches, order.targetScope, order.toVersion) {
        ids := ids + [i];
      }
    }
    assert commands[..|commands|] == commands;
  }

  lemma NothingAttributed(commands: seq<Command>, run: Id)
    ensures Attributed(commands, [], run) == []
  {
  }

  /** The attribution lists exactly the matching commands, in creation order and once each. */
  lemma {:induction false} AttributedMembers(commands: seq<Command>, mismatches: seq<Mismatch>, run: Id)
    ensures var ids := Attributed(commands, mismatches, run);
      && (forall c :: c in ids <==>
            && 0 <= c < |commands| && commands[c].order.run == run
            && Blames(mismatches, commands[c].order.targetScope, commands[c].order.toVersion))
      && (forall i, j | 0 <= i < j < |ids| :: ids[i] < ids[j])
  {
    if commands != [] {
      var last := |commands| - 1;
      AttributedMembers(commands[..last], mismatches, run);
      var older := Attributed(commands[..last], mismatches, run);
      assert forall c | 0 <= c < last :: commands[..last][c] == commands[c];
    }
  }
}
