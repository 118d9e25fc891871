/** Completing a run, and what one stale denial leaves on record. */
module Lifecycle {
  import opened Options
  import opened Domain
  import opened Scopes
  import opened Tools
  import opened Transitions
  import opened Frames
  import opened Tree
  import opened Fences
  import opened Revocation
  import opened Lives
  import opened Credentials
  import opened Replacements
  import opened Admissions
  import opened Attribution
  import opened Coherence
  import opened Growth
  import opened Audit

  // ---------------------------------------------------------------- creating a run

  /** A created run's token authenticates its root, which no command targets and which is live at once,
      unless leases last no time at all; and no older node gains or loses authority by it. */
  lemma NewRootIsLive(s: Database, cfg: Config, role: string, instruction: Json, capabilities: set<Capability>)
    requires Coherent(s) && Past(s) && CreateRun(s, cfg, role, instruction, capabilities).out.RunMade?
    ensures var r := CreateRun(s, cfg, role, instruction, capabilities);
      var t, root := r.db, r.out.root;
      && root == |s.nodes| && |t.nodes| == |s.nodes| + 1
      && r.out.run == |s.runs| && |t.runs| == |s.runs| + 1 && t.runs[r.out.run].root == root
      && Authenticate(t, root, r.out.token).None?
      && !Revoked(t, root) && (RuntimeOf(t, root).allowed <==> cfg.leaseTtl > 0)
      && forall n | 0 <= n < |s.nodes| :: RuntimeOf(t, n).allowed <==> RuntimeOf(s, n).allowed
  {
    hide Coherent, Past, Evolves, RuntimeOf, Revoked, Targets;
    var t := CreateRun(s, cfg, role, instruction, capabilities).db;
    CreateRunCoherent(s, cfg, role, instruction, capabilities);
    RowsOf(s);
    RowsOf(t);
    assert Extends(s, t);
    forall n | 0 <= n < |s.nodes| ensures RuntimeOf(t, n).allowed <==> RuntimeOf(s, n).allowed {
      LiveExactly(s, n);
      LiveExactly(t, n);
      SameRevoked(s, t, n);
    }
    LiveExactly(t, |s.nodes|);
    NewcomerUnrevoked(t, |s.nodes|);
  }

  lemma SameRevoked(s: State, t: State, n: Id)
    requires Extends(s, t) && |t.commands| == |s.commands| && n < |s.nodes|
    ensures Revoked(t, n) <==> Revoked(s, n)
  {
    forall c | 0 <= c < |s.commands| ensures Targets(t, c, n) <==> Targets(s, c, n) {
      TargetsFrame(s, t, c, n);
    }
  }

  lemma NewcomerUnrevoked(t: State, n: Id)
    requires Coherent(t) && n < |t.nodes| && t.nodes[n].reg.registeredAt == t.clock
    ensures !Revoked(t, n)
  {
    forall c | 0 <= c < |t.commands| ensures !Targets(t, c, n) {
      assert CommandFences(t, c);
    }
  }

  // ---------------------------------------------------------------- completing a run

  /** A node that holds the completion of its run up: unsettled, not run out, and targeted by no command. */
  ghost predicate Blocking(s: Database, run: Id, n: Id)
    requires n < |s.nodes| && run < |s.runs|
  {
    && s.nodes[n].reg.run == run && n != s.runs[run].root
    && !Settled(s.nodes[n].life.status) && !RanOut(s, n) && !Revoked(s, n)
  }

  /** The run closes as completed now, with its root, and every other node is settled or revoked. */
  ghost predicate Closes(s: Database, r: Reply, n: Id)
    requires n < |s.nodes|
  {
    var run := s.nodes[n].reg.run;
    && r.out == Finished
    && |r.db.runs| == |s.runs|
    && r.db.runs[run] == s.runs[run].(status := RunCompleted, finishedAt := Some(s.clock))
    && |r.db.nodes| == |s.nodes| && r.db.nodes[n].life.status == Completed
    && forall other {:trigger s.nodes[other]} | 0 <= other < |s.nodes| && s.nodes[other].reg.run == run ::
         Settled(r.db.nodes[other].life.status) || Revoked(s, other)
  }

  lemma {:induction false} DueListed(s: Database, run: Id, root: Id, upto: nat, n: Id)
    requires n < upto <= |s.nodes|
    requires s.nodes[n].reg.run == run && n != root && !Settled(s.nodes[n].life.status) && RanOut(s, n)
    ensures n in DueOthers(s, run, root, upto)
  {
    if n < upto - 1 {
      DueListed(s, run, root, upto - 1, n);
    }
  }

  lemma {:induction false} MarkedIsExpired(s: Database, ids: seq<Id>, n: Id)
    requires forall i | 0 <= i < |ids| :: ids[i] < |s.nodes|
    requires n in ids
    ensures n < |s.nodes| && MarkAllExpired(s, ids).nodes[n].life.status == LeaseExpired
  {
    var t := MarkAllExpired(s, ids[..|ids| - 1]);
    MarkExpires(t, ids[|ids| - 1]);
    if n != ids[|ids| - 1] {
      MarkedIsExpired(s, ids[..|ids| - 1], n);
    }
  }

  /** Settled nodes stay settled while others are written off. */
  lemma MarkedOrSame(s: Database, ids: seq<Id>, n: Id)
    requires (forall i | 0 <= i < |ids| :: ids[i] < |s.nodes|) && n < |s.nodes| && Settled(s.nodes[n].life.status)
    ensures Settled(MarkAllExpired(s, ids).nodes[n].life.status)
  {
    MarkAllExpires(s, ids);
    var t := MarkAllExpired(s, ids);
    assert t.nodes[n].life == s.nodes[n].life || t.nodes[n].life == s.nodes[n].life.(status := LeaseExpired);
  }

  /** A live root's completion is refused for live nodes exactly when one blocks it, and a refusal
      changes nothing; otherwise the run closes now and every other node is settled or revoked. */
  lemma CompletionOfRun(s: Database, n: Id, token: Token)
    requires Coherent(s) && n < |s.nodes| && s.nodes[n].life.token == Some(token) && RuntimeOf(s, n).allowed
    requires s.runs[s.nodes[n].reg.run].root == n
    ensures var run := s.nodes[n].reg.run; var r := Complete(s, false, n, token);
      if exists other | 0 <= other < |s.nodes| :: Blocking(s, run, other)
      then r == Reply(s, Refused(RunHasLiveNodes))
      else Closes(s, r, n)
  {
    hide Coherent, RuntimeOf, EvaluationOf, Revoked, RanOut, DueOthers, MarkAllExpired;
    var run := s.nodes[n].reg.run;
    RowsOf(s);
    assert NodeLinked(s, n) by { assert WellTreed(s); }
    forall other | 0 <= other < |s.nodes| ensures BlocksCompletion(s, run, n, other) <==> Blocking(s, run, other) {
      LazyIsEager(s, other);
    }
    if !exists other | 0 <= other < |s.nodes| :: Blocking(s, run, other) {
      RootFinishes(s, n);
      CompleteFinishes(s, n, token);
    }
  }

  lemma CompleteFinishes(s: Database, n: Id, token: Token)
    requires n < |s.nodes| && s.nodes[n].life.token == Some(token) && RuntimeOf(s, n).allowed
    requires s.runs[s.nodes[n].reg.run].root == n
    requires !exists other | 0 <= other < |s.nodes| :: BlocksCompletion(s, s.nodes[n].reg.run, n, other)
    ensures var run := s.nodes[n].reg.run;
      Complete(s, false, n, token) == FinishRoot(s, MarkAllExpired(s, DueOthers(s, run, n, |s.nodes|)), run, n)
  {
    hide RuntimeOf, BlocksCompletion, DueOthers, MarkAllExpired, FinishRoot;
  }

  lemma RootFinishes(s: Database, n: Id)
    requires WellTreed(s) && WellFenced(s) && n < |s.nodes| && s.nodes[n].reg.causedBy.None?
    requires RuntimeOf(s, n).allowed && s.runs[s.nodes[n].reg.run].root == n
    requires forall other | 0 <= other < |s.nodes| :: !Blocking(s, s.nodes[n].reg.run, other)
    ensures var run := s.nodes[n].reg.run;
      Closes(s, FinishRoot(s, MarkAllExpired(s, DueOthers(s, run, n, |s.nodes|)), run, n), n)
  {
    hide Evaluate, Revoked, RanOut, DueOthers, MarkAllExpired;
    var run := s.nodes[n].reg.run;
    var ids := DueOthers(s, run, n, |s.nodes|);
    var t := MarkAllExpired(s, ids);
    MarkAllQuiet(s, ids);
    assert t.nodes[n].reg == s.nodes[n].reg;
    var r := FinishRoot(s, t, run, n);
    forall other | 0 <= other < |s.nodes| && s.nodes[other].reg.run == run
      ensures Settled(r.db.nodes[other].life.status) || Revoked(s, other)
    {
      if other != n && !Revoked(s, other) {
        if Settled(s.nodes[other].life.status) {
          MarkedOrSame(s, ids, other);
        } else {
          assert !Blocking(s, run, other);
          DueListed(s, run, n, |s.nodes|, other);
          MarkedIsExpired(s, ids, other);
        }
      }
    }
  }

  // ---------------------------------------------------------------- one stale denial

  /** A stale denial records exactly one match and one acknowledgement per dead scope of the
      acting node's snapshot: recorded matches and outdated scopes are in bijection. */
  lemma StaleDenialIsExact(s: Database, n: Id, request: ActionRequest, spec: ToolSpec, code: Code)
    requires Coherent(s) && Past(s) && n < |s.nodes| && StaleReason(code) && !EvaluationOf(s, n).allowed
    ensures var t := DenyAction(s, n, request, spec, code); var a := |s.attempts|; var ms := EvaluationOf(s, n).mismatches;
      && (forall c: Id :: MatchKey(a, c) in t.matches <==> c < |s.commands| && Targets(s, c, n))
      && (forall c: Id :: MatchKey(a, c) in t.matches ==>
            t.matches[MatchKey(a, c)] in ms && AckKey(c, n, GatewayBlockAck) in t.acks)
      && (forall m | m in ms :: exists c: Id :: MatchKey(a, c) in t.matches && t.matches[MatchKey(a, c)] == m)
      && (forall c: Id, d: Id :: MatchKey(a, c) in t.matches && MatchKey(a, d) in t.matches && c != d ==>
            t.matches[MatchKey(a, c)].scope != t.matches[MatchKey(a, d)].scope)
  {
    hide Coherent, DenyAction, EvaluationOf, Targets;
    var t := DenyAction(s, n, request, spec, code);
    var a := |s.attempts|;
    var ms := EvaluationOf(s, n).mismatches;
    assert Attributable(s) && WellMatched(s) by { MatchesOf(s); }
    forall c: Id
      ensures MatchKey(a, c) in t.matches <==> c < |s.commands| && Targets(s, c, n)
      ensures MatchKey(a, c) in t.matches ==>
        t.matches[MatchKey(a, c)] == ClosedBy(s.commands[c].order) && t.matches[MatchKey(a, c)] in ms
        && AckKey(c, n, GatewayBlockAck) in t.acks
    {
      assert MatchRight(s, MatchKey(a, c));
      StaleDenialRecords(s, n, request, spec, code, MatchKey(a, c));
      if c < |s.commands| { MismatchIsClosed(s, n, ClosedBy(s.commands[c].order)); }
    }
    forall m | m in ms ensures exists c: Id :: MatchKey(a, c) in t.matches && t.matches[MatchKey(a, c)] == m {
      MismatchIsClosed(s, n, m);
      var c: Id :| c < |s.commands| && Targets(s, c, n) && m == ClosedBy(s.commands[c].order);
      assert MatchKey(a, c) in t.matches;
    }
    forall c: Id, d: Id | MatchKey(a, c) in t.matches && MatchKey(a, d) in t.matches && c != d
      ensures t.matches[MatchKey(a, c)].scope != t.matches[MatchKey(a, d)].scope
    {
      assert CommandFences(s, c) && CommandFences(s, d);
    }
  }

  lemma MatchesOf(s: State)
    requires Coherent(s) && Past(s)
    ensures Attributable(s) && WellMatched(s)
  {
  }
}
