/** The eager machine: a registry that walks the subtree and marks every node at command time. */
module Eager {
  import opened Options
  import opened Domain
  import opened Scopes
  import opened Tools
  import opened Transitions
  import opened Fences
  import opened Revocation
  import opened Coherence
  import opened Growth
  import opened Histories

  /** The nodes that a command committed between two states targets when it commits. */
  ghost predicate Struck(s: State, t: State, n: Id)
    requires n < |t.nodes|
  {
    exists c | |s.commands| <= c < |t.commands| :: Targets(t, c, n)
  }

  /** What the eager machine has marked after a run; marks are never revised. */
  ghost function Marks(s: Database, cfg: Config, events: seq<Event>, marked: set<Id>): set<Id>
    decreases |events|
  {
    if events == [] then marked else
      var t := Step(s, cfg, events[0]).db;
      Marks(t, cfg, events[1..], marked + set n | 0 <= n < |t.nodes| && Struck(s, t, n))
  }

  ghost predicate MarksRevoked(s: State, marked: set<Id>) {
    forall n: Id :: n in marked <==> n < |s.nodes| && Revoked(s, n)
  }

  lemma StepMarks(s: Database, t: Database, marked: set<Id>)
    requires WellFenced(s) && WellJoined(t) && Later(s, t) && MarksRevoked(s, marked)
    ensures MarksRevoked(t, marked + set n | 0 <= n < |t.nodes| && Struck(s, t, n))
  {
    hide StaysClosed, EnvelopesStay;
    forall n: Id | n < |t.nodes|
      ensures Revoked(t, n) <==> (n < |s.nodes| && Revoked(s, n)) || Struck(s, t, n)
    {
      if n < |s.nodes| && Revoked(s, n) { RevokedStays(s, t, n); }
      if c :| 0 <= c < |t.commands| && Targets(t, c, n) {
        if c < |s.commands| {
          assert CommandFences(s, c);
          assert t.commands[c].order == s.commands[c].order;
          assert n < |s.nodes| by { assert t.nodes[n].reg.registeredAt < t.commands[c].order.createdAt; }
          TargetsFrame(s, t, c, n);
        }
      }
    }
  }

  lemma {:induction false} MarksRefine(s: Database, cfg: Config, events: seq<Event>, marked: set<Id>)
    requires Coherent(s) && MarksRevoked(s, marked)
    ensures MarksRevoked(After(s, cfg, events), Marks(s, cfg, events, marked))
    decreases |events|
  {
    hide Coherent, Step, Later, Evolves, Past, MarksRevoked;
    if events != [] {
      var t := Step(s, cfg, events[0]).db;
      StepCoherent(s, cfg, events[0]);
      assert WellFenced(s) && WellJoined(t) && Later(s, t) by {
        AdmittedOf(s);
        AdmittedOf(t);
        EvolvesLater(s, events[0], t);
      }
      StepMarks(s, t, marked);
      MarksRefine(t, cfg, events[1..], marked + set n | 0 <= n < |t.nodes| && Struck(s, t, n));
    }
  }

  /** Lazy invalidation refines eager revocation over every run: the snapshot check refuses
      exactly the nodes that the eager machine has marked. */
  lemma LazyRefinesEager(cfg: Config, events: seq<Event>, n: Id)
    requires n < |After(EMPTY, cfg, events).nodes|
    ensures EvaluationOf(After(EMPTY, cfg, events), n).allowed <==> n !in Marks(EMPTY, cfg, events, {})
  {
    hide Coherent;
    EmptyCoherent();
    assert MarksRevoked(EMPTY, {});
    MarksRefine(EMPTY, cfg, events, {});
    ReachableCoherent(cfg, events);
    AdmittedOf(After(EMPTY, cfg, events));
    LazyIsEager(After(EMPTY, cfg, events), n);
  }
}
