/** The severity lattice that combines the dimensions of a proof. */
module Verdicts {
  datatype Verdict =
    | Inconsistent | StateChangedDuringProof | Incomplete | Partial | Unavailable | Verified | NotApplicable

  function Severity(v: Verdict): nat {
    match v
    case Inconsistent => 0
    case StateChangedDuringProof => 1
    case Incomplete => 2
    case Partial => 3
    case Unavailable => 4
    case Verified => 5
    case NotApplicable => 6
  }

  function Applicable(vs: seq<Verdict>): seq<Verdict> {
    if vs == [] then [] else
      (if vs[0] == NotApplicable then [] else [vs[0]]) + Applicable(vs[1..])
  }

  /** The first verdict of least severity index. */
  function MostSevere(vs: seq<Verdict>): Verdict
    requires vs != []
  {
    if |vs| == 1 then vs[0] else
      var rest := MostSevere(vs[1..]);
      if Severity(vs[0]) <= Severity(rest) then vs[0] else rest
  }

  function Combine(vs: seq<Verdict>): Verdict {
    var applicable := Applicable(vs);
    if applicable == [] then NotApplicable else MostSevere(applicable)
  }

  function CombineAll(groups: seq<seq<Verdict>>): seq<Verdict> {
    if groups == [] then [] else [Combine(groups[0])] + CombineAll(groups[1..])
  }

  function Flatten(groups: seq<seq<Verdict>>): seq<Verdict> {
    if groups == [] then [] else groups[0] + Flatten(groups[1..])
  }

  /** The worst of two verdicts, with a verdict that does not apply as the identity. */
  function Worst(a: Verdict, b: Verdict): Verdict {
    if Severity(a) <= Severity(b) then a else b
  }

  lemma {:induction false} ApplicableMembers(vs: seq<Verdict>, v: Verdict)
    ensures v in Applicable(vs) <==> v in vs && v != NotApplicable
  {
    if vs != [] {
      ApplicableMembers(vs[1..], v);
      assert v in vs <==> v == vs[0] || v in vs[1..];
    }
  }

  lemma {:induction false} MostSevereIsLeast(vs: seq<Verdict>)
    requires vs != []
    ensures MostSevere(vs) in vs && forall v | v in vs :: Severity(MostSevere(vs)) <= Severity(v)
  {
    if |vs| > 1 {
      MostSevereIsLeast(vs[1..]);
      assert forall v :: v in vs <==> v == vs[0] || v in vs[1..];
    }
  }

  /** The combination is one of the verdicts, none of them is more severe, and a dimension that
      does not apply decides only when no other does. */
  lemma CombineIsMostSevere(vs: seq<Verdict>)
    ensures vs != [] ==> Combine(vs) in vs
    ensures forall v | v in vs :: Severity(Combine(vs)) <= Severity(v)
    ensures Combine(vs) == NotApplicable <==> forall v | v in vs :: v == NotApplicable
    ensures vs != [] && Combine(vs) == Verified
            <==> Verified in vs && forall v | v in vs :: v == Verified || v == NotApplicable
  {
    forall v ensures v in Applicable(vs) <==> v in vs && v != NotApplicable {
      ApplicableMembers(vs, v);
    }
    var applicable := Applicable(vs);
    if applicable == [] {
      forall v | v in vs ensures v == NotApplicable {
        assert v in applicable <==> v != NotApplicable;
      }
    } else {
      MostSevereIsLeast(applicable);
      assert applicable[0] in applicable;
    }
    if vs != [] { assert vs[0] in vs; }
  }

  /** Only which verdicts occur matters: order and repetition do not. */
  lemma CombineIgnoresOrder(a: seq<Verdict>, b: seq<Verdict>)
    requires forall v :: v in a <==> v in b
    ensures Combine(a) == Combine(b)
  {
    CombineIsMostSevere(a);
    CombineIsMostSevere(b);
    if a != [] { assert a[0] in b; }
    if b != [] { assert b[0] in a; }
    assert Severity(Combine(a)) == Severity(Combine(b));
  }

  lemma {:induction false} CombineConcat(a: seq<Verdict>, b: seq<Verdict>)
    ensures Combine(a + b) == Worst(Combine(a), Combine(b))
  {
    CombineIsMostSevere(a);
    CombineIsMostSevere(b);
    CombineIsMostSevere(a + b);
    if a == [] { assert a + b == b; }
    if b == [] { assert a + b == a; }
  }

  /** Commutative, associative, idempotent, with a dimension that does not apply as identity. */
  lemma CombineIsSemilattice(a: Verdict, b: Verdict, c: Verdict)
    ensures Combine([a, b]) == Combine([b, a])
    ensures Combine([Combine([a, b]), c]) == Combine([a, Combine([b, c])]) == Combine([a, b, c])
    ensures Combine([a, a]) == a
    ensures Combine([a, NotApplicable]) == a
  {
    hide Combine;
    assert Combine([NotApplicable]) == NotApplicable by { CombineOne(NotApplicable); }
    CombineOne(a);
    CombineOne(b);
    CombineOne(c);
    CombineOne(Combine([a, b]));
    CombineOne(Combine([b, c]));
    CombineConcat([a], [b]);
    CombineConcat([b], [a]);
    CombineConcat([b], [c]);
    CombineConcat([a], [a]);
    CombineConcat([a], [NotApplicable]);
    CombineConcat([a, b], [c]);
    CombineConcat([Combine([a, b])], [c]);
    CombineConcat([a], [Combine([b, c])]);
    assert [a] + [b] == [a, b] && [b] + [a] == [b, a] && [b] + [c] == [b, c] && [a, b] + [c] == [a, b, c];
    assert [a] + [a] == [a, a] && [a] + [NotApplicable] == [a, NotApplicable];
    assert [Combine([a, b])] + [c] == [Combine([a, b]), c] && [a] + [Combine([b, c])] == [a, Combine([b, c])];
  }

  lemma CombineOne(v: Verdict)
    ensures Combine([v]) == v
  {
    CombineIsMostSevere([v]);
    assert [v][0] in [v];
  }

  /** Combining combined groups is combining everything at once. */
  lemma {:induction false} NestedIsFlat(groups: seq<seq<Verdict>>)
    ensures Combine(CombineAll(groups)) == Combine(Flatten(groups))
  {
    if groups != [] {
      NestedIsFlat(groups[1..]);
      CombineConcat([Combine(groups[0])], CombineAll(groups[1..]));
      CombineConcat(groups[0], Flatten(groups[1..]));
      CombineOne(Combine(groups[0]));
    }
  }

  /** The overall verdict of a proof: runtime (with recovery nested inside it) and telemetry. */
  function Overall(
    control: Verdict, replacement: Verdict, action: Verdict, postcondition: Verdict, stability: Verdict,
    telemetry: Verdict): Verdict
  {
    Combine([Combine([control, replacement, Combine([action, postcondition, stability])]), telemetry])
  }

  /** A proof is verified exactly when every dimension that applies is verified. */
  lemma VerifiedMeansEverything(
    control: Verdict, replacement: Verdict, action: Verdict, postcondition: Verdict, stability: Verdict,
    telemetry: Verdict)
    ensures Overall(control, replacement, action, postcondition, stability, telemetry)
            == Combine([control, replacement, action, postcondition, stability, telemetry])
  {
    var recovery := [action, postcondition, stability];
    CombineOne(Combine(recovery));
    CombineConcat([control, replacement], recovery);
    CombineConcat([control, replacement], [Combine(recovery)]);
    assert [control, replacement] + recovery == [control, replacement, action, postcondition, stability];
    assert [control, replacement] + [Combine(recovery)] == [control, replacement, Combine(recovery)];
    var runtime := [control, replacement, action, postcondition, stability];
    CombineOne(Combine(runtime));
    CombineConcat(runtime, [telemetry]);
    CombineConcat([Combine(runtime)], [telemetry]);
    assert runtime + [telemetry] == [control, replacement, action, postcondition, stability, telemetry];
    assert [Combine(runtime)] + [telemetry] == [Combine(runtime), telemetry];
  }
}
