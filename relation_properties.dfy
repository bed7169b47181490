/**
 * Properties of the relation classifier: what a variable's semantic context is made
 * of, how the cascade treats empty patterns and swapped arguments, that predicates
 * never act as join constants, and the outcomes the classifier's own examples expect.
 */
module RelationProperties {
  import opened RelationClassifier

  // ---------------------------------------------------------------------------
  // What enters a semantic context

  /** `tr` is a relatesToProperty triple on `subject` whose constant object normalises to `e`. */
  predicate IsSiblingAnchor(tr: Triple, subject: Term, ontology: Ontology, e: Term) {
    tr.s == subject && tr.p == RelatesToProperty && !IsVariable(tr.o) && e == NormalizeWithOntology(tr.o, ontology)
  }

  /** `tr` binds `v` through an entity-binding predicate to the constant that normalises to `e`. */
  predicate IsDirectAnchor(tr: Triple, v: Term, ontology: Ontology, e: Term) {
    NormalizeWithOntology(tr.p, ontology) in EntityBindingPredicates &&
    ((v == tr.s && !IsVariable(tr.o) && e == NormalizeWithOntology(tr.o, ontology)) ||
     (v == tr.o && !IsVariable(tr.s) && e == NormalizeWithOntology(tr.s, ontology)))
  }

  lemma {:induction false} SiblingAnchorsMembers(bgp: Bgp, subject: Term, ontology: Ontology, n: nat, e: Term)
    requires n <= |bgp|
    ensures e in SiblingAnchors(bgp, subject, ontology, n) <==>
            exists m :: 0 <= m < n && IsSiblingAnchor(bgp[m], subject, ontology, e)
    decreases n
  {
    if n > 0 {
      SiblingAnchorsMembers(bgp, subject, ontology, n - 1, e);
    }
  }

  lemma {:induction false} ContextUpToMembers(bgp: Bgp, v: Term, ontology: Ontology, n: nat, e: Term)
    requires n <= |bgp|
    ensures e in ContextUpTo(bgp, v, ontology, n) <==>
            exists k :: 0 <= k < n && Mentions(bgp[k], v) && e in TripleContext(bgp, bgp[k], v, ontology)
    decreases n
  {
    if n > 0 {
      ContextUpToMembers(bgp, v, ontology, n - 1, e);
    }
  }

  /**
   * Triple `k` brings `e` into `v`'s context: it has `v` as object and its subject has a
   * relatesToProperty sibling anchored at `e`, or it binds `v` to `e` directly.
   */
  predicate EntersAt(bgp: Bgp, k: nat, v: Term, ontology: Ontology, e: Term)
    requires k < |bgp|
  {
    (bgp[k].o == v && exists m :: 0 <= m < |bgp| && IsSiblingAnchor(bgp[m], bgp[k].s, ontology, e)) ||
    IsDirectAnchor(bgp[k], v, ontology, e)
  }

  lemma TripleContextRoutes(bgp: Bgp, k: nat, v: Term, ontology: Ontology, e: Term)
    requires k < |bgp|
    ensures (Mentions(bgp[k], v) && e in TripleContext(bgp, bgp[k], v, ontology)) <==> EntersAt(bgp, k, v, ontology, e)
  {
    SiblingAnchorsMembers(bgp, bgp[k].s, ontology, |bgp|, e);
  }

  /**
   * An entity is in `v`'s context exactly when some triple brings it in through one of
   * the two routes: a relatesToProperty sibling of a triple that has `v` as object, or a
   * direct binding through one of the four entity-binding predicates.
   */
  lemma ContextRoutes(bgp: Bgp, v: Term, ontology: Ontology, e: Term)
    ensures e in SemanticContext(bgp, v, ontology) <==>
            exists k :: 0 <= k < |bgp| && EntersAt(bgp, k, v, ontology, e)
  {
    ContextUpToMembers(bgp, v, ontology, |bgp|, e);
    forall k | 0 <= k < |bgp|
      ensures (Mentions(bgp[k], v) && e in TripleContext(bgp, bgp[k], v, ontology)) <==> EntersAt(bgp, k, v, ontology, e)
    {
      TripleContextRoutes(bgp, k, v, ontology, e);
    }
  }

  /** Every context entity is the normalisation of a constant subject or object of the BGP. */
  lemma ContextElementsAreNormalisedConstants(bgp: Bgp, v: Term, ontology: Ontology, e: Term)
    requires e in SemanticContext(bgp, v, ontology)
    ensures exists k :: 0 <= k < |bgp| &&
              ((!IsVariable(bgp[k].o) && e == NormalizeWithOntology(bgp[k].o, ontology)) ||
               (!IsVariable(bgp[k].s) && e == NormalizeWithOntology(bgp[k].s, ontology)))
  {
    ContextRoutes(bgp, v, ontology, e);
    var k :| 0 <= k < |bgp| && EntersAt(bgp, k, v, ontology, e);
    if !IsDirectAnchor(bgp[k], v, ontology, e) {
      var m :| 0 <= m < |bgp| && IsSiblingAnchor(bgp[m], bgp[k].s, ontology, e);
      assert !IsVariable(bgp[m].o) && e == NormalizeWithOntology(bgp[m].o, ontology);
    }
  }

  /** A variable that no triple mentions has an empty context, so it can never diverge. */
  lemma UnmentionedVariableHasNoContext(bgp: Bgp, v: Term, ontology: Ontology)
    requires forall k :: 0 <= k < |bgp| ==> !Mentions(bgp[k], v)
    ensures SemanticContext(bgp, v, ontology) == {}
  {
    forall e | e in SemanticContext(bgp, v, ontology) ensures false {
      ContextUpToMembers(bgp, v, ontology, |bgp|, e);
    }
  }

  // ---------------------------------------------------------------------------
  // The cascade

  /** Swapping the two queries does not change the relation. */
  lemma ClassificationSymmetric(bgpA: Bgp, bgpB: Bgp, ontology: Ontology)
    ensures Classification(bgpA, bgpB, ontology) == Classification(bgpB, bgpA, ontology)
  {
    var shared := RawVariables(bgpA) * RawVariables(bgpB);
    assert shared == RawVariables(bgpB) * RawVariables(bgpA);
    forall v | v in shared
      ensures Diverges(bgpA, bgpB, v, ontology) == Diverges(bgpB, bgpA, v, ontology)
    {
      var a, b := SemanticContext(bgpA, v, ontology), SemanticContext(bgpB, v, ontology);
      assert a !! b <==> b !! a;
    }
    assert Constants(bgpA, ontology) * Constants(bgpB, ontology) ==
           Constants(bgpB, ontology) * Constants(bgpA, ontology);
    assert Predicates(bgpA, ontology) * Predicates(bgpB, ontology) ==
           Predicates(bgpB, ontology) * Predicates(bgpA, ontology);
  }

  /** A query that yields no triples (unparsable, or no WHERE block) is CARTESIAN to anything. */
  lemma EmptyBgpIsCartesian(bgp: Bgp, ontology: Ontology)
    ensures Classification([], bgp, ontology) == Cartesian
    ensures Classification(bgp, [], ontology) == Cartesian
  {
    assert RawVariables([]) == {};
    assert Constants([], ontology) == {};
    assert Predicates([], ontology) == {};
  }

  /** Predicates never act as constants: BGPs that agree on subjects and objects have the same constants. */
  lemma PredicatesAreNotConstants(bgp: Bgp, other: Bgp, ontology: Ontology)
    requires |bgp| == |other|
    requires forall i :: 0 <= i < |bgp| ==> bgp[i].s == other[i].s && bgp[i].o == other[i].o
    ensures Constants(bgp, ontology) == Constants(other, ontology)
  {
    var n, m := NormalizeBgp(bgp, ontology), NormalizeBgp(other, ontology);
    assert forall i :: 0 <= i < |n| ==> n[i].s == m[i].s && n[i].o == m[i].o;
    forall t | t in ConstantsOf(n) ensures t in ConstantsOf(m) {
      var i :| 0 <= i < |n| && t in [n[i].s, n[i].o] && !IsVariable(t);
      assert t in [m[i].s, m[i].o];
    }
    forall t | t in ConstantsOf(m) ensures t in ConstantsOf(n) {
      var i :| 0 <= i < |m| && t in [m[i].s, m[i].o] && !IsVariable(t);
      assert t in [n[i].s, n[i].o];
    }
  }

  /**
   * A shared variable that is anchored in neither query (no context on one side) keeps
   * the classic JOIN: semantic analysis only overrides a join when both sides are anchored.
   */
  lemma UnanchoredSharedVariableJoins(bgpA: Bgp, bgpB: Bgp, v: Term, ontology: Ontology)
    requires v in RawVariables(bgpA) && v in RawVariables(bgpB)
    requires forall u :: u in RawVariables(bgpA) * RawVariables(bgpB) ==>
               SemanticContext(bgpA, u, ontology) == {} || SemanticContext(bgpB, u, ontology) == {}
    ensures Classification(bgpA, bgpB, ontology) == Join
  {
    assert v in RawVariables(bgpA) * RawVariables(bgpB);
  }

  // ---------------------------------------------------------------------------
  // The classifier's own examples

  /** `?x ex:hasValue ?v . ?x saref:relatesToProperty <device> .` */
  function DeviceQuery(x: Term, hasValue: Term, v: Term, device: Term): Bgp {
    [Triple(x, hasValue, v), Triple(x, RelatesToProperty, device)]
  }

  lemma VariablesOfTriple(tr: Triple)
    ensures VariablesOf(TermsOf(tr)) ==
            (if IsVariable(tr.s) then [tr.s] else []) + (if IsVariable(tr.p) then [tr.p] else []) +
            (if IsVariable(tr.o) then [tr.o] else [])
  {
    assert TermsOf(tr)[1..] == [tr.p, tr.o];
    assert [tr.p, tr.o][1..] == [tr.o];
    assert [tr.o][1..] == [];
    assert VariablesOf([tr.o]) == if IsVariable(tr.o) then [tr.o] else [];
    assert VariablesOf([tr.p, tr.o]) == (if IsVariable(tr.p) then [tr.p] else []) + VariablesOf([tr.o]);
  }

  lemma DeviceQueryVariables(x: Term, hasValue: Term, v: Term, device: Term)
    requires IsVariable(x) && IsVariable(v) && !IsVariable(hasValue) && !IsVariable(device)
    ensures RawVariables(DeviceQuery(x, hasValue, v, device)) == {x, v}
  {
    var q := DeviceQuery(x, hasValue, v, device);
    assert q[..1] == [q[0]] && [q[0]][..0] == [];
    VariablesOfTriple(q[0]);
    VariablesOfTriple(q[1]);
    assert !IsVariable(RelatesToProperty);
    assert VariableOccurrences(q[..1]) == VariableOccurrences([]) + VariablesOf(TermsOf(q[0])) == [x, v];
    assert VariableOccurrences(q) == VariableOccurrences(q[..1]) + VariablesOf(TermsOf(q[1])) == [x, v, x];
  }

  lemma DeviceQueryContext(x: Term, hasValue: Term, v: Term, device: Term, ontology: Ontology)
    requires IsVariable(x) && IsVariable(v) && x != v && !IsVariable(hasValue) && !IsVariable(device)
    requires hasValue != RelatesToProperty && NormalizeWithOntology(hasValue, ontology) !in EntityBindingPredicates
    ensures SemanticContext(DeviceQuery(x, hasValue, v, device), v, ontology) == {NormalizeWithOntology(device, ontology)}
  {
    var q := DeviceQuery(x, hasValue, v, device);
    assert SiblingAnchors(q, x, ontology, 1) == {};
    assert SiblingAnchors(q, x, ontology, 2) == {NormalizeWithOntology(device, ontology)};
    assert !Mentions(q[1], v);
    assert ContextUpTo(q, v, ontology, 1) == {NormalizeWithOntology(device, ontology)};
  }

  lemma DeviceQueryConstants(x: Term, hasValue: Term, v: Term, device: Term, ontology: Ontology)
    requires IsVariable(x) && IsVariable(v) && !IsVariable(NormalizeWithOntology(device, ontology))
    ensures Constants(DeviceQuery(x, hasValue, v, device), ontology) == {NormalizeWithOntology(device, ontology)}
    ensures NormalizeWithOntology(hasValue, ontology) in Predicates(DeviceQuery(x, hasValue, v, device), ontology)
  {
    var n := NormalizeBgp(DeviceQuery(x, hasValue, v, device), ontology);
    assert n[0] == Triple(x, NormalizeWithOntology(hasValue, ontology), v);
    assert n[1] == Triple(x, NormalizeWithOntology(RelatesToProperty, ontology), NormalizeWithOntology(device, ontology));
    assert NormalizeWithOntology(device, ontology) in ConstantsOf(n) by {
      assert NormalizeWithOntology(device, ontology) in [n[1].s, n[1].o];
    }
  }

  /**
   * The same value variable read from a device in each query: it is one entity, and the
   * queries JOIN, exactly when the ontology gives the two devices the same label;
   * otherwise they share only predicates and UNION.
   */
  lemma DeviceAnchoring(x1: Term, x2: Term, v: Term, hasValue: Term, device1: Term, device2: Term, ontology: Ontology)
    requires IsVariable(x1) && IsVariable(x2) && IsVariable(v) && x1 != v && x2 != v && x1 != x2
    requires !IsVariable(hasValue) && !IsVariable(device1) && !IsVariable(device2)
    requires !IsVariable(NormalizeWithOntology(device1, ontology)) && !IsVariable(NormalizeWithOntology(device2, ontology))
    requires hasValue != RelatesToProperty && NormalizeWithOntology(hasValue, ontology) !in EntityBindingPredicates
    ensures Classification(DeviceQuery(x1, hasValue, v, device1), DeviceQuery(x2, hasValue, v, device2), ontology) ==
            if NormalizeWithOntology(device1, ontology) == NormalizeWithOntology(device2, ontology) then Join else Union
  {
    var a, b := DeviceQuery(x1, hasValue, v, device1), DeviceQuery(x2, hasValue, v, device2);
    DeviceQueryVariables(x1, hasValue, v, device1);
    DeviceQueryVariables(x2, hasValue, v, device2);
    assert RawVariables(a) * RawVariables(b) == {v};
    OneSharedVariable(a, b, v, ontology);
    DeviceQueryContext(x1, hasValue, v, device1, ontology);
    DeviceQueryContext(x2, hasValue, v, device2, ontology);
    if NormalizeWithOntology(device1, ontology) != NormalizeWithOntology(device2, ontology) {
      DeviceQueryConstants(x1, hasValue, v, device1, ontology);
      DeviceQueryConstants(x2, hasValue, v, device2, ontology);
      assert NormalizeWithOntology(hasValue, ontology) in Predicates(a, ontology) * Predicates(b, ontology);
    }
  }

  /** With exactly one shared variable, its divergence alone decides between JOIN and the constant cascade. */
  lemma OneSharedVariable(bgpA: Bgp, bgpB: Bgp, v: Term, ontology: Ontology)
    requires RawVariables(bgpA) * RawVariables(bgpB) == {v}
    ensures Classification(bgpA, bgpB, ontology) ==
            if Diverges(bgpA, bgpB, v, ontology) then ConstantCascade(bgpA, bgpB, ontology) else Join
  {
  }

  const HasValue: string := SarefCore + "hasValue"
  /** `https://dahcc.idlab.ugent.be/Homelab/SensorsAndActuators/`. */
  const DahccSensors: string := "https://dahcc.idlab.ugent.be/" + "Homelab/SensorsAndActuators/"
  const WearableX: string := DahccSensors + "wearableX"
  const SmartphoneX: string := DahccSensors + "smartphoneX"

  const WearableQuery: Bgp := DeviceQuery("?s1", HasValue, "?value", WearableX)
  const SmartphoneQuery: Bgp := DeviceQuery("?s2", HasValue, "?value", SmartphoneX)
  const PersonOntology: Ontology := map[WearableX := "PersonX", SmartphoneX := "PersonX"]

  /** The term facts the two device examples rely on. */
  lemma DeviceExampleTerms()
    ensures IsVariable("?s1") && IsVariable("?s2") && IsVariable("?value")
    ensures "?s1" != "?value" && "?s2" != "?value" && "?s1" != "?s2"
    ensures !IsVariable(HasValue) && !IsVariable(WearableX) && !IsVariable(SmartphoneX)
    ensures HasValue != RelatesToProperty && HasValue !in EntityBindingPredicates
    ensures WearableX != SmartphoneX && HasValue != WearableX && HasValue != SmartphoneX
  {
    assert "?s1"[2] != "?s2"[2] && "?s1"[1] != "?value"[1] && "?s2"[1] != "?value"[1];
    assert HasValue[28] != RelatesToProperty[28];
    assert HasValue[4] != RdfType[4] && HasValue[28] != IsPropertyOf[28] && HasValue[28] != MeasuresProperty[28];
    assert WearableX[57] != SmartphoneX[57] && HasValue[8] != WearableX[8] && HasValue[8] != SmartphoneX[8];
  }

  /** Without an ontology the wearable and the smartphone are different entities: UNION. */
  lemma WearableVersusSmartphone()
    ensures Classification(WearableQuery, SmartphoneQuery, map[]) == Union
  {
    DeviceExampleTerms();
    DeviceAnchoring("?s1", "?s2", "?value", HasValue, WearableX, SmartphoneX, map[]);
  }

  /** An ontology that labels both devices PersonX makes the shared `?value` one entity: JOIN. */
  lemma WearableVersusSmartphoneAsPerson()
    ensures Classification(WearableQuery, SmartphoneQuery, PersonOntology) == Join
  {
    DeviceExampleTerms();
    assert NormalizeWithOntology(WearableX, PersonOntology) == "PersonX";
    assert NormalizeWithOntology(SmartphoneX, PersonOntology) == "PersonX";
    assert NormalizeWithOntology(HasValue, PersonOntology) == HasValue;
    DeviceAnchoring("?s1", "?s2", "?value", HasValue, WearableX, SmartphoneX, PersonOntology);
  }

  /** `?x ex:knows ?y` against `?a ex:knows ?b`: no shared name, no constant, one shared predicate. */
  lemma SamePredicateDifferentVariablesGiveUnion()
    ensures Classification([Triple("?x", "http://example.org/knows", "?y")],
                           [Triple("?a", "http://example.org/knows", "?b")], map[]) == Union
  {
    var a, b := [Triple("?x", "http://example.org/knows", "?y")], [Triple("?a", "http://example.org/knows", "?b")];
    assert VariableOccurrences(a) == ["?x", "?y"];
    assert VariableOccurrences(b) == ["?a", "?b"];
    assert Constants(a, map[]) == {};
    assert "http://example.org/knows" in Predicates(a, map[]) * Predicates(b, map[]);
  }

  /** `?person ex:name "Alice"` against `?person ex:age 25`: the unanchored shared variable joins. */
  lemma SharedUnanchoredVariableGivesJoin()
    ensures Classification([Triple("?person", "http://example.org/name", "Alice")],
                           [Triple("?person", "http://example.org/age", "25")], map[]) == Join
  {
    var a, b := [Triple("?person", "http://example.org/name", "Alice")], [Triple("?person", "http://example.org/age", "25")];
    assert VariableOccurrences(a) == ["?person"];
    assert VariableOccurrences(b) == ["?person"];
    assert SemanticContext(a, "?person", map[]) == {};
    UnanchoredSharedVariableJoins(a, b, "?person", map[]);
  }
}
