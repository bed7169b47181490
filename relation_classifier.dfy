/**
 * Decides whether the basic graph patterns (BGPs) of two queries are related by a JOIN,
 * a UNION or only a CARTESIAN product, optionally through an ontology map that declares
 * syntactically different constants to be the same entity.
 *
 * A BGP is given as the sequence of (subject, predicate, object) strings the SPARQL
 * parser produced for the first WHERE block; a query that fails to parse is the empty BGP.
 */
module RelationClassifier {

  type Term = string

  datatype Triple = Triple(s: Term, p: Term, o: Term)

  type Bgp = seq<Triple>

  /** Constant term to canonical label; a missing or empty entry leaves the term as it is. */
  type Ontology = map<string, string>

  datatype Relation = Join | Union | Cartesian

  /** The SAREF core namespace. */
  const SarefCore: string := "https://saref.etsi.org/core/"
  /** The RDF namespace, `http://www.w3.org/1999/02/22-rdf-syntax-ns#`. */
  const RdfNamespace: string := "http://www.w3.org/" + "1999/02/22-rdf-syntax-ns#"

  const RelatesToProperty: string := SarefCore + "relatesToProperty"
  const RdfType: string := RdfNamespace + "type"
  const IsPropertyOf: string := SarefCore + "isPropertyOf"
  const MeasuresProperty: string := SarefCore + "measuresProperty"

  /** Predicates that anchor a variable to the entity on the triple's other side. */
  const EntityBindingPredicates: seq<string> :=
    [RelatesToProperty, RdfType, IsPropertyOf, MeasuresProperty]

  predicate IsVariable(t: Term) {
    |t| > 0 && t[0] == '?'
  }

  // ---------------------------------------------------------------------------
  // Term normaliser

  /** A variable is left alone; a constant becomes its ontology label when it has a non-empty one. */
  function NormalizeWithOntology(term: Term, ontology: Ontology): (r: Term)
    ensures IsVariable(term) ==> r == term
    ensures !IsVariable(term) && term in ontology && ontology[term] != "" ==> r == ontology[term]
    ensures !IsVariable(term) && (term !in ontology || ontology[term] == "") ==> r == term
  {
    if IsVariable(term) then term
    else if term in ontology && ontology[term] != "" then ontology[term]
    else term
  }

  /** Without an ontology every term is its own class. */
  lemma NormalizeWithoutOntology(term: Term)
    ensures NormalizeWithOntology(term, map[]) == term
  {
  }

  // ---------------------------------------------------------------------------
  // The sets the cascade compares

  function TermsOf(tr: Triple): seq<Term> {
    [tr.s, tr.p, tr.o]
  }

  function VariablesOf(terms: seq<Term>): seq<Term> {
    if terms == [] then []
    else (if IsVariable(terms[0]) then [terms[0]] else []) + VariablesOf(terms[1..])
  }

  /** `bgp.flat().filter(t => t.startsWith("?"))`: variable occurrences in reading order. */
  function VariableOccurrences(bgp: Bgp): seq<Term> {
    if bgp == [] then []
    else VariableOccurrences(bgp[..|bgp| - 1]) + VariablesOf(TermsOf(bgp[|bgp| - 1]))
  }

  /** Raw variable names of a BGP in any position, before any normalisation. */
  function RawVariables(bgp: Bgp): set<Term> {
    set t | t in VariableOccurrences(bgp)
  }

  function NormalizeTriple(tr: Triple, ontology: Ontology): Triple {
    Triple(NormalizeWithOntology(tr.s, ontology), NormalizeWithOntology(tr.p, ontology),
           NormalizeWithOntology(tr.o, ontology))
  }

  /** `bgp.map(...)` through the normaliser, position by position. */
  function NormalizeBgp(bgp: Bgp, ontology: Ontology): (norm: Bgp)
    ensures |norm| == |bgp|
    ensures forall i :: 0 <= i < |bgp| ==> norm[i] == NormalizeTriple(bgp[i], ontology)
  {
    seq(|bgp|, i requires 0 <= i < |bgp| => NormalizeTriple(bgp[i], ontology))
  }

  /** Subjects and objects of a (normalised) BGP that are not variables; predicates never count. */
  function ConstantsOf(norm: Bgp): set<Term> {
    set i, t | 0 <= i < |norm| && t in [norm[i].s, norm[i].o] && !IsVariable(t) :: t
  }

  function Constants(bgp: Bgp, ontology: Ontology): set<Term> {
    ConstantsOf(NormalizeBgp(bgp, ontology))
  }

  /** Normalised predicates. */
  function Predicates(bgp: Bgp, ontology: Ontology): set<Term> {
    var norm := NormalizeBgp(bgp, ontology);
    set i | 0 <= i < |norm| :: norm[i].p
  }

  // ---------------------------------------------------------------------------
  // Semantic binding analyser

  predicate Mentions(tr: Triple, v: Term) {
    tr.s == v || tr.p == v || tr.o == v
  }

  /**
   * Entities reached from `subject` through one of the first `n` triples whose raw
   * predicate is relatesToProperty and whose object is a constant.
   */
  function SiblingAnchors(bgp: Bgp, subject: Term, ontology: Ontology, n: nat): set<Term>
    requires n <= |bgp|
  {
    if n == 0 then {}
    else
      var sibling := bgp[n - 1];
      SiblingAnchors(bgp, subject, ontology, n - 1) +
      (if sibling.s == subject && sibling.p == RelatesToProperty && !IsVariable(sibling.o)
       then {NormalizeWithOntology(sibling.o, ontology)} else {})
  }

  /** The constant on the other side of `tr` from `v`, when `tr`'s normalised predicate binds entities. */
  function DirectAnchors(tr: Triple, v: Term, ontology: Ontology): set<Term> {
    if NormalizeWithOntology(tr.p, ontology) in EntityBindingPredicates then
      if v == tr.s && !IsVariable(tr.o) then {NormalizeWithOntology(tr.o, ontology)}
      else if v == tr.o && !IsVariable(tr.s) then {NormalizeWithOntology(tr.s, ontology)}
      else {}
    else {}
  }

  /** What one triple mentioning `v` adds to `v`'s context. */
  function TripleContext(bgp: Bgp, tr: Triple, v: Term, ontology: Ontology): set<Term> {
    (if v == tr.o then SiblingAnchors(bgp, tr.s, ontology, |bgp|) else {}) + DirectAnchors(tr, v, ontology)
  }

  /** Context contributed by the first `n` triples of `bgp`. */
  function ContextUpTo(bgp: Bgp, v: Term, ontology: Ontology, n: nat): set<Term>
    requires n <= |bgp|
  {
    if n == 0 then {}
    else
      ContextUpTo(bgp, v, ontology, n - 1) +
      (if Mentions(bgp[n - 1], v) then TripleContext(bgp, bgp[n - 1], v, ontology) else {})
  }

  /** The entities `v` is anchored to in `bgp`. */
  function SemanticContext(bgp: Bgp, v: Term, ontology: Ontology): set<Term> {
    ContextUpTo(bgp, v, ontology, |bgp|)
  }

  /** Two contexts differ only when both are known and they share no entity. */
  function AreContextsDifferent(a: set<Term>, b: set<Term>): (r: bool)
    ensures a == {} || b == {} ==> !r
    ensures a != {} && b != {} ==> (r <==> a !! b)
  {
    if |a| == 0 || |b| == 0 then false
    else
      var intersection := set e | e in a && e in b;
      assert intersection == a * b;
      assert |intersection| == 0 <==> intersection == {};
      assert a !! b <==> a * b == {} by {
        if a * b != {} {
          var e :| e in a * b;
          assert e in a && e in b;
        } else {
          forall e | e in a ensures e !in b {
            assert e in b ==> e in a * b;
          }
        }
      }
      |intersection| == 0
  }

  /** `v` is anchored to provably different entities in the two BGPs. */
  predicate Diverges(bgpA: Bgp, bgpB: Bgp, v: Term, ontology: Ontology) {
    AreContextsDifferent(SemanticContext(bgpA, v, ontology), SemanticContext(bgpB, v, ontology))
  }

  /** Some shared variable diverges. */
  predicate HasDivergentBinding(bgpA: Bgp, bgpB: Bgp, shared: set<Term>, ontology: Ontology) {
    exists v :: v in shared && Diverges(bgpA, bgpB, v, ontology)
  }

  // ---------------------------------------------------------------------------
  // The cascade

  /** JOIN through a shared variable, else JOIN through a shared constant, else UNION through a shared predicate, else CARTESIAN. */
  function Classification(bgpA: Bgp, bgpB: Bgp, ontology: Ontology): Relation {
    var shared := RawVariables(bgpA) * RawVariables(bgpB);
    if shared != {} && !HasDivergentBinding(bgpA, bgpB, shared, ontology) then Join
    else ConstantCascade(bgpA, bgpB, ontology)
  }

  /** The cascade after the variable step: shared constants, then shared predicates. */
  function ConstantCascade(bgpA: Bgp, bgpB: Bgp, ontology: Ontology): Relation {
    if Constants(bgpA, ontology) * Constants(bgpB, ontology) != {} then Join
    else if Predicates(bgpA, ontology) * Predicates(bgpB, ontology) != {} then Union
    else Cartesian
  }

  // ---------------------------------------------------------------------------
  // The loops of the source, proved against the definitions above

  /** The context loop: every triple mentioning the variable, with a nested scan for sibling triples. */
  method GetVariableSemanticContext(bgp: Bgp, variable: Term, ontology: Ontology) returns (context: set<Term>)
    ensures context == SemanticContext(bgp, variable, ontology)
  {
    context := {};
    var i := 0;
    while i < |bgp|
      invariant 0 <= i <= |bgp|
      invariant context == ContextUpTo(bgp, variable, ontology, i)
    {
      var tr := bgp[i];
      if Mentions(tr, variable) {
        var normalizedPredicate := NormalizeWithOntology(tr.p, ontology);
        var siblings: set<Term> := {};
        if variable == tr.o {
          siblings := CollectSiblingAnchors(bgp, tr.s, ontology);
        }
        var direct: set<Term> := {};
        if normalizedPredicate in EntityBindingPredicates {
          if variable == tr.s && !IsVariable(tr.o) {
            direct := {NormalizeWithOntology(tr.o, ontology)};
          } else if variable == tr.o && !IsVariable(tr.s) {
            direct := {NormalizeWithOntology(tr.s, ontology)};
          }
        }
        assert siblings + direct == TripleContext(bgp, tr, variable, ontology);
        context := context + siblings + direct;
      }
      i := i + 1;
    }
  }

  /** The nested scan: constant objects of relatesToProperty triples on the given subject. */
  method CollectSiblingAnchors(bgp: Bgp, subject: Term, ontology: Ontology) returns (anchors: set<Term>)
    ensures anchors == SiblingAnchors(bgp, subject, ontology, |bgp|)
  {
    anchors := {};
    for j := 0 to |bgp|
      invariant anchors == SiblingAnchors(bgp, subject, ontology, j)
    {
      var sibling := bgp[j];
      if sibling.s == subject && sibling.p == RelatesToProperty && !IsVariable(sibling.o) {
        anchors := anchors + {NormalizeWithOntology(sibling.o, ontology)};
      }
    }
  }

  /** Early-return scan: true as soon as one shared variable diverges. */
  method CheckSemanticVariableBinding(bgpA: Bgp, bgpB: Bgp, sharedVars: seq<Term>, ontology: Ontology)
    returns (different: bool)
    ensures different <==> exists i :: 0 <= i < |sharedVars| && Diverges(bgpA, bgpB, sharedVars[i], ontology)
  {
    for i := 0 to |sharedVars|
      invariant forall k :: 0 <= k < i ==> !Diverges(bgpA, bgpB, sharedVars[k], ontology)
    {
      var contextA := GetVariableSemanticContext(bgpA, sharedVars[i], ontology);
      var contextB := GetVariableSemanticContext(bgpB, sharedVars[i], ontology);
      assert AreContextsDifferent(contextA, contextB) == Diverges(bgpA, bgpB, sharedVars[i], ontology);
      if AreContextsDifferent(contextA, contextB) {
        return true;
      }
    }
    return false;
  }

  /** `new Set(bgp.flat().filter(...))`: each variable of the BGP once. */
  method CollectRawVariables(bgp: Bgp) returns (vars: seq<Term>)
    ensures forall t :: t in vars <==> t in RawVariables(bgp)
    ensures forall a, b :: 0 <= a < b < |vars| ==> vars[a] != vars[b]
  {
    vars := [];
    for i := 0 to |bgp|
      invariant forall t :: t in vars <==> t in VariableOccurrences(bgp[..i])
      invariant forall a, b :: 0 <= a < b < |vars| ==> vars[a] != vars[b]
    {
      ghost var seen := VariableOccurrences(bgp[..i]);
      var terms := TermsOf(bgp[i]);
      for j := 0 to 3
        invariant forall t :: t in vars <==> t in seen || t in VariablesOf(terms[..j])
        invariant forall a, b :: 0 <= a < b < |vars| ==> vars[a] != vars[b]
      {
        VariablesOfSnoc(terms[..j], terms[j]);
        assert terms[..j + 1] == terms[..j] + [terms[j]];
        if IsVariable(terms[j]) && terms[j] !in vars {
          vars := vars + [terms[j]];
        }
      }
      assert terms[..3] == terms;
      assert bgp[..i + 1][..i] == bgp[..i];
      assert VariableOccurrences(bgp[..i + 1]) == seen + VariablesOf(terms);
    }
    assert bgp[..|bgp|] == bgp;
  }

  lemma VariablesOfSnoc(terms: seq<Term>, t: Term)
    ensures VariablesOf(terms + [t]) == VariablesOf(terms) + (if IsVariable(t) then [t] else [])
  {
    if terms != [] {
      assert (terms + [t])[1..] == terms[1..] + [t];
      VariablesOfSnoc(terms[1..], t);
    }
  }

  /** The forEach over the normalised triples that fills a constant set. */
  method CollectConstants(norm: Bgp) returns (constants: set<Term>)
    ensures constants == ConstantsOf(norm)
  {
    constants := {};
    for i := 0 to |norm|
      invariant constants == ConstantsOf(norm[..i])
    {
      var tr := norm[i];
      if !IsVariable(tr.s) {
        constants := constants + {tr.s};
      }
      if !IsVariable(tr.o) {
        constants := constants + {tr.o};
      }
      ConstantsOfSnoc(norm[..i], tr);
      assert norm[..i + 1] == norm[..i] + [tr];
    }
    assert norm[..|norm|] == norm;
  }

  lemma ConstantsOfSnoc(norm: Bgp, tr: Triple)
    ensures ConstantsOf(norm + [tr]) ==
            ConstantsOf(norm) + (if IsVariable(tr.s) then {} else {tr.s}) + (if IsVariable(tr.o) then {} else {tr.o})
  {
    var n := norm + [tr];
    forall t | t in ConstantsOf(n)
      ensures t in ConstantsOf(norm) + (if IsVariable(tr.s) then {} else {tr.s}) + (if IsVariable(tr.o) then {} else {tr.o})
    {
      var i :| 0 <= i < |n| && t in [n[i].s, n[i].o] && !IsVariable(t);
      if i < |norm| {
        assert n[i] == norm[i];
      }
    }
    forall t | t in ConstantsOf(norm) ensures t in ConstantsOf(n) {
      var i :| 0 <= i < |norm| && t in [norm[i].s, norm[i].o] && !IsVariable(t);
      assert n[i] == norm[i];
    }
    assert n[|norm|] == tr;
  }

  /** The shared raw variable names, in the first BGP's order of first occurrence. */
  method SharedRawVariables(bgpA: Bgp, bgpB: Bgp) returns (sharedRawVars: seq<Term>)
    ensures forall t :: t in sharedRawVars <==> t in RawVariables(bgpA) * RawVariables(bgpB)
  {
    var rawVarsA := CollectRawVariables(bgpA);
    var rawVarsB := CollectRawVariables(bgpB);
    sharedRawVars := [];
    for i := 0 to |rawVarsA|
      invariant forall t :: t in sharedRawVars <==> t in rawVarsA[..i] && t in rawVarsB
    {
      if rawVarsA[i] in rawVarsB {
        sharedRawVars := sharedRawVars + [rawVarsA[i]];
      }
      assert rawVarsA[..i + 1] == rawVarsA[..i] + [rawVarsA[i]];
    }
    assert rawVarsA[..|rawVarsA|] == rawVarsA;
  }

  lemma DivergenceOverList(bgpA: Bgp, bgpB: Bgp, sharedVars: seq<Term>, shared: set<Term>, ontology: Ontology)
    requires forall t :: t in sharedVars <==> t in shared
    ensures (exists i :: 0 <= i < |sharedVars| && Diverges(bgpA, bgpB, sharedVars[i], ontology))
            <==> HasDivergentBinding(bgpA, bgpB, shared, ontology)
  {
    if HasDivergentBinding(bgpA, bgpB, shared, ontology) {
      var v :| v in shared && Diverges(bgpA, bgpB, v, ontology);
      var i :| 0 <= i < |sharedVars| && sharedVars[i] == v;
    }
  }

  /** The classifier as the source runs it; equal to the cascade. */
  method DecideRelation(bgpA: Bgp, bgpB: Bgp, ontology: Ontology) returns (r: Relation)
    ensures r == Classification(bgpA, bgpB, ontology)
  {
    var sharedRawVars := SharedRawVariables(bgpA, bgpB);
    ghost var shared := RawVariables(bgpA) * RawVariables(bgpB);
    if |sharedRawVars| > 0 {
      var different := CheckSemanticVariableBinding(bgpA, bgpB, sharedRawVars, ontology);
      DivergenceOverList(bgpA, bgpB, sharedRawVars, shared, ontology);
      if !different {
        assert sharedRawVars[0] in shared;
        return Join;
      }
    } else {
      assert sharedRawVars == [];
    }
    r := DecideByConstants(bgpA, bgpB, ontology);
  }

  /** Lines 67-107 of the source: normalise, compare constants, then predicates. */
  method DecideByConstants(bgpA: Bgp, bgpB: Bgp, ontology: Ontology) returns (r: Relation)
    ensures r == ConstantCascade(bgpA, bgpB, ontology)
  {
    var normA := NormalizeBgp(bgpA, ontology);
    var normB := NormalizeBgp(bgpB, ontology);
    var constantsA := CollectConstants(normA);
    var constantsB := CollectConstants(normB);
    if constantsA * constantsB != {} {
      return Join;
    }
    var predsA := set i | 0 <= i < |normA| :: normA[i].p;
    var predsB := set i | 0 <= i < |normB| :: normB[i].p;
    if predsA * predsB != {} {
      return Union;
    }
    return Cartesian;
  }

  /**
   * A classifier bound to two queries at construction; the queries are held as the
   * BGPs the SPARQL parser extracts from them (empty when the text does not parse).
   */
  class QueryRelationClassifier {
    const queryOne: Bgp
    const queryTwo: Bgp

    constructor (queryOne: Bgp, queryTwo: Bgp)
      ensures this.queryOne == queryOne && this.queryTwo == queryTwo
    {
      this.queryOne := queryOne;
      this.queryTwo := queryTwo;
    }

    /** The same cascade on the two bound queries. */
    method DecideInstanceRelation(ontology: Ontology) returns (r: Relation)
      ensures r == Classification(queryOne, queryTwo, ontology)
    {
      r := DecideRelation(queryOne, queryTwo, ontology);
    }
  }
}
