/**
 * Prefix declarations as the combiner keeps them: an insertion-ordered map from prefix
 * label to namespace IRI (a JavaScript `Map`), its `set`, the merge of several queries'
 * prefixes, and the shortening of an IRI against the map.
 */
module PrefixMap {
  import opened Wrappers
  import opened Text
  import opened Sequences

  /** (prefix, namespace) pairs in insertion order. */
  type PrefixList = seq<(string, string)>

  function Labels(ps: PrefixList): (labels: seq<string>)
    ensures |labels| == |ps|
    ensures forall i :: 0 <= i < |ps| ==> labels[i] == ps[i].0
  {
    seq(|ps|, i requires 0 <= i < |ps| => ps[i].0)
  }

  predicate UniqueLabels(ps: PrefixList) {
    forall i, j :: 0 <= i < j < |ps| ==> ps[i].0 != ps[j].0
  }

  /** `map.get(prefix)`. */
  function Lookup(ps: PrefixList, prefix: string): (r: Option<string>)
    ensures r == None <==> prefix !in Labels(ps)
  {
    if ps == [] then None
    else if ps[0].0 == prefix then Some(ps[0].1)
    else
      assert Labels(ps) == [ps[0].0] + Labels(ps[1..]);
      Lookup(ps[1..], prefix)
  }

  /** `map.set(prefix, ns)`: a known prefix keeps its position and takes the new value; a new one goes last. */
  function Put(ps: PrefixList, prefix: string, ns: string): (r: PrefixList)
    ensures prefix in Labels(ps) ==> Labels(r) == Labels(ps)
    ensures prefix !in Labels(ps) ==> Labels(r) == Labels(ps) + [prefix]
  {
    if ps == [] then [(prefix, ns)]
    else
      LabelsCons(ps[0], ps[1..]);
      assert [ps[0]] + ps[1..] == ps;
      if ps[0].0 == prefix then
        LabelsCons((prefix, ns), ps[1..]);
        [(prefix, ns)] + ps[1..]
      else
        var rest := Put(ps[1..], prefix, ns);
        LabelsCons(ps[0], rest);
        [ps[0]] + rest
  }

  lemma LabelsSnoc(ps: PrefixList)
    requires ps != []
    ensures Labels(ps) == Labels(ps[..|ps| - 1]) + [ps[|ps| - 1].0]
  {
    var init := ps[..|ps| - 1];
    assert forall i :: 0 <= i < |init| ==> init[i] == ps[i];
  }

  lemma LabelsCons(p: (string, string), ps: PrefixList)
    ensures Labels([p] + ps) == [p.0] + Labels(ps)
  {
  }

  /** After a `set`, the prefix maps to the new namespace and every other prefix keeps its own. */
  lemma {:induction false} PutLookup(ps: PrefixList, prefix: string, ns: string, k: string)
    ensures Lookup(Put(ps, prefix, ns), k) == if k == prefix then Some(ns) else Lookup(ps, k)
    decreases |ps|
  {
    if ps != [] && ps[0].0 != prefix {
      PutLookup(ps[1..], prefix, ns, k);
      assert ([ps[0]] + Put(ps[1..], prefix, ns))[1..] == Put(ps[1..], prefix, ns);
    }
  }

  lemma UniqueLabelsOf(ps: PrefixList)
    ensures UniqueLabels(ps) <==> forall i, j :: 0 <= i < j < |Labels(ps)| ==> Labels(ps)[i] != Labels(ps)[j]
  {
    var labels := Labels(ps);
    assert forall i :: 0 <= i < |ps| ==> labels[i] == ps[i].0;
  }

  /** Each prefix once: `Put` keeps a map a map. */
  lemma PutUnique(ps: PrefixList, prefix: string, ns: string)
    requires UniqueLabels(ps)
    ensures UniqueLabels(Put(ps, prefix, ns))
  {
    UniqueLabelsOf(ps);
    UniqueLabelsOf(Put(ps, prefix, ns));
  }

  /** The `set` of every entry, in order, on top of `ps`. */
  function PutAll(ps: PrefixList, entries: PrefixList): PrefixList
    decreases |entries|
  {
    if entries == [] then ps
    else
      var last := entries[|entries| - 1];
      Put(PutAll(ps, entries[..|entries| - 1]), last.0, last.1)
  }

  /** The namespace the last entry with this prefix gives it. */
  function LastValue(entries: PrefixList, prefix: string): Option<string>
    decreases |entries|
  {
    if entries == [] then None
    else if entries[|entries| - 1].0 == prefix then Some(entries[|entries| - 1].1)
    else LastValue(entries[..|entries| - 1], prefix)
  }

  /** Merging prefix entries in order: the last writer of each prefix wins. */
  lemma {:induction false} MergeLastWriterWins(entries: PrefixList, k: string)
    ensures Lookup(PutAll([], entries), k) == LastValue(entries, k)
    decreases |entries|
  {
    if entries != [] {
      var last := entries[|entries| - 1];
      MergeLastWriterWins(entries[..|entries| - 1], k);
      PutLookup(PutAll([], entries[..|entries| - 1]), last.0, last.1, k);
    }
  }

  /** The merged labels are the entries' labels, each once, in order of first appearance. */
  lemma {:induction false} MergeLabels(entries: PrefixList)
    ensures Labels(PutAll([], entries)) == Dedup(Labels(entries))
    ensures UniqueLabels(PutAll([], entries))
    decreases |entries|
  {
    if entries != [] {
      var init, last := entries[..|entries| - 1], entries[|entries| - 1];
      MergeLabels(init);
      PutUnique(PutAll([], init), last.0, last.1);
      LabelsSnoc(entries);
      DedupSnoc(Labels(init), last.0);
    }
  }

  // ---------------------------------------------------------------------------
  // Shortening

  /** `prefix:rest` for the first namespace that starts the IRI, otherwise `<iri>`. */
  function Shorten(iri: string, ps: PrefixList): string {
    if ps == [] then "<" + iri + ">"
    else if IsPrefix(ps[0].1, iri) then ps[0].0 + ":" + iri[|ps[0].1|..]
    else Shorten(iri, ps[1..])
  }

  /** Shortening uses the first namespace that starts the IRI, and brackets the IRI when none does. */
  lemma {:induction false} ShortenCases(iri: string, ps: PrefixList)
    ensures (exists i :: 0 <= i < |ps| && IsPrefix(ps[i].1, iri)) ==>
              exists i :: 0 <= i < |ps| && IsPrefix(ps[i].1, iri) &&
                (forall j :: 0 <= j < i ==> !IsPrefix(ps[j].1, iri)) &&
                Shorten(iri, ps) == ps[i].0 + ":" + iri[|ps[i].1|..]
    ensures (forall i :: 0 <= i < |ps| ==> !IsPrefix(ps[i].1, iri)) ==> Shorten(iri, ps) == "<" + iri + ">"
    decreases |ps|
  {
    if ps != [] && !IsPrefix(ps[0].1, iri) {
      var rest := ps[1..];
      ShortenCases(iri, rest);
      if exists i :: 0 <= i < |ps| && IsPrefix(ps[i].1, iri) {
        var i :| 0 <= i < |ps| && IsPrefix(ps[i].1, iri);
        assert rest[i - 1] == ps[i];
        var k :| 0 <= k < |rest| && IsPrefix(rest[k].1, iri) &&
                 (forall j :: 0 <= j < k ==> !IsPrefix(rest[j].1, iri)) &&
                 Shorten(iri, rest) == rest[k].0 + ":" + iri[|rest[k].1|..];
        assert ps[k + 1] == rest[k];
        forall j | 0 <= j < k + 1 ensures !IsPrefix(ps[j].1, iri) {
          if j > 0 {
            assert ps[j] == rest[j - 1];
          }
        }
      } else {
        forall k | 0 <= k < |rest| ensures !IsPrefix(rest[k].1, iri) {
          assert rest[k] == ps[k + 1];
        }
      }
    }
  }

  /** Reading a shortened IRI back: `<iri>` as it is, `prefix:rest` through the prefix's namespace. */
  function Expand(short: string, ps: PrefixList): Option<string> {
    if |short| >= 2 && short[0] == '<' && short[|short| - 1] == '>' then Some(short[1..|short| - 1])
    else
      var colon := FirstColon(short);
      if colon == |short| then None
      else match Lookup(ps, short[..colon])
        case None => None
        case Some(ns) => Some(ns + short[colon + 1..])
  }

  /** Position of the first `:` in `s`, or `|s|` when there is none. */
  function FirstColon(s: string): (n: nat)
    ensures n <= |s|
    ensures n < |s| ==> s[n] == ':'
    ensures forall i :: 0 <= i < n ==> s[i] != ':'
  {
    if s == [] || s[0] == ':' then 0 else 1 + FirstColon(s[1..])
  }

  /** SPARQL prefix labels: no colon, and not starting with `<`. */
  predicate PlainLabels(ps: PrefixList) {
    forall i :: 0 <= i < |ps| ==> (forall c :: c in ps[i].0 ==> c != ':') && (|ps[i].0| > 0 ==> ps[i].0[0] != '<')
  }

  lemma LookupAt(ps: PrefixList, i: nat)
    requires UniqueLabels(ps) && i < |ps|
    ensures Lookup(ps, ps[i].0) == Some(ps[i].1)
  {
    if i > 0 {
      LookupAt(ps[1..], i - 1);
    }
  }

  lemma ExpandShortForm(prefix: string, ns: string, rest: string, ps: PrefixList)
    requires forall c :: c in prefix ==> c != ':'
    requires |prefix| > 0 ==> prefix[0] != '<'
    requires Lookup(ps, prefix) == Some(ns)
    ensures Expand(prefix + ":" + rest, ps) == Some(ns + rest)
  {
    var r := prefix + ":" + rest;
    assert r[0] != '<' by {
      if |prefix| > 0 {
        assert r[0] == prefix[0];
      } else {
        assert r[0] == ':';
      }
    }
    assert forall k :: 0 <= k < |prefix| ==> r[k] == prefix[k] && prefix[k] in prefix;
    assert r[|prefix|] == ':';
    assert FirstColon(r) == |prefix|;
    assert r[..|prefix|] == prefix;
    assert r[|prefix| + 1..] == rest;
  }

  /** With distinct, plain labels, shortening loses nothing: expanding gives the IRI back. */
  lemma ShortenRoundTrip(iri: string, ps: PrefixList)
    requires UniqueLabels(ps) && PlainLabels(ps)
    ensures Expand(Shorten(iri, ps), ps) == Some(iri)
  {
    var r := Shorten(iri, ps);
    ShortenCases(iri, ps);
    if exists i :: 0 <= i < |ps| && IsPrefix(ps[i].1, iri) {
      var i :| 0 <= i < |ps| && IsPrefix(ps[i].1, iri) &&
               (forall j :: 0 <= j < i ==> !IsPrefix(ps[j].1, iri)) &&
               r == ps[i].0 + ":" + iri[|ps[i].1|..];
      ExpandShortened(iri, ps, i);
    } else {
      ExpandBracketed(iri, ps);
    }
  }

  lemma ExpandShortened(iri: string, ps: PrefixList, i: nat)
    requires UniqueLabels(ps) && PlainLabels(ps) && i < |ps| && IsPrefix(ps[i].1, iri)
    ensures Expand(ps[i].0 + ":" + iri[|ps[i].1|..], ps) == Some(iri)
  {
    LookupAt(ps, i);
    ExpandShortForm(ps[i].0, ps[i].1, iri[|ps[i].1|..], ps);
    assert ps[i].1 + iri[|ps[i].1|..] == iri;
  }

  lemma ExpandBracketed(iri: string, ps: PrefixList)
    ensures Expand("<" + iri + ">", ps) == Some(iri)
  {
    var r := "<" + iri + ">";
    assert r[1..|r| - 1] == iri;
  }
}
