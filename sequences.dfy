/**
 * First-occurrence deduplication: the effect of walking a list and appending
 * each element unless an element with the same key was appended before.
 */
module Sequences {

  /** The keys of the elements of `s`. */
  function KeySet<T, K>(s: seq<T>, key: T -> K): set<K> {
    set i | 0 <= i < |s| :: key(s[i])
  }

  predicate DistinctKeys<T, K(==)>(s: seq<T>, key: T -> K) {
    forall i, j :: 0 <= i < j < |s| ==> key(s[i]) != key(s[j])
  }

  /** Index of the first element of `s` whose key is `k`. */
  function FirstIndex<T, K(==)>(s: seq<T>, key: T -> K, k: K): (n: nat)
    requires k in KeySet(s, key)
    ensures n < |s| && key(s[n]) == k
    ensures forall i :: 0 <= i < n ==> key(s[i]) != k
    decreases |s|
  {
    var p := s[..|s| - 1];
    if k in KeySet(p, key) then
      var n := FirstIndex(p, key, k);
      assert forall i :: 0 <= i < n ==> s[i] == p[i];
      n
    else
      assert forall i :: 0 <= i < |p| ==> key(s[i]) == key(p[i]) != k;
      |s| - 1
  }

  /** Elements of `s` whose key has not been seen earlier, in order of first occurrence. */
  function DedupBy<T, K(==)>(s: seq<T>, key: T -> K): seq<T>
    decreases |s|
  {
    if s == [] then []
    else
      var d := DedupBy(s[..|s| - 1], key);
      if key(s[|s| - 1]) in KeySet(d, key) then d else d + [s[|s| - 1]]
  }

  /** Appending one element to the input extends the deduplicated list by it unless its key was seen. */
  lemma DedupBySnoc<T, K>(s: seq<T>, x: T, key: T -> K)
    ensures DedupBy(s + [x], key) ==
            (var d := DedupBy(s, key); if key(x) in KeySet(d, key) then d else d + [x])
  {
    assert (s + [x])[..|s + [x]| - 1] == s;
  }

  lemma KeySetSnoc<T, K>(s: seq<T>, x: T, key: T -> K)
    ensures KeySet(s + [x], key) == KeySet(s, key) + {key(x)}
  {
    var t := s + [x];
    forall k | k in KeySet(t, key) ensures k in KeySet(s, key) + {key(x)} {
      var i :| 0 <= i < |t| && key(t[i]) == k;
      if i < |s| { assert key(s[i]) == k; }
    }
    forall k | k in KeySet(s, key) ensures k in KeySet(t, key) {
      var i :| 0 <= i < |s| && key(s[i]) == k;
      assert key(t[i]) == k;
    }
    assert key(t[|s|]) == key(x);
  }

  lemma FirstIndexSnoc<T, K>(s: seq<T>, x: T, key: T -> K, k: K)
    requires k in KeySet(s + [x], key)
    ensures k in KeySet(s, key) ==> FirstIndex(s + [x], key, k) == FirstIndex(s, key, k)
    ensures k !in KeySet(s, key) ==> FirstIndex(s + [x], key, k) == |s|
  {
    assert (s + [x])[..|s + [x]| - 1] == s;
  }

  /** No key occurs twice in the deduplicated list, and it has exactly the input's keys. */
  lemma {:induction false} DedupByKeys<T, K>(s: seq<T>, key: T -> K)
    ensures DistinctKeys(DedupBy(s, key), key)
    ensures KeySet(DedupBy(s, key), key) == KeySet(s, key)
    decreases |s|
  {
    if s != [] {
      var p, x := s[..|s| - 1], s[|s| - 1];
      assert s == p + [x];
      DedupByKeys(p, key);
      DedupBySnoc(p, x, key);
      KeySetSnoc(p, x, key);
      var d := DedupBy(p, key);
      if key(x) !in KeySet(d, key) {
        KeySetSnoc(d, x, key);
        var r := d + [x];
        forall i, j | 0 <= i < j < |r| ensures key(r[i]) != key(r[j]) {
          if j == |d| {
            assert key(d[i]) in KeySet(d, key);
          }
        }
      }
    }
  }

  /** The deduplicated list only holds elements of the input. */
  lemma {:induction false} DedupBySubset<T, K>(s: seq<T>, key: T -> K)
    ensures forall x :: x in DedupBy(s, key) ==> x in s
    decreases |s|
  {
    if s != [] {
      var p := s[..|s| - 1];
      DedupBySubset(p, key);
      assert forall x :: x in p ==> x in s;
    }
  }

  /**
   * `d` holds first occurrences in `s`: each element is the first element of `s` with its key,
   * and they come in the order of those first occurrences.
   */
  ghost predicate FirstOccurrences<T, K>(s: seq<T>, d: seq<T>, key: T -> K) {
    (forall i :: 0 <= i < |d| ==> key(d[i]) in KeySet(s, key) && d[i] == s[FirstIndex(s, key, key(d[i]))])
    && (forall i, j :: 0 <= i < j < |d| ==>
          key(d[i]) in KeySet(s, key) && key(d[j]) in KeySet(s, key) &&
          FirstIndex(s, key, key(d[i])) < FirstIndex(s, key, key(d[j])))
  }

  /** Every element of the deduplicated list is the input's first element with its key, in order. */
  lemma {:induction false} DedupByFirstOccurrences<T, K>(s: seq<T>, key: T -> K)
    ensures FirstOccurrences(s, DedupBy(s, key), key)
    decreases |s|
  {
    if s != [] {
      var p, x := s[..|s| - 1], s[|s| - 1];
      assert s == p + [x];
      DedupByFirstOccurrences(p, key);
      DedupByKeys(p, key);
      DedupBySnoc(p, x, key);
      FirstOccurrencesSnoc(p, x, key, DedupBy(p, key));
    }
  }

  lemma FirstOccurrencesSnoc<T, K>(p: seq<T>, x: T, key: T -> K, d: seq<T>)
    requires FirstOccurrences(p, d, key) && KeySet(d, key) == KeySet(p, key)
    ensures FirstOccurrences(p + [x], if key(x) in KeySet(d, key) then d else d + [x], key)
  {
    var s := p + [x];
    KeySetSnoc(p, x, key);
    forall i | 0 <= i < |d| ensures key(d[i]) in KeySet(s, key) && FirstIndex(s, key, key(d[i])) == FirstIndex(p, key, key(d[i])) {
      FirstIndexSnoc(p, x, key, key(d[i]));
    }
    forall i | 0 <= i < |d| ensures d[i] == s[FirstIndex(s, key, key(d[i]))] {
      assert s[FirstIndex(p, key, key(d[i]))] == p[FirstIndex(p, key, key(d[i]))];
    }
    if key(x) !in KeySet(d, key) {
      FirstIndexSnoc(p, x, key, key(x));
      var r := d + [x];
      forall i | 0 <= i < |r| ensures key(r[i]) in KeySet(s, key) && r[i] == s[FirstIndex(s, key, key(r[i]))] {
        if i < |d| { assert r[i] == d[i]; }
      }
      forall i, j | 0 <= i < j < |r|
        ensures key(r[i]) in KeySet(s, key) && key(r[j]) in KeySet(s, key) &&
                FirstIndex(s, key, key(r[i])) < FirstIndex(s, key, key(r[j]))
      {
        assert r[i] == d[i];
        if j < |d| { assert r[j] == d[j]; }
      }
    }
  }

  /** An input whose keys are already distinct is its own deduplication. */
  lemma {:induction false} DedupByDistinct<T, K>(s: seq<T>, key: T -> K)
    requires DistinctKeys(s, key)
    ensures DedupBy(s, key) == s
    decreases |s|
  {
    if s != [] {
      var p, x := s[..|s| - 1], s[|s| - 1];
      assert s == p + [x];
      DistinctKeysInit(s, key);
      DedupByDistinct(p, key);
      DedupByDistinctSnoc(p, x, key);
    }
  }

  lemma DistinctKeysInit<T, K>(s: seq<T>, key: T -> K)
    requires DistinctKeys(s, key) && s != []
    ensures DistinctKeys(s[..|s| - 1], key) && key(s[|s| - 1]) !in KeySet(s[..|s| - 1], key)
  {
    var p := s[..|s| - 1];
    assert forall i :: 0 <= i < |p| ==> p[i] == s[i];
  }

  lemma DedupByDistinctSnoc<T, K>(p: seq<T>, x: T, key: T -> K)
    requires DedupBy(p, key) == p && key(x) !in KeySet(p, key)
    ensures DedupBy(p + [x], key) == p + [x]
  {
    DedupBySnoc(p, x, key);
  }

  function Same<T>(x: T): T {
    x
  }

  /** First-seen union of a list of values: `Array.includes`-guarded pushes. */
  function Dedup<T(==)>(s: seq<T>): seq<T> {
    DedupBy(s, Same)
  }

  lemma KeySetSame<T>(s: seq<T>)
    ensures forall x :: x in KeySet(s, Same) <==> x in s
  {
    forall x | x in s ensures x in KeySet(s, Same) {
      var i :| 0 <= i < |s| && s[i] == x;
      assert Same(s[i]) == x;
    }
  }
  /** Appending a value to the input extends the first-seen union by it unless it is already there. */
  lemma DedupSnoc<T>(s: seq<T>, x: T)
    ensures Dedup(s + [x]) == if x in Dedup(s) then Dedup(s) else Dedup(s) + [x]
  {
    DedupBySnoc(s, x, Same);
    KeySetSame(Dedup(s));
    assert Same(x) == x;
  }


  /** The first-seen union holds exactly the input's values, each once. */
  lemma DedupElements<T>(s: seq<T>)
    ensures forall x :: x in Dedup(s) <==> x in s
    ensures forall i, j :: 0 <= i < j < |Dedup(s)| ==> Dedup(s)[i] != Dedup(s)[j]
  {
    DedupByKeys(s, Same);
    KeySetSame(s);
    KeySetSame(Dedup(s));
  }

  /** A duplicate-free list has as many elements as values. */
  lemma {:induction false} DistinctCardinality<T>(s: seq<T>)
    requires forall i, j :: 0 <= i < j < |s| ==> s[i] != s[j]
    ensures |(set x | x in s)| == |s|
    decreases |s|
  {
    if s != [] {
      var p, last := s[..|s| - 1], s[|s| - 1];
      DistinctCardinality(p);
      assert forall i :: 0 <= i < |p| ==> p[i] == s[i] != last;
      assert last !in p;
      assert s == p + [last];
      assert (set x | x in s) == (set x | x in p) + {last};
    }
  }

  /** One more element of `xs` after `done`. */
  lemma SnocSlice<T>(done: seq<T>, xs: seq<T>, k: nat)
    requires k < |xs|
    ensures done + xs[..k + 1] == (done + xs[..k]) + [xs[k]]
  {
    assert xs[..k + 1] == xs[..k] + [xs[k]];
  }

  /** The lists one after the other. */
  function Flatten<T>(ss: seq<seq<T>>): seq<T>
    decreases |ss|
  {
    if ss == [] then [] else Flatten(ss[..|ss| - 1]) + ss[|ss| - 1]
  }

  lemma FlattenSnoc<T>(ss: seq<seq<T>>, s: seq<T>)
    ensures Flatten(ss + [s]) == Flatten(ss) + s
  {
    assert (ss + [s])[..|ss|] == ss;
  }

  /** An element of the flattened list comes from one of the lists, and every list's elements are in it. */
  lemma {:induction false} FlattenMembers<T>(ss: seq<seq<T>>, x: T)
    ensures x in Flatten(ss) <==> exists i :: 0 <= i < |ss| && x in ss[i]
    decreases |ss|
  {
    if ss != [] {
      var init := ss[..|ss| - 1];
      FlattenMembers(init, x);
      assert forall i :: 0 <= i < |init| ==> init[i] == ss[i];
    }
  }

  /** The lists up to and including `q`, one after the other. */
  lemma FlattenStep<T>(lists: seq<seq<T>>, q: nat)
    requires q < |lists|
    ensures Flatten(lists[..q + 1]) == Flatten(lists[..q]) + lists[q]
  {
    assert lists[..q + 1][..q] == lists[..q];
  }
}
