/**
 * What the combiner's merge promises: windows deduplicated on their four fields in
 * order of first occurrence, a duplicate-free first-seen projection, an aggregation
 * adopted only when exactly one function is in use, and the subject policies.
 */
module CombinationProperties {
  import opened Wrappers
  import opened Sequences
  import opened PrefixMap
  import opened RspQuery
  import opened Combination
  import opened Text

  lemma WindowsOfQueries(parsed: seq<ParserOutput>, w: Window)
    ensures w in Flatten(WindowLists(parsed)) <==> exists q :: 0 <= q < |parsed| && w in parsed[q].s2r
  {
    FlattenMembers(WindowLists(parsed), w);
  }

  /**
   * No two merged windows share a key; every input window's key is among them; each merged
   * window is the first input window with its key, and they keep the order of first occurrence.
   */
  lemma WindowMergeKeys(parsed: seq<ParserOutput>)
    ensures var m, all := MergedWindows(parsed), Flatten(WindowLists(parsed));
            (forall i, j :: 0 <= i < j < |m| ==> WindowKey(m[i]) != WindowKey(m[j])) &&
            (forall w :: w in all ==> exists k :: 0 <= k < |m| && WindowKey(m[k]) == WindowKey(w)) &&
            (forall k :: 0 <= k < |m| ==> WindowKey(m[k]) in KeySet(all, WindowKey) &&
                                          m[k] == all[FirstIndex(all, WindowKey, WindowKey(m[k]))]) &&
            (forall i, j :: 0 <= i < j < |m| ==>
               FirstIndex(all, WindowKey, WindowKey(m[i])) < FirstIndex(all, WindowKey, WindowKey(m[j])))
  {
    var m, all := MergedWindows(parsed), Flatten(WindowLists(parsed));
    assert FirstOccurrences(all, m, WindowKey) by {
      DedupByFirstOccurrences(all, WindowKey);
    }
    DedupByKeys(all, WindowKey);
    forall w | w in all ensures exists k :: 0 <= k < |m| && WindowKey(m[k]) == WindowKey(w) {
      var i :| 0 <= i < |all| && all[i] == w;
      assert WindowKey(w) in KeySet(all, WindowKey);
    }
  }

  predicate PlainWindowNames(parsed: seq<ParserOutput>) {
    forall q, w :: 0 <= q < |parsed| && w in parsed[q].s2r ==> NoBar(w.windowName) && NoBar(w.streamName)
  }

  /**
   * When no window or stream name contains `|` (so the string key is faithful to the
   * four fields), the merged windows are exactly the input windows, each once.
   */
  lemma WindowMergeTuples(parsed: seq<ParserOutput>)
    requires PlainWindowNames(parsed)
    ensures var m := MergedWindows(parsed);
            (forall i, j :: 0 <= i < j < |m| ==> m[i] != m[j]) &&
            (forall w :: w in m <==> exists q :: 0 <= q < |parsed| && w in parsed[q].s2r)
  {
    var all := Flatten(WindowLists(parsed));
    forall w | w in all ensures NoBar(w.windowName) && NoBar(w.streamName) {
      WindowsOfQueries(parsed, w);
    }
    DedupPlainWindows(all);
    forall w ensures w in all <==> exists q :: 0 <= q < |parsed| && w in parsed[q].s2r {
      WindowsOfQueries(parsed, w);
    }
  }

  /** Deduplicating bar-free windows by their string key keeps exactly the distinct windows. */
  lemma DedupPlainWindows(all: seq<Window>)
    requires forall w :: w in all ==> NoBar(w.windowName) && NoBar(w.streamName)
    ensures var m := DedupBy(all, WindowKey);
            (forall i, j :: 0 <= i < j < |m| ==> m[i] != m[j]) &&
            (forall w :: w in m <==> w in all)
  {
    var m := DedupBy(all, WindowKey);
    DedupByKeys(all, WindowKey);
    DedupBySubset(all, WindowKey);
    forall w | w in all ensures w in m {
      var i :| 0 <= i < |all| && all[i] == w;
      assert WindowKey(w) in KeySet(all, WindowKey);
      var k :| 0 <= k < |m| && WindowKey(m[k]) == WindowKey(w);
      assert m[k] in all;
      WindowKeyInjective(m[k], w);
    }
  }

  /** The merged projection holds every query's projection variables, each once, in first-seen order. */
  lemma ProjectionMerge(parsed: seq<ParserOutput>)
    ensures var m, all := MergedProjection(parsed), Flatten(ProjectionLists(parsed));
            (forall i, j :: 0 <= i < j < |m| ==> m[i] != m[j]) &&
            (forall v :: v in m <==> exists q :: 0 <= q < |parsed| && v in parsed[q].projectionVariables) &&
            (forall i, j :: 0 <= i < j < |m| ==>
               m[i] in KeySet(all, Same) && m[j] in KeySet(all, Same) &&
               FirstIndex(all, Same, m[i]) < FirstIndex(all, Same, m[j]))
  {
    var all := Flatten(ProjectionLists(parsed));
    DedupElements(all);
    DedupByFirstOccurrences(all, Same);
    forall v ensures v in all <==> exists q :: 0 <= q < |parsed| && v in parsed[q].projectionVariables {
      FlattenMembers(ProjectionLists(parsed), v);
    }
  }

  /** `f` is a non-empty aggregation function some query uses, and every query uses `f` or none. */
  predicate OnlyAggregation(parsed: seq<ParserOutput>, f: string) {
    f != "" &&
    (exists i :: 0 <= i < |parsed| && parsed[i].aggregationFunction == f) &&
    forall i :: 0 <= i < |parsed| ==> parsed[i].aggregationFunction == "" || parsed[i].aggregationFunction == f
  }

  /**
   * The combined query takes an aggregation function exactly when one non-empty function
   * is in use and every query uses it or none; the context is then every query's context
   * variables, each once, and is empty otherwise.
   */
  lemma AggregationAdoption(parsed: seq<ParserOutput>)
    ensures MergedAggregationFunction(parsed) != "" <==> exists f :: OnlyAggregation(parsed, f)
    ensures MergedAggregationFunction(parsed) != "" ==>
            OnlyAggregation(parsed, MergedAggregationFunction(parsed)) &&
            MergedAggregationContext(parsed) == Dedup(Flatten(ContextLists(parsed)))
    ensures MergedAggregationFunction(parsed) == "" ==> MergedAggregationContext(parsed) == []
  {
    var used := UsedAggregations(parsed);
    var distinct := DistinctAggregations(parsed);
    DedupElements(used);
    if |distinct| == 1 {
      var f := distinct[0];
      assert f in distinct;
      assert f in used;
      forall i | 0 <= i < |parsed|
        ensures parsed[i].aggregationFunction == "" || parsed[i].aggregationFunction == f
      {
        var g := parsed[i].aggregationFunction;
        if g != "" {
          assert g in used;
          assert g in distinct;
          assert distinct[0] == g;
        }
      }
      assert OnlyAggregation(parsed, f);
    } else if f :| OnlyAggregation(parsed, f) {
      assert f in used;
      assert f in distinct;
      forall g | g in distinct ensures g == f {
        assert g in used;
      }
      OnlyOneValue(distinct, f);
    }
  }

  /** A duplicate-free list of one value only has at most one element. */
  lemma OnlyOneValue(s: seq<string>, f: string)
    requires forall i, j :: 0 <= i < j < |s| ==> s[i] != s[j]
    requires forall g :: g in s ==> g == f
    requires f in s
    ensures |s| == 1
  {
    DistinctCardinality(s);
    assert (set x | x in s) == {f};
  }

  /** When all queries share one window, the combined query declares just that window. */
  lemma AllSameWindowKeepsOneWindow(parsed: seq<ParserOutput>)
    requires |parsed| > 0 && AllSameWindow(parsed)
    ensures MergedWindows(parsed) == [parsed[0].s2r[0]]
  {
    var w := parsed[0].s2r[0];
    var all := Flatten(WindowLists(parsed));
    forall x | x in all ensures x == w {
      WindowsOfQueries(parsed, x);
    }
    OneValueDedup(all, w);
    WindowsOfQueries(parsed, w);
  }

  lemma {:induction false} OneValueDedup(s: seq<Window>, w: Window)
    requires forall x :: x in s ==> x == w
    ensures s != [] ==> DedupBy(s, WindowKey) == [w]
    decreases |s|
  {
    if s != [] {
      var init := s[..|s| - 1];
      assert s[|s| - 1] in s;
      assert forall x :: x in init ==> x in s;
      OneValueDedup(init, w);
      if init != [] {
        assert WindowKey(w) in KeySet([w], WindowKey) by {
          assert WindowKey([w][0]) == WindowKey(w);
        }
      }
    }
  }

  /** With a non-empty base, strict matching implies loose matching. */
  lemma StrictImpliesLoose(parsed: seq<ParserOutput>)
    requires |parsed| > 0 && Subjects(parsed[0]) != {}
    ensures SubjectsMatch(parsed, true) ==> SubjectsMatch(parsed, false)
  {
    if SubjectsMatch(parsed, true) {
      forall i | 0 <= i < |parsed| ensures Subjects(parsed[i]) * Subjects(parsed[0]) != {} {
        SetsEqualIsEquality(Subjects(parsed[i]), Subjects(parsed[0]));
        var x :| x in Subjects(parsed[0]);
        assert x in Subjects(parsed[i]) * Subjects(parsed[0]);
      }
    }
  }

  /** Loose matching needs the first query to have graph subjects: it overlaps nothing otherwise. */
  lemma LooseNeedsBaseSubjects(parsed: seq<ParserOutput>)
    requires |parsed| > 0 && Subjects(parsed[0]) == {}
    ensures !SubjectsMatch(parsed, false)
  {
    assert Subjects(parsed[0]) * Subjects(parsed[0]) == {};
  }

  /** Strict matching is set equality with the first query's subjects. */
  lemma StrictIsEquality(parsed: seq<ParserOutput>)
    requires |parsed| > 0
    ensures SubjectsMatch(parsed, true) <==> forall i :: 0 <= i < |parsed| ==> Subjects(parsed[i]) == Subjects(parsed[0])
  {
    forall i | 0 <= i < |parsed| ensures SetsEqual(Subjects(parsed[i]), Subjects(parsed[0])) <==> Subjects(parsed[i]) == Subjects(parsed[0]) {
      SetsEqualIsEquality(Subjects(parsed[i]), Subjects(parsed[0]));
    }
  }

  /**
   * Two queries on the same window whose graph subjects are `{?s, ?p}` and `{?s}`: loose
   * matching joins them in the window, strict matching unions them inside it.
   */
  lemma StrictVersusLoose(w: Window, first: ParserOutput, second: ParserOutput)
    requires first.s2r == [w] && second.s2r == [w]
    requires Subjects(first) == {"?s", "?p"} && Subjects(second) == {"?s"}
    requires View(first).windowBlock.WindowBlock? && View(second).windowBlock.WindowBlock?
    ensures CombinedBody([first, second], false, []).Success?
    ensures CombinedBody([first, second], false, []).value.JoinWhere?
    ensures CombinedBody([first, second], true, []).Success?
    ensures CombinedBody([first, second], true, []).value.WindowUnionWhere?
  {
    var parsed := [first, second];
    assert AllSameWindow(parsed);
    assert "?s" in Subjects(first) * Subjects(first);
    assert "?s" in Subjects(second) * Subjects(first);
    assert SubjectsMatch(parsed, false);
    assert "?p" !in Subjects(second);
    assert "?p" in Subjects(first);
    assert !SetsEqual(Subjects(parsed[1]), Subjects(parsed[0]));
    assert !SubjectsMatch(parsed, true);
  }

  /**
   * The aggregate items get pairwise different aliases when the named projection variables
   * are pairwise different and none of them starts with `agg_`: two defaults `agg_i` and
   * `agg_j` differ in their decimal text, and a default never equals a named variable.
   */
  lemma {:induction false} AliasesDistinct(projection: seq<string>, i: nat, j: nat)
    requires i != j
    requires forall a, b :: 0 <= a < |projection| && 0 <= b < |projection| && a != b && projection[a] != "" ==>
               projection[a] != projection[b]
    requires forall k :: 0 <= k < |projection| ==> !IsPrefix("agg_", projection[k])
    ensures Alias(projection, i) != Alias(projection, j)
  {
    var named := (k: nat) => k < |projection| && projection[k] != "";
    if !named(i) && !named(j) {
      if Alias(projection, i) == Alias(projection, j) {
        assert ("agg_" + NatText(i))[4..] == NatText(i);
        assert ("agg_" + NatText(j))[4..] == NatText(j);
        NatTextInjective(i, j);
      }
    } else if named(i) && !named(j) {
      assert IsPrefix("agg_", Alias(projection, j));
    } else if !named(i) && named(j) {
      assert IsPrefix("agg_", Alias(projection, i));
    }
  }
}
