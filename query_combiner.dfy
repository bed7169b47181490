/**
 * The query combiner: a list of RSP-QL query texts, filled by `AddQuery` and emptied by
 * `ClearQueries`, and the steps of `combine`, `ParsedToString` and `shortenIri` as the
 * combiner runs them, each proved to compute the functions of `Combination`, `PrefixMap`
 * and `Serialization`.
 */
module QueryCombining {
  import opened Wrappers
  import opened Text
  import opened Sequences
  import opened PrefixMap
  import opened RspQuery
  import opened Combination
  import opened Serialization

  // ---------------------------------------------------------------------------
  // The loops of `combine`

  /** Every query's prefixes, in query order, `set` on an initially empty map. */
  method MergePrefixes(lists: seq<PrefixList>) returns (prefixes: PrefixList)
    ensures prefixes == PutAll([], Flatten(lists))
  {
    prefixes := [];
    for q := 0 to |lists|
      invariant prefixes == PutAll([], Flatten(lists[..q]))
    {
      ghost var done := Flatten(lists[..q]);
      var entries := lists[q];
      assert done + entries[..0] == done;
      for k := 0 to |entries|
        invariant prefixes == PutAll([], done + entries[..k])
      {
        PutAllSnoc(done + entries[..k], entries[k]);
        SnocSlice(done, entries, k);
        prefixes := Put(prefixes, entries[k].0, entries[k].1);
      }
      assert entries[..|entries|] == entries;
      FlattenStep(lists, q);
    }
    assert lists[..|lists|] == lists;
  }

  lemma PutAllSnoc(entries: PrefixList, e: (string, string))
    ensures PutAll([], entries + [e]) == Put(PutAll([], entries), e.0, e.1)
  {
    assert (entries + [e])[..|entries|] == entries;
  }

  /** Every query's windows, in order, appended unless a window with the same key was appended before. */
  method MergeWindows(lists: seq<seq<Window>>) returns (s2r: seq<Window>)
    ensures s2r == DedupBy(Flatten(lists), WindowKey)
  {
    var windowSet: set<string> := {};
    s2r := [];
    for q := 0 to |lists|
      invariant s2r == DedupBy(Flatten(lists[..q]), WindowKey)
      invariant windowSet == KeySet(s2r, WindowKey)
    {
      ghost var done := Flatten(lists[..q]);
      var windows := lists[q];
      assert done + windows[..0] == done;
      for k := 0 to |windows|
        invariant s2r == DedupBy(done + windows[..k], WindowKey)
        invariant windowSet == KeySet(s2r, WindowKey)
      {
        var window := windows[k];
        var key := WindowKey(window);
        DedupBySnoc(done + windows[..k], window, WindowKey);
        SnocSlice(done, windows, k);
        if key !in windowSet {
          KeySetSnoc(s2r, window, WindowKey);
          windowSet := windowSet + {key};
          s2r := s2r + [window];
        }
      }
      assert windows[..|windows|] == windows;
      FlattenStep(lists, q);
    }
    assert lists[..|lists|] == lists;
  }

  /** `if (!list.includes(v)) list.push(v)` over each list in turn: the first-seen union. */
  method MergeNames(lists: seq<seq<string>>) returns (merged: seq<string>)
    ensures merged == Dedup(Flatten(lists))
  {
    merged := [];
    for q := 0 to |lists|
      invariant merged == Dedup(Flatten(lists[..q]))
    {
      ghost var done := Flatten(lists[..q]);
      var names := lists[q];
      assert done + names[..0] == done;
      for k := 0 to |names|
        invariant merged == Dedup(done + names[..k])
      {
        var name := names[k];
        DedupBySnoc(done + names[..k], name, Same);
        KeySetSame(merged);
        assert Same(name) == name;
        SnocSlice(done, names, k);
        if name !in merged {
          merged := merged + [name];
        }
      }
      assert names[..|names|] == names;
      FlattenStep(lists, q);
    }
    assert lists[..|lists|] == lists;
  }

  /**
   * The distinct non-empty aggregation functions, in order of first use (a JavaScript `Set`);
   * when there is exactly one, it and the first-seen union of the context variables.
   */
  method MergeAggregation(parsed: seq<ParserOutput>) returns (func: string, things: seq<string>)
    ensures func == MergedAggregationFunction(parsed)
    ensures things == MergedAggregationContext(parsed)
  {
    var allAggregations := Dedup(UsedAggregations(parsed));
    func, things := "", [];
    if |allAggregations| == 1 {
      func := allAggregations[0];
      things := MergeNames(ContextLists(parsed));
    }
  }

  /** One PREFIX line per prefix, in the map's order. */
  method PrefixDeclarations(prefixes: PrefixList) returns (lines: seq<string>)
    ensures lines == PrefixLines(prefixes)
  {
    lines := [];
    for i := 0 to |prefixes|
      invariant lines == PrefixLines(prefixes[..i])
    {
      var (prefix, iri) := prefixes[i];
      var line := PrefixLine((prefix, iri));
      assert PrefixLines(prefixes[..i + 1]) == PrefixLines(prefixes[..i]) + [line];
      lines := lines + [line];
    }
    assert prefixes[..|prefixes|] == prefixes;
  }

  /** The SELECT clause: the aggregate form when it applies, the bare variables otherwise. */
  method SelectClause(q: ParsedQuery) returns (selectClause: string)
    ensures selectClause == SelectLine(q)
  {
    selectClause := "SELECT";
    var things, projection := q.aggregationThingInContext, q.projectionVariables;
    var hasAgg := q.aggregationFunction != "" && |things| == |projection|;
    if hasAgg {
      var func := ToUpper(q.aggregationFunction);
      var items := AggregateSelections(func, things, projection);
      selectClause := selectClause + items;
    } else {
      selectClause := selectClause + " " + Join(VariableItems(projection), " ");
    }
  }

  /** The loop that appends ` (func(?thing) AS ?alias)` per context variable. */
  method AggregateSelections(func: string, things: seq<string>, projection: seq<string>) returns (clause: string)
    requires |things| == |projection|
    ensures clause == Concat(SpacedAggregateItems(func, things, projection))
  {
    ghost var items := SpacedAggregateItems(func, things, projection);
    clause := "";
    for i := 0 to |things|
      invariant clause == Concat(items[..i])
    {
      var alias := if projection[i] != "" then projection[i] else "agg_" + NatText(i);
      var item := " " + AggregateItem(func, things[i], alias);
      assert alias == Alias(projection, i);
      assert items[..i + 1] == items[..i] + [item];
      ConcatSnoc(items[..i], item);
      clause := clause + item;
    }
    assert items[..|things|] == items;
  }

  /**
   * A combiner of RSP-QL queries. The RSP-QL parser it applies to each query text is not
   * part of this model; it is the `parser` the combiner is built with.
   */
  class QueryCombiner {
    var queries: seq<string>
    const parser: string -> ParserOutput

    constructor (parser: string -> ParserOutput)
      ensures queries == [] && this.parser == parser
    {
      queries := [];
      this.parser := parser;
    }

    /** The queries as the parser reads them, in the order they were added. */
    function ParsedQueries(): (parsed: seq<ParserOutput>)
      reads this
      ensures |parsed| == |queries| && forall i :: 0 <= i < |queries| ==> parsed[i] == parser(queries[i])
    {
      var texts := queries;
      var parsed: seq<ParserOutput> := seq(|texts|, i requires 0 <= i < |texts| => parser(texts[i]));
      parsed
    }

    /** Appends one query; the ones added before keep their places. */
    method AddQuery(query: string)
      modifies this`queries
      ensures queries == old(queries) + [query]
      ensures |queries| == |old(queries)| + 1 && queries[..|old(queries)|] == old(queries)
    {
      queries := queries + [query];
    }

    method ClearQueries()
      modifies this`queries
      ensures queries == []
    {
      queries := [];
    }

    /** The unfinished combination: it fails on an empty list and otherwise produces nothing. */
    method CombineQueries() returns (error: Option<CombineError>)
      ensures error.Some? <==> queries == []
      ensures error.Some? ==> error.value == NoQueriesToCombine
    {
      if |queries| == 0 {
        return Some(NoQueriesToCombine);
      }
      return None;
    }

    /**
     * Combines the added queries: the first query's r2s, the merged prefixes, windows,
     * projection and aggregation, and a JOIN body, a UNION inside one window or a UNION of
     * windows as the window and subject predicates decide. The first query is read
     * unconditionally, so there must be one.
     */
    method Combine(strictSubjectMatch: bool) returns (combined: Result<ParsedQuery, CombineError>)
      requires |queries| > 0
      ensures combined == Combined(ParsedQueries(), strictSubjectMatch)
    {
      var parsedQueries := ParsedQueries();
      var r2s := parsedQueries[0].r2s;
      var prefixes := MergePrefixes(PrefixLists(parsedQueries));
      var s2r := MergeWindows(WindowLists(parsedQueries));
      var projection := MergeNames(ProjectionLists(parsedQueries));
      var func, things := MergeAggregation(parsedQueries);

      var allSameWindow := AllSameWindow(parsedQueries);
      var allSameSubjects := SubjectsMatch(parsedQueries, strictSubjectMatch);
      var body: CombinedWhere;
      if allSameWindow && allSameSubjects {
        var window := ShortenIri(parsedQueries[0].s2r[0].windowName, prefixes);
        body := JoinWhere(window, GraphPatterns(parsedQueries));
      } else if allSameWindow {
        var window := ShortenIri(parsedQueries[0].s2r[0].windowName, prefixes);
        var contents :- Collect(ContentResults(parsedQueries));
        body := WindowUnionWhere(window, contents);
      } else {
        var blocks :- Collect(BlockResults(parsedQueries));
        body := CrossWindowUnionWhere(blocks);
      }
      var projectionString := ProjectionString(func, things, projection);
      combined := Success(ParsedQuery(r2s, s2r, prefixes, projection, func, things,
                                      CombinedSparql(projectionString, body)));
    }

    /** Prints a query line by line; a parsed query without a WHERE clause is an error. */
    method ParsedToString(parsedQuery: ParsedQuery) returns (text: Result<string, CombineError>)
      ensures text == Serialized(parsedQuery)
    {
      var q := parsedQuery;
      var lines := PrefixDeclarations(q.prefixes);
      lines := lines + [RegisterLine(q.r2s)];
      var selectClause := SelectClause(q);
      lines := lines + [selectClause];
      var windowLines := WindowDeclarations(q.s2r, q.prefixes);
      lines := lines + windowLines;
      lines := lines + ["WHERE {"];
      var whereBody := PrintedWhereBody(q.sparql);
      if whereBody.Failure? {
        return Failure(whereBody.error);
      }
      lines := lines + [whereBody.value, "}"];
      assert lines == HeaderLines(q) + ["WHERE {", whereBody.value, "}"];
      return Success(Join(lines, "\n"));
    }

    /** One FROM NAMED WINDOW line per window, names shortened against the prefixes. */
    method WindowDeclarations(s2r: seq<Window>, prefixes: PrefixList) returns (lines: seq<string>)
      ensures lines == WindowLines(s2r, prefixes)
    {
      lines := [];
      for k := 0 to |s2r|
        invariant lines == WindowLines(s2r[..k], prefixes)
      {
        var window := s2r[k];
        var w := ShortenIri(window.windowName, prefixes);
        var s := ShortenIri(window.streamName, prefixes);
        var line := WindowDeclaration(w, s, window.width, window.slide);
        WindowLinesSnoc(s2r, prefixes, k);
        lines := lines + [line];
      }
      assert s2r[..|s2r|] == s2r;
    }

    /** The first prefix whose namespace starts the IRI, as `prefix:rest`; else the IRI in angle brackets. */
    method ShortenIri(iri: string, prefixes: PrefixList) returns (short: string)
      ensures short == Shorten(iri, prefixes)
    {
      for i := 0 to |prefixes|
        invariant Shorten(iri, prefixes) == Shorten(iri, prefixes[i..])
      {
        var (prefix, ns) := prefixes[i];
        if IsPrefix(ns, iri) {
          return prefix + ":" + iri[|ns|..];
        }
        assert prefixes[i..][1..] == prefixes[i + 1..];
      }
      return "<" + iri + ">";
    }
  }
}
