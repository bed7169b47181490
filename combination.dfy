/**
 * What `combine` computes from the parsed queries, stated as functions: the merged
 * prefixes, windows, projection and aggregation, the two predicates that pick the body
 * shape, and the combined body; with the properties the merge promises.
 */
module Combination {
  import opened Wrappers
  import opened Text
  import opened Sequences
  import opened PrefixMap
  import opened RspQuery

  function View(q: ParserOutput): BodyView {
    q.sparql.view
  }

  // ---------------------------------------------------------------------------
  // Per-query lists

  function PrefixLists(parsed: seq<ParserOutput>): (r: seq<PrefixList>)
    ensures |r| == |parsed| && forall i :: 0 <= i < |parsed| ==> r[i] == parsed[i].prefixes
  {
    seq(|parsed|, i requires 0 <= i < |parsed| => parsed[i].prefixes)
  }

  function WindowLists(parsed: seq<ParserOutput>): (r: seq<seq<Window>>)
    ensures |r| == |parsed| && forall i :: 0 <= i < |parsed| ==> r[i] == parsed[i].s2r
  {
    seq(|parsed|, i requires 0 <= i < |parsed| => parsed[i].s2r)
  }

  function ProjectionLists(parsed: seq<ParserOutput>): (r: seq<seq<string>>)
    ensures |r| == |parsed| && forall i :: 0 <= i < |parsed| ==> r[i] == parsed[i].projectionVariables
  {
    seq(|parsed|, i requires 0 <= i < |parsed| => parsed[i].projectionVariables)
  }

  function ContextLists(parsed: seq<ParserOutput>): (r: seq<seq<string>>)
    ensures |r| == |parsed| && forall i :: 0 <= i < |parsed| ==> r[i] == parsed[i].aggregationThingInContext
  {
    seq(|parsed|, i requires 0 <= i < |parsed| => parsed[i].aggregationThingInContext)
  }

  /** The non-empty aggregation functions, query by query (`.filter(Boolean)`). */
  function UsedAggregations(parsed: seq<ParserOutput>): (r: seq<string>)
    ensures forall f :: f in r <==> f != "" && exists i :: 0 <= i < |parsed| && parsed[i].aggregationFunction == f
    decreases |parsed|
  {
    if parsed == [] then []
    else
      var init, last := parsed[..|parsed| - 1], parsed[|parsed| - 1];
      var r := UsedAggregations(init) + (if last.aggregationFunction != "" then [last.aggregationFunction] else []);
      assert forall i :: 0 <= i < |init| ==> init[i] == parsed[i];
      r
  }

  // ---------------------------------------------------------------------------
  // The merged metadata

  function MergedPrefixes(parsed: seq<ParserOutput>): PrefixList {
    PutAll([], Flatten(PrefixLists(parsed)))
  }

  function MergedWindows(parsed: seq<ParserOutput>): seq<Window> {
    DedupBy(Flatten(WindowLists(parsed)), WindowKey)
  }

  function MergedProjection(parsed: seq<ParserOutput>): seq<string> {
    Dedup(Flatten(ProjectionLists(parsed)))
  }

  function DistinctAggregations(parsed: seq<ParserOutput>): seq<string> {
    Dedup(UsedAggregations(parsed))
  }

  /** The one aggregation function all aggregating queries use, or "" when there are none or several. */
  function MergedAggregationFunction(parsed: seq<ParserOutput>): string {
    var distinct := DistinctAggregations(parsed);
    if |distinct| == 1 then distinct[0] else ""
  }

  function MergedAggregationContext(parsed: seq<ParserOutput>): seq<string> {
    if |DistinctAggregations(parsed)| == 1 then Dedup(Flatten(ContextLists(parsed))) else []
  }

  // ---------------------------------------------------------------------------
  // The shape decision

  /** Every query declares exactly one window, equal in all four fields to the first query's. */
  predicate AllSameWindow(parsed: seq<ParserOutput>)
    requires |parsed| > 0
  {
    |parsed[0].s2r| == 1 &&
    forall i :: 0 <= i < |parsed| ==> |parsed[i].s2r| == 1 && parsed[i].s2r[0] == parsed[0].s2r[0]
  }

  function Subjects(q: ParserOutput): set<string> {
    View(q).graphSubjects
  }

  /** `a.size === b.size && [...a].every(x => b.has(x))`. */
  predicate SetsEqual(a: set<string>, b: set<string>) {
    |a| == |b| && a <= b
  }

  /** The size-and-inclusion test is set equality. */
  lemma SetsEqualIsEquality(a: set<string>, b: set<string>)
    ensures SetsEqual(a, b) <==> a == b
  {
    if |a| == |b| && a <= b {
      assert |b - a| == |b| - |a| == 0;
      assert b - a == {};
    }
  }

  /** Strict: every query's graph subjects equal the first query's; loose: every query's overlap them. */
  predicate SubjectsMatch(parsed: seq<ParserOutput>, strict: bool)
    requires |parsed| > 0
  {
    var base := Subjects(parsed[0]);
    if strict then forall i :: 0 <= i < |parsed| ==> SetsEqual(Subjects(parsed[i]), base)
    else forall i :: 0 <= i < |parsed| ==> Subjects(parsed[i]) * base != {}
  }

  // ---------------------------------------------------------------------------
  // The combined body

  /** Every result's value, or the first failure (a throw inside `map`). */
  function Collect<U>(rs: seq<Result<U, CombineError>>): (r: Result<seq<U>, CombineError>)
    ensures r.Success? <==> forall i :: 0 <= i < |rs| ==> rs[i].Success?
    ensures r.Success? ==> |r.value| == |rs| && forall i :: 0 <= i < |rs| ==> r.value[i] == rs[i].value
    ensures r.Failure? ==> exists i :: 0 <= i < |rs| && rs[i] == Failure(r.error) &&
                                       forall j :: 0 <= j < i ==> rs[j].Success?
    decreases |rs|
  {
    if rs == [] then Success([])
    else
      var init := rs[..|rs| - 1];
      assert forall i :: 0 <= i < |init| ==> init[i] == rs[i];
      var r := Collect(init);
      if r.Failure? then Failure(r.error)
      else if rs[|rs| - 1].Failure? then Failure(rs[|rs| - 1].error)
      else Success(r.value + [rs[|rs| - 1].value])
  }

  /** A query's window content for the single-window UNION: `{ content }` needs a WHERE clause and a window block. */
  function ContentOf(e: WindowExtraction): Result<string, CombineError> {
    match e
    case NoWhereClause => Failure(MissingWhereClause)
    case NoWindowBlock => Failure(MissingWindowBlock)
    case WindowBlock(content, _) => Success(content)
  }

  /** A query's (window name, content) for the cross-window UNION: the name must be readable too. */
  function BlockOf(e: WindowExtraction): Result<(string, string), CombineError> {
    match e
    case NoWhereClause => Failure(MissingWhereClause)
    case NoWindowBlock => Failure(MissingWindowBlock)
    case WindowBlock(content, None) => Failure(MissingWindowName)
    case WindowBlock(content, Some(name)) => Success((name, content))
  }

  function ContentResults(parsed: seq<ParserOutput>): (r: seq<Result<string, CombineError>>)
    ensures |r| == |parsed| && forall i :: 0 <= i < |parsed| ==> r[i] == ContentOf(View(parsed[i]).windowBlock)
  {
    seq(|parsed|, i requires 0 <= i < |parsed| => ContentOf(View(parsed[i]).windowBlock))
  }

  function BlockResults(parsed: seq<ParserOutput>): (r: seq<Result<(string, string), CombineError>>)
    ensures |r| == |parsed| && forall i :: 0 <= i < |parsed| ==> r[i] == BlockOf(View(parsed[i]).windowBlock)
  {
    seq(|parsed|, i requires 0 <= i < |parsed| => BlockOf(View(parsed[i]).windowBlock))
  }

  function GraphPatterns(parsed: seq<ParserOutput>): (r: seq<string>)
    ensures |r| == |parsed| && forall i :: 0 <= i < |parsed| ==> r[i] == View(parsed[i]).graphContent
  {
    seq(|parsed|, i requires 0 <= i < |parsed| => View(parsed[i]).graphContent)
  }

  /**
   * JOIN when both predicates hold, a UNION inside the one shared window when only the
   * window predicate holds, a UNION of each query's own window block otherwise.
   */
  function CombinedBody(parsed: seq<ParserOutput>, strict: bool, prefixes: PrefixList): (r: Result<CombinedWhere, CombineError>)
    requires |parsed| > 0
    ensures AllSameWindow(parsed) && SubjectsMatch(parsed, strict) ==>
              r == Success(JoinWhere(Shorten(parsed[0].s2r[0].windowName, prefixes), GraphPatterns(parsed)))
    ensures AllSameWindow(parsed) && !SubjectsMatch(parsed, strict) ==>
              r.Success? == (forall i :: 0 <= i < |parsed| ==> View(parsed[i]).windowBlock.WindowBlock?) &&
              (r.Success? ==> r.value.WindowUnionWhere? && r.value.window == Shorten(parsed[0].s2r[0].windowName, prefixes) &&
                              |r.value.contents| == |parsed| &&
                              forall i :: 0 <= i < |parsed| ==> r.value.contents[i] == View(parsed[i]).windowBlock.content)
    ensures !AllSameWindow(parsed) ==>
              r.Success? == (forall i :: 0 <= i < |parsed| ==>
                               View(parsed[i]).windowBlock.WindowBlock? && View(parsed[i]).windowBlock.name.Some?) &&
              (r.Success? ==> r.value.CrossWindowUnionWhere? && |r.value.blocks| == |parsed| &&
                              forall i :: 0 <= i < |parsed| ==>
                                r.value.blocks[i] == (View(parsed[i]).windowBlock.name.value, View(parsed[i]).windowBlock.content))
  {
    if AllSameWindow(parsed) then
      var window := Shorten(parsed[0].s2r[0].windowName, prefixes);
      if SubjectsMatch(parsed, strict) then Success(JoinWhere(window, GraphPatterns(parsed)))
      else
        var contents :- Collect(ContentResults(parsed));
        Success(WindowUnionWhere(window, contents))
    else
      var blocks :- Collect(BlockResults(parsed));
      Success(CrossWindowUnionWhere(blocks))
  }

  /** `projection_variables[i] || `agg_${i}``. */
  function Alias(projection: seq<string>, i: nat): (alias: string)
    ensures i < |projection| && projection[i] != "" ==> alias == projection[i]
    ensures !(i < |projection| && projection[i] != "") ==> alias == "agg_" + NatText(i)
  {
    if i < |projection| && projection[i] != "" then projection[i] else "agg_" + NatText(i)
  }

  function AggregateItem(func: string, thing: string, alias: string): string {
    "(" + func + "(?" + thing + ") AS ?" + alias + ")"
  }

  function AggregateItems(func: string, things: seq<string>, projection: seq<string>): (r: seq<string>)
    ensures |r| == |things|
    ensures forall i :: 0 <= i < |things| ==> r[i] == AggregateItem(func, things[i], Alias(projection, i))
  {
    seq(|things|, i requires 0 <= i < |things| => AggregateItem(func, things[i], Alias(projection, i)))
  }

  function VariableItems(vars: seq<string>): (r: seq<string>)
    ensures |r| == |vars| && forall i :: 0 <= i < |vars| ==> r[i] == "?" + vars[i]
  {
    seq(|vars|, i requires 0 <= i < |vars| => "?" + vars[i])
  }

  /** The combined SELECT list: one aggregate per context variable when an aggregation was adopted, else the variables. */
  function ProjectionString(func: string, things: seq<string>, projection: seq<string>): string {
    if func != "" && |things| > 0 then Join(AggregateItems(func, things, projection), " ")
    else Join(VariableItems(projection), " ")
  }

  /** `{ content }`, one alternative of a UNION. */
  function Braced(contents: seq<string>): (r: seq<string>)
    ensures |r| == |contents| && forall i :: 0 <= i < |contents| ==> r[i] == "{ " + contents[i] + " }"
  {
    seq(|contents|, i requires 0 <= i < |contents| => "{ " + contents[i] + " }")
  }

  /** `{ WINDOW name { content } }`, one query's own window block as a UNION alternative. */
  function BlockTexts(blocks: seq<(string, string)>): (r: seq<string>)
    ensures |r| == |blocks|
    ensures forall i :: 0 <= i < |blocks| ==> r[i] == "{ WINDOW " + blocks[i].0 + " { " + blocks[i].1 + " } }"
  {
    seq(|blocks|, i requires 0 <= i < |blocks| => "{ WINDOW " + blocks[i].0 + " { " + blocks[i].1 + " } }")
  }

  /** The text `combine` writes inside the combined query's WHERE braces. */
  function CombinedWhereText(body: CombinedWhere): string {
    match body
    case JoinWhere(window, patterns) => "WINDOW " + window + " {\n" + Join(patterns, "\n") + "\n}"
    case WindowUnionWhere(window, contents) => "WINDOW " + window + " {\n" + Join(Braced(contents), "\nUNION\n") + "\n}"
    case CrossWindowUnionWhere(blocks) => "{ " + Join(BlockTexts(blocks), "\nUNION\n") + " }"
  }

  /** The whole of `combine` on the parsed queries. */
  function Combined(parsed: seq<ParserOutput>, strict: bool): Result<ParsedQuery, CombineError>
    requires |parsed| > 0
  {
    var prefixes := MergedPrefixes(parsed);
    var func := MergedAggregationFunction(parsed);
    var things := MergedAggregationContext(parsed);
    var projection := MergedProjection(parsed);
    var body :- CombinedBody(parsed, strict, prefixes);
    Success(ParsedQuery(parsed[0].r2s, MergedWindows(parsed), prefixes, projection, func, things,
                        CombinedSparql(ProjectionString(func, things, projection), body)))
  }
}
