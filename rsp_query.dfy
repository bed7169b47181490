/**
 * The structured form of an RSP-QL continuous query as the RSP-QL parser hands it to
 * the combiner, and the window-definition key the combiner deduplicates on.
 *
 * The query text itself is not modelled: what the combiner reads out of a query's
 * SPARQL body with regular expressions is given as a `BodyView`, and what the
 * serialiser reads out of a WHERE clause as a `WhereView`.
 */
module RspQuery {
  import opened Wrappers
  import opened Text
  import opened PrefixMap

  /** `FROM NAMED WINDOW <window_name> ON STREAM <stream_name> [RANGE width STEP slide]`. */
  datatype Window = Window(windowName: string, streamName: string, width: int, slide: int)

  /** The stream-to-relation clause, `REGISTER <operator> <name> AS`. */
  datatype R2S = R2S(operator: string, name: string)

  /**
   * What the window-block regular expressions find in a query's WHERE clause once GRAPH
   * has been rewritten to WINDOW: no WHERE clause, a WHERE clause without a window block,
   * or the first window block's trimmed content and, when it can be read, its name.
   */
  datatype WindowExtraction =
    | NoWhereClause
    | NoWindowBlock
    | WindowBlock(content: string, name: Option<string>)

  /**
   * The pieces of one parsed query's SPARQL body the combiner uses: the leading subject
   * variables of its graph blocks, the trimmed content of its first graph block ("" when
   * there is none) and its first window block.
   */
  datatype BodyView = BodyView(graphSubjects: set<string>, graphContent: string, windowBlock: WindowExtraction)

  /**
   * What the serialiser reads from a WHERE clause: none at all, a body that is one window
   * block (printed as it is), or the trimmed, brace-stripped segments between UNIONs.
   */
  datatype WhereView =
    | NoWhereBody
    | SingleWindowBody(text: string)
    | UnionSegments(segments: seq<string>)

  /** The three shapes of a combined WHERE body. */
  datatype CombinedWhere =
      /** One window holding every query's graph-block content, one after the other. */
    | JoinWhere(window: string, patterns: seq<string>)
      /** One window holding each query's window content as a UNION alternative. */
    | WindowUnionWhere(window: string, contents: seq<string>)
      /** Each query's own window block, by (name, content), as a UNION alternative. */
    | CrossWindowUnionWhere(blocks: seq<(string, string)>)

  /** A query's SPARQL part: as the parser produced it, or as the combiner assembled it. */
  datatype Sparql =
    | ParsedSparql(view: BodyView, where: WhereView)
    | CombinedSparql(projection: string, body: CombinedWhere)

  datatype ParsedQuery = ParsedQuery(
    r2s: R2S,
    s2r: seq<Window>,
    prefixes: PrefixList,
    projectionVariables: seq<string>,
    /** "" when the query has no aggregation. */
    aggregationFunction: string,
    aggregationThingInContext: seq<string>,
    sparql: Sparql)

  /** What the RSP-QL parser returns: a query whose SPARQL part is its own parsed body. */
  type ParserOutput = q: ParsedQuery | q.sparql.ParsedSparql?
    witness ParsedQuery(R2S("", ""), [], [], [], "", [], ParsedSparql(BodyView({}, "", NoWhereClause), NoWhereBody))

  /** The errors the combiner and the serialiser throw. */
  datatype CombineError =
    | NoQueriesToCombine
    | MissingWhereClause
    | MissingWindowBlock
    | MissingWindowName

  /** `a|b`. */
  function Bar(a: string, b: string): string {
    a + "|" + b
  }

  /** The combiner's window key, `${window_name}|${stream_name}|${width}|${slide}`. */
  function WindowKey(w: Window): string {
    Bar(w.windowName, Bar(w.streamName, Bar(IntText(w.width), IntText(w.slide))))
  }

  predicate NoBar(s: string) {
    forall i :: 0 <= i < |s| ==> s[i] != '|'
  }

  /** Position of the first `|` in `s`, or `|s|` when there is none. */
  function FirstBar(s: string): (n: nat)
    ensures n <= |s|
  {
    if s == [] || s[0] == '|' then 0 else 1 + FirstBar(s[1..])
  }

  lemma {:induction false} FirstBarAfter(a: string, b: string)
    requires NoBar(a)
    ensures FirstBar(a + "|" + b) == |a|
    decreases |a|
  {
    if a != [] {
      assert (a + "|" + b)[1..] == a[1..] + "|" + b;
      FirstBarAfter(a[1..], b);
    }
  }

  /** Splitting at the first bar: two bar-free heads followed by a bar agree, and so do the tails. */
  lemma SplitAtBar(a: string, b: string, c: string, d: string)
    requires NoBar(a) && NoBar(c)
    requires Bar(a, b) == Bar(c, d)
    ensures a == c && b == d
  {
    var x := a + "|" + b;
    FirstBarAfter(a, b);
    FirstBarAfter(c, d);
    assert a == x[..|a|] == c;
    assert b == x[|a| + 1..] == d;
  }

  lemma IntTextNoBar(x: int)
    ensures NoBar(IntText(x))
  {
  }

  /**
   * When window and stream names contain no `|`, two windows have the same key exactly
   * when all four fields are equal.
   */
  lemma WindowKeyInjective(v: Window, w: Window)
    requires NoBar(v.windowName) && NoBar(w.windowName) && NoBar(v.streamName) && NoBar(w.streamName)
    ensures WindowKey(v) == WindowKey(w) <==> v == w
  {
    if WindowKey(v) == WindowKey(w) {
      SplitAtBar(v.windowName, Bar(v.streamName, Bar(IntText(v.width), IntText(v.slide))),
                 w.windowName, Bar(w.streamName, Bar(IntText(w.width), IntText(w.slide))));
      SplitAtBar(v.streamName, Bar(IntText(v.width), IntText(v.slide)),
                 w.streamName, Bar(IntText(w.width), IntText(w.slide)));
      IntTextNoBar(v.width);
      IntTextNoBar(w.width);
      SplitAtBar(IntText(v.width), IntText(v.slide), IntText(w.width), IntText(w.slide));
      IntTextInjective(v.width, w.width);
      IntTextInjective(v.slide, w.slide);
    }
  }
}
