/**
 * `ParsedToString` as functions: a query is printed as its PREFIX lines, its REGISTER
 * line, its SELECT line, one FROM NAMED WINDOW line per window and its WHERE block, one
 * line after the other; with the properties that let a reader take those lines apart again.
 */
module Serialization {
  import opened Wrappers
  import opened Text
  import opened PrefixMap
  import opened RspQuery
  import opened Combination

  function PrefixLine(entry: (string, string)): string {
    "PREFIX " + entry.0 + ": <" + entry.1 + ">"
  }

  function PrefixLines(ps: PrefixList): (r: seq<string>)
    ensures |r| == |ps| && forall i :: 0 <= i < |ps| ==> r[i] == PrefixLine(ps[i])
  {
    seq(|ps|, i requires 0 <= i < |ps| => PrefixLine(ps[i]))
  }

  function RegisterLine(r2s: R2S): string {
    "REGISTER " + r2s.operator + " <" + r2s.name + "> AS"
  }

  /** The aggregate SELECT form needs a function and one context variable per projection variable. */
  predicate HasAggregate(q: ParsedQuery) {
    q.aggregationFunction != "" && |q.aggregationThingInContext| == |q.projectionVariables|
  }

  /** ` (func(?thing) AS ?alias)` for each context variable, aliased by the projection variable at its position. */
  function SpacedAggregateItems(func: string, things: seq<string>, projection: seq<string>): (r: seq<string>)
    ensures |r| == |things|
    ensures forall i :: 0 <= i < |r| ==> r[i] == " " + AggregateItem(func, things[i], Alias(projection, i))
  {
    var items := AggregateItems(func, things, projection);
    seq(|items|, i requires 0 <= i < |items| => " " + items[i])
  }

  /** The aggregate form upper-cases the function name. */
  function SelectLine(q: ParsedQuery): string {
    if HasAggregate(q) then
      "SELECT" + Concat(SpacedAggregateItems(ToUpper(q.aggregationFunction), q.aggregationThingInContext, q.projectionVariables))
    else "SELECT " + Join(VariableItems(q.projectionVariables), " ")
  }

  /** `FROM NAMED WINDOW w ON STREAM s [RANGE width STEP slide]`, the names already shortened. */
  function WindowDeclaration(window: string, stream: string, width: int, slide: int): string {
    "FROM NAMED WINDOW " + window + " ON STREAM " + stream +
    " [RANGE " + IntText(width) + " STEP " + IntText(slide) + "]"
  }

  function WindowLine(w: Window, ps: PrefixList): string {
    WindowDeclaration(Shorten(w.windowName, ps), Shorten(w.streamName, ps), w.width, w.slide)
  }

  function WindowLines(s2r: seq<Window>, ps: PrefixList): (r: seq<string>)
    ensures |r| == |s2r| && forall i :: 0 <= i < |s2r| ==> r[i] == WindowLine(s2r[i], ps)
  {
    seq(|s2r|, i requires 0 <= i < |s2r| => WindowLine(s2r[i], ps))
  }

  lemma WindowLinesSnoc(s2r: seq<Window>, ps: PrefixList, k: nat)
    requires k < |s2r|
    ensures WindowLines(s2r[..k + 1], ps) == WindowLines(s2r[..k], ps) + [WindowLine(s2r[k], ps)]
  {
    var a, b := WindowLines(s2r[..k + 1], ps), WindowLines(s2r[..k], ps) + [WindowLine(s2r[k], ps)];
    forall i | 0 <= i <= k ensures a[i] == b[i] {
      assert s2r[..k + 1][i] == s2r[i];
    }
  }

  /** Everything printed before the WHERE block. */
  function HeaderLines(q: ParsedQuery): seq<string> {
    PrefixLines(q.prefixes) + [RegisterLine(q.r2s), SelectLine(q)] + WindowLines(q.s2r, q.prefixes)
  }

  /** A `graph` in any letter case, followed by white space, starts `s`. */
  predicate GraphAt(s: string) {
    && |s| > 5
    && UpperChar(s[0]) == 'G' && UpperChar(s[1]) == 'R' && UpperChar(s[2]) == 'A'
    && UpperChar(s[3]) == 'P' && UpperChar(s[4]) == 'H'
    && IsJsSpace(s[5])
  }

  /**
   * The printer's `GRAPH`-to-`WINDOW` rewrite, a global, case-insensitive replacement of
   * `GRAPH\s+`: scanning from the left, each `graph` in any letter case that is followed by
   * white space becomes `WINDOW `, together with the whole run of white space after it.
   */
  function ReplaceGraph(s: string): string
    decreases |s|
  {
    if s == [] then []
    else if GraphAt(s) then "WINDOW " + ReplaceGraph(s[RunEnd(s, 5, IsJsSpace)..])
    else [s[0]] + ReplaceGraph(s[1..])
  }

  /** The rewrite leaves a text unchanged exactly when no `graph` followed by white space occurs in it. */
  lemma {:induction false} ReplaceGraphIdentity(s: string)
    ensures ReplaceGraph(s) == s <==> forall i :: 0 <= i < |s| ==> !GraphAt(s[i..])
  {
    if forall i :: 0 <= i < |s| ==> !GraphAt(s[i..]) {
      ReplaceGraphWithoutMatch(s);
    } else {
      var i :| 0 <= i < |s| && GraphAt(s[i..]);
      ReplaceGraphChanges(s, i);
    }
  }

  lemma {:induction false} ReplaceGraphWithoutMatch(s: string)
    requires forall i :: 0 <= i < |s| ==> !GraphAt(s[i..])
    ensures ReplaceGraph(s) == s
    decreases |s|
  {
    if s != [] {
      assert s[0..] == s;
      forall i | 0 <= i < |s| - 1 ensures !GraphAt(s[1..][i..]) {
        assert s[1..][i..] == s[i + 1..];
      }
      ReplaceGraphWithoutMatch(s[1..]);
      assert [s[0]] + s[1..] == s;
    }
  }

  lemma {:induction false} ReplaceGraphChanges(s: string, i: nat)
    requires i < |s| && GraphAt(s[i..])
    ensures ReplaceGraph(s) != s
    decreases i
  {
    if GraphAt(s) {
      assert ReplaceGraph(s)[0] == 'W';
    } else {
      assert i > 0 by { assert s[0..] == s; }
      assert s[1..][i - 1..] == s[i..];
      ReplaceGraphChanges(s[1..], i - 1);
      assert ReplaceGraph(s)[1..] == ReplaceGraph(s[1..]);
    }
  }

  /** Text in which no match can start is copied as it is, and the rewrite goes on after it. */
  lemma {:induction false} ReplaceGraphAfter(a: string, b: string)
    requires forall i :: 0 <= i < |a| ==> a[i] != 'g' && a[i] != 'G'
    ensures ReplaceGraph(a + b) == a + ReplaceGraph(b)
    decreases |a|
  {
    if a != [] {
      var s := a + b;
      assert UpperChar(s[0]) != 'G';
      assert s[1..] == a[1..] + b;
      ReplaceGraphAfter(a[1..], b);
      calc {
        ReplaceGraph(s);
        [s[0]] + ReplaceGraph(s[1..]);
        [a[0]] + (a[1..] + ReplaceGraph(b));
        { assert [a[0]] + a[1..] == a; }
        a + ReplaceGraph(b);
      }
    } else {
      assert a + b == b;
    }
  }

  /** A window whose name ends in `Graph` loses that part of its name when printed. */
  lemma GraphInWindowName()
    ensures ReplaceGraph("WINDOW ex:sensorGraph {") == "WINDOW ex:sensorWINDOW {"
  {
    var a, b := "WINDOW ex:sensor", "Graph {";
    SensorHasNoG(a);
    ReplaceGraphAfter(a, b);
    ReplaceGraphName(b);
    assert a + b == "WINDOW ex:sensorGraph {";
    assert a + "WINDOW {" == "WINDOW ex:sensorWINDOW {";
  }

  lemma SensorHasNoG(a: string)
    requires a == "WINDOW ex:sensor"
    ensures forall i :: 0 <= i < |a| ==> a[i] != 'g' && a[i] != 'G'
  {
  }

  lemma ReplaceGraphName(b: string)
    requires b == "Graph {"
    ensures ReplaceGraph(b) == "WINDOW {"
  {
    assert GraphAt(b);
    assert RunEnd(b, 5, IsJsSpace) == 6 by { assert !IsJsSpace(b[6]); }
    assert b[6..] == "{";
    assert ReplaceGraph("{") == "{" by { assert !GraphAt("{"); }
  }

  /**
   * What is printed inside the WHERE block. A body that is one window block is printed as
   * it is; a body of UNION alternatives is printed as its brace-stripped segments, each in
   * `{ … }`, joined by ` UNION `. A parsed query without a WHERE clause is an error. The
   * text of a combined query goes through `ReplaceGraph` first, as the printer rewrites
   * the whole stored query before taking it apart.
   */
  function PrintedWhereBody(s: Sparql): Result<string, CombineError> {
    match s
    case ParsedSparql(_, where) =>
      (match where
       case NoWhereBody => Failure(MissingWhereClause)
       case SingleWindowBody(text) => Success(text)
       case UnionSegments(segments) => Success(Join(Braced(segments), " UNION ")))
    case CombinedSparql(_, body) =>
      (match body
       case CrossWindowUnionWhere(blocks) => Success(ReplaceGraph("{ " + Join(BlockTexts(blocks), " UNION ") + " }"))
       case _ => Success(ReplaceGraph(CombinedWhereText(body))))
  }

  /** The printed query: the header lines, `WHERE {`, the body, `}`, joined by newlines. */
  function Serialized(q: ParsedQuery): Result<string, CombineError> {
    var body :- PrintedWhereBody(q.sparql);
    Success(Join(HeaderLines(q) + ["WHERE {", body, "}"], "\n"))
  }

  // ---------------------------------------------------------------------------
  // Reading the printed text back

  /** No field that ends up in a header line holds a line break. */
  predicate SingleLineFields(q: ParsedQuery) {
    (forall i :: 0 <= i < |q.prefixes| ==> '\n' !in q.prefixes[i].0 && '\n' !in q.prefixes[i].1) &&
    '\n' !in q.r2s.operator && '\n' !in q.r2s.name && '\n' !in q.aggregationFunction &&
    (forall i :: 0 <= i < |q.projectionVariables| ==> '\n' !in q.projectionVariables[i]) &&
    (forall i :: 0 <= i < |q.aggregationThingInContext| ==> '\n' !in q.aggregationThingInContext[i]) &&
    (forall i :: 0 <= i < |q.s2r| ==> '\n' !in q.s2r[i].windowName && '\n' !in q.s2r[i].streamName)
  }

  lemma {:induction false} JoinAvoids(parts: seq<string>, sep: string, c: char)
    requires c !in sep && forall i :: 0 <= i < |parts| ==> c !in parts[i]
    ensures c !in Join(parts, sep)
    decreases |parts|
  {
    if |parts| > 1 {
      JoinAvoids(parts[1..], sep, c);
    }
  }

  lemma {:induction false} ConcatAvoids(parts: seq<string>, c: char)
    requires forall i :: 0 <= i < |parts| ==> c !in parts[i]
    ensures c !in Concat(parts)
    decreases |parts|
  {
    if parts != [] {
      ConcatAvoids(parts[1..], c);
    }
  }

  lemma IntTextAvoidsNewline(x: int)
    ensures '\n' !in IntText(x)
  {
    var s := IntText(x);
    forall i | 0 <= i < |s| ensures s[i] != '\n' {
    }
  }

  lemma ToUpperAvoidsNewline(s: string)
    requires '\n' !in s
    ensures '\n' !in ToUpper(s)
  {
    var u := ToUpper(s);
    forall i | 0 <= i < |u| ensures u[i] != '\n' {
      assert s[i] in s;
    }
  }

  lemma {:induction false} ShortenAvoidsNewline(iri: string, ps: PrefixList)
    requires '\n' !in iri
    requires forall i :: 0 <= i < |ps| ==> '\n' !in ps[i].0
    ensures '\n' !in Shorten(iri, ps)
    decreases |ps|
  {
    if ps != [] {
      if IsPrefix(ps[0].1, iri) {
        var rest := iri[|ps[0].1|..];
        forall k | 0 <= k < |rest| ensures rest[k] != '\n' {
          assert rest[k] == iri[|ps[0].1| + k];
        }
      } else {
        ShortenAvoidsNewline(iri, ps[1..]);
      }
    }
  }

  lemma WindowLineAvoidsNewline(w: Window, ps: PrefixList)
    requires '\n' !in w.windowName && '\n' !in w.streamName
    requires forall i :: 0 <= i < |ps| ==> '\n' !in ps[i].0
    ensures '\n' !in WindowLine(w, ps)
  {
    ShortenAvoidsNewline(w.windowName, ps);
    ShortenAvoidsNewline(w.streamName, ps);
    WindowDeclarationAvoidsNewline(Shorten(w.windowName, ps), Shorten(w.streamName, ps), w.width, w.slide);
  }

  lemma WindowDeclarationAvoidsNewline(window: string, stream: string, width: int, slide: int)
    requires '\n' !in window && '\n' !in stream
    ensures '\n' !in WindowDeclaration(window, stream, width, slide)
  {
    IntTextAvoidsNewline(width);
    IntTextAvoidsNewline(slide);
  }

  lemma SelectLineAvoidsNewline(q: ParsedQuery)
    requires SingleLineFields(q)
    ensures '\n' !in SelectLine(q)
  {
    if HasAggregate(q) {
      var items := SpacedAggregateItems(ToUpper(q.aggregationFunction), q.aggregationThingInContext, q.projectionVariables);
      ToUpperAvoidsNewline(q.aggregationFunction);
      forall i | 0 <= i < |items| ensures '\n' !in items[i] {
        var alias := Alias(q.projectionVariables, i);
        if !(i < |q.projectionVariables| && q.projectionVariables[i] != "") {
          IntTextAvoidsNewline(i);
          assert IntText(i) == NatText(i);
        }
      }
      ConcatAvoids(items, '\n');
    } else {
      JoinAvoids(VariableItems(q.projectionVariables), " ", '\n');
    }
  }

  lemma HeaderLinesAvoidNewline(q: ParsedQuery)
    requires SingleLineFields(q)
    ensures forall i :: 0 <= i < |HeaderLines(q)| ==> '\n' !in HeaderLines(q)[i]
  {
    var ps := q.prefixes;
    var prefixLines, windowLines := PrefixLines(ps), WindowLines(q.s2r, ps);
    var middle := [RegisterLine(q.r2s), SelectLine(q)];
    assert LinesAvoid(middle, '\n') by {
      SelectLineAvoidsNewline(q);
    }
    assert LinesAvoid(prefixLines, '\n');
    assert LinesAvoid(windowLines, '\n') by {
      WindowLinesAvoidNewline(q);
    }
    LinesAvoidAppend(prefixLines, middle, '\n');
    LinesAvoidAppend(prefixLines + middle, windowLines, '\n');
  }

  predicate LinesAvoid(lines: seq<string>, c: char) {
    forall i :: 0 <= i < |lines| ==> c !in lines[i]
  }

  lemma LinesAvoidAppend(a: seq<string>, b: seq<string>, c: char)
    requires LinesAvoid(a, c) && LinesAvoid(b, c)
    ensures LinesAvoid(a + b, c)
  {
    forall i | 0 <= i < |a + b| ensures c !in (a + b)[i] {
      if i >= |a| {
        assert (a + b)[i] == b[i - |a|];
      }
    }
  }

  lemma WindowLinesAvoidNewline(q: ParsedQuery)
    requires SingleLineFields(q)
    ensures LinesAvoid(WindowLines(q.s2r, q.prefixes), '\n')
  {
    var windowLines := WindowLines(q.s2r, q.prefixes);
    forall k | 0 <= k < |windowLines| ensures '\n' !in windowLines[k] {
      WindowLineAvoidsNewline(q.s2r[k], q.prefixes);
    }
  }

  /**
   * Splitting the printed text at its line breaks gives back, in order, one PREFIX line per
   * prefix, the REGISTER line, the SELECT line, one FROM NAMED WINDOW line per window and
   * `WHERE {`, whatever the body holds.
   */
  lemma SerializedLineStructure(q: ParsedQuery)
    requires SingleLineFields(q)
    requires Serialized(q).Success?
    ensures var lines, np, nw := Split(Serialized(q).value, '\n'), |q.prefixes|, |q.s2r|;
            |lines| >= np + nw + 3 &&
            (forall i :: 0 <= i < np ==> lines[i] == "PREFIX " + q.prefixes[i].0 + ": <" + q.prefixes[i].1 + ">") &&
            lines[np] == RegisterLine(q.r2s) &&
            lines[np + 1] == SelectLine(q) &&
            (forall k :: 0 <= k < nw ==> lines[np + 2 + k] == WindowLine(q.s2r[k], q.prefixes)) &&
            lines[np + nw + 2] == "WHERE {"
  {
    var head := HeaderLines(q) + ["WHERE {"];
    SerializedSplit(q);
    var lines := Split(Serialized(q).value, '\n');
    forall i | 0 <= i < |head| ensures lines[i] == head[i] {
      assert lines[..|head|][i] == lines[i];
    }
    HeaderLinesAt(q);
  }

  /** The header lines and `WHERE {` come back from splitting the printed text. */
  lemma SerializedSplit(q: ParsedQuery)
    requires SingleLineFields(q)
    requires Serialized(q).Success?
    ensures |Split(Serialized(q).value, '\n')| >= |HeaderLines(q)| + 1
    ensures Split(Serialized(q).value, '\n')[..|HeaderLines(q)| + 1] == HeaderLines(q) + ["WHERE {"]
  {
    var body := PrintedWhereBody(q.sparql).value;
    var head := HeaderLines(q) + ["WHERE {"];
    HeaderLinesAvoidNewline(q);
    SplitJoinPrefix(head, [body, "}"], '\n');
    assert head + [body, "}"] == HeaderLines(q) + ["WHERE {", body, "}"];
  }

  /** Where each kind of header line sits. */
  lemma HeaderLinesAt(q: ParsedQuery)
    ensures var h, np, nw := HeaderLines(q), |q.prefixes|, |q.s2r|;
            |h| == np + nw + 2 &&
            (forall i :: 0 <= i < np ==> h[i] == PrefixLine(q.prefixes[i])) &&
            h[np] == RegisterLine(q.r2s) && h[np + 1] == SelectLine(q) &&
            (forall k :: 0 <= k < nw ==> h[np + 2 + k] == WindowLine(q.s2r[k], q.prefixes))
  {
  }

  /**
   * Without the aggregate form, the SELECT line is `SELECT ` followed by the projection
   * variables, each with its `?`, separated by single spaces: splitting at the spaces gives
   * them back in order.
   */
  lemma SelectVariablesRecoverable(q: ParsedQuery)
    requires !HasAggregate(q) && |q.projectionVariables| >= 1
    requires forall i :: 0 <= i < |q.projectionVariables| ==> ' ' !in q.projectionVariables[i]
    ensures |SelectLine(q)| >= 7 && SelectLine(q)[..7] == "SELECT "
    ensures Split(SelectLine(q)[7..], ' ') == VariableItems(q.projectionVariables)
  {
    var items := VariableItems(q.projectionVariables);
    forall i | 0 <= i < |items| ensures ' ' !in items[i] {
      assert items[i] == "?" + q.projectionVariables[i];
    }
    SplitJoin(items, ' ');
    assert SelectLine(q)[7..] == Join(items, " ");
  }

  /**
   * The aggregate form prints one ` (FUNC(?thing) AS ?alias)` per context variable, in order,
   * where the alias is the projection variable at the same position, or `agg_i` when that
   * variable is empty.
   */
  lemma SelectAggregateItems(q: ParsedQuery, i: nat)
    requires HasAggregate(q) && i < |q.aggregationThingInContext|
    ensures SpacedAggregateItems(ToUpper(q.aggregationFunction), q.aggregationThingInContext, q.projectionVariables)[i] ==
            " (" + ToUpper(q.aggregationFunction) + "(?" + q.aggregationThingInContext[i] + ") AS ?" +
            (if q.projectionVariables[i] != "" then q.projectionVariables[i] else "agg_" + NatText(i)) + ")"
  {
  }
}
