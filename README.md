# hive-thought-rewriter core, in Dafny

This project models the three decision components of hive-thought-rewriter, a toolkit that
rewrites and combines RSP-QL continuous queries:

- **The query relation classifier** (`QueryRelationClassifier`). It compares the basic graph
  patterns (BGPs) of two SPARQL queries and answers `JOIN`, `UNION` or `CARTESIAN`. It tries
  four rules in a fixed order:
  1. A shared variable name gives `JOIN`. The exception is a shared variable that semantic-binding
     analysis finds anchored to disjoint entities in the two queries.
  2. Otherwise, shared subject/object constants give `JOIN`, after ontology normalisation.
  3. Otherwise, shared predicates give `UNION`.
  4. Otherwise the answer is `CARTESIAN`.

  Modules: `RelationClassifier` (definitions, and the source's loops as methods proved equal to
  them) and `RelationProperties` (what enters a semantic context, symmetry, and the unit tests'
  examples).
- **The query combiner** (`QueryCombiner`). This is a class holding a list of query texts, filled
  by `AddQuery` and emptied by `ClearQueries`. Its `Combine` step merges the parsed queries:
  - it takes the first query's REGISTER clause;
  - it merges the prefixes, and the last writer wins;
  - it keeps the first window definition per 4-tuple key, in order;
  - it takes the first-seen union of the projection variables;
  - it adopts an aggregation only when exactly one distinct function is in use;
  - it picks one of three body shapes: a JOIN inside one window, a UNION inside one window, or
    a UNION of each query's own window.

  `ParsedToString` prints a query line by line, and `ShortenIri` abbreviates IRIs with the
  prefixes. Modules:
  - `RspQuery`: the parsed-query records;
  - `PrefixMap`: the insertion-ordered prefix map and IRI shortening;
  - `Sequences`: first-seen deduplication;
  - `Combination`: what `combine` computes, as functions;
  - `CombinationProperties`: the merge and shape properties;
  - `Serialization`: what `ParsedToString` prints, and reading it back;
  - `QueryCombining`: the class, and the loops of `combine`, `ParsedToString` and `shortenIri`
    as methods proved to compute those functions.
- **The chunk rewriter** (`RewriteChunkQuery`). It gives a query new window parameters. It
  replaces the first `STEP <digits>` with the new slide, then the first `RANGE <digits>` with
  the new width. Module `ChunkRewriting` holds the non-global regular-expression replacement,
  written out as greedy character runs. Module `ChunkRewritingProperties` holds what that
  replacement means and the rewriter's properties.

Shared modules:
- `Wrappers`: `Option`/`Result`;
- `Text`: decimal text of numbers, `join`, `split`, ASCII upper case.

External inputs become parameters:
- a SPARQL query is given to the classifier as the BGP that sparqljs would extract from it;
  a query that does not parse is the empty BGP;
- the RSP-QL parser is the function the combiner is constructed with;
- what the combiner's regular expressions read out of a query body is given as a `BodyView`
  value, and what the serialiser reads as a `WhereView` value.

## Model

| member | source | states |
|---|---|---|
| RelationClassifier.NormalizeWithOntology | src/services/QueryRelationClassifier.ts:186-194 | A term starting with `?` is returned unchanged. Otherwise the term maps to its ontology label when that label is present and non-empty, and to itself when not. |
| RelationClassifier.NormalizeWithoutOntology | src/services/QueryRelationClassifier.ts:193 | With the default empty ontology every term normalises to itself. |
| RelationClassifier.NormalizeBgp | src/services/QueryRelationClassifier.ts:68-77 | The normalised BGP has one triple per input triple, each position normalised, in order. |
| RelationClassifier.AreContextsDifferent | src/services/QueryRelationClassifier.ts:276-285 | False whenever either context is empty. Otherwise true iff the two contexts are disjoint. |
| RelationClassifier.GetVariableSemanticContext | src/services/QueryRelationClassifier.ts:230-268 | The loop over the triples that mention the variable (with its nested sibling scan) returns exactly `SemanticContext`. |
| RelationClassifier.CollectSiblingAnchors | src/services/QueryRelationClassifier.ts:242-247 | The nested scan collects exactly the normalised constant objects of `relatesToProperty` triples on the given subject. |
| RelationClassifier.CheckSemanticVariableBinding | src/services/QueryRelationClassifier.ts:205-221 | The early-return loop answers true iff some listed shared variable has differing contexts in the two BGPs. |
| RelationClassifier.CollectRawVariables | src/services/QueryRelationClassifier.ts:49-50 | The collected list holds exactly the BGP's `?` terms from every position, each once. |
| RelationClassifier.CollectConstants | src/services/QueryRelationClassifier.ts:80-91 | The forEach loop collects exactly the non-variable subjects and objects; predicates are never added. |
| RelationClassifier.SharedRawVariables | src/services/QueryRelationClassifier.ts:49-51 | The list holds exactly the variable names occurring in both BGPs. |
| RelationClassifier.DivergenceOverList | src/services/QueryRelationClassifier.ts:51-59 | Scanning the shared-variable list for a diverging variable is the same as asking whether any shared variable diverges. |
| RelationClassifier.DecideRelation | src/services/QueryRelationClassifier.ts:45-108 | The method as the source runs it returns `Classification`. JOIN comes from a shared, non-diverging variable, then from shared normalised constants; UNION from shared normalised predicates; CARTESIAN otherwise. |
| RelationClassifier.DecideByConstants | src/services/QueryRelationClassifier.ts:67-107 | The part after the variable step equals the constant cascade: constants, then predicates, then CARTESIAN. |
| RelationClassifier.QueryRelationClassifier.constructor | src/services/QueryRelationClassifier.ts:31-34 | The two queries are stored as given. |
| RelationClassifier.QueryRelationClassifier.DecideInstanceRelation | src/services/QueryRelationClassifier.ts:114-116 | The instance form gives the same result as `decideRelation` on the two stored queries. |
| RelationProperties.SiblingAnchorsMembers | src/services/QueryRelationClassifier.ts:242-247 | An entity is a sibling anchor iff some triple on that subject has raw predicate `relatesToProperty` and a constant object normalising to it. |
| RelationProperties.ContextUpToMembers | src/services/QueryRelationClassifier.ts:233-265 | An entity is in the context built from the first n triples iff it enters at one of them by one of the two routes. |
| RelationProperties.TripleContextRoutes | src/services/QueryRelationClassifier.ts:236-264 | What one mentioning triple adds is exactly what the sibling route and the entity-binding-predicate route allow. |
| RelationProperties.ContextRoutes | src/services/QueryRelationClassifier.ts:230-268 | An entity is in a variable's context iff it entered at some triple through a sibling `relatesToProperty` triple or through one of the four entity-binding predicates. |
| RelationProperties.ContextElementsAreNormalisedConstants | src/services/QueryRelationClassifier.ts:230-268 | Every context element is the ontology normalisation of a non-variable subject or object of the BGP. |
| RelationProperties.UnmentionedVariableHasNoContext | src/services/QueryRelationClassifier.ts:233-234 | A variable no triple mentions has an empty context. |
| RelationProperties.ClassificationSymmetric | src/services/QueryRelationClassifier.ts:45-108 | Swapping the two queries does not change the relation. |
| RelationProperties.EmptyBgpIsCartesian | src/services/QueryRelationClassifier.test.ts:393-411 | An empty BGP (such as one from a malformed query) on either side gives CARTESIAN, whatever the other side is. |
| RelationProperties.PredicatesAreNotConstants | src/services/QueryRelationClassifier.ts:79-91 | BGPs that agree on subjects and objects have the same constant sets, whatever their predicates are. |
| RelationProperties.UnanchoredSharedVariableJoins | src/services/QueryRelationClassifier.ts:53-64 | With a shared variable, and no shared variable having both contexts non-empty, the result is JOIN. |
| RelationProperties.OneSharedVariable | src/services/QueryRelationClassifier.ts:53-65 | With exactly one shared variable, the result is JOIN unless that variable diverges, and otherwise the constant cascade. |
| RelationProperties.DeviceAnchoring | src/services/QueryRelationClassifier.ts:230-268 | Two device queries share a value variable. They give JOIN iff the ontology normalises the two devices to the same label, and UNION otherwise. |
| RelationProperties.WearableVersusSmartphone | src/services/QueryRelationClassifier.test.ts:416-437 | The wearable and smartphone queries give UNION without an ontology. |
| RelationProperties.WearableVersusSmartphoneAsPerson | src/services/QueryRelationClassifier.test.ts:439-465 | The same queries give JOIN with the ontology that labels both devices `PersonX`. |
| RelationProperties.SamePredicateDifferentVariablesGiveUnion | src/services/QueryRelationClassifier.test.ts:212-229 | `?x ex:knows ?y` against `?a ex:knows ?b` gives UNION. |
| RelationProperties.SharedUnanchoredVariableGivesJoin | src/services/QueryRelationClassifier.test.ts:467-483 | `?person ex:name "Alice"` against `?person ex:age 25` gives JOIN. |
| QueryCombining.QueryCombiner.constructor | src/rewriter/QueryCombiner.ts:13-16 | A new combiner has no queries and keeps the parser it is given. |
| QueryCombining.QueryCombiner.AddQuery | src/rewriter/QueryCombiner.ts:22-24 | The query is appended at the end, and the earlier queries keep their places. |
| QueryCombining.QueryCombiner.ClearQueries | src/rewriter/QueryCombiner.ts:29-31 | The query list becomes empty. |
| QueryCombining.QueryCombiner.CombineQueries | src/rewriter/QueryCombiner.ts:36-47 | Fails with "no queries to combine" iff the list is empty. |
| QueryCombining.QueryCombiner.ParsedQueries | src/rewriter/QueryCombiner.ts:56 | One parsed query per stored text, in order, each the parser's output on that text. |
| QueryCombining.QueryCombiner.Combine | src/rewriter/QueryCombiner.ts:55-204 | Needs at least one query, because the first is read unconditionally. Returns `Combined` of the parsed queries: the first query's r2s, the merged prefixes, windows, projection and aggregation, and the body shape the two predicates pick (or the error a missing WHERE clause, window block or window name throws). |
| QueryCombining.MergePrefixes | src/rewriter/QueryCombiner.ts:61-63 | The nested loop of `set` calls computes `PutAll` of every query's prefixes, in query order, on an empty map. |
| QueryCombining.MergeWindows | src/rewriter/QueryCombiner.ts:65-75 | The key-set loop computes the first-occurrence deduplication of all windows by their `name|stream|width|slide` key. |
| QueryCombining.MergeNames | src/rewriter/QueryCombiner.ts:78-84 | The includes-guarded push loop computes the first-seen union of the lists. |
| QueryCombining.MergeAggregation | src/rewriter/QueryCombiner.ts:86-96 | The aggregation function and context list are the merged ones defined in `Combination`. |
| QueryCombining.QueryCombiner.ParsedToString | src/rewriter/QueryCombiner.ts:213-288 | The line-by-line printer returns `Serialized`: the header lines, `WHERE {`, the printed body and `}`, joined by newlines. The body of a combined query is printed after its `graph`-plus-white-space occurrences, in any letter case, are replaced by `WINDOW `. A missing WHERE clause is an error. |
| QueryCombining.PrefixDeclarations | src/rewriter/QueryCombiner.ts:216-219 | One `PREFIX p: <iri>` line per prefix, in map order. |
| QueryCombining.SelectClause | src/rewriter/QueryCombiner.ts:225-241 | Gives the aggregate SELECT form when there is a function and the context and projection lists have equal length, and the bare variables otherwise. |
| QueryCombining.AggregateSelections | src/rewriter/QueryCombiner.ts:233-237 | The loop appends ` (FUNC(?thing) AS ?alias)` per context variable, in order. |
| QueryCombining.QueryCombiner.WindowDeclarations | src/rewriter/QueryCombiner.ts:243-249 | One `FROM NAMED WINDOW … ON STREAM … [RANGE w STEP s]` line per window, in order, with both names shortened. |
| QueryCombining.QueryCombiner.ShortenIri | src/rewriter/QueryCombiner.ts:298-305 | The early-return loop computes `Shorten`: the first matching namespace, or the bracketed IRI. |
| Combination.UsedAggregations | src/rewriter/QueryCombiner.ts:86 | A function is listed iff it is non-empty and some query uses it (`filter(Boolean)`). |
| Combination.SetsEqualIsEquality | src/rewriter/QueryCombiner.ts:118-119 | The test "same size and every element of one in the other" is exactly set equality. |
| Combination.Collect | src/rewriter/QueryCombiner.ts:149-164 | Mapping with a throwing step succeeds iff every step does. The values are kept in order, and a failure is the first step's failure. |
| Combination.CombinedBody | src/rewriter/QueryCombiner.ts:134-191 | With both predicates, a JOIN in the first query's (shortened) window over every query's graph pattern. With only the window predicate, a UNION in that window of each query's window content. Otherwise a UNION of each query's own (window, content), one per query, in input order. Each UNION shape fails iff some query lacks the block it needs. |
| Combination.Alias | src/rewriter/QueryCombiner.ts:195 | The projection variable at the same position when it is non-empty, and `agg_i` otherwise. |
| Combination.AggregateItems | src/rewriter/QueryCombiner.ts:194-197 | One `(func(?thing) AS ?alias)` item per context variable, in order. |
| CombinationProperties.AliasesDistinct | src/rewriter/QueryCombiner.ts:194-197 | Two aggregate items get different aliases when the named projection variables are pairwise different and none starts with `agg_`; two `agg_i` defaults never collide. |
| CombinationProperties.WindowMergeKeys | src/rewriter/QueryCombiner.ts:65-75 | The merged windows have pairwise distinct keys, and every input window's key is among them. Each merged window is the first input window with its key, and they follow first-occurrence order. |
| CombinationProperties.WindowMergeTuples | src/rewriter/QueryCombiner.ts:65-75 | When no window or stream name contains a bar character, the merged windows are exactly the input windows, each once. |
| CombinationProperties.DedupPlainWindows | src/rewriter/QueryCombiner.ts:69-73 | Deduplicating bar-free windows by the string key keeps each distinct window once, and nothing else. |
| CombinationProperties.ProjectionMerge | src/rewriter/QueryCombiner.ts:78-84 | The merged projection is duplicate-free, holds exactly the variables of every query's projection, and follows first-seen order. |
| CombinationProperties.AggregationAdoption | src/rewriter/QueryCombiner.ts:86-96 | A function is adopted iff exactly one distinct non-empty function is in use. Its context list is then the first-seen union of all context lists, and empty otherwise. |
| CombinationProperties.AllSameWindowKeepsOneWindow | src/rewriter/QueryCombiner.ts:65-107 | When every query has the same single window, the combined query declares just that window. |
| CombinationProperties.StrictIsEquality | src/rewriter/QueryCombiner.ts:116-123 | Strict matching holds iff every query's subject set equals the first query's. |
| CombinationProperties.StrictImpliesLoose | src/rewriter/QueryCombiner.ts:116-131 | With a non-empty first subject set, strict matching implies loose matching. |
| CombinationProperties.LooseNeedsBaseSubjects | src/rewriter/QueryCombiner.ts:124-131 | Loose matching fails when the first query has no graph subjects. |
| CombinationProperties.StrictVersusLoose | src/rewriter/QueryCombiner.ts:114-165 | Two queries share one window and have subjects {?s, ?p} and {?s}. Loose matching gives the JOIN body; strict matching gives the single-window UNION. |
| PrefixMap.Lookup | src/rewriter/QueryCombiner.ts:62 | A lookup finds nothing iff the prefix is not a label of the map. |
| PrefixMap.Put | src/rewriter/QueryCombiner.ts:62 | `set` keeps the labels' order: a known prefix stays in place, and a new one goes last. |
| PrefixMap.PutLookup | src/rewriter/QueryCombiner.ts:62 | After `set`, the prefix maps to the new namespace and every other prefix is unchanged. |
| PrefixMap.PutUnique | src/rewriter/QueryCombiner.ts:62 | `set` keeps labels unique. |
| PrefixMap.MergeLastWriterWins | src/rewriter/QueryCombiner.ts:61-63 | After merging, each prefix maps to the namespace of the last entry that sets it. |
| PrefixMap.MergeLabels | src/rewriter/QueryCombiner.ts:61-63 | The merged labels are the entries' labels, each once, in first-appearance order. |
| PrefixMap.ShortenCases | src/rewriter/QueryCombiner.ts:298-305 | Gives `prefix:rest` for the first namespace that is a prefix of the IRI, with namespace + rest = IRI. Gives `<iri>` when no namespace is. |
| PrefixMap.ExpandShortForm | src/rewriter/QueryCombiner.ts:301 | Reading back `prefix:rest` through the prefix's namespace gives namespace + rest. |
| PrefixMap.ShortenRoundTrip | src/rewriter/QueryCombiner.ts:298-305 | With unique, colon-free labels, expanding a shortened IRI gives the IRI back. |
| RspQuery.WindowKeyInjective | src/rewriter/QueryCombiner.ts:69 | For bar-free window and stream names, equal keys mean equal 4-tuples, matching the source's equality test at lines 99-103. |
| RspQuery.SplitAtBar | src/rewriter/QueryCombiner.ts:69 | Two keys that agree and have bar-free first fields agree field by field. |
| Serialization.PrefixLines | src/rewriter/QueryCombiner.ts:217-219 | One PREFIX line per map entry, in order. |
| Serialization.SpacedAggregateItems | src/rewriter/QueryCombiner.ts:233-237 | One space-led aggregate item per context variable, aliased by position. |
| Serialization.WindowLines | src/rewriter/QueryCombiner.ts:244-249 | One window declaration line per window, in order. |
| Serialization.HeaderLinesAvoidNewline | src/rewriter/QueryCombiner.ts:217-249 | With single-line fields, no header line contains a line break. |
| Serialization.SerializedLineStructure | src/rewriter/QueryCombiner.ts:213-288 | Splitting the printed text at line breaks gives, in order: one PREFIX line per prefix, the REGISTER line, the SELECT line, one FROM NAMED WINDOW line per window, and `WHERE {`. |
| Serialization.ReplaceGraphIdentity | src/rewriter/QueryCombiner.ts:258 | The case-insensitive `GRAPH\s+` to `WINDOW ` rewrite leaves a text unchanged iff no `graph` in any letter case followed by white space occurs in it. |
| Serialization.GraphInWindowName | src/rewriter/QueryCombiner.ts:258 | The rewrite also hits names: `WINDOW ex:sensorGraph {` becomes `WINDOW ex:sensorWINDOW {`. |
| Serialization.SerializedSplit | src/rewriter/QueryCombiner.ts:287 | The header lines and `WHERE {` are recovered by splitting the joined text. |
| Serialization.HeaderLinesAt | src/rewriter/QueryCombiner.ts:216-249 | The position of each kind of header line. |
| Serialization.SelectVariablesRecoverable | src/rewriter/QueryCombiner.ts:238-240 | Without the aggregate form, the SELECT line is `SELECT ` followed by the projection variables, recovered in order by splitting at spaces. |
| Serialization.SelectAggregateItems | src/rewriter/QueryCombiner.ts:231-237 | The aggregate form prints ` (FUNC(?thing) AS ?alias)` per context variable, with the function upper-cased and the alias defaulting to `agg_i`. |
| Sequences.DedupByKeys | src/rewriter/QueryCombiner.ts:66-75 | Key-based first-occurrence deduplication leaves distinct keys and keeps every input key. |
| Sequences.DedupByFirstOccurrences | src/rewriter/QueryCombiner.ts:66-75 | Each kept element is the input's first element with its key, in first-occurrence order. |
| Sequences.DedupByDistinct | src/rewriter/QueryCombiner.ts:66-75 | An input with distinct keys is its own deduplication. |
| Sequences.DedupBySnoc | src/rewriter/QueryCombiner.ts:70-73 | One more element extends the result iff its key was not seen. |
| Sequences.DedupSnoc | src/rewriter/QueryCombiner.ts:80-82 | One more value extends the first-seen union iff it is not already there. |
| Sequences.DedupElements | src/rewriter/QueryCombiner.ts:78-84 | The first-seen union holds exactly the input's values, each once. |
| Sequences.FlattenMembers | src/rewriter/QueryCombiner.ts:61-68 | An element of the concatenated lists comes from one of the lists, and every list's elements are in it. |
| Text.NatText | src/rewriter/QueryCombiner.ts:195 | Decimal text of a natural number: at least one digit, no leading zero. |
| Text.NatTextRoundTrip | src/rewriter/QueryCombiner.ts:195 | Reading the decimal text back gives the number. |
| Text.IntText | src/rewriter/RewriteChunkQuery.ts:27-28 | Text of an integer: digits, with a leading `-` iff the integer is negative. |
| Text.IntTextInjective | src/rewriter/QueryCombiner.ts:69 | Different integers print differently. |
| Text.ToUpper | src/rewriter/QueryCombiner.ts:232 | Same length, and each letter a-z upper-cased. |
| Text.SplitJoin | src/rewriter/QueryCombiner.ts:287 | Joining separator-free pieces and splitting again gives the pieces back. |
| ChunkRewriting.RewriteChunkQuery.constructor | src/rewriter/RewriteChunkQuery.ts:14-17 | The first argument is stored as the new slide, and the second as the new width. |
| Text.RunEnd | src/rewriter/RewriteChunkQuery.ts:27 | The greedy run: every character up to the end satisfies the class, and the next one does not. |
| ChunkRewriting.MatchEnd | src/rewriter/RewriteChunkQuery.ts:27-28 | A match covers at least the keyword and one more character, and ends inside the text. |
| ChunkRewriting.FirstMatch | src/rewriter/RewriteChunkQuery.ts:27-28 | The reported match is a match, and nothing matches before it. With no report, nothing matches anywhere. |
| ChunkRewritingProperties.MatchEndMeaning | src/rewriter/RewriteChunkQuery.ts:27-28 | `MatchEnd` reports a match at i iff the text there is the keyword, at least one white-space character, and a maximal run of at least one digit. |
| ChunkRewritingProperties.ReplaceFirstReplacesLeftmost | src/rewriter/RewriteChunkQuery.ts:27-28 | With a leftmost match [i, e), the replacement takes its place and the rest of the text is kept. |
| ChunkRewritingProperties.ReplaceFirstWithoutMatch | src/rewriter/RewriteChunkQuery.ts:27-28 | Without any match the text is returned unchanged. |
| ChunkRewritingProperties.SettingMatches | src/rewriter/RewriteChunkQuery.ts:27-28 | A `kw <n>` setting with n ≥ 0, put in place of a match, is itself a match. |
| ChunkRewritingProperties.ReplaceFirstSettles | src/rewriter/RewriteChunkQuery.ts:27-28 | After replacing with a non-negative setting, the keyword's first match reads the setting. If there was no match before, there is still none. |
| ChunkRewritingProperties.ReplaceFirstIdempotent | src/rewriter/RewriteChunkQuery.ts:27-28 | Replacing a second time with the same non-negative setting changes nothing. |
| ChunkRewritingProperties.ReplaceFirstKeepsOther | src/rewriter/RewriteChunkQuery.ts:27-28 | Replacing the first match of one keyword with a non-negative setting leaves the text of the other keyword's first match as it was. This holds for keywords whose first letters do not occur in each other, such as STEP and RANGE. |
| ChunkRewritingProperties.SettledIsFixed | src/rewriter/RewriteChunkQuery.ts:27-28 | A text whose first match already reads the replacement is left unchanged. |
| ChunkRewritingProperties.RewriteSetsChunkSize | src/rewriter/RewriteChunkQuery.ts:25-30 | For a non-negative slide and width: after rewriting, the first STEP declaration reads `STEP <slide>` and the first RANGE declaration `RANGE <width>`, each exactly when the query had one. |
| ChunkRewritingProperties.RewriteIdempotent | src/rewriter/RewriteChunkQuery.ts:25-30 | Rewriting a rewritten query with the same non-negative values changes nothing. |
| ChunkRewritingProperties.RewriteWithoutDeclarations | src/rewriter/RewriteChunkQuery.ts:25-30 | A query with no STEP or RANGE digit match is returned unchanged. |
| ChunkRewritingProperties.RewriteExample | src/rewriter/RewriteChunkQuery.test.ts:18-33 | A rewriter built with (15, 30) turns `[RANGE 10 STEP 5]` into `[RANGE 30 STEP 15]`. |

## Left out

- Parsing is not modelled. The sparqljs call in `extractBGP`/`termToString` and the RSP-QL parser are foreign code, so the classifier takes BGPs (empty on a parse failure) and the combiner is constructed with a parser function. `RSPQLParser` is not part of this model.
- Regular-expression surgery on query bodies is not modelled. This covers subject extraction, GRAPH content, the `GRAPH`→`WINDOW` replacement inside `combine` and WHERE/WINDOW extraction. Each query carries what those expressions find, as `BodyView`/`WhereView` values, and the "missing WHERE clause / WINDOW block / WINDOW name" throws are kept as error results.
- QueryCombining.QueryCombiner.ParsedToString: on a combined query, the WHERE-body extraction, the single-window-block test and the re-split at `UNION` are modelled by their outcome, while the `GRAPH\s+` rewrite before them is modelled (`Serialization.ReplaceGraph`). For a JOIN or single-window UNION body the model prints the rewritten body as it is. For a cross-window UNION it prints the rewritten blocks inside `{ … }`, joined by ` UNION `, without re-splitting. The WHERE-body extraction takes the leftmost `where` in any letter case that is followed by optional white space and `{`. This is exact when the SELECT text contains no such `where` (it cannot when none of the aggregation function name, the context variables and the projection variables contains `{`), when no shortened window name starts with `{`, and no window name or window content of a cross-window UNION contains `union` in any letter case; otherwise the source splits inside a block and prints something else.
- RelationClassifier.NormalizeWithOntology: the ontology is modelled as a map of its own keys only. In the source it is a plain JavaScript object, so a constant that names an inherited `Object.prototype` member (`toString`, `constructor`, `valueOf`, `hasOwnProperty`, `__proto__` and the like) finds that member, even with the default empty ontology. The member is truthy and not a string, so `startsWith` in `decideRelation` (QueryRelationClassifier.ts:84-91) throws where the model returns a classification. That case is not modelled.
- ChunkRewritingProperties.RewriteSetsChunkSize: only for non-negative slide and width, for the reason given for RewriteIdempotent.
- Text.ToUpper: upper-cases only ASCII letters; JavaScript's full Unicode case mapping is not modelled.
- Text.IntText: window widths, slides and rewriter values are integers. JavaScript numbers with fractions, exponents or `NaN` print differently and are not modelled.
- ChunkRewritingProperties.RewriteIdempotent: only for non-negative slide and width. A negative value prints as `-n`, which the pattern `\d+` does not match, so the source is then not idempotent either.
- RspQuery.WindowKeyInjective: the source's string key joins fields with `|`. The key and the 4-tuple equality agree only when no window or stream name contains `|`, so this lemma and CombinationProperties.WindowMergeTuples assume that.
- ChunkRewritingProperties.RewriteExample: states the rewrite of the window fragment `[RANGE 10 STEP 5]` rather than of the whole multi-line query in the unit test. The other expectations of that test (the REGISTER, SELECT and WHERE lines are kept) follow from ReplaceFirstReplacesLeftmost, which keeps all text outside the match.
- `combineQueries` is unfinished in the source. Only its empty-list failure is modelled.
- `Combiner.ts` (a logging wrapper that returns an empty string), the empty `QueryDecomposer.ts`, the example and debug console scripts, and all logging and I/O are not part of this model.
