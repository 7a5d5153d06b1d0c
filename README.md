# A verified model of the read-only SQL gate of PropertyTaxAI

PropertyTaxAI is a Django web application for running SQL queries over county property-tax
tables, plus an ingest script that loads the county's data files into PostgreSQL. This
project models in Dafny the parts of it that decide what reaches the database and how
results come back:

- `sql_gate.dfy`: the helpers of `web/dbqueryapp/utils.py`:
  - `clean_sql_input`, the input normaliser;
  - `validate_sql_with_sqlglot`, the read-only gate. It checks for blank input, a parse
    failure, a mutating node anywhere in the tree, a depth above `MAX_QUERY_DEPTH`, and a
    leading keyword other than SELECT or WITH, in that order;
  - `format_sql_rows` and `generate_export_sql`, the `INSERT … VALUES` export text.
- `query_depth.dfy`: `QueryDepthAnalyzer` (`web/dbqueryapp/query_depth.py`). It computes
  the structural depth of the scope tree and runs the CTE text heuristic. The heuristic
  finds the first WITH, finds the end of the CTE list with a parenthesis counter, splits
  on top-level commas, splits each definition at AS, builds the dependency graph, and
  takes the longest chain with a memoised depth-first search. The search has no cycle
  guard. When CTEs refer to each other, the source recurses until Python gives up, and the
  analyzer falls back to the structural depth. The model detects the re-entry of a search
  still in progress and returns that same fallback.
- `errors.dfy`: `map_exception_to_response` (`web/dbqueryapp/errors.py`). It is a
  first-match table from exception class to HTTP status, message and log level. The base
  classes of the exception classes are made explicit, and a flag says whether the psycopg
  driver imported.
- `views.dfy`: the helpers of `web/dbqueryapp/views.py`:
  - the `RequestQueryData` dict round trip;
  - the Decimal-to-string conversion of results;
  - the session store, as a `Session` class whose method updates its fields;
  - the guards of `export_results`;
  - the `home` view, which executes custom SQL only after the gate accepts its cleaned
    text. The database is a `Database` class that records every statement sent to it.
- `ingest.dfy`: parts of `ingest/database.py`:
  - `get_table_name`;
  - the index columns chosen by `prepare_dataframe_for_db`;
  - the line scan of `retieve_primary_keys`, which fills the module-level
    `suggested_keys` dict. That dict is the field of a `KeyRegistry` class.
- Support files:
  - `pystr.dfy`: the Python `str` and `re` operations the code relies on;
  - `sql_tree.dfy`: the parsed tree and the constants of `web/dbqueryapp/constants.py`;
  - `wrappers.dfy`: `Option`.

Foreign code is passed in as parameters:

| foreign code | model parameter |
|---|---|
| sqlglot's `parse_one` | `Env.parse` |
| `Expression.sql(comments=False)` | `Env.render` |
| `Expression.sql(pretty=True)` | `pretty` |
| the scope lookups and `traverse` | a `ScopeSource` value |
| the `MAX_QUERY_DEPTH` setting | `Env.maxDepth` (default 10) |
| the UUID of `generate_unique_query_key` | `newKey` |
| the database cursor | the `answer` function of `Database` |
| the codebook PDF | its pages, as sequences of text lines |

Modelling choices:

- **Exception classes.** `isinstance` is the closure of the base-class link. psycopg's
  classes and Django's database classes are separate families, as the two libraries
  define them.
- **Tree walk.** `Expression.walk()` is taken in pre-order. The gate only asks
  whether some node is disallowed, and the answer does not depend on the visiting order.
- **Dicts.** Python dicts are lists of (key, value) pairs in insertion order. Lookups read
  the first pair with the key. That matches Python as long as no key occurs twice:
  `Views.UniqueKeys` is that invariant, and `Views.DictSetUnique` proves assignment keeps
  it. A result row (`SqlGate.Row`) arrives already built by `retrieve_cursor_as_dict`,
  which is not part of this model. It is taken to have distinct column names, as any dict
  has.

## Model

| member | source | states |
|---|---|---|
| PyStr.Strip | web/dbqueryapp/utils.py:79 | `strip()` returns the slice after the leading whitespace, only whitespace follows it, and it is empty exactly for all-whitespace text |
| PyStr.StripChars | web/dbqueryapp/utils.py:79 | each character of the trimmed text is the input's character at the same place after the leading whitespace |
| PyStr.StripIdempotent | web/dbqueryapp/utils.py:79 | trimming twice is trimming once |
| PyStr.StripOfStripped | web/dbqueryapp/query_depth.py:115-116 | text with no whitespace at either end is left as it is |
| PyStr.Upper | web/dbqueryapp/utils.py:129 | no lower-case ASCII letter is left and every other character is kept, so the keyword test reads SELECT and WITH in any case |
| PyStr.UpperIdempotent | web/dbqueryapp/utils.py:129 | upper-casing twice is upper-casing once |
| PyStr.FindWord | web/dbqueryapp/query_depth.py:79 | the leftmost position at or after `from` where `\bW\b` matches, case-folded or not, and None only when no position matches |
| PyStr.HasWordIff | web/dbqueryapp/query_depth.py:141 | `re.search(rf"\b{re.escape(t)}\b", body)` succeeds exactly when the word matches at some position |
| PyStr.WordLength | web/dbqueryapp/query_depth.py:130 | the leading run of non-whitespace characters ends at whitespace or at the end |
| PyStr.Tokens | web/dbqueryapp/query_depth.py:130 | `split()` yields non-empty whitespace-free tokens and is empty exactly for all-whitespace text |
| PyStr.TokensOfWord | web/dbqueryapp/query_depth.py:130 | a word followed only by whitespace splits into that one word |
| PyStr.WordLengthAtLeast | web/dbqueryapp/query_depth.py:130 | a non-whitespace prefix lies inside the leading word |
| PyStr.Join | web/dbqueryapp/utils.py:55 | joining no parts gives the empty string and joining one part gives that part |
| PyStr.JoinAppend | web/dbqueryapp/utils.py:67 | joining one more part appends the separator and that part |
| PyStr.AppendChar | ingest/database.py:62 | reading one more character either starts a new piece (the separator) or grows the last piece, and keeps every piece free of the separator |
| PyStr.SplitOn | ingest/database.py:62 | `split(c)` never yields an empty list and no piece contains `c` |
| PyStr.SplitOnSnoc | ingest/database.py:211 | splitting text with one more character is splitting the text and then reading that character |
| PyStr.AppendCharConcat | ingest/database.py:211 | reading a character only changes the pieces after a given prefix of pieces |
| PyStr.SplitOnJoin | ingest/database.py:211 | joining the pieces of `split(c)` back with `c` gives the original text |
| PyStr.SplitOnAbsent | ingest/database.py:62 | text without the separator splits into itself alone |
| PyStr.Before | ingest/database.py:209 | `s.split(c)[0]` is a prefix of `s` without `c`, followed in `s` by `c` when it is shorter |
| PyStr.RemoveChar | ingest/database.py:211 | `replace(c, '')` leaves no `c` and never lengthens the text |
| PyStr.RemoveAll | ingest/database.py:202 | `re.sub` of a literal pattern by nothing never lengthens the text |
| PyStr.RemoveAllAbsent | ingest/database.py:202 | removing a pattern that does not occur changes nothing |
| SqlTree.KindNames | web/dbqueryapp/utils.py:117 | definition of `[op.__name__ for op in ...]`; the names it gives for DISALLOWED_OPERATIONS are stated by SqlGate.UnsafeMessageNames |
| SqlTree.IsDisallowed | web/dbqueryapp/utils.py:116 | definition of `isinstance(node, DISALLOWED_OPERATIONS)`; SqlTree.WalkFindsDisallowed states its use by the walk |
| SqlTree.ContainsDisallowed | web/dbqueryapp/utils.py:115-116 | definition of a disallowed node anywhere in the tree; SqlTree.WalkFindsDisallowed and SqlTree.SubtreeDisallowed state its meaning |
| SqlTree.FlattenMember | web/dbqueryapp/utils.py:115 | a node is in the concatenated child walks exactly when it is in one of them |
| SqlTree.Walk | web/dbqueryapp/utils.py:115 | `walk()` starts with the root |
| SqlTree.WalkVisitsSubtrees | web/dbqueryapp/utils.py:115 | the walk visits exactly the subtrees of the tree |
| SqlTree.WalkFindsDisallowed | web/dbqueryapp/utils.py:115-116 | some visited node has a disallowed kind exactly when a disallowed kind occurs anywhere in the tree |
| SqlTree.SubtreeDisallowed | web/dbqueryapp/utils.py:115-116 | a disallowed node in any subtree makes the whole tree disallowed |
| QueryDepth.ResolveScope | web/dbqueryapp/query_depth.py:38-59 | the attached scope wins, then the builder, then the reparse; scope lookup fails exactly when all three attempts fail |
| QueryDepth.DeepestScope | web/dbqueryapp/query_depth.py:62-70 | the largest parent-link count among the first `k` scopes, attained by one of them, and 0 when there are none |
| QueryDepth.MaxScopeDepth | web/dbqueryapp/query_depth.py:62-70 | the `while` loop over parent pointers inside the loop over scopes computes the deepest scope |
| QueryDepth.StructuralDepth | web/dbqueryapp/query_depth.py:62-70 | definition of the deepest scope of the root scope tree; QueryDepth.MaxScopeDepth computes it and QueryDepth.DepthAtLeastStructural bounds the result by it |
| QueryDepth.NextNonSpace | web/dbqueryapp/query_depth.py:94-96 | the skip loop stops at the first non-whitespace position or the end |
| QueryDepth.FirstListEnd | web/dbqueryapp/query_depth.py:87-99 | the first index where the counter is 0 and SELECT follows; None when no index qualifies |
| QueryDepth.CteListEnd | web/dbqueryapp/query_depth.py:85-103 | the end offset found falls inside the text and SELECT (any case) starts there |
| QueryDepth.FindCteListEnd | web/dbqueryapp/query_depth.py:85-99 | the character loop with the `paren` counter returns the first qualifying offset, or None |
| QueryDepth.RawSegments | web/dbqueryapp/query_depth.py:106-119 | splitting at top-level commas yields at least one segment |
| QueryDepth.KeepPieces | web/dbqueryapp/query_depth.py:115-121 | the kept pieces are non-empty and trimmed, and no more than the segments |
| QueryDepth.RawSegmentsJoin | web/dbqueryapp/query_depth.py:106-121 | the segments joined back with commas give the CTE list, so no text is lost |
| QueryDepth.NoTopLevelCommaOneSegment | web/dbqueryapp/query_depth.py:114 | commas inside parentheses never split a definition |
| QueryDepth.SplitTopLevel | web/dbqueryapp/query_depth.py:106-121 | the loop with `depth_p` and `buf` yields the trimmed, non-blank top-level pieces |
| QueryDepth.SplitCtes | web/dbqueryapp/query_depth.py:106-121 | definition of the top-level split; QueryDepth.KeepPieces and QueryDepth.RawSegmentsJoin state its properties |
| QueryDepth.DefOf | web/dbqueryapp/query_depth.py:127-131 | a piece without a whole-word AS (any case) is skipped; otherwise the name is a non-empty whitespace-free token and the body is trimmed |
| QueryDepth.RejoinAs | web/dbqueryapp/query_depth.py:131 | definition of `'AS'.join(parts[1:])`; QueryDepth.DefOf states that the body it yields is trimmed |
| QueryDepth.DefStep | web/dbqueryapp/query_depth.py:126-133 | one definition fails the parse exactly when it has nothing before AS or an earlier one failed; `bodies` keys stay the `names` |
| QueryDepth.Definitions | web/dbqueryapp/query_depth.py:124-133 | the keys of `bodies` are exactly the listed names |
| QueryDepth.ParseDefinitions | web/dbqueryapp/query_depth.py:124-133 | the loop appending to `names` and filling `bodies` computes the definitions table |
| QueryDepth.DefinitionsAbort | web/dbqueryapp/query_depth.py:129-130 | once a prefix of the pieces fails, the whole list fails |
| QueryDepth.DefinitionsFail | web/dbqueryapp/query_depth.py:129-130 | the definitions fail exactly when some piece has nothing before its AS |
| QueryDepth.DefinitionsNames | web/dbqueryapp/query_depth.py:132 | `names` lists the name of every defining piece, in order |
| QueryDepth.Named | web/dbqueryapp/query_depth.py:128 | the defining pieces all have a name and a body |
| QueryDepth.DependencyGraph | web/dbqueryapp/query_depth.py:136 | the graph has a node for exactly the listed names |
| QueryDepth.MentionedNames | web/dbqueryapp/query_depth.py:138-142 | the inner loop collects the other names that occur as whole words in the body |
| QueryDepth.BuildGraph | web/dbqueryapp/query_depth.py:136-142 | the loops over `bodies` and `names` give an edge `n → t` exactly when `t ≠ n` and `t` occurs as a whole word in `n`'s body |
| QueryDepth.ChainDepthUnique | web/dbqueryapp/query_depth.py:144-157 | the longest chain is a single number |
| QueryDepth.PathDescends | web/dbqueryapp/query_depth.py:147-154 | along a path, memo entries fall by at least one per edge |
| QueryDepth.PathBound | web/dbqueryapp/query_depth.py:147-154 | no path from a node is longer than its memo entry |
| QueryDepth.LongestPathWitness | web/dbqueryapp/query_depth.py:147-154 | some path from a node is exactly as long as its memo entry |
| QueryDepth.NoCycleWhenSolved | web/dbqueryapp/query_depth.py:147-154 | a memo complete for every node with successors rules out a cycle |
| QueryDepth.ReentryCycle | web/dbqueryapp/query_depth.py:147-152 | re-entering a search still in progress follows a cycle of the graph |
| QueryDepth.Dfs | web/dbqueryapp/query_depth.py:147-154 | `dfs(node)` keeps every memo entry equal to 1 plus the largest successor entry, only adds entries, and either answers the node's entry or exhibits a cycle |
| QueryDepth.SearchSuccessors | web/dbqueryapp/query_depth.py:150-154 | the loop over successors records `maxlen` for the node when no cycle is met |
| QueryDepth.ExploreChild | web/dbqueryapp/query_depth.py:151-152 | one call `dfs(nxt)` keeps the running maximum attained by an explored successor |
| QueryDepth.LongestChain | web/dbqueryapp/query_depth.py:156-157 | the loop over names returns the length of the longest path from them, or reports a cycle |
| QueryDepth.ThreeChainDepth | web/dbqueryapp/tests/test_query_depth.py:8-14 | three chained CTEs have chain depth 3 |
| QueryDepth.SingleCteDepth | web/dbqueryapp/tests/test_utils.py:61-65 | one CTE has chain depth 1 |
| QueryDepth.MutualReferenceCycle | web/dbqueryapp/query_depth.py:147-154 | two CTEs that read each other form a cycle, on which the search never returns |
| QueryDepth.WithClause | web/dbqueryapp/query_depth.py:79-103 | definition of the CTE list after the first WITH; QueryDepth.CteListEnd and QueryDepth.NoWithGivesStructural state its properties |
| QueryDepth.CteAnalysisOf | web/dbqueryapp/query_depth.py:77-142 | definition of the heuristic's stages; QueryDepth.CteChainDepth computes it and QueryDepth.HeuristicFailureGivesStructural states its failure cases |
| QueryDepth.IsCteChainDepth | web/dbqueryapp/query_depth.py:77-157 | definition of the heuristic's answer; QueryDepth.CteChainDepth computes it and QueryDepth.ChainDepthUnique states it is unique |
| QueryDepth.CteChainDepth | web/dbqueryapp/query_depth.py:77-157 | the heuristic gives 0 without WITH, fails on a malformed definition or a cycle, and otherwise gives the longest chain |
| QueryDepth.AnalyzerDepthUnique | web/dbqueryapp/query_depth.py:36-162 | the analyzer's result is determined by its inputs |
| QueryDepth.IsAnalyzerDepth | web/dbqueryapp/query_depth.py:36-162 | definition of the analyzer's result; QueryDepth.ComputeFromParsed computes it and the lemmas after QueryDepth.AnalyzerDepthUnique state its cases |
| QueryDepth.ScopeFailureGivesZero | web/dbqueryapp/query_depth.py:45-56 | no attached scope, a raising builder and a raising reparse give depth 0 |
| QueryDepth.DepthAtLeastStructural | web/dbqueryapp/query_depth.py:159-162 | the result is never below the structural depth |
| QueryDepth.NoWithGivesStructural | web/dbqueryapp/query_depth.py:79-81 | without a whole-word WITH the result is the structural depth |
| QueryDepth.HeuristicFailureGivesStructural | web/dbqueryapp/query_depth.py:160-162 | a malformed definition or a cycle falls back to the structural depth |
| QueryDepth.ComputeFromParsed | web/dbqueryapp/query_depth.py:36-162 | returns the larger of the structural depth and the chain depth, the structural depth on heuristic failure, and 0 without a scope |
| QueryDepth.ComputeFromSql | web/dbqueryapp/query_depth.py:27-34 | None exactly on a parse failure, otherwise the analyzer's depth of the parsed tree |
| SqlGate.BlankUnicodeSpaces | web/dbqueryapp/utils.py:77 | no character of the Unicode space class is left, the length is kept, and text without one is unchanged |
| SqlGate.ReplaceCrLf | web/dbqueryapp/utils.py:78 | `replace('\r\n', '\n')` introduces no character but `\n` |
| SqlGate.ReplaceCr | web/dbqueryapp/utils.py:78 | no CR is left, the length is kept, and text without a CR is unchanged |
| SqlGate.CleanSqlInput | web/dbqueryapp/utils.py:70-79 | the cleaned text is trimmed and holds no Unicode space of the class and no CR |
| SqlGate.IsUnicodeSpace | web/dbqueryapp/utils.py:77 | definition of the character class; SqlGate.BlankUnicodeSpaces and SqlGate.CleanSqlInput state that none is left |
| SqlGate.LineEndingsNormalized | web/dbqueryapp/utils.py:78 | the two chained replacements turn each CRLF and each lone CR into one LF |
| SqlGate.CleanIdempotent | web/dbqueryapp/utils.py:70-79 | cleaning twice is cleaning once |
| SqlGate.Get | web/dbqueryapp/utils.py:47 | `row.get(col)` finds a value exactly when the row has that column |
| SqlGate.Keys | web/dbqueryapp/utils.py:61 | definition of `list(result[0].keys())`; SqlGate.KeysFound states that these are exactly the columns `row.get` finds |
| SqlGate.KeysFound | web/dbqueryapp/utils.py:47 | `row.get(col)` finds a value exactly for the columns `row.keys()` lists |
| SqlGate.NatToString | web/dbqueryapp/utils.py:51 | `str(n)` is decimal digits without a leading zero |
| SqlGate.NatToStringValue | web/dbqueryapp/utils.py:51 | the digits read back as the number |
| SqlGate.IntToString | web/dbqueryapp/utils.py:51 | `str(i)` is non-empty and holds no newline and no quote |
| SqlGate.IntToStringValue | web/dbqueryapp/utils.py:51 | the text reads back as the integer, with a leading `-` exactly for negatives |
| SqlGate.EscapeQuotes | web/dbqueryapp/utils.py:53 | doubling the quotes never shortens the text and adds no newline |
| SqlGate.QuoteRoundTrip | web/dbqueryapp/utils.py:53 | undoing the doubling gives the original text |
| SqlGate.TextCellRoundTrip | web/dbqueryapp/utils.py:53-54 | a text value is written between quotes and reads back as itself |
| SqlGate.FormatValues | web/dbqueryapp/utils.py:45-54 | definition: one cell per column; what each cell means is stated by SqlGate.FormatValue and SqlGate.TextCellRoundTrip |
| SqlGate.FormatValue | web/dbqueryapp/utils.py:47-54 | the bare word NULL is written exactly for a missing column or an SQL NULL; text is always quoted and numbers never are |
| SqlGate.FormatRow | web/dbqueryapp/utils.py:55 | definition of one `  (v1, v2, ...)` line; SqlGate.FormatRowOneLine states it stays on one line |
| SqlGate.FormatRows | web/dbqueryapp/utils.py:43-56 | definition: one line per row; SqlGate.ExportLines states how the lines appear in the export |
| SqlGate.FormatSqlRows | web/dbqueryapp/utils.py:41-56 | the nested loops building `vals` and `rows_out` compute the formatted rows |
| SqlGate.ExportSql | web/dbqueryapp/utils.py:59-63 | None exactly when there are no rows or the first row has no columns |
| SqlGate.ExportHeader | web/dbqueryapp/utils.py:65 | definition of `INSERT INTO t (c1, ...) VALUES`; SqlGate.ExportShape states the export starts with it |
| SqlGate.ExportShape | web/dbqueryapp/utils.py:65-67 | the export starts with the INSERT header for the first row's columns and ends with `;` |
| SqlGate.JoinedLines | web/dbqueryapp/utils.py:67 | rows joined by `",\n"` read as one line per row, ended by `,` except the last |
| SqlGate.ExportLines | web/dbqueryapp/utils.py:59-67 | without newlines in names and values, the export is the header line and then one line per row, the last ended by `;` |
| SqlGate.UnsafeMessageNames | web/dbqueryapp/utils.py:117-118 | the message lists all eleven class names in the constant's order, inside the fixed text |
| SqlGate.UnsafeMessage | web/dbqueryapp/utils.py:117-118 | definition of the unsafe-operation message; SqlGate.UnsafeMessageNames states its content |
| SqlGate.SyntaxMessage | web/dbqueryapp/utils.py:112 | definition of the parse-failure message; SqlGate.ParseFailureRejected states when it is given |
| SqlGate.Screen | web/dbqueryapp/utils.py:106-118 | the early checks reject with a message, or pass on a parsed tree with no disallowed node |
| SqlGate.Finish | web/dbqueryapp/utils.py:121-130 | accepts exactly when the depth is within the limit and the text starts with SELECT or WITH, and always returns the tree |
| SqlGate.CheckKeyword | web/dbqueryapp/utils.py:129 | true exactly when the trimmed, upper-cased text starts with an allowed keyword |
| SqlGate.StartsWithAllowedKeyword | web/dbqueryapp/utils.py:129 | definition of the keyword test; SqlGate.CheckKeyword computes it and SqlGate.KeywordRejected and SqlGate.AllChecksAccepted state its effect |
| SqlGate.HasDisallowedNode | web/dbqueryapp/utils.py:115-116 | the loop over the walk finds a node exactly when a disallowed kind occurs in the tree |
| SqlGate.ValidateSql | web/dbqueryapp/utils.py:85-145 | the checks run in order and the first failure decides the verdict |
| SqlGate.IsGateVerdict | web/dbqueryapp/utils.py:85-145 | definition of the gate's verdict; SqlGate.AcceptedIsReadOnly, SqlGate.GateDeterministic and the rejection lemmas state its properties |
| SqlGate.GateDeterministic | web/dbqueryapp/utils.py:85-145 | the gate gives one verdict per input |
| SqlGate.RejectedHasMessage | web/dbqueryapp/utils.py:106-130 | every rejection carries a message |
| SqlGate.AcceptedIsReadOnly | web/dbqueryapp/utils.py:85-145 | an accepted query is non-blank parsed text with no mutating node, within the depth limit, starting with SELECT or WITH |
| SqlGate.BlankRejected | web/dbqueryapp/utils.py:106-107 | non-text or blank input gives `(False, "Empty SQL statement provided.", None)` |
| SqlGate.ParseFailureRejected | web/dbqueryapp/utils.py:108-112 | text that does not parse gives `(False, "Invalid SQL syntax: " + sql, None)` |
| SqlGate.DisallowedRejected | web/dbqueryapp/utils.py:115-118 | a mutating node anywhere gives the fixed unsafe message and the tree |
| SqlGate.VerdictAtDepth | web/dbqueryapp/utils.py:121-145 | after screening, the verdict is the depth-and-keyword check at the analyzer's depth |
| SqlGate.TooDeepRejected | web/dbqueryapp/utils.py:122-124 | a depth above the limit is rejected as too complex, whatever the keyword |
| SqlGate.KeywordRejected | web/dbqueryapp/utils.py:129-130 | within the limit, text not starting with SELECT or WITH is rejected with that message |
| SqlGate.AllChecksAccepted | web/dbqueryapp/utils.py:145 | passing every check gives `(True, None, parsed)` |
| ErrorMapping.IsaFollowsParents | web/dbqueryapp/errors.py:38-62 | `isinstance` holds for the class itself and for whatever its base class is an instance of, and for nothing else |
| ErrorMapping.Parent | web/dbqueryapp/errors.py:11-24 | definition of the base class of each exception class; ErrorMapping.IsaFollowsParents states its tie to `isinstance` |
| ErrorMapping.Isa | web/dbqueryapp/errors.py:38-62 | definition of `isinstance`; ErrorMapping.IsaFollowsParents, ErrorMapping.IsaTransitive and ErrorMapping.IsaAntisymmetric state its properties |
| ErrorMapping.IsaTransitive | web/dbqueryapp/errors.py:38-62 | `isinstance` along base classes composes |
| ErrorMapping.IsaAntisymmetric | web/dbqueryapp/errors.py:38-62 | two different classes are never instances of each other |
| ErrorMapping.MapException | web/dbqueryapp/errors.py:31-67 | the status is one of 400, 403, 409, 500 and 503, and the level is ERROR exactly when the status is at least 500 |
| ErrorMapping.MessageText | web/dbqueryapp/errors.py:37-67 | definition of the fixed message texts; ErrorMapping.FallbackExactly and the row lemmas state which is given |
| ErrorMapping.DriverFamiliesDisjoint | web/dbqueryapp/errors.py:11-24 | no class is both a psycopg and a Django database class |
| ErrorMapping.PsycopgRows | web/dbqueryapp/errors.py:37-47 | with the driver, its syntax, missing-table and missing-column errors give 400, insufficient privilege 403, and integrity errors 409, all at WARNING |
| ErrorMapping.DjangoRows | web/dbqueryapp/errors.py:50-57 | Django's ProgrammingError and DataError give 400 and IntegrityError 409 at WARNING; OperationalError and InterfaceError give 503 at ERROR |
| ErrorMapping.DjangoCatchAllRows | web/dbqueryapp/errors.py:58-63 | Django's InternalError, NotSupportedError and DatabaseError itself give 500 at ERROR, and SuspiciousOperation gives 403 at WARNING |
| ErrorMapping.NotPgMatch | web/dbqueryapp/errors.py:37-47 | a class outside the psycopg family matches no psycopg row |
| ErrorMapping.DriverFlagIrrelevant | web/dbqueryapp/errors.py:37 | whether the driver imported only matters for psycopg classes |
| ErrorMapping.FallbackExactly | web/dbqueryapp/errors.py:65-67 | `(500, "Server error processing the request.", ERROR)` is given exactly when no psycopg row matches and the class is no DatabaseError, InterfaceError or SuspiciousOperation |
| ErrorMapping.UnnamedDriverClass | web/dbqueryapp/errors.py:37-67 | a psycopg class the table does not name is not caught by the Django rows and falls through to the generic answer |
| ErrorMapping.DriverSubclass | web/dbqueryapp/errors.py:46-47 | a subclass of a named psycopg class is answered by that class's row |
| ErrorMapping.DriverMissing | web/dbqueryapp/errors.py:22-26 | without the driver, even psycopg's SyntaxError gets the generic answer |
| Views.DecimalStr | web/dbqueryapp/views.py:81 | `str(Decimal)` is never empty |
| Views.DecimalStrWhole | web/dbqueryapp/views.py:81 | a whole Decimal with exponent 0 prints as its digits |
| Views.DecimalStrExamples | web/dbqueryapp/views.py:81 | `Decimal("10.50")` prints as `10.50` and `Decimal("-0.005")` as `-0.005` |
| Views.DictKeys | web/dbqueryapp/views.py:83 | the keys of a dict, in insertion order |
| Views.DictGet | web/dbqueryapp/views.py:54-55 | `d.get(k)` finds a value exactly when `k` is a key |
| Views.DictSet | web/dbqueryapp/views.py:102 | after `d[k] = v`, `k` maps to `v` and every other key is unchanged |
| Views.DictSetKeys | web/dbqueryapp/views.py:102 | assignment keeps the key order and appends a new key last |
| Views.UniqueKeys | web/dbqueryapp/views.py:102 | definition: a dict never holds a key twice; Views.DictSetUnique states assignment keeps it |
| Views.DictSetUnique | web/dbqueryapp/views.py:102 | `d[k] = v` keeps the keys of a dict distinct |
| Views.DictValue | web/dbqueryapp/views.py:83 | an entry of a dict value is smaller than the dict |
| Views.ConvertDecimals | web/dbqueryapp/views.py:78-86 | no Decimal is left anywhere, dicts keep their keys in order and lists their length, and other values are unchanged |
| Views.ConvertFixesDecimalFree | web/dbqueryapp/views.py:78-86 | a value without Decimals is returned unchanged |
| Views.ConvertIdentityIff | web/dbqueryapp/views.py:78-86 | the conversion changes a value exactly when it holds a Decimal |
| Views.ConvertIdempotent | web/dbqueryapp/views.py:78-86 | converting twice is converting once |
| Views.Truthy | web/dbqueryapp/views.py:156 | definition of Python truthiness, used by the `if sql and result is not None` test of Views.Home |
| Views.ToDict | web/dbqueryapp/views.py:43-48 | `to_dict` has exactly the keys `sql` and `result`, in this order, holding the two fields |
| Views.FromDict | web/dbqueryapp/views.py:50-56 | `from_dict` takes each field from its key, and None for a missing key |
| Views.FromDictToDict | web/dbqueryapp/views.py:43-56 | `from_dict(x.to_dict())` is `x` |
| Views.StoredQueries | web/dbqueryapp/views.py:95-99 | definition of the saved-query dict read from the session; Views.StoreEntrySaved, Views.StoreEntryKeepsOthers and Views.StoreEntryResets state what saving does to it |
| Views.SavedEntry | web/dbqueryapp/views.py:91-102 | definition of the saved `RequestQueryData(sql, converted result).to_dict()`; Views.SavedQueryExports states it exports back |
| Views.StoreEntry | web/dbqueryapp/views.py:101-103 | definition of the session after saving; Views.StoreEntrySaved, Views.StoreEntryKeepsOthers and Views.StoreEntryResets state its effect |
| Views.Session.constructor | web/dbqueryapp/views.py:88 | a session holding the given items, not yet modified |
| Views.Session.SaveDataInSession | web/dbqueryapp/views.py:88-104 | the session becomes the old one with the entry stored under the query id, and is marked modified |
| Views.StoreEntrySaved | web/dbqueryapp/views.py:101-103 | after saving, `data[query_id]` is the new entry, set in the old dict of queries |
| Views.StoreEntryKeepsOthers | web/dbqueryapp/views.py:95-103 | other saved queries and every other session key are left as they were |
| Views.StoreEntryResets | web/dbqueryapp/views.py:97-99 | a `data` value that is not a dict is reset, so only the new entry remains |
| Views.ExportGuard | web/dbqueryapp/views.py:178-194 | a format outside csv, json and sql gives 400 "Unsupported format", and a run uses the requested format, csv by default |
| Views.FormatCheckedFirst | web/dbqueryapp/views.py:178-180 | a bad format is refused whatever the session and the query id |
| Views.FormatDefaultsToCsv | web/dbqueryapp/views.py:178 | without a format parameter the export is CSV, and it is never refused with 400 |
| Views.MissingEntryRefused | web/dbqueryapp/views.py:183-192 | with an accepted format, no query id, no saved entry for it, or a saved dict without `sql` gives 503 with the fixed message |
| Views.SavedQueryExports | web/dbqueryapp/views.py:88-194 | an entry saved by `_save_data_in_session` passes the guards and exports its SQL with the converted result |
| Views.Database.constructor | web/dbqueryapp/views.py:66 | a connection that has executed nothing |
| Views.Database.Execute | web/dbqueryapp/views.py:66-68 | the statement is recorded as executed and the answer is the database's |
| Views.ExecOutcome | web/dbqueryapp/views.py:63-76 | exactly one of result and error is present; rows become the result, and an exception becomes the fixed message of its mapping |
| Views.ExecuteSql | web/dbqueryapp/views.py:63-76 | `_execute_sql` sends its text once and returns the outcome of the database's answer |
| Views.RunCustomSql | web/dbqueryapp/views.py:127-135 | the cleaned text is executed exactly when the gate accepts it, and it is the only text executed; a missing result comes with an error |
| Views.HomeExecutes | web/dbqueryapp/views.py:115-154 | definition of the statements a request sends; Views.CustomSqlExecutedOnlyIfValid and Views.Home state its properties |
| Views.Home | web/dbqueryapp/views.py:106-169 | executes only the accepted cleaned custom SQL or the predefined query; saves under a new key exactly when there is SQL and a result; "Unsupported form type submitted." for an unknown form |
| Views.CustomSqlExecutedOnlyIfValid | web/dbqueryapp/views.py:128-132 | custom SQL reaches the database exactly when the gate accepts its cleaned text, and only that text |
| Views.ExecutedCustomSqlIsReadOnly | web/dbqueryapp/views.py:128-132 | whatever custom SQL reaches the database parsed with no mutating node |
| Ingest.Basename | ingest/database.py:61 | `os.path.basename` is a `/`-free suffix that follows a `/` when shorter than the path |
| Ingest.SplitOnCount | ingest/database.py:62 | `split(c)` has one more piece than there are separators |
| Ingest.SplitOnFirst | ingest/database.py:62 | the first piece of `split(c)` is the text before the first `c` |
| Ingest.GetTableName | ingest/database.py:60-63 | a name exactly when the file name holds one dot, and then the part before it, which holds no dot and no slash; otherwise the unpacking raises |
| Ingest.LoadTableName | ingest/database.py:116 | a table name it gives never holds a dot or a slash; `''` for a path not ending in `.txt`; Ingest.TxtFileTable gives the name of a data file |
| Ingest.TxtFileTable | ingest/database.py:116 | a `.txt` file whose stem has no dot loads into the table of its stem |
| Ingest.BasenameOfJoin | ingest/database.py:61 | the base name of `dir/name` is `name` |
| Ingest.KeyColumns | ingest/database.py:207-211 | at least one key column, none holding a space or a comma |
| Ingest.KeyColumnsNoComma | ingest/database.py:207-209 | without a comma only the text before the first space is kept |
| Ingest.KeyColumnsList | ingest/database.py:211 | with a comma, the pieces between commas after all spaces are removed |
| Ingest.IsTableLine | ingest/database.py:52-53 | definition of `file_pattern.match`; Ingest.LineKindsDisjoint and Ingest.Step state its role |
| Ingest.IsKeyLine | ingest/database.py:54-55 | definition of `primary_key_pattern.match`; Ingest.LineKindsDisjoint and Ingest.Step state its role |
| Ingest.Step | ingest/database.py:199-211 | only a table line moves the current table, only a key line changes the keys, and then only the current table's; every other table keeps its keys |
| Ingest.ScanAppend | ingest/database.py:195-198 | scanning two runs of lines is scanning the first and then the second |
| Ingest.Scan | ingest/database.py:195-211 | definition of the scan over lines; Ingest.ScanAppend, Ingest.KeysBeforeAnyTable and Ingest.OtherLinesIgnored state its properties |
| Ingest.Lines | ingest/database.py:195-198 | definition of the page lines in order; Ingest.KeyRegistry.RetrievePrimaryKeys scans them |
| Ingest.LineKindsDisjoint | ingest/database.py:199-203 | no line is both a table line and a key line, so the order of the two tests never matters |
| Ingest.FromThirdPage | ingest/database.py:193 | definition of `pdf.pages[2::1]`; Ingest.KeyRegistry.RetrievePrimaryKeys states that only these pages are scanned |
| Ingest.TableNameAfterPrefix | ingest/database.py:202 | the table name is the text after the prefix when it holds the prefix once |
| Ingest.ScanTwo | ingest/database.py:198 | two lines are two steps, in order |
| Ingest.LaterKeyLineOverwrites | ingest/database.py:211 | a later key line for the same table replaces the earlier keys |
| Ingest.KeysBeforeAnyTable | ingest/database.py:189-211 | key lines met before any table line are stored under `''` |
| Ingest.OtherLinesIgnored | ingest/database.py:198-211 | lines that are neither table nor key lines leave the state as it was |
| Ingest.KeyRegistry.constructor | ingest/database.py:58 | `suggested_keys` starts empty |
| Ingest.KeyRegistry.IndexFor | ingest/database.py:97-102 | `suggested_keys[t] + ['records_year']` for a known table, `['acct', 'records_year']` otherwise, and the registry is not changed |
| Ingest.KeyRegistry.ScanPage | ingest/database.py:198-211 | the loop over one page's lines leaves the current table and the keys that the scan specifies |
| Ingest.KeyRegistry.RetrievePrimaryKeys | ingest/database.py:187-211 | the keys become those left by scanning every line from the third page on, starting from the current keys and the table `''` |

## Left out

- The parser and the scope tree are not modelled; they are parameters of the model:
  - `parse_one` and its grammar;
  - `Expression.sql`;
  - `build_scope`, the scope `traverse`;
  - `parsed.find()`.
- Logging: every `logger` call, and with it the warning at depth 0. That warning only
  logs; the verdict at depth 0 is the one `Finish` states.
- Several Django and I/O pieces are not modelled:
  - the Django forms, URL routing, `render` and `HttpResponse`;
  - the CSV and JSON writers and the result-file branches of `export_results`, after its
    guards;
  - cursor execution, which the `Database` class stands in for;
  - `retrieve_cursor_as_dict`.
- `generate_unique_query_key`: the UUID is the parameter `newKey`. Its uniqueness is not
  modelled.
- `DEFAULT_SQL_QUERIES`: the predefined query the form selects is a field of the request.
- The exception branches of `validate_sql_with_sqlglot` are not modelled: Attribute-,
  Type- and KeyError, and the broad `except Exception`. The foreign functions are total in
  the model. A raising parser is the None of `Env.parse`.
- The `ParseError` handler of `home` is not modelled. No ParseError can reach it, because
  the gate catches its own and `pretty` is total.
- Floating point: numbers in result rows are integers, and Python's `bool`-is-`int` rule
  is not modelled.
- `Decimal` values are finite only: no NaN, no infinities and no signed-zero spelling
  rules beyond the sign flag.
- Views.DecimalStr: only non-emptiness and a few printed forms are proved. The body
  follows Python's to-scientific-string rules.
- PyStr.FindWord: `\b`, `\w` and `re.IGNORECASE` cover ASCII letters, digits and `_` only.
  Python's are Unicode-aware.
- PyStr.Upper: only ASCII letters are upper-cased.
- SqlTree.Walk: the walk is taken in pre-order, while the library's walk is breadth-first.
  Only whether a disallowed node exists is used, and that does not depend on the order.
- SqlGate.UnsafeMessageNames: the message is proved to list the eleven names in order and
  to have the fixed prefix and closing parenthesis. The full literal is not restated.
- Python's recursion limit on long acyclic CTE chains is not modelled. Only the unbounded
  recursion on a cycle is.
- In `ingest/database.py`, these are not modelled: the I/O and dataframe code
  (`unzip`, `get_copy_statement`, `fix_invalid_formatting`, the database writes of
  `load_data_from_csv`, `process_directory`, `remove_txt_files`, the
  `csv.field_size_limit` loop of `main`), the `set_index` call of
  `prepare_dataframe_for_db`, and the opening and closing of the PDF.
- `ingest/create.py` and the coordinate dataclasses (`TableInfo`, `CamelotBBox`,
  `PdfplumberBBox`) are not part of this model.
- ErrorMapping.MapException: the message never depends on the exception's text. This
  holds by construction, since a response holds only an enumerated message; no separate
  lemma states it.
