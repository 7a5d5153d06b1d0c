/**
 * The helpers of web/dbqueryapp/utils.py: the input normaliser `clean_sql_input`, the
 * read-only gate `validate_sql_with_sqlglot`, and the export serialiser
 * (`format_sql_rows`, `generate_export_sql`).
 *
 * The parser (`parse_one`), the comment-free re-serialiser (`Expression.sql`), the
 * scope lookups of a tree and the `MAX_QUERY_DEPTH` setting are given by an Env value.
 */
module SqlGate {
  import opened Wrappers
  import opened PyStr
  import opened SqlTree
  import opened QueryDepth

  // ----------------------------------------------------------------------------------
  // clean_sql_input
  // ----------------------------------------------------------------------------------

  /** The character class of `clean_sql_input`: U+00A0, U+1680, U+180E, U+2000 to U+200B, U+202F, U+205F, U+3000. */
  predicate IsUnicodeSpace(c: char) {
    || c == '\U{00A0}' || c == '\U{1680}' || c == '\U{180E}'
    || ('\U{2000}' <= c <= '\U{200B}')
    || c == '\U{202F}' || c == '\U{205F}' || c == '\U{3000}'
  }

  /** `re.sub(<class>, ' ', sql)`: no character of the class is left, and text without one is unchanged. */
  function BlankUnicodeSpaces(s: string): (r: string)
    ensures |r| == |s|
    ensures forall k :: 0 <= k < |s| ==> r[k] == (if IsUnicodeSpace(s[k]) then ' ' else s[k])
    ensures forall k :: 0 <= k < |r| ==> !IsUnicodeSpace(r[k])
    ensures (forall k :: 0 <= k < |s| ==> !IsUnicodeSpace(s[k])) ==> r == s
  {
    seq(|s|, k requires 0 <= k < |s| => if IsUnicodeSpace(s[k]) then ' ' else s[k])
  }

  /** `s.replace('\r\n', '\n')`: leftmost, non-overlapping. */
  function ReplaceCrLf(s: string): (r: string)
    ensures forall k :: 0 <= k < |r| ==> r[k] == '\n' || r[k] in s
    decreases |s|
  {
    if s == [] then []
    else if StartsWith(s, "\r\n") then "\n" + ReplaceCrLf(s[2..])
    else [s[0]] + ReplaceCrLf(s[1..])
  }

  /** `s.replace('\r', '\n')`: no CR is left, and text without one is unchanged. */
  function ReplaceCr(s: string): (r: string)
    ensures |r| == |s|
    ensures forall k :: 0 <= k < |s| ==> r[k] == (if s[k] == '\r' then '\n' else s[k])
    ensures '\r' !in r
    ensures '\r' !in s ==> r == s
  {
    seq(|s|, k requires 0 <= k < |s| => if s[k] == '\r' then '\n' else s[k])
  }

  /** `clean_sql_input`: blank the Unicode spaces, turn line endings into `\n`, trim. */
  function CleanSqlInput(sql: string): (r: string)
    ensures Stripped(r)
    ensures forall k :: 0 <= k < |r| ==> !IsUnicodeSpace(r[k]) && r[k] != '\r'
  {
    var u := ReplaceCrLf(BlankUnicodeSpaces(sql));
    ReplaceCrLfNoUnicodeSpace(BlankUnicodeSpaces(sql));
    var t := ReplaceCr(u);
    StripChars(t);
    Strip(t)
  }

  lemma ReplaceCrLfNoUnicodeSpace(s: string)
    requires forall k :: 0 <= k < |s| ==> !IsUnicodeSpace(s[k])
    ensures forall k :: 0 <= k < |ReplaceCrLf(s)| ==> !IsUnicodeSpace(ReplaceCrLf(s)[k])
  {
    var r := ReplaceCrLf(s);
    forall k | 0 <= k < |r| ensures !IsUnicodeSpace(r[k]) {
      if r[k] != '\n' {
        var j :| 0 <= j < |s| && s[j] == r[k];
      }
    }
  }

  /** Line endings in one pass: CRLF and a lone CR each become one `\n`. */
  function NormalizeNewlines(s: string): string
    decreases |s|
  {
    if s == [] then []
    else if |s| >= 2 && s[0] == '\r' && s[1] == '\n' then "\n" + NormalizeNewlines(s[2..])
    else if s[0] == '\r' then "\n" + NormalizeNewlines(s[1..])
    else [s[0]] + NormalizeNewlines(s[1..])
  }

  lemma ReplaceCrConcat(a: string, b: string)
    ensures ReplaceCr(a + b) == ReplaceCr(a) + ReplaceCr(b)
  {
  }

  /** The two chained `replace` calls do exactly the one-pass normalisation. */
  lemma {:induction false} LineEndingsNormalized(s: string)
    ensures ReplaceCr(ReplaceCrLf(s)) == NormalizeNewlines(s)
    decreases |s|
  {
    if s != [] {
      var crlf := |s| >= 2 && s[0] == '\r' && s[1] == '\n';
      assert StartsWith(s, "\r\n") <==> crlf;
      var head := if crlf then "\n" else [s[0]];
      var tail := if crlf then s[2..] else s[1..];
      assert ReplaceCrLf(s) == head + ReplaceCrLf(tail);
      LineEndingsNormalized(tail);
      ReplaceCrConcat(head, ReplaceCrLf(tail));
      assert ReplaceCr(head) == (if crlf || s[0] == '\r' then "\n" else [s[0]]);
      assert NormalizeNewlines(s) == (if crlf || s[0] == '\r' then "\n" else [s[0]]) + NormalizeNewlines(tail);
    }
  }

  lemma {:induction false} ReplaceCrLfNoCr(s: string)
    requires '\r' !in s
    ensures ReplaceCrLf(s) == s
    decreases |s|
  {
    if s != [] {
      assert s[0] != '\r';
      assert '\r' !in s[1..];
      ReplaceCrLfNoCr(s[1..]);
    }
  }

  /** Cleaning an already cleaned text changes nothing. */
  lemma CleanIdempotent(sql: string)
    ensures CleanSqlInput(CleanSqlInput(sql)) == CleanSqlInput(sql)
  {
    var r := CleanSqlInput(sql);
    assert BlankUnicodeSpaces(r) == r;
    assert '\r' !in r;
    ReplaceCrLfNoCr(r);
    assert ReplaceCr(r) == r;
    StripOfStripped(r);
  }

  // ----------------------------------------------------------------------------------
  // format_sql_rows and generate_export_sql
  // ----------------------------------------------------------------------------------

  /** A cell of a result row: SQL NULL, a number, or any other value by its `str`. */
  datatype SqlValue = Null | Number(n: int) | Text(s: string)

  /** A result row, as an ordered dict from column name to value. */
  type Row = seq<(string, SqlValue)>

  /** `row.get(col)`: the first entry for `col`, None when absent. */
  function Get(row: Row, col: string): (r: Option<SqlValue>)
    ensures r.Some? <==> exists i :: 0 <= i < |row| && row[i].0 == col
  {
    if row == [] then None
    else if row[0].0 == col then Some(row[0].1)
    else Get(row[1..], col)
  }

  /** `list(row.keys())`. */
  function Keys(row: Row): (r: seq<string>)
    ensures |r| == |row| && forall i :: 0 <= i < |row| ==> r[i] == row[i].0
  {
    seq(|row|, i requires 0 <= i < |row| => row[i].0)
  }

  /** `row.get(col)` finds a value exactly for the columns `row.keys()` lists. */
  lemma KeysFound(row: Row, col: string)
    ensures Get(row, col).Some? <==> col in Keys(row)
  {
    if col in Keys(row) {
      var i :| 0 <= i < |Keys(row)| && Keys(row)[i] == col;
      assert row[i].0 == col;
    }
  }

  function DigitChar(d: nat): char
    requires d < 10
  {
    ('0' as int + d) as char
  }

  predicate IsDigit(c: char) {
    '0' <= c <= '9'
  }

  /** Decimal digits of a natural number, without leading zeros. */
  function NatToString(n: nat): (r: string)
    ensures r != [] && forall k :: 0 <= k < |r| ==> IsDigit(r[k])
    ensures r[0] == '0' ==> n == 0
    decreases n
  {
    if n < 10 then [DigitChar(n)] else NatToString(n / 10) + [DigitChar(n % 10)]
  }

  /** The number a string of decimal digits denotes. */
  function DigitsValue(s: string): nat
    requires forall k :: 0 <= k < |s| ==> IsDigit(s[k])
    decreases |s|
  {
    if s == [] then 0
    else
      assert IsDigit(s[|s| - 1]);
      10 * DigitsValue(s[..|s| - 1]) + (s[|s| - 1] as int - '0' as int)
  }

  lemma {:induction false} NatToStringValue(n: nat)
    ensures DigitsValue(NatToString(n)) == n
    decreases n
  {
    if n >= 10 {
      NatToStringValue(n / 10);
      var r := NatToString(n);
      assert r[..|r| - 1] == NatToString(n / 10);
    }
  }

  /** `str(i)` for an integer. */
  function IntToString(i: int): (r: string)
    ensures r != [] && '\n' !in r && '\'' !in r
    ensures forall k :: 0 <= k < |r| ==> r[k] == '-' || IsDigit(r[k])
  {
    var r := if i < 0 then "-" + NatToString(-i) else NatToString(i);
    assert forall k :: 0 <= k < |r| ==> r[k] == '-' || IsDigit(r[k]);
    r
  }

  /** Reading back what `str` wrote gives the integer. */
  lemma IntToStringValue(i: int)
    ensures i >= 0 ==> DigitsValue(IntToString(i)) == i
    ensures i < 0 ==> IntToString(i)[0] == '-' && DigitsValue(IntToString(i)[1..]) == -i
  {
    NatToStringValue(if i < 0 then -i else i);
    if i < 0 {
      assert IntToString(i)[1..] == NatToString(-i);
    }
  }

  /** `s.replace("'", "''")`. */
  function EscapeQuotes(s: string): (r: string)
    ensures |r| >= |s|
    ensures ('\n' in r) <==> ('\n' in s)
    decreases |s|
  {
    if s == [] then [] else (if s[0] == '\'' then "''" else [s[0]]) + EscapeQuotes(s[1..])
  }

  /** How a reader of the SQL literal undoes the doubling. */
  function UnescapeQuotes(s: string): string
    decreases |s|
  {
    if s == [] then []
    else if |s| >= 2 && s[0] == '\'' && s[1] == '\'' then "'" + UnescapeQuotes(s[2..])
    else [s[0]] + UnescapeQuotes(s[1..])
  }

  lemma {:induction false} QuoteRoundTrip(s: string)
    ensures UnescapeQuotes(EscapeQuotes(s)) == s
    decreases |s|
  {
    if s != [] {
      QuoteRoundTrip(s[1..]);
      var e := EscapeQuotes(s);
      if s[0] == '\'' {
        assert e[2..] == EscapeQuotes(s[1..]);
      } else {
        assert e[1..] == EscapeQuotes(s[1..]);
      }
    }
  }

  /**
   * One value in a VALUES tuple.  The bare word NULL is written exactly for a missing
   * column or an SQL NULL; a text value is always written between quotes.
   */
  function FormatValue(v: Option<SqlValue>): (r: string)
    ensures r == "NULL" <==> v.None? || v.value.Null?
    ensures v.Some? && v.value.Text? ==> |r| >= 2 && r[0] == '\'' && r[|r| - 1] == '\''
    ensures v.Some? && v.value.Number? ==> '\'' !in r
  {
    match v
    case None => "NULL"
    case Some(Null) => "NULL"
    case Some(Number(n)) =>
      var t := IntToString(n);
      assert t[0] != "NULL"[0];
      t
    case Some(Text(s)) =>
      var t := "'" + EscapeQuotes(s) + "'";
      assert t[0] != "NULL"[0];
      t
  }

  function FormatValues(row: Row, columns: seq<string>): (r: seq<string>)
    ensures |r| == |columns| && forall j :: 0 <= j < |columns| ==> r[j] == FormatValue(Get(row, columns[j]))
  {
    seq(|columns|, j requires 0 <= j < |columns| => FormatValue(Get(row, columns[j])))
  }

  /** One output line of `format_sql_rows`. */
  function FormatRow(row: Row, columns: seq<string>): string {
    "  (" + Join(FormatValues(row, columns), ", ") + ")"
  }

  function FormatRows(result: seq<Row>, columns: seq<string>): (r: seq<string>)
    ensures |r| == |result| && forall i :: 0 <= i < |result| ==> r[i] == FormatRow(result[i], columns)
  {
    seq(|result|, i requires 0 <= i < |result| => FormatRow(result[i], columns))
  }

  lemma JoinStep(parts: seq<string>, sep: string, j: nat)
    requires j < |parts|
    ensures Join(parts[..j + 1], sep) == if j == 0 then parts[0] else Join(parts[..j], sep) + sep + parts[j]
  {
    if j > 0 {
      assert parts[..j + 1][..j] == parts[..j];
    }
  }

  lemma FormatValuesStep(row: Row, columns: seq<string>, j: nat)
    requires j < |columns|
    ensures FormatValues(row, columns[..j + 1]) == FormatValues(row, columns[..j]) + [FormatValue(Get(row, columns[j]))]
  {
  }

  lemma FormatRowsStep(result: seq<Row>, columns: seq<string>, i: nat)
    requires i < |result|
    ensures FormatRows(result[..i + 1], columns) == FormatRows(result[..i], columns) + [FormatRow(result[i], columns)]
  {
    var a := FormatRows(result[..i + 1], columns);
    var b := FormatRows(result[..i], columns) + [FormatRow(result[i], columns)];
    forall k | 0 <= k < |a|
      ensures a[k] == b[k]
    {
      assert result[..i + 1][k] == if k < i then result[..i][k] else result[i];
    }
  }

  /** `format_sql_rows`: the nested loops that build `vals` and `rows_out`. */
  method FormatSqlRows(result: seq<Row>, columns: seq<string>) returns (rowsOut: seq<string>)
    ensures rowsOut == FormatRows(result, columns)
  {
    rowsOut := [];
    var i := 0;
    while i < |result|
      invariant 0 <= i <= |result|
      invariant rowsOut == FormatRows(result[..i], columns)
    {
      var row := result[i];
      var vals: seq<string> := [];
      var j := 0;
      while j < |columns|
        invariant 0 <= j <= |columns|
        invariant vals == FormatValues(row, columns[..j])
      {
        FormatValuesStep(row, columns, j);
        vals := vals + [FormatValue(Get(row, columns[j]))];
        j := j + 1;
      }
      assert columns[..|columns|] == columns;
      FormatRowsStep(result, columns, i);
      rowsOut := rowsOut + ["  (" + Join(vals, ", ") + ")"];
      i := i + 1;
    }
    assert result[..|result|] == result;
  }

  /** `INSERT INTO t (c1, ...) VALUES`. */
  function ExportHeader(table: string, columns: seq<string>): string {
    "INSERT INTO " + table + " (" + Join(columns, ", ") + ") VALUES"
  }

  /** `generate_export_sql`: None when there are no rows or the first row has no columns. */
  function ExportSql(result: seq<Row>, table: string): (r: Option<string>)
    ensures r.None? <==> result == [] || result[0] == []
  {
    var columns := if result == [] then [] else Keys(result[0]);
    if columns == [] then None
    else Some(ExportHeader(table, columns) + "\n" + Join(FormatRows(result, columns), ",\n") + ";")
  }

  lemma PrefixOfConcat(a: string, b: string)
    ensures StartsWith(a + b, a)
  {
    assert (a + b)[..|a|] == a;
  }

  lemma SuffixOfConcat(a: string, b: string)
    ensures EndsWith(a + b, b)
  {
    assert (a + b)[|a + b| - |b|..] == b;
  }

  /** The export text: the header line, the rows joined by `",\n"`, and `;`. */
  lemma ExportText(result: seq<Row>, table: string)
    requires ExportSql(result, table).Some?
    ensures var columns := Keys(result[0]);
      ExportSql(result, table).value
        == ExportHeader(table, columns) + ['\n'] + (Join(FormatRows(result, columns), ",\n") + [';'])
  {
  }

  /** The export starts with the INSERT header for the first row's columns and ends with `;`. */
  lemma ExportShape(result: seq<Row>, table: string)
    requires ExportSql(result, table).Some?
    ensures var text := ExportSql(result, table).value;
      StartsWith(text, ExportHeader(table, Keys(result[0])) + ['\n']) && EndsWith(text, ";")
  {
    var columns := Keys(result[0]);
    var rest := Join(FormatRows(result, columns), ",\n");
    ExportText(result, table);
    PrefixOfConcat(ExportHeader(table, columns) + ['\n'], rest + [';']);
    SuffixOfConcat(ExportHeader(table, columns) + ['\n'] + rest, [';']);
  }

  /** `generate_export_sql`'s default table name. */
  const DefaultExportTable := "table_name"

  lemma {:induction false} SplitOnConcat(a: string, c: char, b: string)
    ensures SplitOn(a + [c] + b, c) == SplitOn(a, c) + SplitOn(b, c)
    decreases |b|
  {
    if b == [] {
      assert a + [c] + b == a + [c];
      assert (a + [c])[..|a|] == a;
    } else {
      var b' := b[..|b| - 1];
      var x := b[|b| - 1];
      assert a + [c] + b == (a + [c] + b') + [x];
      assert b == b' + [x];
      SplitOnConcat(a, c, b');
      SplitOnSnoc(a + [c] + b', x, c);
      SplitOnSnoc(b', x, c);
      AppendCharConcat(SplitOn(a, c), SplitOn(b', c), x, c);
    }
  }

  lemma {:induction false} JoinNoChar(parts: seq<string>, sep: string, c: char)
    requires forall i :: 0 <= i < |parts| ==> c !in parts[i]
    requires c !in sep
    ensures c !in Join(parts, sep)
    decreases |parts|
  {
    if |parts| > 1 {
      JoinNoChar(parts[..|parts| - 1], sep, c);
    }
  }

  /** The lines of the rows, each closed by `,` except the last, which is closed by `end`. */
  function Terminated(rows: seq<string>, end: string): seq<string> {
    seq(|rows|, i requires 0 <= i < |rows| => rows[i] + (if i == |rows| - 1 then end else ","))
  }

  lemma TerminatedSnoc(rows: seq<string>, end: string)
    requires |rows| > 1
    ensures Terminated(rows, end) == Terminated(rows[..|rows| - 1], ",") + [rows[|rows| - 1] + end]
  {
    var front := rows[..|rows| - 1];
    assert |Terminated(rows, end)| == |Terminated(front, ",")| + 1;
    forall i | 0 <= i < |front|
      ensures Terminated(rows, end)[i] == Terminated(front, ",")[i]
    {
      assert front[i] == rows[i];
    }
  }

  lemma JoinSnoc(rows: seq<string>, end: string)
    requires |rows| > 1
    ensures Join(rows, ",\n") + end
         == (Join(rows[..|rows| - 1], ",\n") + ",") + ['\n'] + (rows[|rows| - 1] + end)
  {
    var j := Join(rows[..|rows| - 1], ",\n");
    assert Join(rows, ",\n") == j + ",\n" + rows[|rows| - 1];
    assert ",\n" == "," + ['\n'];
  }

  /** The rows joined with `",\n"` and closed by `end` read as one line per row. */
  lemma {:induction false} JoinedLines(rows: seq<string>, end: string)
    requires rows != [] && forall i :: 0 <= i < |rows| ==> '\n' !in rows[i]
    requires '\n' !in end
    ensures SplitOn(Join(rows, ",\n") + end, '\n') == Terminated(rows, end)
    decreases |rows|
  {
    var last := rows[|rows| - 1];
    if |rows| == 1 {
      SplitOnAbsent(last + end, '\n');
      assert Terminated(rows, end) == [last + end];
    } else {
      var front := rows[..|rows| - 1];
      JoinedLines(front, ",");
      JoinSnoc(rows, end);
      SplitOnConcat(Join(front, ",\n") + ",", '\n', last + end);
      SplitOnAbsent(last + end, '\n');
      TerminatedSnoc(rows, end);
    }
  }

  predicate NoNewlineValues(row: Row) {
    forall i :: 0 <= i < |row| ==> row[i].1.Text? ==> '\n' !in row[i].1.s
  }

  lemma FormatRowOneLine(row: Row, columns: seq<string>)
    requires NoNewlineValues(row)
    ensures '\n' !in FormatRow(row, columns)
  {
    var vals := FormatValues(row, columns);
    forall j | 0 <= j < |vals|
      ensures '\n' !in vals[j]
    {
      var v := Get(row, columns[j]);
      if v.Some? && v.value.Text? {
        GetFound(row, columns[j]);
      }
    }
    JoinNoChar(vals, ", ", '\n');
  }

  lemma {:induction false} GetFound(row: Row, col: string)
    requires Get(row, col).Some?
    ensures exists i :: 0 <= i < |row| && row[i].1 == Get(row, col).value
  {
    if row[0].0 != col {
      GetFound(row[1..], col);
      var i :| 0 <= i < |row[1..]| && row[1..][i].1 == Get(row[1..], col).value;
      assert row[i + 1].1 == Get(row, col).value;
    }
  }

  lemma HeaderOneLine(table: string, columns: seq<string>)
    requires '\n' !in table && forall i :: 0 <= i < |columns| ==> '\n' !in columns[i]
    ensures '\n' !in ExportHeader(table, columns)
  {
    JoinNoChar(columns, ", ", '\n');
  }

  /** Without newlines in names and values, the export is a header line and one line per row. */
  lemma ExportLines(result: seq<Row>, table: string)
    requires result != [] && result[0] != []
    requires '\n' !in table && forall i :: 0 <= i < |result[0]| ==> '\n' !in result[0][i].0
    requires forall r :: 0 <= r < |result| ==> NoNewlineValues(result[r])
    ensures var columns := Keys(result[0]);
      var rows := FormatRows(result, columns);
      SplitOn(ExportSql(result, table).value, '\n')
        == [ExportHeader(table, columns)] + Terminated(rows, ";")
  {
    var columns := Keys(result[0]);
    var rows := FormatRows(result, columns);
    forall i | 0 <= i < |rows|
      ensures '\n' !in rows[i]
    {
      FormatRowOneLine(result[i], columns);
    }
    JoinedLines(rows, ";");
    HeaderOneLine(table, columns);
    var header := ExportHeader(table, columns);
    ExportText(result, table);
    SplitOnConcat(header, '\n', Join(rows, ",\n") + ";");
    SplitOnAbsent(header, '\n');
  }

  /** Quoted text reads back as the original value. */
  lemma TextCellRoundTrip(s: string)
    ensures var cell := FormatValue(Some(Text(s)));
      |cell| >= 2 && cell[0] == '\'' && cell[|cell| - 1] == '\'' && UnescapeQuotes(cell[1..|cell| - 1]) == s
  {
    var cell := FormatValue(Some(Text(s)));
    assert cell[1..|cell| - 1] == EscapeQuotes(s);
    QuoteRoundTrip(s);
  }

  // ----------------------------------------------------------------------------------
  // validate_sql_with_sqlglot
  // ----------------------------------------------------------------------------------

  /** The `sql` argument: a string, or any other Python value. */
  datatype SqlInput = SqlText(text: string) | NotText

  /**
   * The foreign parts of the gate: `parse_one(sql, read="postgres")` (None on ParseError),
   * `parsed.sql(comments=False)`, the scope lookups of a tree, and MAX_QUERY_DEPTH.
   */
  datatype Env = Env(parse: string -> Option<Node>, render: Node -> string, scopes: Node -> ScopeSource, maxDepth: int)

  /** `MAX_QUERY_DEPTH` when the settings do not define it. */
  const DefaultMaxQueryDepth: int := 10

  /** The `(is_valid, error_message, parsed_expression)` triple. */
  datatype Verdict = Verdict(valid: bool, error: Option<string>, tree: Option<Node>)

  const EmptyMessage := "Empty SQL statement provided."
  const TooComplexMessage := "Query is too complex (exceeds maximum depth)."
  const OnlySelectMessage := "Only SELECT or WITH queries are allowed."

  function SyntaxMessage(sql: string): string {
    "Invalid SQL syntax: " + sql
  }

  /** The message names every disallowed class, in the constant's order. */
  function UnsafeMessage(): string {
    "Query contains one of unsafe operations: (" + Join(KindNames(DisallowedOperations), ", ") + ")"
  }

  /** The names the message lists, in order; the message is them joined by ", " in parentheses. */
  lemma UnsafeMessageNames()
    ensures KindNames(DisallowedOperations)
         == ["Insert", "Update", "Delete", "Drop", "Alter", "Create", "TruncateTable", "Merge", "Grant", "Revoke", "Replace"]
    ensures StartsWith(UnsafeMessage(), "Query contains one of unsafe operations: (") && EndsWith(UnsafeMessage(), ")")
  {
    var middle := Join(KindNames(DisallowedOperations), ", ");
    PrefixOfConcat("Query contains one of unsafe operations: (", middle + ")");
    SuffixOfConcat("Query contains one of unsafe operations: (" + middle, ")");
    assert UnsafeMessage() == "Query contains one of unsafe operations: (" + (middle + ")");
  }

  /** `text.strip().upper().startswith(ALLOWED_SQL_KEYWORDS)`. */
  predicate StartsWithAllowedKeyword(text: string) {
    exists k :: 0 <= k < |AllowedSqlKeywords| && StartsWith(Upper(Strip(text)), AllowedSqlKeywords[k])
  }

  /** The checks before the depth is needed: they reject, or pass the parsed tree on. */
  datatype Screening = Rejected(verdict: Verdict) | Passed(tree: Node)

  function Screen(input: SqlInput, env: Env): (s: Screening)
    ensures s.Rejected? ==> !s.verdict.valid && s.verdict.error.Some?
    ensures s.Passed? ==> input.SqlText? && env.parse(input.text) == Some(s.tree) && !ContainsDisallowed(s.tree)
  {
    if input.NotText? || Strip(input.text) == [] then Rejected(Verdict(false, Some(EmptyMessage), None))
    else match env.parse(input.text)
      case None => Rejected(Verdict(false, Some(SyntaxMessage(input.text)), None))
      case Some(t) =>
        if ContainsDisallowed(t) then Rejected(Verdict(false, Some(UnsafeMessage()), Some(t)))
        else Passed(t)
  }

  /** The depth limit and the leading keyword, for a tree of analyzer depth `depth`. */
  function Finish(t: Node, env: Env, depth: int): (v: Verdict)
    ensures v.tree == Some(t)
    ensures v.valid <==> depth <= env.maxDepth && StartsWithAllowedKeyword(env.render(t))
    ensures v.valid <==> v.error.None?
  {
    if depth > env.maxDepth then Verdict(false, Some(TooComplexMessage), Some(t))
    else if !StartsWithAllowedKeyword(env.render(t)) then Verdict(false, Some(OnlySelectMessage), Some(t))
    else Verdict(true, None, Some(t))
  }

  /** `v` is what the gate returns for `input`. */
  ghost predicate IsGateVerdict(input: SqlInput, env: Env, v: Verdict) {
    match Screen(input, env)
    case Rejected(r) => v == r
    case Passed(t) => exists d :: IsAnalyzerDepth(env.scopes(t), env.render(t), d) && v == Finish(t, env, d)
  }

  /** The keyword test on the re-serialised text. */
  method CheckKeyword(text: string) returns (ok: bool)
    ensures ok <==> StartsWithAllowedKeyword(text)
  {
    var head := Upper(Strip(text));
    ok := false;
    var k := 0;
    while k < |AllowedSqlKeywords|
      invariant 0 <= k <= |AllowedSqlKeywords|
      invariant ok <==> exists j :: 0 <= j < k && StartsWith(head, AllowedSqlKeywords[j])
    {
      if StartsWith(head, AllowedSqlKeywords[k]) {
        ok := true;
      }
      k := k + 1;
    }
  }

  /** The loop over `parsed.walk()` that stops at the first disallowed node. */
  method HasDisallowedNode(t: Node) returns (found: bool)
    ensures found <==> ContainsDisallowed(t)
  {
    var nodes := Walk(t);
    var i := 0;
    while i < |nodes|
      invariant 0 <= i <= |nodes|
      invariant forall j :: 0 <= j < i ==> !IsDisallowed(nodes[j].kind)
    {
      if IsDisallowed(nodes[i].kind) {
        WalkFindsDisallowed(t);
        return true;
      }
      i := i + 1;
    }
    WalkFindsDisallowed(t);
    found := false;
  }

  /** `validate_sql_with_sqlglot`: the checks in order, stopping at the first failure. */
  method ValidateSql(input: SqlInput, env: Env) returns (v: Verdict)
    ensures IsGateVerdict(input, env, v)
  {
    if input.NotText? || Strip(input.text) == [] {
      return Verdict(false, Some(EmptyMessage), None);
    }
    var sql := input.text;
    var parsed := env.parse(sql);
    if parsed.None? {
      return Verdict(false, Some(SyntaxMessage(sql)), None);
    }
    var t := parsed.value;
    var unsafe := HasDisallowedNode(t);
    if unsafe {
      return Verdict(false, Some(UnsafeMessage()), Some(t));
    }
    var queryDepth := ComputeFromParsed(env.scopes(t), env.render(t));
    if queryDepth > env.maxDepth {
      return Verdict(false, Some(TooComplexMessage), Some(t));
    }
    var ok := CheckKeyword(env.render(t));
    if !ok {
      return Verdict(false, Some(OnlySelectMessage), Some(t));
    }
    v := Verdict(true, None, Some(t));
  }

  /** The gate answers one verdict per input. */
  lemma GateDeterministic(input: SqlInput, env: Env, v1: Verdict, v2: Verdict)
    requires IsGateVerdict(input, env, v1) && IsGateVerdict(input, env, v2)
    ensures v1 == v2
  {
    if Screen(input, env).Passed? {
      var t := Screen(input, env).tree;
      var d1 :| IsAnalyzerDepth(env.scopes(t), env.render(t), d1) && v1 == Finish(t, env, d1);
      var d2 :| IsAnalyzerDepth(env.scopes(t), env.render(t), d2) && v2 == Finish(t, env, d2);
      AnalyzerDepthUnique(env.scopes(t), env.render(t), d1, d2);
    }
  }

  /** A rejection always carries a message. */
  lemma RejectedHasMessage(input: SqlInput, env: Env, v: Verdict)
    requires IsGateVerdict(input, env, v) && !v.valid
    ensures v.error.Some?
  {
    if Screen(input, env).Passed? {
      var t := Screen(input, env).tree;
      var d :| IsAnalyzerDepth(env.scopes(t), env.render(t), d) && v == Finish(t, env, d);
    }
  }

  /**
   * What an accepted query satisfies: it is non-blank text that parses, no node of its
   * tree (nor of the walk) is a mutating kind, its analyzer depth is within the limit,
   * and its re-serialised text starts with SELECT or WITH.
   */
  lemma AcceptedIsReadOnly(input: SqlInput, env: Env, v: Verdict)
    requires IsGateVerdict(input, env, v) && v.valid
    ensures input.SqlText? && !AllSpace(input.text)
    ensures env.parse(input.text).Some? && v.tree == env.parse(input.text) && v.error.None?
    ensures !ContainsDisallowed(v.tree.value)
    ensures forall n :: n in Walk(v.tree.value) ==> !IsDisallowed(n.kind)
    ensures forall d :: IsAnalyzerDepth(env.scopes(v.tree.value), env.render(v.tree.value), d) ==> d <= env.maxDepth
    ensures StartsWithAllowedKeyword(env.render(v.tree.value))
  {
    var t := Screen(input, env).tree;
    WalkFindsDisallowed(t);
    var d0 :| IsAnalyzerDepth(env.scopes(t), env.render(t), d0) && v == Finish(t, env, d0);
    forall d | IsAnalyzerDepth(env.scopes(t), env.render(t), d)
      ensures d <= env.maxDepth
    {
      AnalyzerDepthUnique(env.scopes(t), env.render(t), d, d0);
    }
  }

  /** A tree with a mutating node anywhere is rejected with the fixed message and returned. */
  lemma DisallowedRejected(input: SqlInput, env: Env, v: Verdict)
    requires IsGateVerdict(input, env, v)
    requires input.SqlText? && !AllSpace(input.text) && env.parse(input.text).Some?
    requires exists n :: n in Walk(env.parse(input.text).value) && IsDisallowed(n.kind)
    ensures v == Verdict(false, Some(UnsafeMessage()), env.parse(input.text))
  {
    WalkFindsDisallowed(env.parse(input.text).value);
  }

  /** A query deeper than the limit is rejected as too complex, whatever its keyword. */
  lemma TooDeepRejected(input: SqlInput, env: Env, v: Verdict, d: int)
    requires IsGateVerdict(input, env, v) && Screen(input, env).Passed?
    requires IsAnalyzerDepth(env.scopes(Screen(input, env).tree), env.render(Screen(input, env).tree), d)
    requires d > env.maxDepth
    ensures v == Verdict(false, Some(TooComplexMessage), Some(Screen(input, env).tree))
  {
    VerdictAtDepth(input, env, v, d);
  }

  /** Once the screening passes, the verdict is the depth-and-keyword check at the analyzer's depth. */
  lemma VerdictAtDepth(input: SqlInput, env: Env, v: Verdict, d: int)
    requires IsGateVerdict(input, env, v) && Screen(input, env).Passed?
    requires IsAnalyzerDepth(env.scopes(Screen(input, env).tree), env.render(Screen(input, env).tree), d)
    ensures v == Finish(Screen(input, env).tree, env, d)
  {
    var t := Screen(input, env).tree;
    var d0 :| IsAnalyzerDepth(env.scopes(t), env.render(t), d0) && v == Finish(t, env, d0);
    AnalyzerDepthUnique(env.scopes(t), env.render(t), d, d0);
  }

  /** Within the depth limit, a query whose text does not start with SELECT or WITH is refused. */
  lemma KeywordRejected(input: SqlInput, env: Env, v: Verdict, d: int)
    requires IsGateVerdict(input, env, v) && Screen(input, env).Passed?
    requires IsAnalyzerDepth(env.scopes(Screen(input, env).tree), env.render(Screen(input, env).tree), d)
    requires d <= env.maxDepth && !StartsWithAllowedKeyword(env.render(Screen(input, env).tree))
    ensures v == Verdict(false, Some(OnlySelectMessage), Some(Screen(input, env).tree))
  {
    VerdictAtDepth(input, env, v, d);
  }

  /** A query that passes every check is accepted with its tree and no message. */
  lemma AllChecksAccepted(input: SqlInput, env: Env, v: Verdict, d: int)
    requires IsGateVerdict(input, env, v) && Screen(input, env).Passed?
    requires IsAnalyzerDepth(env.scopes(Screen(input, env).tree), env.render(Screen(input, env).tree), d)
    requires d <= env.maxDepth && StartsWithAllowedKeyword(env.render(Screen(input, env).tree))
    ensures v == Verdict(true, None, Some(Screen(input, env).tree))
  {
    VerdictAtDepth(input, env, v, d);
  }

  /** Text that does not parse is refused with a message that repeats it, and no tree. */
  lemma ParseFailureRejected(input: SqlInput, env: Env, v: Verdict)
    requires IsGateVerdict(input, env, v)
    requires input.SqlText? && !AllSpace(input.text) && env.parse(input.text).None?
    ensures v == Verdict(false, Some("Invalid SQL syntax: " + input.text), None)
  {
  }

  /** The empty and non-text inputs are refused before anything is parsed. */
  lemma BlankRejected(input: SqlInput, env: Env, v: Verdict)
    requires IsGateVerdict(input, env, v)
    requires input.NotText? || AllSpace(input.text)
    ensures v == Verdict(false, Some(EmptyMessage), None)
  {
  }
}
