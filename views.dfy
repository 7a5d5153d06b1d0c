/**
 * The session and export helpers of web/dbqueryapp/views.py and the validate-then-execute
 * flow of its `home` view.
 *
 * Python values that reach the session are a small datatype; a dict is an ordered list
 * of key/value pairs, as Python dicts keep insertion order.  The database is a class
 * that records every statement sent to it and answers from a fixed function, so that
 * what `home` executes can be stated.
 */
module Views {
  import opened Wrappers
  import opened PyStr
  import opened SqlTree
  import opened SqlGate
  import opened ErrorMapping

  // ----------------------------------------------------------------------------------
  // Values
  // ----------------------------------------------------------------------------------

  /** A finite `decimal.Decimal`: (-1)^negative * coefficient * 10^exponent. */
  datatype Decimal = Decimal(negative: bool, coefficient: nat, exponent: int)

  /** The Python values that rows and session entries are made of. */
  datatype PyValue =
    | PyNone
    | PyInt(i: int)
    | PyText(s: string)
    | PyDecimal(d: Decimal)
    | PyList(items: seq<PyValue>)
    | PyDict(entries: seq<(string, PyValue)>)

  type Dict = seq<(string, PyValue)>

  function Zeros(n: nat): (r: string)
    ensures |r| == n && forall k :: 0 <= k < n ==> r[k] == '0'
  {
    seq(n, k => '0')
  }

  /**
   * `str(d)` for a finite Decimal: plain notation when the exponent is not positive
   * and the number is not too small, scientific notation with one leading digit otherwise.
   */
  function DecimalStr(d: Decimal): (r: string)
    ensures r != []
  {
    var digits := NatToString(d.coefficient);
    var left := d.exponent + |digits|;
    var dot := if d.exponent <= 0 && left > -6 then left else 1;
    var intPart :=
      if dot <= 0 then "0"
      else if dot >= |digits| then digits + Zeros(dot - |digits|)
      else digits[..dot];
    var fracPart :=
      if dot <= 0 then "." + Zeros(-dot) + digits
      else if dot >= |digits| then ""
      else "." + digits[dot..];
    var exp :=
      if left == dot then ""
      else "E" + (if left - dot >= 0 then "+" else "-") + NatToString(if left - dot >= 0 then left - dot else dot - left);
    (if d.negative then "-" else "") + intPart + fracPart + exp
  }

  /** A whole number with exponent zero prints as its digits. */
  lemma {:induction false} DecimalStrWhole(n: nat)
    ensures DecimalStr(Decimal(false, n, 0)) == NatToString(n)
  {
    var digits := NatToString(n);
    assert digits + Zeros(0) == digits;
  }

  /** A few printed forms. */
  lemma DecimalStrExamples()
    ensures DecimalStr(Decimal(false, 1050, -2)) == "10.50"
    ensures DecimalStr(Decimal(true, 5, -3)) == "-0.005"
  {
    assert NatToString(1050) == "1050";
    assert NatToString(5) == "5";
  }

  /** Python truthiness (`bool(v)`). */
  predicate Truthy(v: PyValue) {
    match v
    case PyNone => false
    case PyInt(i) => i != 0
    case PyText(s) => s != []
    case PyDecimal(d) => d.coefficient != 0
    case PyList(items) => items != []
    case PyDict(entries) => entries != []
  }

  /** The keys of a dict, in order. */
  function DictKeys(d: Dict): (r: seq<string>)
    ensures |r| == |d| && forall i :: 0 <= i < |d| ==> r[i] == d[i].0
  {
    if d == [] then [] else [d[0].0] + DictKeys(d[1..])
  }

  /** `d.get(k)`. */
  function DictGet(d: Dict, k: string): (r: Option<PyValue>)
    ensures r.Some? <==> k in DictKeys(d)
  {
    if d == [] then None
    else if d[0].0 == k then Some(d[0].1)
    else DictGet(d[1..], k)
  }

  /** `d[k] = v`: an existing key keeps its position, a new key goes last. */
  function DictSet(d: Dict, k: string, v: PyValue): (r: Dict)
    ensures DictGet(r, k) == Some(v)
    ensures forall k' :: k' != k ==> DictGet(r, k') == DictGet(d, k')
  {
    if d == [] then [(k, v)]
    else if d[0].0 == k then [(k, v)] + d[1..]
    else [d[0]] + DictSet(d[1..], k, v)
  }

  /** Assignment keeps the order of the keys and adds a new key at the end. */
  lemma {:induction false} DictSetKeys(d: Dict, k: string, v: PyValue)
    ensures k in DictKeys(d) ==> DictKeys(DictSet(d, k, v)) == DictKeys(d)
    ensures k !in DictKeys(d) ==> DictKeys(DictSet(d, k, v)) == DictKeys(d) + [k]
  {
    if d != [] && d[0].0 != k {
      DictSetKeys(d[1..], k, v);
      var r := DictSet(d, k, v);
      assert r[1..] == DictSet(d[1..], k, v);
    }
  }

  /** A Python dict never holds a key twice. */
  predicate UniqueKeys(d: Dict) {
    forall i, j :: 0 <= i < j < |d| ==> DictKeys(d)[i] != DictKeys(d)[j]
  }

  /** Assignment keeps the keys of a dict distinct. */
  lemma DictSetUnique(d: Dict, k: string, v: PyValue)
    requires UniqueKeys(d)
    ensures UniqueKeys(DictSet(d, k, v))
  {
    DictSetKeys(d, k, v);
  }

  // ----------------------------------------------------------------------------------
  // _convert_decimal_to_serializable
  // ----------------------------------------------------------------------------------

  /** No Decimal anywhere inside the value: what the JSON session serializer accepts. */
  predicate DecimalFree(v: PyValue)
    decreases v
  {
    match v
    case PyDecimal(_) => false
    case PyList(items) => forall i :: 0 <= i < |items| ==> DecimalFree(items[i])
    case PyDict(entries) => forall i :: 0 <= i < |entries| ==> DecimalFree(DictValue(v, i))
    case _ => true
  }

  /** The value of the `i`-th entry of a dict value. */
  function DictValue(v: PyValue, i: nat): (r: PyValue)
    requires v.PyDict? && i < |v.entries|
    ensures r < v
  {
    assert v.entries[i] < v;
    v.entries[i].1
  }

  /**
   * `r` is `v` with every Decimal leaf replaced by its `str`: lists keep their length,
   * dicts their keys in order, and every other value is unchanged.
   */
  predicate SameShape(v: PyValue, r: PyValue)
    decreases v
  {
    match v
    case PyDecimal(d) => r == PyText(DecimalStr(d))
    case PyList(items) =>
      && r.PyList? && |r.items| == |items|
      && forall i :: 0 <= i < |items| ==> SameShape(items[i], r.items[i])
    case PyDict(entries) =>
      && r.PyDict? && DictKeys(r.entries) == DictKeys(entries)
      && forall i :: 0 <= i < |entries| ==> SameShape(DictValue(v, i), r.entries[i].1)
    case _ => r == v
  }

  /** `_convert_decimal_to_serializable`. */
  function ConvertDecimals(v: PyValue): (r: PyValue)
    ensures DecimalFree(r)
    ensures SameShape(v, r)
    decreases v
  {
    match v
    case PyDecimal(d) => PyText(DecimalStr(d))
    case PyList(items) => PyList(seq(|items|, i requires 0 <= i < |items| => ConvertDecimals(items[i])))
    case PyDict(entries) =>
      var r := PyDict(seq(|entries|, i requires 0 <= i < |entries| => (entries[i].0, ConvertDecimals(DictValue(v, i)))));
      assert forall i :: 0 <= i < |entries| ==> DictValue(r, i) == r.entries[i].1;
      r
    case _ => v
  }

  /** A value without Decimals is returned as it is. */
  lemma {:induction false} ConvertFixesDecimalFree(v: PyValue)
    requires DecimalFree(v)
    ensures ConvertDecimals(v) == v
    decreases v
  {
    match v
    case PyList(items) =>
      forall i | 0 <= i < |items| ensures ConvertDecimals(items[i]) == items[i] {
        ConvertFixesDecimalFree(items[i]);
      }
    case PyDict(entries) =>
      forall i | 0 <= i < |entries| ensures ConvertDecimals(DictValue(v, i)) == entries[i].1 {
        ConvertFixesDecimalFree(DictValue(v, i));
      }
      var r := ConvertDecimals(v);
      assert |r.entries| == |entries|;
      forall i | 0 <= i < |entries| ensures r.entries[i] == entries[i] {
      }
    case _ =>
  }

  /** The conversion changes a value exactly when it holds a Decimal. */
  lemma {:induction false} ConvertIdentityIff(v: PyValue)
    ensures ConvertDecimals(v) == v <==> DecimalFree(v)
  {
    if DecimalFree(v) {
      ConvertFixesDecimalFree(v);
    }
  }

  /** Converting twice is converting once. */
  lemma {:induction false} ConvertIdempotent(v: PyValue)
    ensures ConvertDecimals(ConvertDecimals(v)) == ConvertDecimals(v)
  {
    ConvertFixesDecimalFree(ConvertDecimals(v));
  }

  // ----------------------------------------------------------------------------------
  // RequestQueryData
  // ----------------------------------------------------------------------------------

  datatype RequestQueryData = RequestQueryData(sql: PyValue, result: PyValue)

  const SqlKey := "sql"
  const ResultKey := "result"

  /** `to_dict`: exactly the two keys, in this order. */
  function ToDict(q: RequestQueryData): (r: Dict)
    ensures DictKeys(r) == [SqlKey, ResultKey]
    ensures DictGet(r, SqlKey) == Some(q.sql) && DictGet(r, ResultKey) == Some(q.result)
  {
    [(SqlKey, q.sql), (ResultKey, q.result)]
  }

  /** `from_dict`: a missing key gives None for that field. */
  function FromDict(data: Dict): (q: RequestQueryData)
    ensures SqlKey in DictKeys(data) ==> DictGet(data, SqlKey) == Some(q.sql)
    ensures SqlKey !in DictKeys(data) ==> q.sql == PyNone
    ensures ResultKey in DictKeys(data) ==> DictGet(data, ResultKey) == Some(q.result)
    ensures ResultKey !in DictKeys(data) ==> q.result == PyNone
  {
    RequestQueryData(DictGet(data, SqlKey).GetOr(PyNone), DictGet(data, ResultKey).GetOr(PyNone))
  }

  lemma FromDictToDict(q: RequestQueryData)
    ensures FromDict(ToDict(q)) == q
  {
  }

  // ----------------------------------------------------------------------------------
  // _save_data_in_session
  // ----------------------------------------------------------------------------------

  const DataKey := "data"

  /** `request.session.get('data', {})`, with a non-dict read as `{}`. */
  function StoredQueries(items: Dict): (r: Dict)
    ensures DictGet(items, DataKey).Some? && DictGet(items, DataKey).value.PyDict? ==> r == DictGet(items, DataKey).value.entries
    ensures !(DictGet(items, DataKey).Some? && DictGet(items, DataKey).value.PyDict?) ==> r == []
  {
    match DictGet(items, DataKey)
    case Some(PyDict(entries)) => entries
    case _ => []
  }

  /** The entry saved for a query: its SQL and its result with Decimals converted. */
  function SavedEntry(sql: PyValue, result: PyValue): PyValue {
    PyDict(ToDict(RequestQueryData(sql, ConvertDecimals(result))))
  }

  /** The session contents after saving `entry` under `queryId`. */
  function StoreEntry(items: Dict, queryId: string, entry: PyValue): Dict {
    DictSet(items, DataKey, PyDict(DictSet(StoredQueries(items), queryId, entry)))
  }

  /** The Django session of one request. */
  class Session {
    var items: Dict
    var modified: bool

    constructor(items: Dict)
      ensures this.items == items && !modified
    {
      this.items := items;
      modified := false;
    }

    /** `_save_data_in_session`. */
    method SaveDataInSession(sql: PyValue, result: PyValue, queryId: string)
      modifies this
      ensures items == StoreEntry(old(items), queryId, SavedEntry(sql, result))
      ensures modified
    {
      var requestData := RequestQueryData(sql, ConvertDecimals(result));
      var stored := match DictGet(items, DataKey) case Some(s) => s case None => PyDict([]);
      if !stored.PyDict? {
        stored := PyDict([]);
      }
      var updated := DictSet(stored.entries, queryId, PyDict(ToDict(requestData)));
      items := DictSet(items, DataKey, PyDict(updated));
      modified := true;
    }
  }

  /** After saving, the session holds the entry under `queryId` and is a dict of queries. */
  lemma {:induction false} StoreEntrySaved(items: Dict, queryId: string, entry: PyValue)
    ensures StoredQueries(StoreEntry(items, queryId, entry)) == DictSet(StoredQueries(items), queryId, entry)
    ensures DictGet(StoredQueries(StoreEntry(items, queryId, entry)), queryId) == Some(entry)
  {
  }

  /** Other saved queries, and every other session key, are left as they were. */
  lemma {:induction false} StoreEntryKeepsOthers(items: Dict, queryId: string, entry: PyValue, other: string, key: string)
    requires other != queryId && key != DataKey
    ensures DictGet(StoredQueries(StoreEntry(items, queryId, entry)), other) == DictGet(StoredQueries(items), other)
    ensures DictGet(StoreEntry(items, queryId, entry), key) == DictGet(items, key)
  {
  }

  /** A `data` value that is not a dict is discarded: only the new entry remains. */
  lemma {:induction false} StoreEntryResets(items: Dict, queryId: string, entry: PyValue)
    requires !(DictGet(items, DataKey).Some? && DictGet(items, DataKey).value.PyDict?)
    ensures StoredQueries(StoreEntry(items, queryId, entry)) == [(queryId, entry)]
  {
  }

  // ----------------------------------------------------------------------------------
  // export_results: the guards before the export query runs
  // ----------------------------------------------------------------------------------

  /** DEFAULT_DOWNLOAD_FORMATS. */
  const DownloadFormats: seq<string> := ["csv", "json", "sql"]

  const UnsupportedFormatMessage := "Unsupported format"
  const MissingSqlMessage := "Error: Unable to find corresponding SQL for download. Please try again."

  /** `p` occurs in `s` (Python's `p in s` on strings). */
  predicate HasSubstring(s: string, p: string) {
    exists i | 0 <= i <= |s| :: OccursAt(s, p, i)
  }

  /** `'sql' in v`; None when the operator raises TypeError. */
  function ContainsSqlKey(v: PyValue): Option<bool> {
    match v
    case PyDict(entries) => Some(SqlKey in DictKeys(entries))
    case PyText(s) => Some(HasSubstring(s, SqlKey))
    case PyList(items) => Some(PyText(SqlKey) in items)
    case _ => None
  }

  /** What `export_results` does before it touches the database. */
  datatype ExportStep =
    | Refuse(status: int, body: string)
    | Raises
    | RunExport(query: RequestQueryData, format: string)

  /**
   * The guards of `export_results`, for the `format` query parameter, the session
   * contents and the `query_id` of the URL.
   */
  function ExportGuard(formatParam: Option<string>, items: Dict, queryId: Option<string>): (r: ExportStep)
    ensures formatParam.GetOr("csv") !in DownloadFormats <==> r == Refuse(400, UnsupportedFormatMessage)
    ensures r.RunExport? ==> r.format == formatParam.GetOr("csv") && r.format in DownloadFormats
  {
    var format := formatParam.GetOr("csv");
    if format !in DownloadFormats then Refuse(400, UnsupportedFormatMessage)
    else
      var stored := StoredQueries(items);
      var sessionData := if queryId.None? then PyNone else DictGet(stored, queryId.value).GetOr(PyNone);
      if !Truthy(sessionData) then Refuse(503, MissingSqlMessage)
      else match ContainsSqlKey(sessionData)
        case None => Raises
        case Some(false) => Refuse(503, MissingSqlMessage)
        case Some(true) => if sessionData.PyDict? then RunExport(FromDict(sessionData.entries), format) else Raises
  }

  /** The format check comes first: the session is not consulted for a bad format. */
  lemma {:induction false} FormatCheckedFirst(formatParam: Option<string>, items1: Dict, items2: Dict, id1: Option<string>, id2: Option<string>)
    requires formatParam.GetOr("csv") !in DownloadFormats
    ensures ExportGuard(formatParam, items1, id1) == ExportGuard(formatParam, items2, id2)
  {
  }

  /** Without a format parameter the export is CSV. */
  lemma {:induction false} FormatDefaultsToCsv(items: Dict, queryId: Option<string>)
    ensures ExportGuard(None, items, queryId).RunExport? ==> ExportGuard(None, items, queryId).format == "csv"
    ensures !ExportGuard(None, items, queryId).Refuse? || ExportGuard(None, items, queryId).status == 503
  {
  }

  /** No saved entry, or a saved dict without `sql`, gives 503. */
  lemma {:induction false} MissingEntryRefused(formatParam: Option<string>, items: Dict, queryId: Option<string>)
    requires formatParam.GetOr("csv") in DownloadFormats
    requires queryId.None? || queryId.value !in DictKeys(StoredQueries(items))
             || (DictGet(StoredQueries(items), queryId.value).value.PyDict?
                 && SqlKey !in DictKeys(DictGet(StoredQueries(items), queryId.value).value.entries))
    ensures ExportGuard(formatParam, items, queryId) == Refuse(503, MissingSqlMessage)
  {
  }

  /** What `_save_data_in_session` stored is what the export runs, with its converted result. */
  lemma {:induction false} SavedQueryExports(formatParam: Option<string>, items: Dict, queryId: string, sql: PyValue, result: PyValue)
    requires formatParam.GetOr("csv") in DownloadFormats
    ensures ExportGuard(formatParam, StoreEntry(items, queryId, SavedEntry(sql, result)), Some(queryId))
         == RunExport(RequestQueryData(sql, ConvertDecimals(result)), formatParam.GetOr("csv"))
  {
    StoreEntrySaved(items, queryId, SavedEntry(sql, result));
    FromDictToDict(RequestQueryData(sql, ConvertDecimals(result)));
  }

  // ----------------------------------------------------------------------------------
  // _execute_sql and home
  // ----------------------------------------------------------------------------------

  /** What the database does with a statement: rows (each a dict), or an exception. */
  datatype ExecResult = Rows(rows: seq<PyValue>) | Raised(exc: ExcClass)

  /** The database connection: it answers from `answer` and records what it was sent. */
  class Database {
    const answer: string -> ExecResult
    var executed: seq<string>

    constructor(answer: string -> ExecResult)
      ensures this.answer == answer && executed == []
    {
      this.answer := answer;
      executed := [];
    }

    method Execute(sql: string) returns (r: ExecResult)
      modifies this
      ensures executed == old(executed) + [sql]
      ensures r == answer(sql)
    {
      executed := executed + [sql];
      r := answer(sql);
    }
  }

  /** `(result, error)` of `_execute_sql` for a database answer. */
  function ExecOutcome(e: ExecResult, pgAvailable: bool): (r: (Option<seq<PyValue>>, Option<string>))
    ensures r.0.Some? <==> r.1.None?
    ensures e.Rows? ==> r.0 == Some(e.rows)
    ensures e.Raised? ==> r.1 == Some(MessageText(MapException(e.exc, pgAvailable).message))
  {
    match e
    case Rows(rows) => (Some(rows), None)
    case Raised(c) => (None, Some(MessageText(MapException(c, pgAvailable).message)))
  }

  /** `_execute_sql`: the error text is always one of the fixed messages. */
  method ExecuteSql(db: Database, sql: string, pgAvailable: bool) returns (result: Option<seq<PyValue>>, error: Option<string>)
    modifies db
    ensures db.executed == old(db.executed) + [sql]
    ensures (result, error) == ExecOutcome(db.answer(sql), pgAvailable)
  {
    var r := db.Execute(sql);
    match r
    case Rows(rows) =>
      result, error := Some(rows), None;
    case Raised(c) =>
      var resp := MapException(c, pgAvailable);
      result, error := None, Some(MessageText(resp.message));
  }

  /** The POST data of a request, after form validation. */
  datatype Request = Request(
    isPost: bool,
    formType: Option<string>,
    formValid: bool,
    // `custom_form.cleaned_data.get('user_sql')`
    userSql: Option<string>,
    // `DEFAULT_SQL_QUERIES.get(form.cleaned_data['query'])`
    predefinedSql: Option<string>)

  const CustomFormType := "custom_sql_form"
  const QueryFormType := "query_form"
  const NoSqlMessage := "No SQL provided."
  const NoPredefinedMessage := "No SQL query found for the selected option."
  const UnsupportedFormMessage := "Unsupported form type submitted."

  /** The context `home` renders. */
  datatype Page = Page(
    result: Option<seq<PyValue>>,
    error: Option<string>,
    queryId: Option<string>,
    sql: Option<string>,
    formattedSql: Option<string>)

  /** The gate of `validate_sql_with_sqlglot` accepts a text. */
  ghost predicate GateAccepts(text: string, env: Env) {
    exists v :: IsGateVerdict(SqlText(text), env, v) && v.valid
  }

  /** The custom-SQL branch carries a non-empty text. */
  predicate CustomSubmission(req: Request) {
    req.isPost && req.formType == Some(CustomFormType) && req.formValid
    && req.userSql.Some? && req.userSql.value != []
  }

  /** The predefined-query branch found a non-empty query. */
  predicate PredefinedSubmission(req: Request) {
    req.isPost && req.formType == Some(QueryFormType) && req.formValid
    && req.predefinedSql.Some? && req.predefinedSql.value != []
  }

  /** The statements `home` sends to the database. */
  ghost function HomeExecutes(req: Request, env: Env): seq<string> {
    if CustomSubmission(req) then
      var cleaned := CleanSqlInput(req.userSql.value);
      if GateAccepts(cleaned, env) then [cleaned] else []
    else if PredefinedSubmission(req) then [req.predefinedSql.value]
    else []
  }

  /**
   * `home`.  `pretty` stands for `parsed_sql.sql(pretty=True)` and `newKey` for the
   * fresh key of `generate_unique_query_key`.
   */
  method Home(req: Request, env: Env, pretty: Node -> string, pgAvailable: bool, newKey: string,
              session: Session, db: Database) returns (page: Page)
    modifies session, db
    ensures db.executed == old(db.executed) + HomeExecutes(req, env)
    ensures page.result.Some? ==>
      |HomeExecutes(req, env)| == 1 && page.result == ExecOutcome(db.answer(HomeExecutes(req, env)[0]), pgAvailable).0
    ensures page.queryId.Some? <==> page.sql.Some? && page.sql.value != [] && page.result.Some?
    ensures page.queryId.Some? ==>
      && page.queryId == Some(newKey)
      && session.items == StoreEntry(old(session.items), newKey, SavedEntry(PyText(page.sql.value), PyList(page.result.value)))
      && session.modified
    ensures page.queryId.None? ==> session.items == old(session.items) && session.modified == old(session.modified)
    ensures CustomSubmission(req) ==> page.sql == Some(CleanSqlInput(req.userSql.value))
    ensures req.isPost && req.formType != Some(CustomFormType) && req.formType != Some(QueryFormType)
            ==> page.error == Some(UnsupportedFormMessage) && HomeExecutes(req, env) == []
  {
    var result: Option<seq<PyValue>> := None;
    var error: Option<string> := None;
    var queryId: Option<string> := None;
    var sql: Option<string> := None;
    var formattedSql: Option<string> := None;

    if req.isPost {
      if req.formType == Some(CustomFormType) {
        if req.formValid {
          sql := req.userSql;
          if sql.None? || sql.value == [] {
            error := Some(NoSqlMessage);
          } else {
            sql, result, error, formattedSql := RunCustomSql(sql.value, env, pretty, pgAvailable, db);
          }
        }
      } else if req.formType == Some(QueryFormType) {
        if req.formValid {
          sql := req.predefinedSql;
          if sql.None? || sql.value == [] {
            error := Some(NoPredefinedMessage);
          } else {
            var execErr;
            result, execErr := ExecuteSql(db, sql.value, pgAvailable);
            if execErr.Some? {
              error := execErr;
            }
            formattedSql := sql;
          }
        }
      } else {
        error := Some(UnsupportedFormMessage);
      }

      if sql.Some? && sql.value != [] && result.Some? {
        queryId := Some(newKey);
        session.SaveDataInSession(PyText(sql.value), PyList(result.value), newKey);
      }
    }
    page := Page(result, error, queryId, sql, formattedSql);
  }

  /** The `custom_sql_form` branch of `home` for a non-empty text: clean, validate, then execute. */
  method RunCustomSql(userSql: string, env: Env, pretty: Node -> string, pgAvailable: bool, db: Database)
    returns (sql: Option<string>, result: Option<seq<PyValue>>, error: Option<string>, formattedSql: Option<string>)
    modifies db
    ensures sql == Some(CleanSqlInput(userSql))
    ensures db.executed == old(db.executed) + (if GateAccepts(sql.value, env) then [sql.value] else [])
    ensures result == (if GateAccepts(sql.value, env) then ExecOutcome(db.answer(sql.value), pgAvailable).0 else None)
    ensures result.None? ==> error.Some?
  {
    var cleaned := CleanSqlInput(userSql);
    sql := Some(cleaned);
    result, formattedSql := None, None;
    var verdict := ValidateSql(SqlText(cleaned), env);
    error := verdict.error;
    if verdict.valid {
      var execErr;
      result, execErr := ExecuteSql(db, cleaned, pgAvailable);
      if execErr.Some? {
        error := execErr;
      }
      formattedSql := Some(if verdict.tree.Some? then pretty(verdict.tree.value) else cleaned);
    } else {
      forall v | IsGateVerdict(SqlText(cleaned), env, v) ensures !v.valid {
        GateDeterministic(SqlText(cleaned), env, v, verdict);
      }
      RejectedHasMessage(SqlText(cleaned), env, verdict);
    }
  }

  /** Custom SQL reaches the database only once the gate has accepted its cleaned text. */
  lemma {:induction false} CustomSqlExecutedOnlyIfValid(req: Request, env: Env)
    requires CustomSubmission(req)
    ensures HomeExecutes(req, env) != [] <==> GateAccepts(CleanSqlInput(req.userSql.value), env)
    ensures HomeExecutes(req, env) != [] ==> HomeExecutes(req, env) == [CleanSqlInput(req.userSql.value)]
  {
  }

  /** What reaches the database through the custom form holds no mutating statement. */
  lemma {:induction false} ExecutedCustomSqlIsReadOnly(req: Request, env: Env)
    requires CustomSubmission(req) && HomeExecutes(req, env) != []
    ensures exists v ::
      && IsGateVerdict(SqlText(HomeExecutes(req, env)[0]), env, v) && v.valid
      && v.tree.Some? && !ContainsDisallowed(v.tree.value)
  {
    var cleaned := CleanSqlInput(req.userSql.value);
    var v :| IsGateVerdict(SqlText(cleaned), env, v) && v.valid;
    AcceptedIsReadOnly(SqlText(cleaned), env, v);
  }
}
