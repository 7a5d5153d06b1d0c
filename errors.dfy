/**
 * `map_exception_to_response` (web/dbqueryapp/errors.py): a first-match table from the
 * class of an exception to an HTTP status, a fixed message and a log level.
 *
 * Exception classes are an enumeration with their base classes made explicit, so that
 * `isinstance` becomes the reflexive-transitive closure `Isa` of the base-class link.
 * Besides the classes the table names, the enumeration holds the bases they sit under
 * and a few subclasses, so that the first-match order can be observed.  Whether the
 * optional psycopg driver imported is a parameter.
 */
module ErrorMapping {
  import opened Wrappers

  datatype ExcClass =
    // psycopg.errors
    | PgError | PgDatabaseError | PgProgrammingError | PgSyntaxErrorOrAccessRuleViolation
    | PgSyntaxError | PgUndefinedTable | PgUndefinedColumn | PgInsufficientPrivilege
    | PgIntegrityError | PgUniqueViolation | PgOperationalError
    // django.db
    | DbError | DbDatabaseError | DbInterfaceError | DbDataError | DbOperationalError
    | DbIntegrityError | DbInternalError | DbProgrammingError | DbNotSupportedError
    // django.core.exceptions (SuspiciousSession comes from the sessions app)
    | SuspiciousOperation | SuspiciousSession
    // the root, and any unrelated exception such as ValueError
    | BaseException | OtherException

  /** The direct base class; None for the root. */
  function Parent(c: ExcClass): Option<ExcClass> {
    match c
    case BaseException => None
    case OtherException => Some(BaseException)
    case PgError => Some(BaseException)
    case PgDatabaseError => Some(PgError)
    case PgProgrammingError => Some(PgDatabaseError)
    case PgSyntaxErrorOrAccessRuleViolation => Some(PgProgrammingError)
    case PgSyntaxError => Some(PgSyntaxErrorOrAccessRuleViolation)
    case PgUndefinedTable => Some(PgSyntaxErrorOrAccessRuleViolation)
    case PgUndefinedColumn => Some(PgSyntaxErrorOrAccessRuleViolation)
    case PgInsufficientPrivilege => Some(PgSyntaxErrorOrAccessRuleViolation)
    case PgIntegrityError => Some(PgDatabaseError)
    case PgUniqueViolation => Some(PgIntegrityError)
    case PgOperationalError => Some(PgDatabaseError)
    case DbError => Some(BaseException)
    case DbDatabaseError => Some(DbError)
    case DbInterfaceError => Some(DbError)
    case DbDataError => Some(DbDatabaseError)
    case DbOperationalError => Some(DbDatabaseError)
    case DbIntegrityError => Some(DbDatabaseError)
    case DbInternalError => Some(DbDatabaseError)
    case DbProgrammingError => Some(DbDatabaseError)
    case DbNotSupportedError => Some(DbDatabaseError)
    case SuspiciousOperation => Some(BaseException)
    case SuspiciousSession => Some(SuspiciousOperation)
  }

  /** `isinstance(e, d)` for an exception of class `c`: `c` is `d` or lies below it. */
  predicate Isa(c: ExcClass, d: ExcClass) {
    match d
    case PgError => c.PgError? || c.PgDatabaseError? || c.PgProgrammingError?
      || c.PgSyntaxErrorOrAccessRuleViolation? || c.PgSyntaxError? || c.PgUndefinedTable?
      || c.PgUndefinedColumn? || c.PgInsufficientPrivilege? || c.PgIntegrityError?
      || c.PgUniqueViolation? || c.PgOperationalError?
    case PgDatabaseError => c.PgDatabaseError? || c.PgProgrammingError?
      || c.PgSyntaxErrorOrAccessRuleViolation? || c.PgSyntaxError? || c.PgUndefinedTable?
      || c.PgUndefinedColumn? || c.PgInsufficientPrivilege? || c.PgIntegrityError?
      || c.PgUniqueViolation? || c.PgOperationalError?
    case PgProgrammingError => c.PgProgrammingError? || c.PgSyntaxErrorOrAccessRuleViolation?
      || c.PgSyntaxError? || c.PgUndefinedTable? || c.PgUndefinedColumn?
      || c.PgInsufficientPrivilege?
    case PgSyntaxErrorOrAccessRuleViolation => c.PgSyntaxErrorOrAccessRuleViolation?
      || c.PgSyntaxError? || c.PgUndefinedTable? || c.PgUndefinedColumn?
      || c.PgInsufficientPrivilege?
    case PgSyntaxError => c.PgSyntaxError?
    case PgUndefinedTable => c.PgUndefinedTable?
    case PgUndefinedColumn => c.PgUndefinedColumn?
    case PgInsufficientPrivilege => c.PgInsufficientPrivilege?
    case PgIntegrityError => c.PgIntegrityError? || c.PgUniqueViolation?
    case PgUniqueViolation => c.PgUniqueViolation?
    case PgOperationalError => c.PgOperationalError?
    case DbError => c.DbError? || c.DbDatabaseError? || c.DbInterfaceError? || c.DbDataError?
      || c.DbOperationalError? || c.DbIntegrityError? || c.DbInternalError? || c.DbProgrammingError?
      || c.DbNotSupportedError?
    case DbDatabaseError => c.DbDatabaseError? || c.DbDataError? || c.DbOperationalError?
      || c.DbIntegrityError? || c.DbInternalError? || c.DbProgrammingError?
      || c.DbNotSupportedError?
    case DbInterfaceError => c.DbInterfaceError?
    case DbDataError => c.DbDataError?
    case DbOperationalError => c.DbOperationalError?
    case DbIntegrityError => c.DbIntegrityError?
    case DbInternalError => c.DbInternalError?
    case DbProgrammingError => c.DbProgrammingError?
    case DbNotSupportedError => c.DbNotSupportedError?
    case SuspiciousOperation => c.SuspiciousOperation? || c.SuspiciousSession?
    case SuspiciousSession => c.SuspiciousSession?
    case BaseException => true
    case OtherException => c.OtherException?
  }

  /**
   * The table above is the closure of the base-class link: `isinstance` holds of the
   * class itself and of whatever its base is an instance of, and of nothing else.
   */
  lemma IsaFollowsParents(c: ExcClass, d: ExcClass)
    ensures Isa(c, d) <==> c == d || (Parent(c).Some? && Isa(Parent(c).value, d))
  {
  }

  /** `isinstance` along base classes composes. */
  lemma IsaTransitive(a: ExcClass, b: ExcClass, d: ExcClass)
    requires Isa(a, b) && Isa(b, d)
    ensures Isa(a, d)
  {
  }

  /** Two different classes are never instances of each other both ways. */
  lemma IsaAntisymmetric(a: ExcClass, b: ExcClass)
    requires Isa(a, b) && Isa(b, a)
    ensures a == b
  {
  }

  /** The two log levels. */
  datatype LogLevel = Error | Warning

  function LevelName(l: LogLevel): string {
    match l
    case Error => "ERROR"
    case Warning => "WARNING"
  }

  /** The fixed, client-safe messages; none of them carries text from the exception. */
  datatype Message =
    | SqlSyntax | MissingTable | MissingColumn | PermissionDenied | ConstraintViolation
    | InvalidSql | InvalidData | Unavailable | DatabaseFailure | Suspicious | ServerError

  function MessageText(m: Message): string {
    match m
    case SqlSyntax => "SQL syntax error."
    case MissingTable => "Referenced table does not exist."
    case MissingColumn => "Referenced column does not exist."
    case PermissionDenied => "Permission denied to execute this query."
    case ConstraintViolation => "Database constraint violation."
    case InvalidSql => "SQL syntax error or invalid SQL referenced."
    case InvalidData => "Invalid data encountered when executing the query."
    case Unavailable => "Database temporarily unavailable; please try again later."
    case DatabaseFailure => "Database error while executing query."
    case Suspicious => "Suspicious request or session data detected."
    case ServerError => "Server error processing the request."
  }

  /** `(http_status, safe_message, log_level)`. */
  datatype Response = Response(status: int, message: Message, level: LogLevel)

  const ServerErrorResponse := Response(500, ServerError, Error)
  const UnavailableResponse := Response(503, Unavailable, Error)

  /** One of the psycopg classes the table names, when the driver imported. */
  predicate PgMatch(c: ExcClass, pgAvailable: bool) {
    pgAvailable
    && (|| Isa(c, PgSyntaxError) || Isa(c, PgUndefinedTable) || Isa(c, PgUndefinedColumn)
        || Isa(c, PgInsufficientPrivilege) || Isa(c, PgIntegrityError))
  }

  /** `map_exception_to_response`: the first matching row of the table. */
  function MapException(c: ExcClass, pgAvailable: bool): (r: Response)
    ensures r.status in {400, 403, 409, 500, 503}
    ensures r.level == Error <==> r.status >= 500
  {
    if pgAvailable && Isa(c, PgSyntaxError) then Response(400, SqlSyntax, Warning)
    else if pgAvailable && Isa(c, PgUndefinedTable) then Response(400, MissingTable, Warning)
    else if pgAvailable && Isa(c, PgUndefinedColumn) then Response(400, MissingColumn, Warning)
    else if pgAvailable && Isa(c, PgInsufficientPrivilege) then Response(403, PermissionDenied, Warning)
    else if pgAvailable && Isa(c, PgIntegrityError) then Response(409, ConstraintViolation, Warning)
    else if Isa(c, DbProgrammingError) then Response(400, InvalidSql, Warning)
    else if Isa(c, DbDataError) then Response(400, InvalidData, Warning)
    else if Isa(c, DbIntegrityError) then Response(409, ConstraintViolation, Warning)
    else if Isa(c, DbOperationalError) || Isa(c, DbInterfaceError) then UnavailableResponse
    else if Isa(c, DbDatabaseError) then Response(500, DatabaseFailure, Error)
    else if Isa(c, SuspiciousOperation) then Response(403, Suspicious, Warning)
    else ServerErrorResponse
  }

  /** The classes under psycopg's base class. */
  predicate IsPsycopg(c: ExcClass) {
    Isa(c, PgError)
  }

  /** The classes under Django's database base class. */
  predicate IsDjangoDb(c: ExcClass) {
    Isa(c, DbError)
  }

  /** No class is both a psycopg and a Django database class. */
  lemma DriverFamiliesDisjoint(c: ExcClass)
    ensures !(IsPsycopg(c) && IsDjangoDb(c))
  {
  }

  /** With the driver present, its classes are answered first, before the Django rows. */
  lemma PsycopgRows(c: ExcClass)
    ensures Isa(c, PgSyntaxError) ==> MapException(c, true) == Response(400, SqlSyntax, Warning)
    ensures Isa(c, PgUndefinedTable) ==> MapException(c, true) == Response(400, MissingTable, Warning)
    ensures Isa(c, PgUndefinedColumn) ==> MapException(c, true) == Response(400, MissingColumn, Warning)
    ensures Isa(c, PgInsufficientPrivilege) ==> MapException(c, true) == Response(403, PermissionDenied, Warning)
    ensures Isa(c, PgIntegrityError) ==> MapException(c, true) == Response(409, ConstraintViolation, Warning)
  {
  }

  /** The Django rows that name one class each, for any class outside the psycopg family. */
  lemma DjangoRows(c: ExcClass, pgAvailable: bool)
    requires !IsPsycopg(c)
    ensures Isa(c, DbProgrammingError) ==> MapException(c, pgAvailable) == Response(400, InvalidSql, Warning)
    ensures Isa(c, DbDataError) ==> MapException(c, pgAvailable) == Response(400, InvalidData, Warning)
    ensures Isa(c, DbIntegrityError) ==> MapException(c, pgAvailable) == Response(409, ConstraintViolation, Warning)
    ensures Isa(c, DbOperationalError) || Isa(c, DbInterfaceError) ==> MapException(c, pgAvailable) == UnavailableResponse
  {
  }

  /** The catch-all database row, and the suspicious-request row after it. */
  lemma DjangoCatchAllRows(c: ExcClass, pgAvailable: bool)
    requires !IsPsycopg(c)
    ensures (Isa(c, DbInternalError) || Isa(c, DbNotSupportedError) || c == DbDatabaseError)
            ==> MapException(c, pgAvailable) == Response(500, DatabaseFailure, Error)
    ensures Isa(c, SuspiciousOperation) ==> MapException(c, pgAvailable) == Response(403, Suspicious, Warning)
  {
  }

  /** A class outside the psycopg family matches none of the psycopg rows. */
  lemma NotPgMatch(c: ExcClass, pgAvailable: bool)
    requires !IsPsycopg(c)
    ensures !PgMatch(c, pgAvailable)
  {
  }

  /** The driver flag only matters for psycopg classes. */
  lemma DriverFlagIrrelevant(c: ExcClass)
    requires !IsPsycopg(c)
    ensures MapException(c, true) == MapException(c, false)
  {
    NotPgMatch(c, true);
  }

  /** The generic answer is given exactly to exceptions no row names. */
  lemma FallbackExactly(c: ExcClass, pgAvailable: bool)
    ensures MapException(c, pgAvailable) == ServerErrorResponse
        <==> !PgMatch(c, pgAvailable) && !Isa(c, DbDatabaseError) && !Isa(c, DbInterfaceError) && !Isa(c, SuspiciousOperation)
  {
  }

  /** A psycopg class the table does not name falls through to the generic answer. */
  lemma UnnamedDriverClass()
    ensures MapException(PgOperationalError, true) == ServerErrorResponse
  {
  }

  /** A subclass of a named psycopg class is answered by that class's row. */
  lemma DriverSubclass()
    ensures MapException(PgUniqueViolation, true) == Response(409, ConstraintViolation, Warning)
  {
  }

  /** Without the driver, its classes are not recognised at all. */
  lemma DriverMissing()
    ensures MapException(PgSyntaxError, false) == ServerErrorResponse
  {
  }
}
