/** The `_SQL` session object: one checked-out connection, its query
    bookkeeping, the fetch cursor over the last result and the detected
    dialect type.  Driver calls are replaced by their outcomes, given as
    parameters, so every asynchronous step happens in sequence. */
module Session {
  import opened Wrappers
  import opened Text
  import opened Dialect
  import opened Statements

  /** The alias configuration: `type`, `host`, `port`, `user`, `pass`,
      `name`, `prefix` and `connectionLimit`.  The port is kept as the text it
      renders as when concatenated. */
  datatype DbConfig = DbConfig(
    dbType: int,
    host: string,
    port: string,
    user: string,
    pass: string,
    name: string,
    prefix: string,
    connectionLimit: int)

  datatype Value = Num(n: int) | Str(s: string) | NullValue

  /** A result row: column name to value. */
  type Row = map<string, Value>

  /** A driver error: its `code` and whether the driver marked it fatal. */
  datatype DriverError = DriverError(code: string, fatal: bool)

  datatype DriverResult = Rows(rows: seq<Row>) | DriverFailed(error: DriverError)

  /** What the driver did with one query: the measured duration in seconds
      and the rows or the error. */
  datatype QueryOutcome = QueryOutcome(elapsed: real, result: DriverResult)

  const SET_NAMES_QUERY: string := "SET NAMES 'UTF8';"
  const VERSION_QUERY: string := "SELECT VERSION();"
  const NO_ROWS_MESSAGE: string := "No rows were returned!"

  /** The rows a session keeps after a query: a failed query leaves the
      previous rows in place. */
  function RowsAfter(previous: seq<Row>, outcome: QueryOutcome): seq<Row>
  {
    if outcome.result.Rows? then outcome.result.rows else previous
  }

  function QueryResultOf(outcome: QueryOutcome): Result<seq<Row>, DriverError>
  {
    match outcome.result
    case Rows(rows) => Success(rows)
    case DriverFailed(e) => Failure(e)
  }

  /** The `VERSION()` text of the probe's first row, when there is one. */
  function ProbedVersion(outcome: QueryOutcome): Option<string>
  {
    if outcome.result.Rows? && |outcome.result.rows| > 0
       && "VERSION()" in outcome.result.rows[0] && outcome.result.rows[0]["VERSION()"].Str?
    then Some(outcome.result.rows[0]["VERSION()"].s)
    else None
  }

  /** Why the table check rejects: `SHPS_ERROR_NO_ROWS`, whose text is
      NO_ROWS_MESSAGE, or the driver's error. */
  datatype HasTableError = NoRows(message: string) | QueryError(error: DriverError)

  datatype HasTableResult =
    | HasTableThrows(thrown: Thrown)
    | HasTableRejected(reason: HasTableError)
    | HasTableResolved(found: bool)

  datatype CreateTableError = CreateThrows(thrown: Thrown) | CreateFailed(error: DriverError)

  function CreateTableResultOf(outcome: QueryOutcome): Result<seq<Row>, CreateTableError>
  {
    match outcome.result
    case Rows(rows) => Success(rows)
    case DriverFailed(e) => Failure(CreateFailed(e))
  }

  /** Which release the session's `free` performs for its configuration type. */
  datatype ReleasePath = PoolRelease | ConnectionRelease | NoRelease

  function ReleasePathOf(configType: int): ReleasePath
  {
    if configType == MSSQL then PoolRelease
    else if configType == MARIA || configType == MYSQL then ConnectionRelease
    else NoRelease
  }

  /** `$rows[0].c > 0` for a numeric count column. */
  predicate CountPositive(row: Row)
  {
    "c" in row && row["c"].Num? && row["c"].n > 0
  }

  /** How the table check settles once its statement has run. */
  function TableCheckResult(outcome: QueryOutcome): HasTableResult
  {
    match outcome.result
    case DriverFailed(e) => HasTableRejected(QueryError(e))
    case Rows(rows) => if |rows| <= 0 then HasTableRejected(NoRows(NO_ROWS_MESSAGE)) else HasTableResolved(CountPositive(rows[0]))
  }

  /** The table check resolves exactly when the statement returned rows, and
      then to whether the first row's count is positive; zero rows reject. */
  lemma TableCheckSettles(outcome: QueryOutcome)
    ensures TableCheckResult(outcome).HasTableResolved? <==> outcome.result.Rows? && |outcome.result.rows| > 0
    ensures TableCheckResult(outcome) == HasTableRejected(NoRows(NO_ROWS_MESSAGE)) <==> outcome.result == Rows([])
    ensures TableCheckResult(outcome).HasTableResolved? ==>
      TableCheckResult(outcome).found == CountPositive(outcome.result.rows[0])
  {
  }

  class SqlSession {
    const config: DbConfig
    const clean: Cleaner
    var freeFlag: bool
    var lastQuery: string
    var queryCount: nat
    var queryTime: real
    var lastQueryTime: real
    var fetchIndex: int
    var resultRows: seq<Row>
    var dbType: int

    /** The bookkeeping of one query with text `text`. */
    twostate predicate Recorded(text: string, outcome: QueryOutcome)
      reads this
    {
      && !freeFlag
      && lastQuery == text
      && queryCount == old(queryCount) + 1
      && fetchIndex == -1
      && lastQueryTime == outcome.elapsed
      && queryTime == old(queryTime) + outcome.elapsed
      && resultRows == RowsAfter(old(resultRows), outcome)
      && dbType == old(dbType)
    }

    /** The constructor: a MySQL configuration sends the encoding statement
        and the version probe and classifies the type from the probe; any
        other type is copied.  The session ends up free. */
    constructor (config: DbConfig, clean: Cleaner, setNames: QueryOutcome, version: QueryOutcome)
      ensures this.config == config && this.clean == clean
      ensures freeFlag
      ensures dbType == ClassifyType(config.dbType, ProbedVersion(version))
      ensures config.dbType == MYSQL ==>
        && lastQuery == VERSION_QUERY && queryCount == 2 && fetchIndex == -1
        && lastQueryTime == version.elapsed && queryTime == setNames.elapsed + version.elapsed
        && resultRows == RowsAfter(RowsAfter([], setNames), version)
      ensures config.dbType != MYSQL ==>
        && lastQuery == "" && queryCount == 0 && fetchIndex == 0
        && lastQueryTime == 0.0 && queryTime == 0.0 && resultRows == []
    {
      this.config := config;
      this.clean := clean;
      freeFlag := false;
      lastQuery := "";
      queryCount := 0;
      queryTime := 0.0;
      lastQueryTime := 0.0;
      fetchIndex := 0;
      resultRows := [];
      dbType := 0;
      new;
      if config.dbType == MYSQL {
        var encoding := Query(SET_NAMES_QUERY, setNames);
        dbType := MYSQL;
        var probe := Query(VERSION_QUERY, version);
        var v := ProbedVersion(version);
        if v.Some? && IndexOf(v.value, "MariaDB") > 0 {
          dbType := BitOr(dbType, MARIA);
        }
      } else {
        dbType := config.dbType;
      }
      freeFlag := true;
    }

    /** `query(text)`: records the text, counts the query, clears the free
        flag, rewinds the cursor, adds the duration and keeps the rows of a
        successful query. */
    method Query(text: string, outcome: QueryOutcome) returns (r: Result<seq<Row>, DriverError>)
      modifies this
      ensures Recorded(text, outcome)
      ensures r == QueryResultOf(outcome)
    {
      freeFlag := false;
      fetchIndex := -1;
      lastQuery := text;
      queryCount := queryCount + 1;
      lastQueryTime := outcome.elapsed;
      queryTime := queryTime + lastQueryTime;
      match outcome.result {
        case DriverFailed(e) =>
          r := Failure(e);
        case Rows(rows) =>
          resultRows := rows;
          r := Success(rows);
      }
    }

    /** `query()` without text: hands out a query builder (not modelled),
        but clears the free flag and rewinds the cursor all the same. */
    method NewQueryBuilder()
      modifies this
      ensures !freeFlag && fetchIndex == -1
      ensures lastQuery == old(lastQuery) && queryCount == old(queryCount) && resultRows == old(resultRows)
      ensures queryTime == old(queryTime) && lastQueryTime == old(lastQueryTime) && dbType == old(dbType)
    {
      freeFlag := false;
      fetchIndex := -1;
    }

    /** `fetchRow`: advances the cursor and returns the row under it, or
        nothing (`undefined`) past either end. */
    method FetchRow() returns (r: Option<Row>)
      modifies this
      ensures fetchIndex == old(fetchIndex) + 1
      ensures r == if 0 <= fetchIndex < |resultRows| then Some(resultRows[fetchIndex]) else None
      ensures freeFlag == old(freeFlag) && lastQuery == old(lastQuery) && queryCount == old(queryCount)
      ensures resultRows == old(resultRows) && dbType == old(dbType)
      ensures queryTime == old(queryTime) && lastQueryTime == old(lastQueryTime)
    {
      fetchIndex := fetchIndex + 1;
      if 0 <= fetchIndex < |resultRows| {
        r := Some(resultRows[fetchIndex]);
      } else {
        r := None;
      }
    }

    /** `free`: releases the connection the way the configuration type asks
        and sets the free flag. */
    method Free() returns (path: ReleasePath)
      modifies this
      ensures freeFlag
      ensures path == ReleasePathOf(config.dbType)
      ensures lastQuery == old(lastQuery) && queryCount == old(queryCount) && fetchIndex == old(fetchIndex)
      ensures resultRows == old(resultRows) && dbType == old(dbType)
      ensures queryTime == old(queryTime) && lastQueryTime == old(lastQueryTime)
    {
      if config.dbType == MSSQL {
        path := PoolRelease;
      } else if config.dbType == MARIA || config.dbType == MYSQL {
        path := ConnectionRelease;
      } else {
        path := NoRelease;
      }
      freeFlag := true;
    }

    method IsFree() returns (r: bool)
      ensures r == freeFlag
    {
      r := freeFlag;
    }

    /** The statistics getters answer constants. */
    method GetQueryCount() returns (r: int)
      ensures r == 0
    {
      r := 0;
    }

    method GetQueryTime() returns (r: real)
      ensures r == 0.0
    {
      r := 0.0;
    }

    method GetConnectionCount() returns (r: int)
      ensures r == 0
    {
      r := 0;
    }

    method GetLastQueryTime() returns (r: real)
      ensures r == lastQueryTime
    {
      r := lastQueryTime;
    }

    method GetServerType() returns (r: int)
      ensures r == dbType
    {
      r := dbType;
    }

    method GetLastQuery() returns (r: string)
      ensures r == lastQuery
    {
      r := lastQuery;
    }

    method GetLastError() returns (r: string)
      ensures r == ""
    {
      r := "";
    }

    method FetchResult() returns (r: seq<Row>)
      ensures r == []
    {
      r := [];
    }

    method GetDB() returns (r: string)
      ensures r == config.name
    {
      r := config.name;
    }

    method GetPrefix() returns (r: string)
      ensures r == config.prefix
    {
      r := config.prefix;
    }

    /** `createTable`: renders the statement and runs it; a session type
        without delimiters throws before anything is sent. */
    method CreateTable(name: string, charset: Option<string>, collate: Option<string>,
                       fields: seq<FieldSpec>, outcome: QueryOutcome)
      returns (r: Result<seq<Row>, CreateTableError>)
      modifies this
      ensures var text := CreateTableText(old(dbType), clean, name, charset, collate, fields);
        && (text.None? ==> r == Failure(CreateThrows(TypeError)) && unchanged(this))
        && (text.Some? ==> Recorded(text.value, outcome) && r == CreateTableResultOf(outcome))
    {
      var text := RenderCreateTable(dbType, clean, name, charset, collate, fields);
      if text.None? {
        return Failure(CreateThrows(TypeError));
      }
      var q := Query(text.value, outcome);
      match q {
        case Success(rows) => r := Success(rows);
        case Failure(e) => r := Failure(CreateFailed(e));
      }
    }

    /** `_hasTable`: builds the lookup for the database `db` and the table's
        rendering `tableText`, runs it and reads the count. */
    method HasTable(db: string, tableText: string, outcome: QueryOutcome) returns (r: HasTableResult)
      modifies this
      ensures var q := TableCheckQuery(old(dbType), config.dbType, clean, db, tableText);
        && (q.CheckThrows? ==> r == HasTableThrows(q.thrown) && unchanged(this))
        && (q.CheckText? ==> Recorded(q.text, outcome) && r == TableCheckResult(outcome))
    {
      var q := TableCheckQuery(dbType, config.dbType, clean, db, tableText);
      if q.CheckThrows? {
        return HasTableThrows(q.thrown);
      }
      var rows := Query(q.text, outcome);
      match rows {
        case Failure(e) =>
          r := HasTableRejected(QueryError(e));
        case Success(rs) =>
          if |rs| <= 0 {
            r := HasTableRejected(NoRows(NO_ROWS_MESSAGE));
          } else {
            r := HasTableResolved(CountPositive(rs[0]));
          }
      }
    }
  }

  /** Fetching after a query: the k-th `fetchRow` returns row k-1 of the
      result, and every fetch past the end returns nothing. */
  method FetchAllAfterQuery(s: SqlSession, text: string, rows: seq<Row>, elapsed: real, extra: nat)
    returns (fetched: seq<Option<Row>>)
    modifies s
    ensures |fetched| == |rows| + extra
    ensures forall k :: 0 <= k < |rows| ==> fetched[k] == Some(rows[k])
    ensures forall k :: |rows| <= k < |fetched| ==> fetched[k] == None
  {
    var q := s.Query(text, QueryOutcome(elapsed, Rows(rows)));
    fetched := [];
    while |fetched| < |rows| + extra
      invariant |fetched| <= |rows| + extra
      invariant s.resultRows == rows && s.fetchIndex == |fetched| - 1
      invariant forall k :: 0 <= k < |fetched| && k < |rows| ==> fetched[k] == Some(rows[k])
      invariant forall k :: |rows| <= k < |fetched| ==> fetched[k] == None
    {
      var row := s.FetchRow();
      fetched := fetched + [row];
    }
  }

  /** The free flag over a session's life: a new session is free, a query
      makes it busy, `free` makes it free again. */
  method FreeFlagLifecycle(config: DbConfig, clean: Cleaner, setNames: QueryOutcome, version: QueryOutcome,
                           text: string, outcome: QueryOutcome)
    returns (afterNew: bool, afterQuery: bool, afterFree: bool)
    ensures afterNew && !afterQuery && afterFree
  {
    var s := new SqlSession(config, clean, setNames, version);
    afterNew := s.IsFree();
    var rows := s.Query(text, outcome);
    afterQuery := s.IsFree();
    var path := s.Free();
    afterFree := s.IsFree();
  }
}
