/** The module-level pool registry `_sqlConnectionPool`, the pool-name
    fingerprint, driver error rendering and `newSQL`, which looks a pool up
    or creates it and hands out a session on one of its connections. */
module Pool {
  import opened Wrappers
  import opened Text
  import opened Dialect
  import opened Session

  /** The pool fingerprint: host, port, database name, user and prefix
      concatenated with no separator. */
  function PoolName(c: DbConfig): string
  {
    c.host + c.port + c.name + c.user + c.prefix
  }

  /** The fingerprint does not separate its parts, so two different targets
      can share one pool. */
  lemma PoolNameCollision()
    ensures var a := DbConfig(MYSQL, "db1", "3306", "u", "p", "app", "sh_", 5);
      var b := DbConfig(MYSQL, "db", "13306", "u", "p", "app", "sh_", 5);
      a.host != b.host && a.port != b.port && PoolName(a) == PoolName(b)
  {
    var a := DbConfig(MYSQL, "db1", "3306", "u", "p", "app", "sh_", 5);
    var b := DbConfig(MYSQL, "db", "13306", "u", "p", "app", "sh_", 5);
    assert a.host + a.port == b.host + b.port;
  }

  /** A driver error with the configuration it happened on (`_makeErrorObject`). */
  datatype ErrorObject = ErrorObject(err: DriverError, conf: DbConfig)

  /** The error object's `toString`: `FATAL ` for a fatal error, then the
      code and the target. */
  function ErrorText(e: ErrorObject): string
  {
    (if e.err.fatal then "FATAL " else "") + ErrorBody(e)
  }

  function ErrorBody(e: ErrorObject): string
  {
    "ERROR: " + e.err.code + " on DB " + e.conf.host + ":" + e.conf.port + " -> " + e.conf.user + "@" + e.conf.name
  }

  /** The `FATAL ` marker is present exactly for fatal errors, so the flag
      can be read back from the text. */
  lemma ErrorTextFatalMarker(e: ErrorObject)
    ensures e.err.fatal <==> StartsWith(ErrorText(e), "FATAL ")
  {
    var body := ErrorBody(e);
    assert body[0] == 'E';
    if !e.err.fatal {
      assert ErrorText(e) == body;
      assert ErrorText(e)[0] != "FATAL "[0];
    } else {
      assert ErrorText(e)[..6] == "FATAL ";
    }
  }

  /** The pool created for a fingerprint: a MySQL pool (with the pool
      character set and the request's time zone) or an MSSQL pool (with its
      minimum size and idle timeout), and the configuration it was made
      from. */
  datatype PoolKind =
    | MySqlPool(charset: string, timezone: string, multipleStatements: bool)
    | MssqlPool(min: int, idleTimeoutMillis: int)

  datatype ConnectionPool = ConnectionPool(kind: PoolKind, config: DbConfig)

  const MYSQL_POOL_CHARSET: string := "utf8mb4_general_ci"
  const MSSQL_POOL_MIN: int := 1
  const MSSQL_IDLE_TIMEOUT_MILLIS: int := 30000

  /** The request state as far as `newSQL` reads it: the alias
      configurations and the configured time zone.  `newSQL` only reads it,
      so it is a value here; the same JavaScript object's language cache,
      which `language.js` writes, is the class Language.RequestState. */
  datatype RequestState = RequestState(databaseConfig: map<string, DbConfig>, timezone: string)

  /** The pool's answer to `getConnection` / `acquire`. */
  datatype AcquireOutcome = Acquired | AcquireFailed(err: DriverError)

  const DEFAULT_ALIAS: string := "default"
  const UNDEFINED_STATE_MESSAGE: string := "Cannot connect with undefined requestState!"

  function UnknownAliasMessage(alias: string): string
  {
    "Cannot connect with undefined alias `" + alias + "`!"
  }

  /** The configuration `newSQL` works with, if the alias resolves. */
  function ResolveConfig(alias: Option<string>, state: Option<RequestState>): Option<DbConfig>
  {
    var a := alias.GetOr(DEFAULT_ALIAS);
    if state.Some? && a in state.value.databaseConfig then Some(state.value.databaseConfig[a]) else None
  }

  /** The registry after one `newSQL`: a pool is added only for an absent
      fingerprint and only for a MySQL or MSSQL configuration. */
  function RegistryAfter(pools: map<string, ConnectionPool>, alias: Option<string>, state: Option<RequestState>)
    : map<string, ConnectionPool>
  {
    match ResolveConfig(alias, state)
    case None => pools
    case Some(c) =>
      var n := PoolName(c);
      if n in pools then pools
      else if c.dbType == MYSQL then pools[n := ConnectionPool(MySqlPool(MYSQL_POOL_CHARSET, state.value.timezone, true), c)]
      else if c.dbType == MSSQL then pools[n := ConnectionPool(MssqlPool(MSSQL_POOL_MIN, MSSQL_IDLE_TIMEOUT_MILLIS), c)]
      else pools
  }

  /** How the promise of `newSQL` settles: rejected with a message, rejected
      with an error object, resolved with a session for the configuration,
      or never (an unsupported type only logs an error). */
  datatype Settlement =
    | RejectedWith(message: string)
    | ConnectFailedWith(error: ErrorObject)
    | ConnectedWith(config: DbConfig)
    | Pending

  function SettlementOf(pools: map<string, ConnectionPool>, alias: Option<string>, state: Option<RequestState>,
                        acquire: AcquireOutcome): Settlement
  {
    if state.None? then RejectedWith(UNDEFINED_STATE_MESSAGE)
    else if ResolveConfig(alias, state).None? then RejectedWith(UnknownAliasMessage(alias.GetOr(DEFAULT_ALIAS)))
    else
      var c := ResolveConfig(alias, state).value;
      var supported := if PoolName(c) in pools then c.dbType in {MYSQL, MARIA, MSSQL} else c.dbType in {MYSQL, MSSQL};
      if !supported then Pending
      else match acquire
        case Acquired => ConnectedWith(c)
        case AcquireFailed(e) => ConnectFailedWith(ErrorObject(e, c))
  }

  /** A missing request state or an unknown alias rejects and leaves the
      registry as it was. */
  lemma RejectionLeavesRegistry(pools: map<string, ConnectionPool>, alias: Option<string>,
                                state: Option<RequestState>, acquire: AcquireOutcome)
    requires SettlementOf(pools, alias, state, acquire).RejectedWith?
    ensures RegistryAfter(pools, alias, state) == pools
    ensures state.None? ==> SettlementOf(pools, alias, state, acquire).message == UNDEFINED_STATE_MESSAGE
    ensures state.Some? ==> SettlementOf(pools, alias, state, acquire).message == UnknownAliasMessage(alias.GetOr(DEFAULT_ALIAS))
  {
  }

  /** The registry only grows: no entry is replaced or removed, and at most
      one fingerprint is added, exactly when it was absent and the type has a
      pool implementation. */
  lemma RegistryGrowsMonotonically(pools: map<string, ConnectionPool>, alias: Option<string>, state: Option<RequestState>)
    ensures var after := RegistryAfter(pools, alias, state);
      && (forall n :: n in pools ==> n in after && after[n] == pools[n])
      && (forall n :: n in after && n !in pools ==>
            ResolveConfig(alias, state).Some? && n == PoolName(ResolveConfig(alias, state).value))
    ensures var after := RegistryAfter(pools, alias, state);
      after.Keys != pools.Keys <==>
        && ResolveConfig(alias, state).Some?
        && PoolName(ResolveConfig(alias, state).value) !in pools
        && ResolveConfig(alias, state).value.dbType in {MYSQL, MSSQL}
  {
  }

  /** Two requests whose configurations share a fingerprint share the pool
      the first one created, whatever the second configuration says. */
  lemma SharedFingerprintSharesPool(pools: map<string, ConnectionPool>, a1: Option<string>, s1: Option<RequestState>,
                                    a2: Option<string>, s2: Option<RequestState>)
    requires ResolveConfig(a1, s1).Some? && ResolveConfig(a2, s2).Some?
    requires PoolName(ResolveConfig(a1, s1).value) == PoolName(ResolveConfig(a2, s2).value)
    requires ResolveConfig(a1, s1).value.dbType in {MYSQL, MSSQL}
    ensures var n := PoolName(ResolveConfig(a1, s1).value);
      var first := RegistryAfter(pools, a1, s1);
      var second := RegistryAfter(first, a2, s2);
      n in first && second == first
      && (n !in pools ==> first[n].config == ResolveConfig(a1, s1).value)
  {
  }

  /** A rejected connection carries the driver error and the target; an
      unsupported type never settles. */
  lemma ConnectionFailureCarriesTarget(pools: map<string, ConnectionPool>, alias: Option<string>,
                                       state: Option<RequestState>, e: DriverError)
    requires ResolveConfig(alias, state).Some?
    ensures var c := ResolveConfig(alias, state).value;
      var s := SettlementOf(pools, alias, state, AcquireFailed(e));
      (s == Pending <==> (PoolName(c) !in pools && c.dbType !in {MYSQL, MSSQL})
                         || (PoolName(c) in pools && c.dbType !in {MYSQL, MARIA, MSSQL}))
      && (s != Pending ==> s == ConnectFailedWith(ErrorObject(e, c)))
      && (s != Pending ==>
            ErrorText(s.error) == (if e.fatal then "FATAL " else "") + "ERROR: " + e.code
                                  + " on DB " + c.host + ":" + c.port + " -> " + c.user + "@" + c.name)
  {
  }

  datatype NewSqlResult =
    | Rejected(message: string)
    | ConnectFailed(error: ErrorObject)
    | Connected(session: SqlSession)
    | NeverSettles

  class PoolRegistry {
    var pools: map<string, ConnectionPool>

    constructor ()
      ensures pools == map[]
    {
      pools := map[];
    }

    /** `newSQL(alias, requestState)`.  `acquire` is the pool's answer;
        `setNames` and `version` are what the new session's bootstrap
        statements return. */
    method NewSql(alias: Option<string>, state: Option<RequestState>, clean: Cleaner, acquire: AcquireOutcome,
                  setNames: QueryOutcome, version: QueryOutcome) returns (r: NewSqlResult)
      modifies this
      ensures pools == RegistryAfter(old(pools), alias, state)
      ensures var s := SettlementOf(old(pools), alias, state, acquire);
        && (s.RejectedWith? <==> r.Rejected?)
        && (s.RejectedWith? ==> r.message == s.message)
        && (s.ConnectFailedWith? <==> r.ConnectFailed?)
        && (s.ConnectFailedWith? ==> r.error == s.error)
        && (s.Pending? <==> r.NeverSettles?)
        && (s.ConnectedWith? <==> r.Connected?)
        && (s.ConnectedWith? ==>
              && fresh(r.session)
              && r.session.config == s.config && r.session.clean == clean && r.session.freeFlag
              && r.session.dbType == ClassifyType(s.config.dbType, ProbedVersion(version)))
    {
      var a := if alias.Some? then alias.value else DEFAULT_ALIAS;
      if state.None? {
        return Rejected(UNDEFINED_STATE_MESSAGE);
      }
      if a !in state.value.databaseConfig {
        return Rejected(UnknownAliasMessage(a));
      }
      var c := state.value.databaseConfig[a];
      var name := PoolName(c);
      var supported: bool;
      if name !in pools {
        if c.dbType == MYSQL {
          pools := pools[name := ConnectionPool(MySqlPool(MYSQL_POOL_CHARSET, state.value.timezone, true), c)];
          supported := true;
        } else if c.dbType == MSSQL {
          pools := pools[name := ConnectionPool(MssqlPool(MSSQL_POOL_MIN, MSSQL_IDLE_TIMEOUT_MILLIS), c)];
          supported := true;
        } else {
          supported := false;
        }
      } else {
        supported := c.dbType == MYSQL || c.dbType == MARIA || c.dbType == MSSQL;
      }
      if !supported {
        return NeverSettles;
      }
      match acquire {
        case AcquireFailed(e) =>
          r := ConnectFailed(ErrorObject(e, c));
        case Acquired =>
          var session := new SqlSession(c, clean, setNames, version);
          r := Connected(session);
      }
    }
  }
}
