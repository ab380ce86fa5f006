# SHPS4Node SQL session layer and Accept-Language handling, in Dafny

This project models two parts of SHPS4Node, a Node.js web framework.

The first is its SQL session layer, `system/core/sql/index-sql.js`:
- the bitmask dialect tags and their delimiter tables;
- identifier and string escaping (`standardizeName`, `standardizeString`);
- the `CREATE TABLE` text of `createTable`;
- the information-schema lookup of `_hasTable`;
- the dialect classification a new session makes from `SELECT VERSION();`;
- the `_SQL` session object: free flag, last query, query count, fetch cursor, detected type;
- the pool fingerprint, driver error rendering, and the module-level pool registry that `newSQL` fills lazily.

The second is its Accept-Language handling, `system/core/language.js`:
- `getAcceptLanguageList`: split the header, one pair per language key with its highest quality, sort by quality, cache on the request state;
- the language choice inside `getLanguage`, and its cache;
- the `getAcceptLanguageEnumerator` cursor.

Modules, one per file:
- `Wrappers`: Option and Result.
- `Text`: the JavaScript string operations the source relies on: `split`, `substring` with its clamping (`substring(-1)` is the whole string), and `indexOf`.
- `Dialect`: tags, delimiter tables, escaping, classification. JavaScript's `&` and `|` are modelled through 32-bit two's-complement bits.
- `Statements`: the `createTable` loop and the `_hasTable` statement, including its whitespace normalisation.
- `Session`: the `SqlSession` class.
- `Pool`: fingerprint, error text, the `PoolRegistry` class and `newSQL`.
- `Language`: the request-state cache, the list loops, the sort, the choice rule and the enumerator.

Collaborators the source calls but does not show are parameters of the model, and nothing is assumed about what they return:
- `libs.SFFM.cleanStr` is `clean: string -> string`;
- `table.toString()` of the table check is `tableText`;
- the float conversion of a `q=` value is `parseQ: string -> int`.

Driver calls are replaced by their outcomes, passed in as values:
- a query's duration and its rows or error (`QueryOutcome`);
- a pool's answer to `getConnection`/`acquire` (`AcquireOutcome`);
- the database's language row names (`Option<seq<string>>`).

Each asynchronous step then runs in sequence.

Where the documented intent and the code disagree, the model follows the code:
- The pool fingerprint is plain concatenation, so two different targets can share a fingerprint and a pool (`Pool.PoolNameCollision`).
- A new pool for a type other than MySQL or MSSQL only logs an error, and the `newSQL` promise never settles (`NeverSettles`). Nothing rejects.
- `_hasTable` never reaches its rejecting `default` branch. The template's `_standardizeName` calls run before the `switch`, so a type without delimiters (Percona 10, or any type other than 2, 6 and 16) throws a TypeError first. Only a MariaDB (6) configuration reaches the `switch` without a matching case, and it throws a ReferenceError while evaluating the undefined `SHPS_SQL_MARIADB` label (`Statements.TableCheckOutcomeByConfig`).
- The version probe is not awaited. The model applies its result before the session is handed out. The session ends up free even though two queries ran.
- A query on a freed session is not refused: it runs and clears the free flag.
- Every MySQL-family session gets `ENGINE=ARIA`, because the MariaDB tag contains the MySQL bit.

## Model

| member | source | states |
|---|---|---|
| Dialect.VariantTags | system/core/sql/index-sql.js:5-9 | The MariaDB tag is the MySQL tag plus bit 4, the Percona tag the MySQL tag plus bit 8, and OR-ing MySQL into MariaDB gives MariaDB again. |
| Dialect.MySqlBitOfTags | system/core/sql/index-sql.js:5-8 | The MySQL and MariaDB tags have the MySQL bit; the MSSQL tag does not. |
| Dialect.MariaMaskCoversMySqlBit | system/core/sql/index-sql.js:472-477 | Any type with the MySQL bit also passes the `& SHPS_SQL_MARIA` test, so the InnoDB branch cannot be taken. |
| Dialect.Quote | system/core/sql/index-sql.js:31-34 | The string quote is defined for exactly the types that have name delimiters, and it differs from both delimiters, so a quoted string never reads as an escaped name. The quote is `'`. |
| Dialect.StandardizeName | system/core/sql/index-sql.js:266-279 | Escaping fails with a TypeError exactly for a session type that has no delimiter entry (anything but 2, 6, 16). |
| Dialect.EscapeNameKeeps | system/core/sql/index-sql.js:271-273 | A token comes back unchanged exactly when it is `*`, starts with the opening delimiter, or is the closing delimiter alone. |
| Dialect.EscapeNameWraps | system/core/sql/index-sql.js:271-275 | Any other token becomes opening delimiter + cleaned token + closing delimiter. |
| Dialect.EscapeNameIdempotent | system/core/sql/index-sql.js:266-279 | Escaping an escaped name changes nothing. |
| Dialect.StandardizeNameIdempotent | system/core/sql/index-sql.js:266-279 | The same for the per-type `standardizeName` on every type with delimiters. |
| Dialect.MssqlEndCheckIsWholeToken | system/core/sql/index-sql.js:273 | Because `substring(-1)` is the whole token, MSSQL wraps `a]` but keeps `]`. |
| Text.JoinSplit | system/core/language.js:137 | `split(',')` loses nothing: joining its pieces with the separator gives the text back. |
| Text.SubstringFromMinusOne | system/core/sql/index-sql.js:273 | `substring(-1)` returns the whole string. |
| Dialect.StandardizeStringQuotes | system/core/sql/index-sql.js:287-299 | For types 2, 6, 16 the cleaned string is kept when it starts with `'` or is `'` alone; otherwise it is wrapped in `'`. |
| Dialect.StandardizeStringFixedPoint | system/core/sql/index-sql.js:287-299 | If cleaning leaves an escaped string alone, escaping it again changes nothing. |
| Text.IndexOf | system/core/sql/index-sql.js:641 | `indexOf` is -1 exactly when the pattern does not occur, and otherwise the first position of an occurrence. |
| Text.IndexOfPositive | system/core/sql/index-sql.js:641 | `indexOf(p) > 0` holds exactly when the text contains `p` but does not start with it. |
| Dialect.ClassifyMySql | system/core/sql/index-sql.js:635-648 | A MySQL configuration gives session type 6 exactly when the version text contains "MariaDB" but does not start with it; otherwise type 2. |
| Dialect.ClassifyOther | system/core/sql/index-sql.js:650-653 | Any other configuration type is copied as the session type. |
| Dialect.ClassifiedDelimiters | system/core/sql/index-sql.js:633-654 | A session's type has delimiters exactly when its configuration type is 2, 6 or 16. |
| Statements.AppendFieldClause | system/core/sql/index-sql.js:441-460 | One loop iteration appends exactly that field's clause: escaped name, type, ` NOT NULL` or `  NULL`, then the optional DEFAULT, AUTO_INCREMENT, key and COMMENT parts. |
| Statements.AppendFieldList | system/core/sql/index-sql.js:437-468 | The loop appends the field clauses joined by `,`: one clause per field, in field order (`Statements.Clauses`). |
| Statements.AppendTableOptions | system/core/sql/index-sql.js:472-485 | The table options are the suffix the session type selects. |
| Statements.RenderCreateTable | system/core/sql/index-sql.js:425-487 | The text built is the `createTable` statement: `CREATE TABLE ` + escaped name + `(`, the clauses, `)`, the suffix, `;`. It is None when the type has no delimiters. |
| Statements.CreateTableFieldList | system/core/sql/index-sql.js:436-487 | The statement starts with the head and ends with `)`, the suffix and `;`. When no clause holds a comma, the text between them splits on `,` back into exactly the clauses. |
| Statements.SuffixAlwaysAria | system/core/sql/index-sql.js:472-485 | Every type with the MySQL bit gets ` ENGINE=ARIA` followed by the character-set part. |
| Statements.SuffixByDialect | system/core/sql/index-sql.js:425-485 | Charset and collate default to utf8mb4 and utf8mb4_unicode_ci. MySQL and MariaDB get the Aria suffix, MSSQL none. |
| Statements.ReplaceControls | system/core/sql/index-sql.js:381 | Each CR, LF or TAB becomes a space and nothing else changes. |
| Statements.NormalizeProperties | system/core/sql/index-sql.js:381 | After normalisation there is no CR, LF or TAB and no two spaces in a row, and all non-blank characters are kept in order. |
| Statements.NormalizeIdentity | system/core/sql/index-sql.js:381 | Text that is already normal is sent as it is. |
| Statements.NormalizeIdempotent | system/core/sql/index-sql.js:381 | Normalising twice is the same as normalising once. |
| Statements.TableCheckCases | system/core/sql/index-sql.js:357-378 | A session type without delimiters throws a TypeError while the template is built. Otherwise MSSQL and MySQL configurations get a statement, and every other configuration type throws a ReferenceError. |
| Statements.TableCheckOutcomeByConfig | system/core/sql/index-sql.js:345-378 | For a session classified by the constructor, only a MariaDB (6) configuration throws the ReferenceError. A configuration type other than 2, 6 and 16 throws a TypeError, and exactly MSSQL and MySQL configurations get a statement. |
| Statements.TableCheckText | system/core/sql/index-sql.js:350-381 | The statement has no CR, LF, TAB or double space. Up to blanks it is the lookup template followed by a `TABLE_CATALOG` condition (MSSQL) or a `TABLE_SCHEMA` condition (MySQL). |
| Session.TableCheckSettles | system/core/sql/index-sql.js:384-394 | The check resolves exactly when the statement returned rows, and then to whether the first row's count is positive. Zero rows reject with the no-rows error, whose text is `No rows were returned!`. |
| Session.SqlSession.Query | system/core/sql/index-sql.js:216-255 | A query records its text, adds exactly one to the count, clears the free flag, resets the cursor to -1 and adds its duration. It keeps the rows of a successful query and answers its rows or its error. |
| Session.SqlSession.NewQueryBuilder | system/core/sql/index-sql.js:216-258 | Without text, a query only clears the free flag and resets the cursor. |
| Session.SqlSession.FetchRow | system/core/sql/index-sql.js:553-558 | The cursor moves up by one and returns the row under it, or nothing outside the rows. |
| Session.FetchAllAfterQuery | system/core/sql/index-sql.js:553-558 | After a query the k-th `fetchRow` returns row k-1, and every fetch past the end returns nothing. |
| Session.SqlSession.Free | system/core/sql/index-sql.js:563-582 | `free` releases through the pool for MSSQL and through the connection for MySQL/MariaDB, sets the free flag, and changes nothing else. |
| Session.SqlSession.IsFree | system/core/sql/index-sql.js:590-594 | `isFree` answers the flag. |
| Session.SqlSession.constructor | system/core/sql/index-sql.js:633-656 | A MySQL configuration runs the encoding statement and the version probe and classifies the type; any other type is copied. The new session is free. When a probe statement fails or its answer has no string version, the model keeps type 2 and does not throw (see "Left out"). |
| Session.FreeFlagLifecycle | system/core/sql/index-sql.js:563-594 | A new session is free, a query makes it busy, and `free` makes it free again. |
| Session.SqlSession.GetQueryCount | system/core/sql/index-sql.js:306-310 | Always 0. |
| Session.SqlSession.GetQueryTime | system/core/sql/index-sql.js:317-321 | Always 0. |
| Session.SqlSession.GetLastQueryTime | system/core/sql/index-sql.js:328-332 | The last query's duration. |
| Session.SqlSession.GetConnectionCount | system/core/sql/index-sql.js:339-343 | Always 0. |
| Session.SqlSession.GetServerType | system/core/sql/index-sql.js:497-501 | The detected session type. |
| Session.SqlSession.GetLastQuery | system/core/sql/index-sql.js:520-524 | The last query text. |
| Session.SqlSession.GetLastError | system/core/sql/index-sql.js:531-535 | Always the empty string. |
| Session.SqlSession.FetchResult | system/core/sql/index-sql.js:542-546 | Always the empty list. |
| Session.SqlSession.GetDB | system/core/sql/index-sql.js:613-617 | The configured database name. |
| Session.SqlSession.GetPrefix | system/core/sql/index-sql.js:624-628 | The configured table prefix. |
| Session.SqlSession.CreateTable | system/core/sql/index-sql.js:405-490 | The session runs exactly the statement `createTable` renders, or throws before sending anything when the type has no delimiters. |
| Session.SqlSession.HasTable | system/core/sql/index-sql.js:345-397 | Runs the lookup statement for the configuration type, or throws before sending anything. It then settles as the table-check result of the outcome. |
| Pool.PoolNameCollision | system/core/sql/index-sql.js:676-683 | The fingerprint is the bare concatenation host+port+name+user+prefix, so host "db1"/port "3306" and host "db"/port "13306" collide. |
| Pool.ErrorTextFatalMarker | system/core/sql/index-sql.js:685-694 | The error text starts with `FATAL ` exactly when the error is fatal. |
| Pool.ConnectionFailureCarriesTarget | system/core/sql/index-sql.js:763-877 | A refused connection rejects with the error and the target configuration, rendered as `[FATAL ]ERROR: <code> on DB <host>:<port> -> <user>@<name>`. An unsupported type never settles. |
| Pool.RejectionLeavesRegistry | system/core/sql/index-sql.js:705-723 | An undefined request state or an unknown alias rejects with its message and leaves the registry as it was. |
| Pool.RegistryGrowsMonotonically | system/core/sql/index-sql.js:730-833 | No entry is replaced or removed. The registry gains one entry, the configuration's fingerprint, exactly when that fingerprint was absent and the type is MySQL or MSSQL. |
| Pool.SharedFingerprintSharesPool | system/core/sql/index-sql.js:834-882 | A second request whose configuration has the same fingerprint reuses the first request's pool and changes nothing. |
| Pool.PoolRegistry.constructor | system/core/sql/index-sql.js:21 | The registry starts empty. |
| Pool.PoolRegistry.NewSql | system/core/sql/index-sql.js:703-885 | `newSQL` updates the registry as above and settles as above. A session it hands out is new, belongs to the resolved configuration, is free and has the classified type. |
| Language.FirstTwo | system/core/language.js:166 | `substr(0, 2)` is a prefix of at most two characters, and exactly two when there are two. |
| Language.EntryWithoutQuality | system/core/language.js:165-171 | An entry without `;` is its first two characters, untrimmed, with quality 1. |
| Language.EntryWithQuality | system/core/language.js:165-175 | An entry `lang;q` is the first two characters of `lang` with the quality parsed from the text up to the next `;`. |
| Language.Distinct | system/core/language.js:177-181 | The key list holds each key of the entries once, and nothing else. |
| Language.DistinctInFirstOccurrenceOrder | system/core/language.js:177-181 | Keys are listed in the order of their first occurrence. |
| Language.MaxQualityIsMaximum | system/core/language.js:141-159 | A key's quality is the largest quality any of its entries gives, so a later lower value never lowers it. |
| Language.MaxQualitySnoc | system/core/language.js:177-185 | One more entry raises its key's quality only when it is higher, and leaves every other key's quality alone. |
| Language.RaiseQualityAt | system/core/language.js:141-159 | `updateQuality` raises the first pair with the key to the new quality if it is higher, and changes nothing else. |
| Language.UpdateQuality | system/core/language.js:141-159 | The search loop performs exactly that raise. |
| Language.MergedSnoc | system/core/language.js:177-185 | One more entry changes the reference list exactly as one loop step does: a new key is appended, a known key is raised. |
| Language.CollectQualities | system/core/language.js:137-188 | Over the pairs of the comma-separated entries, one per entry in order (`Language.Entries`), the parse loop yields the first-occurrence list of distinct keys, each with its maximum quality. |
| Language.InsertPermutes | system/core/language.js:191-194 | Inserting keeps every pair and adds exactly the new one. |
| Language.InsertSorted | system/core/language.js:191-194 | Inserting into a list sorted by non-increasing quality keeps it sorted. |
| Language.SortByQualityCorrect | system/core/language.js:191-194 | The sort orders by non-increasing quality and is a permutation of its input. |
| Language.SortByQualityUnique | system/core/language.js:191-194 | Sorting a list with one pair per language keeps one pair per language. |
| Language.AcceptLanguageListSorted | system/core/language.js:137-196 | The list is a permutation of the deduplicated list, ordered by non-increasing quality, with one pair per language. |
| Language.AcceptLanguageListKeys | system/core/language.js:131-196 | A missing header gives the empty list. Otherwise exactly the header's keys appear, each with its maximum quality. |
| Language.RequestState.constructor | system/core/language.js:46-48 | A new request state has neither cache slot set. |
| Language.GetAcceptLanguageList | system/core/language.js:126-201 | The first call computes the list from the header and caches it. Later calls return the cached list unchanged, without reading the header. The language slot is untouched. |
| Language.ChooseLanguage | system/core/language.js:67-112 | The nested loops with the `done` flag compute the choice rule. |
| Language.ChosenLanguageRule | system/core/language.js:67-112 | No rows and no languages gives "en". No rows gives the first accepted language. No accepted languages gives the first row name. Otherwise it is the earliest accepted language that equals some row name, or "en" if none does. |
| Language.ChosenHasHighestQuality | system/core/language.js:90-106 | On the sorted list, the chosen language has the highest quality among the accepted languages the database offers. |
| Language.GetLanguage | system/core/language.js:43-124 | A cached language is returned as it is. Otherwise the language chosen from the rows and the request's list is stored in the cache and returned. Without rows nothing settles and nothing is cached. |
| Language.GetLanguageTwice | system/core/language.js:118-121 | A second call returns what the first call cached. |
| Language.AsWrittenNeverChooses | system/core/language.js:46-66 | As written, a call finds a language only when one was already cached. Once rows arrive it throws a TypeError instead of choosing. |
| Language.AsWrittenMissesChoice | system/core/language.js:66 | With header `de` and rows `en`, `de`, the corrected call chooses `de` while the code as written throws. |
| Language.AcceptLanguageEnumerator.constructor | system/core/language.js:213-218 | The cursor starts before the first pair, with an empty language and quality 0. |
| Language.AcceptLanguageEnumerator.Next | system/core/language.js:220-231 | `next` moves the cursor up by one and is true exactly while a pair is left; it then shows that pair. After the end it leaves the current values alone. |
| Language.GetAcceptLanguageEnumerator | system/core/language.js:210-218 | The enumerator runs over the request's cached or freshly computed list. |
| Language.Enumerate | system/core/language.js:220-231 | The k-th `next()` is true exactly while k is at most the length, and the pairs seen are the list's prefix in order. |

## Left out

- Driver and pool libraries (`mysql2`, `mssql`, `generic-pool`): creating pools, connecting, acquiring and releasing are foreign calls. They appear as given outcomes, and `free` names the release it would perform.
- `query` with `$param` (`mysql.format`, `mysql.createQuery`): a foreign formatter, and the call references an undefined `cb`.
- `libs.SFFM.cleanStr`, `openTable`, the table and query-builder libraries and `table.toString()`: their source is not part of this model; they are parameters or are left out.
- Timing: durations are given reals; `process.hrtime` is not modelled.
- Promises, `q.defer` and the unawaited `SET NAMES`/`VERSION()` probe: each step runs in sequence. How the probe interleaves with the caller's first query is not captured.
- Session.SqlSession.constructor: `SET NAMES` and the version probe have no rejection handler, and the probe's callback calls `indexOf` on `$res[0]['VERSION()']`. So when either statement fails, or the probe returns no rows or a version that is not a string, the source throws an uncaught exception. The model does not capture that throw: it keeps the MySQL type instead (`Session.ProbedVersion` gives None).
- Session.CountPositive: `$rows[0].c > 0` is modelled for numeric counts only; JavaScript's coercion of strings and other values is not.
- `_resultFields` is not kept; nothing in the core reads it.
- `getAlias` and `getRequestState` return the undefined names `$alias` and `$requestState` and would throw; they are not modelled.
- `sql_colspec`, `focus` and the module-level `getConnectionCount`: not exported or broken as written, or a constant `-1` wrapper.
- Concurrency: two `newSQL` calls racing to create the same pool, and two `getLanguage` calls racing to fill the cache.
- Language.EntryOf: quality is an integer produced by the given parser; the float conversion and NaN are not modelled.
- Language.SortByQuality: JavaScript's sort with a numeric comparator is modelled by a stable insertion sort. The order of pairs with equal quality is not claimed to match the engine.
- `hug`: it depends on `helper.genericHug`, whose source is not part of this model.
- `system/core/file/serve.js` is not part of this model.

## Findings

| source | as written | input that shows it | evidently intended | confidence | as-written member | corrected member |
|---|---|---|---|---|---|---|
| system/core/language.js:66 | `_getAcceptLanguageList()` is called without the request state, so reading `$requestState.cache` throws a TypeError inside the rows callback. The promise never settles and no language is cached (Language.AsWrittenMissesChoice). | no cached language; header `de`; rows `en`, `de` | `_getAcceptLanguageList($requestState)`, which chooses `de` and caches it | high, not executed | Language.GetLanguageAsWritten | Language.GetLanguage |
