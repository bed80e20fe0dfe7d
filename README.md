# libzbxpgsql metric-key resolution, modelled in Dafny

libzbxpgsql is a Zabbix agent module that answers `pg.*` item keys from a
PostgreSQL server. This project models the part of it that turns an agent
request into work for the database and turns the database's answer into an
agent result:

- the handlers of `src/pg_table.c`, `src/pg_index.c`, `src/pg_database.c`
  and `src/pg_setting.c`. Each reads its positional parameters and picks
  the aggregate or the per-entity query template. It picks the value kind
  (integer, double or text) from the field name or the setting's vartype.
  It either refuses the request before any query runs or hands exactly one
  call to a database helper;
- the search-mode dispatch of table and index discovery, and the filter
  clauses appended in place to the index listing query through the
  `strcat2` cursor;
- `pg_get_discovery` and `pg_get_discovery_wide` in `src/pg_discovery.c`.
  Shallow discovery builds one object per result row, in row order. Each
  object has one `{#UPPERCASED_COLUMN}` entry per column, in column order.
  Wide discovery does this for every connectable database, in list order,
  and concatenates the payloads;
- `pg_get_databases`: the null-delimited multi-string of database names,
  its size arithmetic, how it is filled, and how the wide loop walks it;
- `build_connstring` in `src/pg_connect.c`, including its buffer budget.

The PostgreSQL server is an oracle (`Libpq.Server`). `connect` accepts or
refuses a connection string. `exec` takes a connection, a query and at most
one bound value, and returns either an error message or a table of text
cells. Catalog queries are opaque template identifiers (`Libpq.Template`),
so their SQL is the server's business. A query text the module itself
builds or extends is modelled as text (`Sql.Text`).

Handlers that only delegate to `pg_get_int`, `pg_get_dbl`, `pg_get_string`
or `pg_get_percentage` are modelled by what they ask for (`Calls.Dispatch`).
That is either `Reject(msg)`, meaning no query runs, or `Issue(call)` with
the template, the bound value and the value kind. `Calls.WellBound` is the
invariant these handlers keep whenever the name is not the empty string (see
`param_new` under "## Left out"): a template that reads `$1` gets a
non-empty bound value, and one that does not gets NULL. `Handlers.Run`
follows a discovery dispatch through to the reply the agent receives. Handlers that talk to the
server themselves (`PG_STAT_ALL_INDEXES`, `PG_SETTING`, discovery) are
modelled end to end against the oracle, as an agent `Reply`.

`strcat2` is not shown in the repository. It is modelled as: find the
terminator at or after the cursor, copy the text there, terminate it, and
return the new terminator's position (`CStrings.StrCat2`). The cursor in
`pg_get_databases` steps past that terminator with `+ 1`. `strisnull` is
"NULL or empty" (`Agent.IsNull`).

Wide discovery iterates over the connectable databases
(`src/pg_discovery.c:202`), and the model follows that loop.

Modules: `Wrappers`, `Agent` (request, parameters, reply), `CStrings`,
`Libpq` (the oracle), `Calls`, `Connect`, `MultiString`, `Discovery`,
`Tables`, `Indexes`, `Databases`, `Settings`, `Handlers`.

## Model

| member | source | states |
|---|---|---|
| Agent.GetParam | src/pg_table.c:162 | a parameter is present exactly when its position is below the parameter count, and is then the request's parameter at that position; NULL otherwise |
| Agent.IsNull | src/pg_table.c:164 | `strisnull`: a parameter counts as missing exactly when it is NULL or the empty string; a present one is non-empty text |
| Agent.StatField | src/pg_table.c:240 | the stat field is the key from the fixed offset on, and prefix plus field gives back the key |
| Calls.Discover | src/pg_table.c:164-170 | absent, empty or `deep` runs wide discovery, `shallow` runs shallow discovery, anything else is refused with "Invalid search mode parameter: " and the value; both directions of each case; no bound value |
| Calls.Ratio | src/pg_table.c:280-299 | no name: the aggregate numerator and total with no filter; a name: the per-row numerator and total filtered on the column equal to the name; the filter is never on an empty value |
| Tables.TableDiscovery | src/pg_table.c:162-170 | mode dispatch on the table listing template, wide iff mode absent/empty/`deep`, shallow iff `shallow`, otherwise the error naming the mode |
| Tables.TableChildrenDiscovery | src/pg_table.c:203-209 | refused with "No table name specified" iff the name is absent or empty; otherwise shallow discovery with the name bound |
| Tables.StatAllTables | src/pg_table.c:240-261 | the field is the key after `pg.table.`; SUM template iff the name is absent/empty, `relname = $1` template otherwise, never a mix; a `last_` field is text and is refused with "No table name specified" iff the name is missing; other fields are integers |
| Tables.StatAllTablesBindsEmptyName | src/pg_table.c:243-261 | an empty (not NULL) name issues the SUM template with `""` bound, so the call is not well bound |
| Tables.TableIdxScanRatio | src/pg_table.c:278-299 | idx_scan over seq_scan + idx_scan, summed and unfiltered without a name, per row and filtered on `relname` with one |
| Tables.StatioAllTables | src/pg_table.c:330-339 | statio field after `pg.table.`; aggregate template iff the name is absent/empty; always an integer |
| Tables.BlksRatio | src/pg_table.c:356-375 | `<kind>_blks_hit` over hit + read on pg_statio_all_tables, summed without a name, filtered on `relname` with one |
| Tables.TableHeapBlksRatio | src/pg_table.c:356-375 | the heap block ratio is BlksRatio for `heap`: `heap_blks_hit` over hit + read on pg_statio_all_tables, summed and unfiltered iff the name is missing, filtered on `relname` = the name otherwise |
| Tables.TableIdxBlksRatio | src/pg_table.c:392-410 | the idx block ratio is BlksRatio for `idx`: `idx_blks_hit` over hit + read on pg_statio_all_tables, summed and unfiltered iff the name is missing, filtered on `relname` = the name otherwise |
| Tables.TableToastBlksRatio | src/pg_table.c:428-446 | the toast block ratio is BlksRatio for `toast`: `toast_blks_hit` over hit + read on pg_statio_all_tables, summed and unfiltered iff the name is missing, filtered on `relname` = the name otherwise |
| Tables.TableTidxBlksRatio | src/pg_table.c:464-482 | the tidx block ratio is BlksRatio for `tidx`: `tidx_blks_hit` over hit + read on pg_statio_all_tables, summed and unfiltered iff the name is missing, filtered on `relname` = the name otherwise |
| Tables.TableSize | src/pg_table.c:521-526 | integer; aggregate size template iff the name is absent/empty |
| Tables.TableRows | src/pg_table.c:558-563 | integer; aggregate rows template iff the name is absent/empty |
| Tables.ChildrenKey | src/pg_table.c:589-595 | an inheritance key is refused with "Invalid parameter count. Please specify a table name." iff the name is missing, and otherwise reads one integer with the name bound |
| Tables.TableChildren | src/pg_table.c:589-595 | child count: refused iff the name is missing, never queried then |
| Tables.TableChildrenSize | src/pg_table.c:623-629 | children size: the in-place NULL-or-empty check refuses iff the name is missing |
| Tables.TableChildrenRows | src/pg_table.c:656-662 | children rows: refused iff the name is missing |
| Indexes.IndexListing | src/pg_index.c:114-129 | the listing query starts with the base query, and equals it when neither filter is given |
| Indexes.TableClauseIsNoSchemaClause | src/pg_index.c:126-128 | a table filter never reads as a schema filter |
| Indexes.SchemaClauseLeads | src/pg_index.c:118-122 | with a schema name the filters start with ` AND n.nspname = '` |
| Indexes.FiltersStartWithSchema | src/pg_index.c:118-129 | the appended filters start with the schema clause iff a schema name is given |
| Indexes.SchemaFilterIff | src/pg_index.c:118-122 | the text after the base starts with ` AND n.nspname = '` iff parameter 3 is non-empty |
| Indexes.TableFilterLast | src/pg_index.c:124-129 | with a table name the query ends with ` AND t.relname = '<table>'`, after any schema clause; without one it is base plus schema clause |
| Indexes.IndexListingOf | src/pg_index.c:114-129 | the in-place `strcat2` assembly in a zeroed buffer yields exactly base ++ schema clause ++ table clause |
| Indexes.IndexDiscovery | src/pg_index.c:113-139 | the mode dispatch of index discovery over the assembled listing query |
| Indexes.IndexStatQuery | src/pg_index.c:174-181 | `SUM(field)` over all indexes iff the index name is absent/empty, the `indexrelname = $1` form otherwise; the bound suits the query iff the name is not `""` |
| Indexes.IndexStatText | src/pg_index.c:178-181 | the two query texts, with the field after `pg.index.` |
| Indexes.StatAllIndexes | src/pg_index.c:177-202 | a result iff connected, the query succeeded and returned rows; connection error, "PostgreSQL query error: " + message, or "No results returned for query: " + query text otherwise |
| Indexes.StatAllIndexesQueryError | src/pg_index.c:189-192 | a failed status yields the driver message behind "PostgreSQL query error: " |
| Indexes.StatAllIndexesNoRows | src/pg_index.c:194-197 | zero rows yield "No results returned for query: " and the query text |
| Indexes.StatAllIndexesValue | src/pg_index.c:199-202 | a cell [0,0] holding the decimal text of n yields the integer n |
| Indexes.StatioAllIndexes | src/pg_index.c:237-246 | integer; aggregate template iff the name is absent/empty |
| Indexes.IndexIdxBlksRatio | src/pg_index.c:263-282 | filters on `indexrelname` only when a name is given; summed numerator otherwise |
| Indexes.IndexSize | src/pg_index.c:311-314 | the aggregate size query with NULL bound when the name is absent/empty, the per-index query with the name bound otherwise; always well bound |
| Indexes.IndexRows | src/pg_index.c:346-351 | integer; aggregate rows template iff the name is absent/empty |
| Databases.Normalised | src/pg_database.c:111-118 | the bound is NULL iff the name is absent or empty, and is the name otherwise |
| Databases.DbDiscovery | src/pg_database.c:77 | always shallow, on the database listing template, with no bound value |
| Databases.StatDatabase | src/pg_database.c:108-136 | field after `pg.db.`; SUM template with NULL bound iff the name is missing, `datname = $1` with the name otherwise; `stats_reset` is text and is refused with "No database specified" iff the name is missing; `blk_` is a double; every other field an integer; always well bound |
| Databases.KindPrefixesDisjoint | src/pg_database.c:121-136 | no field starts with both `stats_reset` and `blk_`, so the order of the tests decides nothing |
| Databases.DbBlksRatio | src/pg_database.c:154-173 | unfiltered sums without a name, filtered on `datname` with one |
| Databases.DbSize | src/pg_database.c:204-212 | integer; SUM template with NULL bound iff the name is missing; per-database template with the name otherwise |
| Databases.DbXidAge | src/pg_database.c:245-253 | integer; MAX(AGE) with NULL bound iff the name is missing; per-database AGE with the name otherwise |
| Settings.SettingDiscovery | src/pg_setting.c:65 | always shallow, on the settings listing template, no bound value |
| Settings.SettingValue | src/pg_setting.c:125-130 | an `integer` tag gives the decimal parse of the value, a `real` tag a double with the value's text, any other tag the value's text unchanged; the kind is UInt64 iff `integer`, Double iff `real` |
| Settings.Setting | src/pg_setting.c:99-132 | a missing name is refused with "No setting name specified" before connecting; FAIL with nothing set iff connected, the query succeeded and returned no row; a result iff it returned a row, typed by cell [0,1] |
| Settings.SettingQueryError | src/pg_setting.c:111-114 | a failed status yields "PostgreSQL query error: " and the driver message |
| Settings.IntegerSetting | src/pg_setting.c:125-126 | an integer setting whose text is the decimal form of n reads as n |
| Settings.TextSetting | src/pg_setting.c:129-130 | a setting whose vartype starts with neither `integer` nor `real` yields its text unchanged, as a string |
| Discovery.MacroKey | src/pg_discovery.c:126-128 | the key is `{#`, the upper-cased column name and `}` |
| Discovery.MacroKeyIsUpper | src/pg_discovery.c:126-128 | the key has no lower-case letter and upper-casing it again changes nothing |
| Discovery.MacroKeyInjectiveUpToCase | src/pg_discovery.c:126-128 | two columns give the same key exactly when they agree up to case |
| Discovery.MacroKeyOf | src/pg_discovery.c:126-128 | the in-place `toupper` loop over the formatted buffer yields MacroKey of the column |
| Discovery.RowObject | src/pg_discovery.c:124-131 | one entry per column (the entries themselves: RowObjectEntry) |
| Discovery.RowObjects | src/pg_discovery.c:120-134 | one object per row (the objects themselves: RowObjectsAt) |
| Discovery.Objects | src/pg_discovery.c:120-134 | a tuples result contributes one object per row |
| Discovery.RowObjectEntry | src/pg_discovery.c:124-131 | entry x of an object is the macro of column x with cell x unchanged |
| Discovery.RowObjectsAt | src/pg_discovery.c:120-134 | object i of the payload is the object of row i |
| Discovery.ObjectsShape | src/pg_discovery.c:120-134 | one object per row in row order, one entry per column in column order |
| Discovery.ObjectOf | src/pg_discovery.c:124-131 | the column loop builds exactly the row's object |
| Discovery.AppendObjects | src/pg_discovery.c:120-134 | the row loop appends exactly the table's objects to the payload |
| Discovery.ListDatabases | src/pg_discovery.c:23-34 | a successful enumeration is a non-empty list of C strings |
| Discovery.NoRowsNoDatabases | src/pg_discovery.c:28-32 | a failed or empty enumeration fails with "Failed to enumerate connectable PostgreSQL databases" |
| Discovery.GetDatabases | src/pg_discovery.c:11-58 | on success the buffer is exactly the multi-string of the listed names; on failure the enumeration's message |
| Discovery.ShallowDiscovery | src/pg_discovery.c:100-141 | a payload iff connected and the query succeeded; an error otherwise |
| Discovery.ShallowQueryError | src/pg_discovery.c:105-109 | a failed status yields "PostgreSQL query error: " and the driver message, with no payload |
| Discovery.ShallowPayload | src/pg_discovery.c:111-141 | the payload has one object per row, each mapping every column macro to its cell; zero rows is an empty payload |
| Discovery.GetDiscovery | src/pg_discovery.c:100-141 | the loops compute ShallowDiscovery |
| Discovery.DatabaseDiscovery | src/pg_discovery.c:204-237 | one database contributes iff the connection is accepted and its query succeeds, and then exactly the objects of its rows; a refused connection fails with the server's message, a failed query with "PostgreSQL query error: " and the driver message |
| Discovery.Then | src/pg_discovery.c:202-244 | sequencing: success iff both succeed, payloads concatenated, the first failure kept |
| Discovery.ThenAssociative | src/pg_discovery.c:202-244 | grouping of the per-database sequencing does not matter |
| Discovery.AcrossDoneIff | src/pg_discovery.c:202-244 | the per-database fold `AcrossDatabases` succeeds iff every database's discovery succeeds |
| Discovery.AcrossFailureIsSomeDatabase | src/pg_discovery.c:208-215 | a failed wide discovery carries the failure of one of the databases |
| Discovery.AcrossDatabasesAppend | src/pg_discovery.c:202-244 | discovering over a + b is discovering over a and then over b |
| Discovery.AcrossStep | src/pg_discovery.c:202-244 | one more database appends its payload or its failure |
| Discovery.FailurePersists | src/pg_discovery.c:208-215 | once a database fails, the whole wide discovery fails with that message |
| Discovery.FailureStep | src/pg_discovery.c:208-215 | a failure is kept when one more database is taken |
| Discovery.WideDiscovery | src/pg_discovery.c:193-195 | a failed enumeration fails wide discovery with the enumeration message |
| Discovery.WideCoversEveryDatabase | src/pg_discovery.c:193-244 | with no empty name, the payload is the concatenation over every listed database, in list order |
| Discovery.DiscoverDatabase | src/pg_discovery.c:204-237 | one turn connects with build_connstring(parameter 0, name) and appends that database's objects |
| Discovery.NextName | src/pg_discovery.c:202 | at the cursor lies name k; `db += strlen(db) + 1` moves to name k + 1's offset |
| Discovery.WalkStops | src/pg_discovery.c:202 | the walk stops exactly at the first empty name or the final terminator |
| Discovery.VisitDatabase | src/pg_discovery.c:202-244 | one turn of the wide loop extends the discovery over the visited prefix by one database |
| Discovery.WalkDatabases | src/pg_discovery.c:202-244 | the loop computes the discovery over the names before the first empty one |
| Discovery.GetDiscoveryWide | src/pg_discovery.c:175-261 | the function computes WideDiscovery |
| MultiString.PackedLength | src/pg_discovery.c:37-40 | the multi-string is exactly 1 + Σ(len(name) + 1) long, the computed buffer size |
| MultiString.PackedAppend | src/pg_discovery.c:47-50 | packing distributes over concatenation of name lists |
| MultiString.JoinedAround | src/pg_discovery.c:47-50 | around name k the buffer holds the names before it, name k, its terminator, the names after it and the final terminator |
| MultiString.MultiStringAt | src/pg_discovery.c:202 | at the offset of name k the buffer holds name k then a terminator |
| MultiString.MultiStringEnd | src/pg_discovery.c:202 | after the last name the buffer holds the final terminator as its last cell |
| MultiString.WalkTest | src/pg_discovery.c:202 | the loop test `*db` fails at name k iff name k is empty |
| MultiString.NameAt | src/pg_discovery.c:202-205 | the `strlen` at name k's offset is its length and the text read is name k |
| MultiString.FirstEmpty | src/pg_discovery.c:202 | the position of the first empty name, or the count when none is empty |
| MultiString.WalkVisitsAll | src/pg_discovery.c:202 | with no empty name the walk visits every name, in order |
| MultiString.WalkStopsAtEmpty | src/pg_discovery.c:202 | an empty name ends the walk early: later names are never visited |
| MultiString.BuildMultiString | src/pg_discovery.c:36-50 | the sizing and filling loops produce a buffer of the computed size holding name₁ `\0` … nameₙ `\0` `\0` |
| MultiString.BufferSize | src/pg_discovery.c:37-40 | the sizing loop computes 1 + Σ(len(name) + 1) |
| MultiString.FillStep | src/pg_discovery.c:48-49 | each filling step appends the name and its terminator and stays inside the buffer |
| Handlers.Run | src/pg_index.c:132-139 | a refusal becomes the agent error with its message; a shallow call replies with ShallowDiscovery, a wide call with WideDiscovery, on the dispatched query and bound |
| Handlers.IndexDiscoveryReplies | src/pg_index.c:113-139 | `pg.index.discovery` end to end: wide discovery of the assembled listing for an absent, empty or `deep` mode, shallow for `shallow`, the mode error otherwise; in shallow mode against an answering server, one object per listed index |
| Handlers.TableDiscoveryReplies | src/pg_table.c:162-170 | `pg.table.discovery` end to end: wide, shallow or the mode error, on the table listing template |
| CStrings.StrCat2 | src/pg_connect.c:29-32 | `strcat2`: skips to the terminator, copies the text there, terminates it and returns the new end; the rest of the buffer is unchanged |
| CStrings.Append | src/pg_index.c:121 | on a zeroed buffer, appending at a cursor inside the last written text extends that text and keeps the rest zero |
| CStrings.StrLen | src/pg_discovery.c:202 | `strlen`: the distance to the first terminator |
| CStrings.Upper | src/pg_discovery.c:127-128 | the `toupper` loop: same length, each character through C-locale `toupper` |
| CStrings.UpperIdempotent | src/pg_discovery.c:127-128 | upper-casing twice is upper-casing once |
| CStrings.UpperHasNoLowerCase | src/pg_discovery.c:127-128 | an upper-cased text has no lower-case ASCII letter |
| CStrings.ParseDecimalText | src/pg_setting.c:126 | the base-10 parse of the decimal form of n is n |
| CStrings.ParseDecimal | src/pg_index.c:201 | `atoi`/`strtoull` on the model's digit-only domain (see `CStrings.ParseDecimal` under "## Left out"): text with no leading digit reads as 0 |
| CStrings.ParseDecimalIgnoresTail | src/pg_index.c:201 | the parse stops at the first non-digit: digits followed by any non-digit text read as the digits' value |
| CStrings.NonNumericParsesToZero | src/pg_index.c:201 | text whose first character is neither a digit, white space nor a sign parses as 0, as `atoi` does |
| Libpq.GetValue | src/pg_discovery.c:130 | `PQgetvalue`: a NUL-free text, the cell itself when the column exists |
| Connect.ConnString | src/pg_connect.c:28-32 | the text is base, separator, `dbname=` and db, of exactly the summed length |
| Connect.ConnStringStart | src/pg_connect.c:29-31 | the text starts with the given connection string and a space, or with the default and no space |
| Connect.ConnStringEnd | src/pg_connect.c:31-32 | the text always ends with `dbname=` and the given or default database |
| Connect.SeparatorIffConnString | src/pg_connect.c:30 | the single space appears iff a connection string is given |
| Connect.SourceBudget | src/pg_connect.c:20-23 | the source's `bufferlen`: never below the 9 bytes of ` dbname=` and NUL, and exactly 9 when neither part is given, whatever the defaults |
| Connect.BufferLength | src/pg_connect.c:20-26 | the buffer length the text needs: its length plus the terminator |
| Connect.SourceBudgetExactWhenGiven | src/pg_connect.c:20-23 | with both parts given, strlen(connstring) + strlen(dbname) + 9 is exactly the text plus its terminator |
| Connect.SourceBudgetFitsIff | src/pg_connect.c:20-32 | the source's budget fits iff the defaults it does not count stay within its one spare byte |
| Connect.SourceBudgetOverflows | src/pg_connect.c:20-32 | with a connection string and no database name the budget falls short by the default database name's length |
| Connect.BuildConnString | src/pg_connect.c:15-35 | a zeroed buffer of BufferLength, filled through the cursor, holds exactly the connection text and its terminator |
| Connect.WriteConnString | src/pg_connect.c:28-32 | the four `strcat2` calls write base, separator, `dbname=` and db in order |
| Connect.PgConnect | src/pg_connect.c:50 | a connection iff the server accepts the string; the server's message otherwise |
| Connect.RequestNamesDatabase | src/pg_connect.c:102-104 | the request's connection string ends with `dbname=` and parameter 1, or the default database |
| Connect.ConnectRequest | src/pg_connect.c:96-110 | connects with the text built from parameters 0 and 1 |

## Left out

- libpq itself (`PQconnectdb`, `pg_exec`, `PQresultStatus`, `PQntuples`, `PQfinish`, `PQclear`): the server is an oracle, and a connection is identified by its connection string.
- `pg_get_int`, `pg_get_dbl`, `pg_get_string` and `pg_get_percentage` are not part of this model: handlers that call them are modelled by the call they make. The percentage arithmetic and its division by zero are not modelled.
- The SQL text of the catalog queries, including the index listing base query (`Indexes.IndexListingBase`), is opaque: its meaning is the server's business.
- `DEFAULT_CONN_STRING` and `DEFAULT_CONN_DBNAME` come from a header that is not part of this model; their values are left open (`Connect.DefaultConnString`, `Connect.DefaultConnDbName`).
- `param_new` is not part of this model. The table and index handlers pass the raw parameter, so an empty name is bound as `""` even with the aggregate template (`Tables.StatAllTablesBindsEmptyName`). Whether the helper drops it is not visible.
- Floating point: `strtold` and double results keep the cell's text (`Agent.Value.Double`).
- `CStrings.ParseDecimal`: models `atoi` and `strtoull` on digit strings only. Leading whitespace, signs, overflow, the 32-bit result of `atoi` and its conversion to uint64 are not modelled.
- `zbx_json` escaping and buffer growth: the payload is a sequence of key/value lists.
- Logging, `strdup` leaks and cleanup on exit paths.
- `MAX_STRING_LEN` truncation by `zbx_snprintf` and `strcat2`: `Indexes.IndexListingOf` sizes its buffer to fit the query.
- The schema and table filters are interpolated unescaped; the model states the literal text appended and claims nothing about injection.
- A column missing from a result reads as empty text (`Libpq.GetValue`).

## Findings

| source | as written | input that shows it | evidently intended | confidence | as-written member | corrected member |
|---|---|---|---|---|---|---|
| src/pg_connect.c:20-32 | the buffer is strlen(connstring) + strlen(dbname) + 9 bytes, which counts neither default | a connection string `host=db` with no database name, when DEFAULT_CONN_DBNAME is non-empty: the text needs 7 + 1 + 7 + strlen(DEFAULT_CONN_DBNAME) + 1 bytes but gets 16 | size the buffer from the parts actually written, defaults included | not executed | Connect.SourceBudgetOverflows | Connect.BuildConnString |
