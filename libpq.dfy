/** The database as the module sees it: an opaque server that accepts a
    connection string, then a query with at most one bound value, and answers
    with an error or a table of text cells. */
module Libpq {
  import opened Agent
  import opened CStrings

  /** The module's query templates, by the name of the `#define` (or the
      handler) that holds them. Their SQL text is the database's business. */
  datatype Template =
    // src/pg_table.c
    | DiscoverTables | DiscoverTableChildren
    | TableStatSum | TableStat | TableStatio | TableStatioSum
    | TableSize | TableSizeSum | TableRowsSum | TableRows
    | TableChildCount | ChildrenSize | ChildrenRows
    // src/pg_index.c
    | IndexStatSum | IndexStat
    | IndexStatioSum | IndexStatio | IndexSize | IndexSizeSum | IndexRows | IndexRowsSum
    // src/pg_database.c
    | DiscoverDbs | DbStat | DbStatSum | DbSize | DbSizeSum | XidAgeMax | XidAge
    // src/pg_setting.c
    | DiscoverSettings | GetSetting
    // src/pg_discovery.c
    | ConnectableDatabases

  /** The query a handler issues: a template as written, a template whose one
      `%s` is filled with the statistic field, or text the module assembles
      itself (kept as text because the module extends or echoes it). */
  datatype Sql =
    | Fixed(template: Template)
    | Filled(template: Template, field: string)
    | Text(text: string)

  /** Whether a template reads the bound value `$1`. The assembled index
      listing has no placeholder. */
  predicate TakesParam(q: Sql)
  {
    match q
    case Text(_) => false
    case Fixed(t) => ParamTemplate(t)
    case Filled(t, _) => ParamTemplate(t)
  }

  predicate ParamTemplate(t: Template)
  {
    t in {DiscoverTableChildren, TableStat, TableStatio, TableSize, TableRows, TableChildCount,
          ChildrenSize, ChildrenRows, IndexStat, IndexStatio, IndexSize, IndexRows,
          DbStat, DbSize, XidAge, GetSetting}
  }

  /** A tuples result: column names and rows of cells, each row as wide as the
      column list, every name and cell a C string. */
  datatype TableData = TableData(columns: seq<string>, cells: seq<seq<string>>)

  predicate WellFormed(t: TableData)
  {
    && (forall x :: 0 <= x < |t.columns| ==> CString(t.columns[x]))
    && (forall i :: 0 <= i < |t.cells| ==> |t.cells[i]| == |t.columns|)
    && (forall i, x :: 0 <= i < |t.cells| && 0 <= x < |t.cells[i]| ==> CString(t.cells[i][x]))
  }

  type Table = t: TableData | WellFormed(t) witness TableData([], [])

  /** `PQgetvalue(res, i, x)`; a column the result lacks reads as empty text. */
  function GetValue(t: Table, i: nat, x: nat): (v: string)
    requires i < |t.cells|
    ensures CString(v)
    ensures x < |t.columns| ==> v == t.cells[i][x]
  {
    if x < |t.columns| then t.cells[i][x] else ""
  }

  /** What `pg_exec` yields: a non-OK status with the driver's message, or
      PGRES_TUPLES_OK with its table. */
  datatype QueryResult = ExecError(msg: string) | Tuples(table: Table)

  /** What `PQconnectdb` yields: CONNECTION_OK, or a failure with
      `PQerrorMessage`. */
  datatype Connection = Connected | Refused(msg: string)

  /** The server: how it answers a connection string, and how it answers a
      query with its bound value on a connection made with a given string. */
  datatype Server = Server(
    connect: string -> Connection,
    exec: (string, Sql, Param) -> QueryResult)
}
