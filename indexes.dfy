/** The `pg.index.*` keys of src/pg_index.c. */
module Indexes {
  import opened Wrappers
  import opened Agent
  import opened CStrings
  import opened Libpq
  import opened Calls
  import opened Connect

  /** The length of `pg.index.`, where the statistic field begins. */
  const FieldStart: nat := 9

  /** The index-name parameter. */
  function IndexName(req: AgentRequest): Param
  {
    GetParam(req, ParamFirst)
  }

  /** The index listing query the filters extend (its SQL text is the
      database's business; it is a C string). */
  const IndexListingBase: CText

  /** The schema filter: empty without a schema name. */
  function SchemaClause(schema: Param): (clause: string)
    ensures clause == "" <==> IsNull(schema)
  {
    if IsNull(schema) then "" else " AND n.nspname = '" + schema.value + "'"
  }

  /** The table filter: empty without a table name. */
  function TableClause(table: Param): (clause: string)
    ensures clause == "" <==> IsNull(table)
  {
    if IsNull(table) then "" else " AND t.relname = '" + table.value + "'"
  }

  /** The listing query: the base, then the schema filter, then the table
      filter. */
  function IndexListing(schema: Param, table: Param): (query: string)
    ensures HasPrefix(query, IndexListingBase)
    ensures IsNull(schema) && IsNull(table) ==> query == IndexListingBase
  {
    IndexListingBase + SchemaClause(schema) + TableClause(table)
  }

  /** A table filter never reads as a schema filter. */
  lemma TableClauseIsNoSchemaClause(table: Param)
    ensures !HasPrefix(TableClause(table), " AND n.nspname = '")
  {
    var filter := " AND n.nspname = '";
    var clause := TableClause(table);
    if clause != [] && |clause| >= |filter| {
      assert clause[5] == 't';
      assert clause[..|filter|][5] != filter[5];
    }
  }

  /** A schema filter, followed by anything, still reads as one. */
  lemma SchemaClauseLeads(schema: Param, table: Param)
    requires !IsNull(schema)
    ensures HasPrefix(SchemaClause(schema) + TableClause(table), " AND n.nspname = '")
  {
    var filter := " AND n.nspname = '";
    var tail := schema.value + "'" + TableClause(table);
    assert SchemaClause(schema) + TableClause(table) == filter + tail;
    assert (filter + tail)[..|filter|] == filter;
  }

  /** The filters start with the schema filter exactly when a schema name is
      given. */
  lemma FiltersStartWithSchema(schema: Param, table: Param)
    ensures HasPrefix(SchemaClause(schema) + TableClause(table), " AND n.nspname = '") <==> !IsNull(schema)
  {
    if !IsNull(schema) {
      SchemaClauseLeads(schema, table);
    } else {
      assert SchemaClause(schema) + TableClause(table) == TableClause(table);
      TableClauseIsNoSchemaClause(table);
    }
  }

  /** The text after the base starts with the schema filter exactly when a
      schema name is given. */
  lemma SchemaFilterIff(schema: Param, table: Param)
    ensures var query := IndexListing(schema, table);
      HasPrefix(query[|IndexListingBase|..], " AND n.nspname = '") <==> !IsNull(schema)
  {
    assert IndexListing(schema, table)[|IndexListingBase|..] == SchemaClause(schema) + TableClause(table);
    FiltersStartWithSchema(schema, table);
  }

  /** With a table name, the query ends with the table filter, after any
      schema filter; without one, it ends with the schema filter or the base. */
  lemma TableFilterLast(schema: Param, table: Param)
    ensures var query := IndexListing(schema, table);
      !IsNull(table) ==> query[|query| - |TableClause(table)|..] == " AND t.relname = '" + table.value + "'"
    ensures IsNull(table) ==> IndexListing(schema, table) == IndexListingBase + SchemaClause(schema)
  {
    var query := IndexListing(schema, table);
    assert query == (IndexListingBase + SchemaClause(schema)) + TableClause(table);
  }

  /** The query-building part of `PG_INDEX_DISCOVERY`: copy the base into
      `query`, then append each filter through the `strcat2` cursor. */
  method IndexListingOf(req: AgentRequest) returns (text: string)
    ensures text == IndexListing(GetParam(req, ParamFirst + 1), GetParam(req, ParamFirst + 2))
  {
    var schema := GetParam(req, ParamFirst + 1);
    var table := GetParam(req, ParamFirst + 2);
    // MAX_STRING_LEN in the source; here exactly what the query needs.
    var capacity := |IndexListingBase| + |SchemaClause(schema)| + |TableClause(table)| + 1;
    var query := new char[capacity](_ => '\0');
    var c := Append(query, 0, IndexListingBase, "");
    c := 0;
    ghost var written := IndexListingBase;
    if !IsNull(schema) {
      var buffer := " AND n.nspname = '" + schema.value + "'";
      c := Append(query, c, buffer, written);
      written := written + buffer;
    }
    if !IsNull(table) {
      var buffer := " AND t.relname = '" + table.value + "'";
      c := Append(query, c, buffer, written);
      written := written + buffer;
    }
    text := query[..capacity - 1];
  }

  /** `pg.index.discovery`: build the listing query, then dispatch on the
      search mode in parameter 2. */
  method IndexDiscovery(req: AgentRequest) returns (d: Dispatch)
    ensures var query := Text(IndexListing(GetParam(req, ParamFirst + 1), GetParam(req, ParamFirst + 2)));
      d == Discover(GetParam(req, ParamFirst), query)
  {
    var query := IndexListingOf(req);
    var mode := GetParam(req, ParamFirst);
    if mode.None? || mode.value == "" || mode.value == "deep" {
      d := Issue(Wide(Text(query), None));
    } else if mode.value == "shallow" {
      d := Issue(Shallow(Text(query), None));
    } else {
      d := Reject("Invalid search mode parameter: " + mode.value);
    }
  }

  /** The query `PG_STAT_ALL_INDEXES` formats: the SUM form without an index
      name, the `indexrelname = $1` form with one. */
  function IndexStatQuery(req: AgentRequest): (q: Sql)
    requires |req.key| >= FieldStart
    ensures q == Filled(IndexStatSum, req.key[FieldStart..]) <==> IsNull(IndexName(req))
    ensures !IsNull(IndexName(req)) ==> q == Filled(IndexStat, req.key[FieldStart..])
    ensures Suits(q, IndexName(req)) <==> IndexName(req) != Some("")
  {
    var field := StatField(req.key, FieldStart);
    if IsNull(IndexName(req)) then Filled(IndexStatSum, field) else Filled(IndexStat, field)
  }

  /** The text of the two inline statistics queries, as echoed when no row
      comes back. */
  function IndexStatText(q: Sql): string
  {
    match q
    case Filled(IndexStatSum, field) => "SELECT SUM(" + field + ") FROM pg_stat_all_indexes"
    case Filled(IndexStat, field) => "SELECT " + field + " FROM pg_stat_all_indexes WHERE indexrelname = $1"
    case _ => ""
  }

  /** `pg.index.<field>` over pg_stat_all_indexes, which runs its own query:
      a failed connection or query reports its message, no rows reports the
      query text, and otherwise cell [0,0] is read as an unsigned integer. */
  function StatAllIndexes(server: Server, req: AgentRequest): (r: Reply)
    requires |req.key| >= FieldStart
    ensures r.Result? || r.Error?
    ensures r.Result? ==> r.value.UInt64?
    ensures var conninfo := RequestConnString(req);
      r.Result? <==>
        && server.connect(conninfo).Connected?
        && server.exec(conninfo, IndexStatQuery(req), IndexName(req)).Tuples?
        && |server.exec(conninfo, IndexStatQuery(req), IndexName(req)).table.cells| > 0
  {
    var query := IndexStatQuery(req);
    match PgConnect(server, RequestConnString(req))
    case Failed(msg) => Error(msg)
    case Done(conn) =>
      match server.exec(conn, query, IndexName(req))
      case ExecError(msg) => Error(QueryError(msg))
      case Tuples(t) =>
        if |t.cells| == 0 then Error("No results returned for query: " + IndexStatText(query))
        else Result(UInt64(ParseDecimal(GetValue(t, 0, 0))))
  }

  /** A non-OK status reports the driver's message. */
  lemma StatAllIndexesQueryError(server: Server, req: AgentRequest)
    requires |req.key| >= FieldStart
    requires server.connect(RequestConnString(req)).Connected?
    requires server.exec(RequestConnString(req), IndexStatQuery(req), IndexName(req)).ExecError?
    ensures StatAllIndexes(server, req)
      == Error(QueryError(server.exec(RequestConnString(req), IndexStatQuery(req), IndexName(req)).msg))
  {
  }

  /** No rows reports the formatted query, whose form follows the index
      name. */
  lemma StatAllIndexesNoRows(server: Server, req: AgentRequest)
    requires |req.key| >= FieldStart
    requires server.connect(RequestConnString(req)).Connected?
    requires var res := server.exec(RequestConnString(req), IndexStatQuery(req), IndexName(req));
      res.Tuples? && |res.table.cells| == 0
    ensures var field := req.key[FieldStart..];
      StatAllIndexes(server, req) == Error("No results returned for query: " +
        if IsNull(IndexName(req)) then "SELECT SUM(" + field + ") FROM pg_stat_all_indexes"
        else "SELECT " + field + " FROM pg_stat_all_indexes WHERE indexrelname = $1")
  {
  }

  /** A cell holding the decimal text of `n` yields exactly `n`. */
  lemma StatAllIndexesValue(server: Server, req: AgentRequest, n: nat)
    requires |req.key| >= FieldStart
    requires server.connect(RequestConnString(req)).Connected?
    requires var res := server.exec(RequestConnString(req), IndexStatQuery(req), IndexName(req));
      res.Tuples? && |res.table.cells| > 0 && |res.table.columns| > 0 && res.table.cells[0][0] == DecimalText(n)
    ensures StatAllIndexes(server, req) == Result(UInt64(n))
  {
    ParseDecimalText(n);
  }

  /** `pg.index.<field>` over pg_statio_all_indexes: always an integer. */
  function StatioAllIndexes(req: AgentRequest): (d: Dispatch)
    requires |req.key| >= FieldStart
    ensures var field := req.key[FieldStart..];
      && d.Issue?
      && Selects(d.call, IntKind, Filled(IndexStatioSum, field), Filled(IndexStatio, field), IndexName(req))
      && d.call.bound == IndexName(req)
      && (IndexName(req) != Some("") ==> WellBound(d.call))
  {
    var field := StatField(req.key, FieldStart);
    var index := IndexName(req);
    if IsNull(index) then Issue(Get(IntKind, Filled(IndexStatioSum, field), index))
    else Issue(Get(IntKind, Filled(IndexStatio, field), index))
  }

  /** `pg.index.idx_blks_ratio`: filtered on `indexrelname` only with a name. */
  function IndexIdxBlksRatio(req: AgentRequest): (d: Dispatch)
    ensures d.Issue? && d.call.Percentage? && WellBound(d.call) && d.call.view == "pg_statio_all_indexes"
    ensures d.call.filter.Some? <==> !IsNull(IndexName(req))
    ensures !IsNull(IndexName(req)) ==> d.call.filter == Some(Filter("indexrelname", IndexName(req).value))
    ensures IsNull(IndexName(req)) ==>
      d.call.hit == "sum(idx_blks_hit)" && d.call.total == "sum(idx_blks_hit) + sum(idx_blks_read)"
    ensures !IsNull(IndexName(req)) ==>
      d.call.hit == "idx_blks_hit" && d.call.total == "idx_blks_hit + idx_blks_read"
  {
    Issue(Ratio("pg_statio_all_indexes", "sum(idx_blks_hit)", "sum(idx_blks_hit) + sum(idx_blks_read)",
                "idx_blks_hit", "idx_blks_hit + idx_blks_read", "indexrelname", IndexName(req)))
  }

  /** `pg.index.size`: the aggregate query goes out with no bound value at
      all, the per-index one with the name. */
  function IndexSize(req: AgentRequest): (d: Dispatch)
    ensures d.Issue? && Selects(d.call, IntKind, Fixed(IndexSizeSum), Fixed(Template.IndexSize), IndexName(req))
    ensures d.call.bound == (if IsNull(IndexName(req)) then None else IndexName(req))
    ensures WellBound(d.call)
  {
    var index := IndexName(req);
    if IsNull(index) then Issue(Get(IntKind, Fixed(IndexSizeSum), None))
    else Issue(Get(IntKind, Fixed(Template.IndexSize), index))
  }

  /** `pg.index.rows`. */
  function IndexRows(req: AgentRequest): (d: Dispatch)
    ensures d.Issue? && Selects(d.call, IntKind, Fixed(IndexRowsSum), Fixed(Template.IndexRows), IndexName(req))
    ensures d.call.bound == IndexName(req)
    ensures IndexName(req) != Some("") ==> WellBound(d.call)
  {
    var index := IndexName(req);
    Issue(Get(IntKind, if IsNull(index) then Fixed(IndexRowsSum) else Fixed(Template.IndexRows), index))
  }
}
