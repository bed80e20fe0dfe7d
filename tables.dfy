/** The `pg.table.*` keys of src/pg_table.c: each reads parameter 2 (the
    table name) and either rejects the request or issues one call. */
module Tables {
  import opened Wrappers
  import opened Agent
  import opened Libpq
  import opened Calls

  /** The length of `pg.table.`, where the statistic field begins. */
  const FieldStart: nat := 9

  /** The table-name parameter. */
  function TableName(req: AgentRequest): Param
  {
    GetParam(req, ParamFirst)
  }

  /** `pg.table.discovery`: parameter 2 picks the search mode. */
  function TableDiscovery(req: AgentRequest): (d: Dispatch)
    ensures d.Issue? ==>
      && (d.call.Wide? || d.call.Shallow?)
      && d.call.query == Fixed(DiscoverTables) && d.call.bound == None && WellBound(d.call)
    ensures d.Issue? && d.call.Wide? <==> IsNull(GetParam(req, ParamFirst)) || GetParam(req, ParamFirst).value == "deep"
    ensures d.Issue? && d.call.Shallow? <==> GetParam(req, ParamFirst) == Some("shallow")
    ensures d.Reject? ==> d.msg == "Invalid search mode parameter: " + GetParam(req, ParamFirst).value
  {
    Discover(GetParam(req, ParamFirst), Fixed(DiscoverTables))
  }

  /** `pg.table.children.discovery`: a parent table name is mandatory. */
  function TableChildrenDiscovery(req: AgentRequest): (d: Dispatch)
    ensures d.Reject? <==> IsNull(TableName(req))
    ensures d.Reject? ==> d.msg == "No table name specified"
    ensures d.Issue? ==> d.call == Shallow(Fixed(DiscoverTableChildren), TableName(req)) && WellBound(d.call)
  {
    var name := TableName(req);
    if name.None? || name.value == "" then Reject("No table name specified")
    else Issue(Shallow(Fixed(DiscoverTableChildren), name))
  }

  /** `pg.table.<field>` over pg_stat_all_tables: the SUM template without a
      name, the `relname = $1` template with one; a `last_` field is text
      and cannot be summed, every other field is an integer. */
  function StatAllTables(req: AgentRequest): (d: Dispatch)
    requires |req.key| >= FieldStart
    ensures var field := req.key[FieldStart..];
      && (d.Reject? <==> HasPrefix(field, "last_") && IsNull(TableName(req)))
      && (d.Reject? ==> d.msg == "No table name specified")
      && (d.Issue? ==> d.call.Get? && d.call.bound == TableName(req))
      && (d.Issue? ==> Selects(d.call, if HasPrefix(field, "last_") then StrKind else IntKind,
                               Filled(TableStatSum, field), Filled(TableStat, field), TableName(req)))
      && (d.Issue? && TableName(req) != Some("") ==> WellBound(d.call))
  {
    var field := StatField(req.key, FieldStart);
    var name := TableName(req);
    var query := if IsNull(name) then Filled(TableStatSum, field) else Filled(TableStat, field);
    if HasPrefix(field, "last_") then
      if IsNull(name) then Reject("No table name specified")
      else Issue(Get(StrKind, query, name))
    else Issue(Get(IntKind, query, name))
  }

  /** The aggregate statistics template is issued with an empty bound value
      when the name parameter is present but empty: the request is not
      normalised to NULL as the database keys do. */
  lemma StatAllTablesBindsEmptyName(key: string)
    requires |key| >= FieldStart && !HasPrefix(key[FieldStart..], "last_")
    ensures var d := StatAllTables(AgentRequest(key, ["", "", ""]));
      d == Issue(Get(IntKind, Filled(TableStatSum, key[FieldStart..]), Some(""))) && !WellBound(d.call)
  {
  }

  /** `pg.table.idx_scan_ratio`. */
  function TableIdxScanRatio(req: AgentRequest): (d: Dispatch)
    ensures d.Issue? && d.call.Percentage? && WellBound(d.call) && d.call.view == "pg_stat_all_tables"
    ensures IsNull(TableName(req)) ==>
      d.call == Percentage("pg_stat_all_tables", "sum(idx_scan)", "sum(seq_scan) + sum(idx_scan)", None)
    ensures !IsNull(TableName(req)) ==>
      d.call == Percentage("pg_stat_all_tables", "idx_scan", "seq_scan + idx_scan",
                           Some(Filter("relname", TableName(req).value)))
  {
    Issue(Ratio("pg_stat_all_tables", "sum(idx_scan)", "sum(seq_scan) + sum(idx_scan)",
                "idx_scan", "seq_scan + idx_scan", "relname", TableName(req)))
  }

  /** `pg.table.<field>` over pg_statio_all_tables: always an integer. */
  function StatioAllTables(req: AgentRequest): (d: Dispatch)
    requires |req.key| >= FieldStart
    ensures var field := req.key[FieldStart..];
      && d.Issue?
      && Selects(d.call, IntKind, Filled(TableStatioSum, field), Filled(TableStatio, field), TableName(req))
      && d.call.bound == TableName(req)
      && (TableName(req) != Some("") ==> WellBound(d.call))
  {
    var field := StatField(req.key, FieldStart);
    var name := TableName(req);
    if name.None? || name.value == "" then Issue(Get(IntKind, Filled(TableStatioSum, field), name))
    else Issue(Get(IntKind, Filled(TableStatio, field), name))
  }

  /** The statio ratio shape: `<kind>_blks_hit` over hit + read. */
  function BlksRatio(kind: string, name: Param): (c: Call)
    ensures c.Percentage? && c.view == "pg_statio_all_tables" && WellBound(c)
    ensures IsNull(name) ==>
      c.hit == "sum(" + kind + "_blks_hit)" && c.filter.None?
      && c.total == "sum(" + kind + "_blks_hit) + sum(" + kind + "_blks_read)"
    ensures !IsNull(name) ==>
      c.hit == kind + "_blks_hit" && c.filter == Some(Filter("relname", name.value))
      && c.total == kind + "_blks_hit + " + kind + "_blks_read"
  {
    Ratio("pg_statio_all_tables",
          "sum(" + kind + "_blks_hit)", "sum(" + kind + "_blks_hit) + sum(" + kind + "_blks_read)",
          kind + "_blks_hit", kind + "_blks_hit + " + kind + "_blks_read",
          "relname", name)
  }

  /** `pg.table.heap_blks_ratio`. */
  function TableHeapBlksRatio(req: AgentRequest): (d: Dispatch)
    ensures d.Issue? && d.call.Percentage? && WellBound(d.call)
    ensures d.call.hit == (if IsNull(TableName(req)) then "sum(heap_blks_hit)" else "heap_blks_hit")
    ensures d.call.filter.Some? <==> !IsNull(TableName(req))
    ensures d == Issue(BlksRatio("heap", TableName(req)))
  {
    Issue(BlksRatio("heap", TableName(req)))
  }

  /** `pg.table.idx_blks_ratio`. */
  function TableIdxBlksRatio(req: AgentRequest): (d: Dispatch)
    ensures d.Issue? && d.call.Percentage? && WellBound(d.call)
    ensures d.call.hit == (if IsNull(TableName(req)) then "sum(idx_blks_hit)" else "idx_blks_hit")
    ensures d.call.filter.Some? <==> !IsNull(TableName(req))
    ensures d == Issue(BlksRatio("idx", TableName(req)))
  {
    Issue(BlksRatio("idx", TableName(req)))
  }

  /** `pg.table.toast_blks_ratio`. */
  function TableToastBlksRatio(req: AgentRequest): (d: Dispatch)
    ensures d.Issue? && d.call.Percentage? && WellBound(d.call)
    ensures d.call.hit == (if IsNull(TableName(req)) then "sum(toast_blks_hit)" else "toast_blks_hit")
    ensures d.call.filter.Some? <==> !IsNull(TableName(req))
    ensures d == Issue(BlksRatio("toast", TableName(req)))
  {
    Issue(BlksRatio("toast", TableName(req)))
  }

  /** `pg.table.tidx_blks_ratio`. */
  function TableTidxBlksRatio(req: AgentRequest): (d: Dispatch)
    ensures d.Issue? && d.call.Percentage? && WellBound(d.call)
    ensures d.call.hit == (if IsNull(TableName(req)) then "sum(tidx_blks_hit)" else "tidx_blks_hit")
    ensures d.call.filter.Some? <==> !IsNull(TableName(req))
    ensures d == Issue(BlksRatio("tidx", TableName(req)))
  {
    Issue(BlksRatio("tidx", TableName(req)))
  }

  /** `pg.table.size`. */
  function TableSize(req: AgentRequest): (d: Dispatch)
    ensures d.Issue? && Selects(d.call, IntKind, Fixed(TableSizeSum), Fixed(Template.TableSize), TableName(req))
    ensures d.call.bound == TableName(req)
    ensures TableName(req) != Some("") ==> WellBound(d.call)
  {
    var name := TableName(req);
    Issue(Get(IntKind, if IsNull(name) then Fixed(TableSizeSum) else Fixed(Template.TableSize), name))
  }

  /** `pg.table.rows`. */
  function TableRows(req: AgentRequest): (d: Dispatch)
    ensures d.Issue? && Selects(d.call, IntKind, Fixed(TableRowsSum), Fixed(Template.TableRows), TableName(req))
    ensures d.call.bound == TableName(req)
    ensures TableName(req) != Some("") ==> WellBound(d.call)
  {
    var name := TableName(req);
    Issue(Get(IntKind, if IsNull(name) then Fixed(TableRowsSum) else Fixed(Template.TableRows), name))
  }

  /** The message of the inheritance keys when the table name is missing. */
  const NoTableName := "Invalid parameter count. Please specify a table name."

  /** An inheritance key: a table name is mandatory, and the one template is
      issued with it bound. */
  function ChildrenKey(template: Template, name: Param): (d: Dispatch)
    requires ParamTemplate(template)
    ensures d.Reject? <==> IsNull(name)
    ensures d.Reject? ==> d.msg == NoTableName
    ensures d.Issue? ==> d.call == Get(IntKind, Fixed(template), name) && WellBound(d.call)
  {
    if IsNull(name) then Reject(NoTableName)
    else Issue(Get(IntKind, Fixed(template), name))
  }

  /** `pg.table.children`. */
  function TableChildren(req: AgentRequest): (d: Dispatch)
    ensures d.Reject? <==> IsNull(TableName(req))
    ensures d.Reject? ==> d.msg == NoTableName
    ensures d.Issue? ==> d.call == Get(IntKind, Fixed(TableChildCount), TableName(req)) && WellBound(d.call)
  {
    ChildrenKey(TableChildCount, TableName(req))
  }

  /** `pg.table.children.size`; its check spells out NULL-or-empty in place. */
  function TableChildrenSize(req: AgentRequest): (d: Dispatch)
    ensures d.Reject? <==> IsNull(TableName(req))
    ensures d.Reject? ==> d.msg == NoTableName
    ensures d.Issue? ==> d.call == Get(IntKind, Fixed(ChildrenSize), TableName(req)) && WellBound(d.call)
  {
    var name := TableName(req);
    if name.None? || name.value == "" then Reject(NoTableName)
    else Issue(Get(IntKind, Fixed(ChildrenSize), name))
  }

  /** `pg.table.children.rows`. */
  function TableChildrenRows(req: AgentRequest): (d: Dispatch)
    ensures d.Reject? <==> IsNull(TableName(req))
    ensures d.Reject? ==> d.msg == NoTableName
    ensures d.Issue? ==> d.call == Get(IntKind, Fixed(ChildrenRows), TableName(req)) && WellBound(d.call)
  {
    ChildrenKey(ChildrenRows, TableName(req))
  }
}
