/** The `pg.db.*` keys of src/pg_database.c. Unlike the table and index keys,
    an empty database name is normalised to NULL before it is bound. */
module Databases {
  import opened Wrappers
  import opened Agent
  import opened Libpq
  import opened Calls

  /** The length of `pg.db.`, where the statistic field begins. */
  const FieldStart: nat := 6

  /** The database-name parameter. */
  function DbName(req: AgentRequest): Param
  {
    GetParam(req, ParamFirst)
  }

  /** The bound value after normalisation: NULL for an absent or empty name. */
  function Normalised(name: Param): (bound: Param)
    ensures bound.None? <==> IsNull(name)
    ensures bound.Some? ==> bound == name && bound.value != ""
  {
    if IsNull(name) then None else name
  }

  /** `pg.db.discovery`: always shallow, on the connected database. */
  function DbDiscovery(req: AgentRequest): (d: Dispatch)
    ensures d.Issue? && d.call.Shallow? && d.call.query == Fixed(DiscoverDbs) && WellBound(d.call)
  {
    Issue(Shallow(Fixed(DiscoverDbs), None))
  }

  /** `pg.db.<field>` over pg_stat_database: the SUM template and a NULL
      bound without a name, the `datname = $1` template with one. A
      `stats_reset` field is text and needs a name; a `blk_` field is a double;
      every other field is an integer. */
  function StatDatabase(req: AgentRequest): (d: Dispatch)
    requires |req.key| >= FieldStart
    ensures var field := req.key[FieldStart..];
      var kind := if HasPrefix(field, "stats_reset") then StrKind
                  else if HasPrefix(field, "blk_") then DblKind
                  else IntKind;
      && (d.Reject? <==> HasPrefix(field, "stats_reset") && IsNull(DbName(req)))
      && (d.Reject? ==> d.msg == "No database specified")
      && (d.Issue? ==> Selects(d.call, kind, Filled(DbStatSum, field), Filled(DbStat, field), DbName(req)))
      && (d.Issue? ==> d.call.bound == Normalised(DbName(req)) && WellBound(d.call))
  {
    var field := StatField(req.key, FieldStart);
    var name := DbName(req);
    var query := if IsNull(name) then Filled(DbStatSum, field) else Filled(DbStat, field);
    var bound := if IsNull(name) then None else name;
    if HasPrefix(field, "stats_reset") then
      if IsNull(bound) then Reject("No database specified")
      else Issue(Get(StrKind, query, bound))
    else if HasPrefix(field, "blk_") then Issue(Get(DblKind, query, bound))
    else Issue(Get(IntKind, query, bound))
  }

  /** The two kind-selecting prefixes never both match, so a field's kind
      does not depend on the order of the tests. */
  lemma KindPrefixesDisjoint(field: string)
    ensures !(HasPrefix(field, "stats_reset") && HasPrefix(field, "blk_"))
  {
    PrefixesExclusive(field, "stats_reset", "blk_");
  }

  /** `pg.db.blks_ratio`. */
  function DbBlksRatio(req: AgentRequest): (d: Dispatch)
    ensures d.Issue? && d.call.Percentage? && WellBound(d.call) && d.call.view == "pg_stat_database"
    ensures d.call.filter.Some? <==> !IsNull(DbName(req))
    ensures !IsNull(DbName(req)) ==> d.call.filter == Some(Filter("datname", DbName(req).value))
    ensures IsNull(DbName(req)) ==>
      d.call.hit == "sum(blks_hit)" && d.call.total == "sum(blks_hit) + sum(blks_read)"
    ensures !IsNull(DbName(req)) ==>
      d.call.hit == "blks_hit" && d.call.total == "blks_hit + blks_read"
  {
    Issue(Ratio("pg_stat_database", "sum(blks_hit)", "sum(blks_hit) + sum(blks_read)",
                "blks_hit", "blks_hit + blks_read", "datname", DbName(req)))
  }

  /** `pg.db.size`. */
  function DbSize(req: AgentRequest): (d: Dispatch)
    ensures d.Issue? && Selects(d.call, IntKind, Fixed(DbSizeSum), Fixed(Template.DbSize), DbName(req))
    ensures d.call.bound == Normalised(DbName(req)) && WellBound(d.call)
  {
    var name := DbName(req);
    if IsNull(name) then Issue(Get(IntKind, Fixed(DbSizeSum), None))
    else Issue(Get(IntKind, Fixed(Template.DbSize), name))
  }

  /** `pg.db.xid_age`: the oldest age over all databases without a name. */
  function DbXidAge(req: AgentRequest): (d: Dispatch)
    ensures d.Issue? && Selects(d.call, IntKind, Fixed(XidAgeMax), Fixed(XidAge), DbName(req))
    ensures d.call.bound == Normalised(DbName(req)) && WellBound(d.call)
  {
    var name := DbName(req);
    if IsNull(name) then Issue(Get(IntKind, Fixed(XidAgeMax), None))
    else Issue(Get(IntKind, Fixed(XidAge), name))
  }
}
