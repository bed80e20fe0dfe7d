/** What a metric handler asks of the helpers that talk to the database
    (`pg_get_int`, `pg_get_dbl`, `pg_get_string`, `pg_get_percentage`,
    `pg_get_discovery`, `pg_get_discovery_wide`), or its refusal to ask. */
module Calls {
  import opened Wrappers
  import opened Agent
  import opened Libpq

  /** The type the value of cell [0,0] is read as. */
  datatype Kind = IntKind | DblKind | StrKind

  /** The column and value `pg_get_percentage` filters on. */
  datatype Filter = Filter(column: string, value: string)

  datatype Call =
    | Get(kind: Kind, query: Sql, bound: Param)
    | Percentage(view: string, hit: string, total: string, filter: Option<Filter>)
    | Shallow(query: Sql, bound: Param)
    | Wide(query: Sql, bound: Param)

  /** A handler either rejects the request before touching the database, or
      issues exactly one call. */
  datatype Dispatch = Reject(msg: string) | Issue(call: Call)

  /** A bound value suits a query: a query that reads `$1` gets a non-empty
      value, and one that does not gets NULL. */
  predicate Suits(query: Sql, bound: Param)
  {
    if TakesParam(query) then !IsNull(bound) else bound.None?
  }

  /** A call whose query and bound value agree, and whose filter, if any, is
      on a non-empty value. */
  predicate WellBound(c: Call)
  {
    match c
    case Get(_, query, bound) => Suits(query, bound)
    case Shallow(query, bound) => Suits(query, bound)
    case Wide(query, bound) => Suits(query, bound)
    case Percentage(_, _, _, filter) => filter.Some? ==> filter.value.value != ""
  }

  /** `c` reads one value of type `kind`, from the aggregate query exactly
      when `name` is absent or empty, and from the per-entity query otherwise. */
  predicate Selects(c: Call, kind: Kind, aggregate: Sql, filtered: Sql, name: Param)
  {
    && c.Get? && c.kind == kind
    && (IsNull(name) ==> c.query == aggregate)
    && (!IsNull(name) ==> c.query == filtered)
  }

  /** The search-mode dispatch of table and index discovery: absent or `deep`
      runs wide discovery, `shallow` runs shallow discovery, and any other
      value is refused with a message naming it. */
  function Discover(mode: Param, query: Sql): (d: Dispatch)
    ensures d.Issue? ==> d.call == Wide(query, None) || d.call == Shallow(query, None)
    ensures d == Issue(Wide(query, None)) <==> IsNull(mode) || mode.value == "deep"
    ensures d == Issue(Shallow(query, None)) <==> mode == Some("shallow")
    ensures d.Reject? <==> !IsNull(mode) && mode.value != "deep" && mode.value != "shallow"
    ensures d.Reject? ==> d.msg == "Invalid search mode parameter: " + mode.value
    ensures d.Issue? && !TakesParam(query) ==> WellBound(d.call)
  {
    if IsNull(mode) || mode.value == "deep" then Issue(Wide(query, None))
    else if mode.value == "shallow" then Issue(Shallow(query, None))
    else Reject("Invalid search mode parameter: " + mode.value)
  }

  /** The shape shared by the ratio keys: with no name, the aggregate
      numerator and total over the whole view; with a name, the per-row
      numerator and total filtered on `column` = name. */
  function Ratio(view: string, sumHit: string, sumTotal: string, hit: string, total: string,
                 column: string, name: Param): (c: Call)
    ensures c.Percentage? && c.view == view
    ensures c.filter.None? <==> IsNull(name)
    ensures IsNull(name) ==> c.hit == sumHit && c.total == sumTotal
    ensures !IsNull(name) ==> c.hit == hit && c.total == total && c.filter == Some(Filter(column, name.value))
    ensures WellBound(c)
  {
    if IsNull(name) then Percentage(view, sumHit, sumTotal, None)
    else Percentage(view, hit, total, Some(Filter(column, name.value)))
  }
}
