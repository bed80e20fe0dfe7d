/** The `pg.setting*` keys of src/pg_setting.c. */
module Settings {
  import opened Wrappers
  import opened Agent
  import opened CStrings
  import opened Libpq
  import opened Calls
  import opened Connect

  /** The setting-name parameter. */
  function SettingName(req: AgentRequest): Param
  {
    GetParam(req, ParamFirst)
  }

  /** `pg.setting.discovery`: always shallow, on the connected database. */
  function SettingDiscovery(req: AgentRequest): (d: Dispatch)
    ensures d.Issue? && d.call.Shallow? && d.call.query == Fixed(DiscoverSettings) && WellBound(d.call)
  {
    Issue(Shallow(Fixed(DiscoverSettings), None))
  }

  /** The value a setting is reported as, by its vartype tag: an `integer`
      tag parses the text as a decimal, a `real` tag keeps it as a double,
      and any other tag passes the text through. */
  function SettingValue(value: string, vartype: string): (v: Value)
    ensures v.UInt64? <==> HasPrefix(vartype, "integer")
    ensures v.Double? <==> HasPrefix(vartype, "real")
    ensures v.UInt64? ==> v.n == ParseDecimal(value)
    ensures !v.UInt64? ==> v.text == value
  {
    PrefixesExclusive(vartype, "integer", "real");
    if HasPrefix(vartype, "integer") then UInt64(ParseDecimal(value))
    else if HasPrefix(vartype, "real") then Double(value)
    else Str(value)
  }

  /** `pg.setting[...]`: a setting name is mandatory; the value and vartype
      of the first row decide the result. */
  function Setting(server: Server, req: AgentRequest): (r: Reply)
    ensures IsNull(SettingName(req)) ==> r == Error("No setting name specified")
    ensures var conninfo := RequestConnString(req);
      var res := server.exec(conninfo, Fixed(GetSetting), SettingName(req));
      && (r.Fail? <==> !IsNull(SettingName(req)) && server.connect(conninfo).Connected?
                       && res.Tuples? && |res.table.cells| == 0)
      && (r.Result? <==> !IsNull(SettingName(req)) && server.connect(conninfo).Connected?
                         && res.Tuples? && |res.table.cells| > 0)
      && (r.Result? ==> r.value == SettingValue(GetValue(res.table, 0, 0), GetValue(res.table, 0, 1)))
  {
    var name := SettingName(req);
    if name.None? || name.value == "" then Error("No setting name specified")
    else
      match PgConnect(server, RequestConnString(req))
      case Failed(msg) => Error(msg)
      case Done(conn) =>
        match server.exec(conn, Fixed(GetSetting), name)
        case ExecError(msg) => Error(QueryError(msg))
        case Tuples(t) =>
          if |t.cells| == 0 then Fail
          else Result(SettingValue(GetValue(t, 0, 0), GetValue(t, 0, 1)))
  }

  /** A non-OK status reports "PostgreSQL query error: " and the driver's
      message. */
  lemma SettingQueryError(server: Server, req: AgentRequest)
    requires !IsNull(SettingName(req))
    requires server.connect(RequestConnString(req)).Connected?
    requires server.exec(RequestConnString(req), Fixed(GetSetting), SettingName(req)).ExecError?
    ensures Setting(server, req)
      == Error(QueryError(server.exec(RequestConnString(req), Fixed(GetSetting), SettingName(req)).msg))
  {
  }

  /** An `integer` setting whose text is the decimal form of `n` reads as `n`. */
  lemma IntegerSetting(n: nat)
    ensures SettingValue(DecimalText(n), "integer") == UInt64(n)
  {
    ParseDecimalText(n);
  }

  /** A setting whose vartype is neither `integer` nor `real` (bool, string,
      enum) is passed through as its text. */
  lemma TextSetting(value: string, vartype: string)
    requires !HasPrefix(vartype, "integer") && !HasPrefix(vartype, "real")
    ensures SettingValue(value, vartype) == Str(value)
  {
  }
}
