/** src/pg_discovery.c: turning a listing query's rows into discovery
    objects, on one database (shallow) or on every connectable database
    (wide). */
module Discovery {
  import opened Wrappers
  import opened Agent
  import opened CStrings
  import opened Libpq
  import opened Connect
  import opened MultiString

  /** The discovery macro for a column: `{#` + the upper-cased name + `}`. */
  function MacroKey(column: string): (key: string)
    ensures |key| == |column| + 3
    ensures key[..2] == "{#" && key[|key| - 1] == '}'
    ensures key[2..|key| - 1] == Upper(column)
  {
    "{#" + Upper(column) + "}"
  }

  /** Upper-casing a macro leaves it unchanged. */
  lemma MacroKeyIsUpper(column: string)
    ensures Upper(MacroKey(column)) == MacroKey(column)
  {
    var key := MacroKey(column);
    forall i | 0 <= i < |key|
      ensures Upper(key)[i] == key[i]
    {
      if 2 <= i < |key| - 1 {
        assert key[i] == Upper(column)[i - 2];
      }
    }
  }

  /** Two columns give the same macro exactly when they agree once
      upper-cased: the macro forgets case and nothing else. */
  lemma MacroKeyInjectiveUpToCase(a: string, b: string)
    ensures MacroKey(a) == MacroKey(b) <==> Upper(a) == Upper(b)
  {
    if MacroKey(a) == MacroKey(b) {
      assert Upper(a) == MacroKey(a)[2..|MacroKey(a)| - 1];
    }
  }

  /** The key loop of `pg_get_discovery`: format `{#%s}` into a buffer, then
      upper-case it in place up to its terminator. */
  method MacroKeyOf(column: string) returns (key: string)
    requires CString(column)
    ensures key == MacroKey(column)
  {
    var text := "{#" + column + "}";
    assert CString(text) by {
      assert forall i :: 0 <= i < |text| ==> text[i] == '{' || text[i] == '#' || text[i] == '}' || text[i] in column;
    }
    var buffer := new char[|text| + 1](i requires 0 <= i <= |text| => if i < |text| then text[i] else '\0');
    var c := 0;
    while buffer[c] != '\0'
      invariant 0 <= c <= |text|
      invariant buffer[..c] == Upper(text[..c])
      invariant buffer[c..] == text[c..] + ['\0']
      decreases |text| - c
    {
      assert buffer[c] == (text[c..] + ['\0'])[0];
      buffer[c] := UpperChar(buffer[c]);
      c := c + 1;
    }
    key := buffer[..c];
    assert text[..c] == text;
    assert Upper(text) == MacroKey(column);
  }

  /** One discovery object: an entry per column, in column order. */
  function RowObject(columns: seq<string>, cells: seq<string>): (o: Object)
    requires |cells| == |columns|
    ensures |o| == |columns|
  {
    if columns == [] then []
    else
      RowObject(columns[..|columns| - 1], cells[..|cells| - 1])
        + [(MacroKey(columns[|columns| - 1]), cells[|cells| - 1])]
  }

  /** One discovery object per row, in row order. */
  function RowObjects(columns: seq<string>, rows: seq<seq<string>>): (objects: seq<Object>)
    requires forall i :: 0 <= i < |rows| ==> |rows[i]| == |columns|
    ensures |objects| == |rows|
  {
    if rows == [] then []
    else RowObjects(columns, rows[..|rows| - 1]) + [RowObject(columns, rows[|rows| - 1])]
  }

  /** Entry x of an object is the macro of column x with cell x. */
  lemma {:induction false} RowObjectEntry(columns: seq<string>, cells: seq<string>, x: nat)
    requires |cells| == |columns| && x < |columns|
    ensures RowObject(columns, cells)[x] == (MacroKey(columns[x]), cells[x])
    decreases |columns|
  {
    var last := |columns| - 1;
    if x < last {
      RowObjectEntry(columns[..last], cells[..last], x);
    }
  }

  /** Object i of the payload is the object of row i. */
  lemma {:induction false} RowObjectsAt(columns: seq<string>, rows: seq<seq<string>>, i: nat)
    requires forall j :: 0 <= j < |rows| ==> |rows[j]| == |columns|
    requires i < |rows|
    ensures RowObjects(columns, rows)[i] == RowObject(columns, rows[i])
    decreases |rows|
  {
    var last := |rows| - 1;
    if i < last {
      RowObjectsAt(columns, rows[..last], i);
    }
  }

  /** The objects a tuples result contributes to the payload. */
  function Objects(t: Table): (objects: seq<Object>)
    ensures |objects| == |t.cells|
  {
    RowObjects(t.columns, t.cells)
  }

  /** The payload holds exactly one object per row, in row order, and object
      i maps the macro of each column x to cell [i,x], in column order. */
  lemma ObjectsShape(t: Table)
    ensures |Objects(t)| == |t.cells|
    ensures forall i :: 0 <= i < |t.cells| ==> |Objects(t)[i]| == |t.columns|
    ensures forall i, x :: 0 <= i < |t.cells| && 0 <= x < |t.columns| ==>
      Objects(t)[i][x] == (MacroKey(t.columns[x]), t.cells[i][x])
  {
    forall i | 0 <= i < |t.cells|
      ensures |Objects(t)[i]| == |t.columns|
    {
      RowObjectsAt(t.columns, t.cells, i);
    }
    forall i, x | 0 <= i < |t.cells| && 0 <= x < |t.columns|
      ensures Objects(t)[i][x] == (MacroKey(t.columns[x]), t.cells[i][x])
    {
      RowObjectsAt(t.columns, t.cells, i);
      RowObjectEntry(t.columns, t.cells[i], x);
    }
  }

  /** The column loop of `pg_get_discovery`: one entry per column, keyed by
      the column's macro. */
  method ObjectOf(columns: seq<string>, cells: seq<string>) returns (entries: Object)
    requires |cells| == |columns|
    requires forall x :: 0 <= x < |columns| ==> CString(columns[x])
    ensures entries == RowObject(columns, cells)
  {
    entries := [];
    for x := 0 to |columns|
      invariant entries == RowObject(columns[..x], cells[..x])
    {
      var key := MacroKeyOf(columns[x]);
      assert columns[..x + 1][..x] == columns[..x];
      assert cells[..x + 1][..x] == cells[..x];
      entries := entries + [(key, cells[x])];
    }
    assert columns[..|columns|] == columns;
    assert cells[..|cells|] == cells;
  }

  /** The row loop of `pg_get_discovery`: append one object per row to the
      payload being built. */
  method AppendObjects(data: seq<Object>, t: Table) returns (result: seq<Object>)
    ensures result == data + Objects(t)
  {
    var columns, rows := t.columns, t.cells;
    result := data;
    for i := 0 to |rows|
      invariant result == data + RowObjects(columns, rows[..i])
    {
      var entries := ObjectOf(columns, rows[i]);
      AppendRow(columns, rows, i);
      ConcatAssociative(data, RowObjects(columns, rows[..i]), [entries]);
      result := result + [entries];
    }
    assert rows[..|rows|] == rows;
  }

  /** Taking one more row appends that row's object. */
  lemma AppendRow(columns: seq<string>, rows: seq<seq<string>>, i: nat)
    requires i < |rows|
    requires forall j :: 0 <= j < |rows| ==> |rows[j]| == |columns|
    ensures RowObjects(columns, rows[..i + 1]) == RowObjects(columns, rows[..i]) + [RowObject(columns, rows[i])]
  {
    assert rows[..i + 1][..i] == rows[..i];
  }

  lemma ConcatAssociative<T>(a: seq<T>, b: seq<T>, c: seq<T>)
    ensures a + (b + c) == (a + b) + c
  {
  }

  /** The message `pg_get_databases` sets when it finds no database. */
  const NoDatabases := "Failed to enumerate connectable PostgreSQL databases"

  /** What `pg_get_databases` finds: the connectable databases in the order
      the server lists them. It does not test the query status: a failed
      query has no tuples, so it fails like an empty list. */
  function ListDatabases(server: Server, conninfo: string): (r: Outcome<seq<string>>)
    ensures r.Done? ==> |r.value| > 0 && forall i :: 0 <= i < |r.value| ==> CString(r.value[i])
  {
    match PgConnect(server, conninfo)
    case Failed(msg) => Failed(msg)
    case Done(conn) =>
      match server.exec(conn, Fixed(ConnectableDatabases), None)
      case ExecError(_) => Failed(NoDatabases)
      case Tuples(t) =>
        if |t.cells| == 0 then Failed(NoDatabases)
        else Done(seq(|t.cells|, i requires 0 <= i < |t.cells| => GetValue(t, i, 0)))
  }

  /** A connected server that lists no database yields no multi-string and
      the enumeration message. */
  lemma NoRowsNoDatabases(server: Server, conninfo: string)
    requires server.connect(conninfo).Connected?
    requires var res := server.exec(conninfo, Fixed(ConnectableDatabases), None);
      res.ExecError? || |res.table.cells| == 0
    ensures ListDatabases(server, conninfo) == Failed(NoDatabases)
  {
  }

  /** `pg_get_databases`: connect with the request's parameters, list the
      connectable databases, and pack their names into a multi-string. */
  method GetDatabases(server: Server, req: AgentRequest) returns (databases: Outcome<array<char>>)
    ensures var list := ListDatabases(server, RequestConnString(req));
      && (list.Failed? ==> databases == Failed(list.msg))
      && (list.Done? ==> databases.Done? && databases.value[..] == Joined(list.value))
  {
    var conn := ConnectRequest(server, req);
    if conn.Failed? {
      return Failed(conn.msg);
    }
    var res := server.exec(conn.value, Fixed(ConnectableDatabases), None);
    var rows := if res.Tuples? then |res.table.cells| else 0;
    if rows == 0 {
      return Failed(NoDatabases);
    }
    var names := seq(rows, i requires 0 <= i < rows => GetValue(res.table, i, 0));
    assert names == ListDatabases(server, RequestConnString(req)).value;
    var buffer := BuildMultiString(names);
    return Done(buffer);
  }

  /** `pg_get_discovery`: connect with the request's parameters, run the
      listing query, and return one object per row. */
  function ShallowDiscovery(server: Server, req: AgentRequest, query: Sql, bound: Param): (r: Reply)
    ensures r.Discovered? || r.Error?
    ensures r.Discovered? <==>
      PgConnect(server, RequestConnString(req)).Done? && server.exec(RequestConnString(req), query, bound).Tuples?
  {
    match PgConnect(server, RequestConnString(req))
    case Failed(msg) => Error(msg)
    case Done(conn) =>
      match server.exec(conn, query, bound)
      case ExecError(msg) => Error(QueryError(msg))
      case Tuples(t) => Discovered(Objects(t))
  }

  /** A failed query is reported with the driver's message and yields no
      payload. */
  lemma ShallowQueryError(server: Server, req: AgentRequest, query: Sql, bound: Param)
    requires server.connect(RequestConnString(req)).Connected?
    requires server.exec(RequestConnString(req), query, bound).ExecError?
    ensures ShallowDiscovery(server, req, query, bound)
      == Error(QueryError(server.exec(RequestConnString(req), query, bound).msg))
  {
  }

  /** Shallow discovery's payload has one object per row, in row order; zero
      rows is a success with an empty `data` array. */
  lemma ShallowPayload(server: Server, req: AgentRequest, query: Sql, bound: Param)
    requires server.connect(RequestConnString(req)).Connected?
    requires server.exec(RequestConnString(req), query, bound).Tuples?
    ensures var t := server.exec(RequestConnString(req), query, bound).table;
      var r := ShallowDiscovery(server, req, query, bound);
      && r.Discovered? && |r.data| == |t.cells|
      && (forall i :: 0 <= i < |t.cells| ==> |r.data[i]| == |t.columns|)
      && (forall i, x :: 0 <= i < |t.cells| && 0 <= x < |t.columns| ==>
            r.data[i][x] == (MacroKey(t.columns[x]), t.cells[i][x]))
      && (|t.cells| == 0 ==> r.data == [])
  {
    ObjectsShape(server.exec(RequestConnString(req), query, bound).table);
  }

  method GetDiscovery(server: Server, req: AgentRequest, query: Sql, bound: Param) returns (r: Reply)
    ensures r == ShallowDiscovery(server, req, query, bound)
  {
    var conn := ConnectRequest(server, req);
    if conn.Failed? {
      return Error(conn.msg);
    }
    var res := server.exec(conn.value, query, bound);
    if res.ExecError? {
      return Error(QueryError(res.msg));
    }
    var data := AppendObjects([], res.table);
    return Discovered(data);
  }

  /** One database of a wide discovery: connect to it with parameter 0 and
      its name, run the listing query, and collect its objects. */
  function DatabaseDiscovery(server: Server, connstring: Param, db: string, query: Sql, bound: Param)
    : (r: Outcome<seq<Object>>)
    ensures var conninfo := ConnString(connstring, Some(db));
      var res := server.exec(conninfo, query, bound);
      && (r.Done? <==> server.connect(conninfo).Connected? && res.Tuples?)
      && (r.Done? ==> r.value == Objects(res.table))
      && (server.connect(conninfo).Refused? ==> r == Failed(server.connect(conninfo).msg))
      && (server.connect(conninfo).Connected? && res.ExecError? ==> r == Failed(QueryError(res.msg)))
  {
    match PgConnect(server, ConnString(connstring, Some(db)))
    case Failed(msg) => Failed(msg)
    case Done(conn) =>
      match server.exec(conn, query, bound)
      case ExecError(msg) => Failed(QueryError(msg))
      case Tuples(t) => Done(Objects(t))
  }

  /** Two results in sequence: the first failure wins, else the payloads concatenate. */
  function Then(a: Outcome<seq<Object>>, b: Outcome<seq<Object>>): (r: Outcome<seq<Object>>)
    ensures r.Done? <==> a.Done? && b.Done?
    ensures r.Done? ==> r.value == a.value + b.value
    ensures a.Failed? ==> r == a
    ensures a.Done? && b.Failed? ==> r == b
  {
    match a
    case Failed(msg) => Failed(msg)
    case Done(x) =>
      match b
      case Failed(msg) => Failed(msg)
      case Done(y) => Done(x + y)
  }

  lemma ThenAssociative(a: Outcome<seq<Object>>, b: Outcome<seq<Object>>, c: Outcome<seq<Object>>)
    ensures Then(Then(a, b), c) == Then(a, Then(b, c))
  {
    if a.Done? && b.Done? && c.Done? {
      assert a.value + b.value + c.value == a.value + (b.value + c.value);
    }
  }

  /** Databases in list order: the first failure ends the discovery, and
      otherwise the payloads are concatenated. */
  function AcrossDatabases(server: Server, connstring: Param, dbs: seq<string>, query: Sql, bound: Param)
    : Outcome<seq<Object>>
  {
    if dbs == [] then Done([])
    else Then(AcrossDatabases(server, connstring, dbs[..|dbs| - 1], query, bound),
              DatabaseDiscovery(server, connstring, dbs[|dbs| - 1], query, bound))
  }

  /** The discovery across databases succeeds exactly when every database's
      discovery succeeds. */
  lemma {:induction false} AcrossDoneIff(server: Server, connstring: Param, dbs: seq<string>, query: Sql, bound: Param)
    ensures AcrossDatabases(server, connstring, dbs, query, bound).Done? <==>
      forall i :: 0 <= i < |dbs| ==> DatabaseDiscovery(server, connstring, dbs[i], query, bound).Done?
  {
    if dbs != [] {
      var prefix := dbs[..|dbs| - 1];
      AcrossDoneIff(server, connstring, prefix, query, bound);
      assert forall i :: 0 <= i < |prefix| ==> prefix[i] == dbs[i];
    }
  }

  /** A failed discovery across databases carries the failure of one of
      them: the connection or query error of the first database that failed. */
  lemma {:induction false} AcrossFailureIsSomeDatabase(server: Server, connstring: Param, dbs: seq<string>,
                                                       query: Sql, bound: Param)
    requires AcrossDatabases(server, connstring, dbs, query, bound).Failed?
    ensures exists i :: 0 <= i < |dbs| &&
              AcrossDatabases(server, connstring, dbs, query, bound) == DatabaseDiscovery(server, connstring, dbs[i], query, bound)
  {
    var last := |dbs| - 1;
    var prefix := dbs[..last];
    if AcrossDatabases(server, connstring, prefix, query, bound).Failed? {
      AcrossFailureIsSomeDatabase(server, connstring, prefix, query, bound);
      var i :| 0 <= i < |prefix| && AcrossDatabases(server, connstring, prefix, query, bound)
        == DatabaseDiscovery(server, connstring, prefix[i], query, bound);
      assert prefix[i] == dbs[i];
    } else {
      assert AcrossDatabases(server, connstring, dbs, query, bound)
        == DatabaseDiscovery(server, connstring, dbs[last], query, bound);
    }
  }

  /** Discovering over `a + b` is discovering over `a`, then over `b`. */
  lemma {:induction false} AcrossDatabasesAppend(server: Server, connstring: Param, a: seq<string>, b: seq<string>,
                                                 query: Sql, bound: Param)
    ensures AcrossDatabases(server, connstring, a + b, query, bound)
      == Then(AcrossDatabases(server, connstring, a, query, bound), AcrossDatabases(server, connstring, b, query, bound))
  {
    var across := AcrossDatabases(server, connstring, a, query, bound);
    if b == [] {
      assert a + b == a;
      if across.Done? {
        assert across.value + [] == across.value;
      }
    } else {
      var b' := b[..|b| - 1];
      assert (a + b)[..|a + b| - 1] == a + b';
      assert (a + b)[|a + b| - 1] == b[|b| - 1];
      AcrossDatabasesAppend(server, connstring, a, b', query, bound);
      ThenAssociative(across, AcrossDatabases(server, connstring, b', query, bound),
                      DatabaseDiscovery(server, connstring, b[|b| - 1], query, bound));
    }
  }

  /** One more database extends the walk's prefix by one step. */
  lemma AcrossStep(server: Server, connstring: Param, dbs: seq<string>, k: nat, query: Sql, bound: Param)
    requires k < |dbs|
    ensures AcrossDatabases(server, connstring, dbs[..k + 1], query, bound)
      == Then(AcrossDatabases(server, connstring, dbs[..k], query, bound),
              DatabaseDiscovery(server, connstring, dbs[k], query, bound))
  {
    assert dbs[..k + 1][..k] == dbs[..k];
  }

  /** Once a prefix of the databases fails, the whole discovery fails with
      the same message. */
  lemma {:induction false} FailurePersists(server: Server, connstring: Param, names: seq<string>, k: nat, n: nat,
                        query: Sql, bound: Param)
    requires k <= n <= |names|
    requires AcrossDatabases(server, connstring, names[..k], query, bound).Failed?
    ensures AcrossDatabases(server, connstring, names[..n], query, bound)
      == AcrossDatabases(server, connstring, names[..k], query, bound)
    decreases n
  {
    if k < n {
      var m := n - 1;
      FailurePersists(server, connstring, names, k, m, query, bound);
      FailureStep(server, connstring, names, m, query, bound);
    }
  }

  /** A failed prefix stays failed when one more database is taken. */
  lemma FailureStep(server: Server, connstring: Param, names: seq<string>, m: nat, query: Sql, bound: Param)
    requires m < |names|
    requires AcrossDatabases(server, connstring, names[..m], query, bound).Failed?
    ensures AcrossDatabases(server, connstring, names[..m + 1], query, bound)
      == AcrossDatabases(server, connstring, names[..m], query, bound)
  {
    AcrossStep(server, connstring, names, m, query, bound);
  }

  /** `pg_get_discovery_wide`: list the connectable databases, then run the
      listing query on each, in list order, until the walk of the
      multi-string meets an empty name. */
  function WideDiscovery(server: Server, req: AgentRequest, query: Sql, bound: Param): (r: Reply)
    ensures r.Discovered? || r.Error?
    ensures ListDatabases(server, RequestConnString(req)).Failed? ==> r == Error(ListDatabases(server, RequestConnString(req)).msg)
  {
    match ListDatabases(server, RequestConnString(req))
    case Failed(msg) => Error(msg)
    case Done(names) =>
      match AcrossDatabases(server, GetParam(req, ParamConnString), names[..FirstEmpty(names)], query, bound)
      case Failed(msg) => Error(msg)
      case Done(data) => Discovered(data)
  }

  /** With no empty database name, the wide payload is the concatenation over
      every listed database, in list order. */
  lemma WideCoversEveryDatabase(server: Server, req: AgentRequest, query: Sql, bound: Param)
    requires ListDatabases(server, RequestConnString(req)).Done?
    requires var names := ListDatabases(server, RequestConnString(req)).value;
      forall i :: 0 <= i < |names| ==> names[i] != ""
    ensures var names := ListDatabases(server, RequestConnString(req)).value;
      var across := AcrossDatabases(server, GetParam(req, ParamConnString), names, query, bound);
      WideDiscovery(server, req, query, bound) == (if across.Done? then Discovered(across.value) else Error(across.msg))
  {
    WalkVisitsAll(ListDatabases(server, RequestConnString(req)).value);
  }

  /** One pass of the wide loop: connect to database `name`, run the listing
      query there, and append its objects to `data`. */
  method DiscoverDatabase(server: Server, connstring: Param, name: string, query: Sql, bound: Param,
                          data: seq<Object>) returns (r: Outcome<seq<Object>>)
    ensures r == Then(Done(data), DatabaseDiscovery(server, connstring, name, query, bound))
  {
    var connArray := BuildConnString(connstring, Some(name));
    var conninfo := connArray[..connArray.Length - 1];
    var conn := PgConnect(server, conninfo);
    if conn.Failed? {
      return Failed(conn.msg);
    }
    var res := server.exec(conninfo, query, bound);
    if res.ExecError? {
      return Failed(QueryError(res.msg));
    }
    var objects := AppendObjects(data, res.table);
    return Done(objects);
  }

  /** One step of the walk over the multi-string: measure the name at `db`
      and move past its terminator. */
  method NextName(buffer: array<char>, ghost names: seq<string>, ghost k: nat, db: nat)
    returns (name: string, next: nat)
    requires forall i :: 0 <= i < |names| ==> CString(names[i])
    requires buffer[..] == Joined(names)
    requires k <= FirstEmpty(names)
    requires db == Offset(names, k) && db < buffer.Length
    requires buffer[db] != '\0'
    ensures k < FirstEmpty(names) && name == names[k]
    ensures db < next == Offset(names, k + 1) && next < buffer.Length
  {
    MultiStringEnd(names);
    WalkTest(names, k);
    MultiStringAt(names, k);
    assert buffer[db + |names[k]|] == '\0';
    var n := StrLen(buffer, db);
    assert buffer[db..db + n] == Joined(names)[db..db + n];
    NameAt(names, k, n);
    name := buffer[db..db + n];
    next := db + n + 1;
    if k + 1 < |names| {
      MultiStringAt(names, k + 1);
    } else {
      MultiStringEnd(names);
    }
  }

  /** The walk stops exactly at the first empty name, or at the end. */
  lemma WalkStops(names: seq<string>, k: nat)
    requires forall i :: 0 <= i < |names| ==> CString(names[i])
    requires k <= FirstEmpty(names)
    requires Offset(names, k) < |Joined(names)| && Joined(names)[Offset(names, k)] == '\0'
    ensures k == FirstEmpty(names)
  {
    if k < |names| {
      WalkTest(names, k);
    }
  }

  /** One turn of the wide loop: read the name at the cursor, discover that
      database, and move the cursor past the name's terminator. */
  method VisitDatabase(server: Server, connstring: Param, buffer: array<char>, ghost names: seq<string>,
                       ghost k: nat, db: nat, query: Sql, bound: Param, data: seq<Object>)
    returns (step: Outcome<seq<Object>>, next: nat)
    requires forall i :: 0 <= i < |names| ==> CString(names[i])
    requires buffer[..] == Joined(names)
    requires k <= FirstEmpty(names)
    requires db == Offset(names, k) && db < buffer.Length
    requires buffer[db] != '\0'
    requires AcrossDatabases(server, connstring, names[..k], query, bound) == Done(data)
    ensures k < FirstEmpty(names)
    ensures db < next == Offset(names, k + 1) && next < buffer.Length
    ensures step == AcrossDatabases(server, connstring, names[..k + 1], query, bound)
  {
    var name;
    name, next := NextName(buffer, names, k, db);
    AcrossStep(server, connstring, names, k, query, bound);
    step := DiscoverDatabase(server, connstring, name, query, bound, data);
  }

  /** The loop of `pg_get_discovery_wide`: walk the multi-string name by name,
      up to its final terminator or to an empty name, and discover each
      database in turn. */
  method WalkDatabases(server: Server, connstring: Param, buffer: array<char>, ghost names: seq<string>,
                       query: Sql, bound: Param) returns (r: Outcome<seq<Object>>)
    requires forall i :: 0 <= i < |names| ==> CString(names[i])
    requires buffer[..] == Joined(names)
    ensures r == AcrossDatabases(server, connstring, names[..FirstEmpty(names)], query, bound)
  {
    var data: seq<Object> := [];
    var db := 0;
    ghost var k := 0;
    assert names[..0] == [];
    while buffer[db] != '\0'
      invariant buffer[..] == Joined(names)
      invariant k <= FirstEmpty(names)
      invariant db == Offset(names, k) && db < buffer.Length
      invariant AcrossDatabases(server, connstring, names[..k], query, bound) == Done(data)
      decreases buffer.Length - db
    {
      var step, next := VisitDatabase(server, connstring, buffer, names, k, db, query, bound, data);
      if step.Failed? {
        FailurePersists(server, connstring, names, k + 1, FirstEmpty(names), query, bound);
        return step;
      }
      data := step.value;
      db, k := next, k + 1;
    }
    WalkStops(names, k);
    r := Done(data);
  }

  method GetDiscoveryWide(server: Server, req: AgentRequest, query: Sql, bound: Param) returns (r: Reply)
    ensures r == WideDiscovery(server, req, query, bound)
  {
    var databases := GetDatabases(server, req);
    if databases.Failed? {
      return Error(databases.msg);
    }
    ghost var names := ListDatabases(server, RequestConnString(req)).value;
    var walk := WalkDatabases(server, GetParam(req, ParamConnString), databases.value, names, query, bound);
    r := if walk.Done? then Discovered(walk.value) else Error(walk.msg);
  }
}
