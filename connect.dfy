/** src/pg_connect.c: assembling a libpq connection string from the request
    and connecting with it. */
module Connect {
  import opened Wrappers
  import opened Agent
  import opened CStrings
  import opened Libpq

  /** DEFAULT_CONN_STRING and DEFAULT_CONN_DBNAME come from libzbxpgsql.h,
      which is not part of this model: their values are left open. */
  const DefaultConnString: string
  const DefaultConnDbName: string

  /** The connection part: the given string, or the default when it is NULL or empty. */
  function ConnBase(connstring: Param): string
  {
    if IsNull(connstring) then DefaultConnString else connstring.value
  }

  /** The single space that separates a given connection string from `dbname=`. */
  function Separator(connstring: Param): string
  {
    if IsNull(connstring) then "" else " "
  }

  /** The database: the given name, or the default when it is NULL or empty. */
  function ConnDb(dbname: Param): string
  {
    if IsNull(dbname) then DefaultConnDbName else dbname.value
  }

  /** The text `build_connstring` writes, without its terminator. */
  function ConnString(connstring: Param, dbname: Param): (r: string)
    ensures |r| == |ConnBase(connstring)| + |Separator(connstring)| + 7 + |ConnDb(dbname)|
  {
    ConnBase(connstring) + Separator(connstring) + "dbname=" + ConnDb(dbname)
  }

  /** The text starts with the given connection string and a space, or with
      the default and no space, and goes on with `dbname=`. */
  lemma ConnStringStart(connstring: Param, dbname: Param)
    ensures !IsNull(connstring) ==> HasPrefix(ConnString(connstring, dbname), connstring.value + " dbname=")
    ensures IsNull(connstring) ==> HasPrefix(ConnString(connstring, dbname), DefaultConnString + "dbname=")
  {
    var head := ConnBase(connstring) + Separator(connstring) + "dbname=";
    assert ConnString(connstring, dbname)[..|head|] == head;
    if !IsNull(connstring) {
      assert head == connstring.value + " dbname=";
    }
  }

  /** The text always ends with `dbname=` and the database. */
  lemma ConnStringEnd(connstring: Param, dbname: Param)
    ensures var r := ConnString(connstring, dbname);
      r[|r| - |ConnDb(dbname)| - 7..] == "dbname=" + ConnDb(dbname)
  {
    var r := ConnString(connstring, dbname);
    assert r == (ConnBase(connstring) + Separator(connstring)) + ("dbname=" + ConnDb(dbname));
  }

  /** The separator appears exactly when a connection string is given. */
  lemma SeparatorIffConnString(connstring: Param, dbname: Param)
    ensures var r := ConnString(connstring, dbname);
      !IsNull(connstring) <==> (|r| > |ConnBase(connstring)| + 7 + |ConnDb(dbname)| && r[|ConnBase(connstring)|] == ' ')
  {
    var r := ConnString(connstring, dbname);
    if !IsNull(connstring) {
      assert r[|ConnBase(connstring)|] == (connstring.value + " dbname=")[|connstring.value|];
    }
  }

  /** The buffer length `build_connstring` allocates, as written:
      strlen(connstring) + strlen(dbname) + 9, counting NULL as 0. */
  function SourceBudget(connstring: Param, dbname: Param): (n: nat)
    ensures n >= |" dbname="| + 1
    ensures IsNull(connstring) && IsNull(dbname) ==> n == |" dbname="| + 1
  {
    (if connstring.None? then 0 else |connstring.value|)
    + (if dbname.None? then 0 else |dbname.value|)
    + 9
  }

  /** The buffer length the assembled text needs: the text and its terminator. */
  function BufferLength(connstring: Param, dbname: Param): (n: nat)
    ensures n == |ConnString(connstring, dbname)| + 1
  {
    |ConnBase(connstring)| + |Separator(connstring)| + |"dbname="| + |ConnDb(dbname)| + 1
  }

  /** When both parts are given, the source's budget is exactly the text plus
      its terminator. */
  lemma SourceBudgetExactWhenGiven(connstring: Param, dbname: Param)
    requires !IsNull(connstring) && !IsNull(dbname)
    ensures SourceBudget(connstring, dbname) == BufferLength(connstring, dbname)
  {
  }

  /** The source's budget fits the text exactly when the defaults it does not
      count stay within its one spare byte. */
  lemma SourceBudgetFitsIff(connstring: Param, dbname: Param)
    ensures SourceBudget(connstring, dbname) >= BufferLength(connstring, dbname) <==>
      (if IsNull(connstring) then |DefaultConnString| else 1)
      + (if IsNull(dbname) then |DefaultConnDbName| else 0) <= 1
  {
  }

  /** The discrepancy: with a connection string and no database name, the
      default database name is written past the end of the source's buffer. */
  lemma SourceBudgetOverflows(host: string)
    requires host != "" && DefaultConnDbName != ""
    ensures SourceBudget(Some(host), None) < BufferLength(Some(host), None)
    ensures BufferLength(Some(host), None) - SourceBudget(Some(host), None) == |DefaultConnDbName|
  {
  }

  /** `build_connstring`, with the buffer sized for what is written:
      allocate and zero it, then append the four parts through cursor `c`. */
  method BuildConnString(connstring: Param, dbname: Param) returns (res: array<char>)
    ensures res.Length == BufferLength(connstring, dbname)
    ensures res[..] == ConnString(connstring, dbname) + ['\0']
  {
    var base := if IsNull(connstring) then DefaultConnString else connstring.value;
    var sep := if IsNull(connstring) then "" else " ";
    var db := if IsNull(dbname) then DefaultConnDbName else dbname.value;
    var bufferLen := |base| + |sep| + |"dbname="| + |db| + 1;
    res := new char[bufferLen](_ => '\0');
    WriteConnString(res, base, sep, db);
    assert base + sep + "dbname=" + db == ConnString(connstring, dbname);
    FilledBuffer(res, base + sep + "dbname=" + db);
  }

  /** The appends of `build_connstring`: the base, the separator, `dbname=`
      and the database, each at the cursor the previous one returned. */
  method WriteConnString(res: array<char>, base: string, sep: string, db: string)
    requires |base| + |sep| + |"dbname="| + |db| < res.Length
    requires ZeroedAfter(res, "")
    modifies res
    ensures ZeroedAfter(res, base + sep + "dbname=" + db)
  {
    var c := 0;
    c := Append(res, c, base, "");
    c := Append(res, c, sep, base);
    c := Append(res, c, "dbname=", base + sep);
    c := Append(res, c, db, base + sep + "dbname=");
  }

  /** `pg_connect`: connect with a connection string; on success the
      connection is identified by that string. */
  function PgConnect(server: Server, conninfo: string): (r: Outcome<string>)
    ensures r.Done? <==> server.connect(conninfo).Connected?
    ensures r.Done? ==> r.value == conninfo
    ensures r.Failed? ==> r.msg == server.connect(conninfo).msg
  {
    match server.connect(conninfo)
    case Connected => Done(conninfo)
    case Refused(msg) => Failed(msg)
  }

  /** The connection string `pg_connect_request` builds: from request
      parameters 0 (connection string) and 1 (database). */
  function RequestConnString(req: AgentRequest): string
  {
    ConnString(GetParam(req, ParamConnString), GetParam(req, ParamDbName))
  }

  /** The request's connection string names the database of parameter 1, or
      the default database when that parameter is absent or empty. */
  lemma RequestNamesDatabase(req: AgentRequest)
    ensures var r := RequestConnString(req);
      var db := GetParam(req, ParamDbName);
      && (!IsNull(db) ==> r[|r| - |db.value| - 7..] == "dbname=" + db.value)
      && (IsNull(db) ==> r[|r| - |DefaultConnDbName| - 7..] == "dbname=" + DefaultConnDbName)
  {
    ConnStringEnd(GetParam(req, ParamConnString), GetParam(req, ParamDbName));
  }

  /** `pg_connect_request`: build the string from the request, connect, and
      release the string. */
  method ConnectRequest(server: Server, req: AgentRequest) returns (conn: Outcome<string>)
    ensures conn == PgConnect(server, RequestConnString(req))
  {
    var connstring := BuildConnString(GetParam(req, ParamConnString), GetParam(req, ParamDbName));
    var conninfo := connstring[..connstring.Length - 1];
    conn := PgConnect(server, conninfo);
  }
}
