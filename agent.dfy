/** The agent's side of a metric request: the key, its positional parameters
    and the typed reply written back to the agent. */
module Agent {
  import opened Wrappers

  /** A positional parameter as `get_rparam` gives it: None (NULL) when the
      request has fewer parameters, else the text, which may be empty. */
  type Param = Option<string>

  /** An agent request: the metric key as invoked and its parameters. */
  datatype AgentRequest = AgentRequest(key: string, params: seq<string>)

  /** Positions of the parameters every key shares. */
  const ParamConnString: nat := 0
  const ParamDbName: nat := 1
  const ParamFirst: nat := 2

  /** `get_rparam`: the parameter at position `i`, NULL past the last one. */
  function GetParam(req: AgentRequest, i: nat): (p: Param)
    ensures p.Some? <==> i < |req.params|
    ensures p.Some? ==> p.value == req.params[i]
  {
    if i < |req.params| then Some(req.params[i]) else None
  }

  /** `strisnull`: a parameter that is NULL or empty. */
  predicate IsNull(p: Param): (r: bool)
    ensures !r ==> p.Some? && |p.value| > 0
    ensures r ==> p == None || p == Some("")
  {
    p.None? || p.value == ""
  }

  /** `0 == strncmp(s, prefix, |prefix|)`: `s` starts with `prefix`. */
  predicate HasPrefix(s: string, prefix: string)
  {
    |prefix| <= |s| && s[..|prefix|] == prefix
  }

  /** Two prefixes that differ in their first character never both match. */
  lemma PrefixesExclusive(s: string, p: string, q: string)
    requires |p| > 0 && |q| > 0 && p[0] != q[0]
    ensures !(HasPrefix(s, p) && HasPrefix(s, q))
  {
    if HasPrefix(s, p) {
      assert s[0] == s[..|p|][0] == p[0];
    }
  }

  /** `&request->key[n]`: the statistic field named by the key after its
      fixed-length prefix (`pg.table.`, `pg.index.` or `pg.db.`). */
  function StatField(key: string, n: nat): (field: string)
    requires n <= |key|
    ensures |field| == |key| - n
    ensures forall prefix :: |prefix| == n && HasPrefix(key, prefix) ==> key == prefix + field
  {
    key[n..]
  }

  /** The typed value a handler sets: SET_UI64_RESULT, SET_DBL_RESULT (kept
      as the text it was parsed from) or SET_STR_RESULT. */
  datatype Value = UInt64(n: nat) | Double(text: string) | Str(text: string)

  /** One discovery entry: `{#COLUMN}` and the cell text. */
  type Entry = (string, string)

  /** One discovered object: its entries in column order. */
  type Object = seq<Entry>

  /** What a handler leaves in the agent result: a value, a discovery payload
      (the `data` array), an error message, or a failure with no message. */
  datatype Reply =
    | Result(value: Value)
    | Discovered(data: seq<Object>)
    | Error(msg: string)
    | Fail

  /** The message set when a query's status is not PGRES_TUPLES_OK. */
  function QueryError(driverMsg: string): (msg: string)
    ensures HasPrefix(msg, "PostgreSQL query error: ")
    ensures msg[|"PostgreSQL query error: "|..] == driverMsg
  {
    "PostgreSQL query error: " + driverMsg
  }
}
