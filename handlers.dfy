/** Running what a discovery handler dispatches: a refusal becomes the
    agent's error message, a shallow call `pg_get_discovery` and a wide call
    `pg_get_discovery_wide`. This follows a key from its parameters through
    to the payload the agent receives. */
module Handlers {
  import opened Wrappers
  import opened Agent
  import opened Libpq
  import opened Calls
  import opened Connect
  import opened Discovery
  import Indexes
  import Tables

  /** A dispatch a discovery handler can make. */
  predicate IsDiscovery(d: Dispatch)
  {
    d.Reject? || d.call.Shallow? || d.call.Wide?
  }

  /** The reply a discovery dispatch leaves in the agent result. */
  function Run(server: Server, req: AgentRequest, d: Dispatch): (r: Reply)
    requires IsDiscovery(d)
    ensures r.Discovered? || r.Error?
    ensures d.Reject? ==> r == Error(d.msg)
    ensures d.Issue? && d.call.Shallow? ==> r == ShallowDiscovery(server, req, d.call.query, d.call.bound)
    ensures d.Issue? && d.call.Wide? ==> r == WideDiscovery(server, req, d.call.query, d.call.bound)
  {
    match d
    case Reject(msg) => Error(msg)
    case Issue(call) =>
      if call.Shallow? then ShallowDiscovery(server, req, call.query, call.bound)
      else WideDiscovery(server, req, call.query, call.bound)
  }

  /** `pg.index.discovery` end to end: the mode picks wide or shallow
      discovery of the assembled listing query, or the mode error; in
      shallow mode against a server that answers, the payload is one object
      per listed index. */
  lemma IndexDiscoveryReplies(server: Server, req: AgentRequest)
    ensures var mode := GetParam(req, ParamFirst);
      var query := Text(Indexes.IndexListing(GetParam(req, ParamFirst + 1), GetParam(req, ParamFirst + 2)));
      var r := Run(server, req, Discover(mode, query));
      && ((IsNull(mode) || mode.value == "deep") ==> r == WideDiscovery(server, req, query, None))
      && (mode == Some("shallow") ==> r == ShallowDiscovery(server, req, query, None))
      && (!IsNull(mode) && mode.value != "deep" && mode.value != "shallow" ==>
            r == Error("Invalid search mode parameter: " + mode.value))
      && (mode == Some("shallow") && server.connect(RequestConnString(req)).Connected?
          && server.exec(RequestConnString(req), query, None).Tuples? ==>
            r == Discovered(Objects(server.exec(RequestConnString(req), query, None).table)))
  {
  }

  /** `pg.table.discovery` end to end, over the table listing template. */
  lemma TableDiscoveryReplies(server: Server, req: AgentRequest)
    ensures var mode := GetParam(req, ParamFirst);
      var r := Run(server, req, Tables.TableDiscovery(req));
      && ((IsNull(mode) || mode.value == "deep") ==> r == WideDiscovery(server, req, Fixed(DiscoverTables), None))
      && (mode == Some("shallow") ==> r == ShallowDiscovery(server, req, Fixed(DiscoverTables), None))
      && (!IsNull(mode) && mode.value != "deep" && mode.value != "shallow" ==>
            r == Error("Invalid search mode parameter: " + mode.value))
  {
  }
}
