/** JSON-RPC method dispatch (app/rpc.py): a two-entry method table, the
    `list_catalogs` handler, and the `run_query_sync` handler with its
    `maxRows` default and error re-wrapping. The handlers reach the engine
    through the default client; here that client's settings, the network
    and the next call index travel together as a `Backend`. */
module Rpc {
  import opened PyValues
  import opened PyStrings
  import opened Trino

  /** The keys of `METHOD_TABLE`. */
  const METHOD_TABLE: set<string> := {"list_catalogs", "run_query_sync"}
  const DEFAULT_MAX_ROWS: int := 100
  const QUERY_ERROR: string := "Error executing query: "
  /** The text of the KeyError `dispatch_rpc` raises, before the method name. */
  const UNKNOWN_METHOD: string := "Unknown method: "

  datatype Backend = Backend(client: Settings, net: Network, horizon: nat, call: nat)

  ghost predicate Ready(b: Backend) {
    LinksEnd(b.net, b.horizon)
  }

  /** How `len(rows) < max_rows` sees a JSON `maxRows`: an int as itself, a
      bool as 0 or 1, anything else as a type `<` cannot compare with. */
  function RowCapOf(v: Json): (cap: RowCap)
    ensures v.JInt? ==> cap == Limit(v.i)
    ensures v.JBool? ==> cap == Limit(if v.b then 1 else 0)
    ensures cap.Incomparable? <==> !v.JInt? && !v.JBool?
    ensures cap.Incomparable? ==> cap.typeName == TypeName(v)
  {
    match v
    case JInt(i) => Limit(i)
    case JBool(b) => Limit(if b then 1 else 0)
    case _ => Incomparable(TypeName(v))
  }

  /** `params.get("maxRows", 100)`, as the client will compare it. */
  function MaxRows(params: map<string, Json>): RowCap {
    RowCapOf(Get(params, "maxRows", JInt(DEFAULT_MAX_ROWS)))
  }

  /** The dict `execute_query` returns, as JSON: the column names and the
      rows, each row the value `data` yielded for it. */
  function QueryResultJson(q: QueryResult): (v: Json)
    ensures v.JObj? && v.fields.Keys == {"columns", "rows"}
    ensures v.fields["columns"] == JArr(q.columns)
    ensures v.fields["rows"] == JArr(q.rows)
  {
    JObj(map["columns" := JArr(q.columns), "rows" := JArr(q.rows)])
  }

  /** The `list_catalogs` handler: the client's catalog list, errors unchanged. */
  function ListCatalogsHandler(b: Backend): CallRun<Json>
    requires Ready(b)
  {
    var c := ListCatalogsSpec(b.client, b.net, b.horizon, b.call);
    match c.outcome
    case Returned(names) => CallRun(Returned(JArr(names)), c.next, c.waits)
    case Raised(e) => CallRun(Raised(e), c.next, c.waits)
  }

  /** The `run_query_sync` handler. */
  function RunQuerySync(params: map<string, Json>, b: Backend): CallRun<Json>
    requires Ready(b)
  {
    if "sql" !in params then CallRun(Raised(Exception(KeyError, "sql")), b.call, [])
    else
      var q := ExecuteQuerySpec(b.client, b.net, b.horizon, b.call, params["sql"], MaxRows(params));
      match q.outcome
      case Returned(r) => CallRun(Returned(QueryResultJson(r)), q.next, q.waits)
      case Raised(e) => CallRun(Raised(Exception(ValueError, QUERY_ERROR + Str(e))), q.next, q.waits)
  }

  /** `dispatch_rpc(method, params)`. */
  function DispatchRpc(name: string, params: map<string, Json>, b: Backend): CallRun<Json>
    requires Ready(b)
  {
    if name !in METHOD_TABLE then CallRun(Raised(Exception(KeyError, UNKNOWN_METHOD + name)), b.call, [])
    else if name == "list_catalogs" then ListCatalogsHandler(b)
    else RunQuerySync(params, b)
  }

  // ---------------------------------------------------------------------
  // Properties
  // ---------------------------------------------------------------------

  /** Every error of `list_catalogs` is the client's RuntimeError, or the
      error `row[0]` raises on a row without a first cell: IndexError for an
      empty list or str, KeyError(0) for a dict, TypeError for a scalar. */
  lemma ListCatalogsErrors(b: Backend)
    requires Ready(b)
    ensures var r := ListCatalogsHandler(b);
            r.outcome.Raised? ==> r.outcome.exc.kind in {RuntimeError, IndexError, IntKeyError, TypeError}
  {
    var q := ExecuteQuerySpec(b.client, b.net, b.horizon, b.call, JStr("SHOW CATALOGS"), Limit(100));
    if q.outcome.Raised? {
      ExecuteQueryFailure(b.client, b.net, b.horizon, b.call, JStr("SHOW CATALOGS"), Limit(100));
      assert ListCatalogsHandler(b).outcome == Raised(q.outcome.exc);
    } else {
      var c := FirstCells(q.outcome.value.rows);
      assert ListCatalogsSpec(b.client, b.net, b.horizon, b.call).outcome == c;
    }
  }

  /** An unregistered method, and only an unregistered method, fails with
      KeyError(UNKNOWN_METHOD + name) before any handler runs. */
  lemma DispatchUnknownMethod(name: string, params: map<string, Json>, b: Backend)
    requires Ready(b)
    ensures var r := DispatchRpc(name, params, b);
            r.outcome == Raised(Exception(KeyError, UNKNOWN_METHOD + name)) <==> name !in METHOD_TABLE
    ensures name !in METHOD_TABLE ==> DispatchRpc(name, params, b).next == b.call
                                        && DispatchRpc(name, params, b).waits == []
  {
    var r := DispatchRpc(name, params, b);
    if name == "list_catalogs" {
      ListCatalogsErrors(b);
    } else if name == "run_query_sync" && "sql" in params {
      ExecuteQueryFailure(b.client, b.net, b.horizon, b.call, params["sql"], MaxRows(params));
    } else if name == "run_query_sync" {
      assert |"sql"| != |UNKNOWN_METHOD + name|;
    }
  }

  /** A registered method returns exactly what its handler returns. */
  lemma DispatchDelegates(name: string, params: map<string, Json>, b: Backend)
    requires Ready(b) && name in METHOD_TABLE
    ensures name == "list_catalogs" || name == "run_query_sync"
    ensures name == "list_catalogs" ==> DispatchRpc(name, params, b) == ListCatalogsHandler(b)
    ensures name == "run_query_sync" ==> DispatchRpc(name, params, b) == RunQuerySync(params, b)
  {
  }

  /** Without `sql` the handler raises KeyError('sql') and makes no request. */
  lemma RunQueryNeedsSql(params: map<string, Json>, b: Backend)
    requires Ready(b) && "sql" !in params
    ensures var r := RunQuerySync(params, b);
            && r.outcome.Raised? && r.outcome.exc.kind == KeyError
            && Str(r.outcome.exc) == "'sql'"
            && r.next == b.call && r.waits == []
  {
  }

  /** `maxRows` is 100 when absent and passed on unchanged otherwise. */
  lemma RunQueryMaxRows(params: map<string, Json>, b: Backend)
    requires Ready(b) && "sql" in params
    ensures "maxRows" !in params ==> MaxRows(params) == Limit(100)
    ensures "maxRows" in params ==> MaxRows(params) == RowCapOf(params["maxRows"])
    ensures var r := RunQuerySync(params, b);
            var q := ExecuteQuerySpec(b.client, b.net, b.horizon, b.call, params["sql"], MaxRows(params));
            && r.next == q.next && r.waits == q.waits
            && (r.outcome.Returned? <==> q.outcome.Returned?)
            && (q.outcome.Returned? ==> r.outcome.value == QueryResultJson(q.outcome.value))
  {
  }

  /** A client failure comes back as ValueError("Error executing query: " +
      str(e)), and `e` is the client's own RuntimeError wrapper
      `QueryFailure(m)` around the underlying text `m`. */
  lemma RunQueryErrorsWrapped(params: map<string, Json>, b: Backend)
    requires Ready(b) && "sql" in params
    ensures var r := RunQuerySync(params, b);
            r.outcome.Raised? ==>
              exists m :: r.outcome.exc == Exception(ValueError, QUERY_ERROR + QueryFailure(m).msg)
  {
    var q := ExecuteQuerySpec(b.client, b.net, b.horizon, b.call, params["sql"], MaxRows(params));
    var r := RunQuerySync(params, b);
    if r.outcome.Raised? {
      ExecuteQueryFailure(b.client, b.net, b.horizon, b.call, params["sql"], MaxRows(params));
      var m :| q.outcome.exc == QueryFailure(m);
      assert r.outcome.exc == Exception(ValueError, QUERY_ERROR + QueryFailure(m).msg);
    }
  }

  /** With a SQL string and no `maxRows`, a query whose submission returns at
      most 100 rows answers with at most 100 rows. */
  lemma RunQueryDefaultCap(sql: string, b: Backend)
    requires Ready(b)
    ensures var q := ExecuteQuerySpec(b.client, b.net, b.horizon, b.call, JStr(sql), Limit(100));
            var r := RunQuerySync(map["sql" := JStr(sql)], b);
            r.outcome.Returned? ==>
              && |q.pages| >= 1
              && (|q.pages[0].data| <= 100 ==> |r.outcome.value.fields["rows"].items| <= 100)
  {
    var params := map["sql" := JStr(sql)];
    assert MaxRows(params) == Limit(100);
    ExecuteQueryCap(b.client, b.net, b.horizon, b.call, sql, 100);
  }
}
