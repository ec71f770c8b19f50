/** The HTTP entry points of the gateway (app/main.py): `/mcp`, which turns a
    JSON-RPC envelope into a response object, and `/health`, which probes the
    engine through the default client. */
module Gateway {
  import opened PyValues
  import opened PyStrings
  import opened Trino
  import opened Rpc

  const JSONRPC_VERSION: string := "2.0"
  /** The one code `mcp_endpoint` puts in every error object. */
  const ENDPOINT_ERROR_CODE: int := -32000

  /** A validated `RPCEnvelope`; `params` is None when absent or null. */
  datatype Envelope = Envelope(jsonrpc: string, id: Json, name: string, params: Option<map<string, Json>>)

  /** What FastAPI sends back: a JSON body with a status, or the plain 500
      an exception escaping the handler produces. */
  datatype HttpReply = JsonReply(status: int, body: Json) | InternalServerError

  datatype Served = Served(reply: HttpReply, next: nat, waits: seq<nat>)

  /** The `id: str | int | None` field: a bool is coerced to 0 or 1, any
      other type is rejected. */
  function IdValue(v: Json): (r: Option<Json>)
    ensures r.Some? <==> v.JStr? || v.JInt? || v.JNull? || v.JBool?
    ensures (v.JStr? || v.JInt? || v.JNull?) ==> r == Some(v)
  {
    match v
    case JStr(_) => Some(v)
    case JInt(_) => Some(v)
    case JNull => Some(v)
    case JBool(b) => Some(JInt(if b then 1 else 0))
    case _ => None
  }

  /** `RPCEnvelope.model_validate(payload)`: None when validation fails. */
  function ValidateEnvelope(payload: Json): Option<Envelope> {
    if !payload.JObj? then None
    else
      var f := payload.fields;
      if "jsonrpc" !in f || !f["jsonrpc"].JStr? then None
      else if "id" !in f || IdValue(f["id"]).None? then None
      else if "method" !in f || !f["method"].JStr? then None
      else if "params" in f && !f["params"].JObj? && !f["params"].JNull? then None
      else
        var params := if "params" in f && f["params"].JObj? then Some(f["params"].fields) else None;
        Some(Envelope(f["jsonrpc"].s, IdValue(f["id"]).value, f["method"].s, params))
  }

  function SuccessObject(id: Json, result: Json): Json {
    JObj(map["jsonrpc" := JStr(JSONRPC_VERSION), "id" := id, "result" := result])
  }

  function ErrorObject(id: Json, message: string): Json {
    JObj(map["jsonrpc" := JStr(JSONRPC_VERSION), "id" := id,
             "error" := JObj(map["code" := JInt(ENDPOINT_ERROR_CODE), "message" := JStr(message)])])
  }

  /** `mcp_endpoint(req)`: `body` is the decoded request body, None when it
      is not JSON. */
  function McpEndpoint(body: Option<Json>, b: Backend): Served
    requires Ready(b)
  {
    if body.None? then Served(InternalServerError, b.call, [])
    else
      match ValidateEnvelope(body.value)
      case None => Served(InternalServerError, b.call, [])
      case Some(env) =>
        var d := DispatchRpc(env.name, env.params.GetOr(map[]), b);
        match d.outcome
        case Returned(r) => Served(JsonReply(200, SuccessObject(env.id, r)), d.next, d.waits)
        case Raised(e) => Served(JsonReply(200, ErrorObject(env.id, Str(e))), d.next, d.waits)
  }

  // ---------------------------------------------------------------------
  // Properties of /mcp
  // ---------------------------------------------------------------------

  /** Validation accepts exactly the objects with a string `jsonrpc`, an `id`
      that is a string, an int, a bool or null, a string `method`, and
      `params` absent, null or an object; the fields are taken over as they
      are (a bool id as 0 or 1) and extra keys are ignored. */
  lemma ValidateEnvelopeExact(payload: Json)
    ensures ValidateEnvelope(payload).Some? <==>
              && payload.JObj?
              && "jsonrpc" in payload.fields && payload.fields["jsonrpc"].JStr?
              && "id" in payload.fields
              && (payload.fields["id"].JStr? || payload.fields["id"].JInt? ||
                  payload.fields["id"].JNull? || payload.fields["id"].JBool?)
              && "method" in payload.fields && payload.fields["method"].JStr?
              && ("params" in payload.fields ==>
                    payload.fields["params"].JObj? || payload.fields["params"].JNull?)
    ensures ValidateEnvelope(payload).Some? ==>
              var env := ValidateEnvelope(payload).value;
              var f := payload.fields;
              && env.jsonrpc == f["jsonrpc"].s
              && env.name == f["method"].s
              && IdValue(f["id"]) == Some(env.id)
              && (env.params.Some? <==> "params" in f && f["params"].JObj?)
  {
  }

  /** A valid envelope always gets a 200 JSON-RPC object with the envelope's
      id: the handler's result on success, and otherwise an error object of
      code -32000 whose message is `str(exc)`. Absent or null params reach
      the dispatcher as an empty dict. */
  lemma EndpointEchoesId(payload: Json, b: Backend)
    requires Ready(b) && ValidateEnvelope(payload).Some?
    ensures var env := ValidateEnvelope(payload).value;
            var d := DispatchRpc(env.name, env.params.GetOr(map[]), b);
            var s := McpEndpoint(Some(payload), b);
            && s.reply.JsonReply? && s.reply.status == 200
            && s.reply.body.JObj?
            && s.reply.body.fields["jsonrpc"] == JStr("2.0")
            && s.reply.body.fields["id"] == env.id
            && ("result" in s.reply.body.fields <==> d.outcome.Returned?)
            && ("error" in s.reply.body.fields <==> d.outcome.Raised?)
            && (d.outcome.Returned? ==> s.reply.body.fields["result"] == d.outcome.value)
            && (d.outcome.Raised? ==>
                  s.reply.body.fields["error"] == JObj(map["code" := JInt(-32000),
                                                           "message" := JStr(Str(d.outcome.exc))]))
            && s.next == d.next && s.waits == d.waits
  {
  }

  /** A body that is not JSON, or an envelope that fails validation, is never
      answered with a JSON-RPC object: the exception escapes and the server
      answers 500 without calling the engine. */
  lemma EndpointRejectsMalformed(body: Option<Json>, b: Backend)
    requires Ready(b)
    ensures var s := McpEndpoint(body, b);
            s.reply.InternalServerError? <==> body.None? || ValidateEnvelope(body.value).None?
    ensures var s := McpEndpoint(body, b);
            s.reply.InternalServerError? ==> s.next == b.call && s.waits == []
  {
  }

  /** The smallest valid envelope: `jsonrpc`, `id` and `method` only. */
  function BareEnvelope(id: Json, name: string): Json {
    JObj(map["jsonrpc" := JStr("2.0"), "id" := id, "method" := JStr(name)])
  }

  lemma BareEnvelopeValid(id: Json, name: string)
    requires id.JStr? || id.JInt? || id.JNull?
    ensures ValidateEnvelope(BareEnvelope(id, name)) == Some(Envelope("2.0", id, name, None))
  {
    var f := BareEnvelope(id, name).fields;
    assert "params" !in f;
    assert f["jsonrpc"] == JStr("2.0") && f["id"] == id && f["method"] == JStr(name);
  }

  /** An unknown method comes back as a 200 error object with the request's
      id, code -32000 and the KeyError's `str` as message, which is the
      `repr` of "Unknown method: " + name: it reads back as exactly that
      text, and a name of printable characters without a backslash is shown
      as it is, in single quotes unless it holds a `'` and no `"`; no engine
      call is made. */
  lemma EndpointUnknownMethod(id: Json, name: string, b: Backend)
    requires Ready(b) && name !in METHOD_TABLE
    requires id.JStr? || id.JInt? || id.JNull?
    ensures McpEndpoint(Some(BareEnvelope(id, name)), b)
              == Served(JsonReply(200, ErrorObject(id, Str(Exception(KeyError, UNKNOWN_METHOD + name)))),
                        b.call, [])
    ensures Unrepr(Str(Exception(KeyError, UNKNOWN_METHOD + name))) == Some(UNKNOWN_METHOD + name)
    ensures PlainText(name) ==>
              && ('\'' !in name ==> Str(Exception(KeyError, UNKNOWN_METHOD + name)) == "'" + UNKNOWN_METHOD + name + "'")
              && ('\'' in name && '"' !in name ==>
                    Str(Exception(KeyError, UNKNOWN_METHOD + name)) == "\"" + UNKNOWN_METHOD + name + "\"")
  {
    BareEnvelopeValid(id, name);
    DispatchUnknownMethod(name, map[], b);
    ReprRoundTrip(UNKNOWN_METHOD + name);
    if PlainText(name) {
      UnknownMethodPlain();
      ReprPlainPrefixed(UNKNOWN_METHOD, name);
    }
  }

  /** The fixed part of the text holds no quote and nothing `repr` escapes. */
  lemma UnknownMethodPlain()
    ensures PlainText(UNKNOWN_METHOD) && '\'' !in UNKNOWN_METHOD && '"' !in UNKNOWN_METHOD
  {
    forall i | 0 <= i < |UNKNOWN_METHOD|
      ensures Printable(UNKNOWN_METHOD[i]) && UNKNOWN_METHOD[i] != '\\'
    {
      assert 0x20 <= UNKNOWN_METHOD[i] as int < 0x7f && UNKNOWN_METHOD[i] != '\\';
    }
  }

  // ---------------------------------------------------------------------
  // /health
  // ---------------------------------------------------------------------

  function OptionalJson(o: Option<string>): Json {
    if o.Some? then JStr(o.value) else JNull
  }

  /** `health_check()` on the default client `c`. */
  function HealthCheck(c: TrinoClient, net: Network, horizon: nat, call: nat): HttpReply
    reads c
    requires LinksEnd(net, horizon)
  {
    if !CheckConnectionSpec(c.Config(), net, horizon, call) then
      JsonReply(503, JObj(map["detail" := JStr("Cannot connect to Trino server at " + c.httpScheme + "://"
                                               + c.host + ":" + IntToString(c.port))]))
    else
      JsonReply(200, JObj(map[
        "status" := JStr("healthy"),
        "trino_connection" := JObj(map[
          "host" := JStr(c.host), "port" := JInt(c.port), "user" := JStr(c.user),
          "catalog" := OptionalJson(c.catalog), "schema" := OptionalJson(c.schema)])]))
  }

  lemma DetailNamesServer(scheme: string, host: string, port: string)
    ensures var d := "Cannot connect to Trino server at " + scheme + "://" + host + ":" + port;
            Contains(d, host) && Contains(d, scheme + "://")
  {
    var prefix := "Cannot connect to Trino server at ";
    var d := prefix + scheme + "://" + host + ":" + port;
    assert d == (prefix + scheme + "://") + host + (":" + port);
    ContainsInfix(prefix + scheme + "://", host, ":" + port);
    assert d == prefix + (scheme + "://") + (host + ":" + port);
    ContainsInfix(prefix, scheme + "://", host + ":" + port);
  }

  /** The probe answers 503 exactly when `SELECT 1` fails, naming the server
      it tried; otherwise 200 with the client's connection settings. */
  lemma HealthDecision(c: TrinoClient, net: Network, horizon: nat, call: nat)
    requires LinksEnd(net, horizon)
    ensures var r := HealthCheck(c, net, horizon, call);
            && r.JsonReply?
            && (r.status == 503 <==> !CheckConnectionSpec(c.Config(), net, horizon, call))
            && (r.status != 503 ==> r.status == 200)
    ensures var r := HealthCheck(c, net, horizon, call);
            r.status == 503 ==>
              && r.body.fields["detail"].JStr?
              && Contains(r.body.fields["detail"].s, c.host)
              && Contains(r.body.fields["detail"].s, c.httpScheme + "://")
    ensures var r := HealthCheck(c, net, horizon, call);
            r.status == 200 ==>
              var t := r.body.fields["trino_connection"];
              && r.body.fields["status"] == JStr("healthy")
              && t.JObj? && t.fields.Keys == {"host", "port", "user", "catalog", "schema"}
              && t.fields["host"] == JStr(c.host) && t.fields["port"] == JInt(c.port)
              && t.fields["user"] == JStr(c.user)
              && t.fields["catalog"] == (if c.catalog.Some? then JStr(c.catalog.value) else JNull)
              && t.fields["schema"] == (if c.schema.Some? then JStr(c.schema.value) else JNull)
  {
    if !CheckConnectionSpec(c.Config(), net, horizon, call) {
      DetailNamesServer(c.httpScheme, c.host, IntToString(c.port));
    }
  }
}
