/** The stdio bridge (mcp_stdio_bridge.py): it reads newline-delimited
    JSON-RPC envelopes, answers `initialize` itself, posts every other
    envelope to the gateway's `/mcp` endpoint and writes one JSON document per
    output line. `json.loads` and the HTTP post are parameters; standard
    input is the sequence of lines read, standard output the sequence of JSON
    documents printed. */
module StdioBridge {
  import opened PyValues
  import opened PyStrings

  const PARSE_ERROR: int := -32700
  const TRANSPORT_ERROR: int := -32000
  const INVALID_REPLY: int := -32603
  const PARSE_ERROR_MESSAGE: string := "Parse error: invalid JSON"
  const TRANSPORT_PREFIX: string := "Transport error: "
  const INVALID_REPLY_MESSAGE: string := "Invalid JSON from MCP server"

  /** What `requests.post(...)` followed by `resp.json()` gives: a raised
      RequestException with its text, or a response whose body decodes to
      JSON (None when `resp.json()` raises ValueError). */
  datatype Reply = TransportFailed(error: string) | Replied(body: Option<Json>)

  /** `json.loads` on a stripped line: None when it raises. */
  type Parser = string -> Option<Json>
  /** The `call`-th post of `envelope` to the gateway. */
  type Poster = (nat, Json) -> Reply

  /** `_error(id_, code, msg)`. */
  function ErrorLine(id: Json, code: int, message: string): Json {
    JObj(map["jsonrpc" := JStr("2.0"), "id" := id,
             "error" := JObj(map["code" := JInt(code), "message" := JStr(message)])])
  }

  /** The eight methods the local `initialize` answer advertises. */
  const METHOD_SUPPORT: map<string, Json> := map[
    "list_catalogs" := JBool(true), "list_schemas" := JBool(true),
    "list_tables" := JBool(true), "get_table_schema" := JBool(true),
    "run_query_sync" := JBool(true), "run_query_async" := JBool(true),
    "get_query_status" := JBool(true), "get_query_results" := JBool(true)]

  function InitResponse(id: Json): Json {
    JObj(map["jsonrpc" := JStr("2.0"), "id" := id,
             "result" := JObj(map[
               "serverInfo" := JObj(map["name" := JStr("trino-mcp-bridge"), "version" := JStr("1.0.0")]),
               "capabilities" := JObj(map["methodSupport" := JObj(METHOD_SUPPORT)])])])
  }

  const INITIALIZED: Json := JObj(map["jsonrpc" := JStr("2.0"), "method" := JStr("initialized")])

  /** The loop treats whatever `json.loads` returns as a dict; only objects
      are modelled. `line` is an input line after `strip()`. */
  predicate Envelope(line: string, parse: Parser) {
    parse(line).Some? ==> parse(line).value.JObj?
  }

  predicate Envelopes(lines: seq<string>, parse: Parser) {
    forall i :: 0 <= i < |lines| ==> Envelope(Strip(lines[i]), parse)
  }

  /** The lines one input line produces, and whether it made a post. */
  datatype Handled = Handled(out: seq<Json>, posted: bool)

  /** One iteration of the loop on the stripped `line`, `call` being the
      number of posts so far. */
  function HandleLine(line: string, parse: Parser, post: Poster, call: nat): Handled
    requires Envelope(line, parse)
  {
    if line == "" then Handled([], false)
    else
      match parse(line)
      case None => Handled([ErrorLine(JNull, PARSE_ERROR, PARSE_ERROR_MESSAGE)], false)
      case Some(envelope) =>
        var id := Get(envelope.fields, "id", JNull);
        if Get(envelope.fields, "method", JNull) == JStr("initialize") then
          Handled([InitResponse(id), INITIALIZED], false)
        else
          match post(call, envelope)
          case TransportFailed(error) => Handled([ErrorLine(id, TRANSPORT_ERROR, TRANSPORT_PREFIX + error)], true)
          case Replied(None) => Handled([ErrorLine(id, INVALID_REPLY, INVALID_REPLY_MESSAGE)], true)
          case Replied(Some(data)) => Handled([data], true)
  }

  /** Everything printed for `lines`, and the number of posts made. */
  datatype Transcript = Transcript(out: seq<Json>, calls: nat)

  function RunSpec(lines: seq<string>, parse: Parser, post: Poster): Transcript
    requires Envelopes(lines, parse)
  {
    if lines == [] then Transcript([], 0)
    else
      var t := RunSpec(lines[..|lines| - 1], parse, post);
      var h := HandleLine(Strip(lines[|lines| - 1]), parse, post, t.calls);
      Transcript(t.out + h.out, t.calls + if h.posted then 1 else 0)
  }

  /** `RunSpec` of one more line extends the transcript by that line's output. */
  lemma RunStep(lines: seq<string>, k: nat, parse: Parser, post: Poster)
    requires Envelopes(lines, parse) && k < |lines|
    ensures Envelopes(lines[..k], parse) && Envelopes(lines[..k + 1], parse)
    ensures var t := RunSpec(lines[..k], parse, post);
            var h := HandleLine(Strip(lines[k]), parse, post, t.calls);
            RunSpec(lines[..k + 1], parse, post) == Transcript(t.out + h.out, t.calls + if h.posted then 1 else 0)
  {
    assert lines[..k + 1][..k] == lines[..k];
    assert lines[..k + 1][k] == lines[k];
  }

  /** The read-process-write loop over the lines of standard input. */
  method Run(lines: seq<string>, parse: Parser, post: Poster) returns (out: seq<Json>, calls: nat)
    requires Envelopes(lines, parse)
    ensures Transcript(out, calls) == RunSpec(lines, parse, post)
  {
    out, calls := [], 0;
    for k := 0 to |lines|
      invariant Envelopes(lines[..k], parse)
      invariant Transcript(out, calls) == RunSpec(lines[..k], parse, post)
    {
      RunStep(lines, k, parse, post);
      var line := Strip(lines[k]);
      assert Envelope(line, parse);
      ghost var h := HandleLine(line, parse, post, calls);
      if line == "" {
        assert h == Handled([], false);
        continue;
      }
      var envelope := parse(line);
      if envelope.None? {
        assert h.out == [ErrorLine(JNull, PARSE_ERROR, PARSE_ERROR_MESSAGE)] && !h.posted;
        out := out + [ErrorLine(JNull, PARSE_ERROR, PARSE_ERROR_MESSAGE)];
        continue;
      }
      var msgId := Get(envelope.value.fields, "id", JNull);
      var name := Get(envelope.value.fields, "method", JNull);
      if name == JStr("initialize") {
        assert h.out == [InitResponse(msgId), INITIALIZED] && !h.posted;
        out := out + [InitResponse(msgId)];
        out := out + [INITIALIZED];
        continue;
      }
      var resp := post(calls, envelope.value);
      assert h.posted;
      calls := calls + 1;
      if resp.TransportFailed? {
        assert h.out == [ErrorLine(msgId, TRANSPORT_ERROR, TRANSPORT_PREFIX + resp.error)];
        out := out + [ErrorLine(msgId, TRANSPORT_ERROR, TRANSPORT_PREFIX + resp.error)];
        continue;
      }
      if resp.body.None? {
        assert h.out == [ErrorLine(msgId, INVALID_REPLY, INVALID_REPLY_MESSAGE)];
        out := out + [ErrorLine(msgId, INVALID_REPLY, INVALID_REPLY_MESSAGE)];
        continue;
      }
      assert h.out == [resp.body.value];
      out := out + [resp.body.value];
    }
    assert lines[..|lines|] == lines;
  }

  // ---------------------------------------------------------------------
  // Properties of one line
  // ---------------------------------------------------------------------

  /** Which branch of the loop a line takes. */
  datatype LineKind = Skip | Garbled | Initialize | Forward

  function KindOf(line: string, parse: Parser): LineKind
    requires Envelope(line, parse)
  {
    if line == "" then Skip
    else if parse(line).None? then Garbled
    else if Get(parse(line).value.fields, "method", JNull) == JStr("initialize") then Initialize
    else Forward
  }

  /** A blank or whitespace-only line prints nothing; a line `json.loads`
      refuses prints exactly one -32700 error with a null id; `initialize`
      prints its answer and then the `initialized` notification; anything
      else is posted once and prints exactly one line. Only forwarded lines
      post. */
  lemma HandleLineByKind(line: string, parse: Parser, post: Poster, call: nat)
    requires Envelope(line, parse)
    ensures var h := HandleLine(line, parse, post, call);
            && (h.posted <==> KindOf(line, parse) == Forward)
            && (KindOf(line, parse) == Skip ==> h.out == [])
            && (KindOf(line, parse) == Garbled ==> h.out == [ErrorLine(JNull, -32700, "Parse error: invalid JSON")])
            && (KindOf(line, parse) == Initialize ==>
                  h.out == [InitResponse(Get(parse(line).value.fields, "id", JNull)), INITIALIZED])
            && (KindOf(line, parse) == Forward ==> |h.out| == 1)
  {
  }

  /** The lines skipped are exactly the empty and whitespace-only ones. */
  lemma SkipIffBlank(raw: string, parse: Parser)
    requires Envelope(Strip(raw), parse)
    ensures KindOf(Strip(raw), parse) == Skip <==> AllSpace(raw)
  {
    StripEmptyIffBlank(raw);
  }

  /** A forwarded line prints the server's JSON unchanged, or a single error
      line carrying the request's id: -32000 with the transport error's text
      when the post raised, -32603 when the reply is not JSON. */
  lemma ForwardedReply(line: string, parse: Parser, post: Poster, call: nat)
    requires Envelope(line, parse) && KindOf(line, parse) == Forward
    ensures var envelope := parse(line).value;
            var id := Get(envelope.fields, "id", JNull);
            var h := HandleLine(line, parse, post, call);
            match post(call, envelope)
            case TransportFailed(e) => h.out == [ErrorLine(id, -32000, "Transport error: " + e)]
            case Replied(None) => h.out == [ErrorLine(id, -32603, "Invalid JSON from MCP server")]
            case Replied(Some(data)) => h.out == [data]
  {
  }

  /** The local `initialize` answer echoes the request's id, names the
      bridge, and marks exactly the eight listed methods as supported; the
      notification after it carries no id. */
  lemma InitializeAnswer(id: Json)
    ensures var r := InitResponse(id);
            && r.fields["jsonrpc"] == JStr("2.0") && r.fields["id"] == id
            && r.fields["result"].fields["capabilities"].fields["methodSupport"] == JObj(METHOD_SUPPORT)
    ensures METHOD_SUPPORT.Keys == {"list_catalogs", "list_schemas", "list_tables", "get_table_schema",
                                    "run_query_sync", "run_query_async", "get_query_status", "get_query_results"}
    ensures forall m :: m in METHOD_SUPPORT ==> METHOD_SUPPORT[m] == JBool(true)
    ensures "id" !in INITIALIZED.fields && INITIALIZED.fields["method"] == JStr("initialized")
  {
  }

  /** The bridge's own lines: JSON-RPC 2.0 objects whose error object, when
      they carry one, has exactly `code` and `message`. */
  predicate OwnLine(line: Json) {
    && line.JObj? && "jsonrpc" in line.fields && line.fields["jsonrpc"] == JStr("2.0")
    && ("error" in line.fields ==>
          line.fields["error"].JObj? && line.fields["error"].fields.Keys == {"code", "message"})
  }

  /** Every line the bridge writes itself is such an object; any other line
      is the gateway's reply, unchanged. */
  lemma OwnLinesWellFormed(line: string, parse: Parser, post: Poster, call: nat)
    requires Envelope(line, parse)
    ensures var h := HandleLine(line, parse, post, call);
            forall i :: 0 <= i < |h.out| ==>
              || OwnLine(h.out[i])
              || (h.posted && post(call, parse(line).value) == Replied(Some(h.out[i])))
  {
    var h := HandleLine(line, parse, post, call);
    if line != "" && parse(line).Some? {
      var envelope := parse(line).value;
      var id := Get(envelope.fields, "id", JNull);
      if Get(envelope.fields, "method", JNull) == JStr("initialize") {
        assert OwnLine(InitResponse(id)) && OwnLine(INITIALIZED);
      } else if post(call, envelope).TransportFailed? {
        assert OwnLine(ErrorLine(id, TRANSPORT_ERROR, TRANSPORT_PREFIX + post(call, envelope).error));
      } else if post(call, envelope).body.None? {
        assert OwnLine(ErrorLine(id, INVALID_REPLY, INVALID_REPLY_MESSAGE));
      }
    } else if line != "" {
      assert OwnLine(ErrorLine(JNull, PARSE_ERROR, PARSE_ERROR_MESSAGE));
    }
  }

  // ---------------------------------------------------------------------
  // Properties of a whole session
  // ---------------------------------------------------------------------

  /** How many of `lines` take the branch `k`. */
  function CountKind(lines: seq<string>, parse: Parser, k: LineKind): nat
    requires Envelopes(lines, parse)
  {
    if lines == [] then 0
    else CountKind(lines[..|lines| - 1], parse, k) + if KindOf(Strip(lines[|lines| - 1]), parse) == k then 1 else 0
  }

  /** A session prints one line per unparseable or forwarded line and two
      per `initialize`, and posts once per forwarded line. */
  lemma {:induction false} RunCounts(lines: seq<string>, parse: Parser, post: Poster)
    requires Envelopes(lines, parse)
    ensures var t := RunSpec(lines, parse, post);
            && |t.out| == CountKind(lines, parse, Garbled) + 2 * CountKind(lines, parse, Initialize)
                          + CountKind(lines, parse, Forward)
            && t.calls == CountKind(lines, parse, Forward)
    decreases |lines|
  {
    if lines != [] {
      var init := lines[..|lines| - 1];
      assert Envelopes(init, parse);
      RunCounts(init, parse, post);
      var t := RunSpec(init, parse, post);
      HandleLineByKind(Strip(lines[|lines| - 1]), parse, post, t.calls);
    }
  }

  /** What was printed for a prefix of the input is never changed by the
      lines after it. */
  lemma {:induction false} RunExtends(lines: seq<string>, more: seq<string>, parse: Parser, post: Poster)
    requires Envelopes(lines + more, parse)
    ensures Envelopes(lines, parse)
    ensures var t := RunSpec(lines, parse, post);
            var u := RunSpec(lines + more, parse, post);
            t.out <= u.out && t.calls <= u.calls
    decreases |more|
  {
    assert forall i :: 0 <= i < |lines| ==> lines[i] == (lines + more)[i];
    if more != [] {
      var shorter := more[..|more| - 1];
      assert (lines + more)[..|lines + more| - 1] == lines + shorter;
      assert forall i :: 0 <= i < |lines + shorter| ==> (lines + shorter)[i] == (lines + more)[i];
      RunExtends(lines, shorter, parse, post);
    } else {
      assert lines + more == lines;
    }
  }
}
