/** The gateway's error taxonomy (app/errors.py): the JSON-RPC 2.0 error codes
    of section 5.1 "Error object" of the JSON-RPC 2.0 specification, a
    disjoint band of engine error codes, the error object and its wire form,
    and the substring classifier `handle_trino_error`. */
module Errors {
  import opened PyValues
  import opened PyStrings

  // JSON-RPC 2.0 standard codes
  const PARSE_ERROR: int := -32700
  const INVALID_REQUEST: int := -32600
  const METHOD_NOT_FOUND: int := -32601
  const INVALID_PARAMS: int := -32602
  const INTERNAL_ERROR: int := -32603

  // Implementation-defined server error range
  const SERVER_ERROR_START: int := -32000
  const SERVER_ERROR_END: int := -32099

  // Engine-specific codes
  const TRINO_CONNECTION_ERROR: int := -33000
  const TRINO_QUERY_ERROR: int := -33001
  const TRINO_AUTH_ERROR: int := -33002
  const TRINO_RESOURCE_ERROR: int := -33003
  const TRINO_TIMEOUT_ERROR: int := -33004
  const TRINO_SYNTAX_ERROR: int := -33005
  const TRINO_STATE_ERROR: int := -33006

  /** The exception class of an error: the base class, built with any code,
      or one of its twelve subclasses, each of which fixes its code. */
  datatype ErrorClass =
    | Base
    | ParseError
    | InvalidRequest
    | MethodNotFound
    | InvalidParams
    | InternalError
    | TrinoConnectionError
    | TrinoQueryError
    | TrinoAuthError
    | TrinoResourceError
    | TrinoTimeoutError
    | TrinoSyntaxError
    | TrinoStateError

  predicate IsStandard(c: ErrorClass) {
    c.ParseError? || c.InvalidRequest? || c.MethodNotFound? || c.InvalidParams? || c.InternalError?
  }

  predicate IsEngine(c: ErrorClass) {
    c != Base && !IsStandard(c)
  }

  /** An `MCPError`: set once at construction, never changed. `data` is
      `JNull` when the constructor was given `None`. */
  datatype MCPError = MCPError(cls: ErrorClass, code: int, message: string, data: Json)

  /** The code a subclass passes to the base constructor. */
  function CodeOf(c: ErrorClass): int
    requires c != Base
  {
    match c
    case ParseError => PARSE_ERROR
    case InvalidRequest => INVALID_REQUEST
    case MethodNotFound => METHOD_NOT_FOUND
    case InvalidParams => INVALID_PARAMS
    case InternalError => INTERNAL_ERROR
    case TrinoConnectionError => TRINO_CONNECTION_ERROR
    case TrinoQueryError => TRINO_QUERY_ERROR
    case TrinoAuthError => TRINO_AUTH_ERROR
    case TrinoResourceError => TRINO_RESOURCE_ERROR
    case TrinoTimeoutError => TRINO_TIMEOUT_ERROR
    case TrinoSyntaxError => TRINO_SYNTAX_ERROR
    case TrinoStateError => TRINO_STATE_ERROR
  }

  /** The message a subclass uses when none is given. */
  function DefaultMessage(c: ErrorClass): string
    requires c != Base
  {
    match c
    case ParseError => "Parse error"
    case InvalidRequest => "Invalid Request"
    case MethodNotFound => "Method not found"
    case InvalidParams => "Invalid params"
    case InternalError => "Internal error"
    case TrinoConnectionError => "Trino connection error"
    case TrinoQueryError => "Trino query error"
    case TrinoAuthError => "Trino authentication error"
    case TrinoResourceError => "Trino resource not available"
    case TrinoTimeoutError => "Trino query timeout"
    case TrinoSyntaxError => "Trino SQL syntax error"
    case TrinoStateError => "Trino invalid state"
  }

  /** A subclass constructor called without arguments, e.g. `MethodNotFound()`:
      the class's code and default message and no data, so its wire form has
      exactly `code` and `message`. */
  function NewDefaultError(c: ErrorClass): (e: MCPError)
    requires c != Base
    ensures e.cls == c && e.code == CodeOf(c) && e.message == DefaultMessage(c) && e.data == JNull
    ensures ToDict(e) == JObj(map["code" := JInt(CodeOf(c)), "message" := JStr(DefaultMessage(c))])
  {
    NewError(c, DefaultMessage(c), JNull)
  }

  /** `MCPError(code, message, data)`. */
  function NewMCPError(code: int, message: string, data: Json): (e: MCPError)
    ensures e.cls == Base && e.code == code && e.message == message && e.data == data
  {
    MCPError(Base, code, message, data)
  }

  /** A subclass constructor, e.g. `MethodNotFound(message, data)`: the class
      decides the code, whatever message and data are given. */
  function NewError(c: ErrorClass, message: string, data: Json): (e: MCPError)
    requires c != Base
    ensures e.cls == c && e.code == CodeOf(c) && e.message == message && e.data == data
  {
    MCPError(c, CodeOf(c), message, data)
  }

  /** The JSON-RPC standard codes are exactly the five of the specification,
      the engine band is -33006..-33000, every class has its own code, and no
      engine code is a standard code or lies in the server range. */
  lemma CodeBands()
    ensures (set c | IsStandard(c) :: CodeOf(c)) == {-32700, -32600, -32601, -32602, -32603}
    ensures forall c :: IsEngine(c) ==> -33006 <= CodeOf(c) <= -33000
    ensures forall c :: IsEngine(c) ==> !(SERVER_ERROR_END <= CodeOf(c) <= SERVER_ERROR_START)
    ensures forall c, d :: c != Base && d != Base && c != d ==> CodeOf(c) != CodeOf(d)
  {
    var std := set c | IsStandard(c) :: CodeOf(c);
    assert CodeOf(ParseError) in std && CodeOf(InvalidRequest) in std && CodeOf(MethodNotFound) in std;
    assert CodeOf(InvalidParams) in std && CodeOf(InternalError) in std;
  }

  /** `to_dict()`: always `code` and `message` as constructed; a `data` key
      exactly when data is not `None`; no other key. */
  function ToDict(e: MCPError): (d: Json)
    ensures d.JObj?
    ensures "code" in d.fields && d.fields["code"] == JInt(e.code)
    ensures "message" in d.fields && d.fields["message"] == JStr(e.message)
    ensures "data" in d.fields <==> e.data != JNull
    ensures "data" in d.fields ==> d.fields["data"] == e.data
    ensures d.fields.Keys <= {"code", "message", "data"}
  {
    var error := map["code" := JInt(e.code), "message" := JStr(e.message)];
    if e.data != JNull then JObj(error["data" := e.data]) else JObj(error)
  }

  // ---------------------------------------------------------------------
  // handle_trino_error
  // ---------------------------------------------------------------------

  // The messages `handle_trino_error` gives each class
  const CONNECTION_MESSAGE: string := "Failed to connect to Trino server. Please check that the server is running and accessible."
  const AUTH_MESSAGE: string := "Authentication failed. Please check your credentials."
  const SYNTAX_PREFIX: string := "SQL syntax error: "
  const TIMEOUT_PREFIX: string := "Query execution timed out: "
  const QUERY_PREFIX: string := "Error executing Trino query: "

  predicate ConnectionMarker(m: string) {
    Contains(m, "Connection refused") || Contains(m, "Failed to establish a new connection")
  }

  predicate AuthMarker(m: string) {
    Contains(m, "Invalid credentials") || Contains(m, "Authentication failed")
  }

  predicate MissingMarker(m: string) {
    Contains(m, "does not exist")
  }

  /** Python's `A or B and C`, i.e. `A or (B and C)`. */
  predicate SyntaxMarker(m: string) {
    Contains(Lower(m), "syntax error") || (Contains(m, "line") && Contains(m, "position"))
  }

  predicate TimeoutMarker(m: string) {
    Contains(m, "exceeded the query timeout") || Contains(m, "execution time exceeded")
  }

  /** The prefix of a resource error's message: the first of the
      case-sensitive words catalog, schema, table that the text holds. */
  function ResourcePrefix(m: string): string {
    if Contains(m, "catalog") then "Catalog not found: "
    else if Contains(m, "schema") then "Schema not found: "
    else if Contains(m, "table") then "Table not found: "
    else "Resource not found: "
  }

  /** The classification of an error text, rules tried in source order. */
  function Classify(m: string): (e: MCPError)
    ensures e.data == JObj(map["original_error" := JStr(m)])
    ensures IsEngine(e.cls) && e.cls != TrinoStateError && e.code == CodeOf(e.cls)
  {
    var data := JObj(map["original_error" := JStr(m)]);
    if ConnectionMarker(m) then
      NewError(TrinoConnectionError, CONNECTION_MESSAGE, data)
    else if AuthMarker(m) then
      NewError(TrinoAuthError, AUTH_MESSAGE, data)
    else if MissingMarker(m) then
      NewError(TrinoResourceError, ResourcePrefix(m) + m, data)
    else if SyntaxMarker(m) then
      NewError(TrinoSyntaxError, SYNTAX_PREFIX + m, data)
    else if TimeoutMarker(m) then
      NewError(TrinoTimeoutError, TIMEOUT_PREFIX + m, data)
    else
      NewError(TrinoQueryError, QUERY_PREFIX + m, data)
  }

  /** `handle_trino_error(error)`: total, never raises, and always carries the
      original text as `{"original_error": str(error)}`. */
  function HandleTrinoError(error: Exception): (e: MCPError)
    ensures e.data == JObj(map["original_error" := JStr(Str(error))])
    ensures e.cls in {TrinoConnectionError, TrinoAuthError, TrinoResourceError,
                      TrinoSyntaxError, TrinoTimeoutError, TrinoQueryError}
    ensures -33005 <= e.code <= -33000
  {
    Classify(Str(error))
  }

  /** Each class is chosen exactly when its rule matches and no earlier rule
      does: connection, then auth, then resource, then syntax, then timeout,
      and the generic query error otherwise. */
  lemma ClassifyPriority(m: string)
    ensures Classify(m).cls == TrinoConnectionError <==> ConnectionMarker(m)
    ensures Classify(m).cls == TrinoAuthError <==> !ConnectionMarker(m) && AuthMarker(m)
    ensures Classify(m).cls == TrinoResourceError <==>
              !ConnectionMarker(m) && !AuthMarker(m) && MissingMarker(m)
    ensures Classify(m).cls == TrinoSyntaxError <==>
              !ConnectionMarker(m) && !AuthMarker(m) && !MissingMarker(m) && SyntaxMarker(m)
    ensures Classify(m).cls == TrinoTimeoutError <==>
              !ConnectionMarker(m) && !AuthMarker(m) && !MissingMarker(m) && !SyntaxMarker(m) && TimeoutMarker(m)
    ensures Classify(m).cls == TrinoQueryError <==>
              !ConnectionMarker(m) && !AuthMarker(m) && !MissingMarker(m) && !SyntaxMarker(m) && !TimeoutMarker(m)
  {
    var e := Classify(m);
    if ConnectionMarker(m) {
      assert e.cls == TrinoConnectionError;
    } else if AuthMarker(m) {
      assert e.cls == TrinoAuthError;
    } else if MissingMarker(m) {
      assert e.cls == TrinoResourceError;
    } else if SyntaxMarker(m) {
      assert e.cls == TrinoSyntaxError;
    } else if TimeoutMarker(m) {
      assert e.cls == TrinoTimeoutError;
    } else {
      assert e.cls == TrinoQueryError;
    }
  }

  /** A refused connection wins over every other marker in the text. */
  lemma ConnectionRefusedWins(a: string, b: string)
    ensures Classify(a + "Connection refused" + b).cls == TrinoConnectionError
    ensures Classify(a + "Connection refused" + b).code == -33000
  {
    ContainsInfix(a, "Connection refused", b);
  }

  /** A text naming a missing object and no connection or auth marker is a
      resource error (-33003) whose message starts with the prefix chosen by
      the first of catalog, schema, table it mentions, and ends with the text. */
  lemma MissingResource(a: string, b: string)
    requires var m := a + "does not exist" + b; !ConnectionMarker(m) && !AuthMarker(m)
    ensures var m := a + "does not exist" + b;
            Classify(m).code == -33003 && Classify(m).message == ResourcePrefix(m) + m
  {
    ContainsInfix(a, "does not exist", b);
  }

  /** "syntax error" is matched in any letter case: a text holding any `u`
      that lower-cases to "syntax error" (e.g. "SYNTAX ERROR", "Syntax Error")
      is a syntax error, once no earlier rule fires, with the message the
      prefix followed by the text. */
  lemma SyntaxErrorAnyCase(a: string, u: string, b: string)
    requires Lower(u) == "syntax error"
    requires var m := a + u + b; !ConnectionMarker(m) && !AuthMarker(m) && !MissingMarker(m)
    ensures var m := a + u + b;
            Classify(m) == MCPError(TrinoSyntaxError, -33005, SYNTAX_PREFIX + m, JObj(map["original_error" := JStr(m)]))
  {
    var m := a + u + b;
    LowerConcat(a + u, b);
    LowerConcat(a, u);
    assert Lower(m) == Lower(a) + "syntax error" + Lower(b);
    ContainsInfix(Lower(a), "syntax error", Lower(b));
    assert SyntaxMarker(m);
  }

  /** A text with none of the markers becomes the generic query error, whose
      message is the fixed prefix followed by the text. */
  lemma Fallthrough(m: string)
    requires !ConnectionMarker(m) && !AuthMarker(m) && !MissingMarker(m) && !SyntaxMarker(m) && !TimeoutMarker(m)
    ensures Classify(m) == MCPError(TrinoQueryError, -33001, "Error executing Trino query: " + m,
                                    JObj(map["original_error" := JStr(m)]))
  {
  }
}
