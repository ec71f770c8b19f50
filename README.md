# Trino MCP gateway — a Dafny model

The gateway gives a JSON-RPC 2.0 face to a Trino SQL engine. It has these parts:

- A statement client (`TrinoClient`). It sends SQL to `/v1/statement` and follows each page's `nextUri` until it has `max_rows` rows. Every HTTP call goes through a retry loop with exponential backoff. A module-wide default client is shared by all callers.
- A method table with two methods, `list_catalogs` and `run_query_sync`.
- The `/mcp` endpoint, which validates a request envelope and wraps the handler's result or error into a JSON-RPC object.
- The `/health` probe.
- An error taxonomy: the JSON-RPC 2.0 codes, a band of engine codes, and a substring classifier for engine error texts.
- Optional request authentication: HTTP Basic users taken from the environment, a hand-rolled HMAC bearer token, and a mode switch.
- A stdio bridge. It reads newline-delimited envelopes, answers `initialize` itself, and posts everything else to `/mcp`.

The model is one Dafny module per source file:

| module | file | models |
|---|---|---|
| `PyValues` | `py_values.dfy` | JSON values, `Option`, Python exceptions and their `str`, a call's outcome |
| `PyStrings` | `py_strings.dfy` | `in`, `lower`, `strip`, `split`/`join` and `f"{int}"` on strings |
| `Errors` | `errors.dfy` | `app/errors.py` |
| `Trino` | `trino_client.dfy` | `app/trino_client.py` |
| `Rpc` | `rpc.dfy` | `app/rpc.py` |
| `Gateway` | `gateway.dfy` | `mcp_endpoint` and `health_check` of `app/main.py` |
| `Auth` | `auth.dfy` | `app/auth.py` |
| `StdioBridge` | `stdio_bridge.dfy` | `mcp_stdio_bridge.py` |

How the outside world is represented:

- **The network is an oracle.** `Network = (nat, HttpRequest) -> Attempt` says how the k-th HTTP call of the process is answered. That answer is an exception or a status with a body. Every operation takes the index of its first call and returns the next free index. It also returns the sleeps it took, in milliseconds, in order.
- **Responses are read as Python reads them.** A decoded response is any JSON value. `in`, subscripting and iteration behave as they do on Python's dict, list and str, and raise Python's TypeError on anything else. The loop reads `columns` only while it has no names, and subscripts `nextUri` only when it follows the link. A `nextUri` that is not a str fails inside `requests` before anything is sent, and that failure is retried like any other RequestException.
- **Pagination needs a horizon.** The Python loop ends at a page without `nextUri`, once `max_rows` rows are gathered, or when something raises. It runs forever only when the links never stop while the rows stay below `max_rows`. The model proves termination from a simpler bound, `LinksEnd(net, horizon)`: no answer at or after call `horizon` carries a link. It is a ghost parameter of the pagination functions. A run depends on the network only at the calls it makes. So a run that ends by the cap or by a raise, against an engine whose links never stop, is the run of a network that agrees on those calls and gives no link afterwards.
- **Stateful code is imperative.** The client object is a `class` with the constructor's fields. Its header loop, retry loop and pagination loop are `method`s, each proved equal to a specification function (`HeadersFor`, `Retry`, `FetchPage`, `FetchLink`, `ExecuteQuerySpec`, `Follow`, `ListCatalogsSpec`, `QueryInfoSpec`, `CheckConnectionSpec`). The properties are lemmas about those functions. The default client is a `ClientRegistry` class. The import-time loop that fills `BASIC_AUTH_USERS` is a method, and so is the bridge's read-process-write loop.
- **Pure code is functional.** Everything else is functions on values with lemmas.
- **Foreign primitives are parameters.** Base64, UTF-8 decoding, `json.loads`, HMAC-SHA256 under the server key and the clock are parameters of the token decoder. `json.loads` and the HTTP post are parameters of the bridge.

## Model

| member | source | states |
|---|---|---|
| `PyValues.Str` | app/rpc.py:36 | `str(e)`: the message itself, except for a KeyError, whose text is the `repr` of its key |
| `PyValues.PyRepr` | app/main.py:94 | `repr` of a str: at least two characters, opening and closing with `'`, or with `"` when the text holds `'` and no `"` |
| `PyValues.ReprRoundTrip` | app/main.py:94 | reading a `repr` back (quotes, `\\`, `\'`, `\"`, `\t`, `\n`, `\r`, `\x`, `\u`, `\U`) gives exactly the original text, for every text |
| `PyValues.ReprPlain` | app/main.py:94 | a text of printable characters without a backslash is shown unchanged between the quotes `repr` picks |
| `PyValues.ReprPlainPrefixed` | app/rpc.py:36 | the same for a quote-free plain prefix followed by a plain text: the quotes depend on the text alone |
| `PyStrings.ContainsIffOccurs` | app/errors.py:143 | the `t in s` test holds exactly when `t` occurs in `s` at some index |
| `PyStrings.NatToString` | app/trino_client.py:36 | the decimal text of a natural number is canonical and its digit value is the number |
| `PyStrings.StripEmptyIffBlank` | mcp_stdio_bridge.py:40-42 | `line.strip()` is empty exactly when every character of the line is whitespace |
| `PyStrings.JoinSplit` | app/auth.py:41-42 | joining the pieces of `s.split(c)` back with `c` gives `s` |
| `PyStrings.SplitPieces` | app/auth.py:42-43 | `s.split(c)` has one more piece than `s` has separators, and no piece holds the separator |
| `PyStrings.SplitJoin` | app/auth.py:203 | splitting separator-free pieces joined by the separator gives those pieces back |
| `PyStrings.IntToString` | app/trino_client.py:36 | `str(i)`: for `i >= 0` a canonical numeral (digits only, no leading zero unless it is "0") whose value is `i`; for `i < 0` a '-' followed by the canonical numeral of `-i` |
| `Errors.CodeOf` | app/errors.py:60-130 | the code each subclass hands to the base constructor; `NewError`, `NewDefaultError` and `CodeBands` state that it is fixed per class and that no two classes share one |
| `Errors.NewMCPError` | app/errors.py:37-46 | the base constructor keeps the code, message and data it is given |
| `Errors.NewError` | app/errors.py:60-130 | each subclass fixes its own code, whatever message and data are passed |
| `Errors.NewDefaultError` | app/errors.py:60-130 | each subclass built without arguments carries its own code and default message and no data; its `to_dict` is exactly `code` and that message |
| `Errors.CodeBands` | app/errors.py:11-31 | the standard codes are exactly -32700, -32600, -32601, -32602, -32603; the engine codes lie in -33006..-33000, outside the server range -32099..-32000; no two classes share a code |
| `Errors.ToDict` | app/errors.py:48-56 | `to_dict` always carries `code` and `message` as constructed; it has a `data` key exactly when data is not None; no other key |
| `Errors.ResourcePrefix` | app/errors.py:156-162 | the resource message's prefix, chosen by the first of "catalog", "schema", "table" the text holds, else "Resource not found: "; `MissingResource` states which prefix a resource error carries |
| `Errors.Classify` | app/errors.py:133-171 | the classification always carries `{"original_error": text}` and is one of the six engine classes other than the state error, with that class's code |
| `Errors.HandleTrinoError` | app/errors.py:133-171 | never raises; carries `str(error)` as `original_error`; the code lies in -33005..-33000 |
| `Errors.ClassifyPriority` | app/errors.py:143-171 | each class is chosen exactly when its marker matches and no earlier marker does, in the order connection, auth, resource, syntax, timeout, then the generic query error |
| `Errors.ConnectionRefusedWins` | app/errors.py:143-147 | a text containing "Connection refused" is a connection error (-33000), whatever else it contains |
| `Errors.MissingResource` | app/errors.py:155-162 | "does not exist" with no connection or auth marker gives a resource error (-33003). Its message is the catalog/schema/table prefix followed by the text |
| `Errors.SyntaxErrorAnyCase` | app/errors.py:164-165 | a text holding "syntax error" in any letter case (any `u` with `u.lower() == "syntax error"`) gives a syntax error (-33005) with the fixed prefix and the text, once no earlier rule fires |
| `Errors.Fallthrough` | app/errors.py:171 | a text with none of the markers becomes the query error -33001 with the fixed prefix followed by the text |
| `Trino.Judge` | app/trino_client.py:68-77 | every 4xx and 5xx answer, 401 and 403 included, becomes a retried HTTPError; only other answers are accepted, with their body |
| `Trino.BackoffIsPower` | app/trino_client.py:80 | the wait after attempt `a` is `retry_delay * 2 ** a` |
| `Trino.Retry` | app/trino_client.py:62-85 | `_request_with_retry` from attempt 0 with no exception yet: its outcome, the number of calls made and the waits taken. `RetryShape`, `RetryNoAttempts` and `UnauthorizedIsRetried` state its attempts, waits and result; `TrinoClient.RequestWithRetry` is the loop proved equal to it |
| `Trino.RetryFrom` | app/trino_client.py:62-85 | the loop makes at most the remaining number of attempts; a returned body is the accepted answer to the last call made |
| `Trino.RetryShape` | app/trino_client.py:62-85 | when the first k attempts fail retryably and k < N, the call ends with attempt k+1's result after k+1 calls and k waits. When all N fail, it raises the last attempt's exception after N calls and N-1 waits. The i-th wait is delay·2^i |
| `Trino.RetryNoAttempts` | app/trino_client.py:66-85 | with no attempts allowed, no request is made and the RuntimeError "Request failed after multiple retries" is raised |
| `Trino.UnauthorizedIsRetried` | app/trino_client.py:75-82 | a server that always answers 401 or 403 is called N times with N-1 backoff waits, then its HTTPError is raised |
| `Trino.BaseUrl` | app/trino_client.py:36 | `f"{http_scheme}://{host}:{port}"`; the port is written by `IntToString`, whose contract says the digits denote the port. `TrinoClient.constructor` sets `base_url` to it |
| `Trino.HeadersFor` | app/trino_client.py:33-53 | the agent and user headers are always set. Catalog and schema are set only when non-empty; otherwise a caller's own catalog or schema header is kept with its value. Only the last session property survives in X-Trino-Session; with no properties a caller's X-Trino-Session is kept as it was. Every other caller header is kept |
| `Trino.FetchPage` | app/trino_client.py:93-100 | a fetched document is the decoded JSON body of the answer to the last call made; any failure keeps only its text |
| `Trino.Has` | app/trino_client.py:106 | `key in v`: key membership for a dict, element membership for a list, substring for a str, a TypeError exactly for any other value |
| `Trino.Subscript` | app/trino_client.py:107 | `v[key]` succeeds exactly on a dict holding the key, with its value; a dict without it raises KeyError(key) |
| `Trino.Items` | app/trino_client.py:111 | iterating a list gives its items, a str its characters, a dict each of its keys once; any other value raises TypeError |
| `Trino.Each` | app/trino_client.py:107 | a comprehension returns every result in order exactly when no element raises; otherwise the exception of the first element that does |
| `Trino.ColumnNames` | app/trino_client.py:107 | `[col["name"] for col in v]` over a list is `Each` of the subscripts; a scalar raises TypeError |
| `Trino.ReadPage` | app/trino_client.py:106-128 | reading a response: a scalar document raises; the link is present exactly when `"nextUri" in doc` holds, and its target is what subscripting it gives; columns are not read once the loop has names |
| `Trino.ReadStatementPage` | app/trino_client.py:106-128 | a well-formed statement response reads as its columns' names, its rows and its link |
| `Trino.LaterColumnsIgnored` | app/trino_client.py:118-119 | once the loop has column names, a page's `columns` value never changes what the page reads as |
| `Trino.FetchLink` | app/trino_client.py:115-116 | a str link is fetched by GET; a link of any other type fails without reaching the network, and the fetch that succeeds is the body of the last call on that URL |
| `Trino.UnusableLinkRetried` | app/trino_client.py:62-85 | a link that is not a str fails exactly as the retry loop does when every attempt raises a RequestException: the same exception, the same waits |
| `Trino.FollowLink` | app/trino_client.py:114-120 | a followed link was the subscripted `nextUri` and a str; the page read carries a link only when the last answer did; a failure requested at most that one link |
| `Trino.Follow` | app/trino_client.py:114-132 | the pagination loop from the state it is in when it tests its condition; `FollowFinishes` says it always ends, and `TrinoClient.FollowLinks` is the loop proved equal to it |
| `Trino.ExecuteQuerySpec` | app/trino_client.py:87-145 | `execute_query(sql, max_rows)`: the POST, the first page, then `Follow`, every failure wrapped. Its properties are `ExecuteQueryShape`, `ExecuteQueryFailure`, `ExecuteQueryRowsPrefix`, `ExecuteQueryCap`, `ExecuteQueryGetsBounded` and `ColumnsFirstNonEmpty` |
| `Trino.FollowFinishes` | app/trino_client.py:114-132 | from any well-formed loop state, the loop ends in a finished run (see `ExecuteQueryShape`) |
| `Trino.ExecuteQueryShape` | app/trino_client.py:87-145 | a successful run's rows are the pages' rows, cut to `max_rows` only when more than one page was read. Its columns are the first non-empty column list. The URLs are the statement URL followed by each page's `nextUri` value. The loop went on past a page only while fewer than `max_rows` rows were gathered. Every failure is the wrapped RuntimeError |
| `Trino.ExecuteQueryFailure` | app/trino_client.py:139-145 | every failure, for any `sql` and `max_rows`, is RuntimeError("Failed to execute query: " + text), with the server hint added exactly when the text mentions "Connection refused" |
| `Trino.ExecuteQueryRowsPrefix` | app/trino_client.py:103-124 | the rows returned are a prefix of all rows read, and the first page's rows are a prefix of them |
| `Trino.ExecuteQueryCap` | app/trino_client.py:114-125 | a first page of at most `n` rows gives at most `n`. A cap reached on a later page gives exactly `n`. Never fewer rows than the first page |
| `Trino.ExecuteQueryGetsBounded` | app/trino_client.py:114-116 | the GETs issued never outnumber the continuation links in the pages read |
| `Trino.ColumnsFirstNonEmpty` | app/trino_client.py:106-119 | the columns are those of the first page with a non-empty column list, or empty when there is none |
| `Trino.FirstCells` | app/trino_client.py:60 | `[row[0] for row in rows]`: the first cells, in order, exactly when every row has one; otherwise an IndexError, KeyError(0) or TypeError |
| `Trino.FirstCell` | app/trino_client.py:60 | `row[0]` succeeds exactly on a non-empty list (its first item) or str; otherwise IndexError, KeyError(0) or TypeError |
| `Trino.ListCatalogsSpec` | app/trino_client.py:55-60 | `list_catalogs()`: `SHOW CATALOGS` with the default cap, then the first cell of each row; `ListCatalogsProjects` states the projection and the error cases |
| `Trino.ListCatalogsProjects` | app/trino_client.py:55-60 | a failed `SHOW CATALOGS` propagates its error; the catalog list is the first cell of each returned row, in order |
| `Trino.QueryInfoSpec` | app/trino_client.py:147-151 | `get_query_info(id)`: one GET on `base_url/v1/query/{id}` through the retry loop, then `response.json()`; `QueryInfoAnswer` states what it returns and raises |
| `Trino.CheckConnectionSpec` | app/trino_client.py:153-161 | `check_connection()`: whether `SELECT 1` returns; `Gateway.HealthDecision` and `TrinoClient.CheckConnection` state its use and its loop |
| `Trino.QueryInfoAnswer` | app/trino_client.py:147-151 | the info returned is the decoded body of an accepted answer to the last GET on `/v1/query/{id}`; retry failures come back unwrapped and a non-JSON body raises the decoder's error; calls and waits are the retry loop's |
| `Trino.TrinoClient.constructor` | app/trino_client.py:13-53 | the fields are the arguments, `base_url` is `scheme://host:port` and the headers are `HeadersFor(args)` |
| `Trino.TrinoClient.RequestWithRetry` | app/trino_client.py:62-85 | the loop computes exactly `Retry`: same outcome, calls and waits |
| `Trino.TrinoClient.FetchStatementPage` | app/trino_client.py:93-100 | one request through the retry loop and `response.json()` equals `FetchPage` |
| `Trino.TrinoClient.FetchContinuation` | app/trino_client.py:115-116 | the GET on the value of `nextUri` equals `FetchLink` |
| `Trino.BuildHeaders` | app/trino_client.py:41-53 | the header loop builds exactly `HeadersFor(args)` |
| `Trino.TrinoClient.ExecuteQuery` | app/trino_client.py:87-145 | the method's outcome, calls and waits are those of `ExecuteQuerySpec` |
| `Trino.TrinoClient.FollowLinks` | app/trino_client.py:114-137 | the `while` loop's outcome, calls and waits are those of `Follow` |
| `Trino.TrinoClient.ListCatalogs` | app/trino_client.py:55-60 | equals `ListCatalogsSpec` |
| `Trino.TrinoClient.GetQueryInfo` | app/trino_client.py:147-151 | one GET on `/v1/query/{id}` through the retry loop, with no wrapping, equal to `QueryInfoSpec` |
| `Trino.TrinoClient.CheckConnection` | app/trino_client.py:153-161 | true exactly when `SELECT 1` runs without raising; the same calls and waits as that query |
| `Trino.ClientRegistry.constructor` | app/trino_client.py:165 | there is no default client at first |
| `Trino.ClientRegistry.GetClient` | app/trino_client.py:167-172 | returns the existing client and ignores the arguments; builds one from the arguments only when there is none |
| `Trino.ClientRegistry.ConfigureClient` | app/trino_client.py:174-177 | always replaces the default client with a fresh one built from the arguments |
| `Rpc.MaxRows` | app/rpc.py:16 | `params.get("maxRows", 100)` as the client compares it; `RunQueryMaxRows` states the default and the pass-through |
| `Rpc.ListCatalogsHandler` | app/rpc.py:7-11 | the `list_catalogs` handler: the client's catalog list, its errors unchanged; `ListCatalogsErrors` states which errors there are |
| `Rpc.RunQuerySync` | app/rpc.py:13-26 | the `run_query_sync` handler; `RunQueryNeedsSql`, `RunQueryMaxRows`, `RunQueryErrorsWrapped` and `RunQueryDefaultCap` state its key lookup, its default, its error wrapping and its cap |
| `Rpc.DispatchRpc` | app/rpc.py:29-37 | `dispatch_rpc(method, params)` over the two-entry table; `DispatchUnknownMethod` and `DispatchDelegates` state the unknown-method failure and the delegation |
| `Rpc.RowCapOf` | app/trino_client.py:114 | `len(rows) < max_rows` sees an int as itself and a bool as 0 or 1; anything else cannot be compared and is reported by type name |
| `Rpc.QueryResultJson` | app/trino_client.py:134-137 | the result dict has exactly `columns` and `rows`, holding the column names and the rows as `data` yielded them |
| `Rpc.ListCatalogsErrors` | app/rpc.py:7-11 | `list_catalogs` fails only with the client's RuntimeError or the error of `row[0]` on a row without a first cell: IndexError, KeyError(0) or TypeError |
| `Rpc.DispatchUnknownMethod` | app/rpc.py:34-36 | KeyError("Unknown method: " + name) is raised exactly for a method not in the table, before any engine call |
| `Rpc.DispatchDelegates` | app/rpc.py:29-37 | the table has two methods, and a registered method returns exactly what its handler returns |
| `Rpc.RunQueryNeedsSql` | app/rpc.py:15 | without `sql` the handler raises KeyError, whose text is 'sql' in quotes, and makes no request |
| `Rpc.RunQueryMaxRows` | app/rpc.py:15-22 | `maxRows` defaults to 100 and is passed on unchanged otherwise; the handler returns the client's result as JSON |
| `Rpc.RunQueryErrorsWrapped` | app/rpc.py:20-26 | a failure is ValueError("Error executing query: " + str(e)), where e is the client's RuntimeError wrapper |
| `Rpc.RunQueryDefaultCap` | app/rpc.py:16 | with no `maxRows`, a query whose first page has at most 100 rows answers with at most 100 rows |
| `Gateway.ValidateEnvelope` | app/main.py:75-79 | `RPCEnvelope.model_validate(payload)`, None when it fails; `ValidateEnvelopeExact` states exactly which objects pass |
| `Gateway.McpEndpoint` | app/main.py:82-95 | `mcp_endpoint`: validation, then dispatch with `params or {}`, wrapped in a JSON-RPC object; `EndpointEchoesId`, `EndpointRejectsMalformed` and `EndpointUnknownMethod` state the replies |
| `Gateway.IdValue` | app/main.py:77 | `id` accepts a string, an int, a bool (as 0 or 1) or null, and nothing else |
| `Gateway.ValidateEnvelopeExact` | app/main.py:75-85 | validation accepts exactly the objects with a string `jsonrpc`, a valid `id`, a string `method`, and `params` absent, null or an object; fields are carried over as given |
| `Gateway.EndpointEchoesId` | app/main.py:86-95 | a valid envelope gets a 200 JSON-RPC 2.0 object with its id. On success it carries the handler's result. On failure it carries an error of code -32000 whose message is `str(exc)`. Absent params reach the handler as `{}` |
| `Gateway.EndpointRejectsMalformed` | app/main.py:84-85 | a body that is not JSON, or an envelope that fails validation, gets a 500 without any engine call |
| `Gateway.EndpointUnknownMethod` | app/main.py:82-95 | an unknown method is answered 200 with error -32000 whose message is the `repr` of "Unknown method: " + name: it reads back as that text, and a plain name appears unchanged, in single quotes, or in double quotes when it holds `'` and no `"` |
| `Gateway.UnknownMethodPlain` | app/rpc.py:36 | the fixed part of the KeyError text holds no quote and nothing `repr` escapes |
| `Gateway.HealthCheck` | app/main.py:51-72 | `health_check()` on the default client; `HealthDecision` states when it answers 503 and what the 200 carries |
| `Gateway.HealthDecision` | app/main.py:51-72 | the probe answers 503 exactly when `SELECT 1` fails, and its detail names the scheme and host. Otherwise it answers 200 "healthy" with the client's host, port and user, and its catalog and schema as strings, or null when unset |
| `Auth.ParseEntry` | app/auth.py:42-44 | one entry, trimmed and split on ':', kept when it has two parts; `ParseEntryMeaning` states when that is and what the parts are |
| `Auth.BasicAuthUsers` | app/auth.py:37-44 | `BASIC_AUTH_USERS` for the variable's value; `LoadBasicAuthUsers` is the loop proved equal to it, and `UsersLastWins`, `EmptyGuardRedundant` and `EntryNamesUser` state its contents |
| `Auth.ConfigFrom` | app/auth.py:47-50 | `AUTH_ENABLED`, `AUTH_MODE` and the user list read from the environment, the first two lowercased; `DefaultsAdmitAnonymous` states the defaults |
| `Auth.ParseEntryMeaning` | app/auth.py:42-44 | an entry names a user exactly when its trimmed text holds one ':'; the user and password are then the text on either side of it |
| `Auth.LoadBasicAuthUsers` | app/auth.py:37-44 | the import-time loop builds exactly `BasicAuthUsers(raw)` |
| `Auth.UsersLastWins` | app/auth.py:41-44 | a name is a user exactly when some entry names it, and its password is taken from the last such entry |
| `Auth.EmptyGuardRedundant` | app/auth.py:39 | the `if BASIC_AUTH_USERS_STR:` guard changes nothing: an empty variable yields no users either way |
| `Auth.EntryNamesUser` | app/auth.py:41-44 | an entry `name:password` with no colon in either part, and no whitespace at its ends, defines that user with that password |
| `Auth.VerifyPassword` | app/auth.py:74-87 | plain string equality; `HashRoundTrip` states it against `GetPasswordHash` |
| `Auth.GetPasswordHash` | app/auth.py:90-103 | the identity on passwords; `HashRoundTrip` states the round trip |
| `Auth.HashRoundTrip` | app/auth.py:74-103 | a password verifies against the stored form of exactly itself |
| `Auth.AuthenticateUser` | app/auth.py:106-121 | false for an unknown name, else the password check; `AuthenticateAgainstList` states it in terms of the raw user list |
| `Auth.AuthenticateAgainstList` | app/auth.py:106-121 | a username and password are accepted exactly when the last list entry naming the user carries that password |
| `Auth.Pad` | app/auth.py:206 | padding appends fewer than four '=' and makes the length a multiple of four |
| `Auth.ExpiryOf` | app/auth.py:210-211 | a falsy `exp` never expires; a non-zero int expires exactly when it is before now |
| `Auth.TokenDataOf` | app/auth.py:57-61 | for the values that can reach it from the decoder, validation succeeds exactly for a string `sub`, a list of strings and an int, bool or null `exp`; the claims are carried over. Pydantic's acceptance of a numeric string `exp` is left out, because any string `exp` fails earlier or fails int parsing there |
| `Auth.JwtBody` | app/auth.py:201-240 | the steps of `decode_jwt_token`'s `try` block in order, ending in the claims or naming the step that raised; `DecodeAcceptsOnlyValid`, `DecodeAcceptsSigned`, `DecodeRejectsForgery` and `DecodeRejectsExpired` state its outcomes |
| `Auth.DecodeJwtToken` | app/auth.py:162-248 | `decode_jwt_token`: the claims, or the one 401 every failure becomes; `DecodeDeniesUniformly` states the uniform refusal |
| `Auth.DecodeDeniesUniformly` | app/auth.py:242-248 | every failure, expiry and bad signature included, is the same 401 "Invalid authentication credentials" with challenge "Bearer" |
| `Auth.DecodeAcceptsOnlyValid` | app/auth.py:201-240 | an accepted token has three segments, and its signature decodes to the HMAC of the first two. Its payload's `sub` is the user. Its expiry is unset, zero or not past. The claims granted are exactly the payload's `sub`, `scopes` and `exp` as `TokenData` validates them |
| `Auth.DecodeAcceptsSigned` | app/auth.py:201-240 | a token of three dot-free segments whose signature decodes to the HMAC of the first two, whose payload is an object with a str `sub`, `scopes` absent or a list of str, and `exp` absent, null, zero or an int not yet past, is accepted with exactly the claims its payload carries |
| `Auth.DecodeAcceptsSubjectOnly` | app/auth.py:201-240 | a correctly signed payload holding only a str `sub` is accepted for that user with no scopes and no expiry |
| `Auth.DecodeRejectsForgery` | app/auth.py:228-238 | a token whose signature is not the HMAC of its first two segments is refused |
| `Auth.DecodeRejectsExpired` | app/auth.py:209-216 | a token whose integer `exp` is past is refused |
| `Auth.GetCurrentUserOptional` | app/auth.py:251-296 | `get_current_user_optional`: bearer then basic, each only in its modes; `OptionalOff` and `OptionalDecision` state the decision table |
| `Auth.OptionalOff` | app/auth.py:268-296 | no user is resolved when authentication is off or the mode is none of "bearer", "basic" and "all" |
| `Auth.OptionalDecision` | app/auth.py:279-296 | a user is resolved exactly from an accepted bearer token (mode bearer/all) or valid basic credentials (mode basic/all); the token wins when both are valid |
| `Auth.GetCurrentUser` | app/auth.py:299-333 | `get_current_user`; `CurrentUserDecision` states who is admitted and the 401 for the rest |
| `Auth.CurrentUserDecision` | app/auth.py:299-333 | with authentication off everyone is "anonymous". Otherwise exactly a non-empty resolved user is admitted; the rest get a 401 offering Basic and Bearer |
| `Auth.DefaultsAdmitAnonymous` | app/auth.py:47-50 | with no environment, authentication is off and every request runs as "anonymous" |
| `Auth.GetTrinoAuthHeaders` | app/auth.py:336-352 | the headers hold exactly X-Trino-User, set to the user |
| `Auth.AuthHeadersOverridden` | app/trino_client.py:41-44 | passing these headers to a client does not change whom it acts as, because the constructor writes its own user over them |
| `StdioBridge.ErrorLine` | mcp_stdio_bridge.py:31-33 | the line `_error(id, code, msg)` prints; `OwnLinesWellFormed` states its shape |
| `StdioBridge.HandleLine` | mcp_stdio_bridge.py:40-104 | one iteration of the loop on a stripped line: the lines it prints and whether it posted; `HandleLineByKind`, `SkipIffBlank`, `ForwardedReply` and `InitializeAnswer` state each branch |
| `StdioBridge.RunSpec` | mcp_stdio_bridge.py:39-104 | the whole transcript of a session, line by line; `Run` is the loop proved equal to it, and `RunCounts` and `RunExtends` state its counts and its growth |
| `StdioBridge.Run` | mcp_stdio_bridge.py:39-104 | the loop prints exactly the transcript `RunSpec` defines and makes its number of posts |
| `StdioBridge.HandleLineByKind` | mcp_stdio_bridge.py:40-103 | a blank line prints nothing. Invalid JSON prints one -32700 error with a null id. `initialize` prints its answer and then `initialized`. Anything else is posted once and prints one line. Only forwarded lines post |
| `StdioBridge.SkipIffBlank` | mcp_stdio_bridge.py:40-42 | a line is skipped exactly when it is empty or all whitespace |
| `StdioBridge.ForwardedReply` | mcp_stdio_bridge.py:88-103 | a forwarded line prints the server's JSON unchanged. A transport failure prints -32000 with its text, and a non-JSON reply prints -32603, each with the request's id |
| `StdioBridge.InitializeAnswer` | mcp_stdio_bridge.py:58-81 | the local answer echoes the id and marks exactly the eight listed methods as supported; the notification carries no id |
| `StdioBridge.OwnLinesWellFormed` | mcp_stdio_bridge.py:31-33 | every line the bridge writes itself is a JSON-RPC 2.0 object whose error has exactly `code` and `message`; any other line is the server's reply unchanged |
| `StdioBridge.RunCounts` | mcp_stdio_bridge.py:39-104 | a session prints one line per invalid or forwarded line and two per `initialize`, and posts once per forwarded line |
| `StdioBridge.RunExtends` | mcp_stdio_bridge.py:39-104 | what is printed for a prefix of the input is never changed by later lines |

## Left out

- Floating point: `retry_delay` is a whole number of milliseconds, and the page pause of 0.1 s is 100 ms. The clock `time.time()` is a `real` parameter. A float `exp` claim, a float `maxRows` and float JSON numbers are not modelled. One consequence the model therefore cannot show: `create_jwt_token` writes `exp` as the float `expire.timestamp()` (app/auth.py:142), while `TokenData.exp` is an `Optional[int]` (app/auth.py:61) that pydantic's validation refuses for a float with a fractional part, so a token the module issues itself would almost always be refused with the 401.
- The retry loop's `time.sleep` calls are not performed; their lengths are returned in order. Logging is left out everywhere.
- HTTP is not performed. `requests.request` is the `Network` oracle. TLS, timeouts and `verify` are carried in the request but have no effect.
- `Trino.Items`: a dict's keys are taken in code-point order; Python takes them in the order of the document. JSON objects are maps here and carry no order.
- `Trino.FetchLink`: the text of the MissingSchema or InvalidSchema error `requests` raises for a `nextUri` that is not a str depends on the value's `str`; the model uses one fixed text, `INVALID_URL`.
- The TypeError and IndexError texts raised while reading a response follow CPython 3.12's wording.
- `PyValues.Printable`: code points above U+00FF outside the blocks it lists (unassigned code points and a few other format characters) count as printable, so `PyValues.Str` shows them where Python's `repr` would escape them.
- `Trino.LinksEnd`: the pagination functions require that no answer from call `horizon` on carries a link. This also excludes networks that hand out links forever while the run still ends, by the `max_rows` cap (app/trino_client.py:114,123-125) or by a raise. The model reaches such a run only through a cut-off network that agrees with it on the calls made and gives no link afterwards. The run that never ends, with links forever and rows below `max_rows`, is not modelled.
- `asyncio.to_thread` and the async handlers are modelled as plain calls; concurrent requests are not modelled.
- `http_headers` aliasing is not modelled: in Python the constructor updates the caller's own dict. The model copies it. Session properties are an ordered list of pairs, standing for the dict's insertion order.
- The `if not result or "rows" not in result` branch of `list_catalogs` can never fire, because `execute_query` always returns both keys. It is not modelled separately.
- Every engine call goes through the default client. `get_client()` with no arguments, when there is no default client yet, would build one with the defaults (`DEFAULT_ARGS`). The handlers instead take the client's settings as a parameter.
- The import-time `configure_client` call in `app/main.py` and the environment reads behind it are left out. `ConfigFrom` takes the environment as a map for the auth settings.
- The manifest route of `app/main.py` serves a file and is left out.
- `ValidateEnvelope` models pydantic's lax mode only for the types a JSON document can hold. Pydantic's error text is not modelled: a validation error escapes as a 500.
- `create_jwt_token` is left out: it works on `datetime`, floats and base64 encoding. The decoder is modelled for tokens from any source.
- Base64, UTF-8, `json.loads`, HMAC-SHA256 and the constant-time comparison are parameters. `JWT_SECRET_KEY` is the key of the `sign` parameter, and the comparison is equality.
- The inner HTTPException messages of `decode_jwt_token` ("Token has expired", "Invalid token signature") never reach a caller, because the outer `except Exception` replaces them. Only the failing step is recorded.
- The `api_key` parameter of the auth dependencies is accepted and never used, so it is not a parameter of the model.
- Mode "jwt", listed in the comment at app/auth.py:49, is treated like "none" by the code: no user is ever resolved in it (`OptionalOff`).
- `PyStrings.Lower` lowers ASCII letters only; Python's full Unicode case mapping is not modelled.
- The bridge's docstring (mcp_stdio_bridge.py:5) promises a handshake line `{"protocol": "jsonrpc"}`, which the code never prints; the model follows the code.
- The bridge does not check the HTTP status of the post, and neither does the model.
- `StdioBridge.Run` takes a precondition the bridge does not check: every line that parses is a JSON object. The Python loop would fail on `envelope.get` for any other value.
- `StdioBridge.Run` models standard input as a sequence of lines and standard output as a sequence of JSON documents. `json.dumps`, stderr and flushing are left out.
