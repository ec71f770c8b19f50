/** The engine's statement client (app/trino_client.py): header construction,
    the retry loop with exponential backoff, bounded pagination over
    continuation links, the catalog projection, the query-info URL, the
    connection probe and the module-wide default client.

    HTTP is an oracle: the k-th HTTP call the process makes (counting from
    the `call` index a caller starts at) is answered by `net(k, request)`.
    Sleeps are not performed; their lengths are returned, in milliseconds. */
module Trino {
  import opened PyValues
  import opened PyStrings

  const USER_AGENT: string := "trino-mcp-client"
  /** The pause between two pages, `time.sleep(0.1)`, in milliseconds. */
  const PAGE_PAUSE: nat := 100
  const RETRIES_EXHAUSTED: Exception := Exception(RuntimeError, "Request failed after multiple retries")
  const QUERY_FAILED: string := "Failed to execute query: "
  const CONNECTION_HINT: string := ". Check if Trino server is running and accessible."
  /** The text whose presence in a failure adds `CONNECTION_HINT`. */
  const CONNECTION_REFUSED: string := "Connection refused"
  // Pieces of the texts of HTTPError, AttributeError and TypeError
  const CLIENT_ERROR: string := " Client Error: "
  const SERVER_ERROR: string := " Server Error: "
  const FOR_URL: string := " for url: "
  const NO_ENCODE: string := "' object has no attribute 'encode'"
  const NOT_COMPARABLE: string := "'<' not supported between instances of 'int' and '"
  // Texts of the TypeErrors and IndexErrors raised while reading a response
  const ARGUMENT_OF_TYPE: string := "argument of type '"
  const NOT_A_CONTAINER: string := "' is not iterable"
  const NOT_ITERABLE: string := "' object is not iterable"
  const NOT_SUBSCRIPTABLE: string := "' object is not subscriptable"
  const LIST_INDICES: string := "list indices must be integers or slices, not str"
  const STRING_INDICES: string := "string indices must be integers, not 'str'"
  const LIST_INDEX_RANGE: string := "list index out of range"
  const STRING_INDEX_RANGE: string := "string index out of range"
  /** Stands for the MissingSchema/InvalidSchema text `requests` gives a URL
      that is not a str. */
  const INVALID_URL: string := "Invalid URL: No scheme supplied"

  /** A row is whatever element the `data` value yields when iterated. */
  type Row = Json

  // ---------------------------------------------------------------------
  // The network
  // ---------------------------------------------------------------------

  datatype HttpRequest = HttpRequest(verb: string, url: string, headers: map<string, string>,
                                     verify: bool, body: Option<string>)

  /** What `response.json()` would make of a response body. */
  datatype Body = JsonBody(value: Json) | NotJson(error: string)

  /** One call of `requests.request`: it raises, or the server answers. */
  datatype Attempt = Raises(exc: Exception) | Responds(status: int, reason: string, body: Body)

  type Network = (nat, HttpRequest) -> Attempt

  /** The verdict of one attempt inside `_request_with_retry`. */
  datatype Verdict = Accepted(body: Body) | Transient(exc: Exception) | Fatal(exc: Exception)

  /** The classes `except (requests.RequestException, ConnectionError)` catches. */
  predicate IsRetried(k: ExcKind) {
    k.HTTPError? || k.RequestError? || k.OSConnectionError?
  }

  /** The text of the HTTPError `raise_for_status` raises. */
  function HttpErrorText(status: int, reason: string, url: string): string {
    IntToString(status) + (if status < 500 then CLIENT_ERROR else SERVER_ERROR) + reason + FOR_URL + url
  }

  /** `requests.request(...)` followed by `raise_for_status()`: every 4xx and
      5xx answer, 401 and 403 included, becomes a retried HTTPError. */
  function Judge(a: Attempt, url: string): (v: Verdict)
    ensures a.Responds? && 400 <= a.status < 600 ==> v.Transient? && v.exc.kind == HTTPError
    ensures v.Accepted? <==> a.Responds? && !(400 <= a.status < 600)
    ensures v.Accepted? ==> v.body == a.body
  {
    match a
    case Raises(e) => if IsRetried(e.kind) then Transient(e) else Fatal(e)
    case Responds(status, reason, body) =>
      if 400 <= status < 600 then Transient(Exception(HTTPError, HttpErrorText(status, reason, url)))
      else Accepted(body)
  }

  // ---------------------------------------------------------------------
  // Retry with exponential backoff
  // ---------------------------------------------------------------------

  function Pow2(k: nat): nat {
    if k == 0 then 1 else 2 * Pow2(k - 1)
  }

  /** The delay in milliseconds before the retry after attempt `attempt`:
      `delay` doubled `attempt` times. */
  function Backoff(delay: nat, attempt: nat): nat {
    if attempt == 0 then delay else 2 * Backoff(delay, attempt - 1)
  }

  /** The backoff is `retry_delay * (2 ** attempt)`. */
  lemma {:induction false} BackoffIsPower(delay: nat, attempt: nat)
    ensures Backoff(delay, attempt) == delay * Pow2(attempt)
  {
    if attempt > 0 {
      BackoffIsPower(delay, attempt - 1);
      assert delay * Pow2(attempt) == 2 * (delay * Pow2(attempt - 1));
    }
  }

  /** The waits taken before attempts `a + 1 .. a + k`. */
  function BackoffsFrom(delay: nat, a: nat, k: nat): (w: seq<nat>)
    ensures |w| == k && forall i :: 0 <= i < k ==> w[i] == Backoff(delay, a + i)
    decreases k
  {
    if k == 0 then [] else [Backoff(delay, a)] + BackoffsFrom(delay, a + 1, k - 1)
  }

  /** The run of `_request_with_retry`: how it ended, the next free call
      index, and the sleeps it took, in order. */
  datatype RetryRun = RetryRun(outcome: Outcome<Body>, next: nat, waits: seq<nat>)

  /** The retry loop from attempt number `attempt` on, with `last` the
      exception of the previous attempt. */
  function RetryFrom(net: Network, req: HttpRequest, attempts: int, delay: nat,
                     call: nat, attempt: nat, last: Option<Exception>): (r: RetryRun)
    ensures call <= r.next <= call + (if attempts > attempt then attempts - attempt else 0)
    ensures r.outcome.Returned? ==>
              call < r.next && Judge(net(r.next - 1, req), req.url) == Accepted(r.outcome.value)
    decreases if attempts > attempt then attempts - attempt else 0
  {
    if attempt >= attempts then
      RetryRun(Raised(last.GetOr(RETRIES_EXHAUSTED)), call, [])
    else
      match Judge(net(call, req), req.url)
      case Accepted(body) => RetryRun(Returned(body), call + 1, [])
      case Fatal(e) => RetryRun(Raised(e), call + 1, [])
      case Transient(e) =>
        var rest := RetryFrom(net, req, attempts, delay, call + 1, attempt + 1, Some(e));
        if attempt < attempts - 1 then rest.(waits := [Backoff(delay, attempt)] + rest.waits)
        else rest
  }

  /** `_request_with_retry` as a whole. */
  function Retry(net: Network, req: HttpRequest, attempts: int, delay: nat, call: nat): RetryRun {
    RetryFrom(net, req, attempts, delay, call, 0, None)
  }

  /** Number of leading attempts, out of `n` starting at `call`, that fail in
      a way the loop retries. */
  function FailStreak(net: Network, req: HttpRequest, call: nat, n: nat): (k: nat)
    ensures k <= n
    decreases n
  {
    if n == 0 then 0
    else if Judge(net(call, req), req.url).Transient? then 1 + FailStreak(net, req, call + 1, n - 1)
    else 0
  }

  /** How an attempt the loop does not retry ends the call. */
  function Settle(v: Verdict): Outcome<Body> {
    match v
    case Accepted(b) => Returned(b)
    case Fatal(e) => Raised(e)
    case Transient(e) => Raised(e)
  }

  /** The run from attempt `a` on ends right after the first attempt that is
      not retried, or after the last attempt; it waits after every failed
      attempt but the last one made. */
  ghost predicate RetryShaped(net: Network, req: HttpRequest, attempts: int, delay: nat,
                              c: nat, a: nat, last: Option<Exception>)
    requires a < attempts
  {
    var r := RetryFrom(net, req, attempts, delay, c, a, last);
    var k := FailStreak(net, req, c, attempts - a);
    && r.next == c + (if k == attempts - a then k else k + 1)
    && r.waits == BackoffsFrom(delay, a, if k == attempts - a then k - 1 else k)
    && r.outcome == Settle(Judge(net(r.next - 1, req), req.url))
  }

  /** An attempt that is not retried ends the run. */
  lemma RetryFromSettles(net: Network, req: HttpRequest, attempts: int, delay: nat,
                         c: nat, a: nat, last: Option<Exception>)
    requires a < attempts && !Judge(net(c, req), req.url).Transient?
    ensures RetryShaped(net, req, attempts, delay, c, a, last)
  {
    var v := Judge(net(c, req), req.url);
    assert RetryFrom(net, req, attempts, delay, c, a, last) == RetryRun(Settle(v), c + 1, []);
    assert FailStreak(net, req, c, attempts - a) == 0;
  }

  /** A retried failure of the last attempt ends the run with its exception. */
  lemma RetryFromExhausted(net: Network, req: HttpRequest, attempts: int, delay: nat,
                           c: nat, a: nat, last: Option<Exception>)
    requires a + 1 == attempts && Judge(net(c, req), req.url).Transient?
    ensures RetryShaped(net, req, attempts, delay, c, a, last)
  {
    var v := Judge(net(c, req), req.url);
    assert RetryFrom(net, req, attempts, delay, c + 1, a + 1, Some(v.exc)) == RetryRun(Raised(v.exc), c + 1, []);
    assert RetryFrom(net, req, attempts, delay, c, a, last) == RetryRun(Raised(v.exc), c + 1, []);
    assert FailStreak(net, req, c + 1, 0) == 0;
    assert FailStreak(net, req, c, 1) == 1;
  }

  /** A retried failure before the last attempt waits and goes on. */
  lemma RetryFromRetries(net: Network, req: HttpRequest, attempts: int, delay: nat,
                         c: nat, a: nat, last: Option<Exception>)
    requires a + 1 < attempts && Judge(net(c, req), req.url).Transient?
    requires RetryShaped(net, req, attempts, delay, c + 1, a + 1, Some(Judge(net(c, req), req.url).exc))
    ensures RetryShaped(net, req, attempts, delay, c, a, last)
  {
    var v := Judge(net(c, req), req.url);
    var rest := RetryFrom(net, req, attempts, delay, c + 1, a + 1, Some(v.exc));
    assert RetryFrom(net, req, attempts, delay, c, a, last) == rest.(waits := [Backoff(delay, a)] + rest.waits);
    var k' := FailStreak(net, req, c + 1, attempts - a - 1);
    assert FailStreak(net, req, c, attempts - a) == 1 + k';
    var m' := if k' == attempts - a - 1 then k' - 1 else k';
    assert BackoffsFrom(delay, a, m' + 1) == [Backoff(delay, a)] + BackoffsFrom(delay, a + 1, m');
  }

  lemma {:induction false} RetryFromShape(net: Network, req: HttpRequest, attempts: int, delay: nat,
                                          c: nat, a: nat, last: Option<Exception>)
    requires a < attempts
    ensures RetryShaped(net, req, attempts, delay, c, a, last)
    decreases attempts - a
  {
    var v := Judge(net(c, req), req.url);
    if !v.Transient? {
      RetryFromSettles(net, req, attempts, delay, c, a, last);
    } else if a + 1 == attempts {
      RetryFromExhausted(net, req, attempts, delay, c, a, last);
    } else {
      RetryFromShape(net, req, attempts, delay, c + 1, a + 1, Some(v.exc));
      RetryFromRetries(net, req, attempts, delay, c, a, last);
    }
  }

  /** The whole retry contract: with N > 0 attempts, if the first k attempts
      fail retryably and k < N, the call ends with attempt k+1's result after
      k+1 calls and k waits; if all N fail, it raises the last attempt's
      exception after exactly N calls and N-1 waits; the i-th wait is
      delay*2^i. */
  lemma RetryShape(net: Network, req: HttpRequest, attempts: int, delay: nat, call: nat)
    requires attempts > 0
    ensures var r := Retry(net, req, attempts, delay, call);
            var k := FailStreak(net, req, call, attempts);
            if k == attempts then
              && r.next == call + attempts
              && r.waits == BackoffsFrom(delay, 0, attempts - 1)
              && r.outcome == Settle(Judge(net(call + attempts - 1, req), req.url))
              && r.outcome.Raised?
            else
              && r.next == call + k + 1
              && r.waits == BackoffsFrom(delay, 0, k)
              && r.outcome == Settle(Judge(net(call + k, req), req.url))
  {
    RetryFromShape(net, req, attempts, delay, call, 0, None);
    if FailStreak(net, req, call, attempts) == attempts {
      FailStreakLast(net, req, call, attempts);
    }
  }

  lemma {:induction false} FailStreakLast(net: Network, req: HttpRequest, call: nat, n: nat)
    requires n > 0 && FailStreak(net, req, call, n) == n
    ensures Judge(net(call + n - 1, req), req.url).Transient?
    decreases n
  {
    if n > 1 {
      FailStreakLast(net, req, call + 1, n - 1);
    }
  }

  /** With no attempts allowed, no request is made and RuntimeError is raised. */
  lemma RetryNoAttempts(net: Network, req: HttpRequest, attempts: int, delay: nat, call: nat)
    requires attempts <= 0
    ensures Retry(net, req, attempts, delay, call) == RetryRun(Raised(RETRIES_EXHAUSTED), call, [])
  {
  }

  lemma {:induction false} FailStreakAll(net: Network, req: HttpRequest, call: nat, n: nat)
    requires forall k: nat :: call <= k < call + n ==> Judge(net(k, req), req.url).Transient?
    ensures FailStreak(net, req, call, n) == n
    decreases n
  {
    if n > 0 {
      FailStreakAll(net, req, call + 1, n - 1);
    }
  }

  /** A server that answers 401 or 403 every time is retried like any other
      failure: N calls, N-1 waits, then the HTTPError of the last answer. */
  lemma UnauthorizedIsRetried(net: Network, req: HttpRequest, attempts: int, delay: nat, call: nat)
    requires attempts > 0
    requires forall k: nat :: net(k, req).Responds? && net(k, req).status in {401, 403}
    ensures var r := Retry(net, req, attempts, delay, call);
            && r.next == call + attempts
            && r.waits == BackoffsFrom(delay, 0, attempts - 1)
            && r.outcome.Raised? && r.outcome.exc.kind == HTTPError
  {
    FailStreakAll(net, req, call, attempts);
    RetryShape(net, req, attempts, delay, call);
  }

  // ---------------------------------------------------------------------
  // Reading a decoded response
  // ---------------------------------------------------------------------

  /** Code-point order on strings: the order in which this model lists a JSON
      object's keys. */
  predicate KeyBelow(a: string, b: string) {
    a == [] || (b != [] && (a[0] < b[0] || (a[0] == b[0] && KeyBelow(a[1..], b[1..]))))
  }

  lemma {:induction false} KeyBelowTotal(a: string, b: string)
    ensures KeyBelow(a, b) || KeyBelow(b, a)
    decreases |a|
  {
    if a != [] && b != [] && a[0] == b[0] {
      KeyBelowTotal(a[1..], b[1..]);
    }
  }

  lemma {:induction false} KeyBelowAntisymmetric(a: string, b: string)
    requires KeyBelow(a, b) && KeyBelow(b, a)
    ensures a == b
    decreases |a|
  {
    if a != [] && b != [] {
      KeyBelowAntisymmetric(a[1..], b[1..]);
      assert a == [a[0]] + a[1..] && b == [b[0]] + b[1..];
    }
  }

  lemma {:induction false} KeyBelowTransitive(a: string, b: string, c: string)
    requires KeyBelow(a, b) && KeyBelow(b, c)
    ensures KeyBelow(a, c)
    decreases |a|
  {
    if a != [] && a[0] == b[0] && b[0] == c[0] {
      KeyBelowTransitive(a[1..], b[1..], c[1..]);
    }
  }

  /** A finite non-empty set of keys has a least key. */
  lemma {:induction false} LeastKeyExists(ks: set<string>)
    requires ks != {}
    ensures exists k :: k in ks && forall j :: j in ks ==> KeyBelow(k, j)
    decreases |ks|
  {
    var x :| x in ks;
    KeyBelowTotal(x, x);
    var rest := ks - {x};
    if rest == {} {
      assert ks == {x};
    } else {
      LeastKeyExists(rest);
      var m :| m in rest && forall j :: j in rest ==> KeyBelow(m, j);
      KeyBelowTotal(x, m);
      var least := if KeyBelow(x, m) then x else m;
      forall j | j in ks
        ensures KeyBelow(least, j)
      {
        if j == x {
        } else if least == x {
          KeyBelowTransitive(x, m, j);
        }
      }
      assert least in ks;
    }
  }

  /** The least key of a non-empty set. */
  function LeastKey(ks: set<string>): (k: string)
    requires ks != {}
    ensures k in ks && forall j :: j in ks ==> KeyBelow(k, j)
  {
    LeastKeyExists(ks);
    assert forall a, b :: a in ks && b in ks && KeyBelow(a, b) && KeyBelow(b, a) ==> a == b by {
      forall a, b | a in ks && b in ks && KeyBelow(a, b) && KeyBelow(b, a)
        ensures a == b
      {
        KeyBelowAntisymmetric(a, b);
      }
    }
    var k :| k in ks && forall j :: j in ks ==> KeyBelow(k, j);
    k
  }

  /** The keys of a set, each once, in code-point order. */
  function SortedKeys(ks: set<string>): (r: seq<string>)
    ensures |r| == |ks| && forall k :: k in r <==> k in ks
    decreases |ks|
  {
    if ks == {} then []
    else
      var k := LeastKey(ks);
      [k] + SortedKeys(ks - {k})
  }

  /** `key in v`: a key of a dict, an element of a list, a substring of a
      str; any other value is not a container. */
  function Has(v: Json, key: string): (r: Outcome<bool>)
    ensures r.Raised? <==> !(v.JObj? || v.JArr? || v.JStr?)
    ensures v.JObj? ==> r == Returned(key in v.fields)
  {
    match v
    case JObj(f) => Returned(key in f)
    case JArr(items) => Returned(JStr(key) in items)
    case JStr(t) => Returned(Contains(t, key))
    case _ => Raised(Exception(TypeError, ARGUMENT_OF_TYPE + TypeName(v) + NOT_A_CONTAINER))
  }

  /** `v[key]` with a str key: only a dict holding the key answers. */
  function Subscript(v: Json, key: string): (r: Outcome<Json>)
    ensures r.Returned? <==> v.JObj? && key in v.fields
    ensures r.Returned? ==> r.value == v.fields[key]
    ensures v.JObj? && key !in v.fields ==> r == Raised(Exception(KeyError, key))
  {
    match v
    case JObj(f) => if key in f then Returned(f[key]) else Raised(Exception(KeyError, key))
    case JArr(_) => Raised(Exception(TypeError, LIST_INDICES))
    case JStr(_) => Raised(Exception(TypeError, STRING_INDICES))
    case _ => Raised(Exception(TypeError, "'" + TypeName(v) + NOT_SUBSCRIPTABLE))
  }

  /** `iter(v)`: a list's items, a str's characters, a dict's keys; any
      other value is not iterable. */
  function Items(v: Json): (r: Outcome<seq<Json>>)
    ensures r.Raised? <==> !(v.JObj? || v.JArr? || v.JStr?)
    ensures v.JArr? ==> r == Returned(v.items)
    ensures v.JStr? ==> r.Returned? && |r.value| == |v.s|
                        && forall i :: 0 <= i < |v.s| ==> r.value[i] == JStr([v.s[i]])
    ensures v.JObj? ==> r.Returned? && |r.value| == |v.fields.Keys|
                        && forall k :: JStr(k) in r.value <==> k in v.fields
  {
    match v
    case JArr(items) => Returned(items)
    case JStr(t) => Returned(seq(|t|, i requires 0 <= i < |t| => JStr([t[i]])))
    case JObj(f) =>
      var ks := SortedKeys(f.Keys);
      var r := seq(|ks|, i requires 0 <= i < |ks| => JStr(ks[i]));
      assert forall k :: JStr(k) in r ==> k in ks;
      assert forall i :: 0 <= i < |ks| ==> r[i] == JStr(ks[i]);
      Returned(r)
    case _ => Raised(Exception(TypeError, "'" + TypeName(v) + NOT_ITERABLE))
  }

  /** `[f(x) for x in xs]`: every result, in order, or the first exception. */
  function Each(xs: seq<Json>, f: Json -> Outcome<Json>): (r: Outcome<seq<Json>>)
    ensures r.Returned? <==> forall i :: 0 <= i < |xs| ==> f(xs[i]).Returned?
    ensures r.Returned? ==> |r.value| == |xs| && forall i :: 0 <= i < |xs| ==> f(xs[i]) == Returned(r.value[i])
    ensures r.Raised? ==> exists i :: 0 <= i < |xs| && f(xs[i]) == Raised(r.exc)
                                      && forall j :: 0 <= j < i ==> f(xs[j]).Returned?
  {
    if xs == [] then Returned([])
    else
      match f(xs[0])
      case Raised(e) => Raised(e)
      case Returned(y) =>
        var rest := Each(xs[1..], f);
        assert forall i :: 1 <= i < |xs| ==> xs[i] == xs[1..][i - 1];
        match rest
        case Raised(e) =>
          var i :| 0 <= i < |xs[1..]| && f(xs[1..][i]) == Raised(e)
                   && forall j :: 0 <= j < i ==> f(xs[1..][j]).Returned?;
          assert f(xs[i + 1]) == Raised(e);
          Raised(e)
        case Returned(ys) => Returned([y] + ys)
  }

  /** `[col["name"] for col in v]`. */
  function ColumnNames(v: Json): (r: Outcome<seq<Json>>)
    ensures v.JArr? ==> r == Each(v.items, col => Subscript(col, "name"))
    ensures !(v.JObj? || v.JArr? || v.JStr?) ==> r.Raised? && r.exc.kind == TypeError
  {
    match Items(v)
    case Raised(e) => Raised(e)
    case Returned(cols) => Each(cols, col => Subscript(col, "name"))
  }

  /** What the loop takes from one decoded response: the column names (read
      only while it has none), the items `data` adds to the rows, and, when
      `nextUri` is present, what subscripting it gives. */
  datatype Page = Page(columns: seq<Json>, data: seq<Row>, link: Link)

  datatype Link = NoLink | Link(target: Outcome<Json>)

  /** The `"columns" in …`, `"data" in …` and `"nextUri" in …` tests on one
      decoded response and the reads they guard, in the loop's order; the
      first exception ends the read. The link is only subscripted when the
      loop follows it. */
  function ReadPage(doc: Json, wantColumns: bool): (r: Outcome<Page>)
    ensures r.Raised? <== !(doc.JObj? || doc.JArr? || doc.JStr?)
    ensures r.Returned? ==> (r.value.link.Link? <==> Has(doc, "nextUri") == Returned(true))
    ensures r.Returned? && r.value.link.Link? ==> r.value.link.target == Subscript(doc, "nextUri")
    ensures r.Returned? && !wantColumns ==> r.value.columns == []
  {
    match Has(doc, "columns")
    case Raised(e) => Raised(e)
    case Returned(hasColumns) =>
      var columns :=
        if hasColumns && wantColumns then
          match Subscript(doc, "columns")
          case Raised(e) => Raised(e)
          case Returned(v) => ColumnNames(v)
        else Returned([]);
      if columns.Raised? then Raised(columns.exc)
      else
        var data :=
          if Has(doc, "data").value then
            match Subscript(doc, "data")
            case Raised(e) => Raised(e)
            case Returned(v) => Items(v)
          else Returned([]);
        if data.Raised? then Raised(data.exc)
        else
          var link := if Has(doc, "nextUri").value then Link(Subscript(doc, "nextUri")) else NoLink;
          Returned(Page(columns.value, data.value, link))
  }

  /** A well-formed statement response reads as its columns' names, its rows
      and its link. */
  lemma ReadStatementPage(cols: seq<Json>, names: seq<Json>, rows: seq<Json>, next: string)
    requires |cols| == |names| && forall i :: 0 <= i < |cols| ==> cols[i] == JObj(map["name" := names[i]])
    ensures var doc := JObj(map["columns" := JArr(cols), "data" := JArr(rows), "nextUri" := JStr(next)]);
            ReadPage(doc, true) == Returned(Page(names, rows, Link(Returned(JStr(next)))))
  {
    var names' := Each(cols, col => Subscript(col, "name"));
    assert names'.Returned?;
    assert names'.value == names;
  }

  /** The decoded body of an answer, when it is JSON. */
  function DocAt(a: Attempt): Option<Json> {
    if a.Responds? && a.body.JsonBody? then Some(a.body.value) else None
  }

  predicate HasLink(a: Attempt) {
    DocAt(a).Some? && Has(DocAt(a).value, "nextUri") == Returned(true)
  }

  /** The engine stops handing out continuation links from call `horizon` on.
      This bound is what the pagination functions use for termination. The
      loop also ends on the row cap or a raise, so the bound is stronger than
      termination needs. Only links that never stop while the rows stay below
      the cap make the loop spin. */
  ghost predicate LinksEnd(net: Network, horizon: nat) {
    forall k: nat, r: HttpRequest :: horizon <= k ==> !HasLink(net(k, r))
  }

  // ---------------------------------------------------------------------
  // The client's settings and headers
  // ---------------------------------------------------------------------

  /** The keyword arguments of `TrinoClient(...)`; session properties keep
      the dictionary's insertion order. `retryDelay` is in milliseconds. */
  datatype ClientArgs = ClientArgs(
    host: string, port: int, user: string,
    catalog: Option<string>, schema: Option<string>,
    sessionProperties: seq<(string, string)>, httpHeaders: map<string, string>,
    httpScheme: string, verify: bool, retryAttempts: int, retryDelay: nat)

  /** The constructor's defaults. */
  const DEFAULT_ARGS: ClientArgs :=
    ClientArgs("localhost", 8080, "mcp-client", None, None, [], map[], "http", true, 3, 1000)

  /** `if catalog:` on an optional string. */
  predicate Given(o: Option<string>) {
    o.Some? && o.value != ""
  }

  function BaseUrl(scheme: string, host: string, port: int): string {
    scheme + "://" + host + ":" + IntToString(port)
  }

  function SessionValue(p: (string, string)): string {
    p.0 + "=" + p.1
  }

  /** The headers before the session-property loop runs. */
  function HeadersBeforeSession(args: ClientArgs): map<string, string> {
    var h := args.httpHeaders["User-Agent" := USER_AGENT]["X-Trino-User" := args.user];
    var h := if Given(args.catalog) then h["X-Trino-Catalog" := args.catalog.value] else h;
    if Given(args.schema) then h["X-Trino-Schema" := args.schema.value] else h
  }

  /** The headers `__init__` leaves behind: the agent and user are always set,
      catalog and schema only when non-empty, every session property is
      written to the one key X-Trino-Session so only the last survives, and
      every other caller-supplied header is kept as it was. */
  function HeadersFor(args: ClientArgs): (h: map<string, string>)
    ensures "User-Agent" in h && h["User-Agent"] == USER_AGENT
    ensures "X-Trino-User" in h && h["X-Trino-User"] == args.user
    ensures Given(args.catalog) ==> "X-Trino-Catalog" in h && h["X-Trino-Catalog"] == args.catalog.value
    ensures !Given(args.catalog) ==>
              ("X-Trino-Catalog" in h <==> "X-Trino-Catalog" in args.httpHeaders)
              && ("X-Trino-Catalog" in args.httpHeaders ==> h["X-Trino-Catalog"] == args.httpHeaders["X-Trino-Catalog"])
    ensures Given(args.schema) ==> "X-Trino-Schema" in h && h["X-Trino-Schema"] == args.schema.value
    ensures !Given(args.schema) ==>
              ("X-Trino-Schema" in h <==> "X-Trino-Schema" in args.httpHeaders)
              && ("X-Trino-Schema" in args.httpHeaders ==> h["X-Trino-Schema"] == args.httpHeaders["X-Trino-Schema"])
    ensures |args.sessionProperties| > 0 ==>
              "X-Trino-Session" in h
              && h["X-Trino-Session"] == SessionValue(args.sessionProperties[|args.sessionProperties| - 1])
    ensures |args.sessionProperties| == 0 ==>
              ("X-Trino-Session" in h <==> "X-Trino-Session" in args.httpHeaders)
              && ("X-Trino-Session" in args.httpHeaders ==> h["X-Trino-Session"] == args.httpHeaders["X-Trino-Session"])
    ensures forall k :: k in args.httpHeaders &&
                        k !in {"User-Agent", "X-Trino-User", "X-Trino-Catalog", "X-Trino-Schema", "X-Trino-Session"}
                        ==> k in h && h[k] == args.httpHeaders[k]
    ensures h.Keys <= args.httpHeaders.Keys +
                      {"User-Agent", "X-Trino-User", "X-Trino-Catalog", "X-Trino-Schema", "X-Trino-Session"}
  {
    var h := HeadersBeforeSession(args);
    var props := args.sessionProperties;
    if |props| == 0 then h else h["X-Trino-Session" := SessionValue(props[|props| - 1])]
  }

  /** What the request helpers need from a client. */
  datatype Settings = Settings(baseUrl: string, headers: map<string, string>, verify: bool,
                               retryAttempts: int, retryDelay: nat)

  function PostRequest(s: Settings, url: string, body: string): HttpRequest {
    HttpRequest("post", url, s.headers, s.verify, Some(body))
  }

  function GetRequest(s: Settings, url: string): HttpRequest {
    HttpRequest("get", url, s.headers, s.verify, None)
  }

  function StatementUrl(s: Settings): string {
    s.baseUrl + "/v1/statement"
  }

  function QueryInfoUrl(s: Settings, queryId: string): string {
    s.baseUrl + "/v1/query/" + queryId
  }

  // ---------------------------------------------------------------------
  // execute_query, as a specification
  // ---------------------------------------------------------------------

  /** `max_rows` as given: an int (a bool counts as 0 or 1), or a value `<`
      cannot compare with an int. */
  datatype RowCap = Limit(n: int) | Incomparable(typeName: string)

  datatype QueryResult = QueryResult(columns: seq<Json>, rows: seq<Row>)

  /** The RuntimeError every failure inside `execute_query` becomes. */
  function QueryFailure(m: string): Exception {
    Exception(RuntimeError, QUERY_FAILED + m + (if Contains(m, CONNECTION_REFUSED) then CONNECTION_HINT else ""))
  }

  function EncodeFailure(typeName: string): string {
    "'" + typeName + NO_ENCODE
  }

  function CompareFailure(typeName: string): string {
    NOT_COMPARABLE + typeName + "'"
  }

  /** The run of `execute_query`: its outcome, the pages it read (the
      submission's first), the URLs it requested once each (retries not
      repeated; a continuation URL is the value `nextUri` held), the next
      free call index, and the sleeps it took. */
  datatype QueryRun = QueryRun(outcome: Outcome<QueryResult>, pages: seq<Page>, urls: seq<Json>,
                               next: nat, waits: seq<nat>)

  /** One request through the retry loop followed by `response.json()`. */
  datatype Fetch = Fetched(doc: Json, next: nat, waits: seq<nat>)
                 | FetchFailed(error: string, next: nat, waits: seq<nat>)

  function FetchPage(s: Settings, net: Network, call: nat, req: HttpRequest): (f: Fetch)
    ensures f.Fetched? ==> call < f.next && DocAt(net(f.next - 1, req)) == Some(f.doc)
  {
    var r := Retry(net, req, s.retryAttempts, s.retryDelay, call);
    match r.outcome
    case Raised(e) => FetchFailed(Str(e), r.next, r.waits)
    case Returned(NotJson(m)) => FetchFailed(m, r.next, r.waits)
    case Returned(JsonBody(v)) => Fetched(v, r.next, r.waits)
  }

  /** What `requests.request` raises, before sending anything, when the URL
      is not a str: `str(url)` has no scheme it can use. */
  const UNUSABLE_URL: Exception := Exception(RequestError, INVALID_URL)

  /** A network the request never reaches: every call raises `e`. */
  function Refusing(e: Exception): Network {
    (k: nat, r: HttpRequest) => Raises(e)
  }

  /** `_request_with_retry('get', link)` and `response.json()` on the value of
      `nextUri`. A str is fetched. Anything else fails in every attempt
      before reaching the network, so the loop makes no call, waits between
      its attempts and reports the last failure. */
  function FetchLink(s: Settings, net: Network, call: nat, link: Json): (f: Fetch)
    ensures f.Fetched? ==> link.JStr? && call < f.next && DocAt(net(f.next - 1, GetRequest(s, link.s))) == Some(f.doc)
    ensures !link.JStr? ==> f.FetchFailed? && f.next == call
  {
    if link.JStr? then FetchPage(s, net, call, GetRequest(s, link.s))
    else if s.retryAttempts <= 0 then FetchFailed(Str(RETRIES_EXHAUSTED), call, [])
    else FetchFailed(Str(UNUSABLE_URL), call, BackoffsFrom(s.retryDelay, 0, s.retryAttempts - 1))
  }

  /** A link that is not a str fails exactly as the retry loop does when
      every attempt raises: the same exception, the same waits. */
  lemma UnusableLinkRetried(s: Settings, net: Network, call: nat, link: Json)
    requires !link.JStr?
    ensures var r := Retry(Refusing(UNUSABLE_URL), GetRequest(s, ""), s.retryAttempts, s.retryDelay, call);
            && r.outcome.Raised?
            && FetchLink(s, net, call, link) == FetchFailed(Str(r.outcome.exc), call, r.waits)
  {
    var req := GetRequest(s, "");
    if s.retryAttempts > 0 {
      FailStreakAll(Refusing(UNUSABLE_URL), req, call, s.retryAttempts);
      RetryShape(Refusing(UNUSABLE_URL), req, s.retryAttempts, s.retryDelay, call);
    }
  }

  /** Following a page's link: subscripting `nextUri`, the GET, and reading
      the response; a failure keeps its text and the link it requested, if
      it got that far. */
  datatype Step = Stepped(link: Json, page: Page, next: nat, waits: seq<nat>)
                | StepFailed(error: string, requested: seq<Json>, next: nat, waits: seq<nat>)

  function FollowLink(s: Settings, net: Network, call: nat, target: Outcome<Json>, wantColumns: bool): (st: Step)
    ensures st.Stepped? ==> && target == Returned(st.link) && st.link.JStr? && call < st.next
                            && (st.page.link.Link? ==> HasLink(net(st.next - 1, GetRequest(s, st.link.s))))
                            && (!wantColumns ==> st.page.columns == [])
    ensures st.StepFailed? ==> st.requested == [] || (|st.requested| == 1 && target == Returned(st.requested[0]))
  {
    match target
    case Raised(e) => StepFailed(Str(e), [], call, [])
    case Returned(link) =>
      match FetchLink(s, net, call, link)
      case FetchFailed(m, next, w) => StepFailed(m, [link], next, w)
      case Fetched(doc, next, w) =>
        match ReadPage(doc, wantColumns)
        case Raised(e) => StepFailed(Str(e), [link], next, w)
        case Returned(p) => Stepped(link, p, next, w)
  }

  function Last<T>(s: seq<T>): T
    requires |s| > 0
  {
    s[|s| - 1]
  }

  /** The rows of all pages, in order. */
  function AllRows(pages: seq<Page>): seq<Row> {
    if pages == [] then [] else AllRows(pages[..|pages| - 1]) + Last(pages).data
  }

  /** The first non-empty column list among the pages, or none. */
  function Columns(pages: seq<Page>): seq<Json> {
    if pages == [] then []
    else
      var c := Columns(pages[..|pages| - 1]);
      if c != [] then c else Last(pages).columns
  }

  /** The pagination loop, from the state it is in when it tests its
      condition: `pages` read so far, `columns` and `rows` accumulated. */
  function Follow(s: Settings, net: Network, horizon: nat, call: nat, cap: RowCap,
                  pages: seq<Page>, columns: seq<Json>, rows: seq<Row>,
                  urls: seq<Json>, waits: seq<nat>): (r: QueryRun)
    requires LinksEnd(net, horizon) && |pages| > 0
    requires Last(pages).link.Link? ==> call <= horizon
    decreases if call <= horizon then horizon - call else 0
  {
    var page := Last(pages);
    if page.link.NoLink? then QueryRun(Returned(QueryResult(columns, rows)), pages, urls, call, waits)
    else
      match cap
      case Incomparable(t) => QueryRun(Raised(QueryFailure(CompareFailure(t))), pages, urls, call, waits)
      case Limit(n) =>
        if |rows| >= n then QueryRun(Returned(QueryResult(columns, rows)), pages, urls, call, waits)
        else
          match FollowLink(s, net, call, page.link.target, columns == [])
          case StepFailed(m, requested, next, w) =>
            QueryRun(Raised(QueryFailure(m)), pages, urls + requested, next, waits + w)
          case Stepped(link, p, next, w) =>
            var cols := if columns == [] then p.columns else columns;
            var all := rows + p.data;
            if |all| >= n then
              QueryRun(Returned(QueryResult(cols, all[..n])), pages + [p], urls + [link], next, waits + w)
            else if p.link.NoLink? then
              QueryRun(Returned(QueryResult(cols, all)), pages + [p], urls + [link], next, waits + w)
            else
              Follow(s, net, horizon, next, cap, pages + [p], cols, all, urls + [link], waits + w + [PAGE_PAUSE])
  }

  /** `execute_query(sql, max_rows)`. */
  function ExecuteQuerySpec(s: Settings, net: Network, horizon: nat, call: nat, sql: Json, cap: RowCap): QueryRun
    requires LinksEnd(net, horizon)
  {
    var url := StatementUrl(s);
    if !sql.JStr? then QueryRun(Raised(QueryFailure(EncodeFailure(TypeName(sql)))), [], [], call, [])
    else
      match FetchPage(s, net, call, PostRequest(s, url, sql.s))
      case FetchFailed(m, next, w) => QueryRun(Raised(QueryFailure(m)), [], [JStr(url)], next, w)
      case Fetched(doc, next, w) =>
        match ReadPage(doc, true)
        case Raised(e) => QueryRun(Raised(QueryFailure(Str(e))), [], [JStr(url)], next, w)
        case Returned(p) =>
          assert p.link.Link? ==> HasLink(net(next - 1, PostRequest(s, url, sql.s)));
          Follow(s, net, horizon, next, cap, [p], p.columns, p.data, [JStr(url)], w)
  }

  // ---------------------------------------------------------------------
  // Properties of execute_query
  // ---------------------------------------------------------------------

  function Min(a: int, b: int): int {
    if a <= b then a else b
  }

  /** The URL trace: the statement URL first, then each GET on the value of
      `nextUri` in the page before it. */
  ghost predicate Traced(s: Settings, pages: seq<Page>, urls: seq<Json>) {
    && 1 <= |urls|
    && |pages| <= |urls| <= |pages| + 1
    && urls[0] == JStr(StatementUrl(s))
    && forall i :: 1 <= i < |urls| ==> pages[i - 1].link == Link(Returned(urls[i]))
  }

  /** A completed walk: one URL per page, and the loop went on past a page
      only while fewer than `n` rows had been gathered. */
  ghost predicate Walked(s: Settings, n: int, pages: seq<Page>, urls: seq<Json>) {
    && Traced(s, pages, urls)
    && |urls| == |pages|
    && forall k :: 1 <= k < |pages| ==> |AllRows(pages[..k])| < n
  }

  ghost predicate FollowState(s: Settings, n: int, pages: seq<Page>, columns: seq<Json>,
                              rows: seq<Row>, urls: seq<Json>) {
    && Walked(s, n, pages, urls)
    && columns == Columns(pages)
    && rows == AllRows(pages)
    && (|pages| > 1 ==> |rows| < n)
  }

  /** What a finished run of the loop guarantees. */
  ghost predicate Finished(s: Settings, n: int, r: QueryRun) {
    && (r.outcome.Raised? ==> exists m :: r.outcome.exc == QueryFailure(m))
    && (r.outcome.Raised? && r.urls != [] ==> Traced(s, r.pages, r.urls))
    && (r.outcome.Returned? ==>
          var q := r.outcome.value;
          && Walked(s, n, r.pages, r.urls)
          && q.columns == Columns(r.pages)
          && q.rows == (if |r.pages| == 1 then AllRows(r.pages)
                        else AllRows(r.pages)[..Min(|AllRows(r.pages)|, n)])
          && (Last(r.pages).link.NoLink? || |AllRows(r.pages)| >= n))
  }

  lemma AllRowsSnoc(pages: seq<Page>, p: Page)
    ensures AllRows(pages + [p]) == AllRows(pages) + p.data
    ensures Columns(pages + [p]) == if Columns(pages) != [] then Columns(pages) else p.columns
  {
    assert (pages + [p])[..|pages|] == pages;
  }

  /** Reading one more page along the last page's link keeps the walk
      well formed, provided fewer than `n` rows had been gathered. */
  lemma {:induction false} WalkedSnoc(s: Settings, n: int, pages: seq<Page>, urls: seq<Json>, p: Page, url: Json)
    requires Walked(s, n, pages, urls) && |pages| > 0
    requires Last(pages).link == Link(Returned(url)) && |AllRows(pages)| < n
    ensures Walked(s, n, pages + [p], urls + [url])
  {
    var pages' := pages + [p];
    forall k | 1 <= k < |pages'| ensures |AllRows(pages'[..k])| < n {
      if k < |pages| {
        assert pages'[..k] == pages[..k];
      } else {
        assert pages'[..k] == pages;
      }
    }
  }

  lemma {:induction false} FinishedReturned(s: Settings, n: int, pages: seq<Page>, urls: seq<Json>, rows: seq<Row>,
                         call: nat, waits: seq<nat>)
    requires Walked(s, n, pages, urls) && |pages| > 0
    requires Last(pages).link.NoLink? || |AllRows(pages)| >= n
    requires rows == (if |pages| == 1 then AllRows(pages) else AllRows(pages)[..Min(|AllRows(pages)|, n)])
    ensures Finished(s, n, QueryRun(Returned(QueryResult(Columns(pages), rows)), pages, urls, call, waits))
  {
  }

  lemma {:induction false} FinishedRaised(s: Settings, n: int, pages: seq<Page>, urls: seq<Json>, m: string,
                       call: nat, waits: seq<nat>)
    requires Traced(s, pages, urls)
    ensures Finished(s, n, QueryRun(Raised(QueryFailure(m)), pages, urls, call, waits))
  {
  }

  /** One turn of the loop that follows a link, unfolded. */
  lemma FollowFetchStep(s: Settings, net: Network, horizon: nat, call: nat, n: int,
                        pages: seq<Page>, columns: seq<Json>, rows: seq<Row>,
                        urls: seq<Json>, waits: seq<nat>)
    requires LinksEnd(net, horizon) && |pages| > 0
    requires Last(pages).link.Link? && call <= horizon && |rows| < n
    ensures var r := Follow(s, net, horizon, call, Limit(n), pages, columns, rows, urls, waits);
            match FollowLink(s, net, call, Last(pages).link.target, columns == [])
            case StepFailed(m, requested, next, w) =>
              r == QueryRun(Raised(QueryFailure(m)), pages, urls + requested, next, waits + w)
            case Stepped(link, p, next, w) =>
              var cols := if columns == [] then p.columns else columns;
              var all := rows + p.data;
              if |all| >= n then
                r == QueryRun(Returned(QueryResult(cols, all[..n])), pages + [p], urls + [link], next, waits + w)
              else if p.link.NoLink? then
                r == QueryRun(Returned(QueryResult(cols, all)), pages + [p], urls + [link], next, waits + w)
              else
                && next <= horizon
                && r == Follow(s, net, horizon, next, Limit(n), pages + [p], cols, all, urls + [link],
                               waits + w + [PAGE_PAUSE])
  {
  }

  /** The loop stops before following a link: there is none, or the cap is
      already reached. */
  lemma {:induction false} FollowStops(s: Settings, net: Network, horizon: nat, call: nat, n: int,
                                       pages: seq<Page>, columns: seq<Json>, rows: seq<Row>,
                                       urls: seq<Json>, waits: seq<nat>)
    requires LinksEnd(net, horizon) && |pages| > 0
    requires Last(pages).link.Link? ==> call <= horizon
    requires FollowState(s, n, pages, columns, rows, urls)
    requires Last(pages).link.NoLink? || |rows| >= n
    ensures var r := Follow(s, net, horizon, call, Limit(n), pages, columns, rows, urls, waits);
            Finished(s, n, r) && r.pages == pages
  {
    assert Follow(s, net, horizon, call, Limit(n), pages, columns, rows, urls, waits)
        == QueryRun(Returned(QueryResult(columns, rows)), pages, urls, call, waits);
    assert |pages| > 1 ==> rows[..Min(|rows|, n)] == rows;
    FinishedReturned(s, n, pages, urls, rows, call, waits);
  }

  /** Following the link fails: subscripting it, the request, or reading
      the response raised. */
  lemma {:induction false} FollowFails(s: Settings, net: Network, horizon: nat, call: nat, n: int,
                                       pages: seq<Page>, columns: seq<Json>, rows: seq<Row>,
                                       urls: seq<Json>, waits: seq<nat>)
    requires LinksEnd(net, horizon) && |pages| > 0
    requires Last(pages).link.Link? && call <= horizon && |rows| < n
    requires FollowState(s, n, pages, columns, rows, urls)
    requires FollowLink(s, net, call, Last(pages).link.target, columns == []).StepFailed?
    ensures var r := Follow(s, net, horizon, call, Limit(n), pages, columns, rows, urls, waits);
            Finished(s, n, r) && r.pages == pages
  {
    var st := FollowLink(s, net, call, Last(pages).link.target, columns == []);
    assert Follow(s, net, horizon, call, Limit(n), pages, columns, rows, urls, waits)
        == QueryRun(Raised(QueryFailure(st.error)), pages, urls + st.requested, st.next, waits + st.waits);
    FinishedRaised(s, n, pages, urls + st.requested, st.error, st.next, waits + st.waits);
  }

  /** The next page arrives and holds the rows that reach `n`: the loop
      ends with the rows cut to `n`. */
  lemma {:induction false} FollowPageCut(s: Settings, net: Network, horizon: nat, call: nat, n: int,
                                         pages: seq<Page>, columns: seq<Json>, rows: seq<Row>,
                                         urls: seq<Json>, waits: seq<nat>, p: Page)
    requires LinksEnd(net, horizon) && |pages| > 0
    requires Last(pages).link.Link? && call <= horizon && |rows| < n
    requires FollowState(s, n, pages, columns, rows, urls)
    requires var st := FollowLink(s, net, call, Last(pages).link.target, columns == []); st.Stepped? && st.page == p
    requires |rows + p.data| >= n
    ensures var r := Follow(s, net, horizon, call, Limit(n), pages, columns, rows, urls, waits);
            Finished(s, n, r) && r.pages == pages + [p]
  {
    var st := FollowLink(s, net, call, Last(pages).link.target, columns == []);
    var pages', urls' := pages + [p], urls + [st.link];
    var cols := if columns == [] then p.columns else columns;
    var all := rows + p.data;
    AllRowsSnoc(pages, p);
    WalkedSnoc(s, n, pages, urls, p, st.link);
    assert cols == Columns(pages') && all == AllRows(pages');
    assert Follow(s, net, horizon, call, Limit(n), pages, columns, rows, urls, waits)
        == QueryRun(Returned(QueryResult(cols, all[..n])), pages', urls', st.next, waits + st.waits);
    FinishedReturned(s, n, pages', urls', all[..n], st.next, waits + st.waits);
  }

  /** The next page arrives without a link and short of `n` rows: the loop
      ends with every row gathered. */
  lemma {:induction false} FollowPageLast(s: Settings, net: Network, horizon: nat, call: nat, n: int,
                                          pages: seq<Page>, columns: seq<Json>, rows: seq<Row>,
                                          urls: seq<Json>, waits: seq<nat>, p: Page)
    requires LinksEnd(net, horizon) && |pages| > 0
    requires Last(pages).link.Link? && call <= horizon && |rows| < n
    requires FollowState(s, n, pages, columns, rows, urls)
    requires var st := FollowLink(s, net, call, Last(pages).link.target, columns == []); st.Stepped? && st.page == p
    requires |rows + p.data| < n && p.link.NoLink?
    ensures var r := Follow(s, net, horizon, call, Limit(n), pages, columns, rows, urls, waits);
            Finished(s, n, r) && r.pages == pages + [p]
  {
    var st := FollowLink(s, net, call, Last(pages).link.target, columns == []);
    var pages', urls' := pages + [p], urls + [st.link];
    var cols := if columns == [] then p.columns else columns;
    var all := rows + p.data;
    AllRowsSnoc(pages, p);
    WalkedSnoc(s, n, pages, urls, p, st.link);
    assert cols == Columns(pages') && all == AllRows(pages');
    assert Follow(s, net, horizon, call, Limit(n), pages, columns, rows, urls, waits)
        == QueryRun(Returned(QueryResult(cols, all)), pages', urls', st.next, waits + st.waits);
    assert all[..Min(|all|, n)] == all;
    FinishedReturned(s, n, pages', urls', all, st.next, waits + st.waits);
  }

  /** The next page arrives with a link and short of `n` rows: the loop goes
      on from a well-formed state one page longer, at a later call index,
      after the pause. */
  lemma {:induction false} FollowPageOn(s: Settings, net: Network, horizon: nat, call: nat, n: int,
                                        pages: seq<Page>, columns: seq<Json>, rows: seq<Row>,
                                        urls: seq<Json>, waits: seq<nat>, p: Page)
    requires LinksEnd(net, horizon) && |pages| > 0
    requires Last(pages).link.Link? && call <= horizon && |rows| < n
    requires FollowState(s, n, pages, columns, rows, urls)
    requires var st := FollowLink(s, net, call, Last(pages).link.target, columns == []); st.Stepped? && st.page == p
    requires |rows + p.data| < n && p.link.Link?
    ensures var st := FollowLink(s, net, call, Last(pages).link.target, columns == []);
            var pages' := pages + [p];
            && st.next <= horizon
            && FollowState(s, n, pages', Columns(pages'), AllRows(pages'), urls + [st.link])
            && Follow(s, net, horizon, call, Limit(n), pages, columns, rows, urls, waits)
                 == Follow(s, net, horizon, st.next, Limit(n), pages', Columns(pages'), AllRows(pages'),
                           urls + [st.link], waits + st.waits + [PAGE_PAUSE])
  {
    var st := FollowLink(s, net, call, Last(pages).link.target, columns == []);
    var pages', urls' := pages + [p], urls + [st.link];
    var cols := if columns == [] then p.columns else columns;
    var all := rows + p.data;
    AllRowsSnoc(pages, p);
    WalkedSnoc(s, n, pages, urls, p, st.link);
    assert cols == Columns(pages') && all == AllRows(pages');
    assert Follow(s, net, horizon, call, Limit(n), pages, columns, rows, urls, waits)
        == Follow(s, net, horizon, st.next, Limit(n), pages', cols, all, urls', waits + st.waits + [PAGE_PAUSE]);
  }

  lemma {:induction false} FollowFinishes(s: Settings, net: Network, horizon: nat, call: nat, n: int,
                                          pages: seq<Page>, columns: seq<Json>, rows: seq<Row>,
                                          urls: seq<Json>, waits: seq<nat>)
    requires LinksEnd(net, horizon) && |pages| > 0
    requires Last(pages).link.Link? ==> call <= horizon
    requires FollowState(s, n, pages, columns, rows, urls)
    ensures var r := Follow(s, net, horizon, call, Limit(n), pages, columns, rows, urls, waits);
            Finished(s, n, r)
    decreases if call <= horizon then horizon - call else 0
  {
    if Last(pages).link.NoLink? || |rows| >= n {
      FollowStops(s, net, horizon, call, n, pages, columns, rows, urls, waits);
    } else {
      var st := FollowLink(s, net, call, Last(pages).link.target, columns == []);
      if st.StepFailed? {
        FollowFails(s, net, horizon, call, n, pages, columns, rows, urls, waits);
      } else {
        var p := st.page;
        var pages' := pages + [p];
        if |rows + p.data| >= n {
          FollowPageCut(s, net, horizon, call, n, pages, columns, rows, urls, waits, p);
        } else if p.link.NoLink? {
          FollowPageLast(s, net, horizon, call, n, pages, columns, rows, urls, waits, p);
        } else {
          FollowPageOn(s, net, horizon, call, n, pages, columns, rows, urls, waits, p);
          FollowFinishes(s, net, horizon, st.next, n, pages', Columns(pages'), AllRows(pages'), urls + [st.link],
                         waits + st.waits + [PAGE_PAUSE]);
        }
      }
    }
  }

  /** The shape of every `execute_query` run on a SQL string with an integer
      cap. On success the rows are the pages' rows, cut to `n` only when more
      than one page was read (the submission's own rows are never cut); the
      columns are the first non-empty column list; the loop stopped at a page
      without a link or once `n` rows were gathered, and went on past a page
      only while fewer were. Every failure is the wrapped RuntimeError. */
  lemma ExecuteQueryShape(s: Settings, net: Network, horizon: nat, call: nat, sql: string, n: int)
    requires LinksEnd(net, horizon)
    ensures Finished(s, n, ExecuteQuerySpec(s, net, horizon, call, JStr(sql), Limit(n)))
  {
    var url := StatementUrl(s);
    var f := FetchPage(s, net, call, PostRequest(s, url, sql));
    if f.Fetched? && ReadPage(f.doc, true).Returned? {
      var p := ReadPage(f.doc, true).value;
      assert p.link.Link? ==> HasLink(net(f.next - 1, PostRequest(s, url, sql)));
      assert [p][..0] == [];
      assert AllRows([p]) == p.data && Columns([p]) == p.columns;
      FollowFinishes(s, net, horizon, f.next, n, [p], p.columns, p.data, [JStr(url)], f.waits);
    } else if f.Fetched? {
      var e := ReadPage(f.doc, true).exc;
      assert ExecuteQuerySpec(s, net, horizon, call, JStr(sql), Limit(n)).outcome == Raised(QueryFailure(Str(e)));
    } else {
      assert ExecuteQuerySpec(s, net, horizon, call, JStr(sql), Limit(n)).outcome == Raised(QueryFailure(f.error));
    }
  }

  /** Every failure of `execute_query`, whatever `sql` and `max_rows` are, is
      RuntimeError("Failed to execute query: " + text), with the server hint
      appended exactly when the text mentions "Connection refused". */
  lemma ExecuteQueryFailure(s: Settings, net: Network, horizon: nat, call: nat, sql: Json, cap: RowCap)
    requires LinksEnd(net, horizon)
    ensures var r := ExecuteQuerySpec(s, net, horizon, call, sql, cap);
            r.outcome.Raised? ==> exists m ::
              && r.outcome.exc == QueryFailure(m)
              && r.outcome.exc.kind == RuntimeError
              && r.outcome.exc.msg == QUERY_FAILED + m + (if Contains(m, CONNECTION_REFUSED) then CONNECTION_HINT else "")
  {
    var r := ExecuteQuerySpec(s, net, horizon, call, sql, cap);
    if sql.JStr? {
      match cap
      case Limit(n) =>
        ExecuteQueryShape(s, net, horizon, call, sql.s, n);
      case Incomparable(t) =>
        if r.outcome.Raised? {
          var f := FetchPage(s, net, call, PostRequest(s, StatementUrl(s), sql.s));
          if f.FetchFailed? {
            assert r.outcome.exc == QueryFailure(f.error);
          } else if ReadPage(f.doc, true).Raised? {
            assert r.outcome.exc == QueryFailure(Str(ReadPage(f.doc, true).exc));
          } else {
            assert r.outcome.exc == QueryFailure(CompareFailure(t));
          }
        }
    } else {
      assert r.outcome.exc == QueryFailure(EncodeFailure(TypeName(sql)));
    }
  }

  /** The rows returned are a prefix of all rows read, and the submission's
      own rows are a prefix of them: the first page is never truncated. */
  lemma ExecuteQueryRowsPrefix(s: Settings, net: Network, horizon: nat, call: nat, sql: string, n: int)
    requires LinksEnd(net, horizon)
    ensures var r := ExecuteQuerySpec(s, net, horizon, call, JStr(sql), Limit(n));
            r.outcome.Returned? ==>
              var rows := r.outcome.value.rows;
              && |r.pages| >= 1
              && rows <= AllRows(r.pages)
              && r.pages[0].data <= rows
  {
    var r := ExecuteQuerySpec(s, net, horizon, call, JStr(sql), Limit(n));
    ExecuteQueryShape(s, net, horizon, call, sql, n);
    if r.outcome.Returned? {
      var all := AllRows(r.pages);
      PagesPrefixRows(r.pages, 1);
      assert r.pages[..1] == [r.pages[0]];
      assert AllRows([r.pages[0]]) == r.pages[0].data by {
        assert [r.pages[0]][..0] == [];
      }
      if |r.pages| > 1 {
        assert |AllRows(r.pages[..1])| < n;
      }
    }
  }

  lemma {:induction false} PagesPrefixRows(pages: seq<Page>, k: nat)
    requires k <= |pages|
    ensures AllRows(pages[..k]) <= AllRows(pages)
    decreases |pages| - k
  {
    if k < |pages| {
      PagesPrefixRows(pages, k + 1);
      assert pages[..k + 1][..k] == pages[..k];
      assert AllRows(pages[..k + 1]) == AllRows(pages[..k]) + pages[k].data;
    } else {
      assert pages[..k] == pages;
    }
  }

  /** The row cap: when the submission returns at most `n` rows the result
      has at most `n`; when the cap is reached on a later page the result has
      exactly `n`; the result never has fewer rows than the submission. */
  lemma ExecuteQueryCap(s: Settings, net: Network, horizon: nat, call: nat, sql: string, n: int)
    requires LinksEnd(net, horizon)
    ensures var r := ExecuteQuerySpec(s, net, horizon, call, JStr(sql), Limit(n));
            r.outcome.Returned? ==>
              var rows := r.outcome.value.rows;
              && |r.pages| >= 1
              && (|r.pages[0].data| <= n ==> |rows| <= n)
              && (|r.pages| > 1 && |AllRows(r.pages)| >= n ==> |rows| == n)
              && |r.pages[0].data| <= |rows|
  {
    ExecuteQueryShape(s, net, horizon, call, sql, n);
    ExecuteQueryRowsPrefix(s, net, horizon, call, sql, n);
  }

  /** Number of pages that carry a continuation link. */
  function LinkCount(pages: seq<Page>): nat {
    if pages == [] then 0 else LinkCount(pages[..|pages| - 1]) + (if Last(pages).link.Link? then 1 else 0)
  }

  lemma {:induction false} TracedLinks(s: Settings, pages: seq<Page>, urls: seq<Json>)
    requires Traced(s, pages, urls)
    ensures |urls| - 1 <= LinkCount(pages)
    decreases |pages|
  {
    if |urls| > 1 {
      var ps := pages[..|pages| - 1];
      if |urls| == |pages| + 1 {
        assert Traced(s, ps, urls[..|urls| - 1]);
        TracedLinks(s, ps, urls[..|urls| - 1]);
        assert Last(pages).link == Link(Returned(urls[|urls| - 1]));
      } else {
        assert Traced(s, ps, urls);
        TracedLinks(s, ps, urls);
      }
    }
  }

  /** Termination measure: the GETs issued (all URLs after the statement
      URL) never outnumber the continuation links in the pages read. */
  lemma ExecuteQueryGetsBounded(s: Settings, net: Network, horizon: nat, call: nat, sql: string, n: int)
    requires LinksEnd(net, horizon)
    ensures var r := ExecuteQuerySpec(s, net, horizon, call, JStr(sql), Limit(n));
            |r.urls| - 1 <= LinkCount(r.pages)
  {
    var r := ExecuteQuerySpec(s, net, horizon, call, JStr(sql), Limit(n));
    ExecuteQueryShape(s, net, horizon, call, sql, n);
    if r.urls != [] {
      TracedLinks(s, r.pages, r.urls);
    }
  }

  /** `Columns` picks the first page whose column list is non-empty. */
  lemma {:induction false} ColumnsFirstNonEmpty(pages: seq<Page>)
    ensures var c := Columns(pages);
            && (c == [] <==> forall i :: 0 <= i < |pages| ==> pages[i].columns == [])
            && (c != [] ==> exists i :: 0 <= i < |pages| && c == pages[i].columns
                                        && forall j :: 0 <= j < i ==> pages[j].columns == [])
    decreases |pages|
  {
    if pages != [] {
      var ps := pages[..|pages| - 1];
      ColumnsFirstNonEmpty(ps);
      assert forall i :: 0 <= i < |ps| ==> ps[i] == pages[i];
    }
  }

  /** A later page's `columns` is never looked at once the loop has column
      names: reading it with names in hand gives no columns, whatever it
      holds, and fails only where the other tests fail. */
  lemma LaterColumnsIgnored(doc: Json, cols: Json)
    requires doc.JObj? && "columns" in doc.fields && doc.fields["columns"] == cols
    ensures ReadPage(doc, false).Returned? <==> ReadPage(doc.(fields := doc.fields - {"columns"}), false).Returned?
    ensures ReadPage(doc, false).Returned? ==>
              ReadPage(doc, false) == ReadPage(doc.(fields := doc.fields - {"columns"}), false)
  {
    var doc' := doc.(fields := doc.fields - {"columns"});
    assert Has(doc', "data") == Has(doc, "data") && Has(doc', "nextUri") == Has(doc, "nextUri");
    assert Subscript(doc', "data") == Subscript(doc, "data") && Subscript(doc', "nextUri") == Subscript(doc, "nextUri");
  }

  // ---------------------------------------------------------------------
  // The other operations, as specifications
  // ---------------------------------------------------------------------

  /** `row[0]` for one row: the first item of a list or character of a str,
      IndexError when there is none, KeyError(0) on a dict, TypeError on any
      other value. */
  function FirstCell(row: Row): (r: Outcome<Json>)
    ensures row.JArr? && row.items != [] ==> r == Returned(row.items[0])
    ensures r.Raised? ==> r.exc.kind in {IndexError, IntKeyError, TypeError}
    ensures r.Raised? <==> !((row.JArr? && row.items != []) || (row.JStr? && row.s != []))
  {
    match row
    case JArr(items) => if items == [] then Raised(Exception(IndexError, LIST_INDEX_RANGE)) else Returned(items[0])
    case JStr(t) => if t == [] then Raised(Exception(IndexError, STRING_INDEX_RANGE)) else Returned(JStr([t[0]]))
    case JObj(_) => Raised(Exception(IntKeyError, "0"))
    case _ => Raised(Exception(TypeError, "'" + TypeName(row) + NOT_SUBSCRIPTABLE))
  }

  /** `[row[0] for row in rows]`: the first cells in order, or the error of
      the first row that has none. */
  function FirstCells(rows: seq<Row>): (r: Outcome<seq<Json>>)
    ensures r.Returned? <==> forall i :: 0 <= i < |rows| ==> FirstCell(rows[i]).Returned?
    ensures r.Returned? ==> |r.value| == |rows| && forall i :: 0 <= i < |rows| ==> FirstCell(rows[i]) == Returned(r.value[i])
    ensures r.Raised? ==> r.exc.kind in {IndexError, IntKeyError, TypeError}
  {
    Each(rows, FirstCell)
  }

  datatype CallRun<T> = CallRun(outcome: Outcome<T>, next: nat, waits: seq<nat>)

  /** `list_catalogs()`: `SHOW CATALOGS` with the default cap of 100, then
      the first cell of every row; a failed query propagates its error. */
  function ListCatalogsSpec(s: Settings, net: Network, horizon: nat, call: nat): CallRun<seq<Json>>
    requires LinksEnd(net, horizon)
  {
    var q := ExecuteQuerySpec(s, net, horizon, call, JStr("SHOW CATALOGS"), Limit(100));
    match q.outcome
    case Raised(e) => CallRun(Raised(e), q.next, q.waits)
    case Returned(result) => CallRun(FirstCells(result.rows), q.next, q.waits)
  }

  /** The catalog list is, in order, the first cell of each returned row;
      rows that are non-empty lists give their first items. */
  lemma ListCatalogsProjects(s: Settings, net: Network, horizon: nat, call: nat)
    requires LinksEnd(net, horizon)
    ensures var q := ExecuteQuerySpec(s, net, horizon, call, JStr("SHOW CATALOGS"), Limit(100));
            var c := ListCatalogsSpec(s, net, horizon, call);
            && (q.outcome.Raised? ==> c.outcome == Raised(q.outcome.exc))
            && (c.outcome.Returned? ==>
                  && q.outcome.Returned?
                  && |c.outcome.value| == |q.outcome.value.rows|
                  && forall i :: 0 <= i < |c.outcome.value| ==>
                       FirstCell(q.outcome.value.rows[i]) == Returned(c.outcome.value[i]))
            && (q.outcome.Returned? && (forall i :: 0 <= i < |q.outcome.value.rows| ==>
                                          q.outcome.value.rows[i].JArr? && q.outcome.value.rows[i].items != [])
                ==> c.outcome.Returned?)
  {
  }

  /** `get_query_info(query_id)`: one GET on /v1/query/{id} through the retry
      loop; neither its failures nor a non-JSON body are wrapped. */
  function QueryInfoSpec(s: Settings, net: Network, call: nat, queryId: string): CallRun<Json> {
    var r := Retry(net, GetRequest(s, QueryInfoUrl(s, queryId)), s.retryAttempts, s.retryDelay, call);
    match r.outcome
    case Raised(e) => CallRun(Raised(e), r.next, r.waits)
    case Returned(NotJson(m)) => CallRun(Raised(Exception(RequestError, m)), r.next, r.waits)
    case Returned(JsonBody(v)) => CallRun(Returned(v), r.next, r.waits)
  }

  /** The info returned is the decoded body of the answer the last call got
      to a GET on /v1/query/{id}, and that answer was accepted; a body that
      is not JSON raises the decoder's error; a failed retry loop raises its
      own exception, unwrapped; calls and waits are the retry loop's. */
  lemma QueryInfoAnswer(s: Settings, net: Network, call: nat, queryId: string)
    ensures var req := GetRequest(s, QueryInfoUrl(s, queryId));
            var r := Retry(net, req, s.retryAttempts, s.retryDelay, call);
            var q := QueryInfoSpec(s, net, call, queryId);
            && q.next == r.next && q.waits == r.waits
            && (q.outcome.Returned? ==>
                  && call < q.next
                  && net(q.next - 1, req).Responds?
                  && net(q.next - 1, req).body == JsonBody(q.outcome.value)
                  && !(400 <= net(q.next - 1, req).status < 600))
            && (r.outcome.Raised? ==> q.outcome == Raised(r.outcome.exc))
            && (r.outcome.Returned? && r.outcome.value.NotJson? ==>
                  q.outcome == Raised(Exception(RequestError, r.outcome.value.error)))
  {
    var req := GetRequest(s, QueryInfoUrl(s, queryId));
    var r := Retry(net, req, s.retryAttempts, s.retryDelay, call);
    if r.outcome.Returned? {
      assert Judge(net(r.next - 1, req), req.url) == Accepted(r.outcome.value);
    }
  }

  /** `check_connection()`: whether `SELECT 1` runs without raising. */
  function CheckConnectionSpec(s: Settings, net: Network, horizon: nat, call: nat): bool
    requires LinksEnd(net, horizon)
  {
    ExecuteQuerySpec(s, net, horizon, call, JStr("SELECT 1"), Limit(100)).outcome.Returned?
  }

  /** The header-building part of `TrinoClient.__init__`. */
  method BuildHeaders(args: ClientArgs) returns (headers: map<string, string>)
    ensures headers == HeadersFor(args)
  {
    headers := args.httpHeaders["User-Agent" := USER_AGENT]["X-Trino-User" := args.user];
    if Given(args.catalog) {
      headers := headers["X-Trino-Catalog" := args.catalog.value];
    }
    if Given(args.schema) {
      headers := headers["X-Trino-Schema" := args.schema.value];
    }
    assert headers == HeadersBeforeSession(args);
    var i := 0;
    while i < |args.sessionProperties|
      invariant 0 <= i <= |args.sessionProperties|
      invariant headers == if i == 0 then HeadersBeforeSession(args)
                           else HeadersBeforeSession(args)["X-Trino-Session" := SessionValue(args.sessionProperties[i - 1])]
    {
      headers := headers["X-Trino-Session" := SessionValue(args.sessionProperties[i])];
      i := i + 1;
    }
  }

  // ---------------------------------------------------------------------
  // The client object
  // ---------------------------------------------------------------------

  class TrinoClient {
    var host: string
    var port: int
    var user: string
    var catalog: Option<string>
    var schema: Option<string>
    var sessionProperties: seq<(string, string)>
    var httpHeaders: map<string, string>
    var httpScheme: string
    var verify: bool
    var baseUrl: string
    var retryAttempts: int
    var retryDelay: nat

    /** The client is the one `TrinoClient(**args)` builds. */
    ghost predicate BuiltFrom(args: ClientArgs)
      reads this
    {
      && host == args.host && port == args.port && user == args.user
      && catalog == args.catalog && schema == args.schema
      && sessionProperties == args.sessionProperties
      && httpScheme == args.httpScheme && verify == args.verify
      && retryAttempts == args.retryAttempts && retryDelay == args.retryDelay
      && baseUrl == BaseUrl(args.httpScheme, args.host, args.port)
      && httpHeaders == HeadersFor(args)
    }

    function Config(): Settings
      reads this
    {
      Settings(baseUrl, httpHeaders, verify, retryAttempts, retryDelay)
    }

    constructor (args: ClientArgs)
      ensures BuiltFrom(args)
    {
      host := args.host;
      port := args.port;
      user := args.user;
      catalog := args.catalog;
      schema := args.schema;
      sessionProperties := args.sessionProperties;
      httpScheme := args.httpScheme;
      verify := args.verify;
      baseUrl := BaseUrl(args.httpScheme, args.host, args.port);
      retryAttempts := args.retryAttempts;
      retryDelay := args.retryDelay;
      var headers := BuildHeaders(args);
      httpHeaders := headers;
    }

    /** `_request_with_retry(method, url)`. */
    method RequestWithRetry(net: Network, call: nat, req: HttpRequest) returns (run: RetryRun)
      ensures run == Retry(net, req, retryAttempts, retryDelay, call)
    {
      var lastException: Option<Exception> := None;
      var waits: seq<nat> := [];
      var attempt: nat := 0;
      while attempt < retryAttempts
        invariant Retry(net, req, retryAttempts, retryDelay, call)
               == var rest := RetryFrom(net, req, retryAttempts, retryDelay, call + attempt, attempt, lastException);
                  rest.(waits := waits + rest.waits)
        decreases retryAttempts - attempt
      {
        match Judge(net(call + attempt, req), req.url)
        case Accepted(body) =>
          return RetryRun(Returned(body), call + attempt + 1, waits);
        case Fatal(e) =>
          return RetryRun(Raised(e), call + attempt + 1, waits);
        case Transient(e) =>
          lastException := Some(e);
          if attempt < retryAttempts - 1 {
            waits := waits + [Backoff(retryDelay, attempt)];
          }
          attempt := attempt + 1;
      }
      run := RetryRun(Raised(lastException.GetOr(RETRIES_EXHAUSTED)), call + attempt, waits);
    }

    /** A request through `_request_with_retry`, then `response.json()`;
        any failure is reduced to its text. */
    method FetchStatementPage(net: Network, call: nat, req: HttpRequest) returns (f: Fetch)
      ensures f == FetchPage(Config(), net, call, req)
    {
      var response := RequestWithRetry(net, call, req);
      match response.outcome
      case Raised(e) => f := FetchFailed(Str(e), response.next, response.waits);
      case Returned(NotJson(m)) => f := FetchFailed(m, response.next, response.waits);
      case Returned(JsonBody(doc)) => f := Fetched(doc, response.next, response.waits);
    }

    /** `_request_with_retry('get', link)` and `response.json()` on the
        value `nextUri` held. */
    method FetchContinuation(net: Network, call: nat, link: Json) returns (f: Fetch)
      ensures f == FetchLink(Config(), net, call, link)
    {
      if link.JStr? {
        f := FetchStatementPage(net, call, GetRequest(Config(), link.s));
      } else {
        var run := RequestWithRetry(Refusing(UNUSABLE_URL), call, GetRequest(Config(), ""));
        UnusableLinkRetried(Config(), net, call, link);
        f := FetchFailed(Str(run.outcome.exc), call, run.waits);
      }
    }

    /** `execute_query(sql, max_rows)`: submit the statement, then follow
        the continuation links. */
    method ExecuteQuery(net: Network, ghost horizon: nat, call: nat, sql: Json, maxRows: RowCap)
      returns (result: Outcome<QueryResult>, next: nat, waits: seq<nat>)
      requires LinksEnd(net, horizon)
      ensures var r := ExecuteQuerySpec(Config(), net, horizon, call, sql, maxRows);
              result == r.outcome && next == r.next && waits == r.waits
    {
      var s := Config();
      var queryUrl := baseUrl + "/v1/statement";
      if !sql.JStr? {
        return Raised(QueryFailure(EncodeFailure(TypeName(sql)))), call, [];
      }
      var f := FetchStatementPage(net, call, PostRequest(s, queryUrl, sql.s));
      if f.FetchFailed? {
        return Raised(QueryFailure(f.error)), f.next, f.waits;
      }
      var read := ReadPage(f.doc, true);
      if read.Raised? {
        return Raised(QueryFailure(Str(read.exc))), f.next, f.waits;
      }
      var queryResults := read.value;
      assert queryResults.link.Link? ==> HasLink(net(f.next - 1, PostRequest(s, queryUrl, sql.s)));
      result, next, waits := FollowLinks(net, horizon, f.next, maxRows, queryResults, [queryResults],
                                         queryResults.columns, queryResults.data, [JStr(queryUrl)], f.waits);
    }

    /** The `while` loop of `execute_query`, entered with the last page read
        and the columns and rows gathered so far. */
    method FollowLinks(net: Network, ghost horizon: nat, call: nat, maxRows: RowCap, last: Page,
                       ghost pages: seq<Page>, columns: seq<Json>, rows: seq<Row>,
                       ghost urls: seq<Json>, waits: seq<nat>)
      returns (result: Outcome<QueryResult>, next: nat, waits': seq<nat>)
      requires LinksEnd(net, horizon) && |pages| > 0 && last == Last(pages)
      requires last.link.Link? ==> call <= horizon
      ensures var r := Follow(Config(), net, horizon, call, maxRows, pages, columns, rows, urls, waits);
              result == r.outcome && next == r.next && waits' == r.waits
    {
      var s := Config();
      ghost var spec := Follow(s, net, horizon, call, maxRows, pages, columns, rows, urls, waits);
      var queryResults, columns, rows := last, columns, rows;
      ghost var pages, urls := pages, urls;
      next, waits' := call, waits;
      while queryResults.link.Link?
        invariant |pages| > 0 && queryResults == Last(pages)
        invariant queryResults.link.Link? ==> next <= horizon
        invariant spec == Follow(s, net, horizon, next, maxRows, pages, columns, rows, urls, waits')
        decreases if next <= horizon then horizon - next else 0
      {
        if maxRows.Incomparable? {
          return Raised(QueryFailure(CompareFailure(maxRows.typeName))), next, waits';
        }
        if |rows| >= maxRows.n {
          return Returned(QueryResult(columns, rows)), next, waits';
        }
        FollowFetchStep(s, net, horizon, next, maxRows.n, pages, columns, rows, urls, waits');
        var target := queryResults.link.target;
        if target.Raised? {
          return Raised(QueryFailure(Str(target.exc))), next, waits';
        }
        var f := FetchContinuation(net, next, target.value);
        if f.FetchFailed? {
          return Raised(QueryFailure(f.error)), f.next, waits' + f.waits;
        }
        var read := ReadPage(f.doc, columns == []);
        if read.Raised? {
          return Raised(QueryFailure(Str(read.exc))), f.next, waits' + f.waits;
        }
        queryResults := read.value;
        next, waits' := f.next, waits' + f.waits;
        pages, urls := pages + [queryResults], urls + [target.value];
        if columns == [] {
          columns := queryResults.columns;
        }
        rows := rows + queryResults.data;
        if |rows| >= maxRows.n {
          return Returned(QueryResult(columns, rows[..maxRows.n])), next, waits';
        }
        if queryResults.link.NoLink? {
          return Returned(QueryResult(columns, rows)), next, waits';
        }
        waits' := waits' + [PAGE_PAUSE];
      }
      result := Returned(QueryResult(columns, rows));
    }

    /** `list_catalogs()`. */
    method ListCatalogs(net: Network, ghost horizon: nat, call: nat)
      returns (names: Outcome<seq<Json>>, next: nat, waits: seq<nat>)
      requires LinksEnd(net, horizon)
      ensures CallRun(names, next, waits) == ListCatalogsSpec(Config(), net, horizon, call)
    {
      var result;
      result, next, waits := ExecuteQuery(net, horizon, call, JStr("SHOW CATALOGS"), Limit(100));
      if result.Raised? {
        return Raised(result.exc), next, waits;
      }
      names := FirstCells(result.value.rows);
    }

    /** `get_query_info(query_id)`. */
    method GetQueryInfo(net: Network, call: nat, queryId: string)
      returns (info: Outcome<Json>, next: nat, waits: seq<nat>)
      ensures CallRun(info, next, waits) == QueryInfoSpec(Config(), net, call, queryId)
    {
      var queryUrl := QueryInfoUrl(Config(), queryId);
      var response := RequestWithRetry(net, call, GetRequest(Config(), queryUrl));
      next, waits := response.next, response.waits;
      match response.outcome
      case Raised(e) => info := Raised(e);
      case Returned(NotJson(m)) => info := Raised(Exception(RequestError, m));
      case Returned(JsonBody(v)) => info := Returned(v);
    }

    /** `check_connection()`. */
    method CheckConnection(net: Network, ghost horizon: nat, call: nat)
      returns (ok: bool, next: nat, waits: seq<nat>)
      requires LinksEnd(net, horizon)
      ensures ok == CheckConnectionSpec(Config(), net, horizon, call)
      ensures var r := ExecuteQuerySpec(Config(), net, horizon, call, JStr("SELECT 1"), Limit(100));
              next == r.next && waits == r.waits
    {
      var result;
      result, next, waits := ExecuteQuery(net, horizon, call, JStr("SELECT 1"), Limit(100));
      ok := result.Returned?;
    }
  }

  /** The module-level `default_client`. */
  class ClientRegistry {
    var defaultClient: TrinoClient?

    constructor ()
      ensures defaultClient == null
    {
      defaultClient := null;
    }

    /** `get_client(**kwargs)`: builds a client only when there is none;
        otherwise returns the existing one and ignores the arguments. */
    method GetClient(args: ClientArgs) returns (c: TrinoClient)
      modifies this
      ensures old(defaultClient) != null ==> c == old(defaultClient)
      ensures old(defaultClient) == null ==> fresh(c) && c.BuiltFrom(args)
      ensures defaultClient == c
    {
      if defaultClient == null {
        defaultClient := new TrinoClient(args);
      }
      c := defaultClient;
    }

    /** `configure_client(**kwargs)`: always replaces the client. */
    method ConfigureClient(args: ClientArgs)
      modifies this
      ensures defaultClient != null && fresh(defaultClient) && defaultClient.BuiltFrom(args)
    {
      defaultClient := new TrinoClient(args);
    }
  }
}
