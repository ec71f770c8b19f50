/** Request authentication (app/auth.py): the `user:password` list read from
    the environment, the plain-text credential check, the hand-rolled bearer
    token decoder, and the mode table that picks between bearer and basic
    credentials. Base64, UTF-8, `json.loads`, HMAC-SHA256 under the server
    key and the clock are parameters. */
module Auth {
  import opened PyValues
  import opened PyStrings
  import Trino

  const UNAUTHORIZED: int := 401
  const INVALID_CREDENTIALS: string := "Invalid authentication credentials"
  /** The challenge `decode_jwt_token` sends. */
  const BEARER_CHALLENGE: string := "Bearer"
  /** The challenge `get_current_user` sends. */
  const REQUIRED_CHALLENGE: string := "Basic realm=\"MCP API\", Bearer"
  const ANONYMOUS: string := "anonymous"
  const TRINO_USER_HEADER: string := "X-Trino-User"

  /** A dependency's answer: a value, or the HTTPException it raises. */
  datatype AuthResult<+T> = Granted(value: T) | Denied(status: int, detail: string, challenge: string)

  // ---------------------------------------------------------------------
  // Configuration read at import time
  // ---------------------------------------------------------------------

  /** `AUTH_ENABLED`, `AUTH_MODE` and `BASIC_AUTH_USERS` after import. */
  datatype AuthConfig = AuthConfig(enabled: bool, mode: string, users: map<string, string>)

  function EnvGet(env: map<string, string>, key: string, default: string): string {
    if key in env then env[key] else default
  }

  /** One entry of the user list, trimmed and split on ':'. */
  function ParseEntry(entry: string): Option<(string, string)> {
    var parts := Split(Strip(entry), ':');
    if |parts| == 2 then Some((parts[0], parts[1])) else None
  }

  /** An entry names a user exactly when its trimmed text holds exactly one
      ':'; the user and password are then the colon-free text on either side
      of it. */
  lemma ParseEntryMeaning(entry: string)
    ensures ParseEntry(entry).Some? <==> Count(Strip(entry), ':') == 1
    ensures ParseEntry(entry).Some? ==>
              var r := ParseEntry(entry).value;
              ':' !in r.0 && ':' !in r.1 && Strip(entry) == r.0 + ":" + r.1
  {
    var parts := Split(Strip(entry), ':');
    SplitPieces(Strip(entry), ':');
    if |parts| == 2 {
      JoinSplit(Strip(entry), ':');
      assert parts == [parts[0], parts[1]];
      JoinTwo(parts[0], parts[1], ':');
    }
  }

  /** The dictionary the import-time loop leaves after `entries`. */
  function UsersOf(entries: seq<string>): map<string, string> {
    if entries == [] then map[]
    else
      var users := UsersOf(entries[..|entries| - 1]);
      var p := ParseEntry(entries[|entries| - 1]);
      if p.Some? then users[p.value.0 := p.value.1] else users
  }

  /** `BASIC_AUTH_USERS` for the variable's value `raw`. */
  function BasicAuthUsers(raw: string): map<string, string> {
    if raw != "" then UsersOf(Split(raw, ',')) else map[]
  }

  /** The import-time loop that fills `BASIC_AUTH_USERS`. */
  method LoadBasicAuthUsers(raw: string) returns (users: map<string, string>)
    ensures users == BasicAuthUsers(raw)
  {
    users := map[];
    if raw != "" {
      var entries := Split(raw, ',');
      for i := 0 to |entries|
        invariant users == UsersOf(entries[..i])
      {
        UsersOfStep(entries, i);
        var parts := Split(Strip(entries[i]), ':');
        if |parts| == 2 {
          users := users[parts[0] := parts[1]];
        }
      }
      assert entries[..|entries|] == entries;
    }
  }

  /** One more entry updates the dictionary as the loop body does. */
  lemma UsersOfStep(entries: seq<string>, i: int)
    requires 0 <= i < |entries|
    ensures var parts := Split(Strip(entries[i]), ':');
            UsersOf(entries[..i + 1]) ==
              if |parts| == 2 then UsersOf(entries[..i])[parts[0] := parts[1]] else UsersOf(entries[..i])
  {
    var prefix := entries[..i + 1];
    assert prefix[..|prefix| - 1] == entries[..i];
    assert prefix[|prefix| - 1] == entries[i];
    var p := ParseEntry(entries[i]);
    assert UsersOf(prefix) == if p.Some? then UsersOf(entries[..i])[p.value.0 := p.value.1] else UsersOf(entries[..i]);
  }

  /** The module's configuration for the environment `env`. */
  function ConfigFrom(env: map<string, string>): AuthConfig {
    AuthConfig(Lower(EnvGet(env, "AUTH_ENABLED", "false")) == "true",
               Lower(EnvGet(env, "AUTH_MODE", "none")),
               BasicAuthUsers(EnvGet(env, "BASIC_AUTH_USERS", "")))
  }

  predicate Names(entry: string, name: string) {
    ParseEntry(entry).Some? && ParseEntry(entry).value.0 == name
  }

  /** The index of the last entry naming `name`, or -1 when none does. */
  function LastIndex(entries: seq<string>, name: string): (i: int)
    ensures -1 <= i < |entries|
    ensures i >= 0 ==> Names(entries[i], name)
    ensures forall j :: i < j < |entries| ==> !Names(entries[j], name)
  {
    if entries == [] then -1
    else if Names(entries[|entries| - 1], name) then |entries| - 1
    else
      var i := LastIndex(entries[..|entries| - 1], name);
      assert forall j :: 0 <= j < |entries| - 1 ==> entries[..|entries| - 1][j] == entries[j];
      i
  }

  /** A name is a user exactly when some entry names it, and its password is
      the one in the last entry naming it. */
  lemma {:induction false} UsersLastWins(entries: seq<string>, name: string)
    ensures name in UsersOf(entries) <==> LastIndex(entries, name) >= 0
    ensures name in UsersOf(entries) ==>
              UsersOf(entries)[name] == ParseEntry(entries[LastIndex(entries, name)]).value.1
    decreases |entries|
  {
    if entries != [] {
      var n := |entries| - 1;
      var init := entries[..n];
      UsersLastWins(init, name);
      var p := ParseEntry(entries[n]);
      assert UsersOf(entries) == if p.Some? then UsersOf(init)[p.value.0 := p.value.1] else UsersOf(init);
      var k := LastIndex(init, name);
      assert LastIndex(entries, name) == if Names(entries[n], name) then n else k;
      if !Names(entries[n], name) && k >= 0 {
        assert entries[k] == init[k];
      }
    }
  }

  /** The `if BASIC_AUTH_USERS_STR:` guard changes nothing: the empty string
      splits into one empty entry, which names nobody. */
  lemma EmptyGuardRedundant(raw: string)
    ensures BasicAuthUsers(raw) == UsersOf(Split(raw, ','))
    ensures BasicAuthUsers("") == map[]
  {
    if raw == "" {
      assert Split("", ',') == [""];
      assert Strip("") == "";
      assert Split("", ':') == [""];
      assert UsersOf([""]) == UsersOf([""][..0]);
    }
  }

  /** An entry `name:password` with nothing around it names `name`. */
  lemma EntryNamesUser(name: string, password: string)
    requires ':' !in name && ':' !in password
    requires name != [] ==> !IsSpace(name[0])
    requires password != [] ==> !IsSpace(password[|password| - 1])
    ensures ParseEntry(name + ":" + password) == Some((name, password))
  {
    var e := name + ":" + password;
    assert e[0] == if name == [] then ':' else name[0];
    assert e[|e| - 1] == if password == [] then ':' else password[|password| - 1];
    StripUnchanged(e);
    SplitTwo(name, password, ':');
    var parts := Split(Strip(e), ':');
    assert parts == [name, password];
    assert |parts| == 2;
  }

  // ---------------------------------------------------------------------
  // Passwords
  // ---------------------------------------------------------------------

  /** `verify_password`: plain comparison. */
  function VerifyPassword(plain: string, hashed: string): bool {
    plain == hashed
  }

  /** `get_password_hash`: the password itself. */
  function GetPasswordHash(password: string): string {
    password
  }

  /** A password verifies against the stored form of exactly itself. */
  lemma HashRoundTrip(plain: string, stored: string)
    ensures VerifyPassword(plain, GetPasswordHash(stored)) <==> plain == stored
  {
  }

  /** `authenticate_user` against the dictionary `users`. */
  function AuthenticateUser(users: map<string, string>, username: string, password: string): bool {
    if username !in users then false
    else VerifyPassword(password, users[username])
  }

  /** With the users read from `raw`, a pair is accepted exactly when the last
      list entry naming the user carries that password. */
  lemma AuthenticateAgainstList(raw: string, username: string, password: string)
    ensures var entries := Split(raw, ',');
            var i := LastIndex(entries, username);
            AuthenticateUser(BasicAuthUsers(raw), username, password) <==>
              i >= 0 && ParseEntry(entries[i]).value.1 == password
  {
    EmptyGuardRedundant(raw);
    UsersLastWins(Split(raw, ','), username);
  }

  // ---------------------------------------------------------------------
  // Bearer tokens
  // ---------------------------------------------------------------------

  /** The primitives the decoder calls: urlsafe base64 decoding (None when
      it raises), UTF-8 decoding (None when it raises), `json.loads` (None
      when it raises) and HMAC-SHA256 of a message under the server key. */
  datatype JwtPrimitives = JwtPrimitives(
    b64decode: string -> Option<seq<bv8>>,
    utf8: seq<bv8> -> Option<string>,
    loads: string -> Option<Json>,
    sign: string -> seq<bv8>)

  /** The claims of a valid token. */
  datatype TokenData = TokenData(username: string, scopes: seq<string>, exp: Option<int>)

  /** The step of `decode_jwt_token`'s `try` block that raised. */
  datatype JwtFailure =
    | Segments          // the unpacking of `token.split(".")`
    | PayloadEncoding   // base64 or UTF-8 decoding of the payload
    | PayloadJson       // `json.loads`
    | NotAnObject       // `payload.get` on a non-dict
    | Expired           // the inner "Token has expired"
    | ExpiryType        // `exp < time.time()` on a non-number
    | MissingSubject    // the inner check on `sub`
    | SignatureEncoding // base64 decoding of the signature
    | BadSignature      // the inner "Invalid token signature"
    | InvalidClaims     // `TokenData(...)` validation

  datatype JwtStep = Token(data: TokenData) | Failed(at: JwtFailure)

  /** `s + "=" * (-len(s) % 4)`. */
  function Pad(s: string): (p: string)
    ensures |s| <= |p| < |s| + 4 && |p| % 4 == 0 && p[..|s|] == s
    ensures forall i :: |s| <= i < |p| ==> p[i] == '='
  {
    s + seq((-|s|) % 4, _ => '=')
  }

  /** The payload segment decoded to a JSON value. */
  function PayloadOf(segment: string, prim: JwtPrimitives): Option<Json> {
    var bytes := prim.b64decode(Pad(segment));
    if bytes.None? then None
    else
      var text := prim.utf8(bytes.value);
      if text.None? then None else prim.loads(text.value)
  }

  datatype Expiry = Live | Lapsed | Incomparable

  /** `exp and exp < time.time()`, with `now` the current time in seconds. */
  function ExpiryOf(exp: Json, now: real): (e: Expiry)
    ensures e == Lapsed ==> Truthy(exp) && (exp.JInt? || exp.JBool?)
    ensures exp.JInt? && exp.i != 0 ==> (e == Lapsed <==> (exp.i as real) < now)
    ensures !Truthy(exp) ==> e == Live
  {
    if !Truthy(exp) then Live
    else
      match exp
      case JBool(_) => if 1.0 < now then Lapsed else Live
      case JInt(i) => if (i as real) < now then Lapsed else Live
      case _ => Incomparable
  }

  predicate IsStrings(items: seq<Json>) {
    forall i :: 0 <= i < |items| ==> items[i].JStr?
  }

  /** `TokenData(username=sub, scopes=scopes, exp=exp)` under pydantic's lax
      mode: a string user, a list of strings, an optional int (a bool
      counting as 0 or 1). This is exact for the values that can reach the
      constructor in `JwtBody`. Pydantic would also turn a numeric string
      `exp` such as "5" into an int, but a non-empty string `exp` has already
      raised at the expiry comparison, and "" is no int, so no string `exp`
      is ever accepted there. */
  function TokenDataOf(sub: Json, scopes: Json, exp: Json): (r: Option<TokenData>)
    ensures r.Some? <==> sub.JStr? && scopes.JArr? && IsStrings(scopes.items)
                         && (exp.JNull? || exp.JInt? || exp.JBool?)
    ensures r.Some? ==> r.value.username == sub.s && |r.value.scopes| == |scopes.items|
                        && (forall i :: 0 <= i < |scopes.items| ==> scopes.items[i] == JStr(r.value.scopes[i]))
                        && (r.value.exp.None? <==> exp.JNull?)
                        && (exp.JInt? ==> r.value.exp == Some(exp.i))
  {
    if !sub.JStr? || !scopes.JArr? || !IsStrings(scopes.items) then None
    else if !(exp.JNull? || exp.JInt? || exp.JBool?) then None
    else
      var names := seq(|scopes.items|, i requires 0 <= i < |scopes.items| => scopes.items[i].s);
      var e := match exp
               case JInt(i) => Some(i)
               case JBool(b) => Some(if b then 1 else 0)
               case _ => None;
      Some(TokenData(sub.s, names, e))
  }

  /** The body of the `try` block in `decode_jwt_token`. */
  function JwtBody(token: string, prim: JwtPrimitives, now: real): JwtStep {
    var parts := Split(token, '.');
    if |parts| != 3 then Failed(Segments)
    else
      var bytes := prim.b64decode(Pad(parts[1]));
      if bytes.None? || prim.utf8(bytes.value).None? then Failed(PayloadEncoding)
      else if PayloadOf(parts[1], prim).None? then Failed(PayloadJson)
      else if !PayloadOf(parts[1], prim).value.JObj? then Failed(NotAnObject)
      else
        var claims := PayloadOf(parts[1], prim).value.fields;
        var exp := Get(claims, "exp", JNull);
        var sub := Get(claims, "sub", JNull);
        var scopes := Get(claims, "scopes", JArr([]));
        if ExpiryOf(exp, now) == Lapsed then Failed(Expired)
        else if ExpiryOf(exp, now) == Incomparable then Failed(ExpiryType)
        else if sub.JNull? then Failed(MissingSubject)
        else
          var actual := prim.b64decode(Pad(parts[2]));
          if actual.None? then Failed(SignatureEncoding)
          else if prim.sign(parts[0] + "." + parts[1]) != actual.value then Failed(BadSignature)
          else
            var data := TokenDataOf(sub, scopes, exp);
            if data.None? then Failed(InvalidClaims) else Token(data.value)
  }

  /** `decode_jwt_token`: the outer `except Exception` turns every failure,
      the inner HTTPExceptions included, into the same 401. */
  function DecodeJwtToken(token: string, prim: JwtPrimitives, now: real): AuthResult<TokenData> {
    match JwtBody(token, prim, now)
    case Token(data) => Granted(data)
    case Failed(_) => Denied(UNAUTHORIZED, INVALID_CREDENTIALS, BEARER_CHALLENGE)
  }

  /** Whatever step fails, expiry and signature included, the caller sees
      one and the same 401 with a Bearer challenge. */
  lemma DecodeDeniesUniformly(token: string, prim: JwtPrimitives, now: real)
    ensures var r := DecodeJwtToken(token, prim, now);
            r.Denied? <==> JwtBody(token, prim, now).Failed?
    ensures var r := DecodeJwtToken(token, prim, now);
            r.Denied? ==> r == Denied(401, "Invalid authentication credentials", "Bearer")
  {
  }

  /** An accepted token has exactly three segments, its signature segment
      decodes to the HMAC of the first two joined by '.', its payload is an
      object whose `sub` is the user, and its expiry is unset, zero or not
      yet past. */
  lemma DecodeAcceptsOnlyValid(token: string, prim: JwtPrimitives, now: real)
    ensures var r := DecodeJwtToken(token, prim, now);
            r.Granted? ==>
              var parts := Split(token, '.');
              && Count(token, '.') == 2
              && prim.b64decode(Pad(parts[2])) == Some(prim.sign(parts[0] + "." + parts[1]))
              && PayloadOf(parts[1], prim).Some? && PayloadOf(parts[1], prim).value.JObj?
              && "sub" in PayloadOf(parts[1], prim).value.fields
              && PayloadOf(parts[1], prim).value.fields["sub"] == JStr(r.value.username)
              && (r.value.exp.None? || r.value.exp.value == 0 || (r.value.exp.value as real) >= now)
    ensures var r := DecodeJwtToken(token, prim, now);
            r.Granted? ==>
              var claims := PayloadOf(Split(token, '.')[1], prim).value.fields;
              var data := TokenDataOf(Get(claims, "sub", JNull), Get(claims, "scopes", JArr([])), Get(claims, "exp", JNull));
              data.Some? && r.value == data.value
  {
    var r := DecodeJwtToken(token, prim, now);
    if r.Granted? {
      SplitPieces(token, '.');
      var parts := Split(token, '.');
      var claims := PayloadOf(parts[1], prim).value.fields;
      var exp := Get(claims, "exp", JNull);
      assert TokenDataOf(Get(claims, "sub", JNull), Get(claims, "scopes", JArr([])), exp) == Some(r.value);
      if exp.JBool? {
        assert exp.b ==> 1.0 >= now;
      }
    }
  }

  /** A token assembled from three dot-free segments whose signature is the
      HMAC of the first two, and whose payload is an object with valid claims
      (a string `sub`, `scopes` absent or a list of strings, `exp` absent,
      null or an int) and an expiry not yet past, is accepted with exactly
      the claims its payload carries. */
  lemma DecodeAcceptsSigned(header: string, payload: string, signature: string,
                            claims: map<string, Json>, prim: JwtPrimitives, now: real)
    requires '.' !in header && '.' !in payload && '.' !in signature
    requires PayloadOf(payload, prim) == Some(JObj(claims))
    requires TokenDataOf(Get(claims, "sub", JNull), Get(claims, "scopes", JArr([])), Get(claims, "exp", JNull)).Some?
    requires ExpiryOf(Get(claims, "exp", JNull), now) == Live
    requires prim.b64decode(Pad(signature)) == Some(prim.sign(header + "." + payload))
    ensures DecodeJwtToken(header + "." + payload + "." + signature, prim, now)
              == Granted(TokenDataOf(Get(claims, "sub", JNull), Get(claims, "scopes", JArr([])),
                                     Get(claims, "exp", JNull)).value)
  {
    JoinThree(header, payload, signature, '.');
    SplitJoin([header, payload, signature], '.');
  }

  /** In particular a payload holding only a string `sub` is accepted for
      that user with no scopes and no expiry. */
  lemma DecodeAcceptsSubjectOnly(header: string, payload: string, signature: string, user: string,
                                 prim: JwtPrimitives, now: real)
    requires '.' !in header && '.' !in payload && '.' !in signature
    requires PayloadOf(payload, prim) == Some(JObj(map["sub" := JStr(user)]))
    requires prim.b64decode(Pad(signature)) == Some(prim.sign(header + "." + payload))
    ensures DecodeJwtToken(header + "." + payload + "." + signature, prim, now)
              == Granted(TokenData(user, [], None))
  {
    assert IsStrings([]);
    DecodeAcceptsSigned(header, payload, signature, map["sub" := JStr(user)], prim, now);
  }

  /** A token whose signature segment does not decode to the HMAC of its
      first two segments is refused, whatever its payload says. */
  lemma DecodeRejectsForgery(header: string, payload: string, signature: string,
                             prim: JwtPrimitives, now: real)
    requires '.' !in header && '.' !in payload && '.' !in signature
    requires prim.b64decode(Pad(signature)) != Some(prim.sign(header + "." + payload))
    ensures DecodeJwtToken(header + "." + payload + "." + signature, prim, now).Denied?
  {
    var token := header + "." + payload + "." + signature;
    JoinThree(header, payload, signature, '.');
    SplitJoin([header, payload, signature], '.');
  }

  /** A token whose integer `exp` is already past is refused, even when
      correctly signed. */
  lemma DecodeRejectsExpired(token: string, prim: JwtPrimitives, now: real)
    requires |Split(token, '.')| == 3
    requires var p := PayloadOf(Split(token, '.')[1], prim);
             p.Some? && p.value.JObj? && "exp" in p.value.fields && p.value.fields["exp"].JInt?
             && p.value.fields["exp"].i != 0 && (p.value.fields["exp"].i as real) < now
    ensures DecodeJwtToken(token, prim, now).Denied?
  {
    var parts := Split(token, '.');
    assert prim.b64decode(Pad(parts[1])).Some?;
  }

  // ---------------------------------------------------------------------
  // The dependencies
  // ---------------------------------------------------------------------

  datatype BasicCredentials = BasicCredentials(username: string, password: string)

  predicate TriesBearer(mode: string) { mode == "bearer" || mode == "all" }
  predicate TriesBasic(mode: string) { mode == "basic" || mode == "all" }

  /** The user a presented bearer token stands for, when the mode tries it. */
  function BearerUser(cfg: AuthConfig, bearer: Option<string>, prim: JwtPrimitives, now: real): Option<string> {
    if TriesBearer(cfg.mode) && bearer.Some? then
      match DecodeJwtToken(bearer.value, prim, now)
      case Granted(data) => Some(data.username)
      case Denied(_, _, _) => None
    else None
  }

  /** `get_current_user_optional`; the API key is accepted and never used. */
  function GetCurrentUserOptional(cfg: AuthConfig, basic: Option<BasicCredentials>, bearer: Option<string>,
                                  prim: JwtPrimitives, now: real): Option<string>
  {
    if !cfg.enabled then None
    else if cfg.mode == "none" then None
    else if BearerUser(cfg, bearer, prim, now).Some? then BearerUser(cfg, bearer, prim, now)
    else if TriesBasic(cfg.mode) && basic.Some?
            && AuthenticateUser(cfg.users, basic.value.username, basic.value.password) then
      Some(basic.value.username)
    else None
  }

  /** No user is resolved when authentication is off, or when the mode is
      none of "bearer", "basic" and "all" (so "none" and "jwt" alike). */
  lemma OptionalOff(cfg: AuthConfig, basic: Option<BasicCredentials>, bearer: Option<string>,
                    prim: JwtPrimitives, now: real)
    requires !cfg.enabled || (cfg.mode != "bearer" && cfg.mode != "basic" && cfg.mode != "all")
    ensures GetCurrentUserOptional(cfg, basic, bearer, prim, now) == None
  {
  }

  /** A resolved user comes from an accepted bearer token in mode "bearer" or
      "all", or else from valid basic credentials in mode "basic" or "all";
      a valid token wins over basic credentials, and a refused or absent
      token falls through to them. */
  lemma OptionalDecision(cfg: AuthConfig, basic: Option<BasicCredentials>, bearer: Option<string>,
                         prim: JwtPrimitives, now: real)
    requires cfg.enabled
    ensures var r := GetCurrentUserOptional(cfg, basic, bearer, prim, now);
            var viaBearer := TriesBearer(cfg.mode) && bearer.Some?
                             && DecodeJwtToken(bearer.value, prim, now).Granted?;
            var viaBasic := TriesBasic(cfg.mode) && basic.Some?
                            && AuthenticateUser(cfg.users, basic.value.username, basic.value.password);
            && (r.Some? <==> viaBearer || viaBasic)
            && (viaBearer ==> r == Some(DecodeJwtToken(bearer.value, prim, now).value.username))
            && (!viaBearer && viaBasic ==> r == Some(basic.value.username))
  {
  }

  /** `get_current_user`. */
  function GetCurrentUser(cfg: AuthConfig, basic: Option<BasicCredentials>, bearer: Option<string>,
                          prim: JwtPrimitives, now: real): AuthResult<string>
  {
    if !cfg.enabled then Granted(ANONYMOUS)
    else
      var user := GetCurrentUserOptional(cfg, basic, bearer, prim, now);
      if user.Some? && user.value != "" then Granted(user.value)
      else Denied(UNAUTHORIZED, INVALID_CREDENTIALS, REQUIRED_CHALLENGE)
  }

  /** The required dependency lets everyone in as "anonymous" when
      authentication is off; otherwise it admits exactly the non-empty user
      the optional dependency resolves and refuses the rest with a 401
      offering both schemes. An empty user name is never admitted. */
  lemma CurrentUserDecision(cfg: AuthConfig, basic: Option<BasicCredentials>, bearer: Option<string>,
                            prim: JwtPrimitives, now: real)
    ensures var r := GetCurrentUser(cfg, basic, bearer, prim, now);
            var o := GetCurrentUserOptional(cfg, basic, bearer, prim, now);
            && (!cfg.enabled ==> r == Granted("anonymous"))
            && (cfg.enabled ==> (r.Granted? <==> o.Some? && o.value != ""))
            && (cfg.enabled && r.Granted? ==> Some(r.value) == o)
            && (r.Denied? ==> r == Denied(401, "Invalid authentication credentials",
                                         "Basic realm=\"MCP API\", Bearer"))
            && (r.Granted? ==> r.value != "")
  {
  }

  /** With no environment at all, authentication is off and every request
      runs as "anonymous". */
  lemma DefaultsAdmitAnonymous(basic: Option<BasicCredentials>, bearer: Option<string>,
                               prim: JwtPrimitives, now: real)
    ensures ConfigFrom(map[]) == AuthConfig(false, "none", map[])
    ensures GetCurrentUser(ConfigFrom(map[]), basic, bearer, prim, now) == Granted("anonymous")
  {
    assert Lower("false") == "false";
    assert Lower("none") == "none";
  }

  /** `get_trino_auth_headers`. */
  function GetTrinoAuthHeaders(username: string): (h: map<string, string>)
    ensures h.Keys == {"X-Trino-User"} && h["X-Trino-User"] == username
  {
    map[TRINO_USER_HEADER := username]
  }

  /** Handing these headers to a client does not change whom it acts as: the
      client's constructor writes its own user over X-Trino-User. */
  lemma AuthHeadersOverridden(args: Trino.ClientArgs, username: string)
    requires args.httpHeaders == GetTrinoAuthHeaders(username)
    ensures Trino.HeadersFor(args)["X-Trino-User"] == args.user
    ensures username != args.user ==> Trino.HeadersFor(args)["X-Trino-User"] != username
  {
  }
}
