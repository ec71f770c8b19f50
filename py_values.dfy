/** Python-level values shared by every module of the gateway model: JSON
    documents as the gateway sees them after decoding, optional values,
    exceptions with their kind and text, and the outcome of a call that
    either returns or raises. */
module PyValues {

  datatype Option<+T> = None | Some(value: T) {
    function GetOr(default: T): T {
      match this
      case Some(v) => v
      case None => default
    }
  }

  /** A decoded JSON document (floats are not modelled). */
  datatype Json =
    | JNull
    | JBool(b: bool)
    | JInt(i: int)
    | JStr(s: string)
    | JArr(items: seq<Json>)
    | JObj(fields: map<string, Json>)

  /** `d.get(key, default)` on a dictionary. */
  function Get(d: map<string, Json>, key: string, default: Json): (v: Json)
    ensures key in d ==> v == d[key]
    ensures key !in d ==> v == default
  {
    if key in d then d[key] else default
  }

  /** Python truthiness of a JSON value: None, False, 0 and empty containers are false. */
  predicate Truthy(v: Json) {
    match v
    case JNull => false
    case JBool(b) => b
    case JInt(i) => i != 0
    case JStr(s) => s != ""
    case JArr(items) => items != []
    case JObj(fields) => fields != map[]
  }

  /** `type(v).__name__` for a decoded JSON value. */
  function TypeName(v: Json): string {
    match v
    case JNull => "NoneType"
    case JBool(_) => "bool"
    case JInt(_) => "int"
    case JStr(_) => "str"
    case JArr(_) => "list"
    case JObj(_) => "dict"
  }

  /** The exception classes the gateway raises or catches. `RequestError` is
      `requests.RequestException` and its subclasses other than `HTTPError`;
      `OSConnectionError` is the builtin `ConnectionError`. `KeyError` is a
      KeyError whose key is a str, `IntKeyError` one whose key is an int. */
  datatype ExcKind =
    | RuntimeError
    | ValueError
    | KeyError
    | IntKeyError
    | IndexError
    | TypeError
    | AttributeError
    | HTTPError
    | RequestError
    | OSConnectionError
    | OtherError(name: string)

  /** An exception object: its class and the argument it was built with. */
  datatype Exception = Exception(kind: ExcKind, msg: string)

  /** `str(e)`: a KeyError prints the repr of its key (the message holds the
      key: a str, or an int's decimal text); every other class prints its
      message. */
  function Str(e: Exception): (s: string)
    ensures e.kind != KeyError ==> s == e.msg
    ensures e.kind == KeyError ==> s == PyRepr(e.msg)
  {
    if e.kind == KeyError then PyRepr(e.msg) else e.msg
  }

  // ---------------------------------------------------------------------
  // repr() of a str
  // ---------------------------------------------------------------------

  /** The characters `repr` shows as they are (`str.isprintable`): not the
      controls, not the separators other than the space, not the format,
      surrogate and private-use characters. Exact for U+0000 to U+00FF and
      for the blocks listed; see README for the rest. */
  predicate Printable(c: char) {
    var n := c as int;
    !(|| n < 0x20 || 0x7f <= n <= 0xa0 || n == 0xad
      || 0x600 <= n <= 0x605 || n == 0x61c || n == 0x6dd || n == 0x70f || n == 0x1680 || n == 0x180e
      || 0x2000 <= n <= 0x200f || 0x2028 <= n <= 0x202f || 0x205f <= n <= 0x206f || n == 0x3000
      || 0xd800 <= n <= 0xf8ff || n == 0xfeff || 0xfff9 <= n <= 0xfffb || 0xfffe <= n <= 0xffff
      || n == 0xe0001 || 0xe0020 <= n <= 0xe007f || n >= 0xf0000)
  }

  function HexDigit(d: nat): char
    requires d < 16
  {
    if d < 10 then (48 + d) as char else (87 + d) as char
  }

  /** `n` in `width` lower-case hexadecimal digits, most significant first. */
  function Hex(n: nat, width: nat): (h: string)
    ensures |h| == width
  {
    if width == 0 then [] else Hex(n / 16, width - 1) + [HexDigit(n % 16)]
  }

  /** The escape `repr` writes for one character inside quotes `quote`. */
  function Escape(c: char, quote: char): string {
    if c == quote || c == '\\' then ['\\', c]
    else if c == '\t' then "\\t"
    else if c == '\n' then "\\n"
    else if c == '\r' then "\\r"
    else if Printable(c) then [c]
    else if c as int <= 0xff then "\\x" + Hex(c as int, 2)
    else if c as int <= 0xffff then "\\u" + Hex(c as int, 4)
    else "\\U" + Hex(c as int, 8)
  }

  function Escapes(s: string, quote: char): string {
    if s == [] then [] else Escape(s[0], quote) + Escapes(s[1..], quote)
  }

  /** `repr` quotes with `"` when the text holds `'` and no `"`, else with `'`. */
  function QuoteFor(s: string): char {
    if '\'' in s && '"' !in s then '"' else '\''
  }

  /** `repr(s)` for a str. */
  function PyRepr(s: string): (r: string)
    ensures |r| >= 2 && r[0] == QuoteFor(s) && r[|r| - 1] == QuoteFor(s)
  {
    [QuoteFor(s)] + Escapes(s, QuoteFor(s)) + [QuoteFor(s)]
  }

  // Reading a repr back, as Python reads a string literal.

  function HexValue(c: char): Option<nat> {
    if '0' <= c <= '9' then Some(c as int - 48)
    else if 'a' <= c <= 'f' then Some(c as int - 87)
    else if 'A' <= c <= 'F' then Some(c as int - 55)
    else None
  }

  function ParseHex(h: string): Option<nat> {
    if h == [] then Some(0)
    else
      match (ParseHex(h[..|h| - 1]), HexValue(h[|h| - 1]))
      case (Some(hi), Some(lo)) => Some(16 * hi + lo)
      case _ => None
  }

  /** The character with code point `v`, if there is one. */
  function CodePoint(h: string): Option<char> {
    match ParseHex(h)
    case Some(v) => if v < 0xd800 || 0xe000 <= v < 0x11_0000 then Some(v as char) else None
    case None => None
  }

  function Prepend(c: char, o: Option<string>): Option<string> {
    match o
    case Some(t) => Some([c] + t)
    case None => None
  }

  /** The text between the quotes of a literal quoted with `quote`: `\\`,
      `\'`, `\"`, `\t`, `\n`, `\r`, `\xhh`, `\uhhhh` and `\Uhhhhhhhh` are
      escapes, and the quote itself may not appear bare. */
  function Unescape(t: string, quote: char): Option<string>
    decreases |t|
  {
    if t == [] then Some([])
    else if t[0] == quote then None
    else if t[0] != '\\' then Prepend(t[0], Unescape(t[1..], quote))
    else if |t| < 2 then None
    else
      var k := t[1];
      if k == '\\' || k == '\'' || k == '"' then Prepend(k, Unescape(t[2..], quote))
      else if k == 't' then Prepend('\t', Unescape(t[2..], quote))
      else if k == 'n' then Prepend('\n', Unescape(t[2..], quote))
      else if k == 'r' then Prepend('\r', Unescape(t[2..], quote))
      else if k == 'x' || k == 'u' || k == 'U' then
        var w := if k == 'x' then 2 else if k == 'u' then 4 else 8;
        if |t| < 2 + w then None
        else
          match CodePoint(t[2..2 + w])
          case Some(c) => Prepend(c, Unescape(t[2 + w..], quote))
          case None => None
      else None
  }

  /** The str a quoted literal denotes. */
  function Unrepr(t: string): Option<string> {
    if |t| >= 2 && (t[0] == '\'' || t[0] == '"') && t[|t| - 1] == t[0] then Unescape(t[1..|t| - 1], t[0])
    else None
  }

  function Pow16(w: nat): nat {
    if w == 0 then 1 else 16 * Pow16(w - 1)
  }

  lemma {:induction false} ParseHexOf(n: nat, width: nat)
    requires n < Pow16(width)
    ensures ParseHex(Hex(n, width)) == Some(n)
  {
    if width > 0 {
      var h := Hex(n, width);
      assert h[..|h| - 1] == Hex(n / 16, width - 1);
      assert n / 16 < Pow16(width - 1);
      ParseHexOf(n / 16, width - 1);
      assert HexValue(HexDigit(n % 16)) == Some(n % 16);
    }
  }

  lemma HexEscapeStep(c: char, quote: char, rest: string, k: char, w: nat)
    requires quote == '\'' || quote == '"'
    requires c as int < Pow16(w)
    requires (k == 'x' && w == 2) || (k == 'u' && w == 4) || (k == 'U' && w == 8)
    ensures Unescape(['\\', k] + Hex(c as int, w) + rest, quote) == Prepend(c, Unescape(rest, quote))
  {
    var t := ['\\', k] + Hex(c as int, w) + rest;
    assert t[2..2 + w] == Hex(c as int, w);
    assert t[2 + w..] == rest;
    ParseHexOf(c as int, w);
  }

  /** Reading one escape back gives its character and leaves the rest. */
  lemma EscapeStep(c: char, quote: char, rest: string)
    requires quote == '\'' || quote == '"'
    ensures Unescape(Escape(c, quote) + rest, quote) == Prepend(c, Unescape(rest, quote))
  {
    var e := Escape(c, quote);
    if c == quote || c == '\\' || c == '\t' || c == '\n' || c == '\r' {
      assert (e + rest)[2..] == rest;
    } else if Printable(c) {
      assert (e + rest)[1..] == rest;
    } else if c as int <= 0xff {
      assert Pow16(2) == 256;
      HexEscapeStep(c, quote, rest, 'x', 2);
    } else if c as int <= 0xffff {
      assert Pow16(4) == 0x1_0000;
      HexEscapeStep(c, quote, rest, 'u', 4);
    } else {
      assert Pow16(8) == 0x1_0000_0000;
      HexEscapeStep(c, quote, rest, 'U', 8);
    }
  }

  lemma {:induction false} EscapesRoundTrip(s: string, quote: char)
    requires quote == '\'' || quote == '"'
    ensures Unescape(Escapes(s, quote), quote) == Some(s)
  {
    if s != [] {
      EscapeStep(s[0], quote, Escapes(s[1..], quote));
      EscapesRoundTrip(s[1..], quote);
      assert [s[0]] + s[1..] == s;
    }
  }

  /** `repr` loses nothing: reading the literal back gives the str again. */
  lemma ReprRoundTrip(s: string)
    ensures Unrepr(PyRepr(s)) == Some(s)
  {
    var q := QuoteFor(s);
    var r := PyRepr(s);
    assert r[1..|r| - 1] == Escapes(s, q);
    EscapesRoundTrip(s, q);
  }

  /** A character `repr` writes as itself inside quotes `quote`. */
  predicate Plain(c: char, quote: char) {
    Printable(c) && c != '\\' && c != quote
  }

  lemma {:induction false} EscapesPlain(s: string, quote: char)
    requires forall i :: 0 <= i < |s| ==> Plain(s[i], quote)
    ensures Escapes(s, quote) == s
  {
    if s != [] {
      EscapesPlain(s[1..], quote);
      assert [s[0]] + s[1..] == s;
    }
  }

  /** Printable characters and no backslash: what `repr` shows unchanged. */
  predicate PlainText(s: string) {
    forall i :: 0 <= i < |s| ==> Printable(s[i]) && s[i] != '\\'
  }

  /** A text of printable characters and no backslash is shown as it is,
      between `'`, or between `"` when it holds `'` and no `"`. */
  lemma ReprPlain(s: string)
    requires PlainText(s)
    ensures '\'' !in s ==> PyRepr(s) == "'" + s + "'"
    ensures '\'' in s && '"' !in s ==> PyRepr(s) == "\"" + s + "\""
  {
    if '\'' !in s || '"' !in s {
      assert forall i :: 0 <= i < |s| ==> s[i] in s;
      EscapesPlain(s, QuoteFor(s));
    }
  }

  /** A plain text after a plain prefix without quotes: the quotes `repr`
      picks depend on the text alone. */
  lemma ReprPlainPrefixed(p: string, s: string)
    requires PlainText(p) && PlainText(s) && '\'' !in p && '"' !in p
    ensures '\'' !in s ==> PyRepr(p + s) == "'" + p + s + "'"
    ensures '\'' in s && '"' !in s ==> PyRepr(p + s) == "\"" + p + s + "\""
  {
    var m := p + s;
    forall i | 0 <= i < |m|
      ensures Printable(m[i]) && m[i] != '\\'
    {
      if i >= |p| {
        assert m[i] == s[i - |p|];
      }
    }
    ReprPlain(m);
    assert '\'' in m <==> '\'' in s by {
      if '\'' in m {
        var i :| 0 <= i < |m| && m[i] == '\'';
        assert i >= |p| && s[i - |p|] == '\'';
      }
      if '\'' in s {
        var i :| 0 <= i < |s| && s[i] == '\'';
        assert m[i + |p|] == '\'';
      }
    }
    assert '"' in m <==> '"' in s by {
      if '"' in m {
        var i :| 0 <= i < |m| && m[i] == '"';
        assert i >= |p| && s[i - |p|] == '"';
      }
      if '"' in s {
        var i :| 0 <= i < |s| && s[i] == '"';
        assert m[i + |p|] == '"';
      }
    }
  }

  /** The result of a Python call: a returned value or a raised exception. */
  datatype Outcome<+T> = Returned(value: T) | Raised(exc: Exception)
}
