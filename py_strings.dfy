/** The Python `str` operations the gateway relies on: substring membership
    (`t in s`), `lower()`, `strip()`, `split(c)` on a one-character separator,
    and the decimal rendering of an `int` in an f-string. */
module PyStrings {

  // ---------------------------------------------------------------------
  // Substring membership
  // ---------------------------------------------------------------------

  /** `t` occurs in `s` starting at index `i`. */
  predicate OccursAt(s: string, t: string, i: int) {
    0 <= i && i + |t| <= |s| && s[i..i + |t|] == t
  }

  /** Python's `t in s` for strings; the empty string is in every string. */
  predicate Contains(s: string, t: string)
    decreases |s|
  {
    |t| <= |s| && (s[..|t|] == t || (|s| > 0 && Contains(s[1..], t)))
  }

  lemma {:induction false} ContainsIffOccurs(s: string, t: string)
    ensures Contains(s, t) <==> exists i :: OccursAt(s, t, i)
    decreases |s|
  {
    if Contains(s, t) {
      if s[..|t|] == t {
        assert OccursAt(s, t, 0);
      } else {
        ContainsIffOccurs(s[1..], t);
        var j :| OccursAt(s[1..], t, j);
        assert s[j + 1..j + 1 + |t|] == s[1..][j..j + |t|];
        assert OccursAt(s, t, j + 1);
      }
    }
    if i :| OccursAt(s, t, i) {
      if i > 0 {
        assert s[1..][i - 1..i - 1 + |t|] == s[i..i + |t|];
        assert OccursAt(s[1..], t, i - 1);
        ContainsIffOccurs(s[1..], t);
      } else {
        assert s[..|t|] == s[0..|t|];
      }
    }
  }

  /** Whatever surrounds it, a string contains itself. */
  lemma ContainsInfix(a: string, t: string, b: string)
    ensures Contains(a + t + b, t)
  {
    var s := a + t + b;
    assert s[|a|..|a| + |t|] == t;
    assert OccursAt(s, t, |a|);
    ContainsIffOccurs(s, t);
  }

  // ---------------------------------------------------------------------
  // lower()
  // ---------------------------------------------------------------------

  function LowerChar(c: char): char {
    if 'A' <= c <= 'Z' then (c as int + 32) as char else c
  }

  /** `s.lower()` on the ASCII letters; every other character is kept. */
  function Lower(s: string): (r: string)
    ensures |r| == |s|
    ensures forall i :: 0 <= i < |s| ==> r[i] == LowerChar(s[i])
  {
    seq(|s|, i requires 0 <= i < |s| => LowerChar(s[i]))
  }

  lemma LowerConcat(a: string, b: string)
    ensures Lower(a + b) == Lower(a) + Lower(b)
  {
  }

  // ---------------------------------------------------------------------
  // strip()
  // ---------------------------------------------------------------------

  /** The characters `str.isspace()` accepts. */
  predicate IsSpace(c: char) {
    || ('\t' <= c <= '\r')
    || ('\U{1C}' <= c <= '\U{1F}')
    || c == ' '
    || c == '\U{85}'
    || c == '\U{A0}'
    || c == '\U{1680}'
    || ('\U{2000}' <= c <= '\U{200A}')
    || c == '\U{2028}'
    || c == '\U{2029}'
    || c == '\U{202F}'
    || c == '\U{205F}'
    || c == '\U{3000}'
  }

  predicate AllSpace(s: string) {
    forall i :: 0 <= i < |s| ==> IsSpace(s[i])
  }

  /** `s.lstrip()`: drops leading whitespace. */
  function StripLeft(s: string): string
    decreases |s|
  {
    if s != [] && IsSpace(s[0]) then StripLeft(s[1..]) else s
  }

  /** `s.rstrip()`: drops trailing whitespace. */
  function StripRight(s: string): string
    decreases |s|
  {
    if s != [] && IsSpace(s[|s| - 1]) then StripRight(s[..|s| - 1]) else s
  }

  /** `s.strip()`. */
  function Strip(s: string): string {
    StripRight(StripLeft(s))
  }

  /** `lstrip` keeps a suffix, drops only whitespace, and stops at the first
      character that is not whitespace. */
  lemma {:induction false} StripLeftShape(s: string)
    ensures var r := StripLeft(s);
            && |r| <= |s| && r == s[|s| - |r|..]
            && AllSpace(s[..|s| - |r|])
            && (r != [] ==> !IsSpace(r[0]))
    decreases |s|
  {
    if s != [] && IsSpace(s[0]) {
      StripLeftShape(s[1..]);
      var r := StripLeft(s[1..]);
      assert s[..|s| - |r|] == [s[0]] + s[1..][..|s| - 1 - |r|];
    }
  }

  /** `rstrip` keeps a prefix, drops only whitespace, and stops at the last
      character that is not whitespace. */
  lemma {:induction false} StripRightShape(s: string)
    ensures var r := StripRight(s);
            && |r| <= |s| && r == s[..|r|]
            && AllSpace(s[|r|..])
            && (r != [] ==> !IsSpace(r[|r| - 1]))
    decreases |s|
  {
    if s != [] && IsSpace(s[|s| - 1]) {
      StripRightShape(s[..|s| - 1]);
      var r := StripRight(s[..|s| - 1]);
      assert s[|r|..] == s[..|s| - 1][|r|..] + [s[|s| - 1]];
    }
  }

  /** A string that neither starts nor ends with whitespace strips to itself. */
  lemma StripUnchanged(s: string)
    requires s != [] && !IsSpace(s[0]) && !IsSpace(s[|s| - 1])
    ensures Strip(s) == s
  {
    assert StripLeft(s) == s;
  }

  /** A line strips to nothing exactly when every character is whitespace. */
  lemma StripEmptyIffBlank(s: string)
    ensures Strip(s) == "" <==> AllSpace(s)
  {
    StripLeftShape(s);
    var l := StripLeft(s);
    StripRightShape(l);
    assert s[..|s|] == s;
    assert l != [] ==> l[0] == s[|s| - |l|] && l[0..] == l;
  }

  // ---------------------------------------------------------------------
  // split(c)
  // ---------------------------------------------------------------------

  /** Number of occurrences of `c` in `s`. */
  function Count(s: string, c: char): nat {
    if s == [] then 0 else (if s[0] == c then 1 else 0) + Count(s[1..], c)
  }

  /** `c.join(parts)`. */
  function Join(parts: seq<string>, c: char): string
    requires |parts| >= 1
  {
    if |parts| == 1 then parts[0] else parts[0] + [c] + Join(parts[1..], c)
  }

  /** `s.split(c)` for a one-character separator. */
  function Split(s: string, c: char): (parts: seq<string>)
    ensures |parts| >= 1
    decreases |s|
  {
    if s == [] then [""]
    else
      var rest := Split(s[1..], c);
      if s[0] == c then [""] + rest
      else [[s[0]] + rest[0]] + rest[1..]
  }

  /** There is always one more piece than there are separators, and no piece
      holds the separator. */
  lemma {:induction false} SplitPieces(s: string, c: char)
    ensures |Split(s, c)| == Count(s, c) + 1
    ensures forall i :: 0 <= i < |Split(s, c)| ==> c !in Split(s, c)[i]
    decreases |s|
  {
    if s != [] {
      SplitPieces(s[1..], c);
      var rest := Split(s[1..], c);
      var parts := Split(s, c);
      if s[0] == c {
        assert forall i :: 1 <= i < |parts| ==> parts[i] == rest[i - 1];
      } else {
        assert forall i :: 1 <= i < |parts| ==> parts[i] == rest[i];
      }
    }
  }

  /** Joining the pieces back with the separator gives the string split. */
  lemma {:induction false} JoinSplit(s: string, c: char)
    ensures Join(Split(s, c), c) == s
    decreases |s|
  {
    if s != [] {
      JoinSplit(s[1..], c);
      var rest := Split(s[1..], c);
      var parts := Split(s, c);
      if s[0] == c {
        assert parts == [""] + rest && parts[1..] == rest;
        assert Join(parts, c) == [c] + s[1..];
      } else {
        assert parts == [[s[0]] + rest[0]] + rest[1..];
        if |rest| == 1 {
          assert Join(parts, c) == [s[0]] + Join(rest, c);
        } else {
          assert parts[1..] == rest[1..];
          assert Join(parts, c) == [s[0]] + rest[0] + [c] + Join(rest[1..], c);
          assert Join(rest, c) == rest[0] + [c] + Join(rest[1..], c);
        }
      }
      assert [s[0]] + s[1..] == s;
    }
  }

  /** Splitting `a + c + rest`, where `a` holds no separator, yields `a`
      followed by the pieces of `rest`. */
  lemma {:induction false} SplitAfterPiece(a: string, c: char, rest: string)
    requires c !in a
    ensures Split(a + [c] + rest, c) == [a] + Split(rest, c)
    decreases |a|
  {
    var s := a + [c] + rest;
    if a == [] {
      assert s[0] == c && s[1..] == rest;
    } else {
      assert s[0] == a[0] && s[1..] == a[1..] + [c] + rest;
      SplitAfterPiece(a[1..], c, rest);
      assert [a[0]] + a[1..] == a;
    }
  }

  /** A string without the separator splits into itself alone. */
  lemma {:induction false} SplitWhole(a: string, c: char)
    requires c !in a
    ensures Split(a, c) == [a]
    decreases |a|
  {
    if a != [] {
      SplitWhole(a[1..], c);
      assert [a[0]] + a[1..] == a;
    }
  }

  /** Two separator-free pieces joined by the separator split back into them. */
  lemma SplitTwo(a: string, b: string, c: char)
    requires c !in a && c !in b
    ensures Split(a + [c] + b, c) == [a, b]
  {
    SplitAfterPiece(a, c, b);
    SplitWhole(b, c);
  }

  lemma JoinTwo(a: string, b: string, c: char)
    ensures Join([a, b], c) == a + [c] + b
  {
    assert [a, b][1..] == [b];
  }

  lemma JoinThree(a: string, b: string, d: string, c: char)
    ensures Join([a, b, d], c) == a + [c] + b + [c] + d
  {
    assert [a, b, d][1..] == [b, d];
    JoinTwo(b, d, c);
  }

  /** `split` undoes `join` when no piece holds the separator. */
  lemma {:induction false} SplitJoin(parts: seq<string>, c: char)
    requires |parts| >= 1
    requires forall i :: 0 <= i < |parts| ==> c !in parts[i]
    ensures Split(Join(parts, c), c) == parts
    decreases |parts|
  {
    if |parts| == 1 {
      SplitWhole(parts[0], c);
    } else {
      SplitJoin(parts[1..], c);
      SplitAfterPiece(parts[0], c, Join(parts[1..], c));
      assert [parts[0]] + parts[1..] == parts;
    }
  }

  // ---------------------------------------------------------------------
  // Integers in f-strings
  // ---------------------------------------------------------------------

  function DigitChar(d: nat): (c: char)
    requires d < 10
    ensures '0' <= c <= '9' && c as int - '0' as int == d
  {
    (48 + d) as char
  }

  predicate IsDigit(c: char) { '0' <= c <= '9' }

  /** The number a string of decimal digits denotes, most significant first. */
  function DigitsValue(s: string): nat
    requires forall i :: 0 <= i < |s| ==> IsDigit(s[i])
  {
    if s == [] then 0
    else
      assert IsDigit(s[|s| - 1]);
      10 * DigitsValue(s[..|s| - 1]) + (s[|s| - 1] as int - '0' as int)
  }

  /** How `str` writes a natural number: at least one digit, all digits, and
      no leading zero unless the number is 0. */
  predicate Canonical(s: string) {
    && |s| >= 1
    && (forall i :: 0 <= i < |s| ==> IsDigit(s[i]))
    && (|s| > 1 ==> s[0] != '0')
  }

  /** Decimal digits of a natural number, most significant first: the
      canonical digit string whose value is `n`. */
  function NatToString(n: nat): (s: string)
    ensures Canonical(s) && DigitsValue(s) == n
    decreases n
  {
    if n < 10 then [DigitChar(n)]
    else
      var s := NatToString(n / 10) + [DigitChar(n % 10)];
      assert s[..|s| - 1] == NatToString(n / 10);
      s
  }

  /** `f"{i}"` for an `int`: the canonical digits of `i`, after a `-` when `i`
      is negative. */
  function IntToString(i: int): (s: string)
    ensures i >= 0 ==> Canonical(s) && DigitsValue(s) == i
    ensures i < 0 ==> |s| >= 2 && s[0] == '-' && Canonical(s[1..]) && DigitsValue(s[1..]) == -i
  {
    if i < 0 then
      var s := "-" + NatToString(-i);
      assert s[1..] == NatToString(-i);
      s
    else NatToString(i)
  }
}
