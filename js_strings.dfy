/**
 * The JavaScript string operations the pages rely on, restricted as the model needs:
 * white space is ECMAScript's WhiteSpace and LineTerminator set (used by `trim` and by `\s`),
 * case mapping is ASCII only, `parseInt(s, 10)` and `Number.prototype.toString` are over
 * mathematical integers.
 */
module JsStrings {
  import opened Wrappers

  predicate IsWhitespace(c: char) {
    c == ' ' || c == '\t' || c == '\n' || c == '\r' || c == '\U{B}' || c == '\U{C}'
    || c == '\U{A0}' || c == '\U{1680}' || ('\U{2000}' <= c <= '\U{200A}')
    || c == '\U{2028}' || c == '\U{2029}' || c == '\U{202F}' || c == '\U{205F}'
    || c == '\U{3000}' || c == '\U{FEFF}'
  }

  /** Nothing but white space (the empty string included). */
  predicate IsBlank(s: string) {
    s == [] || (IsWhitespace(s[0]) && IsBlank(s[1..]))
  }

  function TrimStart(s: string): (r: string)
    ensures |r| <= |s|
    ensures r == [] || !IsWhitespace(r[0])
  {
    if s != [] && IsWhitespace(s[0]) then TrimStart(s[1..]) else s
  }

  function TrimEnd(s: string): (r: string)
    ensures |r| <= |s|
    ensures r == [] || !IsWhitespace(r[|r| - 1])
  {
    if s != [] && IsWhitespace(s[|s| - 1]) then TrimEnd(s[..|s| - 1]) else s
  }

  /** String.prototype.trim. */
  function Trim(s: string): (r: string)
    ensures r == [] <==> IsBlank(s)
    ensures r == [] || (!IsWhitespace(r[0]) && !IsWhitespace(r[|r| - 1]))
  {
    TrimStartBlank(s);
    var t := TrimStart(s);
    TrimEndKeepsFirst(t);
    TrimEnd(t)
  }

  /** Where the trimmed text starts inside the original. */
  function TrimOffset(s: string): nat {
    |s| - |TrimStart(s)|
  }

  /** TrimStart drops a prefix. */
  lemma {:induction false} TrimStartSuffix(s: string)
    ensures TrimStart(s) == s[|s| - |TrimStart(s)|..]
  {
    if s != [] && IsWhitespace(s[0]) {
      TrimStartSuffix(s[1..]);
    }
  }

  /** TrimEnd drops a suffix. */
  lemma {:induction false} TrimEndPrefix(s: string)
    ensures TrimEnd(s) == s[..|TrimEnd(s)|]
  {
    if s != [] && IsWhitespace(s[|s| - 1]) {
      TrimEndPrefix(s[..|s| - 1]);
    }
  }

  /** The trimmed string is the slice of the original that starts at TrimOffset. */
  lemma TrimSlice(s: string)
    ensures TrimOffset(s) + |Trim(s)| <= |s| && Trim(s) == s[TrimOffset(s)..TrimOffset(s) + |Trim(s)|]
  {
    var t := TrimStart(s);
    var r := TrimEnd(t);
    var k := |s| - |t|;
    TrimStartSuffix(s);
    TrimEndPrefix(t);
    assert r == Trim(s);
    forall i | 0 <= i < |r| ensures r[i] == s[k + i] {
      assert r[i] == t[i];
    }
  }

  lemma {:induction false} TrimEndKeepsFirst(t: string)
    ensures t != [] && !IsWhitespace(t[0]) ==> TrimEnd(t) != [] && TrimEnd(t)[0] == t[0]
  {
    if |t| > 1 && !IsWhitespace(t[0]) && IsWhitespace(t[|t| - 1]) {
      TrimEndKeepsFirst(t[..|t| - 1]);
      assert t[..|t| - 1][0] == t[0];
    }
  }

  lemma {:induction false} TrimStartBlank(s: string)
    ensures TrimStart(s) == [] <==> IsBlank(s)
  {
    if s != [] && IsWhitespace(s[0]) {
      TrimStartBlank(s[1..]);
    }
  }

  /** A text with no white space at either end is its own trim. */
  lemma TrimOfTrimmed(s: string)
    requires s != [] && !IsWhitespace(s[0]) && !IsWhitespace(s[|s| - 1])
    ensures Trim(s) == s
  {
    TrimSlice(s);
    TrimStartSuffix(s);
    TrimEndPrefix(TrimStart(s));
  }

  predicate IsLowerAscii(c: char) { 'a' <= c <= 'z' }

  predicate IsUpperAscii(c: char) { 'A' <= c <= 'Z' }

  function LowerChar(c: char): char {
    if IsUpperAscii(c) then (c as int + 32) as char else c
  }

  function UpperChar(c: char): char {
    if IsLowerAscii(c) then (c as int - 32) as char else c
  }

  /** String.prototype.toLowerCase, ASCII letters only. */
  function Lower(s: string): (r: string)
    ensures |r| == |s|
  {
    seq(|s|, i requires 0 <= i < |s| => LowerChar(s[i]))
  }

  /** Lowercasing a lowercased text changes nothing. */
  lemma LowerIdempotent(s: string)
    ensures Lower(Lower(s)) == Lower(s)
  {
    assert forall i :: 0 <= i < |s| ==> Lower(Lower(s))[i] == Lower(s)[i];
  }

  /**
   * String.prototype.length: UTF-16 code units, so a character outside the Basic Multilingual
   * Plane (a surrogate pair) counts twice.
   */
  function Utf16Length(s: string): (n: nat)
    ensures |s| <= n <= 2 * |s|
    ensures (forall i :: 0 <= i < |s| ==> s[i] < '\U{10000}') ==> n == |s|
  {
    if s == [] then 0
    else
      var init := s[..|s| - 1];
      assert forall i :: 0 <= i < |init| ==> init[i] == s[i];
      Utf16Length(init) + (if s[|s| - 1] >= '\U{10000}' then 2 else 1)
  }

  /** Lengths add up over concatenation. */
  lemma {:induction false} Utf16LengthAppend(a: string, b: string)
    ensures Utf16Length(a + b) == Utf16Length(a) + Utf16Length(b)
  {
    if b != [] {
      assert (a + b)[..|a + b| - 1] == a + b[..|b| - 1];
      Utf16LengthAppend(a, b[..|b| - 1]);
    } else {
      assert a + b == a;
    }
  }

  /** `p` is a prefix of `s`. */
  predicate IsPrefixOf(p: string, s: string) {
    |p| <= |s| && p == s[..|p|]
  }

  /** String.prototype.includes. */
  predicate Contains(s: string, sub: string) {
    exists i :: 0 <= i <= |s| && IsPrefixOf(sub, s[i..])
  }

  lemma ContainsEmpty(s: string)
    ensures Contains(s, "")
  {
    assert IsPrefixOf("", s[0..]);
  }

  /** Containment is transitive: a string containing `b` contains everything `b` contains. */
  lemma ContainsTransitive(a: string, b: string, c: string)
    requires Contains(a, b) && Contains(b, c)
    ensures Contains(a, c)
  {
    var i :| 0 <= i <= |a| && IsPrefixOf(b, a[i..]);
    var j :| 0 <= j <= |b| && IsPrefixOf(c, b[j..]);
    assert c == b[j..j + |c|] == a[i + j..i + j + |c|];
    assert IsPrefixOf(c, a[i + j..]);
  }

  // ---------------------------------------------------------------- numbers

  predicate IsDigit(c: char) { '0' <= c <= '9' }

  predicate AllDigits(s: string) {
    forall i :: 0 <= i < |s| ==> IsDigit(s[i])
  }

  function DigitValue(c: char): nat
    requires IsDigit(c)
  {
    c as int - '0' as int
  }

  function DigitChar(d: nat): (c: char)
    requires d < 10
    ensures IsDigit(c) && DigitValue(c) == d
  {
    ('0' as int + d) as char
  }

  /** Value of a run of decimal digits, most significant first. */
  function DigitsValue(s: string): nat
    requires AllDigits(s)
  {
    if s == [] then 0 else DigitsValue(s[..|s| - 1]) * 10 + DigitValue(s[|s| - 1])
  }

  /** Number.prototype.toString of a non-negative integer. */
  function NatToString(n: nat): (r: string)
    ensures r != [] && AllDigits(r)
  {
    if n < 10 then [DigitChar(n)] else NatToString(n / 10) + [DigitChar(n % 10)]
  }

  /** Number.prototype.toString of an integer: a '-' sign, then the decimal digits. */
  function IntToString(n: int): (r: string)
    ensures r != [] && ',' !in r
  {
    if n < 0 then "-" + NatToString(-n) else NatToString(n)
  }

  lemma {:induction false} NatToStringValue(n: nat)
    ensures DigitsValue(NatToString(n)) == n
  {
    if n >= 10 {
      NatToStringValue(n / 10);
      var s := NatToString(n);
      assert s[..|s| - 1] == NatToString(n / 10);
    }
  }

  /** The longest prefix of `s` made of decimal digits. */
  function DigitPrefix(s: string): (r: string)
    ensures IsPrefixOf(r, s) && AllDigits(r)
    ensures |r| < |s| ==> !IsDigit(s[|r|])
  {
    if s != [] && IsDigit(s[0]) then [s[0]] + DigitPrefix(s[1..]) else []
  }

  lemma {:induction false} DigitPrefixOfDigits(s: string)
    requires AllDigits(s)
    ensures DigitPrefix(s) == s
  {
    if s != [] {
      DigitPrefixOfDigits(s[1..]);
    }
  }

  /**
   * parseInt(s, 10): leading white space is skipped, one '+' or '-' is read, then the longest run
   * of decimal digits; None stands for NaN (no digit at all).
   */
  function ParseInt(s: string): (r: Option<int>)
    ensures r.None? <==> DigitPrefix(SignStripped(TrimStart(s))) == []
  {
    var t := TrimStart(s);
    var z := DigitPrefix(SignStripped(t));
    if z == [] then None
    else
      var v: int := DigitsValue(z);
      if t[0] == '-' then Some(-v) else Some(v)
  }

  function SignStripped(t: string): string {
    if t != [] && (t[0] == '-' || t[0] == '+') then t[1..] else t
  }

  /** What IntToString writes, ParseInt reads back. */
  lemma ParseIntToString(n: int)
    ensures ParseInt(IntToString(n)) == Some(n)
  {
    var m: nat := if n < 0 then -n else n;
    var digits := NatToString(m);
    NatToStringValue(m);
    DigitPrefixOfDigits(digits);
    var s := IntToString(n);
    assert !IsWhitespace(s[0]);
    assert TrimStart(s) == s;
    assert SignStripped(s) == digits;
  }

  // ---------------------------------------------------------------- split / join

  /** String.prototype.split with a one-character separator. */
  function Split(s: string, sep: char): (r: seq<string>)
    ensures |r| >= 1
  {
    SplitFrom(s, sep, "")
  }

  function SplitFrom(s: string, sep: char, cur: string): (r: seq<string>)
    ensures |r| >= 1
  {
    if s == [] then [cur]
    else if s[0] == sep then [cur] + SplitFrom(s[1..], sep, "")
    else SplitFrom(s[1..], sep, cur + [s[0]])
  }

  /** Array.prototype.join. */
  function Join(parts: seq<string>, sep: string): string {
    if parts == [] then ""
    else if |parts| == 1 then parts[0]
    else parts[0] + sep + Join(parts[1..], sep)
  }

  lemma {:induction false} SplitFromAppend(p: string, rest: string, sep: char, cur: string)
    requires sep !in p
    ensures SplitFrom(p + rest, sep, cur) == SplitFrom(rest, sep, cur + p)
  {
    if p != [] {
      var s := p + rest;
      assert s != [] && s[0] == p[0] && s[0] != sep;
      assert s[1..] == p[1..] + rest;
      calc {
        SplitFrom(s, sep, cur);
        SplitFrom(s[1..], sep, cur + [p[0]]);
        { SplitFromAppend(p[1..], rest, sep, cur + [p[0]]); }
        SplitFrom(rest, sep, cur + [p[0]] + p[1..]);
        { assert cur + [p[0]] + p[1..] == cur + p; }
        SplitFrom(rest, sep, cur + p);
      }
    } else {
      assert p + rest == rest && cur + p == cur;
    }
  }

  /** Splitting what Join wrote gives the pieces back, when no piece holds the separator. */
  lemma {:induction false} SplitJoin(parts: seq<string>, sep: char)
    requires |parts| >= 1
    requires forall i :: 0 <= i < |parts| ==> sep !in parts[i]
    ensures Split(Join(parts, [sep]), sep) == parts
  {
    if |parts| == 1 {
      SplitFromAppend(parts[0], "", sep, "");
      assert parts[0] + "" == parts[0];
    } else {
      var tail := Join(parts[1..], [sep]);
      assert Join(parts, [sep]) == parts[0] + ([sep] + tail);
      SplitFromAppend(parts[0], [sep] + tail, sep, "");
      assert "" + parts[0] == parts[0];
      assert ([sep] + tail)[1..] == tail;
      SplitJoin(parts[1..], sep);
      assert parts == [parts[0]] + parts[1..];
    }
  }

  /** The regular expression /\/$/ replaced by '': one trailing slash is dropped. */
  function DropTrailingSlash(s: string): (r: string)
    ensures s != [] && s[|s| - 1] == '/' ==> r + "/" == s
    ensures !(s != [] && s[|s| - 1] == '/') ==> r == s
  {
    if s != [] && s[|s| - 1] == '/' then s[..|s| - 1] else s
  }
}
