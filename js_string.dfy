/** The JavaScript string primitives the scraper and the downloader rely on:
    `trim`, `indexOf`, `lastIndexOf('//')`, `substring` and the global `parseInt`.
    Strings are `seq<char>`, and a Dafny `char` is a Unicode scalar value. JavaScript
    strings are sequences of UTF-16 code units, so the two agree on every string whose
    characters lie in the Basic Multilingual Plane; a character outside it is one `char`
    here but two code units in JavaScript. */
module JsString {
  import opened Wrappers

  /** The characters `String.prototype.trim` and `parseInt` strip: ECMAScript's
      WhiteSpace and LineTerminator code points. */
  predicate IsSpace(c: char) {
    c == ' ' || c == '\t' || c == '\n' || c == '\r' || c == '\U{000B}' || c == '\U{000C}'
    || c == '\U{00A0}' || c == '\U{FEFF}' || c == '\U{1680}'
    || ('\U{2000}' <= c <= '\U{200A}')
    || c == '\U{2028}' || c == '\U{2029}' || c == '\U{202F}' || c == '\U{205F}' || c == '\U{3000}'
  }

  /** No white space at either end: what `trim` promises of its result. */
  predicate Trimmed(s: string) {
    s == [] || (!IsSpace(s[0]) && !IsSpace(s[|s| - 1]))
  }

  predicate AllSpace(s: string) {
    forall k :: 0 <= k < |s| ==> IsSpace(s[k])
  }

  /** Leading white space removed (`trimStart`): a suffix of the input that does not start
      with white space. */
  function TrimStart(s: string): (r: string)
    ensures |r| <= |s|
    ensures r == [] || !IsSpace(r[0])
  {
    if s != [] && IsSpace(s[0]) then TrimStart(s[1..]) else s
  }

  /** Trailing white space removed (`trimEnd`): a prefix of the input that does not end
      with white space. */
  function TrimEnd(s: string): (r: string)
    ensures |r| <= |s|
    ensures r == [] || !IsSpace(r[|r| - 1])
  {
    if s != [] && IsSpace(s[|s| - 1]) then TrimEnd(s[..|s| - 1]) else s
  }

  /** `String.prototype.trim`: no white space is left at either end, and nothing longer
      than the input comes out. */
  function Trim(s: string): (r: string)
    ensures Trimmed(r) && |r| <= |s|
  {
    TrimEndIsPrefix(TrimStart(s));
    TrimEnd(TrimStart(s))
  }

  /** `trimStart` keeps a suffix of its input. */
  lemma {:induction false} TrimStartIsSuffix(s: string)
    ensures TrimStart(s) == s[|s| - |TrimStart(s)|..]
  {
    if s != [] && IsSpace(s[0]) {
      TrimStartIsSuffix(s[1..]);
    }
  }

  /** `trimEnd` keeps a prefix of its input. */
  lemma {:induction false} TrimEndIsPrefix(s: string)
    ensures TrimEnd(s) == s[..|TrimEnd(s)|]
  {
    if s != [] && IsSpace(s[|s| - 1]) {
      TrimEndIsPrefix(s[..|s| - 1]);
    }
  }

  /** What `trimStart` removes is white space only. */
  lemma {:induction false} TrimStartRemovesSpace(s: string)
    ensures AllSpace(s[..|s| - |TrimStart(s)|])
  {
    TrimStartIsSuffix(s);
    if s != [] && IsSpace(s[0]) {
      TrimStartIsSuffix(s[1..]);
      TrimStartRemovesSpace(s[1..]);
      var n := |s| - |TrimStart(s)|;
      assert s[..n] == [s[0]] + s[1..][..n - 1];
    }
  }

  /** What `trimEnd` removes is white space only. */
  lemma {:induction false} TrimEndRemovesSpace(s: string)
    ensures AllSpace(s[|TrimEnd(s)|..])
  {
    TrimEndIsPrefix(s);
    if s != [] && IsSpace(s[|s| - 1]) {
      TrimEndIsPrefix(s[..|s| - 1]);
      TrimEndRemovesSpace(s[..|s| - 1]);
      var n := |TrimEnd(s)|;
      assert s[n..] == s[..|s| - 1][n..] + [s[|s| - 1]];
    }
  }

  /** `s.trim()` is empty exactly when `s` holds nothing but white space. */
  lemma TrimEmptyIff(s: string)
    ensures Trim(s) == [] <==> AllSpace(s)
  {
    var t := TrimStart(s);
    TrimStartIsSuffix(s);
    TrimEndIsPrefix(t);
    TrimStartRemovesSpace(s);
    TrimEndRemovesSpace(t);
    if Trim(s) == [] {
      assert s == s[..|s| - |t|] + t[|TrimEnd(t)|..];
    }
  }

  /** Trimming twice trims nothing more. */
  lemma TrimIdempotent(s: string)
    ensures Trim(Trim(s)) == Trim(s)
  {
    var r := Trim(s);
    assert TrimStart(r) == r;
  }

  /** `s.indexOf(c)` for a one-character search string: the first position of `c`, or -1. */
  function IndexOfChar(s: string, c: char): (r: int)
    ensures -1 <= r < |s|
    ensures r == -1 <==> c !in s
    ensures r >= 0 ==> s[r] == c && c !in s[..r]
  {
    if s == [] then -1
    else if s[0] == c then 0
    else
      var r := IndexOfChar(s[1..], c);
      assert s[1..] == s[..][1..];
      if r == -1 then -1
      else
        assert s[..r + 1] == [s[0]] + s[1..][..r];
        r + 1
  }

  /** `s.indexOf(sub) > -1`: `sub` occurs somewhere in `s`. */
  predicate Contains(s: string, sub: string)
    decreases |s|
  {
    |sub| <= |s| && (s[..|sub|] == sub || Contains(s[1..], sub))
  }

  /** `sub` is the window of `s` that starts at `i`. */
  predicate OccursAt(s: string, sub: string, i: int) {
    0 <= i <= |s| - |sub| && s[i..i + |sub|] == sub
  }

  /** `sub` occurs in `s` exactly when some window of `s` of its length equals it. */
  lemma {:induction false} ContainsAt(s: string, sub: string)
    ensures Contains(s, sub) <==> exists i :: OccursAt(s, sub, i)
    decreases |s|
  {
    if |sub| <= |s| {
      if s[..|sub|] == sub {
        assert OccursAt(s, sub, 0);
      } else {
        var t := s[1..];
        ContainsAt(t, sub);
        if Contains(t, sub) {
          var i :| OccursAt(t, sub, i);
          assert s[i + 1..i + 1 + |sub|] == t[i..i + |sub|];
          assert OccursAt(s, sub, i + 1);
        }
        if exists i :: OccursAt(s, sub, i) {
          var i :| OccursAt(s, sub, i);
          assert i != 0;
          assert t[i - 1..i - 1 + |sub|] == s[i..i + |sub|];
          assert OccursAt(t, sub, i - 1);
        }
      }
    }
  }

  /** `s.substring(start)` for a non-negative start: JavaScript clamps a start past the end. */
  function SubstringFrom(s: string, start: nat): (r: string)
    ensures start <= |s| ==> r == s[start..]
    ensures start > |s| ==> r == []
  {
    if start <= |s| then s[start..] else []
  }

  /** `s.substring(0, end)` where the end may be negative: JavaScript clamps it into `[0, |s|]`. */
  function SubstringTo(s: string, end: int): (r: string)
    ensures 0 <= end <= |s| ==> r == s[..end]
    ensures end < 0 ==> r == []
    ensures end > |s| ==> r == s
  {
    if end < 0 then [] else if end <= |s| then s[..end] else s
  }

  /** Two slashes start at position `i` of `s`. */
  predicate SlashesAt(s: string, i: int) {
    0 <= i < |s| - 1 && s[i] == '/' && s[i + 1] == '/'
  }

  /** `s.lastIndexOf('//')`: the last position where two slashes start, or -1. */
  function LastIndexOfSlashes(s: string): (r: int)
    ensures r == -1 || SlashesAt(s, r)
    ensures forall i :: r < i ==> !SlashesAt(s, i)
  {
    if |s| < 2 then -1
    else if s[|s| - 2] == '/' && s[|s| - 1] == '/' then |s| - 2
    else
      var r := LastIndexOfSlashes(s[..|s| - 1]);
      assert forall i :: SlashesAt(s, i) && i < |s| - 2 ==> SlashesAt(s[..|s| - 1], i);
      r
  }

  // ---------------------------------------------------------------------------
  // parseInt

  /** The value of a digit in any radix up to 36, as `parseInt` reads it; 36 for a character
      that is a digit in no radix. */
  function DigitValue(c: char): (d: nat)
    ensures d <= 36
    ensures d < 10 <==> '0' <= c <= '9'
  {
    if '0' <= c <= '9' then (c - '0') as nat
    else if 'a' <= c <= 'z' then (c - 'a') as nat + 10
    else if 'A' <= c <= 'Z' then (c - 'A') as nat + 10
    else 36
  }

  predicate IsDigit(c: char, radix: nat) {
    DigitValue(c) < radix
  }

  predicate AllDigits(ds: string, radix: nat) {
    forall k :: 0 <= k < |ds| ==> IsDigit(ds[k], radix)
  }

  /** The longest prefix of `s` made of digits of the radix. */
  function DigitPrefix(s: string, radix: nat): (ds: string)
    ensures |ds| <= |s| && ds == s[..|ds|]
    ensures AllDigits(ds, radix)
    ensures |ds| < |s| ==> !IsDigit(s[|ds|], radix)
  {
    if s != [] && IsDigit(s[0], radix) then
      var rest := DigitPrefix(s[1..], radix);
      assert s[..1 + |rest|] == [s[0]] + rest;
      [s[0]] + rest
    else []
  }

  /** The number a digit string denotes in the radix, most significant digit first. */
  function DigitsValue(ds: string, radix: nat): nat
  {
    if ds == [] then 0
    else DigitsValue(ds[..|ds| - 1], radix) * radix + DigitValue(ds[|ds| - 1])
  }

  /** The digits at the start of `s` read in the radix; `None` when there is none. */
  function ReadDigits(s: string, radix: nat): (r: Option<nat>)
    ensures r.None? <==> DigitPrefix(s, radix) == []
  {
    var ds := DigitPrefix(s, radix);
    if ds == [] then None else Some(DigitsValue(ds, radix))
  }

  /** An unsigned numeral: a `0x`/`0X` prefix switches to radix 16, otherwise radix 10. */
  function ParseUnsigned(u: string): (r: Option<nat>)
  {
    if |u| >= 2 && u[0] == '0' && (u[1] == 'x' || u[1] == 'X') then ReadDigits(u[2..], 16)
    else ReadDigits(u, 10)
  }

  /** The global `parseInt(s)` with no radix: leading white space is skipped, one `+` or `-`
      is read, and the unsigned numeral that follows is read. `None` is `NaN`: no digit
      where one was needed. */
  function ParseInt(s: string): (r: Option<int>)
  {
    var t := TrimStart(s);
    if t != [] && t[0] == '-' then
      var v := ParseUnsigned(t[1..]);
      if v.None? then None else Some(-(v.value as int))
    else if t != [] && t[0] == '+' then
      var v := ParseUnsigned(t[1..]);
      if v.None? then None else Some(v.value as int)
    else
      var v := ParseUnsigned(t);
      if v.None? then None else Some(v.value as int)
  }

  /** The decimal numeral of a natural number (what `String(n)` prints). */
  function Decimal(n: nat): (s: string)
  {
    if n < 10 then ['0' + n as char]
    else Decimal(n / 10) + ['0' + (n % 10) as char]
  }

  /** A decimal numeral is a non-empty string of decimal digits that denotes its number. */
  lemma {:induction false} DecimalDenotes(n: nat)
    ensures Decimal(n) != [] && AllDigits(Decimal(n), 10)
    ensures DigitsValue(Decimal(n), 10) == n
  {
    if n >= 10 {
      DecimalDenotes(n / 10);
      var s := Decimal(n);
      assert s[..|s| - 1] == Decimal(n / 10);
    }
  }

  /** Reading digits stops exactly at the first character that is not a digit. */
  lemma {:induction false} DigitPrefixStops(ds: string, rest: string, radix: nat)
    requires AllDigits(ds, radix)
    requires rest == [] || !IsDigit(rest[0], radix)
    ensures DigitPrefix(ds + rest, radix) == ds
  {
    if ds != [] {
      assert (ds + rest)[1..] == ds[1..] + rest;
      DigitPrefixStops(ds[1..], rest, radix);
    }
  }

  /** `parseInt` reads a run of decimal digits followed by anything that does not continue
      it as the number the digits denote. */
  lemma ParseIntNumeral(d: string, rest: string)
    requires d != [] && AllDigits(d, 10)
    requires rest == [] || (!IsDigit(rest[0], 10) && rest[0] != 'x' && rest[0] != 'X')
    ensures ParseInt(d + rest) == Some(DigitsValue(d, 10))
  {
    var s := d + rest;
    assert s[0] == d[0] && IsDigit(s[0], 10);
    assert !(|s| >= 2 && s[0] == '0' && (s[1] == 'x' || s[1] == 'X')) by {
      if |d| >= 2 {
        assert s[1] == d[1] && IsDigit(d[1], 10);
      } else if |s| >= 2 {
        assert s[1] == rest[0];
      }
    }
    DigitPrefixStops(d, rest, 10);
    assert ParseUnsigned(s) == Some(DigitsValue(d, 10));
    ParseIntUnsigned(s);
  }

  /** `parseInt` reads back a decimal numeral followed by anything that does not continue it:
      the round trip of `String(n)`, whatever trails the number. */
  lemma ParseIntDecimal(n: nat, rest: string)
    requires rest == [] || (!IsDigit(rest[0], 10) && rest[0] != 'x' && rest[0] != 'X')
    ensures ParseInt(Decimal(n) + rest) == Some(n)
  {
    DecimalDenotes(n);
    ParseIntNumeral(Decimal(n), rest);
  }

  /** A string that starts with a decimal digit is read as an unsigned numeral. */
  lemma ParseIntUnsigned(s: string)
    requires s != [] && IsDigit(s[0], 10)
    ensures ParseInt(s) == if ParseUnsigned(s).None? then None else Some(ParseUnsigned(s).value as int)
  {
    assert TrimStart(s) == s;
    assert s[0] != '-' && s[0] != '+';
  }

  /** An unsigned numeral with no decimal digit reads as `NaN`: it cannot start with `0x`. */
  lemma NoDigitsUnsigned(u: string)
    requires forall k :: 0 <= k < |u| ==> !IsDigit(u[k], 10)
    ensures ParseUnsigned(u) == None
  {
    if u != [] {
      assert !IsDigit(u[0], 10);
    }
  }

  /** A string with no decimal digit at all parses to `NaN`. */
  lemma ParseIntNoDigits(s: string)
    requires forall k :: 0 <= k < |s| ==> !IsDigit(s[k], 10)
    ensures ParseInt(s) == None
  {
    var t := TrimStart(s);
    TrimStartIsSuffix(s);
    forall k | 0 <= k < |t|
      ensures !IsDigit(t[k], 10)
    {
      assert t[k] == s[|s| - |t| + k];
    }
    NoDigitsUnsigned(t);
    if t != [] {
      forall k | 0 <= k < |t| - 1
        ensures !IsDigit(t[1..][k], 10)
      {
        assert t[1..][k] == t[k + 1];
      }
      NoDigitsUnsigned(t[1..]);
    }
  }
}
