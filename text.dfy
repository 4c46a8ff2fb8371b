/**
 * The JavaScript string operations the components rely on: `toLowerCase`,
 * `toUpperCase` (ASCII letters only), `includes`, `substring`,
 * `Number.prototype.toString()` on integers, and the global `parseInt`
 * called without a radix.
 */
module Text {
  import opened Wrappers

  // ---------------------------------------------------------------------
  // Case mapping

  function LowerChar(c: char): char {
    if 'A' <= c <= 'Z' then (c as int + 32) as char else c
  }

  function UpperChar(c: char): char {
    if 'a' <= c <= 'z' then (c as int - 32) as char else c
  }

  /** `s.toLowerCase()`, restricted to the ASCII letters. */
  function Lower(s: string): (r: string)
    ensures |r| == |s|
    ensures forall i :: 0 <= i < |s| ==> r[i] == LowerChar(s[i])
  {
    seq(|s|, i requires 0 <= i < |s| => LowerChar(s[i]))
  }

  /** `s.toUpperCase()`, restricted to the ASCII letters. */
  function Upper(s: string): (r: string)
    ensures |r| == |s|
    ensures forall i :: 0 <= i < |s| ==> r[i] == UpperChar(s[i])
  {
    seq(|s|, i requires 0 <= i < |s| => UpperChar(s[i]))
  }

  /** Lower-casing twice is lower-casing once. */
  lemma LowerIdempotent(s: string)
    ensures Lower(Lower(s)) == Lower(s)
  {
  }

  /**
   * Text that is, or lower-cases to, the decimal text of a number has no
   * upper-case letter: lower-casing leaves it as it is.
   */
  lemma LowerOfNumberText(t: string, n: int)
    requires IntToString(n) == t || IntToString(n) == Lower(t)
    ensures Lower(t) == t
  {
    IntToStringHasNoLetter(n);
    forall i | 0 <= i < |t| ensures Lower(t)[i] == t[i] {
      assert IntToString(n)[i] == '-' || IsDecimalDigit(IntToString(n)[i]);
    }
  }

  // ---------------------------------------------------------------------
  // Substrings

  predicate IsPrefix(p: string, s: string) {
    |p| <= |s| && s[..|p|] == p
  }

  /** `t` occurs in `s` starting at offset `i`. */
  predicate OccursAt(s: string, t: string, i: int) {
    0 <= i <= |s| - |t| && s[i..i + |t|] == t
  }

  lemma OccursAtShift(s: string, t: string, i: int)
    requires 1 <= i && |s| > 0
    ensures OccursAt(s, t, i) <==> OccursAt(s[1..], t, i - 1)
  {
    if 0 <= i - 1 <= |s| - 1 - |t| {
      var a, b := s[i..i + |t|], s[1..][i - 1..i - 1 + |t|];
      assert |a| == |b|;
      assert forall k :: 0 <= k < |a| ==> a[k] == s[i + k] == b[k];
    }
  }

  /** `s.includes(t)`: `t` occurs in `s` at some offset (the empty string occurs everywhere). */
  function Contains(s: string, t: string): (r: bool)
    decreases |s|
    ensures r <==> exists i :: OccursAt(s, t, i)
  {
    if IsPrefix(t, s) then
      assert OccursAt(s, t, 0);
      true
    else if |s| <= |t| then
      assert forall i :: OccursAt(s, t, i) ==> i == 0;
      false
    else
      ContainsStep(s, t);
      Contains(s[1..], t)
  }

  /** Past a mismatch at offset 0, `t` occurs in `s` exactly when it occurs in `s[1..]`. */
  lemma ContainsStep(s: string, t: string)
    requires |s| > |t| && !IsPrefix(t, s)
    ensures (exists i :: OccursAt(s, t, i)) <==> (exists i :: OccursAt(s[1..], t, i))
  {
    assert !OccursAt(s, t, 0);
    if i :| OccursAt(s[1..], t, i) {
      OccursAtShift(s, t, i + 1);
    }
    if i :| OccursAt(s, t, i) {
      OccursAtShift(s, t, i);
    }
  }

  /** `s.substring(start, end)`: both bounds clamped to `[0, |s|]`, swapped when out of order. */
  function Substring(s: string, start: int, end: int): (r: string)
    ensures |r| <= |s|
    ensures 0 <= start <= end <= |s| ==> r == s[start..end]
  {
    var a := if start < 0 then 0 else if start > |s| then |s| else start;
    var b := if end < 0 then 0 else if end > |s| then |s| else end;
    if a <= b then s[a..b] else s[b..a]
  }

  /** The first index of `c` in `s`, or -1 (`s.indexOf(c)`). */
  function IndexOf(s: string, c: char): (r: int)
    ensures -1 <= r < |s|
    ensures r == -1 <==> c !in s
    ensures 0 <= r ==> s[r] == c && c !in s[..r]
  {
    if |s| == 0 then -1
    else if s[0] == c then 0
    else
      var k := IndexOf(s[1..], c);
      assert s == [s[0]] + s[1..];
      if k == -1 then -1
      else
        assert s[..k + 1] == [s[0]] + s[1..][..k];
        k + 1
  }

  // ---------------------------------------------------------------------
  // Digits

  predicate IsDecimalDigit(c: char) {
    '0' <= c <= '9'
  }

  /** The value of `c` as a digit in any radix up to 36; 36 when `c` is no digit at all. */
  function DigitValue(c: char): (d: nat)
    ensures d <= 36
    ensures d < 10 <==> IsDecimalDigit(c)
  {
    if '0' <= c <= '9' then c as int - '0' as int
    else if 'a' <= c <= 'z' then c as int - 'a' as int + 10
    else if 'A' <= c <= 'Z' then c as int - 'A' as int + 10
    else 36
  }

  function DigitChar(d: nat): (c: char)
    requires d < 10
    ensures IsDecimalDigit(c) && DigitValue(c) == d
  {
    ('0' as int + d) as char
  }

  /** The length of the longest prefix of `s` made of digits of the given radix. */
  function DigitSpan(s: string, radix: nat): (n: nat)
    ensures n <= |s|
    ensures forall i :: 0 <= i < n ==> DigitValue(s[i]) < radix
    ensures n < |s| ==> DigitValue(s[n]) >= radix
  {
    if |s| > 0 && DigitValue(s[0]) < radix then 1 + DigitSpan(s[1..], radix) else 0
  }

  /** The number the digit string `s` denotes in the given radix, read from the left. */
  function DigitsValue(s: string, radix: nat): (v: nat)
  {
    if |s| == 0 then 0
    else DigitsValue(s[..|s| - 1], radix) * radix + DigitValue(s[|s| - 1])
  }

  // ---------------------------------------------------------------------
  // Number to string

  /** The decimal representation of `n`, without leading zeros. */
  function NatToString(n: nat): (r: string)
    decreases n
    ensures |r| >= 1
    ensures forall i :: 0 <= i < |r| ==> IsDecimalDigit(r[i])
    ensures |r| > 1 ==> r[0] != '0'
    ensures n == 0 <==> r == "0"
  {
    if n < 10 then [DigitChar(n)]
    else
      var p := NatToString(n / 10);
      p + [DigitChar(n % 10)]
  }

  /**
   * `n.toString()` for an integral number `n`: a minus sign, then the
   * decimal digits. JavaScript writes this form for magnitudes below 10^21
   * only; from there it switches to exponential notation.
   */
  function IntToString(n: int): (r: string)
    ensures |r| >= 1
    ensures n < 0 ==> r[0] == '-' && r[1..] == NatToString(-n)
    ensures n >= 0 ==> r == NatToString(n)
  {
    if n < 0 then "-" + NatToString(-n) else NatToString(n)
  }

  /** The decimal text of a number is made of digits and a leading minus sign. */
  lemma IntToStringHasNoLetter(n: int)
    ensures forall i :: 0 <= i < |IntToString(n)| ==> IntToString(n)[i] == '-' || IsDecimalDigit(IntToString(n)[i])
  {
    var r := IntToString(n);
    if n < 0 {
      assert forall i :: 1 <= i < |r| ==> r[i] == r[1..][i - 1];
    }
  }

  /** Reading back the decimal representation gives the number. */
  lemma {:induction false} NatToStringValue(n: nat)
    ensures DigitsValue(NatToString(n), 10) == n
  {
    if n >= 10 {
      var p := NatToString(n / 10);
      var s := p + [DigitChar(n % 10)];
      assert s[..|s| - 1] == p;
      NatToStringValue(n / 10);
    }
  }

  /** A digit run followed by a non-digit: the span stops exactly at its end. */
  lemma {:induction false} DigitSpanConcat(a: string, b: string, radix: nat)
    requires forall i :: 0 <= i < |a| ==> DigitValue(a[i]) < radix
    requires |b| == 0 || DigitValue(b[0]) >= radix
    ensures DigitSpan(a + b, radix) == |a|
  {
    if |a| > 0 {
      assert (a + b)[1..] == a[1..] + b;
      DigitSpanConcat(a[1..], b, radix);
    }
  }

  // ---------------------------------------------------------------------
  // parseInt

  /** The white space and line terminators that `parseInt` skips (ECMAScript StrWhiteSpaceChar). */
  predicate IsJsWhiteSpace(c: char) {
    c == '\t' || c == '\n' || c == '\U{000B}' || c == '\U{000C}' || c == '\r' || c == ' ' ||
    c == '\U{00A0}' || c == '\U{1680}' || ('\U{2000}' <= c <= '\U{200A}') ||
    c == '\U{2028}' || c == '\U{2029}' || c == '\U{202F}' || c == '\U{205F}' ||
    c == '\U{3000}' || c == '\U{FEFF}'
  }

  function TrimStart(s: string): (r: string)
    ensures |r| <= |s| && r == s[|s| - |r|..]
    ensures |r| > 0 ==> !IsJsWhiteSpace(r[0])
    ensures |s| > 0 && !IsJsWhiteSpace(s[0]) ==> r == s
  {
    if |s| > 0 && IsJsWhiteSpace(s[0]) then TrimStart(s[1..]) else s
  }

  /**
   * The digits part of `parseInt`, after white space and sign: hexadecimal
   * after a `0x`/`0X` prefix, decimal otherwise, up to the first character
   * that is not a digit of that radix. `None` when not one digit is found.
   */
  function ParseUnsigned(u: string): (r: Option<nat>)
  {
    var hex := |u| >= 2 && u[0] == '0' && (u[1] == 'x' || u[1] == 'X');
    var radix := if hex then 16 else 10;
    var v := if hex then u[2..] else u;
    var n := DigitSpan(v, radix);
    if n == 0 then None else Some(DigitsValue(v[..n], radix))
  }

  /** The sign part of `parseInt`, after the white space is skipped. */
  function ParseSigned(t: string): (r: Option<int>)
  {
    var negative := |t| > 0 && t[0] == '-';
    var u := if |t| > 0 && (t[0] == '-' || t[0] == '+') then t[1..] else t;
    match ParseUnsigned(u)
    case None => None
    case Some(m) => var k: int := m; Some(if negative then -k else k)
  }

  /**
   * `parseInt(s)` with no radix: skip leading white space, take an optional
   * sign, then read the digits. `None` is `NaN`.
   */
  function ParseInt(s: string): (r: Option<int>)
    ensures r.Some? ==> HasDecimalDigit(s)
  {
    ParseIntNeedsDigit(s);
    ParseSigned(TrimStart(s))
  }

  predicate HasDecimalDigit(s: string) {
    exists i :: 0 <= i < |s| && IsDecimalDigit(s[i])
  }

  /** A number is read only where the text holds a decimal digit (a `0x` prefix starts with one). */
  lemma ParseIntNeedsDigit(s: string)
    ensures ParseSigned(TrimStart(s)).Some? ==> HasDecimalDigit(s)
  {
    var t := TrimStart(s);
    if ParseSigned(t).Some? {
      var signed := |t| > 0 && (t[0] == '-' || t[0] == '+');
      var j := if signed then 1 else 0;
      var u := if signed then t[1..] else t;
      ParseUnsignedNeedsDigit(u);
      assert u[0] == t[j] == s[|s| - |t| + j];
    }
  }

  /** The digits part reads a number only from text that starts with a decimal digit. */
  lemma ParseUnsignedNeedsDigit(u: string)
    requires ParseUnsigned(u).Some?
    ensures |u| > 0 && IsDecimalDigit(u[0])
  {
    var hex := |u| >= 2 && u[0] == '0' && (u[1] == 'x' || u[1] == 'X');
    if !hex {
      assert DigitSpan(u, 10) > 0;
    }
  }

  /** A character that ends the number `parseInt` reads after a decimal digit string. */
  predicate EndsNumber(rest: string) {
    |rest| == 0 || (!IsDecimalDigit(rest[0]) && rest[0] != 'x' && rest[0] != 'X')
  }

  /** The digits part reads back a decimal representation followed by a non-digit. */
  lemma ParseUnsignedOfNatToString(m: nat, rest: string)
    requires EndsNumber(rest)
    ensures ParseUnsigned(NatToString(m) + rest) == Some(m)
  {
    var d := NatToString(m);
    var u := d + rest;
    if |u| >= 2 && u[0] == '0' {
      assert d == "0";
      assert u[1] == rest[0];
    }
    assert |rest| == 0 || DigitValue(rest[0]) >= 10;
    DigitSpanConcat(d, rest, 10);
    assert u[..|d|] == d;
    NatToStringValue(m);
  }

  /**
   * `parseInt` reads back what `toString` wrote, whatever non-digit text
   * follows it: `parseInt(n.toString() + rest) == n`.
   */
  lemma ParseIntOfIntToString(n: int, rest: string)
    requires EndsNumber(rest)
    ensures ParseInt(IntToString(n) + rest) == Some(n)
  {
    if n < 0 {
      ParseIntOfNegativeText(n, rest, IntToString(n) + rest);
    } else {
      ParseIntOfNonNegativeText(n, rest, IntToString(n) + rest);
    }
  }

  lemma ParseIntOfNegativeText(n: int, rest: string, s: string)
    requires EndsNumber(rest) && n < 0 && s == IntToString(n) + rest
    ensures ParseInt(s) == Some(n)
  {
    var m: nat := -n;
    assert s == ['-'] + (NatToString(m) + rest);
    ParseIntOfMinusDigits(m, rest);
  }

  lemma ParseIntOfMinusDigits(m: nat, rest: string)
    requires EndsNumber(rest)
    ensures ParseInt(['-'] + (NatToString(m) + rest)) == Some(-(m as int))
  {
    var u := NatToString(m) + rest;
    ParseUnsignedOfNatToString(m, rest);
    ParseSignedNegative(u, m);
    TrimStartKeeps(['-'] + u);
  }

  lemma ParseIntOfNonNegativeText(n: int, rest: string, s: string)
    requires EndsNumber(rest) && n >= 0 && s == IntToString(n) + rest
    ensures ParseInt(s) == Some(n)
  {
    assert s == NatToString(n) + rest;
    TrimStartKeeps(s);
    ParseUnsignedOfNatToString(n, rest);
    ParseSignedPlain(s, n);
  }

  /** Text that starts with a letter is not a number: `parseInt` gives `NaN`. */
  lemma ParseIntOfLetter(s: string)
    requires |s| > 0 && ('a' <= s[0] <= 'z' || 'A' <= s[0] <= 'Z')
    ensures ParseInt(s) == None
  {
    assert TrimStart(s) == s by {
      LetterIsNotWhiteSpace(s[0]);
    }
    assert ParseUnsigned(s) == None by {
      ParseUnsignedOfLetter(s);
    }
  }

  lemma LetterIsNotWhiteSpace(c: char)
    requires 'a' <= c <= 'z' || 'A' <= c <= 'Z'
    ensures !IsJsWhiteSpace(c)
  {
  }

  lemma ParseUnsignedOfLetter(s: string)
    requires |s| > 0 && ('a' <= s[0] <= 'z' || 'A' <= s[0] <= 'Z')
    ensures ParseUnsigned(s) == None
  {
    assert !IsDecimalDigit(s[0]);
    assert DigitSpan(s, 10) == 0;
  }

  lemma TrimStartKeeps(s: string)
    requires |s| > 0 && (s[0] == '-' || IsDecimalDigit(s[0]))
    ensures TrimStart(s) == s
  {
    assert !IsJsWhiteSpace(s[0]);
  }

  /** A minus sign in front of the digits negates what they denote. */
  lemma ParseSignedNegative(u: string, m: nat)
    requires ParseUnsigned(u) == Some(m)
    ensures ParseSigned(['-'] + u) == Some(-(m as int))
  {
    assert (['-'] + u)[1..] == u;
  }

  /** Digits with no sign in front of them are read as they are. */
  lemma ParseSignedPlain(u: string, m: nat)
    requires |u| > 0 && u[0] != '-' && u[0] != '+' && ParseUnsigned(u) == Some(m)
    ensures ParseSigned(u) == Some(m)
  {
  }

  /** `parseInt(n.toString()) == n`. */
  lemma ParseIntRoundTrip(n: int)
    ensures ParseInt(IntToString(n)) == Some(n)
  {
    ParseIntOfIntToString(n, "");
    assert IntToString(n) + "" == IntToString(n);
  }
}
