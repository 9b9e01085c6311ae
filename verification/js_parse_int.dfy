/**
 * ECMAScript's global `parseInt(string)` called with one argument, as the
 * DELETE handler calls it on the route parameter: leading white space is
 * skipped, one sign is taken, a `0x`/`0X` prefix switches to base 16 and
 * otherwise the base is 10, and the longest run of digits that follows is
 * the value; when that run is empty the result is NaN (here `None`). This is
 * the algorithm of section 19.2.5 of the ECMAScript Language Specification
 * (ECMA-262), with the result an unbounded integer instead of a double.
 */
module JsParseInt {
  import opened Wrappers

  /** The WhiteSpace and LineTerminator code points that parseInt skips. */
  predicate IsStrWhiteSpace(c: char) {
    c == '\t' || c == '\n' || c == '\U{000B}' || c == '\U{000C}' || c == '\r' || c == ' '
    || c == '\U{00A0}' || c == '\U{1680}' || ('\U{2000}' <= c <= '\U{200A}')
    || c == '\U{2028}' || c == '\U{2029}' || c == '\U{202F}' || c == '\U{205F}'
    || c == '\U{3000}' || c == '\U{FEFF}'
  }

  /** `s` with its leading white space removed. */
  function TrimStart(s: string): (r: string)
    ensures |r| <= |s| && r == s[|s| - |r|..]
    ensures forall i :: 0 <= i < |s| - |r| ==> IsStrWhiteSpace(s[i])
    ensures r == [] || !IsStrWhiteSpace(r[0])
  {
    if s != [] && IsStrWhiteSpace(s[0]) then TrimStart(s[1..]) else s
  }

  /** The value of `c` as a digit in a base up to 36, or 36 when `c` is no digit at all. */
  function DigitValue(c: char): nat {
    if '0' <= c <= '9' then c as int - '0' as int
    else if 'a' <= c <= 'z' then c as int - 'a' as int + 10
    else if 'A' <= c <= 'Z' then c as int - 'A' as int + 10
    else 36
  }

  predicate IsDigit(c: char, radix: nat) {
    DigitValue(c) < radix
  }

  /** The length of the longest prefix of `s` made of digits of the given base. */
  function DigitRun(s: string, radix: nat): (k: nat)
    ensures k <= |s|
    ensures forall i :: 0 <= i < k ==> IsDigit(s[i], radix)
    ensures k < |s| ==> !IsDigit(s[k], radix)
  {
    if s == [] || !IsDigit(s[0], radix) then 0 else 1 + DigitRun(s[1..], radix)
  }

  /** The number written by the digits `ds`, most significant first. */
  function ValueOf(ds: string, radix: nat): nat {
    if ds == [] then 0 else ValueOf(ds[..|ds| - 1], radix) * radix + DigitValue(ds[|ds| - 1])
  }

  /**
   * The unsigned part of parseInt: a `0x`/`0X` prefix selects base 16, any
   * other text base 10, and the longest run of digits after it is the value.
   */
  function ParseMagnitude(unsigned: string): (r: Option<nat>)
    ensures r.Some? ==> unsigned != [] && IsDigit(unsigned[0], 10)
    ensures unsigned != [] && '1' <= unsigned[0] <= '9' ==> r.Some?
  {
    var hex := |unsigned| >= 2 && unsigned[0] == '0' && (unsigned[1] == 'x' || unsigned[1] == 'X');
    var radix := if hex then 16 else 10;
    var digits := if hex then unsigned[2..] else unsigned;
    var end := DigitRun(digits, radix);
    if end == 0 then None else Some(ValueOf(digits[..end], radix))
  }

  /** `parseInt(input)`; `None` stands for NaN. */
  function ParseInt(input: string): (r: Option<int>)
    ensures r.Some? ==> exists k :: 0 <= k < |input| && IsDigit(input[k], 10)
    ensures r.Some? && r.value < 0 ==> exists k :: 0 <= k < |input| && input[k] == '-'
  {
    ParseSigned(TrimStart(input))
  }

  /** parseInt after the leading white space: an optional sign, then the magnitude. */
  function ParseSigned(s: string): (r: Option<int>)
    ensures r.Some? ==> s != [] && (IsDigit(s[0], 10) || (|s| > 1 && IsDigit(s[1], 10)))
    ensures r.Some? && r.value < 0 ==> s[0] == '-'
  {
    var negative := s != [] && s[0] == '-';
    var unsigned := if s != [] && (s[0] == '-' || s[0] == '+') then s[1..] else s;
    match ParseMagnitude(unsigned)
    case None => None
    case Some(m) => var v: int := m; Some(if negative then -v else v)
  }

  function DigitChar(d: nat): char
    requires d < 10
  {
    ('0' as int + d) as char
  }

  /** The decimal text of a natural number, as a JavaScript template literal renders it. */
  function NatString(n: nat): (s: string)
    ensures |s| >= 1
    ensures forall i :: 0 <= i < |s| ==> IsDigit(s[i], 10)
    ensures s[0] == '0' <==> n == 0
    decreases n
  {
    if n < 10 then [DigitChar(n)] else NatString(n / 10) + [DigitChar(n % 10)]
  }

  /** The decimal text of an integer id, as `${id}` renders it in the page script. */
  function DecimalString(n: int): (s: string)
    ensures s != [] && (s[0] == '-' <==> n < 0)
    ensures n >= 0 ==> '0' <= s[0] <= '9'
    ensures forall i :: 1 <= i < |s| ==> IsDigit(s[i], 10)
  {
    if n < 0 then "-" + NatString(-n) else NatString(n)
  }

  /** The digits `NatString` writes read back as the number. */
  lemma {:induction false} NatStringDigits(n: nat)
    ensures ValueOf(NatString(n), 10) == n
    decreases n
  {
    if n >= 10 {
      NatStringDigits(n / 10);
      var s := NatString(n / 10);
      var t := NatString(n);
      assert t == s + [DigitChar(n % 10)];
      assert t[..|t| - 1] == s;
      assert ValueOf(t, 10) == ValueOf(s, 10) * 10 + n % 10;
    }
  }

  lemma {:induction false} TrimStartSkips(ws: string, t: string)
    requires forall i :: 0 <= i < |ws| ==> IsStrWhiteSpace(ws[i])
    requires t == [] || !IsStrWhiteSpace(t[0])
    ensures TrimStart(ws + t) == t
  {
    if ws != [] {
      assert (ws + t)[1..] == ws[1..] + t;
      TrimStartSkips(ws[1..], t);
    }
  }

  lemma {:induction false} DigitRunStopsAt(ds: string, rest: string, radix: nat)
    requires forall i :: 0 <= i < |ds| ==> IsDigit(ds[i], radix)
    requires rest == [] || !IsDigit(rest[0], radix)
    ensures DigitRun(ds + rest, radix) == |ds|
  {
    if ds != [] {
      assert (ds + rest)[1..] == ds[1..] + rest;
      DigitRunStopsAt(ds[1..], rest, radix);
    }
  }

  /**
   * parseInt reads back the decimal text of any integer, whatever white space
   * precedes it and whatever non-digit text follows it, except that a `0`
   * followed by `x` or `X` is read as a hexadecimal prefix.
   */
  lemma ParseIntReadsDecimal(ws: string, n: int, rest: string)
    requires forall i :: 0 <= i < |ws| ==> IsStrWhiteSpace(ws[i])
    requires rest == [] || (!IsDigit(rest[0], 10) && !(n == 0 && (rest[0] == 'x' || rest[0] == 'X')))
    ensures ParseInt(ws + DecimalString(n) + rest) == Some(n)
  {
    var t := DecimalString(n) + rest;
    ParseSignedReadsDecimal(n, rest);
    assert t[0] == DecimalString(n)[0];
    assert ws + DecimalString(n) + rest == ws + t;
    ParseIntSkipsWhiteSpace(ws, t);
  }

  lemma ParseSignedReadsDecimal(n: int, rest: string)
    requires rest == [] || (!IsDigit(rest[0], 10) && !(n == 0 && (rest[0] == 'x' || rest[0] == 'X')))
    ensures ParseSigned(DecimalString(n) + rest) == Some(n)
  {
    if n < 0 {
      var m: nat := -n;
      assert DecimalString(n) == "-" + NatString(m);
      assert DecimalString(n) + rest == "-" + (NatString(m) + rest);
      ParseSignedReadsNegative(m, rest);
    } else {
      assert DecimalString(n) == NatString(n);
      ParseSignedReadsNatural(n, rest);
    }
  }

  lemma ParseSignedReadsNegative(m: nat, rest: string)
    requires m > 0 && (rest == [] || !IsDigit(rest[0], 10))
    ensures ParseSigned("-" + (NatString(m) + rest)) == Some(-(m as int))
  {
    var unsigned := NatString(m) + rest;
    ParseMagnitudeReadsDecimal(m, rest);
    var t := "-" + unsigned;
    assert t[0] == '-' && t[1..] == unsigned;
    NegativeSign(t, m);
  }

  lemma ParseSignedReadsNatural(m: nat, rest: string)
    requires rest == [] || (!IsDigit(rest[0], 10) && !(m == 0 && (rest[0] == 'x' || rest[0] == 'X')))
    ensures var t := NatString(m) + rest; t != [] && '0' <= t[0] <= '9'
    ensures ParseSigned(NatString(m) + rest) == Some(m as int)
  {
    ParseMagnitudeReadsDecimal(m, rest);
    var t := NatString(m) + rest;
    assert t[0] == NatString(m)[0];
    NoSign(t, m);
  }

  lemma NegativeSign(t: string, m: nat)
    requires t != [] && t[0] == '-' && ParseMagnitude(t[1..]) == Some(m)
    ensures ParseSigned(t) == Some(-(m as int))
  {
  }

  lemma NoSign(t: string, m: nat)
    requires t != [] && '0' <= t[0] <= '9' && ParseMagnitude(t) == Some(m)
    ensures ParseSigned(t) == Some(m as int)
  {
  }

  lemma ParseIntSkipsWhiteSpace(ws: string, t: string)
    requires forall i :: 0 <= i < |ws| ==> IsStrWhiteSpace(ws[i])
    requires t == [] || t[0] == '-' || '0' <= t[0] <= '9'
    ensures ParseInt(ws + t) == ParseSigned(t)
  {
    TrimStartSkips(ws, t);
  }

  lemma ParseMagnitudeReadsDecimal(m: nat, rest: string)
    requires rest == [] || (!IsDigit(rest[0], 10) && !(m == 0 && (rest[0] == 'x' || rest[0] == 'X')))
    ensures NatString(m) != [] && IsDigit(NatString(m)[0], 10)
    ensures ParseMagnitude(NatString(m) + rest) == Some(m)
  {
    var digits := NatString(m);
    NatStringDigits(m);
    var unsigned := digits + rest;
    assert unsigned[0] == digits[0];
    assert |unsigned| >= 2 && unsigned[0] == '0' ==> |digits| == 1 && unsigned[1] == rest[0];
    DigitRunStopsAt(digits, rest, 10);
    assert unsigned[..|digits|] == digits;
  }

  /** A route parameter without a single decimal digit is NaN. */
  lemma ParseIntWithoutDigits(input: string)
    requires forall i :: 0 <= i < |input| ==> !IsDigit(input[i], 10)
    ensures ParseInt(input) == None
  {
    var s := TrimStart(input);
    assert forall i :: 0 <= i < |s| ==> s[i] == input[|input| - |s| + i];
    var unsigned := if s != [] && (s[0] == '-' || s[0] == '+') then s[1..] else s;
    assert unsigned == [] || !IsDigit(unsigned[0], 10);
    assert ParseMagnitude(unsigned) == None;
  }
}
