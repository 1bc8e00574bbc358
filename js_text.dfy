/**
 * The few JavaScript primitives both revisions of the game lean on:
 * `charCodeAt`, `parseInt(s, 10)`, `Number(c)` on a one-character string,
 * and `Math.floor(Math.random() * max)` with the random value supplied
 * as an argument.
 */
module JsText {

  datatype Option<T> = None | Some(value: T)

  /** `c.charCodeAt(0)` for a character of the Basic Multilingual Plane. */
  function CharCode(c: char): int
  {
    c as int
  }

  predicate IsDigit(c: char)
  {
    '0' <= c <= '9'
  }

  function DigitValue(c: char): (d: nat)
    requires IsDigit(c)
    ensures d <= 9
  {
    c as int - '0' as int
  }

  function DigitChar(d: nat): (c: char)
    requires d <= 9
    ensures IsDigit(c) && DigitValue(c) == d
  {
    ('0' as int + d) as char
  }

  /** The white-space and line-terminator characters that `parseInt` and `Number` skip. */
  predicate IsWhiteSpace(c: char)
  {
    var k := c as int;
    k == 0x09 || k == 0x0A || k == 0x0B || k == 0x0C || k == 0x0D || k == 0x20 ||
    k == 0xA0 || k == 0x1680 || (0x2000 <= k <= 0x200A) || k == 0x2028 ||
    k == 0x2029 || k == 0x202F || k == 0x205F || k == 0x3000 || k == 0xFEFF
  }

  /** `s` with its leading white space removed. */
  function TrimStart(s: string): (t: string)
    ensures |t| <= |s|
    ensures t == [] || !IsWhiteSpace(t[0])
  {
    if s != [] && IsWhiteSpace(s[0]) then TrimStart(s[1..]) else s
  }

  /** The longest prefix of `s` made of decimal digits. */
  function DigitPrefix(s: string): (d: string)
    ensures |d| <= |s| && d == s[..|d|]
    ensures forall k :: 0 <= k < |d| ==> IsDigit(d[k])
    ensures |d| == |s| || !IsDigit(s[|d|])
  {
    if s != [] && IsDigit(s[0]) then [s[0]] + DigitPrefix(s[1..]) else []
  }

  predicate AllDigits(s: string)
  {
    forall k :: 0 <= k < |s| ==> IsDigit(s[k])
  }

  /** The value of a string of decimal digits, most significant first. */
  function DigitsValue(d: string): nat
    requires AllDigits(d)
  {
    if d == [] then 0 else DigitsValue(d[..|d| - 1]) * 10 + DigitValue(d[|d| - 1])
  }

  /**
   * `parseInt(s, 10)`: skip leading white space, take an optional sign,
   * then read the longest run of digits; `None` stands for NaN, which is
   * what JavaScript returns when that run is empty. Whatever follows the
   * digits is ignored.
   */
  function ParseInt(s: string): (r: Option<int>)
    ensures s == [] ==> r == None
    ensures s != [] && IsDigit(s[0]) ==> r.Some? && r.value >= 0
  {
    var t := TrimStart(s);
    var negative := t != [] && t[0] == '-';
    var body := if t != [] && (t[0] == '-' || t[0] == '+') then t[1..] else t;
    var digits := DigitPrefix(body);
    var magnitude: int := if digits == [] then 0 else DigitsValue(digits);
    if digits == [] then None
    else if negative then Some(-magnitude)
    else Some(magnitude)
  }

  /** The decimal spelling of `n`, as `String(n)` writes it. */
  function Decimal(n: nat): (s: string)
    ensures s != [] && AllDigits(s) && DigitsValue(s) == n
    ensures n < 10 ==> |s| == 1
    ensures 10 <= n < 100 ==> |s| == 2
    ensures |s| > 1 ==> s[0] != '0'
  {
    if n < 10 then [DigitChar(n)]
    else
      var s := Decimal(n / 10) + [DigitChar(n % 10)];
      assert s[..|s| - 1] == Decimal(n / 10);
      s
  }

  lemma {:induction false} DigitPrefixOfDigits(d: string, rest: string)
    requires AllDigits(d)
    requires rest == [] || !IsDigit(rest[0])
    ensures DigitPrefix(d + rest) == d
  {
    if d != [] {
      assert (d + rest)[1..] == d[1..] + rest;
      DigitPrefixOfDigits(d[1..], rest);
    }
  }

  /** `parseInt` reads back what `String(n)` writes, whatever non-digit text follows. */
  lemma ParseDecimal(n: nat, rest: string)
    requires rest == [] || !IsDigit(rest[0])
    ensures ParseInt(Decimal(n) + rest) == Some(n)
  {
    var s := Decimal(n) + rest;
    assert IsDigit(s[0]) by {
      assert s[0] == Decimal(n)[0];
    }
    assert !IsWhiteSpace(s[0]);
    assert TrimStart(s) == s;
    assert s[0] != '-' && s[0] != '+';
    DigitPrefixOfDigits(Decimal(n), rest);
    assert DigitPrefix(s) == Decimal(n);
  }

  /** A leading zero is read past: `parseInt("01")` is 1. */
  lemma ParseLeadingZero(d: char)
    requires IsDigit(d)
    ensures ParseInt(['0', d]) == Some(DigitValue(d))
  {
    var s := ['0', d];
    assert AllDigits(s);
    assert !IsWhiteSpace(s[0]);
    assert TrimStart(s) == s;
    DigitPrefixOfDigits(s, []);
    assert s + [] == s;
    assert DigitsValue(s) == DigitValue(d) by {
      assert s[..1] == ['0'] && ['0'][..0] == [];
      assert DigitsValue(['0']) == 0;
    }
  }

  /** Text after the digits is ignored: `parseInt("1X")` is 1. */
  lemma ParseTrailingText(d: char, c: char)
    requires IsDigit(d) && !IsDigit(c)
    ensures ParseInt([d, c]) == Some(DigitValue(d))
  {
    var n := DigitValue(d);
    assert Decimal(n) == [d];
    assert [d, c] == Decimal(n) + [c];
    ParseDecimal(n, [c]);
  }

  /** Leading white space is skipped: `parseInt(" 1")` is 1. */
  lemma ParseLeadingBlank(w: char, d: char)
    requires IsWhiteSpace(w) && IsDigit(d)
    ensures ParseInt([w, d]) == Some(DigitValue(d))
  {
    assert [w, d][1..] == [d];
    assert TrimStart([d]) == [d];
    assert TrimStart([w, d]) == [d];
    assert [d][1..] == [];
    assert DigitPrefix([d]) == [d];
    assert [d][..0] == [];
    assert DigitsValue([d]) == DigitValue(d);
  }

  /** With no digit to read, `parseInt` gives NaN: `parseInt("")`, `parseInt("A")`, `parseInt("+")`. */
  lemma ParseNoDigit(c: char)
    requires !IsDigit(c)
    ensures ParseInt([]) == None && ParseInt([c]) == None
  {
  }

  /** `Number(c)` for a one-character string: `None` stands for NaN. */
  function CharToNumber(c: char): (r: Option<int>)
    ensures r.Some? <==> IsDigit(c) || IsWhiteSpace(c)
    ensures r.Some? ==> r.value == if IsDigit(c) then DigitValue(c) else 0
  {
    if IsDigit(c) then Some(DigitValue(c))
    else if IsWhiteSpace(c) then Some(0)
    else None
  }

  /**
   * `Number(c)` and `parseInt(c, 10)` agree on every character except
   * white space, which `Number` reads as 0 and `parseInt` as NaN.
   */
  lemma NumberVersusParseInt(c: char)
    ensures IsDigit(c) ==> CharToNumber(c) == ParseInt([c]) == Some(DigitValue(c))
    ensures IsWhiteSpace(c) ==> CharToNumber(c) == Some(0) && ParseInt([c]) == None
    ensures CharToNumber(c) != ParseInt([c]) <==> IsWhiteSpace(c)
  {
    if IsDigit(c) {
      assert Decimal(DigitValue(c)) == [c];
      assert [c] == Decimal(DigitValue(c)) + [];
      ParseDecimal(DigitValue(c), []);
    } else if IsWhiteSpace(c) {
      assert [c][1..] == [];
      assert TrimStart([c]) == [];
    } else {
      assert TrimStart([c]) == [c];
      assert [c][1..] == [];
    }
  }

  predicate IsRandom(u: real)
  {
    0.0 <= u < 1.0
  }

  /** `Math.floor(u * max)`, where `u` is the value `Math.random()` returned. */
  function RandomIndex(u: real, max: int): int
  {
    (u * max as real).Floor
  }

  lemma RandomIndexInRange(u: real, max: int)
    requires IsRandom(u) && max >= 1
    ensures 0 <= RandomIndex(u, max) < max
  {
    var m := max as real;
    assert 0.0 <= u * m by {
      assert 0.0 <= u && 0.0 < m;
    }
    assert u * m < m by {
      assert (1.0 - u) * m > 0.0;
    }
  }
}
