/** JavaScript's global `parseInt` called without a radix, as the pagination
    handler calls it on query parameters. `NaN` is `None`. */
module JsNumbers {
  import opened Js

  /** White space and line terminators that `parseInt` skips before the number. */
  predicate IsSpace(c: char) {
    || c == '\t' || c == '\n' || c == '\U{000B}' || c == '\U{000C}' || c == '\r' || c == ' '
    || c == '\U{00A0}' || c == '\U{1680}' || ('\U{2000}' <= c <= '\U{200A}')
    || c == '\U{2028}' || c == '\U{2029}' || c == '\U{202F}' || c == '\U{205F}'
    || c == '\U{3000}' || c == '\U{FEFF}'
  }

  /** The string with its leading white space removed. */
  function TrimStart(s: string): (r: string)
    ensures |r| <= |s| && r == s[|s| - |r|..]
    ensures forall k :: 0 <= k < |s| - |r| ==> IsSpace(s[k])
    ensures r == [] || !IsSpace(r[0])
    decreases |s|
  {
    if s != [] && IsSpace(s[0]) then TrimStart(s[1..]) else s
  }

  /** The value of a digit character in radix 36; 36 for any other character. */
  function DigitValue(c: char): nat {
    if '0' <= c <= '9' then c as nat - '0' as nat
    else if 'a' <= c <= 'z' then c as nat - 'a' as nat + 10
    else if 'A' <= c <= 'Z' then c as nat - 'A' as nat + 10
    else 36
  }

  predicate IsDigit(c: char, radix: nat) {
    DigitValue(c) < radix
  }

  /** The longest prefix of `s` made of radix-`radix` digits. */
  function DigitPrefix(s: string, radix: nat): (r: string)
    ensures |r| <= |s| && r == s[..|r|]
    ensures forall k :: 0 <= k < |r| ==> IsDigit(r[k], radix)
    ensures |r| < |s| ==> !IsDigit(s[|r|], radix)
    decreases |s|
  {
    if s != [] && IsDigit(s[0], radix) then [s[0]] + DigitPrefix(s[1..], radix) else []
  }

  /** The number a digit string denotes, most significant digit first. */
  function DigitsValue(d: string, radix: nat): nat
    decreases |d|
  {
    if d == [] then 0 else DigitsValue(d[..|d| - 1], radix) * radix + DigitValue(d[|d| - 1])
  }

  /** The unsigned part of `parseInt`: a `0x`/`0X` prefix switches to radix 16,
      then as many digits as there are are read; no digit at all is NaN. */
  function ParseUnsigned(u: string): (r: Option<nat>)
    ensures r.Some? ==> u != [] && IsDigit(u[0], 10)
  {
    var hex := |u| >= 2 && u[0] == '0' && (u[1] == 'x' || u[1] == 'X');
    var radix := if hex then 16 else 10;
    var digits := DigitPrefix(if hex then u[2..] else u, radix);
    if digits == [] then None else Some(DigitsValue(digits, radix))
  }

  /** `parseInt(s)`: skip white space, then read the rest. */
  function ParseInt(s: string): (r: Option<int>)
    ensures r.Some? ==> exists k :: 0 <= k < |s| && IsDigit(s[k], 10)
  {
    ParseTrimmed(TrimStart(s))
  }

  /** What `parseInt` reads after the white space: an optional sign, then the
      unsigned part. */
  function ParseTrimmed(t: string): (r: Option<int>)
    ensures r.Some? ==> t != [] && (IsDigit(t[0], 10) || (|t| >= 2 && (t[0] == '-' || t[0] == '+') && IsDigit(t[1], 10)))
    ensures r.Some? && r.value < 0 ==> t != [] && t[0] == '-'
  {
    if t == [] then None
    else if t[0] == '-' then
      match ParseUnsigned(t[1..])
      case None => None
      case Some(v) => Some(-(v as int))
    else if t[0] == '+' then ParseUnsigned(t[1..])
    else ParseUnsigned(t)
  }

  /** `parseInt(q)` where `q` may be undefined, which converts to "undefined". */
  function ParseIntArg(q: Option<string>): (r: Option<int>)
    ensures q.None? ==> r.None?
  {
    ParseInt(if q.Some? then q.value else "undefined")
  }

  function DigitChar(d: nat): char
    requires d < 10
  {
    (d + '0' as nat) as char
  }

  /** The decimal numeral of `n`, without leading zeros. */
  function Decimal(n: nat): string
    decreases n
  {
    if n < 10 then [DigitChar(n)] else Decimal(n / 10) + [DigitChar(n % 10)]
  }

  /** A numeral is a non-empty run of decimal digits that denotes `n` and
      starts with `0` only when it is `0` itself. */
  lemma {:induction false} DecimalDigits(n: nat)
    ensures |Decimal(n)| >= 1
    ensures forall k :: 0 <= k < |Decimal(n)| ==> IsDigit(Decimal(n)[k], 10)
    ensures DigitsValue(Decimal(n), 10) == n
    ensures Decimal(n)[0] == '0' ==> n == 0
    decreases n
  {
    if n >= 10 {
      DecimalDigits(n / 10);
      var d := Decimal(n);
      assert d[..|d| - 1] == Decimal(n / 10);
      assert d[0] == Decimal(n / 10)[0];
    }
  }

  /** The unsigned reader reads a numeral back, ignoring whatever non-digit
      follows (except that `0x` would switch to hexadecimal). */
  lemma UnsignedDecimal(n: nat, rest: string)
    requires rest == [] || (!IsDigit(rest[0], 10) && (n > 0 || (rest[0] != 'x' && rest[0] != 'X')))
    ensures ParseUnsigned(Decimal(n) + rest) == Some(n)
  {
    var s := Decimal(n) + rest;
    DecimalDigits(n);
    DigitsFollowedBy(Decimal(n), rest, 10);
    if n == 0 && |s| >= 2 {
      assert s[1] == rest[0];
    }
  }

  /** `parseInt` reads a numeral back, ignoring whatever non-digit follows. */
  lemma ParseIntDecimal(n: nat, rest: string)
    requires rest == [] || (!IsDigit(rest[0], 10) && (n > 0 || (rest[0] != 'x' && rest[0] != 'X')))
    ensures ParseInt(Decimal(n) + rest) == Some(n)
  {
    DecimalDigits(n);
    UnsignedDecimal(n, rest);
    Unsigned(Decimal(n) + rest, n);
  }

  /** Text starting with a digit is read by the unsigned reader alone. */
  lemma Unsigned(u: string, v: nat)
    requires u != [] && IsDigit(u[0], 10)
    requires ParseUnsigned(u) == Some(v)
    ensures ParseInt(u) == Some(v)
  {
    assert !IsSpace(u[0]);
    assert TrimStart(u) == u;
  }

  /** A leading minus sign negates the number read. */
  lemma ParseIntNegative(n: nat, rest: string)
    requires rest == [] || (!IsDigit(rest[0], 10) && (n > 0 || (rest[0] != 'x' && rest[0] != 'X')))
    ensures ParseInt("-" + Decimal(n) + rest) == Some(-(n as int))
  {
    var d := Decimal(n);
    UnsignedDecimal(n, rest);
    Negated(d + rest, n);
    SeqAssoc("-", d, rest);
  }

  lemma SeqAssoc(a: string, b: string, c: string)
    ensures a + b + c == a + (b + c)
  {
  }

  /** A minus sign in front of an unsigned numeral negates it. */
  lemma Negated(u: string, v: nat)
    requires ParseUnsigned(u) == Some(v)
    ensures ParseInt("-" + u) == Some(-(v as int))
  {
    var s := "-" + u;
    assert s[0] == '-' && s[1..] == u;
    assert TrimStart(s) == s;
  }

  /** Leading white space does not change what `parseInt` reads. */
  lemma ParseIntSkipsSpace(c: char, s: string)
    requires IsSpace(c)
    ensures ParseInt([c] + s) == ParseInt(s)
  {
    var t := [c] + s;
    assert t[0] == c && t[1..] == s;
    assert TrimStart(t) == TrimStart(s);
  }

  /** The digit prefix of a digit run followed by a non-digit is that run. */
  lemma {:induction false} DigitsFollowedBy(d: string, rest: string, radix: nat)
    requires forall k :: 0 <= k < |d| ==> IsDigit(d[k], radix)
    requires rest == [] || !IsDigit(rest[0], radix)
    ensures DigitPrefix(d + rest, radix) == d
    decreases |d|
  {
    if d != [] {
      assert (d + rest)[1..] == d[1..] + rest;
      DigitsFollowedBy(d[1..], rest, radix);
      assert [d[0]] + d[1..] == d;
    } else {
      assert d + rest == rest;
    }
  }

  /** An absent query parameter is NaN, as is a word without digits. */
  lemma ParseIntNaN()
    ensures ParseIntArg(None) == None
    ensures ParseInt("") == None
    ensures ParseInt("abc") == None
  {
    var u, abc := "undefined", "abc";
    assert u[0] == 'u' && abc[0] == 'a';
    NoDigitFirst(u);
    NoDigitFirst(abc);
  }

  /** A string whose first character is not white space, a sign or a decimal
      digit reads as NaN. */
  lemma NoDigitFirst(s: string)
    requires s != [] && !IsSpace(s[0]) && s[0] != '-' && s[0] != '+' && !IsDigit(s[0], 10)
    ensures ParseInt(s) == None
  {
    assert TrimStart(s) == s;
  }

  /** `0x1A` is read in hexadecimal. */
  lemma ParseIntHex()
    ensures ParseInt("0x1A") == Some(26)
  {
    var h := "0x1A";
    HexOneA();
    assert h[0] == '0' && h[1] == 'x' && h[2..] == "1A";
    assert ParseUnsigned(h) == Some(26);
    Unsigned(h, 26);
  }

  lemma HexOneA()
    ensures DigitPrefix("1A", 16) == "1A" && DigitsValue("1A", 16) == 26
  {
    var d := "1A";
    assert IsDigit(d[0], 16) && IsDigit(d[1], 16);
    DigitsFollowedBy(d, [], 16);
    assert d + [] == d;
    assert d[..1] == "1" && "1"[..0] == [];
    assert DigitsValue("1", 16) == 1;
  }
}
