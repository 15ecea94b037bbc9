/** Text forms the program relies on: digits, UUIDs and UTF-8. */
module Text {
  import opened Common

  // ----- digits -----

  function Pow(base: nat, exponent: nat): (p: nat)
    ensures base > 0 ==> p > 0
  {
    if exponent == 0 then 1 else Pow(base, exponent - 1) * base
  }

  predicate IsDigit(c: char) {
    '0' <= c <= '9'
  }

  predicate IsHexDigit(c: char) {
    IsDigit(c) || 'a' <= c <= 'f'
  }

  function Digit(v: nat): (c: char)
    requires v < 16
    ensures IsHexDigit(c) && (v < 10 <==> IsDigit(c))
  {
    if v < 10 then (48 + v) as char else (87 + v) as char
  }

  function DigitValue(c: char): (v: nat)
    requires IsHexDigit(c)
    ensures v < 16 && Digit(v) == c
  {
    if IsDigit(c) then c as int - 48 else c as int - 87
  }

  /** Numbers are written in decimal or in hexadecimal. */
  datatype Radix = Dec | Hex {
    function Base(): nat {
      if Hex? then 16 else 10
    }

    function High(n: nat): nat {
      if Hex? then n / 16 else n / 10
    }

    function Low(n: nat): (d: nat)
      ensures d < 16 && n == High(n) * Base() + d
    {
      if Hex? then n % 16 else n % 10
    }
  }

  /** The low `width` digits of `n`, most significant first. */
  function Fixed(radix: Radix, n: nat, width: nat): (s: string)
    ensures |s| == width
    ensures forall i :: 0 <= i < |s| ==> IsHexDigit(s[i])
    decreases width
  {
    if width == 0 then "" else Fixed(radix, radix.High(n), width - 1) + [Digit(radix.Low(n))]
  }

  function FixedValue(radix: Radix, s: string): nat
    requires forall i :: 0 <= i < |s| ==> IsHexDigit(s[i])
  {
    if s == "" then 0 else FixedValue(radix, s[..|s| - 1]) * radix.Base() + DigitValue(s[|s| - 1])
  }

  /** A number that fits its field is recovered from its digits. */
  lemma {:induction false} FixedRecovers(radix: Radix, n: nat, width: nat)
    requires n < Pow(radix.Base(), width)
    ensures FixedValue(radix, Fixed(radix, n, width)) == n
    decreases width
  {
    if width > 0 {
      var s := Fixed(radix, n, width);
      assert s[..width - 1] == Fixed(radix, radix.High(n), width - 1);
      FixedRecovers(radix, radix.High(n), width - 1);
    }
  }

  /** The shortest decimal form of a natural number. */
  function Decimal(n: nat): (s: string)
    ensures |s| > 0
    ensures forall i :: 0 <= i < |s| ==> IsDigit(s[i])
  {
    if n < 10 then [Digit(n)] else Decimal(n / 10) + [Digit(n % 10)]
  }

  /** No leading zeros. */
  lemma {:induction false} DecimalIsShort(n: nat)
    ensures Decimal(n)[0] == '0' ==> n == 0 && Decimal(n) == "0"
  {
    if n >= 10 {
      DecimalIsShort(n / 10);
      assert Decimal(n)[0] == Decimal(n / 10)[0];
    }
  }

  /** Reads the longest run of digits at the front of `s`, continuing from `acc`. */
  function ReadDigits(s: string, acc: nat): (r: (nat, string))
    ensures |r.1| <= |s|
    ensures s != "" && IsDigit(s[0]) ==> |r.1| < |s|
  {
    if s != "" && IsDigit(s[0]) then ReadDigits(s[1..], acc * 10 + DigitValue(s[0])) else (acc, s)
  }

  predicate EndsNumber(rest: string) {
    rest == "" || !IsDigit(rest[0])
  }

  lemma {:induction false} DecimalStep(n: nat, rest: string)
    ensures ReadDigits(Decimal(n) + rest, 0) == ReadDigits(rest, n)
  {
    if n < 10 {
      assert (Decimal(n) + rest)[1..] == rest;
      assert DigitValue(Digit(n)) == n;
    } else {
      var last := [Digit(n % 10)];
      assert Decimal(n) + rest == Decimal(n / 10) + (last + rest);
      DecimalStep(n / 10, last + rest);
      assert (last + rest)[1..] == rest;
      assert DigitValue(Digit(n % 10)) == n % 10;
    }
  }

  lemma DecimalRead(n: nat, rest: string)
    requires EndsNumber(rest)
    ensures ReadDigits(Decimal(n) + rest, 0) == (n, rest)
  {
    DecimalStep(n, rest);
  }

  /** A signed integer as Python prints it. */
  function Signed(n: int): (s: string)
    ensures |s| > 0
  {
    if n < 0 then "-" + Decimal(-n) else Decimal(n)
  }

  function ReadSigned(s: string): (r: (int, string)) {
    if s != "" && s[0] == '-' then
      var read := ReadDigits(s[1..], 0);
      (-(read.0 as int), read.1)
    else
      ReadDigits(s, 0)
  }

  lemma SignedRead(n: int, rest: string)
    requires EndsNumber(rest)
    ensures ReadSigned(Signed(n) + rest) == (n, rest)
  {
    if n < 0 {
      assert Signed(n) + rest == "-" + (Decimal(-n) + rest);
      assert (Signed(n) + rest)[1..] == Decimal(-n) + rest;
      DecimalRead(-n, rest);
    } else {
      assert (Signed(n) + rest)[0] == Decimal(n)[0];
      DecimalRead(n, rest);
    }
  }

  // ----- UUIDs -----

  /** A 128-bit identifier, compared as a number the way the database compares it. */
  type Uuid = n: nat | n < Pow(16, 32) witness 0

  /** 32 hex digits in the 8-4-4-4-12 form. */
  function Dashed(h: string): (s: string)
    requires |h| == 32
    ensures |s| == 36
  {
    h[..8] + "-" + h[8..12] + "-" + h[12..16] + "-" + h[16..20] + "-" + h[20..]
  }

  lemma Undash(h: string)
    requires |h| == 32
    ensures var s := Dashed(h); s[..8] + s[9..13] + s[14..18] + s[19..23] + s[24..] == h
  {
    var s := Dashed(h);
    assert s[..8] == h[..8] && s[9..13] == h[8..12] && s[14..18] == h[12..16];
    assert s[19..23] == h[16..20] && s[24..] == h[20..];
  }

  /** `str(uuid)`. */
  function UuidText(u: Uuid): (s: string)
    ensures |s| == 36
  {
    Dashed(Fixed(Hex, u, 32))
  }

  lemma UuidTextInjective(u: Uuid, v: Uuid)
    requires UuidText(u) == UuidText(v)
    ensures u == v
  {
    Undash(Fixed(Hex, u, 32));
    Undash(Fixed(Hex, v, 32));
    FixedRecovers(Hex, u, 32);
    FixedRecovers(Hex, v, 32);
  }

  // ----- UTF-8 -----

  /** One character as UTF-8 (RFC 3629, section 3). */
  function Utf8Char(c: char): (b: seq<Byte>)
    ensures 1 <= |b| <= 4
  {
    var n := c as int;
    if n < 0x80 then [n]
    else if n < 0x800 then [0xC0 + n / 64, 0x80 + n % 64]
    else if n < 0x10000 then [0xE0 + n / 4096, 0x80 + n / 64 % 64, 0x80 + n % 64]
    else [0xF0 + n / 262144, 0x80 + n / 4096 % 64, 0x80 + n / 64 % 64, 0x80 + n % 64]
  }

  function Utf8(s: string): (b: seq<Byte>)
    ensures |b| >= |s|
  {
    if s == "" then [] else Utf8Char(s[0]) + Utf8(s[1..])
  }

  function LengthFromLead(lead: Byte): nat {
    if lead < 0x80 then 1 else if lead < 0xE0 then 2 else if lead < 0xF0 then 3 else 4
  }

  lemma LeadTellsLength(c: char)
    ensures LengthFromLead(Utf8Char(c)[0]) == |Utf8Char(c)|
  {
  }

  function CodePoint(b: seq<Byte>): int
    requires 1 <= |b| <= 4
  {
    var digit := (i: int) requires 0 <= i < |b| => b[i] as int - 0x80;
    match |b|
    case 1 => b[0]
    case 2 => (b[0] as int - 0xC0) * 64 + digit(1)
    case 3 => ((b[0] as int - 0xE0) * 64 + digit(1)) * 64 + digit(2)
    case _ => (((b[0] as int - 0xF0) * 64 + digit(1)) * 64 + digit(2)) * 64 + digit(3)
  }

  lemma CodePointRecovers(c: char)
    ensures CodePoint(Utf8Char(c)) == c as int
  {
    var n := c as int;
    assert n / 4096 == n / 64 / 64 && n / 262144 == n / 64 / 64 / 64;
  }

  /** The first byte tells how many bytes follow, so no character is a prefix of another. */
  lemma Utf8CharPrefixFree(c: char, d: char, x: seq<Byte>, y: seq<Byte>)
    requires Utf8Char(c) + x == Utf8Char(d) + y
    ensures c == d && x == y
  {
    var (b, e) := (Utf8Char(c), Utf8Char(d));
    assert b[0] == (b + x)[0] && e[0] == (e + y)[0];
    LeadTellsLength(c);
    LeadTellsLength(d);
    SplitEqual(b, x, e, y);
    CodePointRecovers(c);
    CodePointRecovers(d);
  }

  lemma {:induction false} Utf8Injective(s: string, t: string)
    requires Utf8(s) == Utf8(t)
    ensures s == t
  {
    if s != "" && t != "" {
      Utf8CharPrefixFree(s[0], t[0], Utf8(s[1..]), Utf8(t[1..]));
      Utf8Injective(s[1..], t[1..]);
    }
  }
}
