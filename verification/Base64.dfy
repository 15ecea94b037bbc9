/** Base64 (RFC 4648, sections 4 and 5): Python's encoder and its lenient decoder. */
module Base64 {
  import opened Common

  function Symbol(v: nat, urlsafe: bool): char
    requires v < 64
  {
    if v < 26 then (65 + v) as char
    else if v < 52 then (71 + v) as char
    else if v < 62 then (v - 4) as char
    else if v == 62 then (if urlsafe then '-' else '+')
    else (if urlsafe then '_' else '/')
  }

  /** Three bytes as four symbols. */
  function Quad(x: Byte, y: Byte, z: Byte, urlsafe: bool): string {
    [Symbol(x / 4, urlsafe), Symbol(x % 4 * 16 + y / 16, urlsafe),
     Symbol(y % 16 * 4 + z / 64, urlsafe), Symbol(z % 64, urlsafe)]
  }

  /** `b64encode` and `urlsafe_b64encode`, with `=` padding. */
  function Encode(b: seq<Byte>, urlsafe: bool): string {
    if |b| == 0 then ""
    else if |b| == 1 then
      [Symbol(b[0] / 4, urlsafe), Symbol(b[0] % 4 * 16, urlsafe), '=', '=']
    else if |b| == 2 then
      [Symbol(b[0] / 4, urlsafe), Symbol(b[0] % 4 * 16 + b[1] / 16, urlsafe), Symbol(b[1] % 16 * 4, urlsafe), '=']
    else
      Quad(b[0], b[1], b[2], urlsafe) + Encode(b[3..], urlsafe)
  }

  // ----- decoding -----

  /** The decoder's state: bytes written, place in the quad, bits carried over, pads seen, and whether it stopped. */
  datatype Scan = Scan(out: seq<Byte>, quad: nat, left: nat, pads: nat, stopped: bool) {
    /** The carried bits fit what is still to be written. */
    predicate Sound() {
      && quad < 4
      && (quad == 1 ==> left < 64) && (quad == 2 ==> left < 16) && (quad == 3 ==> left < 4)
    }
  }

  /** The value of a symbol once `-_` has been translated to `+/`; None is skipped. */
  function SymbolValue(c: char): (v: Option<nat>)
    ensures v.Some? ==> v.value < 64
  {
    if 'A' <= c <= 'Z' then Some(c as int - 65)
    else if 'a' <= c <= 'z' then Some(c as int - 71)
    else if '0' <= c <= '9' then Some(c as int + 4)
    else if c == '+' || c == '-' then Some(62)
    else if c == '/' || c == '_' then Some(63)
    else None
  }

  /** One character of `a2b_base64`, not strict. */
  function Feed(st: Scan, c: char): (r: Scan)
    requires st.Sound()
    ensures r.Sound()
  {
    if st.stopped then st
    else if c == '=' then
      if st.quad < 2 then st
      else if st.quad + st.pads + 1 >= 4 then st.(pads := st.pads + 1, stopped := true)
      else st.(pads := st.pads + 1)
    else match SymbolValue(c)
      case None => st
      case Some(v) =>
        if st.quad == 0 then Scan(st.out, 1, v, 0, false)
        else if st.quad == 1 then Scan(st.out + [st.left * 4 + v / 16], 2, v % 16, 0, false)
        else if st.quad == 2 then Scan(st.out + [st.left * 16 + v / 4], 3, v % 4, 0, false)
        else Scan(st.out + [st.left * 64 + v], 0, 0, 0, false)
  }

  function FeedAll(st: Scan, s: string): (r: Scan)
    requires st.Sound()
    ensures r.Sound()
    decreases |s|
  {
    if s == "" then st else FeedAll(Feed(st, s[0]), s[1..])
  }

  const BEGIN := Scan([], 0, 0, 0, false)

  /** `urlsafe_b64decode`; None when it raises. */
  function Decode(s: string): Option<seq<Byte>> {
    var end := FeedAll(BEGIN, s);
    if end.stopped || end.quad == 0 then Some(end.out) else None
  }

  lemma {:induction false} FeedConcat(st: Scan, s: string, t: string)
    requires st.Sound()
    ensures FeedAll(st, s + t) == FeedAll(FeedAll(st, s), t)
    decreases |s|
  {
    if s == "" {
      assert s + t == t;
    } else {
      assert (s + t)[0] == s[0] && (s + t)[1..] == s[1..] + t;
      FeedConcat(Feed(st, s[0]), s[1..], t);
    }
  }

  lemma SymbolRead(v: nat, urlsafe: bool)
    requires v < 64
    ensures SymbolValue(Symbol(v, urlsafe)) == Some(v) && Symbol(v, urlsafe) != '='
  {
  }

  lemma FeedOne(st: Scan, c: char, s: string)
    requires st.Sound()
    ensures FeedAll(st, [c] + s) == FeedAll(Feed(st, c), s)
  {
    assert ([c] + s)[1..] == s;
  }

  lemma FeedFour(st: Scan, a: char, b: char, c: char, d: char)
    requires st.Sound()
    ensures FeedAll(st, [a, b, c, d]) == Feed(Feed(Feed(Feed(st, a), b), c), d)
  {
    hide Feed, FeedAll;
    var (s1, s2) := (Feed(st, a), Feed(Feed(st, a), b));
    var (s3, s4) := (Feed(s2, c), Feed(Feed(s2, c), d));
    FeedNothing(s4);
    FeedOne(s3, d, "");
    FeedOne(s2, c, [d]);
    FeedOne(s1, b, [c, d]);
    FeedOne(st, a, [b, c, d]);
    assert [d] + "" == [d] && [c] + [d] == [c, d] && [b] + [c, d] == [b, c, d] && [a] + [b, c, d] == [a, b, c, d];
  }

  lemma FeedNothing(st: Scan)
    requires st.Sound()
    ensures FeedAll(st, "") == st
  {
  }

  lemma TripleBits(x: Byte, y: Byte, z: Byte)
    ensures var (p, q, r, s) := (x / 4, x % 4 * 16 + y / 16, y % 16 * 4 + z / 64, z % 64);
            && p * 4 + q / 16 == x && q % 16 * 16 + r / 4 == y && r % 4 * 64 + s == z
            && p < 64 && q < 64 && r < 64 && s < 64
  {
  }

  /** What one symbol does at each place of a quad. */
  lemma FeedSymbol(out: seq<Byte>, left: nat, v: nat, urlsafe: bool)
    requires v < 64
    ensures Feed(Scan(out, 0, 0, 0, false), Symbol(v, urlsafe)) == Scan(out, 1, v, 0, false)
    ensures left < 64 ==>
              Feed(Scan(out, 1, left, 0, false), Symbol(v, urlsafe))
              == Scan(out + [left * 4 + v / 16], 2, v % 16, 0, false)
    ensures left < 16 ==>
              Feed(Scan(out, 2, left, 0, false), Symbol(v, urlsafe))
              == Scan(out + [left * 16 + v / 4], 3, v % 4, 0, false)
    ensures left < 4 ==>
              Feed(Scan(out, 3, left, 0, false), Symbol(v, urlsafe)) == Scan(out + [left * 64 + v], 0, 0, 0, false)
  {
    SymbolRead(v, urlsafe);
    hide Symbol, SymbolValue;
  }

  /** Four symbols give three bytes. */
  lemma FeedTriple(out: seq<Byte>, x: Byte, y: Byte, z: Byte, urlsafe: bool)
    ensures FeedAll(Scan(out, 0, 0, 0, false), Quad(x, y, z, urlsafe))
         == Scan(out + [x, y, z], 0, 0, 0, false)
  {
    var (p, q, r, s) := (x / 4, x % 4 * 16 + y / 16, y % 16 * 4 + z / 64, z % 64);
    hide Symbol, Feed, FeedAll;
    TripleBits(x, y, z);
    FeedFour(Scan(out, 0, 0, 0, false), Symbol(p, urlsafe), Symbol(q, urlsafe), Symbol(r, urlsafe), Symbol(s, urlsafe));
    FeedSymbol(out, 0, p, urlsafe);
    FeedSymbol(out, p, q, urlsafe);
    FeedSymbol(out + [x], q % 16, r, urlsafe);
    FeedSymbol(out + [x] + [y], r % 4, s, urlsafe);
    assert out + [x] + [y] + [z] == out + [x, y, z];
  }

  /** A last group of two bytes, and its `=`. */
  lemma FeedPair(out: seq<Byte>, x: Byte, y: Byte, urlsafe: bool)
    ensures FeedAll(Scan(out, 0, 0, 0, false),
                    [Symbol(x / 4, urlsafe), Symbol(x % 4 * 16 + y / 16, urlsafe), Symbol(y % 16 * 4, urlsafe), '='])
         == Scan(out + [x, y], 3, 0, 1, true)
  {
    var (p, q, r) := (x / 4, x % 4 * 16 + y / 16, y % 16 * 4);
    SymbolRead(p, urlsafe);
    SymbolRead(q, urlsafe);
    SymbolRead(r, urlsafe);
    FeedFour(Scan(out, 0, 0, 0, false), Symbol(p, urlsafe), Symbol(q, urlsafe), Symbol(r, urlsafe), '=');
    hide Symbol, SymbolValue;
    assert p * 4 + q / 16 == x && q % 16 * 16 + r / 4 == y && r % 4 == 0;
    assert out + [x] + [y] == out + [x, y];
  }

  /** A last group of one byte, and its `==`. */
  lemma FeedSingle(out: seq<Byte>, x: Byte, urlsafe: bool)
    ensures FeedAll(Scan(out, 0, 0, 0, false), [Symbol(x / 4, urlsafe), Symbol(x % 4 * 16, urlsafe), '=', '='])
         == Scan(out + [x], 2, 0, 2, true)
  {
    var (p, q) := (x / 4, x % 4 * 16);
    SymbolRead(p, urlsafe);
    SymbolRead(q, urlsafe);
    FeedFour(Scan(out, 0, 0, 0, false), Symbol(p, urlsafe), Symbol(q, urlsafe), '=', '=');
    hide Symbol, SymbolValue;
    assert p * 4 + q / 16 == x && q % 16 == 0;
  }

  lemma {:induction false} EncodedIsRead(out: seq<Byte>, b: seq<Byte>, urlsafe: bool)
    ensures var end := FeedAll(Scan(out, 0, 0, 0, false), Encode(b, urlsafe));
            end.out == out + b && (end.stopped || end.quad == 0)
    decreases |b|
  {
    hide Feed, Symbol;
    if |b| == 0 {
      assert out + b == out;
    } else if |b| == 1 {
      FeedSingle(out, b[0], urlsafe);
      assert b == [b[0]];
    } else if |b| == 2 {
      FeedPair(out, b[0], b[1], urlsafe);
      assert b == [b[0], b[1]];
    } else {
      FeedTriple(out, b[0], b[1], b[2], urlsafe);
      hide Encode, FeedAll;
      EncodeTriple(b, urlsafe);
      FeedConcat(Scan(out, 0, 0, 0, false), Quad(b[0], b[1], b[2], urlsafe), Encode(b[3..], urlsafe));
      EncodedIsRead(out + [b[0], b[1], b[2]], b[3..], urlsafe);
      assert out + [b[0], b[1], b[2]] + b[3..] == out + b;
    }
  }

  lemma EncodeTriple(b: seq<Byte>, urlsafe: bool)
    requires |b| > 2
    ensures Encode(b, urlsafe) == Quad(b[0], b[1], b[2], urlsafe) + Encode(b[3..], urlsafe)
  {
    hide Symbol;
  }

  /** Decoding recovers what was encoded, in either alphabet. */
  lemma RoundTrip(b: seq<Byte>, urlsafe: bool)
    ensures Decode(Encode(b, urlsafe)) == Some(b)
  {
    EncodedIsRead([], b, urlsafe);
    assert [] + b == b;
  }

  /** Four symbols for every three bytes, the last group padded; only its end can be `=`. */
  lemma {:induction false} EncodedShape(b: seq<Byte>, urlsafe: bool)
    ensures |Encode(b, urlsafe)| == (|b| + 2) / 3 * 4
    ensures |b| % 3 == 2 ==> Encode(b, urlsafe)[|Encode(b, urlsafe)| - 1] == '='
  {
    hide Symbol, Quad;
    if |b| > 2 {
      EncodeTriple(b, urlsafe);
      QuadLength(b[0], b[1], b[2], urlsafe);
      EncodedShape(b[3..], urlsafe);
      hide Encode;
    }
  }

  lemma QuadLength(x: Byte, y: Byte, z: Byte, urlsafe: bool)
    ensures |Quad(x, y, z, urlsafe)| == 4
  {
  }

  function CountSymbols(s: string): nat {
    if s == "" then 0 else (if SymbolValue(s[0]).Some? then 1 else 0) + CountSymbols(s[1..])
  }

  lemma FeedCountsOne(st: Scan, fed: nat, c: char)
    requires st.Sound() && !st.stopped && st.quad == fed % 4 && |st.out| == fed * 3 / 4
    requires c != '='
    ensures var fed' := fed + if SymbolValue(c).Some? then 1 else 0;
            var r := Feed(st, c);
            !r.stopped && r.quad == fed' % 4 && |r.out| == fed' * 3 / 4
  {
    hide SymbolValue;
  }

  /** Without pads, `n` symbols fill `3 * n / 4` bytes. */
  lemma {:induction false} FeedCounts(st: Scan, fed: nat, s: string)
    requires st.Sound() && !st.stopped && st.quad == fed % 4 && |st.out| == fed * 3 / 4
    requires '=' !in s
    ensures var end := FeedAll(st, s);
            !end.stopped && end.quad == (fed + CountSymbols(s)) % 4 && |end.out| == (fed + CountSymbols(s)) * 3 / 4
    decreases |s|
  {
    if s != "" {
      assert s[0] in s;
      FeedCountsOne(st, fed, s[0]);
      hide Feed, SymbolValue;
      FeedCounts(Feed(st, s[0]), fed + if SymbolValue(s[0]).Some? then 1 else 0, s[1..]);
    }
  }

  lemma {:induction false} PadsAtQuadStart(st: Scan, pads: string)
    requires st.Sound() && st.quad == 0 && forall i :: 0 <= i < |pads| ==> pads[i] == '='
    ensures FeedAll(st, pads) == st
    decreases |pads|
  {
    if pads != "" {
      PadsAtQuadStart(st, pads[1..]);
    }
  }

  lemma SymbolAlphabet(v: nat, urlsafe: bool)
    requires v < 64
    ensures Symbol(v, urlsafe) !in (if urlsafe then {'+', '/'} else {'-', '_'})
  {
  }

  /** Standard Base64 has no `-` or `_`, the urlsafe form no `+` or `/`. */
  lemma {:induction false} EncodeAlphabet(b: seq<Byte>, urlsafe: bool, i: nat)
    requires i < |Encode(b, urlsafe)|
    ensures Encode(b, urlsafe)[i] !in (if urlsafe then {'+', '/'} else {'-', '_'})
    decreases |b|
  {
    forall v: nat | v < 64 ensures Symbol(v, urlsafe) !in (if urlsafe then {'+', '/'} else {'-', '_'}) {
      SymbolAlphabet(v, urlsafe);
    }
    hide Symbol;
    if |b| > 2 && i >= 4 {
      EncodeAlphabet(b[3..], urlsafe, i - 4);
    }
  }
}
