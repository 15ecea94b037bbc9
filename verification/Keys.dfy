/** Key material: the two accepted forms of a key, and the labels keys are derived under. */
module Keys {
  import opened Common
  import opened Text
  import Base64
  import Readings

  // ----- hexadecimal -----

  /** A hex digit of either case. */
  function HexValue(c: char): (v: Option<nat>)
    ensures v.Some? ==> v.value < 16
  {
    if '0' <= c <= '9' then Some(c as int - 48)
    else if 'a' <= c <= 'f' then Some(c as int - 87)
    else if 'A' <= c <= 'F' then Some(c as int - 55)
    else None
  }

  /** ASCII whitespace. */
  predicate IsSpace(c: char) {
    c == ' ' || '\t' <= c <= '\r'
  }

  /** `bytes.fromhex`: pairs of digits, with whitespace between pairs only; None when it raises. */
  function FromHex(s: string): Option<seq<Byte>>
    decreases |s|
  {
    if s == "" then Some([])
    else if IsSpace(s[0]) then FromHex(s[1..])
    else if |s| == 1 then None
    else match (HexValue(s[0]), HexValue(s[1]), FromHex(s[2..]))
      case (Some(high), Some(low), Some(rest)) =>
        var byte: Byte := high * 16 + low;
        Some([byte] + rest)
      case _ => None
  }

  // ----- the two forms -----

  function Pads(length: nat): string {
    match length % 4
    case 0 => ""
    case 1 => "==="
    case 2 => "=="
    case 3 => "="
  }

  /** `_decode_key`; None when it raises. */
  function DecodeKey(raw: string): (key: Option<seq<Byte>>)
    ensures key.Some? ==> |key.value| == 32
  {
    var decoded := Base64.Decode(raw + Pads(|raw|));
    if decoded.Some? && |decoded.value| == 32 then decoded
    else
      var fromHex := FromHex(raw);
      if fromHex.Some? && |fromHex.value| == 32 then fromHex else None
  }

  /** A key is recovered from its urlsafe Base64 form. */
  lemma FromBase64(key: Digest)
    ensures DecodeKey(Base64.Encode(key, true)) == Some(key)
  {
    Base64.RoundTrip(key, true);
    Base64.EncodedShape(key, true);
    var raw := Base64.Encode(key, true);
    hide Base64.Encode, Base64.Decode, FromHex;
    assert |raw| == 44 && raw + "" == raw;
  }

  /** And from that form with its padding left off. */
  lemma FromUnpaddedBase64(key: Digest)
    ensures var raw := Base64.Encode(key, true);
            raw[|raw| - 1] == '=' && DecodeKey(raw[..|raw| - 1]) == Some(key)
  {
    Base64.RoundTrip(key, true);
    Base64.EncodedShape(key, true);
    var raw := Base64.Encode(key, true);
    hide Base64.Encode, Base64.Decode, FromHex;
    assert |raw| == 44 && |raw[..43]| == 43;
    assert raw[..43] + "=" == raw;
  }

  predicate HexOrSpace(c: char) {
    HexValue(c).Some? || IsSpace(c)
  }

  predicate HexText(s: string) {
    forall i :: 0 <= i < |s| ==> HexOrSpace(s[i])
  }

  function HexDigits(s: string): nat {
    if s == "" then 0 else (if HexValue(s[0]).Some? then 1 else 0) + HexDigits(s[1..])
  }

  /** Every hex digit is a Base64 symbol and no whitespace is. */
  lemma {:induction false} HexDigitsAreSymbols(s: string)
    requires HexText(s)
    ensures Base64.CountSymbols(s) == HexDigits(s) && '=' !in s
  {
    if s != "" {
      assert HexOrSpace(s[0]);
      HexDigitsAreSymbols(s[1..]);
      assert s == [s[0]] + s[1..];
    }
  }

  /** Read as Base64, 64 hex digits are 48 bytes, never a key. */
  lemma HexAsBase64(s: string)
    requires HexText(s) && HexDigits(s) == 64
    ensures Base64.Decode(s + Pads(|s|)).Some? && |Base64.Decode(s + Pads(|s|)).value| == 48
  {
    HexDigitsAreSymbols(s);
    Base64.FeedCounts(Base64.BEGIN, 0, s);
    Base64.FeedConcat(Base64.BEGIN, s, Pads(|s|));
    Base64.PadsAtQuadStart(Base64.FeedAll(Base64.BEGIN, s), Pads(|s|));
  }

  /** So whatever is made of 64 hex digits and whitespace is read as hexadecimal. */
  lemma HexFallsThrough(s: string)
    requires HexText(s) && HexDigits(s) == 64
    ensures var hex := FromHex(s);
            DecodeKey(s) == if hex.Some? && |hex.value| == 32 then hex else None
  {
    HexAsBase64(s);
  }

  /** The digits of each byte, in either case: `upper(i)` says which for the i-th digit from the end. */
  function ToHex(b: seq<Byte>, upper: nat -> bool): string {
    if b == [] then ""
    else HexByte(b[0], upper(2 * |b|), upper(2 * |b| - 1)) + ToHex(b[1..], upper)
  }

  function HexByte(byte: Byte, highUpper: bool, lowUpper: bool): string {
    [HexDigit(byte / 16, highUpper), HexDigit(byte % 16, lowUpper)]
  }

  function HexDigit(v: nat, upper: bool): (c: char)
    requires v < 16
    ensures HexValue(c) == Some(v)
  {
    if v < 10 then (48 + v) as char else if upper then (55 + v) as char else (87 + v) as char
  }

  lemma {:induction false} HexRoundTrip(b: seq<Byte>, upper: nat -> bool)
    ensures FromHex(ToHex(b, upper)) == Some(b)
    ensures HexText(ToHex(b, upper)) && HexDigits(ToHex(b, upper)) == 2 * |b|
  {
    if b != [] {
      hide HexByte;
      HexRoundTrip(b[1..], upper);
      HexByteRead(b[0], upper(2 * |b|), upper(2 * |b| - 1), ToHex(b[1..], upper), b[1..]);
      hide HexText, HexDigits, FromHex;
      assert b == [b[0]] + b[1..];
    }
  }

  lemma HexByteRead(byte: Byte, highUpper: bool, lowUpper: bool, rest: string, b: seq<Byte>)
    requires FromHex(rest) == Some(b) && HexText(rest)
    ensures var s := HexByte(byte, highUpper, lowUpper) + rest;
            FromHex(s) == Some([byte] + b) && HexDigits(s) == 2 + HexDigits(rest) && HexText(s)
  {
    hide HexDigit;
    var s := HexByte(byte, highUpper, lowUpper) + rest;
    assert s[1..] == [HexDigit(byte % 16, lowUpper)] + rest && s[2..] == rest && s[1..][1..] == rest;
    assert HexOrSpace(s[0]) && HexOrSpace(s[1]);
  }

  /** A key is recovered from its 64 hex digits, lower case, upper case or mixed. */
  lemma FromHexKey(key: Digest, upper: nat -> bool)
    ensures DecodeKey(ToHex(key, upper)) == Some(key)
  {
    HexRoundTrip(key, upper);
    HexFallsThrough(ToHex(key, upper));
  }

  // ----- derivation labels -----

  function TenantLabel(tenant: Uuid, column: string): string {
    "amg|tenant|" + UuidText(tenant) + "|col|" + column
  }

  function SubjectLabel(subject: Uuid, version: int, column: string): string {
    "amg|subject|" + (UuidText(subject) + ("|v" + (Signed(version) + ("|col|" + column))))
  }

  /** The HKDF `info` of `derive_dek`. */
  function TenantInfo(tenant: Uuid, column: string): seq<Byte> {
    Utf8(TenantLabel(tenant, column))
  }

  /** The HKDF `info` of `derive_subject_dek`. */
  function SubjectInfo(subject: Uuid, version: int, column: string): seq<Byte> {
    Utf8(SubjectLabel(subject, version, column))
  }

  /** Different tenants or columns derive from different bytes, whatever the column names contain. */
  lemma TenantInfoInjective(t: Uuid, c: string, u: Uuid, d: string)
    requires TenantInfo(t, c) == TenantInfo(u, d)
    ensures t == u && c == d
  {
    hide UuidText;
    Utf8Injective(TenantLabel(t, c), TenantLabel(u, d));
    SplitEqual("amg|tenant|" + UuidText(t) + "|col|", c, "amg|tenant|" + UuidText(u) + "|col|", d);
    SplitEqual("amg|tenant|" + UuidText(t), "|col|", "amg|tenant|" + UuidText(u), "|col|");
    SplitEqual("amg|tenant|", UuidText(t), "amg|tenant|", UuidText(u));
    UuidTextInjective(t, u);
  }

  /** Different subjects, versions or columns too: bumping the version changes what is derived from. */
  lemma SubjectInfoInjective(s: Uuid, v: int, c: string, t: Uuid, w: int, d: string)
    requires SubjectInfo(s, v, c) == SubjectInfo(t, w, d)
    ensures s == t && v == w && c == d
  {
    hide UuidText, Signed;
    var (cTail, dTail) := ("|col|" + c, "|col|" + d);
    var (vTail, wTail) := (Signed(v) + cTail, Signed(w) + dTail);
    Utf8Injective(SubjectLabel(s, v, c), SubjectLabel(t, w, d));
    SplitEqual("amg|subject|", UuidText(s) + ("|v" + vTail), "amg|subject|", UuidText(t) + ("|v" + wTail));
    SplitEqual(UuidText(s), "|v" + vTail, UuidText(t), "|v" + wTail);
    UuidTextInjective(s, t);
    SplitEqual("|v", vTail, "|v", wTail);
    SignedRead(v, cTail);
    SignedRead(w, dTail);
    SplitEqual("|col|", c, "|col|", d);
  }

  /** A tenant's key and a subject's key are never derived from the same bytes. */
  lemma LabelsDisjoint(t: Uuid, c: string, s: Uuid, v: int, d: string)
    ensures TenantInfo(t, c) != SubjectInfo(s, v, d)
  {
    assert TenantLabel(t, c)[4] == 't' && SubjectLabel(s, v, d)[4] == 's';
    if TenantInfo(t, c) == SubjectInfo(s, v, d) {
      hide TenantLabel, SubjectLabel;
      Utf8Injective(TenantLabel(t, c), SubjectLabel(s, v, d));
    }
  }

  /** The labels can be taken apart: what follows the fixed words is the identifier, the version and the column. */
  lemma LabelsRead(id: Uuid, version: int, column: string)
    ensures var s := TenantLabel(id, column);
            && |s| >= 52 && s[..11] == "amg|tenant|" && Readings.ReadUuid(s[11..47]) == id
            && s[47..52] == "|col|" && s[52..] == column
    ensures var s := SubjectLabel(id, version, column);
            && |s| >= 50 && s[..12] == "amg|subject|" && Readings.ReadUuid(s[12..48]) == id
            && s[48..50] == "|v" && ReadSigned(s[50..]) == (version, "|col|" + column)
  {
    hide UuidText, Signed, Readings.ReadUuid, ReadSigned;
    Readings.UuidTextRead(id);
    SignedRead(version, "|col|" + column);
    var (u, v) := (UuidText(id), Signed(version));
    var s := "amg|tenant|" + u + "|col|" + column;
    assert s[..11] == "amg|tenant|" && s[11..47] == u && s[47..52] == "|col|" && s[52..] == column;
    var t := "amg|subject|" + (u + ("|v" + (v + ("|col|" + column))));
    assert t[..12] == "amg|subject|" && t[12..48] == u && t[48..50] == "|v" && t[50..] == v + ("|col|" + column);
  }

  /** Tab, line feed, vertical tab, form feed, carriage return and space. */
  const SPACES: set<char> := {'\t', '\n', 11 as char, 12 as char, '\r', ' '}

  /** `fromhex` takes nothing but digits and whitespace, and two digits for each byte. */
  lemma {:induction false} FromHexTakes(s: string)
    requires FromHex(s).Some?
    ensures HexText(s) && HexDigits(s) == 2 * |FromHex(s).value|
    ensures forall i :: 0 <= i < |s| ==> HexValue(s[i]).Some? || s[i] in SPACES
    decreases |s|
  {
    if s != "" {
      if IsSpace(s[0]) {
        FromHexTakes(s[1..]);
        OneMore(s);
      } else {
        FromHexTakes(s[2..]);
        OneMore(s[1..]);
        OneMore(s);
        assert s[1..][1..] == s[2..];
      }
    }
  }

  /** Whitespace between two bytes makes no difference. */
  lemma {:induction false} SpaceBetweenBytes(a: string, c: char, b: string)
    requires FromHex(a).Some? && c in SPACES
    ensures FromHex(a + [c] + b) == FromHex(a + b)
    decreases |a|
  {
    if a == "" {
      assert (a + [c] + b)[1..] == b == a + b;
    } else {
      var skip := if IsSpace(a[0]) then 1 else 2;
      assert skip <= |a| && FromHex(a[skip..]).Some?;
      hide FromHex;
      SpaceBetweenBytes(a[skip..], c, b);
      assert (a + [c] + b)[skip..] == a[skip..] + [c] + b && (a + b)[skip..] == a[skip..] + b;
      SameTail(a + [c] + b, a + b, skip);
    }
  }

  /** Texts that begin alike and go on to the same bytes are the same bytes. */
  lemma SameTail(s: string, t: string, skip: nat)
    requires 0 < |s| && 0 < |t| && s[0] == t[0] && skip == if IsSpace(s[0]) then 1 else 2
    requires skip <= |s| && skip <= |t| && s[..skip] == t[..skip] && FromHex(s[skip..]) == FromHex(t[skip..])
    ensures FromHex(s) == FromHex(t)
  {
    assert s[skip - 1] == s[..skip][skip - 1] == t[skip - 1];
  }

  /** Inside a byte it makes `fromhex` raise. */
  lemma {:induction false} SpaceInsideByte(a: string, digit: char, c: char, b: string)
    requires FromHex(a).Some? && HexValue(digit).Some? && c in SPACES
    ensures FromHex(a + [digit, c] + b) == None
    decreases |a|
  {
    var s := a + [digit, c] + b;
    if a == "" {
      assert s[0] == digit && s[1] == c;
    } else {
      var skip := if IsSpace(a[0]) then 1 else 2;
      SpaceInsideByte(a[skip..], digit, c, b);
      assert s[skip..] == a[skip..] + [digit, c] + b;
      assert forall i :: 0 <= i < skip ==> s[i] == a[i];
    }
  }

  lemma OneMore(s: string)
    requires s != ""
    ensures HexText(s) <==> HexOrSpace(s[0]) && HexText(s[1..])
    ensures HexDigits(s) == (if HexValue(s[0]).Some? then 1 else 0) + HexDigits(s[1..])
  {
    assert s == [s[0]] + s[1..];
  }
}
