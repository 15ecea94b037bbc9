/** What the encoder and the listener write for a scalar says which scalar it was. */
module ValueReadings {
  import opened Common
  import opened Text
  import opened Calendar
  import opened PyValues
  import opened Readings
  import Base64
  import Json
  import AuditListener

  /** A JSON value is read as the scalar it stands for: the text forms by their readers, the rest as they are. */
  ghost predicate JsonStandsFor(v: Json.Value, p: Py) {
    match p
    case NoneValue => v.Null?
    case Bool(b) => v.Boolean? && v.b == b
    case Int(n) => v.Number? && v.n == n
    case Str(s) => v.String? && v.s == s
    case EnumMember(Str(s), true) => v.String? && v.s == s
    case EnumMember(Int(n), true) => v.Number? && v.n == n
    case UuidValue(u) => v.String? && |v.s| == 36 && ReadUuid(v.s) == u && v.s[8] == '-'
    case DateTime(stamp) =>
      v.String? && |v.s| >= 25 && ReadInstant(v.s) == stamp.Utc() && v.s[10] == 'T' && v.s[|v.s| - 6..] == "+00:00"
    case DateValue(day) => v.String? && |v.s| == 10 && ReadDay(v.s) == day && v.s[4] == '-'
    case Bytes(bytes) =>
      v.String? && Base64.Decode(v.s) == Some(bytes) && forall i :: 0 <= i < |v.s| ==> v.s[i] != '-' && v.s[i] != '_'
    case List(items) =>
      v.Array? && |v.items| == |items| && forall i :: 0 <= i < |items| ==> ToJson(items[i]) == Some(v.items[i])
    case Dict(entries) =>
      && v.Object? && |v.members| == |entries|
      && forall i :: 0 <= i < |entries| ==>
           v.members[i].key == entries[i].key && ToJson(entries[i].value) == Some(v.members[i].value)
    case _ => false
  }

  /** The encoder keeps every value of a type it takes: identifiers, times, dates and bytes can be read back. */
  lemma EncodedStandsFor(p: Py)
    requires Encodable(p)
    ensures ToJson(p).Some? && JsonStandsFor(ToJson(p).value, p)
  {
    hide UuidText, UtcText, DateText, Base64.Encode, Base64.Decode, ReadUuid, ReadInstant, ReadDay;
    EncodableIffToJson(p);
    match p
    case UuidValue(u) => UuidTextRead(u);
    case DateTime(stamp) => UtcTextRead(stamp);
    case DateValue(day) => DateTextRead(day);
    case Bytes(bytes) =>
      Base64.RoundTrip(bytes, false);
      var s := Base64.Encode(bytes, false);
      forall i | 0 <= i < |s| ensures s[i] != '-' && s[i] != '_' {
        Base64.EncodeAlphabet(bytes, false, i);
      }
    case _ =>
  }

  /** What the listener records is read as the value it came from, bytes as their number. */
  ghost predicate RecordStandsFor(r: Py, p: Py) {
    match p
    case EnumMember(value, _) => r == value
    case UuidValue(u) => r.Str? && |r.s| == 36 && ReadUuid(r.s) == u && r.s[8] == '-'
    case DateTime(stamp) => r.Str? && |r.s| >= 19 && ReadIso(r.s) == (stamp.wall, stamp.offset) && r.s[10] == 'T'
    case DateValue(day) => r.Str? && |r.s| == 10 && ReadDay(r.s) == day && r.s[4] == '-'
    case Decimal(text) => r == Str(text)
    case Bytes(bytes) => r.Str? && "<bytes:" <= r.s && ReadDigits(r.s[7..], 0) == (|bytes|, ">")
    case List(items) =>
      && r.List? && |r.items| == |items|
      && forall i :: 0 <= i < |items| ==> r.items[i] == AuditListener.Serialize(items[i])
    case Dict(entries) =>
      && r.Dict? && |r.entries| == |entries|
      && forall i :: 0 <= i < |entries| ==>
           r.entries[i] == Entry(entries[i].key, AuditListener.Serialize(entries[i].value))
    case _ => r == p
  }

  lemma RecordedStandsFor(p: Py)
    ensures RecordStandsFor(AuditListener.Serialize(p), p)
  {
    hide UuidText, IsoText, DateText, Text.Decimal, ReadUuid, ReadIso, ReadDay, ReadDigits;
    match p
    case UuidValue(u) => UuidTextRead(u);
    case DateTime(stamp) => IsoTextRead(stamp);
    case DateValue(day) => DateTextRead(day);
    case Bytes(bytes) =>
      DecimalRead(|bytes|, ">");
      var n := Text.Decimal(|bytes|);
      assert ("<bytes:" + n + ">")[7..] == n + ">";
    case _ =>
  }
}
