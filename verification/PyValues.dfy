/** Column values before they are written as JSON. */
module PyValues {
  import opened Common
  import opened Text
  import opened Calendar
  import Base64
  import Json

  /**
   * A Python value as it sits in an ORM attribute; floats are left out. An enum member is `mixed` when its class
   * is a `str` or `int` class too.
   */
  datatype Py =
    | NoneValue
    | Bool(b: bool)
    | Int(n: int)
    | Str(s: string)
    | UuidValue(u: Uuid)
    | DateTime(stamp: Stamp)
    | DateValue(day: Day)
    | Bytes(bytes: seq<Byte>)
    | Decimal(text: string)
    | EnumMember(value: Py, mixed: bool)
    | List(items: seq<Py>)
    | Dict(entries: seq<Entry>)
    | Opaque

  datatype Entry = Entry(key: string, value: Py)

  /** What `json.dumps(..., default=_json_default)` makes of a value; None when it raises TypeError. */
  function ToJson(p: Py): Option<Json.Value>
    decreases p, 0
  {
    match p
    case NoneValue => Some(Json.Null)
    case Bool(b) => Some(Json.Boolean(b))
    case Int(n) => Some(Json.Number(n))
    case Str(s) => Some(Json.String(s))
    case UuidValue(u) => Some(Json.String(UuidText(u)))
    case DateTime(stamp) => Some(Json.String(UtcText(stamp)))
    case DateValue(day) => Some(Json.String(DateText(day)))
    case Bytes(bytes) => Some(Json.String(Base64.Encode(bytes, false)))
    case Decimal(_) => None
    case EnumMember(Str(s), true) => Some(Json.String(s))
    case EnumMember(Int(n), true) => Some(Json.Number(n))
    case EnumMember(_, _) => None
    case List(items) =>
      (match ItemsToJson(items)
       case None => None
       case Some(values) => Some(Json.Array(values)))
    case Dict(entries) =>
      (match EntriesToJson(entries)
       case None => None
       case Some(members) => Some(Json.Object(members)))
    case Opaque => None
  }

  function ItemsToJson(items: seq<Py>): (r: Option<seq<Json.Value>>)
    ensures r.Some? ==> |r.value| == |items|
    ensures r.Some? ==> forall i :: 0 <= i < |items| ==> ToJson(items[i]) == Some(r.value[i])
    decreases items, 1
  {
    if items == [] then Some([])
    else match (ToJson(items[0]), ItemsToJson(items[1..]))
      case (Some(v), Some(rest)) => Some([v] + rest)
      case _ => None
  }

  function EntriesToJson(entries: seq<Entry>): (r: Option<seq<Json.Member>>)
    ensures r.Some? ==> |r.value| == |entries|
    ensures r.Some? ==> forall i :: 0 <= i < |entries| ==>
              r.value[i].key == entries[i].key && ToJson(entries[i].value) == Some(r.value[i].value)
    decreases entries, 1
  {
    if entries == [] then Some([])
    else match (ToJson(entries[0].value), EntriesToJson(entries[1..]))
      case (Some(v), Some(rest)) => Some([Json.Member(entries[0].key, v)] + rest)
      case _ => None
  }

  /** No dict in the value repeats a key. */
  predicate DictsProper(p: Py)
    decreases p
  {
    match p
    case EnumMember(value, _) => DictsProper(value)
    case List(items) => forall i :: 0 <= i < |items| ==> DictsProper(items[i])
    case Dict(entries) =>
      && (forall i, j :: 0 <= i < j < |entries| ==> entries[i].key != entries[j].key)
      && (forall i :: 0 <= i < |entries| ==> DictsProper(entries[i].value))
    case _ => true
  }

  /** The types `json.dumps` writes itself and those `_json_default` accepts, all the way down. */
  predicate Encodable(p: Py)
    decreases p
  {
    match p
    case Decimal(_) => false
    case EnumMember(value, mixed) => mixed && (value.Str? || value.Int?)
    case Opaque => false
    case List(items) => forall i :: 0 <= i < |items| ==> Encodable(items[i])
    case Dict(entries) => forall i :: 0 <= i < |entries| ==> Encodable(entries[i].value)
    case _ => true
  }

  /** Encoding fails exactly on the types it does not know. */
  lemma {:induction false} EncodableIffToJson(p: Py)
    ensures ToJson(p).Some? <==> Encodable(p)
    decreases p, 0
  {
    match p
    case List(items) => ItemsEncodable(items);
    case Dict(entries) => EntriesEncodable(entries);
    case _ =>
  }

  lemma {:induction false} ItemsEncodable(items: seq<Py>)
    ensures ItemsToJson(items).Some? <==> forall i :: 0 <= i < |items| ==> Encodable(items[i])
    decreases items, 1
  {
    if items != [] {
      EncodableIffToJson(items[0]);
      ItemsEncodable(items[1..]);
      assert items == [items[0]] + items[1..];
    }
  }

  lemma {:induction false} EntriesEncodable(entries: seq<Entry>)
    ensures EntriesToJson(entries).Some? <==> forall i :: 0 <= i < |entries| ==> Encodable(entries[i].value)
    decreases entries, 1
  {
    if entries != [] {
      EncodableIffToJson(entries[0].value);
      EntriesEncodable(entries[1..]);
      assert entries == [entries[0]] + entries[1..];
    }
  }

  lemma {:induction false} ToJsonKeepsKeys(p: Py)
    requires DictsProper(p) && ToJson(p).Some?
    ensures Json.UniqueKeys(ToJson(p).value)
    decreases p
  {
    match p
    case List(items) =>
      forall i | 0 <= i < |items| ensures Json.UniqueKeys(ToJson(p).value.items[i]) {
        ToJsonKeepsKeys(items[i]);
      }
    case Dict(entries) =>
      forall i | 0 <= i < |entries| ensures Json.UniqueKeys(ToJson(p).value.members[i].value) {
        ToJsonKeepsKeys(entries[i].value);
      }
    case _ =>
  }

  /** A `before_state` or `after_state`: a value the encoder accepts. */
  type State = p: Py | Encodable(p) && DictsProper(p) witness NoneValue

  function StateJson(s: State): (v: Json.Value)
    ensures Json.UniqueKeys(v)
  {
    EncodableIffToJson(s);
    ToJsonKeepsKeys(s);
    ToJson(s).value
  }
}
