/** The audited columns of a row and the bytes that are hashed for it. */
module AuditRows {
  import opened Common
  import opened Text
  import opened Calendar
  import opened PyValues
  import opened Json
  import JsonProofs

  /** The columns an audit entry is created with. */
  datatype Content = Content(
    userId: Option<Uuid>,
    userEmail: Option<string>,
    action: string,
    entityType: string,
    entityId: string,
    before: State,
    after: State,
    ipAddress: Option<string>,
    userAgent: Option<string>)

  /** All canonical columns. */
  datatype Columns = Columns(id: Uuid, content: Content, createdAt: Stamp)

  /** The columns hold the same values: states as JSON values, timestamps as instants. */
  ghost predicate SameColumns(a: Columns, b: Columns) {
    && a.id == b.id
    && a.content.userId == b.content.userId
    && a.content.userEmail == b.content.userEmail
    && a.content.action == b.content.action
    && a.content.entityType == b.content.entityType
    && a.content.entityId == b.content.entityId
    && Denote(StateJson(a.content.before)) == Denote(StateJson(b.content.before))
    && Denote(StateJson(a.content.after)) == Denote(StateJson(b.content.after))
    && a.content.ipAddress == b.content.ipAddress
    && a.content.userAgent == b.content.userAgent
    && a.createdAt.Utc() == b.createdAt.Utc()
  }

  function OptionalText(s: Option<string>): Value {
    if s.None? then Null else String(s.value)
  }

  function OptionalUuid(u: Option<Uuid>): Value {
    if u.None? then Null else String(UuidText(u.value))
  }

  const FIELDS: nat := 11

  /** `_CANONICAL_FIELDS`. */
  function FieldName(i: nat): string {
    match i
    case 0 => "id"
    case 1 => "user_id"
    case 2 => "user_email"
    case 3 => "action"
    case 4 => "entity_type"
    case 5 => "entity_id"
    case 6 => "before_state"
    case 7 => "after_state"
    case 8 => "ip_address"
    case 9 => "user_agent"
    case _ => "created_at"
  }

  function FieldValue(c: Columns, i: nat): (v: Value)
    ensures UniqueKeys(v)
  {
    match i
    case 0 => String(UuidText(c.id))
    case 1 => OptionalUuid(c.content.userId)
    case 2 => OptionalText(c.content.userEmail)
    case 3 => String(c.content.action)
    case 4 => String(c.content.entityType)
    case 5 => String(c.content.entityId)
    case 6 => StateJson(c.content.before)
    case 7 => StateJson(c.content.after)
    case 8 => OptionalText(c.content.ipAddress)
    case 9 => OptionalText(c.content.userAgent)
    case _ => String(UtcText(c.createdAt))
  }

  /** The dict `_canonical_json` builds, in the order of `_CANONICAL_FIELDS`. */
  function Payload(c: Columns): (p: seq<Member>)
    ensures |p| == FIELDS
  {
    seq(FIELDS, i requires 0 <= i < FIELDS => Member(FieldName(i), FieldValue(c, i)))
  }

  function CanonicalJson(c: Columns): seq<Byte> {
    Utf8(Dumps(Object(Payload(c))))
  }

  lemma FieldNamesDiffer(i: nat, j: nat)
    requires i < j < FIELDS
    ensures FieldName(i) != FieldName(j)
  {
    var (s, t) := (FieldName(i), FieldName(j));
    assert |s| != |t| || s[0] != t[0] || s[5] != t[5];
  }

  lemma PayloadIsDict(c: Columns)
    ensures UniqueKeys(Object(Payload(c)))
  {
    forall i, j | 0 <= i < j < FIELDS ensures Payload(c)[i].key != Payload(c)[j].key {
      FieldNamesDiffer(i, j);
    }
  }

  lemma FieldMeaning(c: Columns, i: nat)
    requires i < FIELDS
    ensures FieldName(i) in DenoteMembers(Payload(c))
    ensures DenoteMembers(Payload(c))[FieldName(i)] == Denote(FieldValue(c, i))
  {
    PayloadIsDict(c);
    JsonProofs.MemberAt(Payload(c), i);
  }

  lemma KeysAreFields(c: Columns, key: string)
    ensures key in DenoteMembers(Payload(c)) <==> exists i: nat :: i < FIELDS && FieldName(i) == key
  {
    PayloadIsDict(c);
    JsonProofs.LookUp(Payload(c), key);
    if i: nat :| i < FIELDS && FieldName(i) == key {
      assert Payload(c)[i].key == key;
    }
    if HasKey(Payload(c), key) {
      var i :| 0 <= i < FIELDS && Payload(c)[i].key == key;
      assert FieldName(i) == key;
    }
  }

  ghost predicate SameFields(a: Columns, b: Columns) {
    forall i: nat :: i < FIELDS ==> Denote(FieldValue(a, i)) == Denote(FieldValue(b, i))
  }

  /** Two payloads mean the same exactly when they agree field by field. */
  lemma PayloadFieldwise(a: Columns, b: Columns)
    ensures Denote(Object(Payload(a))) == Denote(Object(Payload(b))) <==> SameFields(a, b)
  {
    var (x, y) := (DenoteMembers(Payload(a)), DenoteMembers(Payload(b)));
    forall i: nat | i < FIELDS
      ensures FieldName(i) in x && x[FieldName(i)] == Denote(FieldValue(a, i))
      ensures FieldName(i) in y && y[FieldName(i)] == Denote(FieldValue(b, i))
    {
      FieldMeaning(a, i);
      FieldMeaning(b, i);
    }
    forall key ensures key in x <==> key in y {
      KeysAreFields(a, key);
      KeysAreFields(b, key);
    }
    if SameFields(a, b) {
      forall key | key in x ensures x[key] == y[key] {
        KeysAreFields(a, key);
        var i: nat :| i < FIELDS && FieldName(i) == key;
        FieldMeaning(a, i);
        FieldMeaning(b, i);
      }
      assert x == y;
    }
  }

  /** The column behind the i-th canonical field holds the same value in both rows. */
  ghost predicate SameColumn(a: Columns, b: Columns, i: nat) {
    match i
    case 0 => a.id == b.id
    case 1 => a.content.userId == b.content.userId
    case 2 => a.content.userEmail == b.content.userEmail
    case 3 => a.content.action == b.content.action
    case 4 => a.content.entityType == b.content.entityType
    case 5 => a.content.entityId == b.content.entityId
    case 6 => Denote(StateJson(a.content.before)) == Denote(StateJson(b.content.before))
    case 7 => Denote(StateJson(a.content.after)) == Denote(StateJson(b.content.after))
    case 8 => a.content.ipAddress == b.content.ipAddress
    case 9 => a.content.userAgent == b.content.userAgent
    case _ => a.createdAt.Utc() == b.createdAt.Utc()
  }

  lemma FieldIsColumn(a: Columns, b: Columns, i: nat)
    requires i < FIELDS
    ensures Denote(FieldValue(a, i)) == Denote(FieldValue(b, i)) <==> SameColumn(a, b, i)
  {
    hide UuidText, UtcText, StateJson;
    match i
    case 0 =>
      if UuidText(a.id) == UuidText(b.id) {
        UuidTextInjective(a.id, b.id);
      }
    case 1 =>
      if OptionalUuid(a.content.userId) == OptionalUuid(b.content.userId) {
        OptionalUuidInjective(a.content.userId, b.content.userId);
      }
    case 2 => OptionalTextMeaning(a.content.userEmail, b.content.userEmail);
    case 6 =>
    case 7 =>
    case 8 => OptionalTextMeaning(a.content.ipAddress, b.content.ipAddress);
    case 9 => OptionalTextMeaning(a.content.userAgent, b.content.userAgent);
    case 10 => UtcTextIsInstant(a.createdAt, b.createdAt);
    case _ =>
  }

  lemma OptionalTextMeaning(s: Option<string>, t: Option<string>)
    ensures Denote(OptionalText(s)) == Denote(OptionalText(t)) <==> s == t
  {
  }

  lemma FieldsAreColumns(a: Columns, b: Columns)
    ensures SameFields(a, b) <==> SameColumns(a, b)
  {
    forall i: nat | i < FIELDS
      ensures Denote(FieldValue(a, i)) == Denote(FieldValue(b, i)) <==> SameColumn(a, b, i)
    {
      FieldIsColumn(a, b, i);
    }
    ColumnByColumn(a, b);
  }

  lemma ColumnByColumn(a: Columns, b: Columns)
    ensures SameColumns(a, b) <==> forall i: nat :: i < FIELDS ==> SameColumn(a, b, i)
  {
    if forall i: nat :: i < FIELDS ==> SameColumn(a, b, i) {
      assert SameColumn(a, b, 0) && SameColumn(a, b, 1) && SameColumn(a, b, 2) && SameColumn(a, b, 3);
      assert SameColumn(a, b, 4) && SameColumn(a, b, 5) && SameColumn(a, b, 6) && SameColumn(a, b, 7);
      assert SameColumn(a, b, 8) && SameColumn(a, b, 9) && SameColumn(a, b, 10);
    }
  }

  lemma OptionalUuidInjective(u: Option<Uuid>, v: Option<Uuid>)
    requires OptionalUuid(u) == OptionalUuid(v)
    ensures u == v
  {
    if u.Some? {
      UuidTextInjective(u.value, v.value);
    }
  }

  /** Rows are encoded alike exactly when every canonical column is the same. */
  lemma CanonicalIffSameColumns(a: Columns, b: Columns)
    ensures CanonicalJson(a) == CanonicalJson(b) <==> SameColumns(a, b)
  {
    var (s, t) := (Dumps(Object(Payload(a))), Dumps(Object(Payload(b))));
    if Utf8(s) == Utf8(t) {
      Utf8Injective(s, t);
    }
    PayloadIsDict(a);
    PayloadIsDict(b);
    JsonProofs.SameTextSameMeaning(Object(Payload(a)), Object(Payload(b)));
    PayloadFieldwise(a, b);
    FieldsAreColumns(a, b);
  }

  function TextMeaning(s: Option<string>): Meaning {
    if s.None? then NullM else StringM(s.value)
  }

  /** What a row's canonical bytes say, name by name. */
  function Said(c: Columns): map<string, Meaning> {
    map["id" := StringM(UuidText(c.id)),
        "user_id" := TextMeaning(if c.content.userId.Some? then Some(UuidText(c.content.userId.value)) else None),
        "user_email" := TextMeaning(c.content.userEmail),
        "action" := StringM(c.content.action),
        "entity_type" := StringM(c.content.entityType),
        "entity_id" := StringM(c.content.entityId),
        "before_state" := Denote(StateJson(c.content.before)),
        "after_state" := Denote(StateJson(c.content.after)),
        "ip_address" := TextMeaning(c.content.ipAddress),
        "user_agent" := TextMeaning(c.content.userAgent),
        "created_at" := StringM(UtcText(c.createdAt))]
  }

  const NAMES := ["id", "user_id", "user_email", "action", "entity_type", "entity_id", "before_state", "after_state",
                  "ip_address", "user_agent", "created_at"]

  lemma FieldSaid(c: Columns, i: nat)
    requires i < FIELDS
    ensures FieldName(i) == NAMES[i]
    ensures NAMES[i] in Said(c) && Said(c)[NAMES[i]] == Denote(FieldValue(c, i))
  {
    hide UuidText, UtcText, StateJson;
  }

  lemma SaidKeys(c: Columns, key: string)
    ensures key in Said(c) <==> exists i: nat :: i < FIELDS && NAMES[i] == key
  {
    hide UuidText, UtcText, StateJson;
    assert NAMES[0] == "id" && NAMES[1] == "user_id" && NAMES[2] == "user_email" && NAMES[3] == "action"
        && NAMES[4] == "entity_type" && NAMES[5] == "entity_id" && NAMES[6] == "before_state"
        && NAMES[7] == "after_state" && NAMES[8] == "ip_address" && NAMES[9] == "user_agent"
        && NAMES[10] == "created_at";
  }

  /** A row's canonical bytes are the UTF-8 of a JSON text that says each column under its name, and no more. */
  lemma CanonicalSays(c: Columns) returns (text: string)
    ensures CanonicalJson(c) == Utf8(text) && Loads(text) == Some(ObjectM(Said(c)))
  {
    text := Dumps(Object(Payload(c)));
    PayloadIsDict(c);
    JsonProofs.RoundTrip(Object(Payload(c)));
    PayloadSays(c);
    hide *;
    assert CanonicalJson(c) == Utf8(text) by { CanonicalIs(c); }
    assert Denote(Object(Payload(c))) == ObjectM(DenoteMembers(Payload(c))) by { DenoteIs(Payload(c)); }
  }

  lemma CanonicalIs(c: Columns)
    ensures CanonicalJson(c) == Utf8(Dumps(Object(Payload(c))))
  {
  }

  lemma DenoteIs(members: seq<Member>)
    ensures Denote(Object(members)) == ObjectM(DenoteMembers(members))
  {
  }

  lemma PayloadSays(c: Columns)
    ensures DenoteMembers(Payload(c)) == Said(c)
  {
    hide *;
    forall key
      ensures key in DenoteMembers(Payload(c)) <==> key in Said(c)
      ensures key in Said(c) ==> DenoteMembers(Payload(c))[key] == Said(c)[key]
    {
      SaidByName(c, key);
    }
  }

  lemma SaidByName(c: Columns, key: string)
    ensures key in DenoteMembers(Payload(c)) <==> key in Said(c)
    ensures key in Said(c) ==> DenoteMembers(Payload(c))[key] == Said(c)[key]
  {
    hide Said, FieldName, FieldValue, Payload;
    KeysAreFields(c, key);
    SaidKeys(c, key);
    forall i: nat | i < FIELDS
      ensures FieldName(i) == NAMES[i] && NAMES[i] in Said(c)
      ensures NAMES[i] in DenoteMembers(Payload(c)) && DenoteMembers(Payload(c))[NAMES[i]] == Said(c)[NAMES[i]]
    {
      FieldSaid(c, i);
      FieldMeaning(c, i);
    }
  }

  /** Eleven members take up more than the 32 bytes of a digest. */
  lemma CanonicalIsLong(c: Columns)
    ensures |CanonicalJson(c)| > 32
  {
    var members := SortMembers(Payload(c));
    assert |members| == 11;
    assert |WriteMembers(members)| >= 55;
    assert |Write(Object(members))| >= 56;
  }
}
