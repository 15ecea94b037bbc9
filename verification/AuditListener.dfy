/** The session hooks that write an audit entry for every row created, changed or deleted. */
module AuditListener {
  import opened Common
  import opened PyValues
  import opened Calendar
  import Text
  import opened AuditChain

  const SKIP_TABLES := {"audit_logs", "audit_checkpoints", "alembic_version"}
  const SENSITIVE_FIELDS := {"hashed_password", "mfa_secret", "mfa_backup_codes"}

  // ----- values -----

  /** `_serialize_value`. */
  function Serialize(p: Py): Py
    decreases p
  {
    match p
    case EnumMember(value, _) => value
    case UuidValue(u) => Str(Text.UuidText(u))
    case DateTime(stamp) => Str(IsoText(stamp))
    case DateValue(day) => Str(DateText(day))
    case Decimal(text) => Str(text)
    case List(items) => List(seq(|items|, i requires 0 <= i < |items| => Serialize(items[i])))
    case Dict(entries) =>
      Dict(seq(|entries|, i requires 0 <= i < |entries| => Entry(entries[i].key, Serialize(entries[i].value))))
    case Bytes(bytes) => Str("<bytes:" + Text.Decimal(|bytes|) + ">")
    case _ => p
  }

  /** What a JSON column stores without further conversion. */
  predicate JsonSafe(p: Py)
    decreases p
  {
    match p
    case NoneValue => true
    case Bool(_) => true
    case Int(_) => true
    case Str(_) => true
    case List(items) => forall i :: 0 <= i < |items| ==> JsonSafe(items[i])
    case Dict(entries) => forall i :: 0 <= i < |entries| ==> JsonSafe(entries[i].value)
    case _ => false
  }

  /** No value of an unknown type, and no enum whose own value needs converting, at any depth. */
  predicate Known(p: Py)
    decreases p
  {
    match p
    case Opaque => false
    case EnumMember(value, _) => JsonSafe(value)
    case List(items) => forall i :: 0 <= i < |items| ==> Known(items[i])
    case Dict(entries) => forall i :: 0 <= i < |entries| ==> Known(entries[i].value)
    case _ => true
  }

  /** The representation is JSON-safe exactly for known values. */
  lemma {:induction false} SafeExactlyForKnown(p: Py)
    ensures JsonSafe(Serialize(p)) <==> Known(p)
    decreases p
  {
    match p
    case List(items) =>
      forall i | 0 <= i < |items| ensures JsonSafe(Serialize(items[i])) <==> Known(items[i]) {
        SafeExactlyForKnown(items[i]);
      }
      assert forall i :: 0 <= i < |items| ==> Serialize(p).items[i] == Serialize(items[i]);
    case Dict(entries) =>
      forall i | 0 <= i < |entries| ensures JsonSafe(Serialize(entries[i].value)) <==> Known(entries[i].value) {
        SafeExactlyForKnown(entries[i].value);
      }
      assert forall i :: 0 <= i < |entries| ==> Serialize(p).entries[i].value == Serialize(entries[i].value);
    case _ =>
  }

  /** A JSON-safe value is left as it is, so serialising twice changes nothing. */
  lemma {:induction false} SerializeKeepsSafe(p: Py)
    requires JsonSafe(p)
    ensures Serialize(p) == p
    decreases p
  {
    match p
    case List(items) =>
      forall i | 0 <= i < |items| ensures Serialize(items[i]) == items[i] {
        SerializeKeepsSafe(items[i]);
      }
      assert Serialize(p).items == items;
    case Dict(entries) =>
      forall i | 0 <= i < |entries| ensures Serialize(entries[i].value) == entries[i].value {
        SerializeKeepsSafe(entries[i].value);
      }
      assert Serialize(p).entries == entries;
    case _ =>
  }

  /** Dates and identifiers that reach an entry can also be written by the chain's encoder. */
  lemma {:induction false} SafeIsEncodable(p: Py)
    requires JsonSafe(p)
    ensures Encodable(p)
    decreases p
  {
    match p
    case List(items) =>
      forall i | 0 <= i < |items| ensures Encodable(items[i]) { SafeIsEncodable(items[i]); }
    case Dict(entries) =>
      forall i | 0 <= i < |entries| ensures Encodable(entries[i].value) { SafeIsEncodable(entries[i].value); }
    case _ =>
  }

  /** Bytes show their number and nothing else. */
  lemma BytesShowOnlyLength(a: seq<Byte>, b: seq<Byte>)
    ensures Serialize(Bytes(a)) == Serialize(Bytes(b)) <==> |a| == |b|
  {
    hide Text.Decimal;
    if Serialize(Bytes(a)) == Serialize(Bytes(b)) {
      var (x, y) := (Text.Decimal(|a|) + ">", Text.Decimal(|b|) + ">");
      assert "<bytes:" + Text.Decimal(|a|) + ">" == "<bytes:" + x;
      assert "<bytes:" + Text.Decimal(|b|) + ">" == "<bytes:" + y;
      SplitEqual("<bytes:", x, "<bytes:", y);
      Text.DecimalRead(|a|, ">");
      Text.DecimalRead(|b|, ">");
    }
  }

  /** Identifiers, times and dates keep their whole value: different ones are recorded differently. */
  lemma ScalarsStayDistinct(p: Py, q: Py)
    requires (p.UuidValue? && q.UuidValue?) || (p.DateTime? && q.DateTime?) || (p.DateValue? && q.DateValue?)
    requires Serialize(p) == Serialize(q)
    ensures p == q
  {
    hide Text.UuidText, IsoText, DateText;
    match p
    case UuidValue(u) => Text.UuidTextInjective(u, q.u);
    case DateTime(stamp) => IsoTextInjective(stamp, q.stamp);
    case DateValue(day) => DateTextInjective(day, q.day);
  }

  // ----- rows and entries -----

  datatype Column = Column(key: string, value: Py)

  /** An attribute of a changed instance: its value, the old one if it was loaded, and whether it has changes. */
  datatype Attr = Attr(key: string, loaded: Option<Py>, current: Py, changed: bool)

  /** A row's identity: its table and its primary key as `str` prints it. */
  datatype Ident = Ident(table: string, id: string)

  datatype Instance = Instance(ident: Ident, columns: seq<Column>)

  /**
   * A changed instance. `silent` holds the columns its UPDATE sets on its own, such as an `onupdate` timestamp:
   * they reach the row without ever showing in an attribute's history.
   */
  datatype Dirty = Dirty(ident: Ident, attrs: seq<Attr>, silent: seq<Column>)

  datatype Actor = Actor(userId: Text.Uuid, userEmail: string, ipAddress: string, userAgent: string)

  type OtherName = s: string | s !in {"create", "update", "delete"} witness ""

  /** What an entry says was done; a service that adds an entry itself may name anything else. */
  datatype Action = Create | Update | Delete | Other(name: OtherName)

  type Fields = map<string, Py>

  datatype AuditEntry = AuditEntry(
    action: Action,
    ident: Ident,
    before: Option<Fields>,
    after: Option<Fields>,
    actor: Option<Actor>)

  /** `_should_skip_entity`; the empty name stands for a class without a table. */
  predicate Skips(table: string) {
    table == "" || table in SKIP_TABLES
  }

  /** `_instance_to_dict`: the non-sensitive columns, serialised. */
  function ToDict(columns: seq<Column>): Fields {
    if columns == [] then map[]
    else
      var (rest, c) := (ToDict(columns[..|columns| - 1]), columns[|columns| - 1]);
      if c.key in SENSITIVE_FIELDS then rest else rest[c.key := Serialize(c.value)]
  }

  predicate Reported(a: Attr) {
    a.key !in SENSITIVE_FIELDS && a.changed
  }

  /** `hist.deleted[0] if hist.deleted else None`. */
  function OldOf(a: Attr): Py {
    if a.loaded.Some? then a.loaded.value else NoneValue
  }

  /** The old values of the changed columns; one that was not loaded counts as None. */
  function BeforeOf(attrs: seq<Attr>): Fields {
    if attrs == [] then map[]
    else
      var (rest, a) := (BeforeOf(attrs[..|attrs| - 1]), attrs[|attrs| - 1]);
      if Reported(a) then rest[a.key := Serialize(OldOf(a))] else rest
  }

  function AfterOf(attrs: seq<Attr>): Fields {
    if attrs == [] then map[]
    else
      var (rest, a) := (AfterOf(attrs[..|attrs| - 1]), attrs[|attrs| - 1]);
      if Reported(a) then rest[a.key := Serialize(a.current)] else rest
  }

  /** Whether the hooks made an audit row or a service added it itself. */
  datatype Origin = Hook | Direct

  /** An audit row, in the session or inserted, and the chain row it became when the chain was finalised for it. */
  datatype AuditRow = AuditRow(entry: AuditEntry, origin: Origin, row: Option<Row>)

  /** What `session.new` holds. */
  datatype Pending = Entity(instance: Instance) | Audit(row: AuditRow)
  {
    function Table(): string {
      if Entity? then instance.ident.table else "audit_logs"
    }
  }

  function Creates(pending: seq<Pending>, actor: Option<Actor>): seq<AuditEntry> {
    if pending == [] then []
    else
      var (rest, p) := (Creates(pending[..|pending| - 1], actor), pending[|pending| - 1]);
      if Skips(p.Table()) || p.Audit? then rest
      else rest + [AuditEntry(Create, p.instance.ident, None, Some(ToDict(p.instance.columns)), actor)]
  }

  function Updates(dirty: seq<Dirty>, actor: Option<Actor>): seq<AuditEntry> {
    if dirty == [] then []
    else
      var (rest, d) := (Updates(dirty[..|dirty| - 1], actor), dirty[|dirty| - 1]);
      if Skips(d.ident.table) || AfterOf(d.attrs) == map[] then rest
      else rest + [AuditEntry(Update, d.ident, Some(BeforeOf(d.attrs)), Some(AfterOf(d.attrs)), actor)]
  }

  function Deletes(deleted: seq<Instance>, actor: Option<Actor>): seq<AuditEntry> {
    if deleted == [] then []
    else
      var (rest, x) := (Deletes(deleted[..|deleted| - 1], actor), deleted[|deleted| - 1]);
      if Skips(x.ident.table) then rest
      else rest + [AuditEntry(Delete, x.ident, Some(ToDict(x.columns)), None, actor)]
  }

  // ----- the database -----

  /** The rows of every table but `audit_logs`. */
  type Database = map<Ident, Fields>

  function RowOf(columns: seq<Column>): Fields {
    if columns == [] then map[]
    else RowOf(columns[..|columns| - 1])[columns[|columns| - 1].key := columns[|columns| - 1].value]
  }

  function Touched(row: Fields, attrs: seq<Attr>): Fields {
    if attrs == [] then row
    else
      var (rest, a) := (Touched(row, attrs[..|attrs| - 1]), attrs[|attrs| - 1]);
      if a.changed then rest[a.key := a.current] else rest
  }

  /** There is something to write, so an UPDATE is sent. */
  predicate Writes(attrs: seq<Attr>) {
    exists i :: 0 <= i < |attrs| && attrs[i].changed
  }

  /** The row after the flush: a column that was changed explicitly is not also set silently. */
  function Changed(row: Fields, d: Dirty): Fields {
    if Writes(d.attrs) then Touched(row + RowOf(d.silent), d.attrs) else row
  }

  function Inserted(db: Database, pending: seq<Pending>): Database {
    if pending == [] then db
    else
      var (rest, p) := (Inserted(db, pending[..|pending| - 1]), pending[|pending| - 1]);
      if p.Entity? then rest[p.instance.ident := RowOf(p.instance.columns)] else rest
  }

  function Updated(db: Database, dirty: seq<Dirty>): Database {
    if dirty == [] then db
    else
      var (rest, d) := (Updated(db, dirty[..|dirty| - 1]), dirty[|dirty| - 1]);
      if d.ident in rest then rest[d.ident := Changed(rest[d.ident], d)] else rest
  }

  /** The same without what is set silently: all that the listener can see of it. */
  function Recorded(db: Database, dirty: seq<Dirty>): Database {
    if dirty == [] then db
    else
      var (rest, d) := (Recorded(db, dirty[..|dirty| - 1]), dirty[|dirty| - 1]);
      if d.ident in rest then rest[d.ident := Touched(rest[d.ident], d.attrs)] else rest
  }

  function Removed(db: Database, deleted: seq<Instance>): Database {
    if deleted == [] then db else Removed(db, deleted[..|deleted| - 1]) - {deleted[|deleted| - 1].ident}
  }

  /** The statements of a flush: a row deleted and created again under its key stays, with its new values. */
  function Written(db: Database, pending: seq<Pending>, dirty: seq<Dirty>, deleted: seq<Instance>): Database {
    Inserted(Removed(Updated(db, dirty), deleted), pending)
  }

  // ----- foreign keys -----

  /** What the database does to a row when the one its foreign key names is deleted. */
  datatype OnDelete = Cascade | SetNull

  /** A foreign key to the primary key of a table; one that only forbids the deletion is not listed. */
  datatype ForeignKey = ForeignKey(table: string, column: string, target: string, onDelete: OnDelete)

  predicate Refers(key: ForeignKey, x: Ident, row: Fields, y: Ident) {
    && x.table == key.table && y.table == key.target
    && key.column in row && Serialize(row[key.column]) == Str(y.id)
  }

  predicate Follows(keys: set<ForeignKey>, x: Ident, row: Fields, gone: set<Ident>) {
    exists key, y :: key in keys && y in gone && key.onDelete.Cascade? && Refers(key, x, row, y)
  }

  predicate Nulls(keys: set<ForeignKey>, x: Ident, row: Fields, gone: set<Ident>, column: string) {
    exists key, y ::
      key in keys && y in gone && key.onDelete.SetNull? && key.column == column && Refers(key, x, row, y)
  }

  /** The deleted rows, the rows that refer to them, the rows that refer to those, and so on. */
  function Closure(keys: set<ForeignKey>, db: Database, gone: set<Ident>): (all: set<Ident>)
    ensures gone <= all
    decreases db.Keys - gone
  {
    var more := set x | x in db && x !in gone && Follows(keys, x, db[x], gone);
    if more == {} then gone
    else
      assert more <= db.Keys - gone;
      Closure(keys, db, gone + more)
  }

  function NulledRow(keys: set<ForeignKey>, x: Ident, row: Fields, gone: set<Ident>): Fields {
    map k | k in row :: if Nulls(keys, x, row, gone, k) then NoneValue else row[k]
  }

  /** The tables when the database has followed the foreign keys of all rows that statements took away. */
  function Enforced(keys: set<ForeignKey>, before: Database, after: Database): Database {
    var gone := Closure(keys, after, before.Keys - after.Keys);
    map x | x in after && x !in gone :: NulledRow(keys, x, after[x], gone)
  }

  // ----- replay -----

  function ViewRow(row: Fields): Fields {
    map k | k in row && k !in SENSITIVE_FIELDS :: Serialize(row[k])
  }

  /** The audited part of a database: serialised non-sensitive columns of the tables that are not skipped. */
  function View(db: Database): Database {
    map x | x in db && !Skips(x.table) :: ViewRow(db[x])
  }

  /** One entry read forwards. */
  function Redo(view: Database, e: AuditEntry): Database {
    match e.action
    case Create => if e.after.Some? then view[e.ident := e.after.value] else view
    case Update =>
      if e.after.Some? && e.ident in view then view[e.ident := view[e.ident] + e.after.value] else view
    case Delete => view - {e.ident}
    case Other(_) => view
  }

  function Replay(view: Database, entries: seq<AuditEntry>): Database {
    if entries == [] then view else Redo(Replay(view, entries[..|entries| - 1]), entries[|entries| - 1])
  }

  lemma {:induction false} ReplayConcat(view: Database, a: seq<AuditEntry>, b: seq<AuditEntry>)
    ensures Replay(view, a + b) == Replay(Replay(view, a), b)
  {
    if b == [] {
      assert a + b == a;
    } else {
      var init := b[..|b| - 1];
      assert (a + b)[..|a + b| - 1] == a + init && (a + b)[|a + b| - 1] == b[|b| - 1];
      ReplayConcat(view, a, init);
    }
  }

  lemma ReplayLast(view: Database, entries: seq<AuditEntry>, e: AuditEntry)
    ensures Replay(view, entries + [e]) == Redo(Replay(view, entries), e)
  {
    assert (entries + [e])[..|entries|] == entries;
  }

  lemma {:induction false} ToDictIsView(columns: seq<Column>)
    ensures ToDict(columns) == ViewRow(RowOf(columns))
  {
    hide Serialize;
    if columns != [] {
      var (init, c) := (columns[..|columns| - 1], columns[|columns| - 1]);
      ToDictIsView(init);
      ViewSet(RowOf(init), c.key, c.value);
    }
  }

  lemma ViewSet(row: Fields, key: string, value: Py)
    ensures ViewRow(row[key := value])
         == if key in SENSITIVE_FIELDS then ViewRow(row) else ViewRow(row)[key := Serialize(value)]
  {
    hide Serialize;
  }

  /** Merging `after_state` into what was known of a row gives its reported columns. */
  lemma {:induction false} TouchedView(row: Fields, attrs: seq<Attr>)
    ensures ViewRow(Touched(row, attrs)) == ViewRow(row) + AfterOf(attrs)
  {
    hide Serialize, ViewRow;
    if attrs == [] {
      assert ViewRow(row) + map[] == ViewRow(row);
    } else {
      var (init, a) := (attrs[..|attrs| - 1], attrs[|attrs| - 1]);
      TouchedView(row, init);
      ViewSet(Touched(row, init), a.key, a.current);
      assert (ViewRow(row) + AfterOf(init))[a.key := Serialize(a.current)]
          == ViewRow(row) + AfterOf(init)[a.key := Serialize(a.current)];
    }
  }

  lemma ViewInsert(db: Database, x: Ident, row: Fields)
    ensures View(db[x := row]) == if Skips(x.table) then View(db) else View(db)[x := ViewRow(row)]
  {
    hide ViewRow, Skips;
  }

  lemma ViewRemove(db: Database, x: Ident)
    ensures View(db - {x}) == View(db) - {x}
    ensures Skips(x.table) ==> View(db - {x}) == View(db)
  {
    hide ViewRow, Skips;
  }

  lemma {:induction false} CreatesReplay(db: Database, pending: seq<Pending>, actor: Option<Actor>)
    ensures Replay(View(db), Creates(pending, actor)) == View(Inserted(db, pending))
  {
    if pending != [] {
      var (init, p) := (pending[..|pending| - 1], pending[|pending| - 1]);
      CreatesReplay(db, init, actor);
      hide View, Skips, ToDict, RowOf, ViewRow;
      if p.Entity? {
        ViewInsert(Inserted(db, init), p.instance.ident, RowOf(p.instance.columns));
        ToDictIsView(p.instance.columns);
        ReplayLast(View(db), Creates(init, actor),
                   AuditEntry(Create, p.instance.ident, None, Some(ToDict(p.instance.columns)), actor));
      }
    }
  }

  lemma {:induction false} UpdatesReplay(db: Database, dirty: seq<Dirty>, actor: Option<Actor>)
    ensures Replay(View(db), Updates(dirty, actor)) == View(Recorded(db, dirty))
  {
    if dirty != [] {
      var (init, d) := (dirty[..|dirty| - 1], dirty[|dirty| - 1]);
      UpdatesReplay(db, init, actor);
      UpdateReplay(Recorded(db, init), d);
      hide View, Skips, AfterOf, BeforeOf, Touched, Redo;
      ReplayLast(View(db), Updates(init, actor),
                 AuditEntry(Update, d.ident, Some(BeforeOf(d.attrs)), Some(AfterOf(d.attrs)), actor));
      if !Skips(d.ident.table) && AfterOf(d.attrs) != map[] {
        UpdateIgnoresRest(View(Recorded(db, init)), d, actor);
      }
    }
  }

  function UpdateView(view: Database, d: Dirty): Database {
    if Skips(d.ident.table) || AfterOf(d.attrs) == map[] || d.ident !in view then view
    else view[d.ident := view[d.ident] + AfterOf(d.attrs)]
  }

  lemma UpdateIgnoresRest(view: Database, d: Dirty, actor: Option<Actor>)
    requires !Skips(d.ident.table) && AfterOf(d.attrs) != map[]
    ensures Redo(view, AuditEntry(Update, d.ident, Some(BeforeOf(d.attrs)), Some(AfterOf(d.attrs)), actor))
         == UpdateView(view, d)
  {
  }

  lemma UpdateReplay(db: Database, d: Dirty)
    ensures UpdateView(View(db), d) == View(if d.ident in db then db[d.ident := Touched(db[d.ident], d.attrs)] else db)
  {
    if d.ident in db {
      TouchedView(db[d.ident], d.attrs);
      ViewInsert(db, d.ident, Touched(db[d.ident], d.attrs));
      hide AfterOf, Touched, ViewRow, Skips;
      assert ViewRow(db[d.ident]) + map[] == ViewRow(db[d.ident]);
      assert d.ident in View(db) ==> View(db)[d.ident := View(db)[d.ident]] == View(db);
    }
  }

  lemma {:induction false} DeletesReplay(db: Database, deleted: seq<Instance>, actor: Option<Actor>)
    ensures Replay(View(db), Deletes(deleted, actor)) == View(Removed(db, deleted))
  {
    if deleted != [] {
      var (init, x) := (deleted[..|deleted| - 1], deleted[|deleted| - 1]);
      DeletesReplay(db, init, actor);
      ViewRemove(Removed(db, init), x.ident);
      hide View, Skips, ToDict;
      ReplayLast(View(db), Deletes(init, actor), AuditEntry(Delete, x.ident, Some(ToDict(x.columns)), None, actor));
    }
  }

  // ----- the entries of a flush -----

  /** The work of one flush, the foreign keys of the tables it meets, and who it is done for. */
  datatype UnitOfWork = UnitOfWork(
    pending: seq<Pending>,
    dirty: seq<Dirty>,
    deleted: seq<Instance>,
    keys: set<ForeignKey>,
    actor: Option<Actor>)

  function EntriesOf(f: UnitOfWork): seq<AuditEntry> {
    Creates(f.pending, f.actor) + Updates(f.dirty, f.actor) + Deletes(f.deleted, f.actor)
  }

  /** `_get_changes`. */
  method GetChanges(attrs: seq<Attr>) returns (before: Fields, after: Fields)
    ensures before == BeforeOf(attrs) && after == AfterOf(attrs)
  {
    before, after := map[], map[];
    for i := 0 to |attrs|
      invariant before == BeforeOf(attrs[..i]) && after == AfterOf(attrs[..i])
    {
      assert attrs[..i + 1][..i] == attrs[..i] && attrs[..i + 1][i] == attrs[i];
      var attr := attrs[i];
      if attr.key !in SENSITIVE_FIELDS && attr.changed {
        before := before[attr.key := Serialize(OldOf(attr))];
        after := after[attr.key := Serialize(attr.current)];
      }
    }
    assert attrs[..|attrs|] == attrs;
  }

  /** `_instance_to_dict`. */
  method InstanceToDict(columns: seq<Column>) returns (result: Fields)
    ensures result == ToDict(columns)
  {
    result := map[];
    for i := 0 to |columns|
      invariant result == ToDict(columns[..i])
    {
      assert columns[..i + 1][..i] == columns[..i] && columns[..i + 1][i] == columns[i];
      if columns[i].key !in SENSITIVE_FIELDS {
        result := result[columns[i].key := Serialize(columns[i].value)];
      }
    }
    assert columns[..|columns|] == columns;
  }

  lemma {:induction false} CreatesNotSkipped(pending: seq<Pending>, actor: Option<Actor>)
    ensures forall e :: e in Creates(pending, actor) ==> !Skips(e.ident.table)
  {
    if pending != [] {
      CreatesNotSkipped(pending[..|pending| - 1], actor);
    }
  }

  lemma {:induction false} UpdatesNotSkipped(dirty: seq<Dirty>, actor: Option<Actor>)
    ensures forall e :: e in Updates(dirty, actor) ==> !Skips(e.ident.table)
  {
    if dirty != [] {
      UpdatesNotSkipped(dirty[..|dirty| - 1], actor);
    }
  }

  lemma {:induction false} DeletesNotSkipped(deleted: seq<Instance>, actor: Option<Actor>)
    ensures forall e :: e in Deletes(deleted, actor) ==> !Skips(e.ident.table)
  {
    if deleted != [] {
      DeletesNotSkipped(deleted[..|deleted| - 1], actor);
    }
  }

  /** No row of a skipped table is ever audited. */
  lemma SkippedNeverAudited(f: UnitOfWork)
    ensures forall e :: e in EntriesOf(f) ==> !Skips(e.ident.table)
  {
    CreatesNotSkipped(f.pending, f.actor);
    UpdatesNotSkipped(f.dirty, f.actor);
    DeletesNotSkipped(f.deleted, f.actor);
  }

  ghost predicate Discreet(fields: Option<Fields>) {
    fields.Some? ==> fields.value.Keys !! SENSITIVE_FIELDS
  }

  lemma {:induction false} DictsDiscreet(columns: seq<Column>)
    ensures ToDict(columns).Keys !! SENSITIVE_FIELDS
  {
    hide Serialize;
    if columns != [] {
      DictsDiscreet(columns[..|columns| - 1]);
    }
  }

  lemma {:induction false} ChangesDiscreet(attrs: seq<Attr>)
    ensures BeforeOf(attrs).Keys !! SENSITIVE_FIELDS && AfterOf(attrs).Keys !! SENSITIVE_FIELDS
  {
    hide Serialize;
    if attrs != [] {
      ChangesDiscreet(attrs[..|attrs| - 1]);
    }
  }

  lemma {:induction false} CreatesDiscreet(pending: seq<Pending>, actor: Option<Actor>)
    ensures forall e :: e in Creates(pending, actor) ==> Discreet(e.before) && Discreet(e.after)
  {
    hide ToDict;
    if pending != [] {
      var (init, p) := (pending[..|pending| - 1], pending[|pending| - 1]);
      CreatesDiscreet(init, actor);
      if p.Entity? {
        DictsDiscreet(p.instance.columns);
      }
    }
  }

  lemma {:induction false} UpdatesDiscreet(dirty: seq<Dirty>, actor: Option<Actor>)
    ensures forall e :: e in Updates(dirty, actor) ==> Discreet(e.before) && Discreet(e.after)
  {
    hide BeforeOf, AfterOf;
    if dirty != [] {
      UpdatesDiscreet(dirty[..|dirty| - 1], actor);
      ChangesDiscreet(dirty[|dirty| - 1].attrs);
    }
  }

  lemma {:induction false} DeletesDiscreet(deleted: seq<Instance>, actor: Option<Actor>)
    ensures forall e :: e in Deletes(deleted, actor) ==> Discreet(e.before) && Discreet(e.after)
  {
    hide ToDict;
    if deleted != [] {
      DeletesDiscreet(deleted[..|deleted| - 1], actor);
      DictsDiscreet(deleted[|deleted| - 1].columns);
    }
  }

  /** No entry shows a sensitive field. */
  lemma SensitiveNeverShown(f: UnitOfWork)
    ensures forall e :: e in EntriesOf(f) ==> Discreet(e.before) && Discreet(e.after)
  {
    CreatesDiscreet(f.pending, f.actor);
    UpdatesDiscreet(f.dirty, f.actor);
    DeletesDiscreet(f.deleted, f.actor);
  }
}
