/** The audit hooks on a session: which chain rows the entries become, and what the inserted log replays to. */
module AuditSession {
  import opened Common
  import opened PyValues
  import opened Calendar
  import opened AuditRows
  import opened AuditChain
  import opened AuditListener
  import opened AuditReplay
  import ChainConcurrency
  import Json
  import Text

  // ----- from an entry to the columns that are hashed -----

  /** A dict the chain's encoder accepts. */
  predicate Storable(fields: Fields) {
    forall k :: k in fields ==> Encodable(fields[k]) && DictsProper(fields[k])
  }

  predicate IsLeast(keys: set<string>, least: string) {
    least in keys && forall k :: k in keys ==> k == least || Json.Less(least, k)
  }

  lemma {:induction false} LeastExists(keys: set<string>) returns (least: string)
    requires keys != {}
    ensures IsLeast(keys, least)
    decreases |keys|
  {
    least :| least in keys;
    var rest := keys - {least};
    if rest != {} {
      var other := LeastExists(rest);
      Json.LessTotal(least, other);
      if Json.Less(other, least) {
        least := other;
      } else {
        forall k | k in rest && k != other ensures Json.Less(least, k) {
          Json.LessTransitive(least, other, k);
        }
      }
    }
  }

  lemma OneLeast(keys: set<string>)
    requires keys != {}
    ensures exists least :: IsLeast(keys, least)
    ensures forall a, b :: IsLeast(keys, a) && IsLeast(keys, b) ==> a == b
  {
    var least := LeastExists(keys);
    forall a, b | IsLeast(keys, a) && IsLeast(keys, b) ensures a == b {
      Json.LessTotal(a, b);
    }
  }

  function Least(keys: set<string>): (least: string)
    requires keys != {}
    ensures least in keys
  {
    OneLeast(keys);
    var least :| IsLeast(keys, least);
    least
  }

  /** The dict's entries; their order never shows in what is hashed. */
  function Listed(fields: Fields): (entries: seq<Entry>)
    ensures |entries| == |fields|
    decreases |fields|
  {
    if fields == map[] then []
    else
      var k := Least(fields.Keys);
      assert |fields.Keys| == |fields| && (fields - {k}).Keys == fields.Keys - {k};
      [Entry(k, fields[k])] + Listed(fields - {k})
  }

  /** What a list of entries says of a key. */
  lemma {:induction false} ListedExactly(fields: Fields)
    ensures forall i :: 0 <= i < |Listed(fields)| ==>
              Listed(fields)[i].key in fields && Listed(fields)[i].value == fields[Listed(fields)[i].key]
    ensures forall i, j :: 0 <= i < j < |Listed(fields)| ==> Listed(fields)[i].key != Listed(fields)[j].key
    decreases |fields|
  {
    hide Least;
    if fields != map[] {
      var k := Least(fields.Keys);
      assert |fields.Keys| == |fields| && (fields - {k}).Keys == fields.Keys - {k};
      ListedExactly(fields - {k});
    }
  }

  lemma ListedIsState(fields: Fields)
    requires Storable(fields)
    ensures Encodable(Dict(Listed(fields))) && DictsProper(Dict(Listed(fields)))
  {
    ListedExactly(fields);
    var entries := Listed(fields);
    hide Listed;
    forall i | 0 <= i < |entries| ensures Encodable(entries[i].value) && DictsProper(entries[i].value) {
      assert entries[i].key in fields && entries[i].value == fields[entries[i].key];
    }
  }

  /** A `before_state` or `after_state`; a dict the encoder refuses is never hashed. */
  function StateOf(fields: Option<Fields>): PyValues.State {
    if fields.None? || !Storable(fields.value) then NoneValue
    else
      ListedIsState(fields.value);
      Dict(Listed(fields.value))
  }

  function ActionText(a: Action): string {
    match a
    case Create => "create"
    case Update => "update"
    case Delete => "delete"
    case Other(name) => name
  }

  function ContentOf(e: AuditEntry): Content {
    var (before, after) := (StateOf(e.before), StateOf(e.after));
    match e.actor
    case None =>
      Content(None, None, ActionText(e.action), e.ident.table, e.ident.id, before, after, None, None)
    case Some(a) =>
      Content(Some(a.userId), Some(a.userEmail), ActionText(e.action), e.ident.table, e.ident.id, before, after,
              Some(a.ipAddress), Some(a.userAgent))
  }

  // ----- one call of finalize_chain -----

  /** What `uuid4()` and `now()` give an entry. */
  datatype Key = Key(id: Text.Uuid, at: Stamp)

  /** The day whose HMAC key a call uses, and the keys of its entries. */
  datatype Drawn = Drawn(today: Day, keys: nat -> Key)

  function ColumnsOf(entries: seq<AuditEntry>, drawn: Drawn): (batch: seq<Columns>)
    ensures |batch| == |entries|
  {
    seq(|entries|, i requires 0 <= i < |entries| =>
      var key := drawn.keys(i); Columns(key.id, ContentOf(entries[i]), key.at))
  }

  /** The chain rows of some entries, on the tail of the table. */
  function ChainedOn(suite: Suite, table: seq<Row>, entries: seq<AuditEntry>, drawn: Drawn): (rows: seq<Row>)
    ensures |rows| == |entries|
  {
    ChainRows(suite, drawn.today, LastHash(table), ColumnsOf(entries, drawn))
  }

  /** The audit rows in the session that have no hash yet. */
  function Unchained(pending: seq<Pending>): seq<AuditEntry> {
    if pending == [] then []
    else
      var (rest, p) := (Unchained(pending[..|pending| - 1]), pending[|pending| - 1]);
      if p.Audit? && p.row.row.None? then rest + [p.row.entry] else rest
  }

  /** Those that have one, and wait for their INSERT. */
  function Waiting(pending: seq<Pending>): seq<Row> {
    if pending == [] then []
    else
      var (rest, p) := (Waiting(pending[..|pending| - 1]), pending[|pending| - 1]);
      if p.Audit? && p.row.row.Some? then rest + [p.row.row.value] else rest
  }

  /** The session once those without a hash have become these rows. */
  function Finalised(pending: seq<Pending>, rows: seq<Row>): (r: seq<Pending>)
    requires |rows| == |Unchained(pending)|
    ensures |r| == |pending|
  {
    if pending == [] then []
    else
      var (init, p) := (pending[..|pending| - 1], pending[|pending| - 1]);
      if p.Audit? && p.row.row.None? then
        Finalised(init, rows[..|rows| - 1]) + [Audit(p.row.(row := Some(rows[|rows| - 1])))]
      else
        Finalised(init, rows) + [p]
  }

  function AuditsIn(pending: seq<Pending>): seq<AuditRow> {
    if pending == [] then []
    else
      var (rest, p) := (AuditsIn(pending[..|pending| - 1]), pending[|pending| - 1]);
      if p.Audit? then rest + [p.row] else rest
  }

  function Fresh(entries: seq<AuditEntry>, origin: Origin): (r: seq<Pending>)
    ensures |r| == |entries| && forall i :: 0 <= i < |r| ==> r[i] == Audit(AuditRow(entries[i], origin, None))
  {
    seq(|entries|, i requires 0 <= i < |entries| => Audit(AuditRow(entries[i], origin, None)))
  }

  lemma {:induction false} FreshUnchained(entries: seq<AuditEntry>, origin: Origin)
    ensures Unchained(Fresh(entries, origin)) == entries && Waiting(Fresh(entries, origin)) == []
    ensures forall p :: p in Fresh(entries, origin) ==> p.Audit?
  {
    var pending := Fresh(entries, origin);
    if entries != [] {
      var init := entries[..|entries| - 1];
      assert pending[..|pending| - 1] == Fresh(init, origin);
      FreshUnchained(init, origin);
    }
  }

  // ----- the session -----

  /**
   * The tables and their foreign keys, the audit rows the transaction sees, the rows it inserted so far, and the
   * work to flush.
   */
  datatype State = State(
    keys: set<ForeignKey>,
    db: Database,
    table: seq<Row>,
    log: seq<AuditRow>,
    pending: seq<Pending>,
    dirty: seq<Dirty>,
    deleted: seq<Instance>)
  {
    /** The session has nothing to flush. */
    predicate Clean() {
      pending == [] && dirty == [] && deleted == []
    }
  }

  /** `before_flush`. */
  function Prepared(suite: Suite, s: State, drawn: Drawn): State {
    s.(pending := Finalised(s.pending, ChainedOn(suite, s.table, Unchained(s.pending), drawn)))
  }

  /** The statements of the flush, and what the foreign keys make the database do after them. */
  function Executed(s: State): State {
    s.(db := Enforced(s.keys, s.db, Written(s.db, s.pending, s.dirty, s.deleted)),
       table := s.table + Waiting(s.pending),
       log := s.log + AuditsIn(s.pending))
  }

  function UnitOf(s: State, actor: Option<Actor>): UnitOfWork {
    UnitOfWork(s.pending, s.dirty, s.deleted, s.keys, actor)
  }

  /** `after_flush`: the entries, chained, are all that is left in the session. */
  function Followed(suite: Suite, s: State, actor: Option<Actor>, drawn: Drawn): State {
    var entries := EntriesOf(UnitOf(s, actor));
    FreshUnchained(entries, Hook);
    s.(pending := Finalised(Fresh(entries, Hook), ChainedOn(suite, s.table, entries, drawn)), dirty := [],
       deleted := [])
  }

  /** A flush with both hooks on; a clean session is left alone. */
  function Flushed(suite: Suite, s: State, actor: Option<Actor>, first: Drawn, second: Drawn): State {
    if s.Clean() then s else Followed(suite, Executed(Prepared(suite, s, first)), actor, second)
  }

  class Session {
    const suite: Suite
    const actor: Option<Actor>
    const keys: set<ForeignKey>
    var db: Database
    var table: seq<Row>
    var log: seq<AuditRow>
    var pending: seq<Pending>
    var dirty: seq<Dirty>
    var deleted: seq<Instance>

    function Now(): State
      reads this
    {
      State(keys, db, table, log, pending, dirty, deleted)
    }

    constructor (suite: Suite, actor: Option<Actor>, keys: set<ForeignKey>, db: Database, table: seq<Row>)
      ensures Now() == State(keys, db, table, [], [], [], []) && this.suite == suite && this.actor == actor
    {
      this.suite, this.actor, this.keys, this.db, this.table := suite, actor, keys, db, table;
      log, pending, dirty, deleted := [], [], [], [];
    }

    /** `before_flush`: chains the audit rows added directly, on the tail of the table. */
    method BeforeFlush(drawn: Drawn)
      modifies this
      ensures Now() == Prepared(suite, old(Now()), drawn)
    {
      hide Unchained, ChainedOn;
      var rows := ChainedOn(suite, table, Unchained(pending), drawn);
      pending := Finalised(pending, rows);
    }

    method AuditCreates() returns (entries: seq<AuditEntry>)
      ensures entries == Creates(pending, actor)
    {
      hide ToDict, Skips;
      entries := [];
      for i := 0 to |pending|
        invariant entries == Creates(pending[..i], actor)
      {
        assert pending[..i + 1][..i] == pending[..i] && pending[..i + 1][i] == pending[i];
        if !Skips(pending[i].Table()) && pending[i].Entity? {
          var instance := pending[i].instance;
          var after := InstanceToDict(instance.columns);
          entries := entries + [AuditEntry(Create, instance.ident, None, Some(after), actor)];
        }
      }
      assert pending[..|pending|] == pending;
    }

    method AuditUpdates() returns (entries: seq<AuditEntry>)
      ensures entries == Updates(dirty, actor)
    {
      hide BeforeOf, AfterOf, Skips;
      entries := [];
      for i := 0 to |dirty|
        invariant entries == Updates(dirty[..i], actor)
      {
        assert dirty[..i + 1][..i] == dirty[..i] && dirty[..i + 1][i] == dirty[i];
        if !Skips(dirty[i].ident.table) {
          var before, after := GetChanges(dirty[i].attrs);
          if after != map[] {
            entries := entries + [AuditEntry(Update, dirty[i].ident, Some(before), Some(after), actor)];
          }
        }
      }
      assert dirty[..|dirty|] == dirty;
    }

    method AuditDeletes() returns (entries: seq<AuditEntry>)
      ensures entries == Deletes(deleted, actor)
    {
      hide ToDict, Skips;
      entries := [];
      for i := 0 to |deleted|
        invariant entries == Deletes(deleted[..i], actor)
      {
        assert deleted[..i + 1][..i] == deleted[..i] && deleted[..i + 1][i] == deleted[i];
        if !Skips(deleted[i].ident.table) {
          var before := InstanceToDict(deleted[i].columns);
          entries := entries + [AuditEntry(Delete, deleted[i].ident, Some(before), None, actor)];
        }
      }
      assert deleted[..|deleted|] == deleted;
    }

    /** `after_flush`: the entries are chained and added to the session, to be inserted by its next flush. */
    method AfterFlush(drawn: Drawn)
      modifies this
      ensures Now() == Followed(suite, old(Now()), actor, drawn)
    {
      hide Creates, Updates, Deletes, ChainedOn, Fresh, Finalised;
      var auditEntries := AuditCreates();
      var updates := AuditUpdates();
      var deletes := AuditDeletes();
      auditEntries := auditEntries + updates + deletes;
      FreshUnchained(auditEntries, Hook);
      var rows := ChainedOn(suite, table, auditEntries, drawn);
      pending, dirty, deleted := Finalised(Fresh(auditEntries, Hook), rows), [], [];
    }

    method Flush(first: Drawn, second: Drawn)
      modifies this
      ensures Now() == Flushed(suite, old(Now()), actor, first, second)
    {
      hide Prepared, Followed, Written, Enforced, AuditsIn, Waiting;
      if pending == [] && dirty == [] && deleted == [] {
        return;
      }
      BeforeFlush(first);
      db := Enforced(keys, db, Written(db, pending, dirty, deleted));
      table := table + Waiting(pending);
      log := log + AuditsIn(pending);
      AfterFlush(second);
    }

    /** The flushes of a commit: it goes on until the session is clean, which takes at most two. */
    method FlushAll(draws: nat -> Drawn) returns (flushes: nat)
      modifies this
      ensures pending == [] && dirty == [] && deleted == [] && flushes <= 2
      ensures var once := Flushed(suite, old(Now()), actor, draws(0), draws(1));
              Now() == Flushed(suite, once, actor, draws(2), draws(3))
    {
      hide Flushed;
      flushes := 0;
      ghost var start := Now();
      ghost var once := Flushed(suite, start, actor, draws(0), draws(1));
      SettlesInTwo(suite, start, actor, draws(0), draws(1), draws(2), draws(3));
      CleanStays(suite, start, actor, draws(0), draws(1));
      CleanStays(suite, start, actor, draws(2), draws(3));
      CleanStays(suite, once, actor, draws(2), draws(3));
      while !(pending == [] && dirty == [] && deleted == [])
        invariant flushes <= 2
        invariant Now() == if flushes == 0 then start else if flushes == 1 then once
                           else Flushed(suite, once, actor, draws(2), draws(3))
        decreases 2 - flushes
      {
        Flush(draws(2 * flushes), draws(2 * flushes + 1));
        flushes := flushes + 1;
      }
    }
  }

  // ----- the flush loop -----

  lemma {:induction false} AuditsNotAudited(pending: seq<Pending>, actor: Option<Actor>)
    requires forall i :: 0 <= i < |pending| ==> pending[i].Audit?
    ensures Creates(pending, actor) == []
  {
    if pending != [] {
      AuditsNotAudited(pending[..|pending| - 1], actor);
    }
  }

  lemma {:induction false} FinalisedKinds(pending: seq<Pending>, rows: seq<Row>)
    requires |rows| == |Unchained(pending)|
    ensures forall i :: 0 <= i < |pending| ==> (Finalised(pending, rows)[i].Audit? <==> pending[i].Audit?)
    ensures forall i :: 0 <= i < |pending| && pending[i].Entity? ==> Finalised(pending, rows)[i] == pending[i]
  {
    if pending != [] {
      var (init, p) := (pending[..|pending| - 1], pending[|pending| - 1]);
      FinalisedKinds(init, if p.Audit? && p.row.row.None? then rows[..|rows| - 1] else rows);
    }
  }

  /** After a flush the session holds audit rows only. */
  lemma OnlyAuditsLeft(suite: Suite, s: State, actor: Option<Actor>, first: Drawn, second: Drawn)
    ensures var t := Flushed(suite, s, actor, first, second);
            t.dirty == [] && t.deleted == [] && forall i :: 0 <= i < |t.pending| ==> t.pending[i].Audit?
  {
    hide EntriesOf, ChainedOn, Finalised, Prepared, Executed;
    if !s.Clean() {
      var e := Executed(Prepared(suite, s, first));
      var entries := EntriesOf(UnitOf(e, actor));
      FreshUnchained(entries, Hook);
      FinalisedKinds(Fresh(entries, Hook), ChainedOn(suite, e.table, entries, second));
    }
  }

  /** The second flush only inserts what the first one recorded: after it the session is clean. */
  lemma SettlesInTwo(suite: Suite, s: State, actor: Option<Actor>, a: Drawn, b: Drawn, c: Drawn, d: Drawn)
    ensures Flushed(suite, Flushed(suite, s, actor, a, b), actor, c, d).Clean()
    ensures Flushed(suite, s, actor, a, b).Clean() <==>
              (s.Clean() || EntriesOf(UnitOf(Prepared(suite, s, a), actor)) == [])
  {
    var once := Flushed(suite, s, actor, a, b);
    OnlyAuditsLeft(suite, s, actor, a, b);
    hide EntriesOf, ChainedOn, Finalised, AuditsIn, Waiting, Written, Enforced;
    NothingLeft(suite, once, actor, c, d);
  }

  lemma NothingLeft(suite: Suite, s: State, actor: Option<Actor>, c: Drawn, d: Drawn)
    requires s.dirty == [] && s.deleted == [] && forall i :: 0 <= i < |s.pending| ==> s.pending[i].Audit?
    ensures Flushed(suite, s, actor, c, d).Clean()
  {
    hide ChainedOn, Finalised, AuditsIn, Waiting, Written, Enforced, Creates, Unchained, Fresh;
    var b := Prepared(suite, s, c);
    FinalisedKinds(s.pending, ChainedOn(suite, s.table, Unchained(s.pending), c));
    AuditsNotAudited(b.pending, actor);
  }

  lemma CleanStays(suite: Suite, s: State, actor: Option<Actor>, first: Drawn, second: Drawn)
    ensures s.Clean() ==> Flushed(suite, s, actor, first, second) == s
  {
  }

  // ----- which rows are inserted -----

  /** Rows the hooks chained wait for their INSERT while rows added directly have no hash yet. */
  predicate Mixed(pending: seq<Pending>) {
    Waiting(pending) != [] && Unchained(pending) != []
  }

  /** The rows that wait were in the session first. */
  predicate WaitingFirst(pending: seq<Pending>) {
    pending == []
    || (var (init, p) := (pending[..|pending| - 1], pending[|pending| - 1]);
        WaitingFirst(init) && (p.Audit? && p.row.row.Some? ==> Unchained(init) == []))
  }

  /** What a flush inserts: first the rows that waited, then the rows added directly. */
  lemma {:induction false} FinalisedRows(pending: seq<Pending>, rows: seq<Row>)
    requires WaitingFirst(pending) && |rows| == |Unchained(pending)|
    ensures Waiting(Finalised(pending, rows)) == Waiting(pending) + rows
    ensures Unchained(Finalised(pending, rows)) == []
  {
    if pending == [] {
      assert rows == [];
    } else {
      hide Finalised, Waiting;
      var (init, p) := (pending[..|pending| - 1], pending[|pending| - 1]);
      if p.Audit? && p.row.row.None? {
        FinalisedRows(init, rows[..|rows| - 1]);
        FinalisedOne(pending, rows);
        OneFurther(Waiting(init), rows);
      } else {
        FinalisedRows(init, rows);
        FinalisedKept(pending, rows);
        assert p.Audit? ==>
                 rows == [] && Waiting(init) + rows == Waiting(init) && Waiting(pending) + rows == Waiting(pending);
      }
    }
  }

  lemma OneFurther(a: seq<Row>, rows: seq<Row>)
    requires rows != []
    ensures a + rows == a + rows[..|rows| - 1] + [rows[|rows| - 1]]
  {
  }

  lemma FinalisedOne(pending: seq<Pending>, rows: seq<Row>)
    requires |rows| == |Unchained(pending)| && pending != []
    requires var p := pending[|pending| - 1]; p.Audit? && p.row.row.None?
    ensures var (init, last) := (Finalised(pending[..|pending| - 1], rows[..|rows| - 1]), rows[|rows| - 1]);
            Waiting(Finalised(pending, rows)) == Waiting(init) + [last]
            && Unchained(Finalised(pending, rows)) == Unchained(init)
            && Waiting(pending) == Waiting(pending[..|pending| - 1])
  {
    var all := Finalised(pending, rows);
    assert all[..|all| - 1] == Finalised(pending[..|pending| - 1], rows[..|rows| - 1]);
  }

  lemma FinalisedKept(pending: seq<Pending>, rows: seq<Row>)
    requires |rows| == |Unchained(pending)| && pending != []
    requires var p := pending[|pending| - 1]; !(p.Audit? && p.row.row.None?)
    ensures var (init, p) := (Finalised(pending[..|pending| - 1], rows), pending[|pending| - 1]);
            Waiting(Finalised(pending, rows)) == (if p.Audit? then Waiting(init) + [p.row.row.value] else Waiting(init))
            && Unchained(Finalised(pending, rows)) == Unchained(init)
            && Waiting(pending)
            == (if p.Audit? then Waiting(pending[..|pending| - 1]) + [p.row.row.value]
                else Waiting(pending[..|pending| - 1]))
  {
    var all := Finalised(pending, rows);
    assert all[..|all| - 1] == Finalised(pending[..|pending| - 1], rows);
  }

  lemma {:induction false} AllWaitFirst(pending: seq<Pending>)
    requires Unchained(pending) == []
    ensures WaitingFirst(pending)
  {
    if pending != [] {
      AllWaitFirst(pending[..|pending| - 1]);
    }
  }

  /** Work adds rows that have no hash. */
  ghost predicate Unhashed(adds: seq<Pending>) {
    forall i :: 0 <= i < |adds| && adds[i].Audit? ==> adds[i].row.origin.Direct? && adds[i].row.row.None?
  }

  lemma {:induction false} AddedBehind(pending: seq<Pending>, adds: seq<Pending>)
    requires WaitingFirst(pending) && Unhashed(adds)
    ensures WaitingFirst(pending + adds) && Waiting(pending + adds) == Waiting(pending)
    ensures Unchained(pending + adds) == Unchained(pending) + Unchained(adds)
  {
    if adds == [] {
      assert pending + adds == pending;
      assert Unchained(pending) + [] == Unchained(pending);
    } else {
      var (init, p) := (adds[..|adds| - 1], adds[|adds| - 1]);
      AddedBehind(pending, init);
      assert (pending + adds)[..|pending + adds| - 1] == pending + init;
    }
  }

  // ----- any number of flushes -----

  /** Work since the last flush, and what the next flush draws. */
  datatype Turn = Turn(adds: seq<Pending>, dirty: seq<Dirty>, deleted: seq<Instance>, first: Drawn, second: Drawn)

  function Worked(s: State, t: Turn): State {
    s.(pending := s.pending + t.adds, dirty := t.dirty, deleted := t.deleted)
  }

  /** The session after a number of turns, each work and a flush. */
  function After(suite: Suite, actor: Option<Actor>, start: State, turns: seq<Turn>): State {
    if turns == [] then start
    else
      var (before, t) := (After(suite, actor, start, turns[..|turns| - 1]), turns[|turns| - 1]);
      Flushed(suite, Worked(before, t), actor, t.first, t.second)
  }

  /** Some flush finds rows of the hooks waiting beside rows added directly. */
  predicate SomeMixed(suite: Suite, actor: Option<Actor>, start: State, turns: seq<Turn>) {
    turns != []
    && (var (init, t) := (turns[..|turns| - 1], turns[|turns| - 1]);
        SomeMixed(suite, actor, start, init) || Mixed(Worked(After(suite, actor, start, init), t).pending))
  }

  /** Between flushes the waiting rows continue the chain at the table's tail. */
  ghost predicate Settled(hash: Hash, s: State) {
    && s.dirty == [] && s.deleted == [] && Unchained(s.pending) == []
    && Linked(hash, LastHash(s.table), Waiting(s.pending))
  }

  lemma LinkedConcat(hash: Hash, a: seq<Row>, b: seq<Row>)
    requires Linked(hash, None, a) && Linked(hash, ExpectedPrev(None, a, |a|), b)
    ensures Linked(hash, None, a + b)
  {
    forall i | 0 <= i < |a + b|
      ensures (a + b)[i].prevHash == ExpectedPrev(None, a + b, i) && HashSound(hash, (a + b)[i])
    {
      LinkAt(hash, a, b, i);
    }
    hide ExpectedPrev, HashSound;
  }

  lemma LinkAt(hash: Hash, a: seq<Row>, b: seq<Row>, i: nat)
    requires Linked(hash, None, a) && Linked(hash, ExpectedPrev(None, a, |a|), b) && i < |a + b|
    ensures (a + b)[i].prevHash == ExpectedPrev(None, a + b, i) && HashSound(hash, (a + b)[i])
  {
    hide HashSound, ExpectedPrev, Linked;
    if i < |a| {
      LinkBefore(hash, a, b, i);
    } else {
      LinkBehind(hash, a, b, i - |a|);
      assert (a + b)[i] == b[i - |a|];
    }
  }

  lemma LinkBefore(hash: Hash, a: seq<Row>, b: seq<Row>, i: nat)
    requires Linked(hash, None, a) && i < |a|
    ensures (a + b)[i].prevHash == ExpectedPrev(None, a + b, i) && HashSound(hash, (a + b)[i])
  {
    hide HashSound;
    assert a[i].prevHash == ExpectedPrev(None, a, i);
  }

  lemma LinkBehind(hash: Hash, a: seq<Row>, b: seq<Row>, i: nat)
    requires Linked(hash, ExpectedPrev(None, a, |a|), b) && i < |b|
    ensures b[i].prevHash == ExpectedPrev(None, a + b, |a| + i) && HashSound(hash, b[i])
  {
    hide HashSound;
    assert b[i].prevHash == ExpectedPrev(ExpectedPrev(None, a, |a|), b, i);
  }

  lemma LinkedFirst(hash: Hash, prev: Option<Digest>, rows: seq<Row>)
    requires Linked(hash, prev, rows) && rows != []
    ensures rows[0].prevHash == prev
  {
    hide HashSound;
    assert rows[0].prevHash == ExpectedPrev(prev, rows, 0);
  }

  /** A flush keeps the table one chain, unless it is mixed; then two of the rows it inserts share a predecessor. */
  lemma FlushChains(suite: Suite, s: State, drawn: Drawn)
    requires WaitingFirst(s.pending) && Linked(suite.hash, LastHash(s.table), Waiting(s.pending))
    ensures var table := Executed(Prepared(suite, s, drawn)).table;
            && s.table <= table
            && (!Mixed(s.pending) && Linked(suite.hash, None, s.table) && InOrder(s.table) ==>
                  Linked(suite.hash, None, table))
            && (Mixed(s.pending) ==> ChainConcurrency.Forked(table))
  {
    hide Written, Enforced, AuditsIn, Finalised, Waiting, Unchained, ChainRows, LastHash, Linked, InOrder, WaitingFirst;
    var rows := ChainedOn(suite, s.table, Unchained(s.pending), drawn);
    FinalisedRows(s.pending, rows);
    ChainRowsLinked(suite, drawn.today, LastHash(s.table), ColumnsOf(Unchained(s.pending), drawn));
    var (a, w, d) := (s.table, Waiting(s.pending), rows);
    if w != [] && d != [] {
      LinkedFirst(suite.hash, LastHash(a), w);
      LinkedFirst(suite.hash, LastHash(a), d);
      var all := a + (w + d);
      assert all[|a|] == w[0] && all[|a| + |w|] == d[0];
    } else if Linked(suite.hash, None, a) && InOrder(a) {
      assert w + d == if w == [] then d else w;
      ChainConcurrency.TailOfChain(suite.hash, a);
      LinkedConcat(suite.hash, a, w + d);
    }
  }

  lemma FlushSettles(suite: Suite, s: State, actor: Option<Actor>, first: Drawn, second: Drawn)
    requires !s.Clean()
    ensures Settled(suite.hash, Flushed(suite, s, actor, first, second))
    ensures Flushed(suite, s, actor, first, second).table == Executed(Prepared(suite, s, first)).table
  {
    hide Prepared, Executed, Waiting, Unchained, WaitingFirst, ChainRows, LastHash, Linked, EntriesOf, Finalised;
    var e := Executed(Prepared(suite, s, first));
    var entries := EntriesOf(UnitOf(e, actor));
    var rows := ChainedOn(suite, e.table, entries, second);
    FreshUnchained(entries, Hook);
    FreshWaitFirst(entries);
    FinalisedRows(Fresh(entries, Hook), rows);
    ChainRowsLinked(suite, second.today, LastHash(e.table), ColumnsOf(entries, second));
    assert [] + rows == rows;
  }

  lemma {:induction false} FreshWaitFirst(entries: seq<AuditEntry>)
    ensures WaitingFirst(Fresh(entries, Hook))
  {
    var pending := Fresh(entries, Hook);
    if entries != [] {
      var init := entries[..|entries| - 1];
      assert pending[..|pending| - 1] == Fresh(init, Hook);
      FreshWaitFirst(init);
    }
  }

  /** One turn on a settled session. */
  lemma TurnStep(suite: Suite, s: State, actor: Option<Actor>, t: Turn)
    requires Settled(suite.hash, s) && Unhashed(t.adds)
    ensures var (w, s') := (Worked(s, t), Flushed(suite, Worked(s, t), actor, t.first, t.second));
            && Settled(suite.hash, s') && s.table <= s'.table
            && (!Mixed(w.pending) && Linked(suite.hash, None, s.table) && InOrder(s.table) ==>
                  Linked(suite.hash, None, s'.table))
            && (Mixed(w.pending) ==> ChainConcurrency.Forked(s'.table))
  {
    hide Prepared, Executed, Waiting, Unchained, WaitingFirst, LastHash, Linked, InOrder, Flushed, Unhashed,
         ChainConcurrency.Forked;
    AllWaitFirst(s.pending);
    AddedBehind(s.pending, t.adds);
    var w := Worked(s, t);
    if w.Clean() {
      CleanStays(suite, w, actor, t.first, t.second);
      assert w.pending == s.pending + t.adds == [];
      assert s.pending == [] && w == s;
      assert !Mixed(w.pending) by { NothingWaits(); }
    } else {
      FlushChains(suite, w, t.first);
      FlushSettles(suite, w, actor, t.first, t.second);
    }
  }

  lemma NothingWaits()
    ensures Waiting([]) == []
  {
  }

  ghost predicate AllUnhashed(turns: seq<Turn>) {
    forall i :: 0 <= i < |turns| ==> Unhashed(turns[i].adds)
  }

  lemma {:induction false} RunChains(suite: Suite, actor: Option<Actor>, start: State, turns: seq<Turn>)
    requires start.Clean() && ChainConcurrency.OneChain(suite.hash, start.table) && AllUnhashed(turns)
    requires InOrder(After(suite, actor, start, turns).table)
    ensures var s := After(suite, actor, start, turns);
            && Settled(suite.hash, s) && start.table <= s.table
            && (!SomeMixed(suite, actor, start, turns) ==> Linked(suite.hash, None, s.table))
            && (SomeMixed(suite, actor, start, turns) ==> ChainConcurrency.Forked(s.table))
  {
    hide Flushed, Settled, ChainConcurrency.Forked, Linked, InOrder, Mixed, Unhashed;
    if turns == [] {
      StartSettled(suite, start);
    } else {
      var (init, t) := (turns[..|turns| - 1], turns[|turns| - 1]);
      var before := After(suite, actor, start, init);
      assert AllUnhashed(init);
      RunGrows(suite, actor, start, init, t);
      PrefixInOrder(before.table, After(suite, actor, start, turns).table);
      RunChains(suite, actor, start, init);
      TurnStep(suite, before, actor, t);
      if SomeMixed(suite, actor, start, init) {
        ChainConcurrency.ForkStays(before.table, After(suite, actor, start, turns).table);
      }
    }
  }

  lemma StartSettled(suite: Suite, start: State)
    requires start.Clean()
    ensures Settled(suite.hash, start)
  {
  }

  lemma RunGrows(suite: Suite, actor: Option<Actor>, start: State, init: seq<Turn>, t: Turn)
    ensures After(suite, actor, start, init).table
         <= Flushed(suite, Worked(After(suite, actor, start, init), t), actor, t.first, t.second).table
  {
    hide Waiting, Finalised, EntriesOf, Written, Enforced, AuditsIn, ChainedOn;
  }

  lemma PrefixInOrder(rows: seq<Row>, more: seq<Row>)
    requires rows <= more && InOrder(more)
    ensures InOrder(rows)
  {
    hide Before;
    forall i, j | 0 <= i < j < |rows| ensures Before(rows[i], rows[j]) {
      assert rows[i] == more[i] && rows[j] == more[j];
    }
  }

  /**
   * A session that begins on one chain leaves one chain exactly if none of its flushes finds rows of the hooks
   * waiting beside rows added directly; in such a flush both are chained on the same tail. Or there is a
   * collision.
   */
  lemma SessionForks(suite: Suite, actor: Option<Actor>, start: State, turns: seq<Turn>) returns (f: Finding)
    requires start.Clean() && ChainConcurrency.OneChain(suite.hash, start.table) && AllUnhashed(turns)
    requires InOrder(After(suite, actor, start, turns).table)
    ensures f.Sound(suite.hash) && !f.ZeroHash?
    ensures var (table, mixed) := (After(suite, actor, start, turns).table, SomeMixed(suite, actor, start, turns));
            && (!mixed ==> Linked(suite.hash, None, table))
            && (mixed ==> ChainConcurrency.Forked(table))
            && (f.Same? ==> (Linked(suite.hash, None, table) <==> !mixed))
  {
    hide After, SomeMixed, Linked, InOrder;
    RunChains(suite, actor, start, turns);
    var table := After(suite, actor, start, turns).table;
    f := Same;
    if Linked(suite.hash, None, table) {
      f := ChainConcurrency.NoFork(suite.hash, table);
    }
  }

  /**
   * An input: a request is stored and flushed, so that its create entry waits, and then the service adds an
   * entry of its own and flushes. Both entries get one predecessor.
   */
  lemma AddedBesideWaiting(
    suite: Suite, actor: Option<Actor>, start: State, instance: Instance, own: AuditEntry, t: Turn, u: Turn)
    requires start.Clean() && !Skips(instance.ident.table)
    requires t.adds == [Entity(instance)] && t.dirty == [] && t.deleted == []
    requires u.adds == [Audit(AuditRow(own, Direct, None))]
    ensures SomeMixed(suite, actor, start, [t, u])
  {
    hide Flushed, Waiting, Unchained, Skips;
    var (w, once) := (Worked(start, t), After(suite, actor, start, [t]));
    assert [t, u][..1] == [t] && [t][..0] == [];
    assert start.pending + t.adds == [Entity(instance)];
    assert w == start.(pending := [Entity(instance)]);
    OneEntity(suite, start, instance, actor, t.first, t.second);
    AddOne(once.pending, own);
  }

  lemma AddOne(pending: seq<Pending>, own: AuditEntry)
    ensures var all := pending + [Audit(AuditRow(own, Direct, None))];
            Waiting(all) == Waiting(pending) && Unchained(all) == Unchained(pending) + [own]
  {
    var all := pending + [Audit(AuditRow(own, Direct, None))];
    assert all[..|pending|] == pending;
  }

  lemma OneEntity(
    suite: Suite, start: State, instance: Instance, actor: Option<Actor>, first: Drawn, second: Drawn)
    requires start.Clean() && !Skips(instance.ident.table)
    ensures Waiting(Flushed(suite, start.(pending := [Entity(instance)]), actor, first, second).pending) != []
  {
    var s := start.(pending := [Entity(instance)]);
    EntityOnly(instance);
    var e := Executed(Prepared(suite, s, first));
    assert ChainedOn(suite, s.table, [], first) == [];
    assert e.pending == [Entity(instance)];
    hide ToDict, Skips, Waiting, Finalised, Executed, Prepared, ChainedOn, Unchained;
    var entries := EntriesOf(UnitOf(e, actor));
    OneCreate(instance, s.keys, actor);
    FreshUnchained(entries, Hook);
    FreshWaitFirst(entries);
    FinalisedRows(Fresh(entries, Hook), ChainedOn(suite, e.table, entries, second));
  }

  lemma EntityOnly(instance: Instance)
    ensures Unchained([Entity(instance)]) == [] && Finalised([Entity(instance)], []) == [Entity(instance)]
  {
    assert [Entity(instance)][..0] == [];
  }

  lemma OneCreate(instance: Instance, keys: set<ForeignKey>, actor: Option<Actor>)
    requires !Skips(instance.ident.table)
    ensures EntriesOf(UnitOfWork([Entity(instance)], [], [], keys, actor)) != []
  {
    hide ToDict, Skips;
    assert [Entity(instance)][..0] == [];
  }

  // ----- what the inserted log replays to -----

  function EntriesIn(rows: seq<AuditRow>): seq<AuditEntry> {
    if rows == [] then [] else EntriesIn(rows[..|rows| - 1]) + [rows[|rows| - 1].entry]
  }

  /** The entries of the rows the hooks made. */
  function HookEntries(rows: seq<AuditRow>): seq<AuditEntry> {
    if rows == [] then []
    else
      var (rest, r) := (HookEntries(rows[..|rows| - 1]), rows[|rows| - 1]);
      if r.origin.Hook? then rest + [r.entry] else rest
  }

  lemma {:induction false} HookConcat(a: seq<AuditRow>, b: seq<AuditRow>)
    ensures HookEntries(a + b) == HookEntries(a) + HookEntries(b)
  {
    if b == [] {
      assert a + b == a && HookEntries(a) + [] == HookEntries(a);
    } else {
      var init := b[..|b| - 1];
      assert (a + b)[..|a + b| - 1] == a + init && (a + b)[|a + b| - 1] == b[|b| - 1];
      HookConcat(a, init);
    }
  }

  lemma {:induction false} AuditsConcat(a: seq<Pending>, b: seq<Pending>)
    ensures AuditsIn(a + b) == AuditsIn(a) + AuditsIn(b)
  {
    if b == [] {
      assert a + b == a && AuditsIn(a) + [] == AuditsIn(a);
    } else {
      var init := b[..|b| - 1];
      assert (a + b)[..|a + b| - 1] == a + init && (a + b)[|a + b| - 1] == b[|b| - 1];
      AuditsConcat(a, init);
    }
  }

  /** Chaining a row changes neither what it says nor where it came from. */
  lemma {:induction false} FinalisedSays(pending: seq<Pending>, rows: seq<Row>)
    requires |rows| == |Unchained(pending)|
    ensures HookEntries(AuditsIn(Finalised(pending, rows))) == HookEntries(AuditsIn(pending))
  {
    hide HookEntries;
    if pending != [] {
      var (init, p) := (pending[..|pending| - 1], pending[|pending| - 1]);
      var rest := if p.Audit? && p.row.row.None? then rows[..|rows| - 1] else rows;
      FinalisedSays(init, rest);
      FinalisedAudits(pending, rows);
      hide Finalised, Unchained;
      if p.Audit? {
        var row := if p.row.row.None? then Some(rows[|rows| - 1]) else p.row.row;
        HookLast(AuditsIn(init), p.row);
        HookLast(AuditsIn(Finalised(init, rest)), p.row.(row := row));
      }
    }
  }

  lemma HookLast(rows: seq<AuditRow>, r: AuditRow)
    ensures HookEntries(rows + [r]) == if r.origin.Hook? then HookEntries(rows) + [r.entry] else HookEntries(rows)
  {
    assert (rows + [r])[..|rows|] == rows;
  }

  lemma FinalisedAudits(pending: seq<Pending>, rows: seq<Row>)
    requires |rows| == |Unchained(pending)| && pending != []
    ensures var (init, p) := (pending[..|pending| - 1], pending[|pending| - 1]);
            var isNew := p.Audit? && p.row.row.None?;
            var rest := if isNew then rows[..|rows| - 1] else rows;
            AuditsIn(Finalised(pending, rows))
            == if !p.Audit? then AuditsIn(Finalised(init, rest))
               else AuditsIn(Finalised(init, rest))
                    + [p.row.(row := if isNew then Some(rows[|rows| - 1]) else p.row.row)]
  {
    var (init, p) := (pending[..|pending| - 1], pending[|pending| - 1]);
    var rest := if p.Audit? && p.row.row.None? then rows[..|rows| - 1] else rows;
    var all := Finalised(pending, rows);
    assert all[..|all| - 1] == Finalised(init, rest);
  }

  lemma {:induction false} NoHooksAdded(adds: seq<Pending>)
    requires Unhashed(adds)
    ensures HookEntries(AuditsIn(adds)) == []
  {
    if adds != [] {
      var (init, p) := (adds[..|adds| - 1], adds[|adds| - 1]);
      NoHooksAdded(init);
      if p.Audit? {
        HookLast(AuditsIn(init), p.row);
      }
    }
  }

  lemma {:induction false} FreshSays(entries: seq<AuditEntry>)
    ensures HookEntries(AuditsIn(Fresh(entries, Hook))) == entries
  {
    var pending := Fresh(entries, Hook);
    if entries != [] {
      var init := entries[..|entries| - 1];
      assert pending[..|pending| - 1] == Fresh(init, Hook);
      FreshSays(init);
      HookLast(AuditsIn(Fresh(init, Hook)), pending[|pending| - 1].row);
    }
  }

  /** The work of each flush, as the hooks and the statements see it. */
  function UnitsOf(suite: Suite, actor: Option<Actor>, start: State, turns: seq<Turn>): seq<UnitOfWork> {
    if turns == [] then []
    else
      var (init, t) := (turns[..|turns| - 1], turns[|turns| - 1]);
      var (rest, w) := (UnitsOf(suite, actor, start, init), Worked(After(suite, actor, start, init), t));
      if w.Clean() then rest else rest + [UnitOf(Prepared(suite, w, t.first), actor)]
  }

  lemma FlushLogs(suite: Suite, w: State, actor: Option<Actor>, first: Drawn, second: Drawn)
    requires !w.Clean()
    ensures var (s, unit) := (Flushed(suite, w, actor, first, second), UnitOf(Prepared(suite, w, first), actor));
            && HookEntries(s.log) == HookEntries(w.log) + HookEntries(AuditsIn(w.pending))
            && HookEntries(AuditsIn(s.pending)) == EntriesOf(unit)
            && s.db == DatabaseAfter(w.db, unit)
  {
    hide HookEntries, AuditsIn, Finalised, Fresh, Unchained, ChainedOn, EntriesOf, Written, Enforced, Waiting;
    var rows := ChainedOn(suite, w.table, Unchained(w.pending), first);
    FinalisedSays(w.pending, rows);
    HookConcat(w.log, AuditsIn(Finalised(w.pending, rows)));
    var e := Executed(Prepared(suite, w, first));
    var entries := EntriesOf(UnitOf(e, actor));
    FreshUnchained(entries, Hook);
    FinalisedSays(Fresh(entries, Hook), ChainedOn(suite, e.table, entries, second));
    FreshSays(entries);
  }

  /** The entries of the hooks' rows, inserted and then waiting. */
  function HookLog(s: State): seq<AuditEntry> {
    HookEntries(s.log) + HookEntries(AuditsIn(s.pending))
  }

  lemma WorkLogs(s: State, t: Turn)
    requires Unhashed(t.adds)
    ensures HookLog(Worked(s, t)) == HookLog(s)
  {
    hide HookEntries, AuditsIn, Unhashed;
    AuditsConcat(s.pending, t.adds);
    HookConcat(AuditsIn(s.pending), AuditsIn(t.adds));
    NoHooksAdded(t.adds);
    assert HookEntries(AuditsIn(s.pending)) + [] == HookEntries(AuditsIn(s.pending));
  }

  lemma TurnLogs(suite: Suite, w: State, actor: Option<Actor>, first: Drawn, second: Drawn)
    ensures var (s, unit) := (Flushed(suite, w, actor, first, second), UnitOf(Prepared(suite, w, first), actor));
            && HookLog(s) == (if w.Clean() then HookLog(w) else HookLog(w) + EntriesOf(unit))
            && s.db == (if w.Clean() then w.db else DatabaseAfter(w.db, unit))
  {
    hide Flushed, Prepared, HookEntries, AuditsIn, EntriesOf, DatabaseAfter;
    if w.Clean() {
      CleanStays(suite, w, actor, first, second);
    } else {
      FlushLogs(suite, w, actor, first, second);
    }
  }

  /** The hooks' rows, inserted and then waiting, are the log of the work in its order; the tables are its outcome. */
  lemma {:induction false} SessionLog(suite: Suite, actor: Option<Actor>, start: State, turns: seq<Turn>)
    requires start.Clean() && start.log == [] && AllUnhashed(turns)
    ensures var (s, units) := (After(suite, actor, start, turns), UnitsOf(suite, actor, start, turns));
            HookLog(s) == LogOf(units) && s.db == DatabaseAfterAll(start.db, units)
  {
    if turns == [] {
      NoHooksPending();
    } else {
      hide Flushed, Prepared, EntriesOf, DatabaseAfter, Unhashed, HookLog;
      var (init, t) := (turns[..|turns| - 1], turns[|turns| - 1]);
      var before := After(suite, actor, start, init);
      assert AllUnhashed(init) && Unhashed(t.adds);
      SessionLog(suite, actor, start, init);
      WorkLogs(before, t);
      TurnLogs(suite, Worked(before, t), actor, t.first, t.second);
      var units := UnitsOf(suite, actor, start, turns);
      assert !Worked(before, t).Clean() ==> units[..|units| - 1] == UnitsOf(suite, actor, start, init);
    }
  }

  lemma RedoLocal(a: Database, b: Database, e: AuditEntry, x: Ident)
    requires AgreeAt(a, b, x)
    ensures AgreeAt(Redo(a, e), Redo(b, e), x)
    ensures e.ident != x || e.action.Other? ==> AgreeAt(Redo(a, e), a, x)
  {
  }

  /** Every row a service added is about something else, or says neither create, update nor delete. */
  ghost predicate DirectElsewhere(rows: seq<AuditRow>, x: Ident) {
    forall i :: 0 <= i < |rows| && rows[i].origin.Direct? ==> rows[i].entry.ident != x || rows[i].entry.action.Other?
  }

  lemma {:induction false} DirectRowsAside(view: Database, rows: seq<AuditRow>, x: Ident)
    requires DirectElsewhere(rows, x)
    ensures AgreeAt(Replay(view, EntriesIn(rows)), Replay(view, HookEntries(rows)), x)
  {
    hide Redo;
    if rows != [] {
      var (init, r) := (rows[..|rows| - 1], rows[|rows| - 1]);
      DirectRowsAside(view, init, x);
      var (all, hooks) := (Replay(view, EntriesIn(init)), Replay(view, HookEntries(init)));
      ReplayLast(view, EntriesIn(init), r.entry);
      ReplayLast(view, HookEntries(init), r.entry);
      RedoLocal(all, hooks, r.entry, x);
    }
  }

  /**
   * Once nothing waits, replaying the whole table rebuilds every audited identity that no directly added
   * create, update or delete row names.
   */
  lemma TableReplays(suite: Suite, actor: Option<Actor>, start: State, turns: seq<Turn>, x: Ident)
    requires start.Clean() && start.log == [] && AllUnhashed(turns)
    requires After(suite, actor, start, turns).pending == []
    requires forall f :: f in UnitsOf(suite, actor, start, turns) ==> HeldOnce(f)
    requires AlwaysShown(start.db, UnitsOf(suite, actor, start, turns))
    requires DirectElsewhere(After(suite, actor, start, turns).log, x)
    ensures var s := After(suite, actor, start, turns);
            AgreeAt(Replay(View(start.db), EntriesIn(s.log)), View(s.db), x)
  {
    hide After, UnitsOf, HeldOnce, AlwaysShown, DirectElsewhere, View, HookEntries, EntriesIn;
    var s := After(suite, actor, start, turns);
    SessionLog(suite, actor, start, turns);
    NoHooksPending();
    assert HookLog(s) == HookEntries(s.log) + [] == HookEntries(s.log);
    LogReplays(start.db, UnitsOf(suite, actor, start, turns));
    DirectRowsAside(View(start.db), s.log, x);
  }

  /**
   * Whatever the database did on its own: the whole table then rebuilds every other audited column of such an
   * identity that was never among the lost rows.
   */
  lemma TableReplaysOthers(
    suite: Suite, actor: Option<Actor>, start: State, turns: seq<Turn>, x: Ident, names: Ident -> set<string>,
    lost: set<Ident>)
    requires start.Clean() && start.log == [] && AllUnhashed(turns)
    requires After(suite, actor, start, turns).pending == []
    requires forall f :: f in UnitsOf(suite, actor, start, turns) ==> HeldOnce(f)
    requires AlwaysAmong(start.db, UnitsOf(suite, actor, start, turns), names, lost) && x !in lost
    requires DirectElsewhere(After(suite, actor, start, turns).log, x)
    ensures var s := After(suite, actor, start, turns);
            MaskedAlike(Replay(View(start.db), EntriesIn(s.log)), View(s.db), names, x)
  {
    hide After, UnitsOf, HeldOnce, AlwaysAmong, DirectElsewhere, View, HookEntries, EntriesIn, Replay;
    var s := After(suite, actor, start, turns);
    SessionLog(suite, actor, start, turns);
    NoHooksPending();
    assert HookLog(s) == HookEntries(s.log) + [] == HookEntries(s.log);
    OtherColumnsReplay(start.db, UnitsOf(suite, actor, start, turns), names, lost);
    DirectRowsAside(View(start.db), s.log, x);
    AlikeFromMasked(Replay(View(start.db), HookEntries(s.log)), View(s.db), names, lost, x);
  }

  lemma AlikeFromMasked(a: Database, b: Database, names: Ident -> set<string>, lost: set<Ident>, x: Ident)
    requires Masked(a, names, lost) == Masked(b, names, lost) && x !in lost
    ensures MaskedAlike(a, b, names, x)
  {
    assert x in Masked(a, names, lost) <==> x in Masked(b, names, lost);
    assert x in a ==> Masked(a, names, lost)[x] == Masked(b, names, lost)[x];
  }

  lemma NoHooksPending()
    ensures HookEntries(AuditsIn([])) == []
  {
  }

  /** What a row must say of the identity it names to leave a replay as it is. */
  ghost predicate Neutral(view: Database, e: AuditEntry) {
    match e.action
    case Create => e.after.Some? ==> e.ident in view && view[e.ident] == e.after.value
    case Update =>
      e.after.Some? && e.ident in view ==>
        forall k :: k in e.after.value ==> k in view[e.ident] && view[e.ident][k] == e.after.value[k]
    case Delete => e.ident !in view
    case Other(_) => true
  }

  /** A row added directly leaves a replay as it is exactly if it repeats what the replay holds. */
  lemma NeutralExactly(view: Database, e: AuditEntry)
    ensures Redo(view, e) == view <==> Neutral(view, e)
  {
    match e.action
    case Create => assert e.after.Some? && Redo(view, e) == view ==> view[e.ident] == e.after.value;
    case Update =>
      if e.after.Some? && e.ident in view {
        MergeSame(view[e.ident], e.after.value);
        if Redo(view, e) == view {
          assert Redo(view, e)[e.ident] == view[e.ident] + e.after.value;
        } else {
          assert view[e.ident := view[e.ident]] == view;
        }
      }
    case Delete =>
    case Other(_) =>
  }

  lemma MergeSame(row: Fields, after: Fields)
    ensures row + after == row <==> forall k :: k in after ==> k in row && row[k] == after[k]
  {
    if row + after == row {
      forall k | k in after ensures k in row && row[k] == after[k] {
        assert k in row + after && (row + after)[k] == after[k];
      }
    }
  }

  // ----- what the hooks record can be hashed -----

  lemma {:induction false} SerializeKeepsProper(p: Py)
    requires DictsProper(p)
    ensures DictsProper(Serialize(p))
    decreases p
  {
    match p
    case List(items) =>
      forall i | 0 <= i < |items| ensures DictsProper(Serialize(items[i])) { SerializeKeepsProper(items[i]); }
    case Dict(entries) =>
      forall i | 0 <= i < |entries| ensures DictsProper(Serialize(entries[i].value)) {
        SerializeKeepsProper(entries[i].value);
      }
    case _ =>
  }

  /** The dict of an instance whose columns are known values can be hashed. */
  lemma {:induction false} KnownIsStorable(columns: seq<Column>)
    requires forall i :: 0 <= i < |columns| ==> Known(columns[i].value) && DictsProper(columns[i].value)
    ensures Storable(ToDict(columns))
  {
    hide Serialize, Known;
    if columns != [] {
      var (init, c) := (columns[..|columns| - 1], columns[|columns| - 1]);
      KnownIsStorable(init);
      SafeExactlyForKnown(c.value);
      SafeIsEncodable(Serialize(c.value));
      SerializeKeepsProper(c.value);
    }
  }
}
