/** Replaying the audit log, forwards and backwards, against what the flushes wrote. */
module AuditReplay {
  import opened Common
  import opened PyValues
  import opened AuditListener
  import Text

  /** The tables after the statements of a flush. */
  function Statements(db: Database, f: UnitOfWork): Database {
    Written(db, f.pending, f.dirty, f.deleted)
  }

  /** The rows its statements take away, and all that the database takes with them. */
  function Gone(db: Database, f: UnitOfWork): set<Ident> {
    Closure(f.keys, Statements(db, f), db.Keys - Statements(db, f).Keys)
  }

  function DatabaseAfter(db: Database, f: UnitOfWork): Database {
    Enforced(f.keys, db, Statements(db, f))
  }

  function Created(pending: seq<Pending>): set<Ident> {
    set p | p in pending && p.Entity? :: p.instance.ident
  }

  function Deleted(deleted: seq<Instance>): set<Ident> {
    set x | x in deleted :: x.ident
  }

  /** The session holds a changed identity once, and not also as new or deleted. */
  ghost predicate HeldOnce(f: UnitOfWork) {
    && (forall d :: d in f.dirty ==> d.ident !in Created(f.pending) && d.ident !in Deleted(f.deleted))
    && OncePerIdent(f.dirty)
  }

  ghost predicate OncePerIdent(dirty: seq<Dirty>) {
    forall i, j :: 0 <= i < j < |dirty| ==> dirty[i].ident != dirty[j].ident
  }

  /** Deleted and created again in the flush: SQLAlchemy turns this into an UPDATE. */
  ghost predicate Switched(f: UnitOfWork, x: Ident) {
    x in Created(f.pending) && x in Deleted(f.deleted)
  }

  lemma {:induction false} InsertedIsMerge(db: Database, pending: seq<Pending>)
    ensures Inserted(db, pending) == db + Inserted(map[], pending)
  {
    hide RowOf;
    if pending == [] {
      assert db + map[] == db;
    } else {
      InsertedIsMerge(db, pending[..|pending| - 1]);
    }
  }

  lemma {:induction false} InsertedKeys(pending: seq<Pending>)
    ensures Inserted(map[], pending).Keys == Created(pending)
  {
    hide RowOf;
    if pending != [] {
      var (init, p) := (pending[..|pending| - 1], pending[|pending| - 1]);
      InsertedKeys(init);
      assert pending == init + [p];
      assert Created(pending) == Created(init) + if p.Entity? then {p.instance.ident} else {};
    }
  }

  lemma {:induction false} RemovedIsMinus(db: Database, deleted: seq<Instance>)
    ensures Removed(db, deleted) == db - Deleted(deleted)
  {
    if deleted == [] {
      assert db - {} == db;
    } else {
      var (init, x) := (deleted[..|deleted| - 1], deleted[|deleted| - 1]);
      RemovedIsMinus(db, init);
      assert deleted == init + [x];
      assert Deleted(deleted) == Deleted(init) + {x.ident};
    }
  }

  // ----- foreign keys -----

  lemma {:induction false} ClosureIsClosed(keys: set<ForeignKey>, db: Database, gone: set<Ident>)
    ensures forall x :: x in db && Follows(keys, x, db[x], Closure(keys, db, gone)) ==> x in Closure(keys, db, gone)
    decreases db.Keys - gone
  {
    hide Follows;
    var more := set x | x in db && x !in gone && Follows(keys, x, db[x], gone);
    if more != {} {
      assert more <= db.Keys - gone;
      ClosureIsClosed(keys, db, gone + more);
    } else {
      forall x | x in db && Follows(keys, x, db[x], gone) ensures x in gone {
        assert x !in more;
      }
    }
  }

  lemma FollowsMore(keys: set<ForeignKey>, x: Ident, row: Fields, gone: set<Ident>, more: set<Ident>)
    requires gone <= more && Follows(keys, x, row, gone)
    ensures Follows(keys, x, row, more)
  {
    hide Refers;
  }

  /** No more rows go than have to: any set that holds the deleted rows and all that refer to it holds them. */
  lemma {:induction false} ClosureIsLeast(keys: set<ForeignKey>, db: Database, gone: set<Ident>, closed: set<Ident>)
    requires gone <= closed && forall x :: x in db && Follows(keys, x, db[x], closed) ==> x in closed
    ensures Closure(keys, db, gone) <= closed
    decreases db.Keys - gone
  {
    hide Follows;
    var more := set x | x in db && x !in gone && Follows(keys, x, db[x], gone);
    if more != {} {
      assert more <= db.Keys - gone;
      forall x | x in more ensures x in closed {
        FollowsMore(keys, x, db[x], gone, closed);
      }
      ClosureIsLeast(keys, db, gone + more, closed);
    }
  }

  /** When the database is done, no foreign key that cascades or sets null names a row that is gone. */
  lemma NoneDangles(keys: set<ForeignKey>, before: Database, after: Database, x: Ident, key: ForeignKey, y: Ident)
    requires x in Enforced(keys, before, after) && key in keys
    requires y in Closure(keys, after, before.Keys - after.Keys)
    ensures !Refers(key, x, Enforced(keys, before, after)[x], y)
  {
    hide Closure, Serialize;
    var gone := Closure(keys, after, before.Keys - after.Keys);
    ClosureIsClosed(keys, after, before.Keys - after.Keys);
    assert Serialize(NoneValue) == NoneValue by { NoneIsKept(); }
    assert Refers(key, x, Enforced(keys, before, after)[x], y) ==> Refers(key, x, after[x], y);
  }

  lemma NoneIsKept()
    ensures Serialize(NoneValue) == NoneValue
  {
  }

  lemma AfterAt(db: Database, f: UnitOfWork, x: Ident)
    ensures x in DatabaseAfter(db, f) <==> x in Statements(db, f) && x !in Gone(db, f)
    ensures x in DatabaseAfter(db, f) ==>
              DatabaseAfter(db, f)[x] == NulledRow(f.keys, x, Statements(db, f)[x], Gone(db, f))
  {
    hide Closure, Statements, NulledRow;
  }

  /** The database sets a column of a row to null, because the row it named is gone. */
  ghost predicate NulledAt(db: Database, f: UnitOfWork, x: Ident, k: string) {
    x in Statements(db, f) && Nulls(f.keys, x, Statements(db, f)[x], Gone(db, f), k)
  }

  // ----- columns that are set silently -----

  ghost predicate ChangedKey(attrs: seq<Attr>, key: string) {
    exists i :: 0 <= i < |attrs| && attrs[i].changed && attrs[i].key == key
  }

  /** The UPDATE of a row sets a non-sensitive column, not changed explicitly, to another serialised value. */
  ghost predicate SilentAt(row: Fields, d: Dirty, k: string) {
    && Writes(d.attrs) && k in RowOf(d.silent) && k !in SENSITIVE_FIELDS && !ChangedKey(d.attrs, k)
    && !(k in row && Serialize(row[k]) == Serialize(RowOf(d.silent)[k]))
  }

  lemma {:induction false} TouchedAt(row: Fields, other: Fields, attrs: seq<Attr>, k: string)
    ensures !ChangedKey(attrs, k) ==>
              (k in Touched(row, attrs) <==> k in row) && (k in row ==> Touched(row, attrs)[k] == row[k])
    ensures ChangedKey(attrs, k) ==>
              && k in Touched(row, attrs) && k in Touched(other, attrs)
              && Touched(row, attrs)[k] == Touched(other, attrs)[k]
  {
    if attrs != [] {
      var (init, a) := (attrs[..|attrs| - 1], attrs[|attrs| - 1]);
      TouchedAt(row, other, init, k);
      assert attrs == init + [a];
      ChangedKeyLast(init, a, k);
    }
  }

  lemma ChangedKeyLast(init: seq<Attr>, a: Attr, k: string)
    ensures ChangedKey(init + [a], k) <==> ChangedKey(init, k) || (a.changed && a.key == k)
  {
    var attrs := init + [a];
    if i :| 0 <= i < |init| && init[i].changed && init[i].key == k {
      assert attrs[i].changed && attrs[i].key == k;
    }
    if a.changed && a.key == k {
      assert attrs[|init|].changed && attrs[|init|].key == k;
    }
  }

  lemma {:induction false} NothingTouched(row: Fields, attrs: seq<Attr>)
    requires !Writes(attrs)
    ensures Touched(row, attrs) == row
  {
    if attrs != [] {
      assert !attrs[|attrs| - 1].changed;
      NothingTouched(row, attrs[..|attrs| - 1]);
    }
  }

  lemma SilenceAt(row: Fields, d: Dirty, k: string)
    ensures SameAt(ViewRow(Changed(row, d)), ViewRow(Touched(row, d.attrs)), k) <==> !SilentAt(row, d, k)
  {
    hide Serialize, Touched, RowOf, ChangedKey, Writes;
    if !Writes(d.attrs) {
      NothingTouched(row, d.attrs);
    } else {
      TouchedAt(row + RowOf(d.silent), row, d.attrs, k);
      TouchedAt(row, row, d.attrs, k);
    }
  }

  /** What the listener cannot see of a row's update is exactly what is set silently. */
  lemma RowSilence(row: Fields, d: Dirty)
    ensures ViewRow(Changed(row, d)) == ViewRow(Touched(row, d.attrs)) <==> forall k :: !SilentAt(row, d, k)
  {
    hide ViewRow, Changed, Touched, SilentAt, SameAt;
    var (all, some) := (ViewRow(Changed(row, d)), ViewRow(Touched(row, d.attrs)));
    forall k ensures SameAt(all, some, k) <==> !SilentAt(row, d, k) {
      SilenceAt(row, d, k);
    }
    SameEverywhere(all, some);
  }

  ghost predicate SameAt(a: Fields, b: Fields, k: string) {
    (k in a <==> k in b) && (k in a ==> a[k] == b[k])
  }

  lemma SameEverywhere(a: Fields, b: Fields)
    ensures (forall k :: SameAt(a, b, k)) <==> a == b
  {
    if forall k :: SameAt(a, b, k) {
      forall k ensures k in a <==> k in b { assert SameAt(a, b, k); }
      forall k | k in a ensures a[k] == b[k] { assert SameAt(a, b, k); }
    }
  }

  /** The rows that are not changed stay, and no row comes or goes. */
  lemma {:induction false} OthersUnchanged(db: Database, dirty: seq<Dirty>, x: Ident)
    ensures Updated(db, dirty).Keys == db.Keys == Recorded(db, dirty).Keys
    ensures (forall i :: 0 <= i < |dirty| ==> dirty[i].ident != x) && x in db ==>
              Updated(db, dirty)[x] == db[x] == Recorded(db, dirty)[x]
  {
    hide Changed, Touched;
    if dirty != [] {
      OthersUnchanged(db, dirty[..|dirty| - 1], x);
    }
  }

  lemma {:induction false} ChangedOnce(db: Database, dirty: seq<Dirty>, i: nat)
    requires OncePerIdent(dirty) && i < |dirty| && dirty[i].ident in db
    ensures dirty[i].ident in Updated(db, dirty) && dirty[i].ident in Recorded(db, dirty)
    ensures Updated(db, dirty)[dirty[i].ident] == Changed(db[dirty[i].ident], dirty[i])
    ensures Recorded(db, dirty)[dirty[i].ident] == Touched(db[dirty[i].ident], dirty[i].attrs)
  {
    hide Changed, Touched;
    var init := dirty[..|dirty| - 1];
    OthersUnchanged(db, init, dirty[i].ident);
    if i < |init| {
      ChangedOnce(db, init, i);
    }
  }

  // ----- one flush -----

  lemma {:induction false} RecordedBesideInserted(db: Database, rows: Database, dirty: seq<Dirty>)
    requires forall d :: d in dirty ==> d.ident !in rows
    ensures Recorded(db + rows, dirty) == Recorded(db, dirty) + rows
  {
    hide Touched;
    if dirty != [] {
      var (init, d) := (dirty[..|dirty| - 1], dirty[|dirty| - 1]);
      assert dirty == init + [d];
      assert d in dirty && forall e :: e in init ==> e in dirty;
      RecordedBesideInserted(db, rows, init);
    }
  }

  /** The tables as the create and update entries of a flush describe them. */
  function Described(db: Database, f: UnitOfWork): Database {
    Recorded(db, f.dirty) + Inserted(map[], f.pending)
  }

  /** What replaying a flush's entries gives, in terms of the tables. */
  lemma ReplayOfFlush(db: Database, f: UnitOfWork)
    requires HeldOnce(f)
    ensures Replay(View(db), EntriesOf(f)) == View(Described(db, f) - Deleted(f.deleted))
  {
    hide View, Replay, Creates, Updates, Deletes, Created, Deleted;
    var (c, u, d) := (Creates(f.pending, f.actor), Updates(f.dirty, f.actor), Deletes(f.deleted, f.actor));
    ReplayConcat(View(db), c + u, d);
    ReplayConcat(View(db), c, u);
    CreatesReplay(db, f.pending, f.actor);
    UpdatesReplay(Inserted(db, f.pending), f.dirty, f.actor);
    DeletesReplay(Recorded(Inserted(db, f.pending), f.dirty), f.deleted, f.actor);
    hide Inserted, Recorded, Removed;
    DescribedIsSo(db, f);
    RemovedIsMinus(Described(db, f), f.deleted);
  }

  lemma DescribedIsSo(db: Database, f: UnitOfWork)
    requires HeldOnce(f)
    ensures Recorded(Inserted(db, f.pending), f.dirty) == Described(db, f)
  {
    hide Inserted, Recorded, Created, Deleted;
    InsertedIsMerge(db, f.pending);
    InsertedKeys(f.pending);
    RecordedBesideInserted(db, Inserted(map[], f.pending), f.dirty);
  }

  /** What its statements write, in the same terms. */
  lemma StatementsAre(db: Database, f: UnitOfWork)
    ensures Statements(db, f) == (Updated(db, f.dirty) - Deleted(f.deleted)) + Inserted(map[], f.pending)
    ensures Inserted(map[], f.pending).Keys == Created(f.pending)
    ensures Updated(db, f.dirty).Keys == Recorded(db, f.dirty).Keys == db.Keys
  {
    hide Updated, Recorded, Inserted, Removed, Created, Deleted;
    RemovedIsMinus(Updated(db, f.dirty), f.deleted);
    InsertedIsMerge(Updated(db, f.dirty) - Deleted(f.deleted), f.pending);
    InsertedKeys(f.pending);
    OthersUnchanged(db, f.dirty, Ident("", ""));
  }

  /** A row that the statements leave, and how the entries describe it. */
  lemma RowsAt(db: Database, f: UnitOfWork, x: Ident)
    requires HeldOnce(f)
    ensures x in Statements(db, f) <==> x in Created(f.pending) || (x in db && x !in Deleted(f.deleted))
    ensures x in Described(db, f) <==> x in db || x in Created(f.pending)
    ensures x in Statements(db, f) && (forall d :: d in f.dirty ==> d.ident != x) ==>
              Statements(db, f)[x] == Described(db, f)[x]
    ensures x in db && x !in Created(f.pending) && (forall d :: d in f.dirty ==> d.ident != x) ==>
              Described(db, f)[x] == db[x]
  {
    hide Updated, Recorded, Inserted, Statements, Created, Deleted;
    StatementsAre(db, f);
    OthersUnchanged(db, f.dirty, x);
  }

  lemma DirtyAt(db: Database, f: UnitOfWork, i: nat)
    requires HeldOnce(f) && i < |f.dirty| && f.dirty[i].ident in db
    ensures var (d, x) := (f.dirty[i], f.dirty[i].ident);
            && x !in Created(f.pending) && x !in Deleted(f.deleted)
            && x in Statements(db, f) && Statements(db, f)[x] == Changed(db[x], d)
            && x in Described(db, f) && Described(db, f)[x] == Touched(db[x], d.attrs)
  {
    hide Updated, Recorded, Inserted, Statements, Created, Deleted, Changed, Touched;
    assert f.dirty[i] in f.dirty;
    StatementsAre(db, f);
    ChangedOnce(db, f.dirty, i);
  }

  ghost predicate IsNone(row: Fields, k: string) {
    k in row && Serialize(row[k]) == NoneValue
  }

  /** A row with columns set to null reads as another one exactly if its other columns do and that one has None. */
  lemma NulledReads(keys: set<ForeignKey>, x: Ident, row: Fields, gone: set<Ident>, other: Fields)
    ensures ViewRow(NulledRow(keys, x, row, gone)) == ViewRow(other)
       <==> forall k :: k !in SENSITIVE_FIELDS ==>
              if Nulls(keys, x, row, gone, k) then IsNone(other, k) else SameAt(ViewRow(row), ViewRow(other), k)
  {
    hide ViewRow, NulledRow, Nulls, IsNone, SameAt;
    var (a, b) := (ViewRow(NulledRow(keys, x, row, gone)), ViewRow(other));
    forall k
      ensures SameAt(a, b, k)
         <==> k in SENSITIVE_FIELDS
              || if Nulls(keys, x, row, gone, k) then IsNone(other, k) else SameAt(ViewRow(row), ViewRow(other), k)
    {
      NulledReadsAt(keys, x, row, gone, other, k);
    }
    SameEverywhere(a, b);
  }

  lemma NulledReadsAt(keys: set<ForeignKey>, x: Ident, row: Fields, gone: set<Ident>, other: Fields, k: string)
    ensures SameAt(ViewRow(NulledRow(keys, x, row, gone)), ViewRow(other), k)
       <==> k in SENSITIVE_FIELDS
            || if Nulls(keys, x, row, gone, k) then IsNone(other, k) else SameAt(ViewRow(row), ViewRow(other), k)
  {
    hide Serialize, Nulls;
    NoneIsKept();
    assert Nulls(keys, x, row, gone, k) ==> k in row by { NulledIsThere(keys, x, row, gone, k); }
  }

  lemma NulledIsThere(keys: set<ForeignKey>, x: Ident, row: Fields, gone: set<Ident>, k: string)
    ensures Nulls(keys, x, row, gone, k) ==> k in row
  {
  }

  /** No audited row that is deleted and created again in the flush is there after it. */
  ghost predicate NoRowSwitch(db: Database, f: UnitOfWork) {
    forall x :: Switched(f, x) && !Skips(x.table) ==> x in Gone(db, f)
  }

  /** No UPDATE of an audited row sets a column silently, unless the database then sets that column to null. */
  ghost predicate NothingSilent(db: Database, f: UnitOfWork) {
    forall i :: 0 <= i < |f.dirty| && !Skips(f.dirty[i].ident.table) && f.dirty[i].ident in db ==>
      RowNotSilent(db, f, i)
  }

  ghost predicate RowNotSilent(db: Database, f: UnitOfWork, i: nat)
    requires i < |f.dirty| && f.dirty[i].ident in db
  {
    forall k :: !StaysSilent(db, f, i, k)
  }

  ghost predicate StaysSilent(db: Database, f: UnitOfWork, i: nat, k: string)
    requires i < |f.dirty| && f.dirty[i].ident in db
  {
    SilentAt(db[f.dirty[i].ident], f.dirty[i], k) && !NulledAt(db, f, f.dirty[i].ident, k)
  }

  /**
   * No audited row that the flush does not delete itself goes with a row it deletes, and no non-sensitive
   * column of one is set to null by the database where the entries leave another value.
   */
  ghost predicate NothingFollows(db: Database, f: UnitOfWork) {
    forall x :: x in Statements(db, f) && !Skips(x.table) && !Switched(f, x) ==>
      x !in Gone(db, f) && NullsShown(db, f, x)
  }

  ghost predicate NullsShown(db: Database, f: UnitOfWork, x: Ident) {
    forall k :: NulledAt(db, f, x, k) && k !in SENSITIVE_FIELDS ==> DescribedNone(db, f, x, k)
  }

  ghost predicate DescribedNone(db: Database, f: UnitOfWork, x: Ident, k: string) {
    x in Described(db, f) && IsNone(Described(db, f)[x], k)
  }

  /** Everything the flush did shows in its entries. */
  ghost predicate AllShown(db: Database, f: UnitOfWork) {
    NoRowSwitch(db, f) && NothingSilent(db, f) && NothingFollows(db, f)
  }

  ghost predicate AgreeAt(a: Database, b: Database, x: Ident) {
    (x in a <==> x in b) && (x in a ==> a[x] == b[x])
  }

  lemma AgreeEverywhere(a: Database, b: Database)
    ensures (forall x :: AgreeAt(a, b, x)) <==> a == b
  {
    if forall x :: AgreeAt(a, b, x) {
      forall x ensures x in a <==> x in b { assert AgreeAt(a, b, x); }
      forall x | x in a ensures a[x] == b[x] { assert AgreeAt(a, b, x); }
    }
  }

  /** The conditions for one row. */
  ghost predicate ShownAt(db: Database, f: UnitOfWork, x: Ident) {
    if Switched(f, x) then x in Gone(db, f)
    else x in Statements(db, f) ==> x !in Gone(db, f) && NullsShown(db, f, x) && SilentShown(db, f, x)
  }

  ghost predicate SilentShown(db: Database, f: UnitOfWork, x: Ident) {
    forall i :: 0 <= i < |f.dirty| && f.dirty[i].ident == x && x in db ==> RowNotSilent(db, f, i)
  }

  lemma RowShown(db: Database, f: UnitOfWork, x: Ident)
    requires HeldOnce(f) && x in Statements(db, f) && !Switched(f, x)
    ensures x in Described(db, f)
    ensures ViewRow(NulledRow(f.keys, x, Statements(db, f)[x], Gone(db, f))) == ViewRow(Described(db, f)[x])
       <==> NullsShown(db, f, x) && SilentShown(db, f, x)
  {
    hide Statements, Gone, Described, ViewRow, NulledRow, Nulls, IsNone, SilentAt, Created, Deleted;
    RowsAt(db, f, x);
    var (row, other) := (Statements(db, f)[x], Described(db, f)[x]);
    NulledReads(f.keys, x, row, Gone(db, f), other);
    if i: nat :| i < |f.dirty| && f.dirty[i].ident == x && x in db {
      DirtySilence(db, f, i);
      hide SameAt, HeldOnce, SilentShown;
      forall k | k !in SENSITIVE_FIELDS
        ensures (if Nulls(f.keys, x, row, Gone(db, f), k) then IsNone(other, k)
                 else SameAt(ViewRow(row), ViewRow(other), k))
           <==> (NulledAt(db, f, x, k) ==> IsNone(other, k)) && !StaysSilent(db, f, i, k)
      {
      }
      NoSilentSensitive(db, f, i);
    } else {
      assert forall d :: d in f.dirty ==> d.ident != x;
      assert row == other;
    }
  }

  lemma NoSilentSensitive(db: Database, f: UnitOfWork, i: nat)
    requires i < |f.dirty| && f.dirty[i].ident in db
    ensures RowNotSilent(db, f, i) <==> forall k :: k !in SENSITIVE_FIELDS ==> !StaysSilent(db, f, i, k)
  {
    hide NulledAt, RowOf, ChangedKey, Serialize, Writes;
  }

  lemma DirtySilence(db: Database, f: UnitOfWork, i: nat)
    requires HeldOnce(f) && i < |f.dirty| && f.dirty[i].ident in db
    ensures var x := f.dirty[i].ident;
            && x in Statements(db, f) && x in Described(db, f)
            && (forall k ::
                  SameAt(ViewRow(Statements(db, f)[x]), ViewRow(Described(db, f)[x]), k)
                  <==> !SilentAt(db[x], f.dirty[i], k))
            && (SilentShown(db, f, x) <==> RowNotSilent(db, f, i))
  {
    hide Statements, Gone, Described, ViewRow, SilentAt, SameAt, Changed, Touched, Created, Deleted, RowNotSilent;
    DirtyAt(db, f, i);
    forall k
      ensures SameAt(ViewRow(Statements(db, f)[f.dirty[i].ident]), ViewRow(Described(db, f)[f.dirty[i].ident]), k)
         <==> !SilentAt(db[f.dirty[i].ident], f.dirty[i], k)
    {
      SilenceAt(db[f.dirty[i].ident], f.dirty[i], k);
    }
    forall j | 0 <= j < |f.dirty| && f.dirty[j].ident == f.dirty[i].ident ensures j == i {
      assert OncePerIdent(f.dirty);
    }
  }

  /** Replaying the entries is right about a row exactly under these conditions. */
  lemma FlushAt(db: Database, f: UnitOfWork, x: Ident)
    requires HeldOnce(f)
    ensures AgreeAt(Replay(View(db), EntriesOf(f)), View(DatabaseAfter(db, f)), x)
       <==> Skips(x.table) || ShownAt(db, f, x)
  {
    hide Statements, Gone, Described, ViewRow, Replay, EntriesOf, NullsShown, SilentShown, DatabaseAfter, Skips,
         NulledRow;
    ReplayOfFlush(db, f);
    AfterAt(db, f, x);
    RowsAt(db, f, x);
    hide HeldOnce, Created, Deleted;
    ViewsAt(Described(db, f) - Deleted(f.deleted), x);
    ViewsAt(DatabaseAfter(db, f), x);
    hide View;
    if !Skips(x.table) && x in Statements(db, f) && !Switched(f, x) {
      RowShown(db, f, x);
    }
  }

  lemma ViewsAt(db: Database, x: Ident)
    ensures x in View(db) <==> x in db && !Skips(x.table)
    ensures x in View(db) ==> View(db)[x] == ViewRow(db[x])
  {
  }

  lemma ShownEverywhere(db: Database, f: UnitOfWork)
    requires HeldOnce(f)
    ensures AllShown(db, f) <==> forall x: Ident :: Skips(x.table) || ShownAt(db, f, x)
  {
    hide Statements, Gone, Skips, NullsShown, RowNotSilent, Created, Deleted;
    forall i | 0 <= i < |f.dirty| && f.dirty[i].ident in db
      ensures f.dirty[i].ident in Statements(db, f) && !Switched(f, f.dirty[i].ident)
    {
      DirtyAt(db, f, i);
    }
    if forall x: Ident :: Skips(x.table) || ShownAt(db, f, x) {
      forall x | Switched(f, x) && !Skips(x.table) ensures x in Gone(db, f) {
        assert ShownAt(db, f, x);
      }
      forall i | 0 <= i < |f.dirty| && !Skips(f.dirty[i].ident.table) && f.dirty[i].ident in db
        ensures RowNotSilent(db, f, i)
      {
        assert ShownAt(db, f, f.dirty[i].ident);
      }
      forall x | x in Statements(db, f) && !Skips(x.table) && !Switched(f, x)
        ensures x !in Gone(db, f) && NullsShown(db, f, x)
      {
        assert ShownAt(db, f, x);
      }
    }
  }

  /**
   * Replaying the entries of a flush rebuilds the audited columns exactly when no audited row is deleted and
   * created again in it, no UPDATE of an audited row sets a non-sensitive column silently, and no foreign key
   * of a deleted row takes away an audited row or sets a non-sensitive column of one to null.
   */
  lemma FlushReplays(db: Database, f: UnitOfWork)
    requires HeldOnce(f)
    ensures Replay(View(db), EntriesOf(f)) == View(DatabaseAfter(db, f)) <==> AllShown(db, f)
  {
    hide View, Replay, EntriesOf, DatabaseAfter, HeldOnce, AllShown, ShownAt, Skips, AgreeAt;
    var (replayed, written) := (Replay(View(db), EntriesOf(f)), View(DatabaseAfter(db, f)));
    forall x: Ident ensures AgreeAt(replayed, written, x) <==> Skips(x.table) || ShownAt(db, f, x) {
      FlushAt(db, f, x);
    }
    AgreeEverywhere(replayed, written);
    ShownEverywhere(db, f);
  }

  /** An input: an `onupdate` timestamp moves with every update, and no entry says so. */
  lemma TimestampIsLost(db: Database, x: Ident, earlier: string, later: string, actor: Option<Actor>)
    requires !Skips(x.table) && earlier != later
    requires db == map[x := map["name" := Str("a"), "updated_at" := Str(earlier)]]
    ensures var d := Dirty(x, [Attr("name", Some(Str("a")), Str("b"), true)], [Column("updated_at", Str(later))]);
            var f := UnitOfWork([], [d], [], {}, actor);
            && HeldOnce(f) && NoRowSwitch(db, f) && NothingFollows(db, f)
            && Replay(View(db), EntriesOf(f)) != View(DatabaseAfter(db, f))
  {
    hide Replay, EntriesOf, DatabaseAfter, View, Serialize, Statements;
    var attrs := [Attr("name", Some(Str("a")), Str("b"), true)];
    var d := Dirty(x, attrs, [Column("updated_at", Str(later))]);
    var f := UnitOfWork([], [d], [], {}, actor);
    assert attrs[0].changed;
    assert [Column("updated_at", Str(later))][..0] == [];
    PlainText(earlier, later);
    assert SilentAt(db[x], d, "updated_at");
    assert f.dirty[0] == d;
    NoKeysNothingFollows(db, f);
    assert !NulledAt(db, f, x, "updated_at");
    assert StaysSilent(db, f, 0, "updated_at");
    FlushReplays(db, f);
  }

  lemma PlainText(a: string, b: string)
    ensures Serialize(Str(a)) == Str(a) && Serialize(Str(b)) == Str(b)
  {
  }

  lemma NoKeysNothingFollows(db: Database, f: UnitOfWork)
    requires f.keys == {} && HeldOnce(f) && f.pending == []
    ensures NothingFollows(db, f) && NoRowSwitch(db, f)
  {
    hide Statements;
    ClosureIsLeast(f.keys, Statements(db, f), db.Keys - Statements(db, f).Keys, db.Keys - Statements(db, f).Keys);
  }

  const SHARES_KEY := ForeignKey("document_shares", "document_id", "documents", Cascade)
  const SCHEDULES_KEY := ForeignKey("report_schedules", "last_generated_document_id", "documents", SetNull)

  /**
   * An input: deleting a document takes its share with it and sets the column of the schedule that made it to
   * null. The only entry is about the document.
   */
  lemma SharesAreLost(u: Text.Uuid, share: string, schedule: string, columns: seq<Column>, actor: Option<Actor>)
    ensures var (doc, s, r) := (Ident("documents", Text.UuidText(u)), Ident("document_shares", share),
                                Ident("report_schedules", schedule));
            var rows: Database := map[s := map["document_id" := UuidValue(u)],
                                      r := map["last_generated_document_id" := UuidValue(u)]];
            var db := rows[doc := RowOf(columns)];
            var f := UnitOfWork([], [], [Instance(doc, columns)], {SHARES_KEY, SCHEDULES_KEY}, actor);
            && HeldOnce(f) && NoRowSwitch(db, f) && NothingSilent(db, f)
            && DatabaseAfter(db, f) == map[r := map["last_generated_document_id" := NoneValue]]
            && Replay(View(db), EntriesOf(f)) == View(rows)
            && s in View(rows) && r in View(rows)
            && View(rows)[r] == map["last_generated_document_id" := Str(doc.id)]
  {
    hide Text.UuidText, RowOf, Replay, EntriesOf, Closure, NulledRow, Statements, HeldOnce, NoRowSwitch, NothingSilent,
         Enforced, View;
    var (doc, s, r) :=
      (Ident("documents", Text.UuidText(u)), Ident("document_shares", share), Ident("report_schedules", schedule));
    var rows: Database := map[s := map["document_id" := UuidValue(u)],
                              r := map["last_generated_document_id" := UuidValue(u)]];
    var db := rows[doc := RowOf(columns)];
    var f := UnitOfWork([], [], [Instance(doc, columns)], {SHARES_KEY, SCHEDULES_KEY}, actor);
    OneDeleted(db, f, Instance(doc, columns));
    assert db - {doc} == rows;
    assert db.Keys - rows.Keys == {doc};
    ShareFollows(rows, doc, s, r, u);
    OnlyOneLeft(f.keys, db, rows, s, r);
    ViewsOfRows(rows, s, r, u);
  }

  lemma OnlyOneLeft(keys: set<ForeignKey>, before: Database, after: Database, first: Ident, second: Ident)
    requires first != second && after.Keys == {first, second}
    requires var gone := Closure(keys, after, before.Keys - after.Keys); first in gone && second !in gone
    ensures Enforced(keys, before, after)
         == map[second := NulledRow(keys, second, after[second], Closure(keys, after, before.Keys - after.Keys))]
  {
    hide NulledRow, Closure;
    assert Enforced(keys, before, after).Keys == {second};
  }

  lemma ViewsOfRows(rows: Database, s: Ident, r: Ident, u: Text.Uuid)
    requires s.table == "document_shares" && r.table == "report_schedules"
    requires rows == map[s := map["document_id" := UuidValue(u)],
                         r := map["last_generated_document_id" := UuidValue(u)]]
    ensures s in View(rows) && r in View(rows)
    ensures View(rows)[r] == map["last_generated_document_id" := Str(Text.UuidText(u))]
  {
    hide Text.UuidText;
  }

  lemma OneDeleted(db: Database, f: UnitOfWork, x: Instance)
    requires f.pending == [] && f.dirty == [] && f.deleted == [x]
    ensures HeldOnce(f) && NoRowSwitch(db, f) && NothingSilent(db, f)
    ensures Statements(db, f) == db - {x.ident}
    ensures Replay(View(db), EntriesOf(f)) == View(db - {x.ident})
  {
    hide View, Replay, EntriesOf;
    assert [x][..0] == [] && Deleted(f.deleted) == {x.ident};
    StatementsAre(db, f);
    ReplayOfFlush(db, f);
    assert Updated(db, []) == db && Recorded(db, []) == db && Inserted(map[], []) == map[];
    assert (db - {x.ident}) + map[] == db - {x.ident} && Described(db, f) == db + map[] == db;
  }

  lemma ShareFollows(rows: Database, doc: Ident, s: Ident, r: Ident, u: Text.Uuid)
    requires doc == Ident("documents", Text.UuidText(u))
    requires s.table == "document_shares" && r.table == "report_schedules"
    requires rows == map[s := map["document_id" := UuidValue(u)],
                         r := map["last_generated_document_id" := UuidValue(u)]]
    ensures Closure({SHARES_KEY, SCHEDULES_KEY}, rows, {doc}) == {doc, s}
    ensures NulledRow({SHARES_KEY, SCHEDULES_KEY}, r, rows[r], {doc, s})
         == map["last_generated_document_id" := NoneValue]
  {
    var keys := {SHARES_KEY, SCHEDULES_KEY};
    ShareFollowsIn({doc}, doc, s, r, u);
    ShareFollowsIn({doc, s}, doc, s, r, u);
    hide Follows, Nulls;
    OneFollows(keys, rows, doc, s, r);
    OneNulled(keys, r, rows[r], {doc, s}, "last_generated_document_id", UuidValue(u));
  }

  lemma OneNulled(keys: set<ForeignKey>, x: Ident, row: Fields, gone: set<Ident>, k: string, v: Py)
    requires row == map[k := v] && Nulls(keys, x, row, gone, k)
    ensures NulledRow(keys, x, row, gone) == map[k := NoneValue]
  {
    var nulled := NulledRow(keys, x, row, gone);
    assert nulled.Keys == {k} && nulled[k] == NoneValue;
  }

  /** Of two rows left, the first goes with the one that is gone, and the second with neither. */
  lemma OneFollows(keys: set<ForeignKey>, rows: Database, gone: Ident, first: Ident, second: Ident)
    requires rows.Keys == {first, second} && gone !in rows && first != second
    requires Follows(keys, first, rows[first], {gone}) && !Follows(keys, second, rows[second], {gone})
    requires !Follows(keys, second, rows[second], {gone, first})
    ensures Closure(keys, rows, {gone}) == {gone, first}
  {
    hide Follows, Closure;
    ClosureStep(keys, rows, {gone}, {first});
    assert {gone} + {first} == {gone, first};
    ClosureStep(keys, rows, {gone, first}, {});
  }

  lemma ClosureStep(keys: set<ForeignKey>, db: Database, gone: set<Ident>, more: set<Ident>)
    requires forall x :: x in more <==> x in db && x !in gone && Follows(keys, x, db[x], gone)
    ensures Closure(keys, db, gone) == if more == {} then gone else Closure(keys, db, gone + more)
  {
    hide Follows;
    assert more == set x | x in db && x !in gone && Follows(keys, x, db[x], gone);
  }

  lemma ShareFollowsIn(gone: set<Ident>, doc: Ident, s: Ident, r: Ident, u: Text.Uuid)
    requires doc == Ident("documents", Text.UuidText(u)) && doc in gone
    requires s.table == "document_shares" && r.table == "report_schedules"
    ensures Follows({SHARES_KEY, SCHEDULES_KEY}, s, map["document_id" := UuidValue(u)], gone)
    ensures !Follows({SHARES_KEY, SCHEDULES_KEY}, r, map["last_generated_document_id" := UuidValue(u)], gone)
    ensures Nulls({SHARES_KEY, SCHEDULES_KEY}, r, map["last_generated_document_id" := UuidValue(u)], gone,
                  "last_generated_document_id")
  {
    hide Text.UuidText;
    var uuid := UuidValue(u);
    assert Serialize(uuid) == Str(doc.id);
    assert Refers(SHARES_KEY, s, map["document_id" := uuid], doc);
    assert Refers(SCHEDULES_KEY, r, map["last_generated_document_id" := uuid], doc);
  }

  /** An audited row that the statements leave refers to one that they take away. */
  ghost predicate DirectReference(db: Database, f: UnitOfWork, x: Ident, key: ForeignKey, y: Ident) {
    && x in Statements(db, f) && !Skips(x.table) && key in f.keys && y in db.Keys - Statements(db, f).Keys
    && Refers(key, x, Statements(db, f)[x], y)
  }

  lemma RefersTarget(key: ForeignKey, x: Ident, row: Fields, y: Ident)
    requires Refers(key, x, row, y)
    ensures y.table == key.target
  {
  }

  lemma OnlySkippedFollow(db: Database, f: UnitOfWork)
    requires forall key :: key in f.keys ==> !Skips(key.target)
    requires forall x, key, y :: DirectReference(db, f, x, key, y) ==> key.onDelete.SetNull?
    ensures forall x :: x in Gone(db, f) && !Skips(x.table) ==> x in db.Keys - Statements(db, f).Keys
  {
    hide Statements, Skips, Refers, Closure;
    var (w, removed) := (Statements(db, f), db.Keys - Statements(db, f).Keys);
    var closed := removed + set x | x in w && Skips(x.table);
    forall x | x in w && Follows(f.keys, x, w[x], closed) ensures x in closed {
      var key, y :| key in f.keys && y in closed && key.onDelete.Cascade? && Refers(key, x, w[x], y);
      RefersTarget(key, x, w[x], y);
      assert y in removed;
      assert !DirectReference(db, f, x, key, y);
    }
    ClosureIsLeast(f.keys, w, removed, closed);
  }

  lemma ReferenceFollows(db: Database, f: UnitOfWork, x: Ident, key: ForeignKey, y: Ident)
    requires DirectReference(db, f, x, key, y)
    ensures key.onDelete.Cascade? ==> x in Gone(db, f)
    ensures key.onDelete.SetNull? ==> NulledAt(db, f, x, key.column)
  {
    hide Statements, Refers, Closure;
    var (w, removed) := (Statements(db, f), db.Keys - Statements(db, f).Keys);
    ClosureIsClosed(f.keys, w, removed);
    assert y in Gone(db, f);
  }

  /**
   * Where every key leads to an audited table and no audited row is switched, it is enough to look at direct
   * references: nothing follows unseen exactly if each reference of an audited row to a row that is gone is a
   * SET NULL on a column that is sensitive, or that the entries leave None.
   */
  lemma DirectReferencesDecide(db: Database, f: UnitOfWork)
    requires HeldOnce(f) && forall key :: key in f.keys ==> !Skips(key.target)
    requires forall x :: Switched(f, x) ==> Skips(x.table)
    ensures NothingFollows(db, f)
       <==> forall x, key, y :: DirectReference(db, f, x, key, y) ==>
              key.onDelete.SetNull? && (key.column in SENSITIVE_FIELDS || DescribedNone(db, f, x, key.column))
  {
    hide Statements, Gone, Described, Skips, HeldOnce, Switched, IsNone, Refers;
    var removed := db.Keys - Statements(db, f).Keys;
    if forall x, key, y :: DirectReference(db, f, x, key, y) ==>
         key.onDelete.SetNull? && (key.column in SENSITIVE_FIELDS || DescribedNone(db, f, x, key.column)) {
      OnlySkippedFollow(db, f);
      forall x | x in Statements(db, f) && !Skips(x.table) && !Switched(f, x)
        ensures x !in Gone(db, f) && NullsShown(db, f, x)
      {
        forall k | NulledAt(db, f, x, k) && k !in SENSITIVE_FIELDS ensures DescribedNone(db, f, x, k) {
          var key, y :| key in f.keys && y in Gone(db, f) && key.onDelete.SetNull? && key.column == k
                        && Refers(key, x, Statements(db, f)[x], y);
          RefersTarget(key, x, Statements(db, f)[x], y);
          assert DirectReference(db, f, x, key, y);
        }
      }
    }
    if NothingFollows(db, f) {
      forall x, key, y | DirectReference(db, f, x, key, y)
        ensures key.onDelete.SetNull? && (key.column in SENSITIVE_FIELDS || DescribedNone(db, f, x, key.column))
      {
        ReferenceFollows(db, f, x, key, y);
      }
    }
  }

  // ----- any number of flushes -----

  function DatabaseAfterAll(db: Database, flushes: seq<UnitOfWork>): Database {
    if flushes == [] then db else DatabaseAfter(DatabaseAfterAll(db, flushes[..|flushes| - 1]), flushes[|flushes| - 1])
  }

  function LogOf(flushes: seq<UnitOfWork>): seq<AuditEntry> {
    if flushes == [] then [] else LogOf(flushes[..|flushes| - 1]) + EntriesOf(flushes[|flushes| - 1])
  }

  /** Everything that any flush of the sequence did shows in its entries. */
  ghost predicate AlwaysShown(db: Database, flushes: seq<UnitOfWork>) {
    flushes == []
    || (var init := flushes[..|flushes| - 1];
        AlwaysShown(db, init) && AllShown(DatabaseAfterAll(db, init), flushes[|flushes| - 1]))
  }

  /** Over any sequence of such flushes the log rebuilds every audited entity. */
  lemma {:induction false} LogReplays(db: Database, flushes: seq<UnitOfWork>)
    requires (forall f :: f in flushes ==> HeldOnce(f)) && AlwaysShown(db, flushes)
    ensures Replay(View(db), LogOf(flushes)) == View(DatabaseAfterAll(db, flushes))
  {
    hide View, EntriesOf, DatabaseAfter, HeldOnce, AllShown;
    if flushes == [] {
      assert LogOf(flushes) == [];
    } else {
      hide Replay;
      var (init, f) := (flushes[..|flushes| - 1], flushes[|flushes| - 1]);
      assert flushes == init + [f] && f in flushes && forall g :: g in init ==> g in flushes;
      LogReplays(db, init);
      ReplayConcat(View(db), LogOf(init), EntriesOf(f));
      FlushReplays(DatabaseAfterAll(db, init), f);
    }
  }

  // ----- all other rows and columns -----

  /** A view without some columns of each row, and without some rows. */
  function Masked(view: Database, names: Ident -> set<string>, lost: set<Ident>): Database {
    map x | x in view && x !in lost :: view[x] - names(x)
  }

  function MaskedFields(fields: Option<Fields>, names: set<string>): Option<Fields> {
    match fields
    case None => None
    case Some(m) => Some(m - names)
  }

  function MaskedEntry(e: AuditEntry, names: Ident -> set<string>): AuditEntry {
    e.(before := MaskedFields(e.before, names(e.ident)), after := MaskedFields(e.after, names(e.ident)))
  }

  lemma MinusOfUnion(a: Fields, b: Fields, names: set<string>)
    ensures (a + b) - names == (a - names) + (b - names)
  {
  }

  lemma RedoMasked(view: Database, e: AuditEntry, names: Ident -> set<string>, lost: set<Ident>)
    ensures Masked(Redo(view, e), names, lost)
         == if e.ident in lost then Masked(view, names, lost)
            else Redo(Masked(view, names, lost), MaskedEntry(e, names))
  {
    match e.action
    case Create =>
    case Update =>
      if e.ident in view && e.after.Some? {
        MinusOfUnion(view[e.ident], e.after.value, names(e.ident));
      }
    case Delete =>
    case Other(_) =>
  }

  lemma {:induction false} SameMaskReplays(
    a: Database, b: Database, entries: seq<AuditEntry>, names: Ident -> set<string>, lost: set<Ident>)
    requires Masked(a, names, lost) == Masked(b, names, lost)
    ensures Masked(Replay(a, entries), names, lost) == Masked(Replay(b, entries), names, lost)
  {
    hide Redo, Masked, MaskedEntry;
    if entries != [] {
      var (init, e) := (entries[..|entries| - 1], entries[|entries| - 1]);
      SameMaskReplays(a, b, init, names, lost);
      RedoMasked(Replay(a, init), e, names, lost);
      RedoMasked(Replay(b, init), e, names, lost);
    }
  }

  /** Every column that the database sets on its own in the flush, by the UPDATE itself or by a foreign key. */
  ghost predicate SetAmong(db: Database, f: UnitOfWork, names: Ident -> set<string>) {
    && (forall d :: d in f.dirty ==> RowOf(d.silent).Keys <= names(d.ident))
    && (forall x, k :: NulledAt(db, f, x, k) ==> k in names(x))
  }

  /** Every row that the database takes away on its own, or that is deleted and created again. */
  ghost predicate LostAmong(db: Database, f: UnitOfWork, lost: set<Ident>) {
    forall x :: (x in Statements(db, f) && x in Gone(db, f)) || Switched(f, x) ==> x in lost
  }

  ghost predicate AlwaysAmong(db: Database, flushes: seq<UnitOfWork>, names: Ident -> set<string>, lost: set<Ident>) {
    flushes == []
    || (var (init, f) := (flushes[..|flushes| - 1], flushes[|flushes| - 1]);
        && AlwaysAmong(db, init, names, lost)
        && SetAmong(DatabaseAfterAll(db, init), f, names) && LostAmong(DatabaseAfterAll(db, init), f, lost))
  }

  lemma {:induction false} TouchedMasked(a: Fields, b: Fields, attrs: seq<Attr>, names: set<string>)
    requires a - names == b - names
    ensures Touched(a, attrs) - names == Touched(b, attrs) - names
  {
    if attrs != [] {
      var (init, last) := (attrs[..|attrs| - 1], attrs[|attrs| - 1]);
      TouchedMasked(a, b, init, names);
      SetMasked(Touched(a, init), Touched(b, init), last.key, last.current, names);
    }
  }

  lemma SetMasked(a: Fields, b: Fields, key: string, value: Py, names: set<string>)
    requires a - names == b - names
    ensures a[key := value] - names == b[key := value] - names
  {
    var (x, y) := (a[key := value] - names, b[key := value] - names);
    forall k ensures k in x <==> k in y {
      assert k in a - names <==> k in b - names;
    }
    forall k | k in x ensures x[k] == y[k] {
      assert k != key ==> k in a - names && (a - names)[k] == (b - names)[k];
    }
  }

  lemma ChangedMasked(row: Fields, d: Dirty, names: set<string>)
    requires RowOf(d.silent).Keys <= names
    ensures Changed(row, d) - names == Touched(row, d.attrs) - names
  {
    hide RowOf, Touched;
    if Writes(d.attrs) {
      assert (row + RowOf(d.silent)) - names == row - names;
      TouchedMasked(row + RowOf(d.silent), row, d.attrs, names);
    } else {
      NothingTouched(row, d.attrs);
    }
  }

  lemma ViewRowMasked(a: Fields, b: Fields, names: set<string>)
    requires a - names == b - names
    ensures ViewRow(a) - names == ViewRow(b) - names
  {
    hide Serialize;
    var (x, y) := (ViewRow(a) - names, ViewRow(b) - names);
    forall k ensures (k in x <==> k in y) && (k in x ==> x[k] == y[k]) {
      assert k in a - names <==> k in b - names;
      assert k in a - names ==> (a - names)[k] == (b - names)[k];
    }
  }

  lemma NulledMasked(keys: set<ForeignKey>, x: Ident, row: Fields, gone: set<Ident>, names: set<string>)
    requires forall k :: Nulls(keys, x, row, gone, k) ==> k in names
    ensures NulledRow(keys, x, row, gone) - names == row - names
  {
    hide Nulls;
  }

  lemma RowMasked(db: Database, f: UnitOfWork, names: Ident -> set<string>, x: Ident)
    requires HeldOnce(f) && SetAmong(db, f, names) && x in Statements(db, f)
    ensures x in Described(db, f)
    ensures ViewRow(NulledRow(f.keys, x, Statements(db, f)[x], Gone(db, f))) - names(x)
         == ViewRow(Described(db, f)[x]) - names(x)
  {
    hide Statements, Gone, Described, ViewRow, NulledRow, Nulls, Changed, Touched, RowOf, Created, Deleted;
    RowsAt(db, f, x);
    var (row, other) := (Statements(db, f)[x], Described(db, f)[x]);
    if i: nat :| i < |f.dirty| && f.dirty[i].ident == x && x in db {
      DirtyAt(db, f, i);
      assert f.dirty[i] in f.dirty;
      ChangedMasked(db[x], f.dirty[i], names(x));
    } else {
      assert forall d :: d in f.dirty ==> d.ident != x;
    }
    forall k | Nulls(f.keys, x, row, Gone(db, f), k) ensures k in names(x) {
      assert NulledAt(db, f, x, k);
    }
    NulledMasked(f.keys, x, row, Gone(db, f), names(x));
    ViewRowMasked(NulledRow(f.keys, x, row, Gone(db, f)), other, names(x));
  }

  lemma FlushMasked(db: Database, f: UnitOfWork, names: Ident -> set<string>, lost: set<Ident>)
    requires HeldOnce(f) && SetAmong(db, f, names) && LostAmong(db, f, lost)
    ensures Masked(Replay(View(db), EntriesOf(f)), names, lost) == Masked(View(DatabaseAfter(db, f)), names, lost)
  {
    hide View, Replay, EntriesOf, DatabaseAfter, Masked;
    var (replayed, written) := (Replay(View(db), EntriesOf(f)), View(DatabaseAfter(db, f)));
    forall x | x !in lost ensures MaskedAlike(replayed, written, names, x) {
      FlushMaskedAt(db, f, names, lost, x);
    }
    MaskedEverywhere(replayed, written, names, lost);
  }

  ghost predicate MaskedAlike(a: Database, b: Database, names: Ident -> set<string>, x: Ident) {
    (x in a <==> x in b) && (x in a ==> a[x] - names(x) == b[x] - names(x))
  }

  lemma MaskedEverywhere(a: Database, b: Database, names: Ident -> set<string>, lost: set<Ident>)
    requires forall x :: x !in lost ==> MaskedAlike(a, b, names, x)
    ensures Masked(a, names, lost) == Masked(b, names, lost)
  {
    forall x | x !in lost ensures x in a <==> x in b { assert MaskedAlike(a, b, names, x); }
    forall x | x !in lost && x in a ensures a[x] - names(x) == b[x] - names(x) { assert MaskedAlike(a, b, names, x); }
  }

  lemma FlushMaskedAt(db: Database, f: UnitOfWork, names: Ident -> set<string>, lost: set<Ident>, x: Ident)
    requires HeldOnce(f) && SetAmong(db, f, names) && LostAmong(db, f, lost) && x !in lost
    ensures MaskedAlike(Replay(View(db), EntriesOf(f)), View(DatabaseAfter(db, f)), names, x)
  {
    hide Statements, Gone, Described, ViewRow, Replay, EntriesOf, DatabaseAfter, Skips, NulledRow, SetAmong;
    ReplayOfFlush(db, f);
    AfterAt(db, f, x);
    RowsAt(db, f, x);
    hide HeldOnce, Created, Deleted;
    ViewsAt(Described(db, f) - Deleted(f.deleted), x);
    ViewsAt(DatabaseAfter(db, f), x);
    hide View;
    if x in Statements(db, f) {
      RowMasked(db, f, names, x);
    }
  }

  /**
   * Whatever the database does on its own, and whichever rows are switched, the log rebuilds all other audited
   * columns of all other audited rows over any sequence of flushes.
   */
  lemma {:induction false} OtherColumnsReplay(
    db: Database, flushes: seq<UnitOfWork>, names: Ident -> set<string>, lost: set<Ident>)
    requires (forall f :: f in flushes ==> HeldOnce(f)) && AlwaysAmong(db, flushes, names, lost)
    ensures Masked(Replay(View(db), LogOf(flushes)), names, lost)
         == Masked(View(DatabaseAfterAll(db, flushes)), names, lost)
  {
    hide View, EntriesOf, DatabaseAfter, HeldOnce, SetAmong, LostAmong, Masked;
    if flushes == [] {
      assert LogOf(flushes) == [];
    } else {
      hide Replay;
      var (init, f) := (flushes[..|flushes| - 1], flushes[|flushes| - 1]);
      assert flushes == init + [f] && f in flushes && forall g :: g in init ==> g in flushes;
      OtherColumnsReplay(db, init, names, lost);
      ReplayConcat(View(db), LogOf(init), EntriesOf(f));
      SameMaskReplays(Replay(View(db), LogOf(init)), View(DatabaseAfterAll(db, init)), EntriesOf(f), names, lost);
      FlushMasked(DatabaseAfterAll(db, init), f, names, lost);
    }
  }

  // ----- reading the log backwards -----

  /** One entry read backwards. */
  function Undo(view: Database, e: AuditEntry): Database {
    match e.action
    case Create => view - {e.ident}
    case Update =>
      if e.before.Some? && e.ident in view then view[e.ident := view[e.ident] + e.before.value] else view
    case Delete => if e.before.Some? then view[e.ident := e.before.value] else view
    case Other(_) => view
  }

  function Rewind(view: Database, entries: seq<AuditEntry>): Database
    decreases |entries|
  {
    if entries == [] then view else Rewind(Undo(view, entries[|entries| - 1]), entries[..|entries| - 1])
  }

  /** The entry tells the truth about what it replaces. */
  ghost predicate Fits(view: Database, e: AuditEntry) {
    match e.action
    case Create => e.ident !in view
    case Update =>
      && e.before.Some? && e.after.Some? && e.ident in view
      && e.before.value.Keys == e.after.value.Keys <= view[e.ident].Keys
      && forall k :: k in e.before.value ==> e.before.value[k] == view[e.ident][k]
    case Delete => e.ident in view && e.before == Some(view[e.ident])
    case Other(_) => true
  }

  lemma UndoRedo(view: Database, e: AuditEntry)
    requires Fits(view, e)
    ensures Undo(Redo(view, e), e) == view
  {
    if e.action.Update? {
      assert (view[e.ident] + e.after.value) + e.before.value == view[e.ident];
    }
  }

  ghost predicate FitsAll(view: Database, entries: seq<AuditEntry>) {
    entries == []
    || (FitsAll(view, entries[..|entries| - 1]) && Fits(Replay(view, entries[..|entries| - 1]), entries[|entries| - 1]))
  }

  /** A log of true entries read backwards returns to where it began. */
  lemma {:induction false} RewindReplay(view: Database, entries: seq<AuditEntry>)
    requires FitsAll(view, entries)
    ensures Rewind(Replay(view, entries), entries) == view
  {
    if entries != [] {
      var (init, last) := (entries[..|entries| - 1], entries[|entries| - 1]);
      hide Fits, Undo, Redo;
      UndoRedo(Replay(view, init), last);
      RewindReplay(view, init);
    }
  }

  lemma {:induction false} FitsConcat(view: Database, a: seq<AuditEntry>, b: seq<AuditEntry>)
    requires FitsAll(view, a) && FitsAll(Replay(view, a), b)
    ensures FitsAll(view, a + b)
  {
    hide Fits, Redo;
    if b == [] {
      assert a + b == a;
    } else {
      var init := b[..|b| - 1];
      assert (a + b)[..|a + b| - 1] == a + init && (a + b)[|a + b| - 1] == b[|b| - 1];
      FitsConcat(view, a, init);
      ReplayConcat(view, a, init);
    }
  }

  lemma FitsLast(view: Database, entries: seq<AuditEntry>, e: AuditEntry)
    requires FitsAll(view, entries) && Fits(Replay(view, entries), e)
    ensures FitsAll(view, entries + [e])
  {
    hide Fits, Redo;
    assert (entries + [e])[..|entries|] == entries;
  }

  /** New rows have keys of their own. */
  ghost predicate KeysFresh(db: Database, pending: seq<Pending>) {
    pending == []
    || (var (init, p) := (pending[..|pending| - 1], pending[|pending| - 1]);
        KeysFresh(db, init) && (p.Entity? && !Skips(p.Table()) ==> p.instance.ident !in Inserted(db, init)))
  }

  /** The history of the changed attributes holds the values the row had. */
  ghost predicate OldLoaded(row: Fields, attrs: seq<Attr>) {
    && (forall i :: 0 <= i < |attrs| && Reported(attrs[i]) ==>
          attrs[i].key in row && attrs[i].loaded == Some(row[attrs[i].key]))
  }

  ghost predicate AllLoaded(db: Database, dirty: seq<Dirty>) {
    dirty == []
    || (var (init, d) := (dirty[..|dirty| - 1], dirty[|dirty| - 1]);
        AllLoaded(db, init)
        && (!Skips(d.ident.table) ==> d.ident in Recorded(db, init) && OldLoaded(Recorded(db, init)[d.ident], d.attrs)))
  }

  /** A deleted instance is as its row was. */
  ghost predicate DeletedAsStored(db: Database, deleted: seq<Instance>) {
    deleted == []
    || (var (init, x) := (deleted[..|deleted| - 1], deleted[|deleted| - 1]);
        DeletedAsStored(db, init)
        && (!Skips(x.ident.table) ==> x.ident in Removed(db, init) && RowOf(x.columns) == Removed(db, init)[x.ident]))
  }

  lemma {:induction false} BeforeMatches(row: Fields, attrs: seq<Attr>)
    requires OldLoaded(row, attrs)
    ensures BeforeOf(attrs).Keys == AfterOf(attrs).Keys <= ViewRow(row).Keys
    ensures forall k :: k in BeforeOf(attrs) ==> BeforeOf(attrs)[k] == ViewRow(row)[k]
  {
    hide Serialize;
    if attrs != [] {
      BeforeMatches(row, attrs[..|attrs| - 1]);
    }
  }

  lemma {:induction false} CreatesFit(db: Database, pending: seq<Pending>, actor: Option<Actor>)
    requires KeysFresh(db, pending)
    ensures FitsAll(View(db), Creates(pending, actor))
  {
    if pending != [] {
      var (init, p) := (pending[..|pending| - 1], pending[|pending| - 1]);
      CreatesFit(db, init, actor);
      CreatesReplay(db, init, actor);
      hide Replay, FitsAll, ToDict, ViewRow, Skips, Inserted;
      if !Skips(p.Table()) && p.Entity? {
        FitsLast(View(db), Creates(init, actor),
                 AuditEntry(Create, p.instance.ident, None, Some(ToDict(p.instance.columns)), actor));
      }
    }
  }

  lemma UpdateFits(db: Database, d: Dirty, actor: Option<Actor>)
    requires !Skips(d.ident.table) && d.ident in db && OldLoaded(db[d.ident], d.attrs)
    ensures Fits(View(db), AuditEntry(Update, d.ident, Some(BeforeOf(d.attrs)), Some(AfterOf(d.attrs)), actor))
  {
    BeforeMatches(db[d.ident], d.attrs);
    hide BeforeOf, AfterOf, ViewRow, OldLoaded, Skips;
  }

  lemma {:induction false} UpdatesFit(db: Database, dirty: seq<Dirty>, actor: Option<Actor>)
    requires AllLoaded(db, dirty)
    ensures FitsAll(View(db), Updates(dirty, actor))
  {
    if dirty != [] {
      var (init, d) := (dirty[..|dirty| - 1], dirty[|dirty| - 1]);
      UpdatesFit(db, init, actor);
      UpdatesReplay(db, init, actor);
      hide Replay, FitsAll, Fits, View, Skips, Recorded, BeforeOf, AfterOf, OldLoaded;
      if !Skips(d.ident.table) && AfterOf(d.attrs) != map[] {
        UpdateFits(Recorded(db, init), d, actor);
        FitsLast(View(db), Updates(init, actor),
                 AuditEntry(Update, d.ident, Some(BeforeOf(d.attrs)), Some(AfterOf(d.attrs)), actor));
      }
    }
  }

  lemma {:induction false} DeletesFit(db: Database, deleted: seq<Instance>, actor: Option<Actor>)
    requires DeletedAsStored(db, deleted)
    ensures FitsAll(View(db), Deletes(deleted, actor))
  {
    if deleted != [] {
      var (init, x) := (deleted[..|deleted| - 1], deleted[|deleted| - 1]);
      DeletesFit(db, init, actor);
      DeletesReplay(db, init, actor);
      ToDictIsView(x.columns);
      hide Replay, FitsAll, ToDict, ViewRow, Skips, Removed, RowOf;
      if !Skips(x.ident.table) {
        FitsLast(View(db), Deletes(init, actor), AuditEntry(Delete, x.ident, Some(ToDict(x.columns)), None, actor));
      }
    }
  }

  lemma EntriesSplit(f: UnitOfWork)
    ensures EntriesOf(f) == Creates(f.pending, f.actor) + Updates(f.dirty, f.actor) + Deletes(f.deleted, f.actor)
  {
  }

  /** The history and the session are as the ORM keeps them when everything is loaded. */
  ghost predicate Loaded(db: Database, f: UnitOfWork) {
    && KeysFresh(db, f.pending)
    && AllLoaded(Inserted(db, f.pending), f.dirty)
    && DeletedAsStored(Recorded(Inserted(db, f.pending), f.dirty), f.deleted)
  }

  lemma FlushFits(db: Database, f: UnitOfWork)
    requires Loaded(db, f)
    ensures FitsAll(View(db), EntriesOf(f))
  {
    CreatesFit(db, f.pending, f.actor);
    CreatesReplay(db, f.pending, f.actor);
    UpdatesFit(Inserted(db, f.pending), f.dirty, f.actor);
    UpdatesReplay(Inserted(db, f.pending), f.dirty, f.actor);
    DeletesFit(Recorded(Inserted(db, f.pending), f.dirty), f.deleted, f.actor);
    hide *;
    var (c, u, d) := (Creates(f.pending, f.actor), Updates(f.dirty, f.actor), Deletes(f.deleted, f.actor));
    FitsConcat(View(db), c, u);
    ReplayConcat(View(db), c, u);
    FitsConcat(View(db), c + u, d);
    EntriesSplit(f);
  }

  lemma UndoMasked(view: Database, e: AuditEntry, names: Ident -> set<string>, lost: set<Ident>)
    ensures Masked(Undo(view, e), names, lost)
         == if e.ident in lost then Masked(view, names, lost)
            else Undo(Masked(view, names, lost), MaskedEntry(e, names))
  {
    match e.action
    case Create =>
    case Update =>
      if e.ident in view && e.before.Some? {
        MinusOfUnion(view[e.ident], e.before.value, names(e.ident));
      }
    case Delete =>
    case Other(_) =>
  }

  lemma {:induction false} SameMaskRewinds(
    a: Database, b: Database, entries: seq<AuditEntry>, names: Ident -> set<string>, lost: set<Ident>)
    requires Masked(a, names, lost) == Masked(b, names, lost)
    ensures Masked(Rewind(a, entries), names, lost) == Masked(Rewind(b, entries), names, lost)
    decreases |entries|
  {
    hide Undo, Masked, MaskedEntry;
    if entries != [] {
      var (init, e) := (entries[..|entries| - 1], entries[|entries| - 1]);
      UndoMasked(a, e, names, lost);
      UndoMasked(b, e, names, lost);
      SameMaskRewinds(Undo(a, e), Undo(b, e), init, names, lost);
    }
  }

  /** Reading a flush's entries backwards restores all other audited columns of all other audited rows. */
  lemma OtherColumnsRewind(db: Database, f: UnitOfWork, names: Ident -> set<string>, lost: set<Ident>)
    requires HeldOnce(f) && Loaded(db, f) && SetAmong(db, f, names) && LostAmong(db, f, lost)
    ensures Masked(Rewind(View(DatabaseAfter(db, f)), EntriesOf(f)), names, lost) == Masked(View(db), names, lost)
  {
    hide View, Replay, Rewind, EntriesOf, DatabaseAfter, HeldOnce, Loaded, SetAmong, LostAmong, Masked;
    FlushMasked(db, f, names, lost);
    SameMaskRewinds(Replay(View(db), EntriesOf(f)), View(DatabaseAfter(db, f)), EntriesOf(f), names, lost);
    FlushFits(db, f);
    RewindReplay(View(db), EntriesOf(f));
  }

  // ----- what reading a flush backwards gives -----

  lemma {:induction false} RewindConcat(view: Database, a: seq<AuditEntry>, b: seq<AuditEntry>)
    ensures Rewind(view, a + b) == Rewind(Rewind(view, b), a)
    decreases |b|
  {
    if b == [] {
      assert a + b == a;
    } else {
      var init := b[..|b| - 1];
      assert (a + b)[..|a + b| - 1] == a + init && (a + b)[|a + b| - 1] == b[|b| - 1];
      RewindConcat(Undo(view, b[|b| - 1]), a, init);
    }
  }

  lemma RewindLast(view: Database, entries: seq<AuditEntry>, e: AuditEntry)
    ensures Rewind(view, entries + [e]) == Rewind(Undo(view, e), entries)
  {
    assert (entries + [e])[..|entries|] == entries;
  }

  lemma {:induction false} CreatesRewindAt(view: Database, pending: seq<Pending>, actor: Option<Actor>, x: Ident)
    requires !Skips(x.table)
    ensures x in Created(pending) ==> x !in Rewind(view, Creates(pending, actor))
    ensures x !in Created(pending) ==> AgreeAt(Rewind(view, Creates(pending, actor)), view, x)
    decreases |pending|
  {
    hide ToDict;
    if pending != [] {
      var (init, p) := (pending[..|pending| - 1], pending[|pending| - 1]);
      assert pending == init + [p];
      assert Created(pending) == Created(init) + if p.Entity? then {p.instance.ident} else {};
      hide Created;
      if Skips(p.Table()) || p.Audit? {
        CreatesRewindAt(view, init, actor, x);
      } else {
        var e := AuditEntry(Create, p.instance.ident, None, Some(ToDict(p.instance.columns)), actor);
        RewindLast(view, Creates(init, actor), e);
        CreatesRewindAt(Undo(view, e), init, actor, x);
        hide Rewind;
      }
    }
  }

  /** The delete entry of an instance read backwards, if it has one. */
  function DeleteUndone(view: Database, y: Instance): Database {
    if Skips(y.ident.table) then view else view[y.ident := ToDict(y.columns)]
  }

  lemma DeletesRewindLast(view: Database, deleted: seq<Instance>, actor: Option<Actor>)
    requires deleted != []
    ensures Rewind(view, Deletes(deleted, actor))
         == Rewind(DeleteUndone(view, deleted[|deleted| - 1]), Deletes(deleted[..|deleted| - 1], actor))
  {
    hide ToDict, Skips, Rewind;
    var (init, y) := (deleted[..|deleted| - 1], deleted[|deleted| - 1]);
    RewindLast(view, Deletes(init, actor), AuditEntry(Delete, y.ident, Some(ToDict(y.columns)), None, actor));
  }

  lemma {:induction false} DeletesRewindAt(
    view: Database, deleted: seq<Instance>, actor: Option<Actor>, x: Ident, was: Fields)
    requires !Skips(x.table) && forall y :: y in deleted && y.ident == x ==> ToDict(y.columns) == was
    ensures var r := Rewind(view, Deletes(deleted, actor));
            if x in Deleted(deleted) then x in r && r[x] == was else AgreeAt(r, view, x)
    decreases |deleted|
  {
    hide ToDict, Skips;
    if deleted != [] {
      var (init, y) := (deleted[..|deleted| - 1], deleted[|deleted| - 1]);
      DeletesRewindLast(view, deleted, actor);
      hide Rewind, Deletes;
      assert deleted == init + [y] && y in deleted && forall z :: z in init ==> z in deleted;
      assert Deleted(deleted) == Deleted(init) + {y.ident};
      hide Deleted;
      DeletesRewindAt(DeleteUndone(view, y), init, actor, x, was);
    }
  }

  /** The update entry of an instance read backwards, if it has one. */
  function UpdateUndone(view: Database, d: Dirty): Database {
    if Skips(d.ident.table) || AfterOf(d.attrs) == map[] || d.ident !in view then view
    else view[d.ident := view[d.ident] + BeforeOf(d.attrs)]
  }

  lemma UpdatesRewindLast(view: Database, dirty: seq<Dirty>, actor: Option<Actor>)
    requires dirty != []
    ensures Rewind(view, Updates(dirty, actor))
         == Rewind(UpdateUndone(view, dirty[|dirty| - 1]), Updates(dirty[..|dirty| - 1], actor))
  {
    hide BeforeOf, AfterOf, Skips, Rewind;
    var (init, d) := (dirty[..|dirty| - 1], dirty[|dirty| - 1]);
    RewindLast(view, Updates(init, actor),
               AuditEntry(Update, d.ident, Some(BeforeOf(d.attrs)), Some(AfterOf(d.attrs)), actor));
  }

  lemma {:induction false} UpdatesLeaveAt(view: Database, dirty: seq<Dirty>, actor: Option<Actor>, x: Ident)
    requires forall i :: 0 <= i < |dirty| ==> dirty[i].ident != x
    ensures AgreeAt(Rewind(view, Updates(dirty, actor)), view, x)
    decreases |dirty|
  {
    hide BeforeOf, AfterOf, Skips;
    if dirty != [] {
      UpdatesRewindLast(view, dirty, actor);
      UpdatesLeaveAt(UpdateUndone(view, dirty[|dirty| - 1]), dirty[..|dirty| - 1], actor, x);
      hide Rewind, Updates;
    }
  }

  lemma {:induction false} UpdatesRewindAt(view: Database, dirty: seq<Dirty>, actor: Option<Actor>, i: nat)
    requires OncePerIdent(dirty) && i < |dirty| && !Skips(dirty[i].ident.table)
    ensures var (r, x) := (Rewind(view, Updates(dirty, actor)), dirty[i].ident);
            (x in r <==> x in view) && (x in r ==> r[x] == view[x] + BeforeOf(dirty[i].attrs))
    decreases |dirty|
  {
    var (init, d) := (dirty[..|dirty| - 1], dirty[|dirty| - 1]);
    SameKeys(d.attrs);
    UpdatesRewindLast(view, dirty, actor);
    hide BeforeOf, AfterOf, Skips, Rewind, Updates;
    if i < |init| {
      UpdatesRewindAt(UpdateUndone(view, d), init, actor, i);
    } else {
      UpdatesLeaveAt(UpdateUndone(view, d), init, actor, d.ident);
      assert d.ident in view ==> view[d.ident] + map[] == view[d.ident];
    }
  }

  lemma {:induction false} SameKeys(attrs: seq<Attr>)
    ensures BeforeOf(attrs).Keys == AfterOf(attrs).Keys
    ensures AfterOf(attrs) == map[] ==> BeforeOf(attrs) == map[]
    ensures forall k :: k in BeforeOf(attrs) <==> k !in SENSITIVE_FIELDS && ChangedKey(attrs, k)
  {
    hide Serialize;
    if attrs != [] {
      var (init, a) := (attrs[..|attrs| - 1], attrs[|attrs| - 1]);
      SameKeys(init);
      assert attrs == init + [a];
      forall k ensures k in BeforeOf(attrs) <==> k !in SENSITIVE_FIELDS && ChangedKey(attrs, k) {
        ChangedKeyLast(init, a, k);
      }
    }
    assert AfterOf(attrs) == map[] ==> BeforeOf(attrs).Keys == {};
  }

  lemma {:induction false} FreshAt(db: Database, pending: seq<Pending>, x: Ident)
    requires KeysFresh(db, pending) && x in Created(pending) && !Skips(x.table)
    ensures x !in db
  {
    hide RowOf;
    var (init, p) := (pending[..|pending| - 1], pending[|pending| - 1]);
    assert pending == init + [p];
    assert Created(pending) == Created(init) + if p.Entity? then {p.instance.ident} else {};
    if x in Created(init) {
      FreshAt(db, init, x);
    } else {
      InsertedIsMerge(db, init);
    }
  }

  lemma {:induction false} StoredAt(db: Database, deleted: seq<Instance>, y: Instance)
    requires DeletedAsStored(db, deleted) && y in deleted && !Skips(y.ident.table)
    ensures y.ident in db && RowOf(y.columns) == db[y.ident]
  {
    hide RowOf;
    var (init, last) := (deleted[..|deleted| - 1], deleted[|deleted| - 1]);
    assert deleted == init + [last];
    if y in init {
      StoredAt(db, init, y);
    } else {
      RemovedIsMinus(db, init);
    }
  }

  lemma {:induction false} LoadedAt(db: Database, dirty: seq<Dirty>, i: nat)
    requires AllLoaded(db, dirty) && OncePerIdent(dirty) && i < |dirty| && !Skips(dirty[i].ident.table)
    ensures dirty[i].ident in db && OldLoaded(db[dirty[i].ident], dirty[i].attrs)
  {
    hide OldLoaded, Touched;
    var init := dirty[..|dirty| - 1];
    if i < |init| {
      LoadedAt(db, init, i);
    } else {
      OthersUnchanged(db, init, dirty[i].ident);
    }
  }

  /** The flush changes the column of the row explicitly. */
  ghost predicate ChangedIn(f: UnitOfWork, x: Ident, k: string) {
    exists i :: 0 <= i < |f.dirty| && f.dirty[i].ident == x && ChangedKey(f.dirty[i].attrs, k)
  }

  /**
   * No audited row that was there, and that the flush does not delete itself, goes with a row it deletes, and no
   * non-sensitive column of one is set to null by the database, unless it was None or is changed explicitly.
   */
  ghost predicate OldRowsStay(db: Database, f: UnitOfWork) {
    forall x :: x in db && !Skips(x.table) && x !in Deleted(f.deleted) ==> x !in Gone(db, f) && OldColumnsStay(db, f, x)
  }

  ghost predicate OldColumnsStay(db: Database, f: UnitOfWork, x: Ident)
    requires x in db
  {
    forall k :: NulledAt(db, f, x, k) && k !in SENSITIVE_FIELDS && !ChangedIn(f, x, k) ==> IsNone(db[x], k)
  }

  lemma UnchangedSilence(row: Fields, d: Dirty, k: string)
    requires !ChangedKey(d.attrs, k)
    ensures SameAt(ViewRow(Changed(row, d)), ViewRow(row), k) <==> !SilentAt(row, d, k)
  {
    SilenceAt(row, d, k);
    TouchedAt(row, row, d.attrs, k);
    hide Serialize, SilentAt, ChangedKey, Touched, Changed;
  }

  lemma UndoneAt(keys: set<ForeignKey>, x: Ident, row: Fields, d: Dirty, gone: set<Ident>, k: string)
    requires OldLoaded(row, d.attrs)
    ensures SameAt(ViewRow(NulledRow(keys, x, Changed(row, d), gone)) + BeforeOf(d.attrs), ViewRow(row), k)
       <==> k in SENSITIVE_FIELDS || ChangedKey(d.attrs, k)
            || if Nulls(keys, x, Changed(row, d), gone, k) then IsNone(row, k) else !SilentAt(row, d, k)
  {
    BeforeMatches(row, d.attrs);
    SameKeys(d.attrs);
    NulledReadsAt(keys, x, Changed(row, d), gone, row, k);
    if !ChangedKey(d.attrs, k) {
      UnchangedSilence(row, d, k);
    }
    hide Serialize, SilentAt, ChangedKey, Touched, Changed, NulledRow, Nulls, IsNone, BeforeOf, AfterOf, OldLoaded;
  }

  lemma DirtyUndone(db: Database, f: UnitOfWork, i: nat)
    requires HeldOnce(f) && i < |f.dirty| && f.dirty[i].ident in db
    requires OldLoaded(db[f.dirty[i].ident], f.dirty[i].attrs)
    ensures var (x, d) := (f.dirty[i].ident, f.dirty[i]);
            && x in Statements(db, f)
            && (ViewRow(NulledRow(f.keys, x, Statements(db, f)[x], Gone(db, f))) + BeforeOf(d.attrs) == ViewRow(db[x])
                <==> OldColumnsStay(db, f, x) && SilentShown(db, f, x))
  {
    hide Statements, Gone, Described, ViewRow, SilentAt, SameAt, Changed, Touched, Created, Deleted, NulledRow, Nulls,
         IsNone, BeforeOf, ChangedKey, OldLoaded, SilentShown;
    var (x, d) := (f.dirty[i].ident, f.dirty[i]);
    DirtyAt(db, f, i);
    DirtySilence(db, f, i);
    NoSilentSensitive(db, f, i);
    var left := ViewRow(NulledRow(f.keys, x, Statements(db, f)[x], Gone(db, f))) + BeforeOf(d.attrs);
    forall k
      ensures SameAt(left, ViewRow(db[x]), k)
         <==> k in SENSITIVE_FIELDS
              || ((NulledAt(db, f, x, k) && !ChangedIn(f, x, k) ==> IsNone(db[x], k)) && !StaysSilent(db, f, i, k))
    {
      UndoneAt(f.keys, x, db[x], d, Gone(db, f), k);
      OnlyChange(f, i, k);
      SilentNotChanged(db[x], d, k);
    }
    SameEverywhere(left, ViewRow(db[x]));
    hide HeldOnce, StaysSilent, NulledAt, ChangedIn;
  }

  lemma SilentNotChanged(row: Fields, d: Dirty, k: string)
    ensures SilentAt(row, d, k) ==> !ChangedKey(d.attrs, k)
  {
  }

  lemma OnlyChange(f: UnitOfWork, i: nat, k: string)
    requires OncePerIdent(f.dirty) && i < |f.dirty|
    ensures ChangedIn(f, f.dirty[i].ident, k) <==> ChangedKey(f.dirty[i].attrs, k)
  {
    hide ChangedKey;
  }

  lemma OtherUndone(db: Database, f: UnitOfWork, x: Ident)
    requires x in db && x in Statements(db, f) && Statements(db, f)[x] == db[x] && NotDirty(f, x)
    ensures ViewRow(NulledRow(f.keys, x, Statements(db, f)[x], Gone(db, f))) == ViewRow(db[x])
       <==> OldColumnsStay(db, f, x) && SilentShown(db, f, x)
  {
    hide Statements, Gone, ViewRow, NulledRow, Nulls, IsNone;
    NulledReads(f.keys, x, db[x], Gone(db, f), db[x]);
  }

  ghost predicate NotDirty(f: UnitOfWork, x: Ident) {
    forall i :: 0 <= i < |f.dirty| ==> f.dirty[i].ident != x
  }

  /** What reading the entries of a flush backwards makes of an audited row of the view. */
  lemma RewindAt(view: Database, f: UnitOfWork, x: Ident, was: Fields)
    requires HeldOnce(f) && !Skips(x.table)
    requires x !in Created(f.pending) ==> forall y :: y in f.deleted && y.ident == x ==> ToDict(y.columns) == was
    ensures var r := Rewind(view, EntriesOf(f));
            && (x in Created(f.pending) ==> x !in r)
            && (x in Deleted(f.deleted) && x !in Created(f.pending) ==> x in r && r[x] == was)
            && (forall i :: 0 <= i < |f.dirty| && f.dirty[i].ident == x ==>
                  (x in r <==> x in view) && (x in r ==> r[x] == view[x] + BeforeOf(f.dirty[i].attrs)))
            && (x !in Created(f.pending) + Deleted(f.deleted) && NotDirty(f, x) ==> AgreeAt(r, view, x))
  {
    hide Skips, Creates, Updates, Deletes, Rewind, EntriesOf, Created, Deleted, ToDict, BeforeOf;
    var (c, u, d) := (Creates(f.pending, f.actor), Updates(f.dirty, f.actor), Deletes(f.deleted, f.actor));
    EntriesSplit(f);
    RewindConcat(view, c + u, d);
    var v1 := Rewind(view, d);
    RewindConcat(v1, c, u);
    var v2 := Rewind(v1, u);
    if x !in Created(f.pending) {
      DeletesRewindAt(view, f.deleted, f.actor, x, was);
    }
    CreatesRewindAt(v2, f.pending, f.actor, x);
    if i: nat :| i < |f.dirty| && f.dirty[i].ident == x {
      assert f.dirty[i] in f.dirty;
      UpdatesRewindAt(v1, f.dirty, f.actor, i);
      forall j | 0 <= j < |f.dirty| && f.dirty[j].ident == x ensures j == i {
        assert OncePerIdent(f.dirty);
      }
    } else {
      UpdatesLeaveAt(v1, f.dirty, f.actor, x);
    }
  }

  /** A deleted row, as its entry has it. */
  lemma DeletedAsWas(db: Database, f: UnitOfWork, y: Instance)
    requires HeldOnce(f) && Loaded(db, f) && y in f.deleted && !Skips(y.ident.table) && y.ident !in Created(f.pending)
    ensures y.ident in db && ToDict(y.columns) == ViewRow(db[y.ident])
  {
    hide Statements, Described, ViewRow, ToDict, RowOf, KeysFresh, AllLoaded, DeletedAsStored, Inserted, Recorded,
         Created, Skips;
    DescribedIsSo(db, f);
    StoredAt(Described(db, f), f.deleted, y);
    RowsAt(db, f, y.ident);
    ToDictIsView(y.columns);
    assert y.ident in Deleted(f.deleted);
  }

  lemma DirtyAsLoaded(db: Database, f: UnitOfWork, i: nat)
    requires HeldOnce(f) && Loaded(db, f) && i < |f.dirty| && !Skips(f.dirty[i].ident.table)
    ensures f.dirty[i].ident in db && OldLoaded(db[f.dirty[i].ident], f.dirty[i].attrs)
  {
    hide OldLoaded, KeysFresh, AllLoaded, DeletedAsStored, Inserted, Recorded, Created, Skips;
    assert f.dirty[i] in f.dirty;
    LoadedAt(Inserted(db, f.pending), f.dirty, i);
    InsertedIsMerge(db, f.pending);
    InsertedKeys(f.pending);
  }

  /** Reading backwards is right about a row exactly under these conditions. */
  lemma FlushRewindsAt(db: Database, f: UnitOfWork, x: Ident)
    requires HeldOnce(f) && Loaded(db, f) && !Skips(x.table)
    ensures AgreeAt(Rewind(View(DatabaseAfter(db, f)), EntriesOf(f)), View(db), x)
       <==> (x in db && x !in Deleted(f.deleted) ==>
               x !in Gone(db, f) && OldColumnsStay(db, f, x) && SilentShown(db, f, x))
  {
    hide Statements, Gone, Described, ViewRow, Rewind, EntriesOf, DatabaseAfter, Skips, NulledRow, OldColumnsStay,
         SilentShown, ToDict, BeforeOf, Loaded, OldLoaded, Created, Deleted;
    var view := View(DatabaseAfter(db, f));
    var was := if x in db then ViewRow(db[x]) else map[];
    RowsAt(db, f, x);
    AfterAt(db, f, x);
    ViewsAt(db, x);
    ViewsAt(DatabaseAfter(db, f), x);
    hide View;
    if x in Created(f.pending) {
      FreshAt(db, f.pending, x) by { LoadedParts(db, f); }
      RewindAt(view, f, x, was);
    } else {
      forall y | y in f.deleted && y.ident == x ensures x in db && ToDict(y.columns) == was {
        DeletedAsWas(db, f, y);
      }
      DeletedIsThere(f, x);
      RewindAt(view, f, x, was);
      if i: nat :| i < |f.dirty| && f.dirty[i].ident == x {
        assert f.dirty[i] in f.dirty;
        DirtyAsLoaded(db, f, i);
        DirtyUndone(db, f, i);
      } else if x in db && x !in Deleted(f.deleted) {
        OtherUndone(db, f, x);
      }
    }
  }

  lemma LoadedParts(db: Database, f: UnitOfWork)
    requires Loaded(db, f)
    ensures KeysFresh(db, f.pending)
  {
  }

  lemma DeletedIsThere(f: UnitOfWork, x: Ident)
    ensures x in Deleted(f.deleted) <==> exists y :: y in f.deleted && y.ident == x
  {
  }

  /**
   * Reading a flush's entries backwards undoes it exactly when no UPDATE of an audited row sets a non-sensitive
   * column silently, and no foreign key of a deleted row takes away an audited row that was there or sets a
   * column of one to null that is not changed explicitly.
   */
  lemma FlushRewinds(db: Database, f: UnitOfWork)
    requires HeldOnce(f) && Loaded(db, f)
    ensures Rewind(View(DatabaseAfter(db, f)), EntriesOf(f)) == View(db) <==> NothingSilent(db, f) && OldRowsStay(db, f)
  {
    hide View, Rewind, EntriesOf, DatabaseAfter, HeldOnce, Loaded, Skips, AgreeAt, Gone, OldColumnsStay, Deleted,
         NothingSilent, SilentShown;
    var (rewound, before) := (Rewind(View(DatabaseAfter(db, f)), EntriesOf(f)), View(db));
    forall x: Ident
      ensures AgreeAt(rewound, before, x) <==> Skips(x.table) || RewoundAt(db, f, x)
    {
      if Skips(x.table) {
        SkippedAside(db, f, x);
      } else {
        FlushRewindsAt(db, f, x);
      }
    }
    AgreeEverywhere(rewound, before);
    RewoundEverywhere(db, f);
  }

  ghost predicate RewoundAt(db: Database, f: UnitOfWork, x: Ident) {
    x in db && x !in Deleted(f.deleted) ==> x !in Gone(db, f) && OldColumnsStay(db, f, x) && SilentShown(db, f, x)
  }

  lemma RewoundEverywhere(db: Database, f: UnitOfWork)
    requires HeldOnce(f)
    ensures NothingSilent(db, f) && OldRowsStay(db, f) <==> forall x: Ident :: Skips(x.table) || RewoundAt(db, f, x)
  {
    hide Statements, Gone, Skips, OldColumnsStay, RowNotSilent, Created, Deleted;
    forall i | 0 <= i < |f.dirty| && f.dirty[i].ident in db ensures f.dirty[i].ident !in Deleted(f.deleted) {
      DirtyAt(db, f, i);
    }
    if forall x: Ident :: Skips(x.table) || RewoundAt(db, f, x) {
      forall i | 0 <= i < |f.dirty| && !Skips(f.dirty[i].ident.table) && f.dirty[i].ident in db
        ensures RowNotSilent(db, f, i)
      {
        assert RewoundAt(db, f, f.dirty[i].ident);
      }
      forall x | x in db && !Skips(x.table) && x !in Deleted(f.deleted)
        ensures x !in Gone(db, f) && OldColumnsStay(db, f, x)
      {
        assert RewoundAt(db, f, x);
      }
    }
  }

  /** No entry is about a skipped table, and no view holds one. */
  lemma {:induction false} RewindKeepsSkipped(view: Database, entries: seq<AuditEntry>, x: Ident)
    requires forall e :: e in entries ==> e.ident != x
    ensures AgreeAt(Rewind(view, entries), view, x)
    decreases |entries|
  {
    if entries != [] {
      var (init, e) := (entries[..|entries| - 1], entries[|entries| - 1]);
      assert e in entries && forall g :: g in init ==> g in entries;
      RewindKeepsSkipped(Undo(view, e), init, x);
      hide Rewind;
    }
  }

  lemma SkippedAside(db: Database, f: UnitOfWork, x: Ident)
    requires Skips(x.table)
    ensures AgreeAt(Rewind(View(DatabaseAfter(db, f)), EntriesOf(f)), View(db), x)
  {
    hide Rewind, EntriesOf, DatabaseAfter, View, Skips;
    SkippedNeverAudited(f);
    RewindKeepsSkipped(View(DatabaseAfter(db, f)), EntriesOf(f), x);
    ViewsAt(db, x);
    ViewsAt(DatabaseAfter(db, f), x);
  }

  lemma OneChange(a: Attr)
    requires Reported(a)
    ensures BeforeOf([a]) == map[a.key := Serialize(OldOf(a))] && AfterOf([a]) == map[a.key := Serialize(a.current)]
  {
    hide Serialize;
    assert [a][..0] == [];
  }

  /** A change whose old value was not loaded is undone exactly when the row held None. */
  lemma UndoneExactlyWhenLoaded(view: Database, ident: Ident, a: Attr, actor: Option<Actor>)
    requires Reported(a) && ident in view && a.key in view[ident]
    requires a.loaded.Some? ==> Serialize(a.loaded.value) == view[ident][a.key]
    ensures var e := AuditEntry(Update, ident, Some(BeforeOf([a])), Some(AfterOf([a])), actor);
            Undo(Redo(view, e), e) == view <==> a.loaded.Some? || view[ident][a.key] == NoneValue
  {
    OneChange(a);
    assert Serialize(NoneValue) == NoneValue;
    hide Serialize, BeforeOf, AfterOf;
    var e := AuditEntry(Update, ident, Some(BeforeOf([a])), Some(AfterOf([a])), actor);
    var row := view[ident] + AfterOf([a]) + BeforeOf([a]);
    assert Undo(Redo(view, e), e) == view[ident := row];
    assert row == view[ident][a.key := Serialize(OldOf(a))];
    if Serialize(OldOf(a)) == view[ident][a.key] {
      assert row == view[ident];
    } else {
      assert view[ident := row][ident][a.key] != view[ident][a.key];
    }
  }
}
