/** What the stored audit rows say: read back from the table, they replay as the entries they were made of. */
module AuditStored {
  import opened Common
  import opened PyValues
  import opened AuditRows
  import opened AuditChain
  import opened AuditListener
  import opened AuditReplay
  import opened AuditSession
  import Json
  import JsonProofs
  import Text

  // ----- reading a row back -----

  /** A `before_state` or `after_state` as JSON holds it. */
  type Said = map<string, Json.Meaning>

  /** The columns of a stored row as a reader finds them. */
  datatype Stored = Stored(
    action: string,
    table: string,
    id: string,
    before: Option<Said>,
    after: Option<Said>,
    userId: Option<Text.Uuid>,
    userEmail: Option<string>,
    ipAddress: Option<string>,
    userAgent: Option<string>)

  /** A JSON column: an object's members, or nothing for null. */
  function ReadState(s: PyValues.State): Option<Said> {
    match Json.Denote(StateJson(s))
    case ObjectM(members) => Some(members)
    case _ => None
  }

  function ReadBack(r: Row): Stored {
    var c := r.columns.content;
    Stored(c.action, c.entityType, c.entityId, ReadState(c.before), ReadState(c.after), c.userId, c.userEmail,
           c.ipAddress, c.userAgent)
  }

  // ----- what an entry says -----

  /** A dict's JSON meaning, key by key. */
  function SaidOf(fields: Fields): Said {
    map k | k in fields && ToJson(fields[k]).Some? :: Json.Denote(ToJson(fields[k]).value)
  }

  predicate StorableEntry(e: AuditEntry) {
    (e.before.Some? ==> Storable(e.before.value)) && (e.after.Some? ==> Storable(e.after.value))
  }

  function SaidOption(fields: Option<Fields>): Option<Said> {
    if fields.None? then None else Some(SaidOf(fields.value))
  }

  /** What the stored row of an entry is to say. */
  function SaidBy(e: AuditEntry): Stored {
    var action := match e.action
      case Create => "create"
      case Update => "update"
      case Delete => "delete"
      case Other(name) => name;
    Stored(action, e.ident.table, e.ident.id, SaidOption(e.before), SaidOption(e.after),
           if e.actor.Some? then Some(e.actor.value.userId) else None,
           if e.actor.Some? then Some(e.actor.value.userEmail) else None,
           if e.actor.Some? then Some(e.actor.value.ipAddress) else None,
           if e.actor.Some? then Some(e.actor.value.userAgent) else None)
  }

  lemma {:induction false} ListedAll(fields: Fields, k: string)
    requires k in fields
    ensures exists i :: 0 <= i < |Listed(fields)| && Listed(fields)[i].key == k
    decreases |fields|
  {
    hide Least;
    var first := Least(fields.Keys);
    assert |fields.Keys| == |fields| && (fields - {first}).Keys == fields.Keys - {first};
    if k == first {
      assert Listed(fields)[0].key == k;
    } else {
      ListedAll(fields - {first}, k);
      var i :| 0 <= i < |Listed(fields - {first})| && Listed(fields - {first})[i].key == k;
      assert Listed(fields)[i + 1].key == k;
    }
  }

  /** The members are the entries, each once, with their values in JSON. */
  ghost predicate Mirrors(members: seq<Json.Member>, entries: seq<Entry>) {
    && |members| == |entries|
    && (forall i :: 0 <= i < |entries| ==>
          members[i].key == entries[i].key && ToJson(entries[i].value) == Some(members[i].value))
    && (forall i, j :: 0 <= i < j < |members| ==> members[i].key != members[j].key)
  }

  /** The JSON object a storable dict is written as. */
  lemma DictMembers(fields: Fields) returns (members: seq<Json.Member>)
    requires Storable(fields)
    ensures Encodable(Dict(Listed(fields))) && DictsProper(Dict(Listed(fields)))
    ensures StateJson(Dict(Listed(fields))) == Json.Object(members) && Mirrors(members, Listed(fields))
  {
    ListedIsState(fields);
    ListedExactly(fields);
    EncodableIffToJson(Dict(Listed(fields)));
    hide Listed, Encodable, DictsProper;
    members := ToJson(Dict(Listed(fields))).value.members;
  }

  lemma KeySays(fields: Fields, members: seq<Json.Member>, k: string)
    requires Storable(fields) && Mirrors(members, Listed(fields))
    ensures k in Json.DenoteMembers(members) <==> k in SaidOf(fields)
    ensures k in SaidOf(fields) ==> Json.DenoteMembers(members)[k] == SaidOf(fields)[k]
  {
    var entries := Listed(fields);
    ListedExactly(fields);
    JsonProofs.LookUp(members, k);
    hide Listed, Json.Denote, Json.DenoteMembers, ToJson;
    if k in fields {
      ListedAll(fields, k);
      var i :| 0 <= i < |entries| && entries[i].key == k;
      assert members[i].key == k && entries[i].value == fields[k];
    }
    if Json.HasKey(members, k) {
      var i :| 0 <= i < |members| && members[i].key == k;
      assert entries[i].key in fields;
    }
  }

  lemma MembersSay(fields: Fields) returns (members: seq<Json.Member>)
    requires Storable(fields)
    ensures Encodable(Dict(Listed(fields))) && DictsProper(Dict(Listed(fields)))
    ensures StateJson(Dict(Listed(fields))) == Json.Object(members) && Json.DenoteMembers(members) == SaidOf(fields)
  {
    members := DictMembers(fields);
    hide Listed, Json.DenoteMembers, SaidOf, Encodable, DictsProper, StateJson, ToJson, Mirrors, Storable;
    forall k
      ensures k in Json.DenoteMembers(members) <==> k in SaidOf(fields)
      ensures k in SaidOf(fields) ==> Json.DenoteMembers(members)[k] == SaidOf(fields)[k]
    {
      KeySays(fields, members, k);
    }
  }

  lemma StateIs(fields: Fields)
    requires Storable(fields)
    ensures StateOf(Some(fields)) == Dict(Listed(fields))
  {
    hide Storable, Listed, Encodable, DictsProper;
  }

  /** A stored dict says, key by key, what its values mean. */
  lemma StateSays(fields: Fields)
    requires Storable(fields)
    ensures ReadState(StateOf(Some(fields))) == Some(SaidOf(fields))
  {
    hide Listed, Json.Denote, Json.DenoteMembers, SaidOf, Encodable, DictsProper, StateJson, StateOf, Storable;
    var members := MembersSay(fields);
    AuditRows.DenoteIs(members);
    StateIs(fields);
  }

  /** A row made of a storable entry says what the entry says, in every column. */
  lemma ContentSays(e: AuditEntry, r: Row)
    requires StorableEntry(e) && r.columns.content == ContentOf(e)
    ensures ReadBack(r) == SaidBy(e)
  {
    hide StateJson, Storable, Listed, SaidOf, StateOf, ReadState;
    OptionSays(e.before);
    OptionSays(e.after);
  }

  lemma OptionSays(fields: Option<Fields>)
    requires fields.Some? ==> Storable(fields.value)
    ensures ReadState(StateOf(fields)) == SaidOption(fields)
  {
    if fields.Some? {
      StateSays(fields.value);
    } else {
      assert ToJson(NoneValue) == Some(Json.Null);
    }
  }

  // ----- the table and the log -----

  /** The audit row has its chain row, and that was made of its entry. */
  predicate MadeOf(a: AuditRow) {
    a.row.Some? && a.row.value.columns.content == ContentOf(a.entry)
  }

  function TableOf(log: seq<AuditRow>): (rows: seq<Row>)
    requires forall i :: 0 <= i < |log| ==> MadeOf(log[i])
    ensures |rows| == |log|
  {
    seq(|log|, i requires 0 <= i < |log| && MadeOf(log[i]) => log[i].row.value)
  }

  ghost predicate AllMade(log: seq<AuditRow>) {
    forall i :: 0 <= i < |log| ==> MadeOf(log[i])
  }

  /** The pending audit rows that have a chain row have the right one. */
  ghost predicate PendingMade(pending: seq<Pending>) {
    forall i :: 0 <= i < |pending| && pending[i].Audit? && pending[i].row.row.Some? ==> MadeOf(pending[i].row)
  }

  /** The rows of a batch carry the ids and times drawn for them, and what their entries say. */
  lemma ChainedSays(suite: Suite, table: seq<Row>, entries: seq<AuditEntry>, drawn: Drawn, i: nat)
    requires i < |entries|
    ensures var c := ChainedOn(suite, table, entries, drawn)[i].columns;
            c.id == drawn.keys(i).id && c.createdAt == drawn.keys(i).at && c.content == ContentOf(entries[i])
  {
    hide ContentOf, RowInput, LastHash;
    ChainRowsAt(suite, drawn.today, LastHash(table), ColumnsOf(entries, drawn), i);
  }

  lemma {:induction false} FinalisedMade(pending: seq<Pending>, rows: seq<Row>)
    requires PendingMade(pending) && |rows| == |Unchained(pending)|
    requires forall i :: 0 <= i < |rows| ==> rows[i].columns.content == ContentOf(Unchained(pending)[i])
    ensures PendingMade(Finalised(pending, rows)) && AllMade(AuditsIn(Finalised(pending, rows)))
    ensures Waiting(Finalised(pending, rows)) == TableOf(AuditsIn(Finalised(pending, rows)))
  {
    hide ContentOf;
    if pending != [] {
      var (init, p) := (pending[..|pending| - 1], pending[|pending| - 1]);
      var isNew := p.Audit? && p.row.row.None?;
      var rest := if isNew then rows[..|rows| - 1] else rows;
      FinalisedMade(init, rest);
      var (some, all) := (Finalised(init, rest), Finalised(pending, rows));
      assert all == some + [all[|all| - 1]];
      MadeStep(some, all[|all| - 1]);
    } else {
      assert Finalised(pending, rows) == [];
    }
  }

  lemma MadeStep(some: seq<Pending>, p: Pending)
    requires PendingMade(some) && AllMade(AuditsIn(some)) && Waiting(some) == TableOf(AuditsIn(some))
    requires p.Audit? ==> MadeOf(p.row)
    ensures PendingMade(some + [p]) && AllMade(AuditsIn(some + [p]))
    ensures Waiting(some + [p]) == TableOf(AuditsIn(some + [p]))
  {
    hide ContentOf;
    assert (some + [p])[..|some|] == some;
    if p.Audit? {
      assert TableOf(AuditsIn(some) + [p.row]) == TableOf(AuditsIn(some)) + [p.row.row.value];
    }
  }

  lemma ChainedMade(suite: Suite, table: seq<Row>, pending: seq<Pending>, drawn: Drawn)
    requires PendingMade(pending)
    ensures var all := Finalised(pending, ChainedOn(suite, table, Unchained(pending), drawn));
            PendingMade(all) && AllMade(AuditsIn(all)) && Waiting(all) == TableOf(AuditsIn(all))
  {
    hide ContentOf, MadeOf;
    forall i | 0 <= i < |Unchained(pending)|
      ensures ChainedOn(suite, table, Unchained(pending), drawn)[i].columns.content == ContentOf(Unchained(pending)[i])
    {
      ChainedSays(suite, table, Unchained(pending), drawn, i);
    }
    FinalisedMade(pending, ChainedOn(suite, table, Unchained(pending), drawn));
  }

  lemma FreshMade(entries: seq<AuditEntry>, origin: Origin)
    ensures PendingMade(Fresh(entries, origin))
  {
  }

  /** The tables hold what the log says, so far. */
  ghost predicate InStep(start: AuditSession.State, s: AuditSession.State) {
    AllMade(s.log) && PendingMade(s.pending) && s.table == start.table + TableOf(s.log)
  }

  lemma FlushKeepsStep(
    suite: Suite, start: AuditSession.State, w: AuditSession.State, actor: Option<Actor>, first: Drawn, second: Drawn)
    requires InStep(start, w)
    ensures InStep(start, Flushed(suite, w, actor, first, second))
  {
    hide MadeOf, ChainedOn, Unchained, Waiting, AuditsIn, Finalised, Fresh, EntriesOf, Enforced, Written, PendingMade;
    if !w.Clean() {
      ChainedMade(suite, w.table, w.pending, first);
      var e := Executed(Prepared(suite, w, first));
      LogGrows(start.table, w.log, AuditsIn(Prepared(suite, w, first).pending));
      var entries := EntriesOf(UnitOf(e, actor));
      FreshUnchained(entries, Hook);
      FreshMade(entries, Hook);
      ChainedMade(suite, e.table, Fresh(entries, Hook), second);
    }
  }

  lemma LogGrows(table: seq<Row>, log: seq<AuditRow>, more: seq<AuditRow>)
    requires AllMade(log) && AllMade(more)
    ensures AllMade(log + more) && table + TableOf(log) + TableOf(more) == table + TableOf(log + more)
  {
    hide MadeOf;
  }

  lemma WorkKeepsStep(start: AuditSession.State, s: AuditSession.State, t: Turn)
    requires InStep(start, s) && Unhashed(t.adds)
    ensures InStep(start, Worked(s, t))
  {
    hide MadeOf;
  }

  /** Whatever the turns, the inserted rows are those of the log in its order, each made of its entry. */
  lemma {:induction false} TableIsLog(suite: Suite, actor: Option<Actor>, start: AuditSession.State, turns: seq<Turn>)
    requires start.Clean() && start.log == [] && AllUnhashed(turns)
    ensures InStep(start, After(suite, actor, start, turns))
  {
    hide Flushed, MadeOf, Unhashed;
    if turns == [] {
      assert start.table + [] == start.table;
    } else {
      var (init, t) := (turns[..|turns| - 1], turns[|turns| - 1]);
      assert AllUnhashed(init) && Unhashed(t.adds);
      TableIsLog(suite, actor, start, init);
      var before := After(suite, actor, start, init);
      hide InStep;
      WorkKeepsStep(start, before, t);
      FlushKeepsStep(suite, start, Worked(before, t), actor, t.first, t.second);
    }
  }

  // ----- replaying the stored rows -----

  function SaidView(view: Database): map<Ident, Said> {
    map x | x in view :: SaidOf(view[x])
  }

  /** One stored row read forwards. */
  function RedoStored(view: map<Ident, Said>, e: Stored): map<Ident, Said> {
    var x := Ident(e.table, e.id);
    if e.action == "create" then (if e.after.Some? then view[x := e.after.value] else view)
    else if e.action == "update" then
      (if e.after.Some? && x in view then view[x := view[x] + e.after.value] else view)
    else if e.action == "delete" then view - {x}
    else view
  }

  function ReplayStored(view: map<Ident, Said>, rows: seq<Row>): map<Ident, Said> {
    if rows == [] then view
    else RedoStored(ReplayStored(view, rows[..|rows| - 1]), ReadBack(rows[|rows| - 1]))
  }

  lemma SaidMerge(a: Fields, b: Fields)
    requires Storable(b)
    ensures SaidOf(a + b) == SaidOf(a) + SaidOf(b)
  {
    hide ToJson, Json.Denote;
    forall k | k in b ensures ToJson(b[k]).Some? {
      EncodableIffToJson(b[k]);
    }
  }

  lemma RedoSaid(view: Database, e: AuditEntry)
    requires StorableEntry(e)
    ensures SaidView(Redo(view, e)) == RedoStored(SaidView(view), SaidBy(e))
  {
    hide SaidOf, Storable;
    match e.action
    case Create =>
    case Update =>
      if e.after.Some? && e.ident in view {
        SaidMerge(view[e.ident], e.after.value);
      }
    case Delete =>
    case Other(_) =>
  }

  ghost predicate AllStorable(log: seq<AuditRow>) {
    forall i :: 0 <= i < |log| ==> StorableEntry(log[i].entry)
  }

  /** Replaying stored rows is replaying the entries they were made of. */
  lemma {:induction false} StoredIsReplay(view: Database, log: seq<AuditRow>)
    requires AllMade(log) && AllStorable(log)
    ensures ReplayStored(SaidView(view), TableOf(log)) == SaidView(Replay(view, EntriesIn(log)))
  {
    hide SaidView, RedoStored, ReadBack, Redo, MadeOf, StorableEntry, SaidBy;
    if log != [] {
      var (init, last) := (log[..|log| - 1], log[|log| - 1]);
      assert TableOf(log)[..|log| - 1] == TableOf(init);
      StoredIsReplay(view, init);
      RedoSaid(Replay(view, EntriesIn(init)), last.entry);
      assert MadeOf(last) && StorableEntry(last.entry);
      LastSays(last);
      ReplayLast(view, EntriesIn(init), last.entry);
    }
  }

  lemma LastSays(a: AuditRow)
    requires MadeOf(a) && StorableEntry(a.entry)
    ensures ReadBack(a.row.value) == SaidBy(a.entry)
  {
    hide ContentOf;
    ContentSays(a.entry, a.row.value);
  }

  ghost predicate SaidAlike(a: map<Ident, Said>, b: map<Ident, Said>, x: Ident) {
    (x in a <==> x in b) && (x in a ==> a[x] == b[x])
  }

  /** What the inserted rows say, read back from the table, are the entries in their order. */
  lemma StoredLog(suite: Suite, actor: Option<Actor>, start: AuditSession.State, turns: seq<Turn>, i: nat)
    requires start.Clean() && start.log == [] && AllUnhashed(turns)
    requires AllStorable(After(suite, actor, start, turns).log) && i < |After(suite, actor, start, turns).log|
    ensures var s := After(suite, actor, start, turns);
            |s.table| == |start.table| + |s.log| && ReadBack(s.table[|start.table| + i]) == SaidBy(s.log[i].entry)
  {
    hide After, ReadBack, SaidBy, StorableEntry, MadeOf;
    TableIsLog(suite, actor, start, turns);
    var s := After(suite, actor, start, turns);
    assert MadeOf(s.log[i]) && StorableEntry(s.log[i].entry);
    LastSays(s.log[i]);
  }

  /**
   * Once nothing waits, replaying the rows read back from the table rebuilds, in JSON terms, every audited identity
   * that no directly added create, update or delete row names.
   */
  lemma StoredTableReplays(suite: Suite, actor: Option<Actor>, start: AuditSession.State, turns: seq<Turn>, x: Ident)
    requires start.Clean() && start.log == [] && AllUnhashed(turns)
    requires After(suite, actor, start, turns).pending == []
    requires forall f :: f in UnitsOf(suite, actor, start, turns) ==> HeldOnce(f)
    requires AlwaysShown(start.db, UnitsOf(suite, actor, start, turns))
    requires DirectElsewhere(After(suite, actor, start, turns).log, x)
    requires AllStorable(After(suite, actor, start, turns).log)
    ensures var s := After(suite, actor, start, turns);
            && |start.table| <= |s.table|
            && SaidAlike(ReplayStored(SaidView(View(start.db)), s.table[|start.table|..]), SaidView(View(s.db)), x)
  {
    hide After, UnitsOf, HeldOnce, AlwaysShown, DirectElsewhere, View, EntriesIn, Replay, ReplayStored, SaidOf, MadeOf;
    TableReplays(suite, actor, start, turns, x);
    TableIsLog(suite, actor, start, turns);
    var s := After(suite, actor, start, turns);
    assert s.table[|start.table|..] == TableOf(s.log);
    StoredIsReplay(View(start.db), s.log);
  }

  // ----- rows added directly -----

  /** The entries of the rows that services added. */
  function DirectEntries(rows: seq<AuditRow>): seq<AuditEntry> {
    if rows == [] then []
    else
      var (rest, r) := (DirectEntries(rows[..|rows| - 1]), rows[|rows| - 1]);
      if r.origin.Direct? then rest + [r.entry] else rest
  }

  lemma {:induction false} DirectConcat(a: seq<AuditRow>, b: seq<AuditRow>)
    ensures DirectEntries(a + b) == DirectEntries(a) + DirectEntries(b)
  {
    if b == [] {
      assert a + b == a && DirectEntries(a) + [] == DirectEntries(a);
    } else {
      var init := b[..|b| - 1];
      assert (a + b)[..|a + b| - 1] == a + init && (a + b)[|a + b| - 1] == b[|b| - 1];
      DirectConcat(a, init);
    }
  }

  lemma DirectLast(rows: seq<AuditRow>, r: AuditRow)
    ensures DirectEntries(rows + [r])
         == if r.origin.Direct? then DirectEntries(rows) + [r.entry] else DirectEntries(rows)
  {
    assert (rows + [r])[..|rows|] == rows;
  }

  lemma {:induction false} FinalisedDirect(pending: seq<Pending>, rows: seq<Row>)
    requires |rows| == |Unchained(pending)|
    ensures DirectEntries(AuditsIn(Finalised(pending, rows))) == DirectEntries(AuditsIn(pending))
  {
    hide DirectEntries;
    if pending != [] {
      var (init, p) := (pending[..|pending| - 1], pending[|pending| - 1]);
      var rest := if p.Audit? && p.row.row.None? then rows[..|rows| - 1] else rows;
      FinalisedDirect(init, rest);
      FinalisedAudits(pending, rows);
      hide Finalised, Unchained;
      if p.Audit? {
        var row := if p.row.row.None? then Some(rows[|rows| - 1]) else p.row.row;
        DirectLast(AuditsIn(init), p.row);
        DirectLast(AuditsIn(Finalised(init, rest)), p.row.(row := row));
      }
    }
  }

  lemma {:induction false} HooksAreNotDirect(entries: seq<AuditEntry>)
    ensures DirectEntries(AuditsIn(Fresh(entries, Hook))) == []
  {
    var pending := Fresh(entries, Hook);
    if entries != [] {
      var init := entries[..|entries| - 1];
      assert pending[..|pending| - 1] == Fresh(init, Hook);
      HooksAreNotDirect(init);
      DirectLast(AuditsIn(Fresh(init, Hook)), pending[|pending| - 1].row);
    }
  }

  /** The rows added directly, inserted and then waiting. */
  function DirectLog(s: AuditSession.State): seq<AuditEntry> {
    DirectEntries(s.log) + DirectEntries(AuditsIn(s.pending))
  }

  lemma FlushKeepsDirect(suite: Suite, w: AuditSession.State, actor: Option<Actor>, first: Drawn, second: Drawn)
    ensures DirectLog(Flushed(suite, w, actor, first, second)) == DirectLog(w)
    ensures DirectEntries(AuditsIn(Flushed(suite, w, actor, first, second).pending)) == []
            || (w.Clean() && Flushed(suite, w, actor, first, second) == w)
  {
    hide DirectEntries, AuditsIn, Finalised, Fresh, Unchained, ChainedOn, EntriesOf, Written, Enforced, Waiting;
    if !w.Clean() {
      var rows := ChainedOn(suite, w.table, Unchained(w.pending), first);
      FinalisedDirect(w.pending, rows);
      DirectConcat(w.log, AuditsIn(Finalised(w.pending, rows)));
      var e := Executed(Prepared(suite, w, first));
      var entries := EntriesOf(UnitOf(e, actor));
      FreshUnchained(entries, Hook);
      FinalisedDirect(Fresh(entries, Hook), ChainedOn(suite, e.table, entries, second));
      HooksAreNotDirect(entries);
      assert DirectEntries(e.log) + [] == DirectEntries(e.log);
    }
  }

  /** What services add in a run, in order. */
  function Added(turns: seq<Turn>): seq<AuditEntry> {
    if turns == [] then []
    else Added(turns[..|turns| - 1]) + DirectEntries(AuditsIn(turns[|turns| - 1].adds))
  }

  /** Every row a service added is inserted by the next flush, in its order, once, and none is made up. */
  lemma {:induction false} DirectRowsInserted(
    suite: Suite, actor: Option<Actor>, start: AuditSession.State, turns: seq<Turn>)
    requires start.Clean() && start.log == []
    ensures DirectEntries(After(suite, actor, start, turns).log) == Added(turns)
    ensures DirectEntries(AuditsIn(After(suite, actor, start, turns).pending)) == []
  {
    if turns == [] {
    } else {
      hide Flushed, DirectEntries, AuditsIn;
      var (init, t) := (turns[..|turns| - 1], turns[|turns| - 1]);
      DirectRowsInserted(suite, actor, start, init);
      var before := After(suite, actor, start, init);
      var w := Worked(before, t);
      AuditsConcat(before.pending, t.adds);
      DirectConcat(AuditsIn(before.pending), AuditsIn(t.adds));
      FlushKeepsDirect(suite, w, actor, t.first, t.second);
      var s := After(suite, actor, start, turns);
      assert DirectLog(w) == DirectEntries(before.log) + ([] + DirectEntries(AuditsIn(t.adds)));
      assert [] + DirectEntries(AuditsIn(t.adds)) == DirectEntries(AuditsIn(t.adds));
      if w.Clean() {
        assert w.pending == before.pending + t.adds == [];
        assert t.adds == [] && before.pending == [];
        assert DirectEntries(AuditsIn([])) == [] by { NoneDirect(); }
      } else {
        assert DirectEntries(s.log) + [] == DirectEntries(s.log);
      }
    }
  }

  lemma NoneDirect()
    ensures DirectEntries(AuditsIn([])) == []
  {
  }
}
