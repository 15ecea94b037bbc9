/** Which entries a flush gets, in which order, and what each of them holds. */
module ListenerEntries {
  import opened Common
  import opened PyValues
  import opened AuditListener
  import opened AuditReplay

  const UNAUDITED := {"", "audit_logs", "audit_checkpoints", "alembic_version"}
  const SECRETS := {"hashed_password", "mfa_secret", "mfa_backup_codes"}

  lemma SkipsAre(table: string)
    ensures Skips(table) <==> table in UNAUDITED
    ensures forall row :: Audit(row).Table() in UNAUDITED
  {
  }

  lemma SensitiveAre(key: string)
    ensures key in SENSITIVE_FIELDS <==> key in SECRETS
  {
  }

  ghost predicate Mentions(entries: seq<AuditEntry>, action: Action, x: Ident) {
    exists e :: e in entries && e.action == action && e.ident == x
  }

  lemma MentionsLast(entries: seq<AuditEntry>, e: AuditEntry, action: Action, x: Ident)
    ensures Mentions(entries + [e], action, x) <==> Mentions(entries, action, x) || (e.action == action && e.ident == x)
  {
    if Mentions(entries, action, x) {
      var m :| m in entries && m.action == action && m.ident == x;
      assert m in entries + [e];
    }
    assert e in entries + [e];
  }

  lemma {:induction false} CreatesExactly(pending: seq<Pending>, actor: Option<Actor>, x: Ident)
    ensures Mentions(Creates(pending, actor), Create, x) <==> x in Created(pending) && x.table !in UNAUDITED
  {
    if pending != [] {
      var (init, p) := (pending[..|pending| - 1], pending[|pending| - 1]);
      CreatesExactly(init, actor, x);
      assert pending == init + [p];
      assert Created(pending) == Created(init) + if p.Entity? then {p.instance.ident} else {};
      SkipsAre(p.Table());
      hide Mentions, Created, ToDict, Skips;
      if p.Entity? {
        MentionsLast(Creates(init, actor),
                     AuditEntry(Create, p.instance.ident, None, Some(ToDict(p.instance.columns)), actor), Create, x);
      }
    }
  }

  lemma {:induction false} DeletesExactly(deleted: seq<Instance>, actor: Option<Actor>, x: Ident)
    ensures Mentions(Deletes(deleted, actor), Delete, x) <==> x in Deleted(deleted) && x.table !in UNAUDITED
  {
    if deleted != [] {
      var (init, y) := (deleted[..|deleted| - 1], deleted[|deleted| - 1]);
      DeletesExactly(init, actor, x);
      assert deleted == init + [y];
      assert Deleted(deleted) == Deleted(init) + {y.ident};
      SkipsAre(y.ident.table);
      hide Mentions, Deleted, ToDict, Skips;
      MentionsLast(Deletes(init, actor), AuditEntry(Delete, y.ident, Some(ToDict(y.columns)), None, actor), Delete, x);
    }
  }

  /** Some attribute that may be shown has changes. */
  ghost predicate Reports(attrs: seq<Attr>) {
    exists i :: 0 <= i < |attrs| && attrs[i].changed && attrs[i].key !in SECRETS
  }

  lemma {:induction false} ReportsExactly(attrs: seq<Attr>)
    ensures AfterOf(attrs) != map[] <==> Reports(attrs)
  {
    hide Serialize;
    if attrs != [] {
      var (init, a) := (attrs[..|attrs| - 1], attrs[|attrs| - 1]);
      ReportsExactly(init);
      SensitiveAre(a.key);
      if i :| 0 <= i < |init| && init[i].changed && init[i].key !in SECRETS {
        assert attrs[i].changed && attrs[i].key !in SECRETS;
      }
      if a.changed && a.key !in SECRETS {
        assert attrs[|init|].changed && attrs[|init|].key !in SECRETS;
        assert a.key in AfterOf(attrs);
      }
    }
  }

  ghost predicate UpdateReports(dirty: seq<Dirty>, x: Ident) {
    exists i :: 0 <= i < |dirty| && dirty[i].ident == x && Reports(dirty[i].attrs)
  }

  lemma {:induction false} UpdatesExactly(dirty: seq<Dirty>, actor: Option<Actor>, x: Ident)
    ensures Mentions(Updates(dirty, actor), Update, x) <==> UpdateReports(dirty, x) && x.table !in UNAUDITED
  {
    if dirty != [] {
      var (init, d) := (dirty[..|dirty| - 1], dirty[|dirty| - 1]);
      UpdatesExactly(init, actor, x);
      SkipsAre(d.ident.table);
      ReportsExactly(d.attrs);
      hide Mentions, BeforeOf, AfterOf, Skips, Reports;
      MentionsLast(Updates(init, actor),
                   AuditEntry(Update, d.ident, Some(BeforeOf(d.attrs)), Some(AfterOf(d.attrs)), actor), Update, x);
      if i :| 0 <= i < |init| && init[i].ident == x && Reports(init[i].attrs) {
        assert dirty[i].ident == x && Reports(dirty[i].attrs);
      }
      if d.ident == x && Reports(d.attrs) {
        assert dirty[|init|].ident == x && Reports(dirty[|init|].attrs);
      }
    }
  }

  function Rank(a: Action): nat {
    match a
    case Create => 0
    case Update => 1
    case Delete => 2
    case Other(_) => 3
  }

  /** What an entry holds, by its action: no state before a create and none after a delete. */
  ghost predicate Shaped(e: AuditEntry, action: Action, actor: Option<Actor>) {
    && e.action == action && e.actor == actor
    && (e.before.Some? <==> !action.Create?) && (e.after.Some? <==> !action.Delete?)
    && (action.Update? ==> e.after.value != map[])
  }

  lemma {:induction false} CreatesShaped(pending: seq<Pending>, actor: Option<Actor>)
    ensures forall e :: e in Creates(pending, actor) ==> Shaped(e, Create, actor)
  {
    hide ToDict;
    if pending != [] {
      CreatesShaped(pending[..|pending| - 1], actor);
    }
  }

  lemma {:induction false} UpdatesShaped(dirty: seq<Dirty>, actor: Option<Actor>)
    ensures forall e :: e in Updates(dirty, actor) ==> Shaped(e, Update, actor)
  {
    hide BeforeOf, AfterOf;
    if dirty != [] {
      UpdatesShaped(dirty[..|dirty| - 1], actor);
    }
  }

  lemma {:induction false} DeletesShaped(deleted: seq<Instance>, actor: Option<Actor>)
    ensures forall e :: e in Deletes(deleted, actor) ==> Shaped(e, Delete, actor)
  {
    hide ToDict;
    if deleted != [] {
      DeletesShaped(deleted[..|deleted| - 1], actor);
    }
  }

  lemma MentionsOf(entries: seq<AuditEntry>, action: Action, other: Action, actor: Option<Actor>, x: Ident)
    requires (forall e :: e in entries ==> Shaped(e, action, actor)) && other != action
    ensures !Mentions(entries, other, x)
  {
  }

  lemma MentionsConcat(a: seq<AuditEntry>, b: seq<AuditEntry>, c: seq<AuditEntry>, action: Action, x: Ident)
    ensures Mentions(a + b + c, action, x)
       <==> Mentions(a, action, x) || Mentions(b, action, x) || Mentions(c, action, x)
  {
    var all := a + b + c;
    forall e ensures e in all <==> e in a || e in b || e in c {
    }
  }

  /**
   * A flush gets a create entry for exactly the new rows, an update entry for exactly the changed rows with a
   * change that may be shown, and a delete entry for exactly the deleted rows, all of audited tables.
   */
  lemma EntriesExactly(f: UnitOfWork, x: Ident)
    ensures Mentions(EntriesOf(f), Create, x) <==> x in Created(f.pending) && x.table !in UNAUDITED
    ensures Mentions(EntriesOf(f), Update, x) <==> UpdateReports(f.dirty, x) && x.table !in UNAUDITED
    ensures Mentions(EntriesOf(f), Delete, x) <==> x in Deleted(f.deleted) && x.table !in UNAUDITED
  {
    hide Mentions, Creates, Updates, Deletes, Created, Deleted, UpdateReports;
    var (c, u, d) := (Creates(f.pending, f.actor), Updates(f.dirty, f.actor), Deletes(f.deleted, f.actor));
    CreatesExactly(f.pending, f.actor, x);
    UpdatesExactly(f.dirty, f.actor, x);
    DeletesExactly(f.deleted, f.actor, x);
    CreatesShaped(f.pending, f.actor);
    UpdatesShaped(f.dirty, f.actor);
    DeletesShaped(f.deleted, f.actor);
    MentionsConcat(c, u, d, Create, x);
    MentionsConcat(c, u, d, Update, x);
    MentionsConcat(c, u, d, Delete, x);
    MentionsOf(c, Create, Update, f.actor, x);
    MentionsOf(c, Create, Delete, f.actor, x);
    MentionsOf(u, Update, Create, f.actor, x);
    MentionsOf(u, Update, Delete, f.actor, x);
    MentionsOf(d, Delete, Create, f.actor, x);
    MentionsOf(d, Delete, Update, f.actor, x);
  }

  /** Creates come first, then updates, then deletes; each has the actor of the request and the states of its kind. */
  lemma EntriesInOrder(f: UnitOfWork)
    ensures var es := EntriesOf(f);
            && (forall i, j :: 0 <= i < j < |es| ==> Rank(es[i].action) <= Rank(es[j].action))
            && (forall i :: 0 <= i < |es| ==> Shaped(es[i], es[i].action, f.actor) && Rank(es[i].action) < 3)
  {
    hide Creates, Updates, Deletes;
    CreatesShaped(f.pending, f.actor);
    UpdatesShaped(f.dirty, f.actor);
    DeletesShaped(f.deleted, f.actor);
    var (c, u, d) := (Creates(f.pending, f.actor), Updates(f.dirty, f.actor), Deletes(f.deleted, f.actor));
    var es := c + u + d;
    forall i | 0 <= i < |es|
      ensures Shaped(es[i], if i < |c| then Create else if i < |c| + |u| then Update else Delete, f.actor)
    {
      assert if i < |c| then es[i] in c else if i < |c| + |u| then es[i] in u else es[i] in d;
    }
  }

  /** No entry shows a password, an MFA secret or an MFA backup code. */
  lemma SecretsNeverShown(f: UnitOfWork, e: AuditEntry, key: string)
    requires e in EntriesOf(f) && key in SECRETS
    ensures e.before.Some? ==> key !in e.before.value
    ensures e.after.Some? ==> key !in e.after.value
  {
    hide EntriesOf;
    SensitiveNeverShown(f);
    SensitiveAre(key);
  }
}
