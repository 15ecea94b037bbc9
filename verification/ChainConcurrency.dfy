/**
 * Transactions that write audit rows side by side. Each step is one database statement or one turn of the
 * loop in `finalize_chain`; steps of different transactions interleave freely. A transaction may run
 * `finalize_chain` again while rows it chained before still wait for their INSERT.
 */
module ChainConcurrency {
  import opened Common
  import opened Calendar
  import opened AuditRows
  import opened AuditChain
  import opened ChainBinding
  import ChainRuns

  /** Where a transaction is in `finalize_chain`: outside, with the tail just read, or past an entry. */
  datatype Loop = Outside | TailRead(prev: Option<Digest>) | Going(prev: Option<Digest>)

  /**
   * Rows inserted but not committed, rows chained but not inserted, the loop, and a history: whether the
   * transaction ever read the tail while rows it had chained were waiting.
   */
  datatype Transaction = Transaction(own: seq<Row>, pending: seq<Row>, loop: Loop, misread: bool)

  const FRESH := Transaction([], [], Outside, false)

  /** The committed rows, the lock, the transactions, and whether one that misread the tail has committed. */
  datatype State = State(committed: seq<Row>, lock: Option<nat>, running: map<nat, Transaction>, misread: bool)
  {
    function Get(t: nat): Transaction {
      if t in running then running[t] else FRESH
    }

    /** What a statement of the transaction sees: the committed rows and its own. */
    function Visible(t: nat): seq<Row> {
      committed + Get(t).own
    }
  }

  datatype Action =
    | TakeLock(t: nat)
    | ReadTail(t: nat)
    | ChainEntry(t: nat, today: Day, columns: Columns)
    | EndChain(t: nat)
    | InsertRows(t: nat)
    | Commit(t: nat)
    | Abort(t: nat)

  /**
   * When a step can happen. The advisory lock is free or already held by the transaction; `finalize_chain`
   * runs under it, on at least one entry; a new entry comes after every row the transaction can see or has
   * chained; a commit flushes first.
   */
  predicate Enabled(s: State, a: Action) {
    var tx := s.Get(a.t);
    match a
    case TakeLock(t) => tx.loop.Outside? && (s.lock == None || s.lock == Some(t))
    case ReadTail(t) => tx.loop.Outside? && s.lock == Some(t)
    case ChainEntry(t, _, c) =>
      !tx.loop.Outside? && forall r :: r in s.Visible(t) + tx.pending ==> ChainRuns.ColumnsBefore(r.columns, c)
    case EndChain(t) => tx.loop.Going?
    case InsertRows(t) => tx.loop.Outside?
    case Commit(t) => tx.loop.Outside? && tx.pending == []
    case Abort(_) => true
  }

  function Released(s: State, t: nat): Option<nat> {
    if s.lock == Some(t) then None else s.lock
  }

  function With(s: State, t: nat, tx: Transaction): State {
    s.(running := s.running[t := tx])
  }

  function Next(suite: Suite, s: State, a: Action): State
    requires Enabled(s, a)
  {
    var tx := s.Get(a.t);
    match a
    case TakeLock(t) => s.(lock := Some(t))
    case ReadTail(t) =>
      With(s, t, tx.(loop := TailRead(LastHash(s.Visible(t))), misread := tx.misread || tx.pending != []))
    case ChainEntry(t, today, c) =>
      var r := ChainRow(suite, today, tx.loop.prev, c);
      With(s, t, tx.(pending := tx.pending + [r], loop := Going(Some(r.rowHash))))
    case EndChain(t) => With(s, t, tx.(loop := Outside))
    case InsertRows(t) => With(s, t, tx.(own := tx.own + tx.pending, pending := []))
    case Commit(t) => State(s.Visible(t), Released(s, t), s.running[t := FRESH], s.misread || tx.misread)
    case Abort(t) => s.(lock := Released(s, t), running := s.running[t := FRESH])
  }

  // ----- the invariant -----

  /** A single chain in (created_at, id) order. */
  ghost predicate OneChain(hash: Hash, rows: seq<Row>) {
    Linked(hash, None, rows) && InOrder(rows)
  }

  /** Two rows point back to one predecessor. */
  ghost predicate Forked(rows: seq<Row>) {
    exists i, j :: 0 <= i < j < |rows| && rows[i].prevHash == rows[j].prevHash
  }

  ghost predicate AllSound(hash: Hash, rows: seq<Row>) {
    InOrder(rows) && forall i :: 0 <= i < |rows| ==> HashSound(hash, rows[i])
  }

  /** All rows as the holder of the lock is about to leave them. */
  function Whole(s: State, t: nat): seq<Row> {
    s.Visible(t) + s.Get(t).pending
  }

  /** What the rows come to, misread tail or not. */
  ghost predicate Outcome(hash: Hash, rows: seq<Row>, misread: bool) {
    AllSound(hash, rows) && if misread then Forked(rows) else Linked(hash, None, rows)
  }

  /**
   * The holder of the lock: the first of its waiting rows was chained on the tail it still sees; where it has
   * misread that tail, the next entry will share that predecessor, or one already does.
   */
  ghost predicate Holder(hash: Hash, s: State, t: nat) {
    var (tx, misread) := (s.Get(t), s.misread || s.Get(t).misread);
    && AllSound(hash, Whole(s, t))
    && (tx.pending != [] ==> tx.pending[0].prevHash == LastHash(s.Visible(t)))
    && (tx.loop.TailRead? ==> tx.loop.prev == LastHash(s.Visible(t)))
    && (tx.loop.Going? ==> tx.pending != [])
    && (!misread ==>
          && Linked(hash, None, Whole(s, t))
          && (!tx.loop.Outside? ==> tx.loop.prev == ExpectedPrev(None, Whole(s, t), |Whole(s, t)|)))
    && (misread ==> Forked(Whole(s, t)) || (tx.loop.TailRead? && tx.pending != []))
  }

  ghost predicate Invariant(hash: Hash, s: State) {
    && (forall t: nat :: s.lock != Some(t) ==> s.Get(t) == FRESH)
    && Outcome(hash, s.committed, s.misread)
    && (forall t: nat :: s.lock == Some(t) ==> Holder(hash, s, t))
  }

  lemma LinkGrows(hash: Hash, rows: seq<Row>, r: Row)
    requires Linked(hash, None, rows) && HashSound(hash, r) && r.prevHash == ExpectedPrev(None, rows, |rows|)
    ensures Linked(hash, None, rows + [r])
  {
    hide HashSound;
    var all := rows + [r];
    forall i | 0 <= i < |all|
      ensures all[i].prevHash == ExpectedPrev(None, all, i) && HashSound(hash, all[i])
    {
      assert i < |rows| ==> all[i] == rows[i] && ExpectedPrev(None, all, i) == ExpectedPrev(None, rows, i);
    }
  }

  lemma OrderGrows(rows: seq<Row>, r: Row)
    requires InOrder(rows) && forall x :: x in rows ==> ChainRuns.ColumnsBefore(x.columns, r.columns)
    ensures InOrder(rows + [r])
  {
    var all := rows + [r];
    forall i, j | 0 <= i < j < |all| ensures Before(all[i], all[j]) {
      assert all[i] == rows[i] && rows[i] in rows;
      assert j < |rows| ==> all[j] == rows[j];
    }
  }

  lemma SoundGrows(hash: Hash, rows: seq<Row>, r: Row)
    requires AllSound(hash, rows) && HashSound(hash, r)
    requires forall x :: x in rows ==> ChainRuns.ColumnsBefore(x.columns, r.columns)
    ensures AllSound(hash, rows + [r])
  {
    hide HashSound, ChainRuns.ColumnsBefore, Before;
    OrderGrows(rows, r);
  }

  lemma ForkStays(rows: seq<Row>, more: seq<Row>)
    requires rows <= more && Forked(rows)
    ensures Forked(more)
  {
    var i, j :| 0 <= i < j < |rows| && rows[i].prevHash == rows[j].prevHash;
    assert more[i] == rows[i] && more[j] == rows[j];
  }

  lemma TailOfChain(hash: Hash, rows: seq<Row>)
    requires OneChain(hash, rows)
    ensures LastHash(rows) == ExpectedPrev(None, rows, |rows|)
  {
    hide LastHash, Linked, ExpectedPrev, InOrder;
    ChainRuns.TailOfOrdered(rows);
  }

  lemma AllSoundPrefix(hash: Hash, rows: seq<Row>, more: seq<Row>)
    requires rows <= more && AllSound(hash, more)
    ensures AllSound(hash, rows)
  {
    hide HashSound, Before;
    forall i, j | 0 <= i < j < |rows| ensures Before(rows[i], rows[j]) {
      assert rows[i] == more[i] && rows[j] == more[j];
    }
    forall i | 0 <= i < |rows| ensures HashSound(hash, rows[i]) {
      assert rows[i] == more[i];
    }
  }

  lemma LinkedPart(hash: Hash, rows: seq<Row>, more: seq<Row>)
    requires rows <= more && Linked(hash, None, more)
    ensures Linked(hash, None, rows)
  {
    assert rows == more[..|rows|];
    LinkedPrefix(hash, more, |rows|);
  }

  lemma StepKeepsInvariant(suite: Suite, s: State, a: Action)
    requires Invariant(suite.hash, s) && Enabled(s, a)
    ensures Invariant(suite.hash, Next(suite, s, a))
  {
    hide Holder, Outcome, ChainRow, LastHash, ChainRuns.ColumnsBefore, ExpectedPrev;
    match a
    case TakeLock(t) => LockKeepsInvariant(suite, s, t);
    case ReadTail(t) => ReadKeepsInvariant(suite, s, t);
    case ChainEntry(t, today, c) => EntryKeepsInvariant(suite, s, t, today, c);
    case EndChain(t) => EndKeepsInvariant(suite, s, t);
    case InsertRows(t) => InsertKeepsInvariant(suite, s, t);
    case Commit(t) => CommitKeepsInvariant(suite, s, t);
    case Abort(t) => OthersUntouched(suite, s, a);
  }

  lemma LockKeepsInvariant(suite: Suite, s: State, t: nat)
    requires Invariant(suite.hash, s) && Enabled(s, TakeLock(t))
    ensures Invariant(suite.hash, Next(suite, s, TakeLock(t)))
  {
    hide AllSound, Forked, Linked, LastHash;
    var s' := Next(suite, s, TakeLock(t));
    if s.lock == None {
      assert Whole(s', t) == s.committed;
    } else {
      assert s' == s;
    }
  }

  lemma ReadKeepsInvariant(suite: Suite, s: State, t: nat)
    requires Invariant(suite.hash, s) && Enabled(s, ReadTail(t))
    ensures Invariant(suite.hash, Next(suite, s, ReadTail(t)))
  {
    hide Forked, Linked, LastHash, HashSound, Before;
    var (tx, s') := (s.Get(t), Next(suite, s, ReadTail(t)));
    assert Whole(s', t) == Whole(s, t);
    if tx.pending == [] {
      assert Whole(s, t) == s.Visible(t);
      if !s.misread && !tx.misread {
        TailOfChain(suite.hash, s.Visible(t));
      }
    }
  }

  lemma EntryKeepsInvariant(suite: Suite, s: State, t: nat, today: Day, c: Columns)
    requires Invariant(suite.hash, s) && Enabled(s, ChainEntry(t, today, c))
    ensures Invariant(suite.hash, Next(suite, s, ChainEntry(t, today, c)))
  {
    hide Forked, Linked, LastHash, RowInput, ChainRuns.ColumnsBefore, Before, UtcDay, AllSound, ExpectedPrev, Outcome;
    var (tx, s') := (s.Get(t), Next(suite, s, ChainEntry(t, today, c)));
    var r := ChainRow(suite, today, tx.loop.prev, c);
    var (rows, all) := (Whole(s, t), Whole(s', t));
    assert all == rows + [r];
    SoundGrows(suite.hash, rows, r);
    EntryLinks(suite.hash, s, t, r);
    assert ExpectedPrev(None, all, |all|) == Some(r.rowHash) by { LastExpected(rows, r); }
    hide HashSound;
  }

  lemma LastExpected(rows: seq<Row>, r: Row)
    ensures ExpectedPrev(None, rows + [r], |rows| + 1) == Some(r.rowHash)
  {
  }

  /** A new entry continues the chain, or, where the tail was misread, shares the predecessor of a waiting row. */
  lemma EntryLinks(hash: Hash, s: State, t: nat, r: Row)
    requires Holder(hash, s, t) && !s.Get(t).loop.Outside? && HashSound(hash, r) && r.prevHash == s.Get(t).loop.prev
    ensures !(s.misread || s.Get(t).misread) ==> Linked(hash, None, Whole(s, t) + [r])
    ensures s.misread || s.Get(t).misread ==> Forked(Whole(s, t) + [r])
    ensures (s.Get(t).pending + [r])[0].prevHash == LastHash(s.Visible(t))
  {
    hide HashSound, AllSound, LastHash, Linked, Forked;
    var (tx, rows) := (s.Get(t), Whole(s, t));
    if !(s.misread || tx.misread) {
      LinkGrows(hash, rows, r);
    } else if Forked(rows) {
      ForkStays(rows, rows + [r]);
    } else {
      SharedPredecessor(s.Visible(t), tx.pending, r);
    }
  }

  lemma SharedPredecessor(seen: seq<Row>, pending: seq<Row>, r: Row)
    requires pending != [] && pending[0].prevHash == r.prevHash
    ensures Forked(seen + pending + [r])
  {
    var all := seen + pending + [r];
    assert all[|seen|] == pending[0] && all[|seen| + |pending|] == r;
  }

  lemma EndKeepsInvariant(suite: Suite, s: State, t: nat)
    requires Invariant(suite.hash, s) && Enabled(s, EndChain(t))
    ensures Invariant(suite.hash, Next(suite, s, EndChain(t)))
  {
    hide Forked, Linked, LastHash, AllSound, Outcome;
    var s' := Next(suite, s, EndChain(t));
    assert Whole(s', t) == Whole(s, t);
  }

  lemma InsertKeepsInvariant(suite: Suite, s: State, t: nat)
    requires Invariant(suite.hash, s) && Enabled(s, InsertRows(t))
    ensures Invariant(suite.hash, Next(suite, s, InsertRows(t)))
  {
    hide Forked, Linked, LastHash, AllSound, Outcome;
    var s' := Next(suite, s, InsertRows(t));
    assert Whole(s', t) == Whole(s, t);
    assert s.lock != Some(t) ==> s'.Get(t) == FRESH;
  }

  lemma CommitKeepsInvariant(suite: Suite, s: State, t: nat)
    requires Invariant(suite.hash, s) && Enabled(s, Commit(t))
    ensures Invariant(suite.hash, Next(suite, s, Commit(t)))
  {
    hide Forked, Linked, LastHash, AllSound;
    if s.lock == Some(t) {
      assert Holder(suite.hash, s, t);
      assert Whole(s, t) == s.Visible(t);
    } else {
      assert s.Get(t) == FRESH && s.Visible(t) == s.committed;
      OthersUntouched(suite, s, Commit(t));
    }
  }

  /** A commit or an abort leaves the holder of the lock, if it is another transaction, where it was. */
  lemma OthersUntouched(suite: Suite, s: State, a: Action)
    requires Invariant(suite.hash, s) && Enabled(s, a) && (a.Commit? || a.Abort?)
    requires a.Commit? ==> s.lock != Some(a.t)
    ensures Invariant(suite.hash, Next(suite, s, a))
  {
    hide Forked, Linked, LastHash, AllSound, Outcome;
    var s' := Next(suite, s, a);
    assert s.lock != Some(a.t) ==> s.Get(a.t) == FRESH && s.Visible(a.t) == s.committed;
    forall t: nat | t != a.t
      ensures s'.Get(t) == s.Get(t)
    {
    }
    forall t: nat | s'.lock == Some(t) ensures Holder(suite.hash, s', t) {
      assert s.lock == Some(t) && t != a.t;
      assert s'.committed == s.committed && s'.misread == s.misread;
      assert Holder(suite.hash, s, t);
    }
  }

  // ----- every reachable state -----

  /** The states a system can reach from a table that holds one chain, with no transaction running. */
  ghost predicate IsRun(suite: Suite, states: seq<State>, actions: seq<Action>) {
    && |states| == |actions| + 1
    && states[0].lock == None && states[0].running == map[] && !states[0].misread
    && OneChain(suite.hash, states[0].committed)
    && forall i :: 0 <= i < |actions| ==>
         Enabled(states[i], actions[i]) && states[i + 1] == Next(suite, states[i], actions[i])
  }

  lemma LinkedIsSound(hash: Hash, rows: seq<Row>)
    requires OneChain(hash, rows)
    ensures Outcome(hash, rows, false)
  {
    hide HashSound;
  }

  lemma {:induction false} ReachableInvariant(suite: Suite, states: seq<State>, actions: seq<Action>, i: nat)
    requires IsRun(suite, states, actions) && i < |states|
    ensures Invariant(suite.hash, states[i])
  {
    hide Next, Enabled, Holder, Outcome;
    if i == 0 {
      LinkedIsSound(suite.hash, states[0].committed);
    } else {
      ReachableInvariant(suite, states, actions, i - 1);
      StepKeepsInvariant(suite, states[i - 1], actions[i - 1]);
    }
  }

  /** The transaction, still running before step `n`, has read the tail while rows it had chained were waiting. */
  ghost predicate OpenMisread(states: seq<State>, actions: seq<Action>, n: nat, t: nat) {
    exists i :: MisreadAt(states, actions, n, t, i)
  }

  ghost predicate MisreadAt(states: seq<State>, actions: seq<Action>, n: nat, t: nat, i: nat) {
    && i < n <= |actions| && n < |states| && actions[i] == ReadTail(t) && states[i].Get(t).pending != []
    && forall k :: i < k < n ==> actions[k] != Commit(t) && actions[k] != Abort(t)
  }

  /** A transaction that did so has committed before step `n`. */
  ghost predicate Misread(states: seq<State>, actions: seq<Action>, n: nat) {
    exists j: nat :: j < n <= |actions| && actions[j].Commit? && OpenMisread(states, actions, j, actions[j].t)
  }

  lemma MisreadStep(states: seq<State>, actions: seq<Action>, n: nat, t: nat)
    requires 0 < n <= |actions| && n < |states|
    ensures OpenMisread(states, actions, n, t)
       <==> (actions[n - 1] == ReadTail(t) && states[n - 1].Get(t).pending != [])
            || (OpenMisread(states, actions, n - 1, t) && actions[n - 1] != Commit(t) && actions[n - 1] != Abort(t))
  {
    if i: nat :| MisreadAt(states, actions, n, t, i) {
      if i < n - 1 {
        assert MisreadAt(states, actions, n - 1, t, i);
      }
    }
    if actions[n - 1] == ReadTail(t) && states[n - 1].Get(t).pending != [] {
      assert MisreadAt(states, actions, n, t, n - 1);
    }
    if OpenMisread(states, actions, n - 1, t) && actions[n - 1] != Commit(t) && actions[n - 1] != Abort(t) {
      var i :| MisreadAt(states, actions, n - 1, t, i);
      assert MisreadAt(states, actions, n, t, i);
    }
  }

  lemma TransactionStep(suite: Suite, s: State, a: Action, t: nat)
    requires Enabled(s, a)
    ensures Next(suite, s, a).Get(t).misread
       <==> (a == ReadTail(t) && s.Get(t).pending != []) || (s.Get(t).misread && a != Commit(t) && a != Abort(t))
    ensures Next(suite, s, a).misread <==> s.misread || (a.Commit? && s.Get(a.t).misread)
  {
    hide ChainRow, LastHash;
  }

  lemma {:induction false} TransactionMisread(
    suite: Suite, states: seq<State>, actions: seq<Action>, n: nat, t: nat)
    requires IsRun(suite, states, actions) && n < |states|
    ensures states[n].Get(t).misread <==> OpenMisread(states, actions, n, t)
  {
    hide Next, Enabled, OneChain;
    if n > 0 {
      TransactionMisread(suite, states, actions, n - 1, t);
      MisreadStep(states, actions, n, t);
      TransactionStep(suite, states[n - 1], actions[n - 1], t);
    }
  }

  /** The history fields say what happened. */
  lemma {:induction false} CommittedMisread(suite: Suite, states: seq<State>, actions: seq<Action>, n: nat)
    requires IsRun(suite, states, actions) && n < |states|
    ensures states[n].misread <==> Misread(states, actions, n)
  {
    hide Next, Enabled, OneChain, OpenMisread;
    if n > 0 {
      CommittedMisread(suite, states, actions, n - 1);
      var a := actions[n - 1];
      TransactionStep(suite, states[n - 1], a, a.t);
      TransactionMisread(suite, states, actions, n - 1, a.t);
      if j: nat :| j < n && actions[j].Commit? && OpenMisread(states, actions, j, actions[j].t) {
        assert j < n - 1 ==> Misread(states, actions, n - 1);
      }
      if Misread(states, actions, n - 1) {
        var j: nat :| j < n - 1 && actions[j].Commit? && OpenMisread(states, actions, j, actions[j].t);
        assert Misread(states, actions, n);
      }
      if a.Commit? && OpenMisread(states, actions, n - 1, a.t) {
        assert Misread(states, actions, n);
      }
    }
  }

  // ----- what is committed -----

  /** The transaction neither commits nor rolls back from step `i` up to step `n`. */
  ghost predicate Stays(actions: seq<Action>, t: nat, i: nat, n: nat)
    requires i <= n <= |actions|
  {
    forall k :: i <= k < n ==> actions[k] != Commit(t) && actions[k] != Abort(t)
  }

  /** The row that the entry of step `i` becomes. */
  function RowAt(suite: Suite, states: seq<State>, actions: seq<Action>, i: nat): Row
    requires i < |actions| && i < |states| && actions[i].ChainEntry? && !states[i].Get(actions[i].t).loop.Outside?
  {
    ChainRow(suite, actions[i].today, states[i].Get(actions[i].t).loop.prev, actions[i].columns)
  }

  /** Step `i` chained the row in the transaction `t`. */
  ghost predicate Chains(suite: Suite, states: seq<State>, actions: seq<Action>, t: nat, i: nat, r: Row) {
    && i < |actions| && i < |states| && actions[i].ChainEntry? && actions[i].t == t
    && !states[i].Get(t).loop.Outside? && r == RowAt(suite, states, actions, i)
  }

  /** Before step `n`: chained at step `i`, and not inserted since, nor has its transaction ended. */
  ghost predicate WaitsFrom(suite: Suite, states: seq<State>, actions: seq<Action>, n: nat, t: nat, r: Row, i: nat) {
    && i < n <= |actions| && Chains(suite, states, actions, t, i, r) && Stays(actions, t, i, n)
    && forall k :: i <= k < n ==> actions[k] != InsertRows(t)
  }

  ghost predicate Waits(suite: Suite, states: seq<State>, actions: seq<Action>, n: nat, t: nat, r: Row) {
    exists i: nat :: WaitsFrom(suite, states, actions, n, t, r, i)
  }

  /** Before step `n`: chained at step `i`, inserted at step `j`, and the transaction has not ended since. */
  ghost predicate InsertedFrom(
    suite: Suite, states: seq<State>, actions: seq<Action>, n: nat, t: nat, r: Row, i: nat, j: nat) {
    && i < j < n <= |actions| && Chains(suite, states, actions, t, i, r)
    && actions[j] == InsertRows(t) && Stays(actions, t, i, n)
  }

  ghost predicate Inserted(suite: Suite, states: seq<State>, actions: seq<Action>, n: nat, t: nat, r: Row) {
    exists i: nat, j: nat :: InsertedFrom(suite, states, actions, n, t, r, i, j)
  }

  /**
   * Before step `n`: chained at step `i` by a transaction that inserted it at step `j` and committed at step `k`,
   * and that neither committed nor rolled back between.
   */
  ghost predicate CommittedFrom(
    suite: Suite, states: seq<State>, actions: seq<Action>, n: nat, r: Row, i: nat, j: nat, k: nat) {
    && i < j < k < n <= |actions| && actions[k].Commit?
    && Chains(suite, states, actions, actions[k].t, i, r)
    && actions[j] == InsertRows(actions[k].t) && Stays(actions, actions[k].t, i, k)
  }

  ghost predicate Committed(suite: Suite, states: seq<State>, actions: seq<Action>, n: nat, r: Row) {
    exists i: nat, j: nat, k: nat :: CommittedFrom(suite, states, actions, n, r, i, j, k)
  }

  lemma WaitsStep(suite: Suite, states: seq<State>, actions: seq<Action>, n: nat, t: nat, r: Row)
    requires 0 < n <= |actions|
    ensures var a := actions[n - 1];
            (Waits(suite, states, actions, n, t, r)
             <==> Chains(suite, states, actions, t, n - 1, r)
                  || (Waits(suite, states, actions, n - 1, t, r)
                      && a != InsertRows(t) && a != Commit(t) && a != Abort(t)))
  {
    hide Chains;
    var a := actions[n - 1];
    if i: nat :| WaitsFrom(suite, states, actions, n, t, r, i) {
      if i < n - 1 {
        assert WaitsFrom(suite, states, actions, n - 1, t, r, i);
      }
    }
    if Chains(suite, states, actions, t, n - 1, r) {
      assert a.ChainEntry? by { ChainsEntry(suite, states, actions, t, n - 1, r); }
      assert WaitsFrom(suite, states, actions, n, t, r, n - 1);
    }
    if Waits(suite, states, actions, n - 1, t, r) && a != InsertRows(t) && a != Commit(t) && a != Abort(t) {
      var i: nat :| WaitsFrom(suite, states, actions, n - 1, t, r, i);
      assert WaitsFrom(suite, states, actions, n, t, r, i);
    }
  }

  lemma ChainsEntry(suite: Suite, states: seq<State>, actions: seq<Action>, t: nat, i: nat, r: Row)
    requires Chains(suite, states, actions, t, i, r)
    ensures i < |actions| && actions[i].ChainEntry?
  {
  }

  lemma InsertedStep(suite: Suite, states: seq<State>, actions: seq<Action>, n: nat, t: nat, r: Row)
    requires 0 < n <= |actions|
    ensures var a := actions[n - 1];
            (Inserted(suite, states, actions, n, t, r)
             <==> a != Commit(t) && a != Abort(t)
                  && (Inserted(suite, states, actions, n - 1, t, r)
                      || (a == InsertRows(t) && Waits(suite, states, actions, n - 1, t, r))))
  {
    hide Chains;
    var a := actions[n - 1];
    if Inserted(suite, states, actions, n, t, r) {
      var i: nat, j: nat :| InsertedFrom(suite, states, actions, n, t, r, i, j);
      FirstInsert(suite, states, actions, n, t, r, i, j);
    }
    if a != Commit(t) && a != Abort(t) {
      if Inserted(suite, states, actions, n - 1, t, r) {
        var i: nat, j: nat :| InsertedFrom(suite, states, actions, n - 1, t, r, i, j);
        assert InsertedFrom(suite, states, actions, n, t, r, i, j);
      }
      if a == InsertRows(t) && Waits(suite, states, actions, n - 1, t, r) {
        var i: nat :| WaitsFrom(suite, states, actions, n - 1, t, r, i);
        assert InsertedFrom(suite, states, actions, n, t, r, i, n - 1);
      }
    }
  }

  /** Some insert of the row came before the last step, or the last step is the first. */
  lemma FirstInsert(
    suite: Suite, states: seq<State>, actions: seq<Action>, n: nat, t: nat, r: Row, i: nat, j: nat)
    requires InsertedFrom(suite, states, actions, n, t, r, i, j)
    ensures Inserted(suite, states, actions, n - 1, t, r)
            || (actions[n - 1] == InsertRows(t) && Waits(suite, states, actions, n - 1, t, r))
  {
    hide Chains;
    if k: nat :| i < k < n - 1 && actions[k] == InsertRows(t) {
      assert InsertedFrom(suite, states, actions, n - 1, t, r, i, k);
    } else {
      assert j == n - 1;
      assert actions[i].ChainEntry? by { ChainsEntry(suite, states, actions, t, i, r); }
      assert WaitsFrom(suite, states, actions, n - 1, t, r, i);
    }
  }

  lemma CommittedStep(suite: Suite, states: seq<State>, actions: seq<Action>, n: nat, r: Row)
    requires 0 < n <= |actions|
    ensures var a := actions[n - 1];
            (Committed(suite, states, actions, n, r)
             <==> Committed(suite, states, actions, n - 1, r)
                  || (a.Commit? && Inserted(suite, states, actions, n - 1, a.t, r)))
  {
    hide Chains, Stays;
    var a := actions[n - 1];
    if Committed(suite, states, actions, n, r) {
      var i: nat, j: nat, k: nat :| CommittedFrom(suite, states, actions, n, r, i, j, k);
      if k < n - 1 {
        assert CommittedFrom(suite, states, actions, n - 1, r, i, j, k);
      } else {
        assert InsertedFrom(suite, states, actions, n - 1, a.t, r, i, j);
      }
    }
    if Committed(suite, states, actions, n - 1, r) {
      var i: nat, j: nat, k: nat :| CommittedFrom(suite, states, actions, n - 1, r, i, j, k);
      assert CommittedFrom(suite, states, actions, n, r, i, j, k);
    }
    if a.Commit? && Inserted(suite, states, actions, n - 1, a.t, r) {
      var i: nat, j: nat :| InsertedFrom(suite, states, actions, n - 1, a.t, r, i, j);
      assert CommittedFrom(suite, states, actions, n, r, i, j, n - 1);
    }
  }

  /** What one step does to the rows of each transaction and to the committed ones. */
  lemma RowsStep(suite: Suite, s: State, a: Action, t: nat, r: Row)
    requires Enabled(s, a)
    ensures var (tx, s', tx') := (s.Get(t), Next(suite, s, a), Next(suite, s, a).Get(t));
            && (r in tx'.pending <==>
                  (a.ChainEntry? && a.t == t && !tx.loop.Outside?
                   && r == ChainRow(suite, a.today, tx.loop.prev, a.columns))
                  || (r in tx.pending && a != InsertRows(t) && a != Commit(t) && a != Abort(t)))
            && (r in tx'.own <==>
                  a != Commit(t) && a != Abort(t) && (r in tx.own || (a == InsertRows(t) && r in tx.pending)))
            && (r in s'.committed <==> r in s.committed || (a.Commit? && r in s.Get(a.t).own))
  {
    hide ChainRow, LastHash, ChainRuns.ColumnsBefore;
  }

  /** The rows a transaction has waiting, and those it has inserted, are the ones the run says. */
  lemma {:induction false} TransactionRows(
    suite: Suite, states: seq<State>, actions: seq<Action>, n: nat, t: nat, r: Row)
    requires IsRun(suite, states, actions) && n < |states|
    ensures r in states[n].Get(t).pending <==> Waits(suite, states, actions, n, t, r)
    ensures r in states[n].Get(t).own <==> Inserted(suite, states, actions, n, t, r)
  {
    hide Next, Enabled, OneChain, Waits, Inserted, ChainRow;
    if n == 0 {
      NothingYet(suite, states, actions, t, r);
    } else {
      TransactionRows(suite, states, actions, n - 1, t, r);
      WaitsStep(suite, states, actions, n, t, r);
      InsertedStep(suite, states, actions, n, t, r);
      RowsStep(suite, states[n - 1], actions[n - 1], t, r);
    }
  }

  lemma NothingYet(suite: Suite, states: seq<State>, actions: seq<Action>, t: nat, r: Row)
    ensures !Waits(suite, states, actions, 0, t, r) && !Inserted(suite, states, actions, 0, t, r)
    ensures !Committed(suite, states, actions, 0, r)
  {
  }

  /**
   * In every reachable state a row is committed exactly if it was there from the start, or was chained and then
   * inserted by a transaction that committed afterwards, with neither a commit nor an abort between.
   */
  lemma {:induction false} CommittedExactly(suite: Suite, states: seq<State>, actions: seq<Action>, n: nat, r: Row)
    requires IsRun(suite, states, actions) && n < |states|
    ensures r in states[n].committed <==> r in states[0].committed || Committed(suite, states, actions, n, r)
  {
    hide Next, Enabled, OneChain, Committed, Inserted, Waits, ChainRow;
    if n == 0 {
      NothingYet(suite, states, actions, 0, r);
    } else {
      var a := actions[n - 1];
      CommittedExactly(suite, states, actions, n - 1, r);
      CommittedStep(suite, states, actions, n, r);
      RowsStep(suite, states[n - 1], a, a.t, r);
      TransactionRows(suite, states, actions, n - 1, a.t, r);
    }
  }

  /** The transaction took the lock at step `i`, before step `n`, and has not ended since. */
  ghost predicate TookLock(actions: seq<Action>, n: nat, t: nat) {
    exists i :: 0 <= i < n <= |actions| && actions[i] == TakeLock(t) && Stays(actions, t, i, n)
  }

  lemma LockStep(suite: Suite, s: State, a: Action, t: nat)
    requires Enabled(s, a)
    ensures Next(suite, s, a).lock == Some(t)
       <==> a == TakeLock(t) || (s.lock == Some(t) && a != Commit(t) && a != Abort(t))
  {
    hide ChainRow, LastHash, ChainRuns.ColumnsBefore;
  }

  lemma TookLockStep(actions: seq<Action>, n: nat, t: nat)
    requires 0 < n <= |actions|
    ensures var a := actions[n - 1];
            (TookLock(actions, n, t)
             <==> a == TakeLock(t) || (TookLock(actions, n - 1, t) && a != Commit(t) && a != Abort(t)))
  {
    var a := actions[n - 1];
    if i :| 0 <= i < n && actions[i] == TakeLock(t) && Stays(actions, t, i, n) {
      assert i < n - 1 ==> Stays(actions, t, i, n - 1);
    }
    if a == TakeLock(t) {
      assert Stays(actions, t, n - 1, n);
    }
    if TookLock(actions, n - 1, t) && a != Commit(t) && a != Abort(t) {
      var i :| 0 <= i < n - 1 && actions[i] == TakeLock(t) && Stays(actions, t, i, n - 1);
      assert Stays(actions, t, i, n);
    }
  }

  /** A transaction holds the lock exactly from taking it to its commit or its abort. */
  lemma {:induction false} LockExactly(suite: Suite, states: seq<State>, actions: seq<Action>, n: nat, t: nat)
    requires IsRun(suite, states, actions) && n < |states|
    ensures states[n].lock == Some(t) <==> TookLock(actions, n, t)
  {
    hide Next, Enabled, OneChain, TookLock;
    if n == 0 {
      assert !TookLock(actions, 0, t) by { NotTookYet(actions, t); }
    } else {
      LockExactly(suite, states, actions, n - 1, t);
      TookLockStep(actions, n, t);
      LockStep(suite, states[n - 1], actions[n - 1], t);
    }
  }

  lemma NotTookYet(actions: seq<Action>, t: nat)
    ensures !TookLock(actions, 0, t)
  {
  }

  /** Rows at different places of a chain have different hashes, or there is a collision. */
  lemma DifferentRows(hash: Hash, rows: seq<Row>, i: nat, j: nat) returns (f: Finding)
    requires OneChain(hash, rows) && i < j < |rows| && rows[i].rowHash == rows[j].rowHash
    ensures f.Sound(hash) && f.Collision?
  {
    hide RowInput;
    assert Before(rows[i], rows[j]);
    assert HashSound(hash, rows[i]) && HashSound(hash, rows[j]);
    f := RowBinding(hash, rows[i], rows[j]);
  }

  /** Two rows of one chain that share a predecessor are a collision. */
  lemma NoFork(hash: Hash, rows: seq<Row>) returns (f: Finding)
    requires OneChain(hash, rows)
    ensures f.Sound(hash) && !f.ZeroHash?
    ensures f.Same? ==> forall i, j :: 0 <= i < j < |rows| ==> rows[i].prevHash != rows[j].prevHash
  {
    hide HashSound, Before, Linked;
    if i, j :| 0 <= i < j < |rows| && rows[i].prevHash == rows[j].prevHash {
      ForkPoint(hash, rows, i, j);
      f := DifferentRows(hash, rows, i - 1, j - 1);
    } else {
      f := Same;
    }
  }

  lemma ForkPoint(hash: Hash, rows: seq<Row>, i: nat, j: nat)
    requires Linked(hash, None, rows) && i < j < |rows| && rows[i].prevHash == rows[j].prevHash
    ensures i > 0 && rows[i - 1].rowHash == rows[j - 1].rowHash
  {
    hide HashSound;
    assert rows[i].prevHash == ExpectedPrev(None, rows, i) && rows[j].prevHash == ExpectedPrev(None, rows, j);
  }

  /**
   * Whatever the interleaving of commits and aborts, the committed rows form one chain in the order in which
   * they are read back exactly if no committed transaction read the tail while rows it had chained were
   * waiting; where one did, two committed rows share a prev_hash. Or there is a collision.
   */
  lemma ReachableNoFork(suite: Suite, states: seq<State>, actions: seq<Action>, n: nat) returns (f: Finding)
    requires IsRun(suite, states, actions) && n < |states|
    ensures f.Sound(suite.hash) && !f.ZeroHash?
    ensures var (rows, misread) := (states[n].committed, Misread(states, actions, n));
            && SortRows(rows) == rows
            && (!misread ==> Linked(suite.hash, None, rows))
            && (misread ==> Forked(rows))
            && (f.Same? ==> (Linked(suite.hash, None, rows) <==> !misread) && (Forked(rows) <==> misread))
  {
    ReachableInvariant(suite, states, actions, n);
    CommittedMisread(suite, states, actions, n);
    hide IsRun, Linked, Before, Misread;
    var rows := states[n].committed;
    ChainRuns.SortedAlready(rows);
    f := Same;
    if Linked(suite.hash, None, rows) {
      f := NoFork(suite.hash, rows);
    }
  }

  /**
   * An input: one transaction chains an entry and, before inserting it, chains another; both are committed
   * behind the same predecessor.
   */
  lemma SecondFinalizeForks(suite: Suite, s: State, today: Day, first: Columns, second: Columns)
    returns (states: seq<State>, actions: seq<Action>)
    requires s.lock == None && s.running == map[] && !s.misread && OneChain(suite.hash, s.committed)
    requires forall r :: r in s.committed ==>
               ChainRuns.ColumnsBefore(r.columns, first) && ChainRuns.ColumnsBefore(r.columns, second)
    requires ChainRuns.ColumnsBefore(first, second)
    ensures actions == [TakeLock(0), ReadTail(0), ChainEntry(0, today, first), EndChain(0), TakeLock(0), ReadTail(0),
                        ChainEntry(0, today, second), EndChain(0), InsertRows(0), Commit(0)]
    ensures IsRun(suite, states, actions) && states[0] == s
    ensures var tail := LastHash(s.committed);
            states[10].committed
            == s.committed + [ChainRow(suite, today, tail, first), ChainRow(suite, today, tail, second)]
    ensures Forked(states[10].committed)
  {
    hide ChainRow, LastHash, ChainRuns.ColumnsBefore, OneChain;
    var tail := LastHash(s.committed);
    var (e, d) := (ChainRow(suite, today, tail, first), ChainRow(suite, today, tail, second));
    RowOf(suite, today, tail, first);
    var t2 := Transaction([], [], TailRead(tail), false);
    var t3 := Transaction([], [e], Going(Some(e.rowHash)), false);
    var t4 := Transaction([], [e], Outside, false);
    var t6 := Transaction([], [e], TailRead(tail), true);
    var t7 := Transaction([], [e, d], Going(Some(d.rowHash)), true);
    var t8 := Transaction([], [e, d], Outside, true);
    var t9 := Transaction([e, d], [], Outside, true);
    var s10 := State(s.committed + [e, d], None, map[0 := FRESH], true);
    assert s.committed + [] == s.committed && [] + [e] == [e] && [e] + [d] == [e, d] && [] + [e, d] == [e, d];
    HeldSteps(suite, s, FRESH);
    HeldEntry(suite, s, t2, today, first);
    HeldSteps(suite, s, t3);
    HeldSteps(suite, s, t4);
    HeldEntry(suite, s, t6, today, second);
    HeldSteps(suite, s, t7);
    HeldSteps(suite, s, t8);
    HeldEnds(suite, s, t9);
    hide Held, Next, Enabled;
    states, actions := TenSteps(
      suite, s, Held(s, FRESH), Held(s, t2), Held(s, t3), Held(s, t4), Held(s, t6), Held(s, t7), Held(s, t8),
      Held(s, t9), s10, today, first, second);
    RowOf(suite, today, tail, second);
    TwoShare(s.committed, e, d);
  }

  lemma TwoShare(rows: seq<Row>, e: Row, d: Row)
    requires e.prevHash == d.prevHash
    ensures Forked(rows + [e, d])
  {
    assert (rows + [e, d])[|rows|] == e && (rows + [e, d])[|rows| + 1] == d;
  }

  /** Transaction 0 holds the lock and is the only one that runs. */
  ghost function Held(s: State, tx: Transaction): State {
    State(s.committed, Some(0), if tx == FRESH then map[] else map[0 := tx], s.misread)
  }

  lemma HeldSteps(suite: Suite, s: State, tx: Transaction)
    requires s.lock == None && s.running == map[]
    ensures Enabled(s, TakeLock(0)) && Next(suite, s, TakeLock(0)) == Held(s, FRESH)
    ensures Enabled(Held(s, tx), TakeLock(0)) <==> tx.loop.Outside?
    ensures tx.loop.Outside? ==>
              && Next(suite, Held(s, tx), TakeLock(0)) == Held(s, tx)
              && Enabled(Held(s, tx), ReadTail(0))
              && Next(suite, Held(s, tx), ReadTail(0))
              == Held(s, tx.(loop := TailRead(LastHash(s.committed + tx.own)),
                             misread := tx.misread || tx.pending != []))
              && Enabled(Held(s, tx), InsertRows(0))
              && (tx.pending != [] ==>
                    Next(suite, Held(s, tx), InsertRows(0)) == Held(s, tx.(own := tx.own + tx.pending, pending := [])))
    ensures tx.loop.Going? && tx.pending != [] ==>
              && Enabled(Held(s, tx), EndChain(0))
              && Next(suite, Held(s, tx), EndChain(0)) == Held(s, tx.(loop := Outside))
  {
    hide LastHash;
    assert Held(s, tx).Get(0) == tx;
  }

  lemma HeldEntry(suite: Suite, s: State, tx: Transaction, today: Day, c: Columns)
    requires !tx.loop.Outside? && tx.own == []
    requires forall r :: r in s.committed + tx.pending ==> ChainRuns.ColumnsBefore(r.columns, c)
    ensures Enabled(Held(s, tx), ChainEntry(0, today, c))
    ensures var r := ChainRow(suite, today, tx.loop.prev, c);
            Next(suite, Held(s, tx), ChainEntry(0, today, c))
            == Held(s, tx.(pending := tx.pending + [r], loop := Going(Some(r.rowHash))))
  {
    hide ChainRow, ChainRuns.ColumnsBefore;
    assert Held(s, tx).Get(0) == tx && s.committed + [] == s.committed;
  }

  lemma HeldEnds(suite: Suite, s: State, tx: Transaction)
    requires tx.loop.Outside? && tx.pending == [] && tx.own != []
    ensures Enabled(Held(s, tx), Commit(0))
    ensures Next(suite, Held(s, tx), Commit(0))
         == State(s.committed + tx.own, None, map[0 := FRESH], s.misread || tx.misread)
  {
    assert Held(s, tx).Get(0) == tx;
  }

  /** The steps of the input, put together. */
  lemma TenSteps(
    suite: Suite, s: State, s1: State, s2: State, s3: State, s4: State, s6: State, s7: State, s8: State, s9: State,
    s10: State, today: Day, first: Columns, second: Columns)
    returns (states: seq<State>, actions: seq<Action>)
    requires s.lock == None && s.running == map[] && !s.misread && OneChain(suite.hash, s.committed)
    requires Enabled(s, TakeLock(0)) && s1 == Next(suite, s, TakeLock(0))
    requires Enabled(s1, ReadTail(0)) && s2 == Next(suite, s1, ReadTail(0))
    requires Enabled(s2, ChainEntry(0, today, first)) && s3 == Next(suite, s2, ChainEntry(0, today, first))
    requires Enabled(s3, EndChain(0)) && s4 == Next(suite, s3, EndChain(0))
    requires Enabled(s4, TakeLock(0)) && s4 == Next(suite, s4, TakeLock(0))
    requires Enabled(s4, ReadTail(0)) && s6 == Next(suite, s4, ReadTail(0))
    requires Enabled(s6, ChainEntry(0, today, second)) && s7 == Next(suite, s6, ChainEntry(0, today, second))
    requires Enabled(s7, EndChain(0)) && s8 == Next(suite, s7, EndChain(0))
    requires Enabled(s8, InsertRows(0)) && s9 == Next(suite, s8, InsertRows(0))
    requires Enabled(s9, Commit(0)) && s10 == Next(suite, s9, Commit(0))
    ensures actions == [TakeLock(0), ReadTail(0), ChainEntry(0, today, first), EndChain(0), TakeLock(0), ReadTail(0),
                        ChainEntry(0, today, second), EndChain(0), InsertRows(0), Commit(0)]
    ensures IsRun(suite, states, actions) && states[0] == s && states[10] == s10
  {
    hide Next, Enabled, OneChain;
    states := [s, s1, s2, s3, s4, s4, s6, s7, s8, s9, s10];
    actions := [TakeLock(0), ReadTail(0), ChainEntry(0, today, first), EndChain(0), TakeLock(0), ReadTail(0),
                ChainEntry(0, today, second), EndChain(0), InsertRows(0), Commit(0)];
  }

  lemma RowOf(suite: Suite, today: Day, prev: Option<Digest>, c: Columns)
    ensures ChainRow(suite, today, prev, c).prevHash == prev && ChainRow(suite, today, prev, c).columns == c
  {
  }

  /** Nothing that was committed is ever lost or changed. */
  lemma {:induction false} CommittedOnlyGrows(
    suite: Suite, states: seq<State>, actions: seq<Action>, i: nat, j: nat)
    requires IsRun(suite, states, actions) && i <= j < |states|
    ensures states[i].committed <= states[j].committed
  {
    hide OneChain, ChainRow, LastHash;
    if i < j {
      CommittedOnlyGrows(suite, states, actions, i, j - 1);
    }
  }
}
