/** What `verify_day` answers after any interleaving of transactions and signatures. */
module ChainVerdict {
  import opened Common
  import opened Calendar
  import opened AuditRows
  import opened AuditChain
  import opened ChainConcurrency
  import ChainRuns
  import Merkle

  /** The row stands on its own UTC day and is keyed to it. */
  ghost predicate Keyed(suite: Suite, r: Row) {
    r.dayBucket == UtcDay(r.columns.createdAt) && r.mac == suite.mac(suite.dailyKey(r.dayBucket), r.rowHash)
  }

  ghost predicate AllKeyed(suite: Suite, rows: seq<Row>) {
    forall i :: 0 <= i < |rows| ==> Keyed(suite, rows[i])
  }

  /** Committed, inserted or waiting, every row is keyed to its own day. */
  ghost predicate StateKeyed(suite: Suite, s: State) {
    && AllKeyed(suite, s.committed)
    && forall t :: t in s.running ==> AllKeyed(suite, s.running[t].own) && AllKeyed(suite, s.running[t].pending)
  }

  /** An entry is keyed to the day it is about. */
  ghost predicate OwnDay(a: Action) {
    a.ChainEntry? ==> UtcDay(a.columns.createdAt) == a.today
  }

  lemma AllKeyedConcat(suite: Suite, a: seq<Row>, b: seq<Row>)
    requires AllKeyed(suite, a) && AllKeyed(suite, b)
    ensures AllKeyed(suite, a + b)
  {
    hide Keyed;
  }

  lemma EntryKeyed(suite: Suite, today: Day, prev: Option<Digest>, c: Columns)
    requires UtcDay(c.createdAt) == today
    ensures AllKeyed(suite, [ChainRow(suite, today, prev, c)])
  {
    hide UtcDay;
  }

  lemma StepKeepsKeyed(suite: Suite, s: State, a: Action)
    requires StateKeyed(suite, s) && Enabled(s, a) && OwnDay(a)
    ensures StateKeyed(suite, Next(suite, s, a))
  {
    hide AllKeyed, ChainRow, LastHash, UtcDay;
    assert AllKeyed(suite, FRESH.own) && AllKeyed(suite, FRESH.pending) by { NoneKeyed(suite); }
    var tx := s.Get(a.t);
    match a
    case ChainEntry(t, today, c) =>
      EntryKeyed(suite, today, tx.loop.prev, c);
      AllKeyedConcat(suite, tx.pending, [ChainRow(suite, today, tx.loop.prev, c)]);
    case InsertRows(t) => AllKeyedConcat(suite, tx.own, tx.pending);
    case Commit(t) => AllKeyedConcat(suite, s.committed, tx.own);
    case _ =>
  }

  lemma NoneKeyed(suite: Suite)
    ensures AllKeyed(suite, [])
  {
  }

  lemma {:induction false} ReachableKeyed(suite: Suite, states: seq<State>, actions: seq<Action>, n: nat)
    requires IsRun(suite, states, actions) && n < |states| && AllKeyed(suite, states[0].committed)
    requires forall i :: 0 <= i < n ==> OwnDay(actions[i])
    ensures StateKeyed(suite, states[n])
  {
    hide Next, Enabled, AllKeyed, OneChain, OwnDay;
    if n > 0 {
      ReachableKeyed(suite, states, actions, n - 1);
      StepKeepsKeyed(suite, states[n - 1], actions[n - 1]);
    }
  }

  /**
   * The checkpoint of a day is the one that signing it stored over the rows committed in an earlier state, and no
   * row of the day was committed since.
   */
  ghost predicate SignedAt(suite: Suite, states: seq<State>, n: nat, k: nat, day: Day, c: Checkpoint)
    requires n < |states|
  {
    && k <= n
    && (c.token.Some? ==> suite.tokenParses(c.token.value))
    && day in Sign(suite, Ledger(states[k].committed, map[]), day, c.token).checkpoints
    && c == Sign(suite, Ledger(states[k].committed, map[]), day, c.token).checkpoints[day]
    && |states[k].committed| <= |states[n].committed|
    && forall i :: |states[k].committed| <= i < |states[n].committed| ==> states[n].committed[i].dayBucket != day
  }

  lemma SignedStaysSound(
    suite: Suite, states: seq<State>, actions: seq<Action>, n: nat, k: nat, day: Day, checkpoints: map<Day, Checkpoint>)
    requires suite.Lawful() && IsRun(suite, states, actions) && n < |states| && day in checkpoints
    requires SignedAt(suite, states, n, k, day, checkpoints[day])
    ensures Ledger(states[n].committed, checkpoints).CheckpointSound(suite, day)
  {
    hide IsRun, SortRows, RowsOn, Merkle.Root, SignedMessage;
    var (rows, all) := (states[k].committed, states[n].committed);
    CommittedOnlyGrows(suite, states, actions, k, n);
    var more := all[|rows|..];
    assert all == rows + more;
    forall i | 0 <= i < |more| ensures more[i].dayBucket != day {
      assert more[i] == all[|rows| + i];
    }
    ChainRuns.RowsOnAppend(rows, more, day);
    ChainRuns.NoRowsOn(more, day);
    assert RowsOn(rows, day) + [] == RowsOn(rows, day);
    assert DayRows(all, day) == DayRows(rows, day);
  }

  lemma ReachableGood(
    suite: Suite, start: Day, states: seq<State>, actions: seq<Action>, n: nat, signed: map<Day, nat>,
    checkpoints: map<Day, Checkpoint>)
    requires suite.Lawful() && IsRun(suite, states, actions) && n < |states| && !Misread(states, actions, n)
    requires AllKeyed(suite, states[0].committed) && forall i :: 0 <= i < n ==> OwnDay(actions[i])
    requires forall day :: day in checkpoints ==>
               day in signed && SignedAt(suite, states, n, signed[day], day, checkpoints[day])
    ensures ChainRuns.Good(suite, start, 0, Ledger(states[n].committed, checkpoints))
  {
    hide IsRun, Misread, SignedAt, Before, HashSound, OwnDay, UtcDay, Ledger.CheckpointSound, ExpectedPrev;
    ReachableInvariant(suite, states, actions, n);
    CommittedMisread(suite, states, actions, n);
    ReachableKeyed(suite, states, actions, n);
    var rows := states[n].committed;
    assert Linked(suite.hash, None, rows) && InOrder(rows);
    forall i | 0 <= i < |rows| ensures ChainRuns.Chained(suite, rows, i) {
      assert Keyed(suite, rows[i]);
    }
    forall day | day in checkpoints ensures Ledger(rows, checkpoints).CheckpointSound(suite, day) {
      SignedStaysSound(suite, states, actions, n, signed[day], day, checkpoints);
    }
  }

  /**
   * After any interleaving in which no committed transaction misread the tail, with each entry keyed to its own
   * UTC day and no row committed on a day after it was signed, `verify_day` accepts a day from the chain start on
   * exactly when it holds no rows or is signed, and the only thing it can miss is the checkpoint.
   */
  lemma InterleavingsVerify(
    suite: Suite, start: Day, states: seq<State>, actions: seq<Action>, n: nat, signed: map<Day, nat>,
    checkpoints: map<Day, Checkpoint>, day: Day)
    requires suite.Lawful() && IsRun(suite, states, actions) && n < |states| && !Misread(states, actions, n)
    requires AllKeyed(suite, states[0].committed) && forall i :: 0 <= i < n ==> OwnDay(actions[i])
    requires forall d :: d in checkpoints ==> d in signed && SignedAt(suite, states, n, signed[d], d, checkpoints[d])
    requires day >= start
    ensures var ledger := Ledger(states[n].committed, checkpoints);
            && (ledger.Accepts(suite, Some(start), day) <==> DayRows(ledger.rows, day) == [] || day in checkpoints)
            && (!ledger.Accepts(suite, Some(start), day) ==> ledger.Explains(suite, Some(start), day, NoCheckpoint))
  {
    hide IsRun, Misread, SignedAt, AllKeyed, OwnDay, ChainRuns.Good, DayRows, Ledger.Explains;
    ReachableGood(suite, start, states, actions, n, signed, checkpoints);
    ChainRuns.GoodVerifies(suite, start, 0, Ledger(states[n].committed, checkpoints), day);
  }
}
