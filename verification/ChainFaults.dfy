/**
 * What `verify_day` answers when the conditions of the chain are not met: a row keyed to another day, rows that
 * sort against the chain, a fork, a day removed. And what never changes: a checkpoint.
 */
module ChainFaults {
  import opened Common
  import opened Calendar
  import opened AuditRows
  import opened AuditChain
  import opened ChainBinding
  import opened ChainRuns
  import ChainConcurrency
  import Merkle

  // ----- verification of an ordered table -----

  /** In an ordered table the i-th row fetched for a day has the table's own predecessor. */
  lemma DayInTable(suite: Suite, rows: seq<Row>, day: Day, i: nat)
    requires InOrder(rows) && Bucketed(rows) && Begin(rows, day) + i < Begin(rows, day + 1)
    ensures var (b, today) := (Begin(rows, day), DayRows(rows, day));
            && today == rows[b..Begin(rows, day + 1)] && rows[b + i].dayBucket == day
            && ExpectedPrev(TailBefore(rows, day), today, i) == ExpectedPrev(None, rows, b + i)
            && (RowSound(suite, suite.dailyKey(day), TailBefore(rows, day), today, i) <==> Chained(suite, rows, b + i))
  {
    hide RowInput, HashSound, Before, SortRows, RowsOn, RowBefore, Begin, UtcDay;
    var (b, e) := (Begin(rows, day), Begin(rows, day + 1));
    DayIsStretch(rows, day);
    SubrangeInOrder(rows, b, e);
    SortedAlready(rows[b..e]);
    TailIsRowBefore(rows, day);
    BeginCuts(rows, day);
    BeginCuts(rows, day + 1);
    assert DayRows(rows, day)[i] == rows[b + i];
  }

  /** The rows of a day pass exactly if each continues the chain, carries its hash and is keyed to its own day. */
  lemma RowsSoundInOrder(suite: Suite, rows: seq<Row>, day: Day)
    requires InOrder(rows) && Bucketed(rows)
    ensures var today := DayRows(rows, day);
            && |today| == Begin(rows, day + 1) - Begin(rows, day)
            && (RowsSound(suite, suite.dailyKey(day), TailBefore(rows, day), today, |today|)
                <==> forall j :: Begin(rows, day) <= j < Begin(rows, day + 1) ==> Chained(suite, rows, j))
  {
    hide RowInput, HashSound, Before, SortRows, RowsOn, RowBefore, Begin, UtcDay, Chained, RowSound, TailBefore;
    var (b, e) := (Begin(rows, day), Begin(rows, day + 1));
    DayIsStretch(rows, day);
    SubrangeInOrder(rows, b, e);
    SortedAlready(rows[b..e]);
    var today := DayRows(rows, day);
    forall i | 0 <= i < |today|
      ensures RowSound(suite, suite.dailyKey(day), TailBefore(rows, day), today, i) <==> Chained(suite, rows, b + i)
    {
      DayInTable(suite, rows, day, i);
    }
    if forall i :: 0 <= i < |today| ==> RowSound(suite, suite.dailyKey(day), TailBefore(rows, day), today, i) {
      forall j | b <= j < e ensures Chained(suite, rows, j) {
        assert RowSound(suite, suite.dailyKey(day), TailBefore(rows, day), today, j - b);
      }
    }
  }

  // ----- a key of another day -----

  /** A batch in order, after every stored row, but of any days. */
  ghost predicate InTime(rows: seq<Row>, batch: seq<Columns>) {
    && (forall i, j :: 0 <= i < j < |batch| ==> ColumnsBefore(batch[i], batch[j]))
    && (forall i, j :: 0 <= i < |rows| && 0 <= j < |batch| ==> ColumnsBefore(rows[i].columns, batch[j]))
  }

  /** The MAC of a day's key and of the key a row was chained under agree on its hash. */
  ghost predicate MacsAgree(suite: Suite, today: Day, r: Row) {
    suite.mac(suite.dailyKey(r.dayBucket), r.rowHash) == suite.mac(suite.dailyKey(today), r.rowHash)
  }

  /** A row of a batch continues the chain whatever its day; only its MAC may be of another day. */
  lemma BatchRowLinks(suite: Suite, rows: seq<Row>, today: Day, batch: seq<Columns>, i: nat)
    requires i < |batch| && InOrder(rows)
    ensures var (all, k) := (Appended(suite, rows, today, batch), |rows| + i);
            && all[k].columns == batch[i] && all[k].dayBucket == UtcDay(batch[i].createdAt)
            && all[k].prevHash == ExpectedPrev(None, all, k) && HashSound(suite.hash, all[k])
            && all[k].mac == suite.mac(suite.dailyKey(today), all[k].rowHash)
  {
    hide RowInput, UtcDay, ChainRows, LastHash, InOrder, ExpectedPrev;
    var prev := LastHash(rows);
    var more := ChainRows(suite, today, prev, batch);
    ChainRowsAt(suite, today, prev, batch, i);
    TailOfOrdered(rows);
    PrevAcrossSeam(rows, more, i);
    assert Appended(suite, rows, today, batch)[|rows| + i] == more[i];
  }

  lemma StaysOrdered(suite: Suite, rows: seq<Row>, today: Day, batch: seq<Columns>)
    requires InOrder(rows) && Bucketed(rows) && InTime(rows, batch)
    ensures var all := Appended(suite, rows, today, batch);
            |all| == |rows| + |batch| && InOrder(all) && Bucketed(all) && rows <= all
  {
    hide RowInput, UtcDay, ChainRows, LastHash, HashSound, ExpectedPrev, ColumnsBefore;
    var all := Appended(suite, rows, today, batch);
    forall k | 0 <= k < |all| ensures all[k].dayBucket == UtcDay(all[k].columns.createdAt) {
      if k >= |rows| {
        BatchRowLinks(suite, rows, today, batch, k - |rows|);
      }
    }
    forall j, k | 0 <= j < k < |all| ensures Before(all[j], all[k]) {
      if j >= |rows| {
        BatchRowLinks(suite, rows, today, batch, j - |rows|);
      }
      if k >= |rows| {
        BatchRowLinks(suite, rows, today, batch, k - |rows|);
        ColumnsOrderRows(all[j], all[k]);
      }
    }
  }

  lemma ColumnsOrderRows(a: Row, b: Row)
    ensures ColumnsBefore(a.columns, b.columns) <==> Before(a, b)
  {
  }

  /** All rows from the chain start on continue the chain and are keyed to their own day. */
  ghost predicate ChainedFrom(suite: Suite, legacy: nat, rows: seq<Row>) {
    forall i :: legacy <= i < |rows| ==> Chained(suite, rows, i)
  }

  lemma AppendedChained(suite: Suite, legacy: nat, rows: seq<Row>, today: Day, batch: seq<Columns>, k: nat)
    requires InOrder(rows) && Bucketed(rows) && InTime(rows, batch) && ChainedFrom(suite, legacy, rows)
    requires legacy <= |rows| && legacy <= k < |rows| + |batch|
    ensures var all := Appended(suite, rows, today, batch);
            && |all| == |rows| + |batch|
            && all[k].prevHash == ExpectedPrev(None, all, k) && HashSound(suite.hash, all[k])
            && (Chained(suite, all, k) <==> k < |rows| || MacsAgree(suite, today, all[k]))
  {
    hide RowInput, UtcDay, ChainRows, LastHash, HashSound, InOrder;
    StaysOrdered(suite, rows, today, batch);
    if k < |rows| {
      assert Chained(suite, rows, k);
      ChainedExtends(suite, rows, Appended(suite, rows, today, batch)[|rows|..], k);
      assert rows + Appended(suite, rows, today, batch)[|rows|..] == Appended(suite, rows, today, batch);
    } else {
      BatchRowLinks(suite, rows, today, batch, k - |rows|);
    }
  }

  /**
   * After a batch that is in order but of any days, the rows of a day pass exactly if each row of the batch on
   * that day was chained under the day's own key, or its two MACs agree. Otherwise the answer is a MAC mismatch.
   */
  lemma WrongDayIsSeen(
    suite: Suite, start: Day, legacy: nat, ledger: Ledger, today: Day, batch: seq<Columns>, day: Day)
    requires Good(suite, start, legacy, ledger) && InTime(ledger.rows, batch) && day >= start
    ensures var (stored, all) := (|ledger.rows|, Appended(suite, ledger.rows, today, batch));
            var fetched := DayRows(all, day);
            var keyed := forall k :: stored <= k < |all| && all[k].dayBucket == day ==> MacsAgree(suite, today, all[k]);
            && (keyed <==> RowsSound(suite, suite.dailyKey(day), TailBefore(all, day), fetched, |fetched|))
            && (!keyed ==> exists i :: ledger.(rows := all).Explains(suite, Some(start), day, MacMismatch(i)))
  {
    hide RowInput, HashSound, Before, SortRows, RowsOn, RowBefore, UtcDay, ChainRows, LastHash, InOrder;
    var all := Appended(suite, ledger.rows, today, batch);
    StaysOrdered(suite, ledger.rows, today, batch);
    RowsSoundInOrder(suite, all, day);
    var (b, e) := (Begin(all, day), Begin(all, day + 1));
    BeginCuts(all, day);
    BeginCuts(all, day + 1);
    forall k | b <= k < e ensures Chained(suite, all, k) <==> k < |ledger.rows| || MacsAgree(suite, today, all[k]) {
      LegacyBefore(suite, start, legacy, ledger, all, day, k);
      AppendedChained(suite, legacy, ledger.rows, today, batch, k);
    }
    if k :| b <= k < e && !Chained(suite, all, k) {
      var i := FirstUnkeyed(suite, start, legacy, ledger, today, batch, day, k);
    }
  }

  lemma LegacyBefore(suite: Suite, start: Day, legacy: nat, ledger: Ledger, all: seq<Row>, day: Day, k: nat)
    requires Good(suite, start, legacy, ledger) && day >= start && ledger.rows <= all
    requires k < |all| && all[k].dayBucket == day
    ensures k >= legacy
  {
    hide Chained, InOrder, Bucketed;
    assert k < |ledger.rows| ==> all[k] == ledger.rows[k];
  }

  /** The first row of the day that is not keyed to it is what the answer names. */
  lemma FirstUnkeyed(
    suite: Suite, start: Day, legacy: nat, ledger: Ledger, today: Day, batch: seq<Columns>, day: Day, k: nat)
    returns (i: nat)
    requires Good(suite, start, legacy, ledger) && InTime(ledger.rows, batch) && day >= start
    requires var all := Appended(suite, ledger.rows, today, batch);
             Begin(all, day) <= k < Begin(all, day + 1) && !Chained(suite, all, k)
    ensures ledger.(rows := Appended(suite, ledger.rows, today, batch))
            .Explains(suite, Some(start), day, MacMismatch(i))
    decreases k
  {
    hide RowInput, HashSound, Before, SortRows, RowsOn, RowBefore, UtcDay, ChainRows, LastHash, InOrder, Begin;
    var all := Appended(suite, ledger.rows, today, batch);
    var b := Begin(all, day);
    if j: nat :| b <= j < k && !Chained(suite, all, j) {
      i := FirstUnkeyed(suite, start, legacy, ledger, today, batch, day, j);
    } else {
      i := k - b;
      StaysOrdered(suite, ledger.rows, today, batch);
      BeginCuts(all, day);
      BeginCuts(all, day + 1);
      LegacyBefore(suite, start, legacy, ledger, all, day, k);
      AppendedChained(suite, legacy, ledger.rows, today, batch, k);
      FaultAt(suite, ledger.(rows := all), start, day, i);
    }
  }

  lemma FaultAt(suite: Suite, ledger: Ledger, start: Day, day: Day, i: nat)
    requires InOrder(ledger.rows) && Bucketed(ledger.rows) && day >= start
    requires var (b, rows) := (Begin(ledger.rows, day), ledger.rows);
             && b + i < Begin(rows, day + 1)
             && (forall j :: b <= j < b + i ==> Chained(suite, rows, j)) && !Chained(suite, rows, b + i)
             && rows[b + i].prevHash == ExpectedPrev(None, rows, b + i) && HashSound(suite.hash, rows[b + i])
    ensures ledger.Explains(suite, Some(start), day, MacMismatch(i))
  {
    hide RowInput, HashSound, Begin, Chained, TailBefore, DayRows, ExpectedPrev, InOrder, Bucketed, RowsSound;
    var rows := ledger.rows;
    SoundBefore(suite, rows, day, i);
    DayInTable(suite, rows, day, i);
    assert rows[Begin(rows, day) + i] == DayRows(rows, day)[i];
    hide Ledger.Explains;
    MacExplained(suite, ledger, start, day, i);
  }

  lemma MacExplained(suite: Suite, ledger: Ledger, start: Day, day: Day, i: nat)
    requires day >= start && i < |DayRows(ledger.rows, day)|
    requires var (key, prev, today) := (suite.dailyKey(day), TailBefore(ledger.rows, day), DayRows(ledger.rows, day));
             && RowsSound(suite, key, prev, today, i) && !RowSound(suite, key, prev, today, i)
             && today[i].prevHash == ExpectedPrev(prev, today, i) && HashSound(suite.hash, today[i])
    ensures ledger.Explains(suite, Some(start), day, MacMismatch(i))
  {
    hide HashSound, TailBefore, DayRows, RowSound, ExpectedPrev, RowsSound;
  }

  lemma SoundBefore(suite: Suite, rows: seq<Row>, day: Day, i: nat)
    requires InOrder(rows) && Bucketed(rows) && Begin(rows, day) + i < Begin(rows, day + 1)
    requires forall j :: Begin(rows, day) <= j < Begin(rows, day) + i ==> Chained(suite, rows, j)
    ensures i < |DayRows(rows, day)|
    ensures RowsSound(suite, suite.dailyKey(day), TailBefore(rows, day), DayRows(rows, day), i)
  {
    hide InOrder, Bucketed, Begin, Chained, TailBefore, DayRows, RowSound;
    DayInTable(suite, rows, day, i);
    forall j: nat | j < i
      ensures RowSound(suite, suite.dailyKey(day), TailBefore(rows, day), DayRows(rows, day), j)
    {
      DayInTable(suite, rows, day, j);
      assert Chained(suite, rows, Begin(rows, day) + j);
    }
  }

  // ----- rows that sort against the chain -----

  /** An id names one row of the table. */
  ghost predicate IdsOnce(rows: seq<Row>) {
    forall i, j :: 0 <= i < |rows| && 0 <= j < |rows| && rows[i].columns.id == rows[j].columns.id ==> rows[i] == rows[j]
  }

  /**
   * A row that was chained on another of its day, but sorts before it, is noticed: the day is not accepted, or
   * there is a collision.
   */
  lemma OutOfOrderIsSeen(suite: Suite, start: Option<Day>, ledger: Ledger, day: Day, p: nat, q: nat)
    returns (f: Finding)
    requires !ledger.OutOfScope(start, day) && UniqueIds(DayRows(ledger.rows, day))
    requires p < q < |DayRows(ledger.rows, day)|
    requires DayRows(ledger.rows, day)[p].prevHash == Some(DayRows(ledger.rows, day)[q].rowHash)
    requires match RowBefore(ledger.rows, day)
             case None => true
             case Some(r) => HashSound(suite.hash, r) && r.columns.id != DayRows(ledger.rows, day)[q].columns.id
    ensures f.Sound(suite.hash) && !f.ZeroHash?
    ensures f.Same? ==> !ledger.Accepts(suite, start, day)
  {
    hide RowInput, HashSound, DayRows, RowBefore, Merkle.Root, SignedMessage;
    f := Same;
    if ledger.Accepts(suite, start, day) {
      var today := DayRows(ledger.rows, day);
      SoundDayHashes(suite, ledger, day);
      assert RowSound(suite, suite.dailyKey(day), TailBefore(ledger.rows, day), today, p);
      if p > 0 {
        f := RowBinding(suite.hash, today[p - 1], today[q]);
      } else {
        f := RowBinding(suite.hash, RowBefore(ledger.rows, day).value, today[q]);
      }
    }
  }

  // ----- a fork -----

  /** Of two rows that share a predecessor, the day of one is not accepted, or there is a collision. */
  lemma ForkIsSeen(suite: Suite, start: Day, ledger: Ledger, i: nat, j: nat) returns (f: Finding)
    requires ChainConcurrency.AllSound(suite.hash, ledger.rows) && Bucketed(ledger.rows)
    requires i < j < |ledger.rows| && ledger.rows[i].prevHash == ledger.rows[j].prevHash
    requires ledger.rows[i].dayBucket >= start
    ensures f.Sound(suite.hash) && !f.ZeroHash?
    ensures f.Same? ==>
              !ledger.Accepts(suite, Some(start), ledger.rows[i].dayBucket)
              || !ledger.Accepts(suite, Some(start), ledger.rows[j].dayBucket)
  {
    hide RowInput, HashSound, Before, Merkle.Root, SignedMessage, Ledger.Accepts, UtcDay;
    var rows := ledger.rows;
    f := Same;
    assert Before(rows[i], rows[j]);
    DaysInOrder(rows[i], rows[j]);
    if ledger.Accepts(suite, Some(start), rows[i].dayBucket) && ledger.Accepts(suite, Some(start), rows[j].dayBucket) {
      AcceptedIsChained(suite, start, ledger, i);
      AcceptedIsChained(suite, start, ledger, j);
      f := EqualHashes(suite.hash, rows, i - 1, j - 1);
    }
  }

  lemma AcceptedIsChained(suite: Suite, start: Day, ledger: Ledger, i: nat)
    requires InOrder(ledger.rows) && Bucketed(ledger.rows) && i < |ledger.rows|
    requires ledger.rows[i].dayBucket >= start && ledger.Accepts(suite, Some(start), ledger.rows[i].dayBucket)
    ensures Chained(suite, ledger.rows, i)
  {
    hide RowInput, HashSound, Before, Merkle.Root, SignedMessage, UtcDay, SortRows, RowsOn, RowBefore, Begin, Chained;
    var rows := ledger.rows;
    var day: Day := rows[i].dayBucket;
    BeginCuts(rows, day);
    BeginCuts(rows, day + 1);
    RowsSoundInOrder(suite, rows, day);
    assert |DayRows(rows, day)| > 0;
  }

  lemma EqualHashes(hash: Hash, rows: seq<Row>, i: nat, j: nat) returns (f: Finding)
    requires ChainConcurrency.AllSound(hash, rows) && i < j < |rows| && rows[i].rowHash == rows[j].rowHash
    ensures f.Sound(hash) && f.Collision?
  {
    hide RowInput;
    assert Before(rows[i], rows[j]);
    f := RowBinding(hash, rows[i], rows[j]);
  }

  /** So a transaction that misread the tail and committed is found out by the verification of some day. */
  lemma MisreadIsSeen(
    suite: Suite, start: Day, states: seq<ChainConcurrency.State>, actions: seq<ChainConcurrency.Action>, n: nat,
    checkpoints: map<Day, Checkpoint>)
    returns (f: Finding, day: Day)
    requires ChainConcurrency.IsRun(suite, states, actions) && n < |states|
    requires ChainConcurrency.Misread(states, actions, n)
    requires Bucketed(states[n].committed)
    requires forall i :: 0 <= i < |states[n].committed| ==> states[n].committed[i].dayBucket >= start
    ensures f.Sound(suite.hash) && !f.ZeroHash?
    ensures f.Same? ==> !Ledger(states[n].committed, checkpoints).Accepts(suite, Some(start), day)
  {
    hide ChainConcurrency.IsRun, ChainConcurrency.Misread, Ledger.Accepts, Before, HashSound;
    ChainConcurrency.ReachableInvariant(suite, states, actions, n);
    ChainConcurrency.CommittedMisread(suite, states, actions, n);
    var rows := states[n].committed;
    var ledger := Ledger(rows, checkpoints);
    var i, j :| 0 <= i < j < |rows| && rows[i].prevHash == rows[j].prevHash;
    f := ForkIsSeen(suite, start, ledger, i, j);
    day := if ledger.Accepts(suite, Some(start), rows[i].dayBucket) then rows[j].dayBucket else rows[i].dayBucket;
  }

  // ----- a day removed -----

  /** The table without the rows of a day. */
  function Without(rows: seq<Row>, day: Day): seq<Row>
    requires Begin(rows, day) <= Begin(rows, day + 1)
  {
    rows[..Begin(rows, day)] + rows[Begin(rows, day + 1)..]
  }

  lemma WithoutOrdered(rows: seq<Row>, day: Day)
    requires InOrder(rows) && Bucketed(rows)
    ensures Begin(rows, day) <= Begin(rows, day + 1)
    ensures InOrder(Without(rows, day)) && Bucketed(Without(rows, day))
    ensures forall i :: 0 <= i < |Without(rows, day)| ==> Without(rows, day)[i].dayBucket != day
  {
    hide Before, UtcDay, Begin, RowsOn;
    DayIsStretch(rows, day);
    BeginCuts(rows, day);
    BeginCuts(rows, day + 1);
  }

  /** A day whose rows are all removed is accepted, whatever its checkpoint says. */
  lemma RemovedDayPasses(suite: Suite, start: Option<Day>, ledger: Ledger, day: Day)
    requires InOrder(ledger.rows) && Bucketed(ledger.rows)
    ensures Begin(ledger.rows, day) <= Begin(ledger.rows, day + 1)
    ensures ledger.(rows := Without(ledger.rows, day)).Accepts(suite, start, day)
  {
    hide InOrder, Bucketed, Begin, Without, RowsOn;
    WithoutOrdered(ledger.rows, day);
    NoRowsOn(Without(ledger.rows, day), day);
    assert SortRows([]) == [];
  }

  /**
   * The removal is noticed on the next day that has rows, if there is one: its first row points back to a row
   * that is gone. Or there is a collision.
   */
  lemma RemovedDayIsSeenLater(suite: Suite, start: Day, ledger: Ledger, day: Day) returns (f: Finding)
    requires InOrder(ledger.rows) && Bucketed(ledger.rows) && day >= start
    requires Begin(ledger.rows, day) < Begin(ledger.rows, day + 1) < |ledger.rows|
    requires Chained(suite, ledger.rows, Begin(ledger.rows, day + 1))
    requires Chained(suite, ledger.rows, Begin(ledger.rows, day + 1) - 1)
    requires Begin(ledger.rows, day) > 0 ==> HashSound(suite.hash, ledger.rows[Begin(ledger.rows, day) - 1])
    ensures f.Sound(suite.hash) && !f.ZeroHash?
    ensures var next := ledger.rows[Begin(ledger.rows, day + 1)].dayBucket;
            f.Same? ==> ledger.(rows := Without(ledger.rows, day)).Explains(suite, Some(start), next, PrevMismatch(0))
  {
    hide RowInput, HashSound, Before, UtcDay, Begin, RowsOn, SortRows, RowBefore;
    var (rows, b, e) := (ledger.rows, Begin(ledger.rows, day), Begin(ledger.rows, day + 1));
    f := Same;
    if b > 0 && rows[b - 1].rowHash == rows[e - 1].rowHash {
      assert Before(rows[b - 1], rows[e - 1]);
      f := DifferentHashes(suite.hash, rows[b - 1], rows[e - 1]);
    } else {
      WithoutOrdered(rows, day);
      var (left, next) := (Without(rows, day), rows[e].dayBucket);
      assert left[b] == rows[e];
      BeginCuts(rows, day + 1);
      BeginCuts(rows, day);
      BeginsAt(left, b, next);
      hide InOrder, Bucketed;
      FirstRowFault(suite, ledger.(rows := left), start, next);
    }
  }

  lemma DifferentHashes(hash: Hash, a: Row, b: Row) returns (f: Finding)
    requires HashSound(hash, a) && HashSound(hash, b) && a.rowHash == b.rowHash && Before(a, b)
    ensures f.Sound(hash) && f.Collision?
  {
    hide RowInput;
    f := RowBinding(hash, a, b);
  }

  /** Where the rows of a day begin in an ordered table. */
  lemma BeginsAt(rows: seq<Row>, b: nat, day: Day)
    requires InOrder(rows) && Bucketed(rows) && b < |rows| && rows[b].dayBucket == day
    requires forall i :: 0 <= i < b ==> rows[i].dayBucket < day
    ensures Begin(rows, day) == b < Begin(rows, day + 1)
  {
    hide Before, UtcDay, Begin;
    BeginCuts(rows, day);
    BeginCuts(rows, day + 1);
    assert b > 0 ==> rows[b - 1].dayBucket < day;
  }

  lemma FirstRowFault(suite: Suite, ledger: Ledger, start: Day, day: Day)
    requires InOrder(ledger.rows) && Bucketed(ledger.rows) && day >= start
    requires Begin(ledger.rows, day) < Begin(ledger.rows, day + 1)
    requires var b := Begin(ledger.rows, day); ledger.rows[b].prevHash != ExpectedPrev(None, ledger.rows, b)
    ensures ledger.Explains(suite, Some(start), day, PrevMismatch(0))
  {
    hide RowInput, HashSound, Before, SortRows, RowsOn, RowBefore, UtcDay, InOrder, Begin, Merkle.Root, SignedMessage;
    DayInTable(suite, ledger.rows, day, 0);
    assert DayRows(ledger.rows, day)[0] == ledger.rows[Begin(ledger.rows, day)];
  }

  // ----- checkpoints -----

  /** A stored checkpoint never changes, whatever is appended or signed after it; signing its day again does nothing. */
  lemma {:induction false} CheckpointStays(
    suite: Suite, ledger: Ledger, events: seq<Event>, day: Day, again: Option<seq<Byte>>)
    requires day in ledger.checkpoints
    ensures var end := Run(suite, ledger, events);
            && day in end.checkpoints && end.checkpoints[day] == ledger.checkpoints[day]
            && Sign(suite, end, day, again) == end
    decreases |events|
  {
    hide DayRows, RowInput, Merkle.Root, SignedMessage, Appended;
    if events != [] {
      CheckpointStays(suite, Step(suite, ledger, events[0]), events[1..], day, again);
    }
  }
}
