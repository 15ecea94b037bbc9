/** Runs of batches and signatures: what is inserted verifies. */
module ChainRuns {
  import opened Common
  import opened Calendar
  import opened AuditRows
  import opened AuditChain
  import Merkle

  /** One thing that happens to the store: a flush chains and inserts a batch, or the daily job signs a day. */
  datatype Event =
    | Append(today: Day, batch: seq<Columns>)
    | SignDay(day: Day, token: Option<seq<Byte>>)

  /** `finalize_chain` on a batch, then its INSERTs. */
  function Appended(suite: Suite, rows: seq<Row>, today: Day, batch: seq<Columns>): seq<Row> {
    rows + ChainRows(suite, today, LastHash(rows), batch)
  }

  function Step(suite: Suite, ledger: Ledger, e: Event): Ledger {
    match e
    case Append(today, batch) => ledger.(rows := Appended(suite, ledger.rows, today, batch))
    case SignDay(day, token) => Sign(suite, ledger, day, token)
  }

  function Run(suite: Suite, ledger: Ledger, events: seq<Event>): Ledger
    decreases |events|
  {
    if events == [] then ledger else Run(suite, Step(suite, ledger, events[0]), events[1..])
  }

  predicate ColumnsBefore(a: Columns, b: Columns) {
    a.createdAt.Utc() < b.createdAt.Utc() || (a.createdAt.Utc() == b.createdAt.Utc() && a.id < b.id)
  }

  /**
   * What the code relies on at each step: a batch is in order, comes after every stored row, lies in the day
   * whose key is used, and that day is not signed yet; a stored time-stamping token is well formed.
   */
  predicate Allowed(suite: Suite, ledger: Ledger, e: Event) {
    match e
    case Append(today, batch) =>
      && today !in ledger.checkpoints
      && (forall i :: 0 <= i < |batch| ==> UtcDay(batch[i].createdAt) == today)
      && (forall i, j :: 0 <= i < j < |batch| ==> ColumnsBefore(batch[i], batch[j]))
      && (forall i, j :: 0 <= i < |ledger.rows| && 0 <= j < |batch| ==>
            ColumnsBefore(ledger.rows[i].columns, batch[j]))
    case SignDay(_, token) => token.Some? ==> suite.tokenParses(token.value)
  }

  predicate AllowedRun(suite: Suite, ledger: Ledger, events: seq<Event>)
    decreases |events|
  {
    events == []
    || (Allowed(suite, ledger, events[0]) && AllowedRun(suite, Step(suite, ledger, events[0]), events[1..]))
  }

  // ----- the invariant -----

  /** A row after the legacy ones continues the chain and is keyed to its own day. */
  predicate Chained(suite: Suite, rows: seq<Row>, i: nat)
    requires i < |rows|
  {
    && rows[i].prevHash == ExpectedPrev(None, rows, i)
    && HashSound(suite.hash, rows[i])
    && rows[i].mac == suite.mac(suite.dailyKey(rows[i].dayBucket), rows[i].rowHash)
  }

  predicate Bucketed(rows: seq<Row>) {
    forall i :: 0 <= i < |rows| ==> rows[i].dayBucket == UtcDay(rows[i].columns.createdAt)
  }

  /** The first `legacy` rows predate the chain start; all others are chained; signed days are soundly signed. */
  ghost predicate Good(suite: Suite, start: Day, legacy: nat, ledger: Ledger) {
    && legacy <= |ledger.rows| && InOrder(ledger.rows) && Bucketed(ledger.rows)
    && (forall i :: 0 <= i < legacy ==> ledger.rows[i].dayBucket < start)
    && (forall i :: legacy <= i < |ledger.rows| ==> Chained(suite, ledger.rows, i))
    && (forall day :: day in ledger.checkpoints ==> ledger.CheckpointSound(suite, day))
  }

  // ----- queries on a table in order -----

  lemma PrefixInOrder(rows: seq<Row>, n: nat)
    requires n <= |rows| && InOrder(rows) && Bucketed(rows)
    ensures InOrder(rows[..n]) && Bucketed(rows[..n])
  {
    hide Before;
  }

  lemma {:induction false} SortedAlready(rows: seq<Row>)
    requires forall i, j :: 0 <= i < j < |rows| ==> Before(rows[i], rows[j])
    ensures SortRows(rows) == rows
  {
    if rows != [] {
      var (init, last) := (rows[..|rows| - 1], rows[|rows| - 1]);
      SortedAlready(init);
      assert rows == init + [last];
      if init != [] {
        NotBothBefore(rows[|init| - 1], last);
      }
      hide Before;
    }
  }

  lemma NotBothBefore(a: Row, b: Row)
    ensures !(Before(a, b) && Before(b, a))
  {
  }

  lemma {:induction false} LatestIsLast(rows: seq<Row>)
    requires rows != [] && InOrder(rows)
    ensures LastRow(rows) == Some(rows[|rows| - 1])
  {
    if |rows| > 1 {
      assert InOrder(rows[..|rows| - 1]);
      LatestIsLast(rows[..|rows| - 1]);
      assert Before(rows[|rows| - 2], rows[|rows| - 1]);
    }
  }

  /** The number of rows of days before `day`: in an ordered table, the place where the day begins. */
  function Begin(rows: seq<Row>, day: nat): (n: nat)
    ensures n <= |rows|
  {
    if rows == [] then 0
    else Begin(rows[..|rows| - 1], day) + if rows[|rows| - 1].dayBucket < day then 1 else 0
  }

  lemma DaysInOrder(a: Row, b: Row)
    requires a.dayBucket == UtcDay(a.columns.createdAt) && b.dayBucket == UtcDay(b.columns.createdAt)
    requires Before(a, b)
    ensures a.dayBucket <= b.dayBucket
  {
  }

  /** In an ordered table the rows before the cut are exactly those of earlier days. */
  lemma {:induction false} BeginCuts(rows: seq<Row>, day: nat)
    requires InOrder(rows) && Bucketed(rows)
    ensures forall i :: 0 <= i < |rows| ==> (rows[i].dayBucket < day <==> i < Begin(rows, day))
  {
    if rows != [] {
      var n := |rows| - 1;
      PrefixInOrder(rows, n);
      BeginCuts(rows[..n], day);
      forall i | 0 <= i < |rows| ensures rows[i].dayBucket < day <==> i < Begin(rows, day) {
        if i < n {
          assert rows[..n][i] == rows[i];
          DaysInOrder(rows[i], rows[n]);
        } else if n > 0 {
          assert rows[..n][n - 1] == rows[n - 1];
          DaysInOrder(rows[n - 1], rows[n]);
        }
      }
    }
  }

  /** Rows of the last day, or before it, fill the table up to its end. */
  lemma BeginAtEnd(rows: seq<Row>, day: nat)
    requires rows != [] && InOrder(rows) && Bucketed(rows) && rows[|rows| - 1].dayBucket < day
    ensures Begin(rows, day) == |rows| && Begin(rows[..|rows| - 1], day) == |rows| - 1
  {
    hide Before, Begin;
    PrefixInOrder(rows, |rows| - 1);
    BeginCuts(rows, day);
    BeginCuts(rows[..|rows| - 1], day);
    if |rows| > 1 {
      assert rows[..|rows| - 1][|rows| - 2] == rows[|rows| - 2];
    }
  }

  lemma SlicesAgree(rows: seq<Row>, b: nat, e: nat)
    requires rows != [] && b <= e < |rows|
    ensures rows[..|rows| - 1][b..e] == rows[b..e]
    ensures rows[..|rows| - 1][b..|rows| - 1] + [rows[|rows| - 1]] == rows[b..|rows|]
  {
  }

  /** A day's rows are one stretch of an ordered table. */
  lemma {:induction false} DayIsStretch(rows: seq<Row>, day: Day)
    requires InOrder(rows) && Bucketed(rows)
    ensures Begin(rows, day) <= Begin(rows, day + 1)
    ensures RowsOn(rows, day) == rows[Begin(rows, day)..Begin(rows, day + 1)]
  {
    hide Before, InOrder, Bucketed;
    if rows != [] {
      var (init, last) := (rows[..|rows| - 1], rows[|rows| - 1]);
      PrefixInOrder(rows, |rows| - 1);
      DayIsStretch(init, day);
      var (b, e) := (Begin(init, day), Begin(init, day + 1));
      SlicesAgree(rows, b, e);
      assert Begin(rows, day) == b + if last.dayBucket < day then 1 else 0;
      assert Begin(rows, day + 1) == e + if last.dayBucket < day + 1 then 1 else 0;
      assert RowsOn(rows, day) == init[b..e] + if last.dayBucket == day then [last] else [];
      hide Begin, RowsOn;
      if last.dayBucket < day {
        BeginAtEnd(rows, day);
        BeginAtEnd(rows, day + 1);
      } else if last.dayBucket == day {
        BeginAtEnd(rows, day + 1);
      }
    }
  }

  /** The chain tail of a day is the row just before its stretch, however many empty days lie between. */
  lemma {:induction false} TailIsRowBefore(rows: seq<Row>, day: Day)
    requires InOrder(rows) && Bucketed(rows)
    ensures RowBefore(rows, day) == if Begin(rows, day) == 0 then None else Some(rows[Begin(rows, day) - 1])
  {
    if rows != [] {
      var n := |rows| - 1;
      PrefixInOrder(rows, n);
      TailIsRowBefore(rows[..n], day);
      BeginCuts(rows, day);
      BeginCuts(rows[..n], day);
      if n > 0 {
        DaysInOrder(rows[n - 1], rows[n]);
        assert Before(rows[n - 1], rows[n]);
      }
    }
  }

  // ----- every step keeps the invariant -----

  lemma {:induction false} RowsOnAppend(rows: seq<Row>, more: seq<Row>, day: Day)
    ensures RowsOn(rows + more, day) == RowsOn(rows, day) + RowsOn(more, day)
    decreases |more|
  {
    if more == [] {
      assert rows + more == rows;
    } else {
      var (n, all) := (|more| - 1, rows + more);
      assert all[..|all| - 1] == rows + more[..n] && all[|all| - 1] == more[n];
      RowsOnAppend(rows, more[..n], day);
    }
  }

  lemma {:induction false} NoRowsOn(rows: seq<Row>, day: Day)
    requires forall i :: 0 <= i < |rows| ==> rows[i].dayBucket != day
    ensures RowsOn(rows, day) == []
  {
    if rows != [] {
      NoRowsOn(rows[..|rows| - 1], day);
    }
  }

  /** A batch of one day leaves the rows of every other day alone. */
  lemma OtherDaysUntouched(suite: Suite, ledger: Ledger, today: Day, batch: seq<Columns>, day: Day)
    requires day != today && forall i :: 0 <= i < |batch| ==> UtcDay(batch[i].createdAt) == today
    ensures DayRows(Appended(suite, ledger.rows, today, batch), day) == DayRows(ledger.rows, day)
  {
    hide SortRows, RowInput, LastHash, RowsOn;
    var prev := LastHash(ledger.rows);
    var more := ChainRows(suite, today, prev, batch);
    forall i | 0 <= i < |more| ensures more[i].dayBucket != day {
      ChainRowsAt(suite, today, prev, batch, i);
    }
    NoRowsOn(more, day);
    RowsOnAppend(ledger.rows, more, day);
    assert RowsOn(ledger.rows, day) + [] == RowsOn(ledger.rows, day);
  }

  lemma PrevAcrossSeam(rows: seq<Row>, more: seq<Row>, i: nat)
    requires i <= |more|
    ensures ExpectedPrev(ExpectedPrev(None, rows, |rows|), more, i) == ExpectedPrev(None, rows + more, |rows| + i)
  {
  }

  lemma TailOfOrdered(rows: seq<Row>)
    requires InOrder(rows)
    ensures LastHash(rows) == ExpectedPrev(None, rows, |rows|)
  {
    hide Before;
    if rows != [] {
      LatestIsLast(rows);
    }
  }

  /** The rows of a batch: their columns, their day, their key, and their place in the chain. */
  lemma BatchRow(suite: Suite, rows: seq<Row>, today: Day, batch: seq<Columns>, i: nat)
    requires i < |batch| && UtcDay(batch[i].createdAt) == today && InOrder(rows)
    ensures var all := Appended(suite, rows, today, batch);
            && all[|rows| + i].columns == batch[i] && all[|rows| + i].dayBucket == today
            && Chained(suite, all, |rows| + i)
  {
    hide RowInput, UtcDay, ChainRows, LastHash, InOrder, ExpectedPrev;
    var prev := LastHash(rows);
    var more := ChainRows(suite, today, prev, batch);
    ChainRowsAt(suite, today, prev, batch, i);
    TailOfOrdered(rows);
    PrevAcrossSeam(rows, more, i);
    assert Appended(suite, rows, today, batch)[|rows| + i] == more[i];
  }

  lemma ChainedExtends(suite: Suite, rows: seq<Row>, more: seq<Row>, i: nat)
    requires i < |rows| && Chained(suite, rows, i)
    ensures Chained(suite, rows + more, i)
  {
    hide HashSound;
  }

  lemma AppendKeepsRows(suite: Suite, start: Day, legacy: nat, ledger: Ledger, today: Day, batch: seq<Columns>)
    requires Good(suite, start, legacy, ledger) && Allowed(suite, ledger, Append(today, batch))
    ensures var all := Appended(suite, ledger.rows, today, batch);
            && InOrder(all) && Bucketed(all)
            && (forall i :: 0 <= i < legacy ==> all[i].dayBucket < start)
            && (forall i :: legacy <= i < |all| ==> Chained(suite, all, i))
  {
    hide LastHash, DayRows, UtcDay, ChainRows, Chained, Ledger.CheckpointSound, Before, InOrder;
    var (rows, n) := (ledger.rows, |ledger.rows|);
    var more := ChainRows(suite, today, LastHash(rows), batch);
    var all := rows + more;
    forall k | n <= k < |all|
      ensures all[k].columns == batch[k - n] && all[k].dayBucket == today && Chained(suite, all, k)
    {
      BatchRow(suite, rows, today, batch, k - n);
    }
    StillInOrder(rows, all, batch);
    forall i | legacy <= i < n ensures Chained(suite, all, i) {
      ChainedExtends(suite, rows, more, i);
    }
  }

  lemma AppendKeepsCheckpoints(suite: Suite, ledger: Ledger, today: Day, batch: seq<Columns>, day: Day)
    requires Allowed(suite, ledger, Append(today, batch))
    requires day in ledger.checkpoints && ledger.CheckpointSound(suite, day)
    ensures Step(suite, ledger, Append(today, batch)).CheckpointSound(suite, day)
  {
    hide DayRows, Appended, Merkle.Root, SignedMessage, ColumnsBefore;
    OtherDaysUntouched(suite, ledger, today, batch, day);
  }

  lemma AppendKeepsGood(suite: Suite, start: Day, legacy: nat, ledger: Ledger, today: Day, batch: seq<Columns>)
    requires Good(suite, start, legacy, ledger) && Allowed(suite, ledger, Append(today, batch))
    ensures Good(suite, start, legacy, Step(suite, ledger, Append(today, batch)))
  {
    hide Allowed, InOrder, Bucketed, Chained, Ledger.CheckpointSound;
    AppendKeepsRows(suite, start, legacy, ledger, today, batch);
    forall day | day in ledger.checkpoints
      ensures Step(suite, ledger, Append(today, batch)).CheckpointSound(suite, day)
    {
      AppendKeepsCheckpoints(suite, ledger, today, batch, day);
    }
  }

  lemma StillInOrder(rows: seq<Row>, all: seq<Row>, batch: seq<Columns>)
    requires InOrder(rows) && |all| == |rows| + |batch| && all[..|rows|] == rows
    requires forall k :: |rows| <= k < |all| ==> all[k].columns == batch[k - |rows|]
    requires forall i, j :: 0 <= i < j < |batch| ==> ColumnsBefore(batch[i], batch[j])
    requires forall i, j :: 0 <= i < |rows| && 0 <= j < |batch| ==> ColumnsBefore(rows[i].columns, batch[j])
    ensures InOrder(all)
  {
    var n := |rows|;
    forall i, j | 0 <= i < j < |all| ensures Before(all[i], all[j]) {
      assert i < n ==> all[i] == rows[i];
      assert j < n ==> all[j] == rows[j];
      if i < n <= j {
        assert ColumnsBefore(rows[i].columns, batch[j - n]);
      } else if n <= i {
        assert ColumnsBefore(batch[i - n], batch[j - n]);
      }
    }
  }

  lemma SignKeepsGood(suite: Suite, start: Day, legacy: nat, ledger: Ledger, day: Day, token: Option<seq<Byte>>)
    requires suite.Lawful()
    requires Good(suite, start, legacy, ledger) && Allowed(suite, ledger, SignDay(day, token))
    ensures Good(suite, start, legacy, Step(suite, ledger, SignDay(day, token)))
  {
    hide RowInput, DayRows, Merkle.Root, Before, Chained, SignedMessage;
    var after := Sign(suite, ledger, day, token);
    assert after.rows == ledger.rows;
    forall d | d in after.checkpoints ensures after.CheckpointSound(suite, d) {
      if d in ledger.checkpoints {
        assert ledger.CheckpointSound(suite, d);
      }
    }
  }

  lemma {:induction false} RunKeepsGood(suite: Suite, start: Day, legacy: nat, ledger: Ledger, events: seq<Event>)
    requires suite.Lawful() && Good(suite, start, legacy, ledger) && AllowedRun(suite, ledger, events)
    ensures Good(suite, start, legacy, Run(suite, ledger, events))
    decreases |events|
  {
    hide Good, Allowed;
    if events != [] {
      match events[0] {
        case Append(today, batch) => AppendKeepsGood(suite, start, legacy, ledger, today, batch);
        case SignDay(day, token) => SignKeepsGood(suite, start, legacy, ledger, day, token);
      }
      RunKeepsGood(suite, start, legacy, Step(suite, ledger, events[0]), events[1..]);
    }
  }

  // ----- a good ledger verifies -----

  /** In a good ledger the row loop of `verify_day` finds nothing wrong. */
  lemma GoodRowsSound(suite: Suite, start: Day, legacy: nat, ledger: Ledger, day: Day)
    requires Good(suite, start, legacy, ledger) && day >= start
    ensures var today := DayRows(ledger.rows, day);
            RowsSound(suite, suite.dailyKey(day), TailBefore(ledger.rows, day), today, |today|)
  {
    hide RowInput, HashSound, Before, SortRows, RowsOn, RowBefore, Begin, UtcDay;
    var rows := ledger.rows;
    var (b, e) := (Begin(rows, day), Begin(rows, day + 1));
    DayIsStretch(rows, day);
    SubrangeInOrder(rows, b, e);
    SortedAlready(rows[b..e]);
    TailIsRowBefore(rows, day);
    var today := DayRows(rows, day);
    assert today == rows[b..e];
    forall i | 0 <= i < |today|
      ensures RowSound(suite, suite.dailyKey(day), TailBefore(rows, day), today, i)
    {
      assert today[i] == rows[b + i] && rows[b + i].dayBucket == day by {
        BeginCuts(rows, day);
        BeginCuts(rows, day + 1);
      }
      assert Chained(suite, rows, b + i);
    }
  }

  lemma SubrangeInOrder(rows: seq<Row>, b: nat, e: nat)
    requires InOrder(rows) && b <= e <= |rows|
    ensures InOrder(rows[b..e])
  {
    hide Before;
  }

  /** A good ledger passes exactly on the days that hold no rows or are signed; else the checkpoint is missing. */
  lemma GoodVerifies(suite: Suite, start: Day, legacy: nat, ledger: Ledger, day: Day)
    requires Good(suite, start, legacy, ledger) && day >= start
    ensures ledger.Accepts(suite, Some(start), day) <==> DayRows(ledger.rows, day) == [] || day in ledger.checkpoints
    ensures !ledger.Accepts(suite, Some(start), day) ==> ledger.Explains(suite, Some(start), day, NoCheckpoint)
  {
    GoodRowsSound(suite, start, legacy, ledger, day);
    hide RowInput, RowsSound, DayRows, TailBefore, Merkle.Root, SignedMessage, Chained, InOrder, Bucketed;
  }

  // ----- main results -----

  /** A store that holds only rows from before the chain start. */
  predicate Legacy(start: Day, rows: seq<Row>) {
    InOrder(rows) && Bucketed(rows) && forall i :: 0 <= i < |rows| ==> rows[i].dayBucket < start
  }

  /**
   * After any allowed run, `verify_day` accepts a day from the chain start on exactly when the day holds no
   * rows or is signed, and the only thing it can miss is the checkpoint.
   */
  lemma InsertAndVerifyAgree(suite: Suite, start: Day, rows: seq<Row>, events: seq<Event>, day: Day)
    requires suite.Lawful() && Legacy(start, rows) && AllowedRun(suite, Ledger(rows, map[]), events) && day >= start
    ensures var end := Run(suite, Ledger(rows, map[]), events);
            && (end.Accepts(suite, Some(start), day) <==> DayRows(end.rows, day) == [] || day in end.checkpoints)
            && (!end.Accepts(suite, Some(start), day) ==> end.Explains(suite, Some(start), day, NoCheckpoint))
  {
    hide Run, AllowedRun, DayRows, Before, Chained;
    RunKeepsGood(suite, start, |rows|, Ledger(rows, map[]), events);
    GoodVerifies(suite, start, |rows|, Run(suite, Ledger(rows, map[]), events), day);
  }

  /** Once nothing more is appended to a day, its rows and its checkpoint stay. */
  lemma {:induction false} DayStays(suite: Suite, ledger: Ledger, events: seq<Event>, day: Day)
    requires AllowedRun(suite, ledger, events)
    requires forall i :: 0 <= i < |events| && events[i].Append? ==> events[i].today != day
    ensures var end := Run(suite, ledger, events);
            && DayRows(end.rows, day) == DayRows(ledger.rows, day)
            && (day in ledger.checkpoints ==> day in end.checkpoints)
    decreases |events|
  {
    hide DayRows, RowInput, Merkle.Root, SignedMessage, Appended;
    if events != [] {
      if events[0].Append? {
        OtherDaysUntouched(suite, ledger, events[0].today, events[0].batch, day);
      }
      DayStays(suite, Step(suite, ledger, events[0]), events[1..], day);
    }
  }

  lemma {:induction false} RunSplits(suite: Suite, ledger: Ledger, events: seq<Event>, k: nat)
    requires k <= |events| && AllowedRun(suite, ledger, events)
    ensures var middle := Run(suite, ledger, events[..k]);
            && AllowedRun(suite, ledger, events[..k]) && AllowedRun(suite, middle, events[k..])
            && Run(suite, middle, events[k..]) == Run(suite, ledger, events)
    decreases k
  {
    hide Step, Allowed;
    if k == 0 {
      assert events[..k] == [] && events[k..] == events;
    } else {
      RunSplits(suite, Step(suite, ledger, events[0]), events[1..], k - 1);
      assert events[..k][1..] == events[1..][..k - 1] && events[1..][k - 1..] == events[k..];
    }
  }

  /** Every day that was signed after its last batch is accepted at the end of the run. */
  lemma SignedDayVerifies(suite: Suite, start: Day, rows: seq<Row>, events: seq<Event>, k: nat, day: Day)
    requires suite.Lawful() && Legacy(start, rows) && AllowedRun(suite, Ledger(rows, map[]), events) && day >= start
    requires k < |events| && events[k].SignDay? && events[k].day == day
    requires forall i :: k < i < |events| && events[i].Append? ==> events[i].today != day
    ensures Run(suite, Ledger(rows, map[]), events).Accepts(suite, Some(start), day)
  {
    hide DayRows, RowInput, Merkle.Root, SignedMessage, Legacy, Allowed, Ledger.Accepts;
    var first := Ledger(rows, map[]);
    InsertAndVerifyAgree(suite, start, rows, events, day);
    RunSplits(suite, first, events, k);
    var before := Run(suite, first, events[..k]);
    var after := Step(suite, before, events[k]);
    assert events[k..][1..] == events[k + 1..] && events[k..][0] == events[k];
    DayStays(suite, after, events[k + 1..], day);
  }
}
