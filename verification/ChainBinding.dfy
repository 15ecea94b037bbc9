/** What the hashes commit to: a checkpoint its day, and the last row hash the whole history. */
module ChainBinding {
  import opened Common
  import opened Calendar
  import opened AuditRows
  import opened AuditChain
  import Merkle

  /** The rows agree on every canonical column, on the hash they point back to and on their own hash. */
  ghost predicate SameRow(a: Row, b: Row) {
    && SameColumns(a.columns, b.columns)
    && PrevBytes(a.prevHash) == PrevBytes(b.prevHash)
    && a.rowHash == b.rowHash
  }

  ghost predicate SameRows(a: seq<Row>, b: seq<Row>) {
    |a| == |b| && forall i :: 0 <= i < |a| ==> SameRow(a[i], b[i])
  }

  ghost predicate SamePrevs(a: seq<Row>, b: seq<Row>)
    requires |a| == |b|
  {
    forall i :: 0 <= i < |a| ==> a[i].prevHash == b[i].prevHash
  }

  ghost predicate UniqueIds(rows: seq<Row>) {
    forall i, j :: 0 <= i < j < |rows| ==> rows[i].columns.id != rows[j].columns.id
  }

  /**
   * The bytes hashed for a row determine its columns and its predecessor's hash, and nothing more: no predecessor
   * and one that hashes to zero are hashed alike.
   */
  lemma RowInputInjective(a: Columns, p: Option<Digest>, b: Columns, q: Option<Digest>)
    ensures RowInput(a, p) == RowInput(b, q) <==> SameColumns(a, b) && PrevBytes(p) == PrevBytes(q)
  {
    hide SameColumns, CanonicalJson, PrevBytes;
    CanonicalIffSameColumns(a, b);
    if RowInput(a, p) == RowInput(b, q) {
      SplitEqual(CanonicalJson(a), PrevBytes(p), CanonicalJson(b), PrevBytes(q));
    }
  }

  lemma PrevBytesEqual(p: Option<Digest>, q: Option<Digest>)
    ensures PrevBytes(p) == PrevBytes(q) <==> p == q || {p, q} == {None, Some(ZeroDigest())}
  {
    if PrevBytes(p) == PrevBytes(q) && p != q {
      assert p == None || q == None;
    }
    assert None in {p, q} && Some(ZeroDigest()) in {p, q} ==> PrevBytes(p) == PrevBytes(q);
  }

  /** Rows with one hash are the same row, or a collision. */
  lemma RowBinding(hash: Hash, a: Row, b: Row) returns (f: Finding)
    requires HashSound(hash, a) && HashSound(hash, b) && a.rowHash == b.rowHash
    ensures f.Sound(hash) && !f.ZeroHash?
    ensures f.Same? ==> SameRow(a, b)
  {
    var (x, y) := (RowInput(a.columns, a.prevHash), RowInput(b.columns, b.prevHash));
    if x == y {
      RowInputInjective(a.columns, a.prevHash, b.columns, b.prevHash);
      f := Same;
    } else {
      f := Collision(x, y);
    }
  }

  /** Rows with different ids have different hashes, or a collision. */
  lemma HashesDistinct(hash: Hash, rows: seq<Row>) returns (f: Finding)
    requires UniqueIds(rows) && forall i :: 0 <= i < |rows| ==> HashSound(hash, rows[i])
    ensures f.Sound(hash) && !f.ZeroHash?
    ensures f.Same? ==> Distinct(RowHashes(rows))
  {
    hide RowInput, HashSound;
    if i, j :| 0 <= i < j < |rows| && rows[i].rowHash == rows[j].rowHash {
      f := RowBinding(hash, rows[i], rows[j]);
    } else {
      f := Same;
    }
  }

  lemma RowsBinding(hash: Hash, a: seq<Row>, b: seq<Row>) returns (f: Finding)
    requires RowHashes(a) == RowHashes(b)
    requires forall i :: 0 <= i < |a| ==> HashSound(hash, a[i])
    requires forall i :: 0 <= i < |b| ==> HashSound(hash, b[i])
    ensures f.Sound(hash) && !f.ZeroHash?
    ensures f.Same? ==> SameRows(a, b)
  {
    hide RowInput, HashSound, SameRow;
    assert |a| == |b|;
    for i := 0 to |a|
      invariant forall k :: 0 <= k < i ==> SameRow(a[k], b[k])
    {
      assert RowHashes(a)[i] == RowHashes(b)[i];
      f := RowBinding(hash, a[i], b[i]);
      if !f.Same? {
        return;
      }
    }
    f := Same;
  }

  lemma SoundDayHashes(suite: Suite, ledger: Ledger, day: Day)
    requires ledger.DaySound(suite, day)
    ensures forall i :: 0 <= i < |DayRows(ledger.rows, day)| ==> HashSound(suite.hash, DayRows(ledger.rows, day)[i])
  {
    hide RowInput, DayRows;
    var today := DayRows(ledger.rows, day);
    forall i | 0 <= i < |today| ensures HashSound(suite.hash, today[i]) {
      assert RowSound(suite, suite.dailyKey(day), TailBefore(ledger.rows, day), today, i);
    }
  }

  /**
   * A checkpoint commits its day, whatever the number of rows: two tables that pass verification of a day
   * against one root hold the same rows of that day, or there is a collision. Deleting the whole day is the
   * one exception: it passes with any checkpoint.
   */
  lemma CheckpointBinding(suite: Suite, start: Option<Day>, day: Day, a: Ledger, b: Ledger) returns (f: Finding)
    requires !a.OutOfScope(start, day)
    requires a.Accepts(suite, start, day) && b.Accepts(suite, start, day)
    requires day in a.checkpoints && day in b.checkpoints
    requires a.checkpoints[day].root == b.checkpoints[day].root
    requires UniqueIds(DayRows(a.rows, day)) && UniqueIds(DayRows(b.rows, day))
    ensures f.Sound(suite.hash) && !f.ZeroHash?
    ensures f.Same? ==>
              || DayRows(a.rows, day) == [] || DayRows(b.rows, day) == []
              || (SameRows(DayRows(a.rows, day), DayRows(b.rows, day))
                  && SamePrevsIn(DayRows(a.rows, day), DayRows(b.rows, day)))
  {
    hide RowInput, DayRows, HashSound, Merkle.Root;
    var (x, y) := (DayRows(a.rows, day), DayRows(b.rows, day));
    f := Same;
    if x != [] && y != [] {
      SoundDayHashes(suite, a, day);
      SoundDayHashes(suite, b, day);
      f := DayBinding(suite.hash, x, y);
      if f.Same? {
        DayPrevs(suite, a, b, day);
      }
    }
  }

  /** All previous hashes are equal, but the first may be missing in one and 32 zero bytes in the other. */
  ghost predicate SamePrevsIn(a: seq<Row>, b: seq<Row>) {
    && |a| == |b| && (forall i :: 0 < i < |a| ==> a[i].prevHash == b[i].prevHash)
    && (a != [] ==> a[0].prevHash == b[0].prevHash || {a[0].prevHash, b[0].prevHash} == {None, Some(ZeroDigest())})
  }

  lemma DayPrevs(suite: Suite, a: Ledger, b: Ledger, day: Day)
    requires a.DaySound(suite, day) && b.DaySound(suite, day)
    requires SameRows(DayRows(a.rows, day), DayRows(b.rows, day))
    ensures SamePrevsIn(DayRows(a.rows, day), DayRows(b.rows, day))
  {
    hide RowInput, DayRows, HashSound, Merkle.Root, SignedMessage, SameColumns;
    var (x, y) := (DayRows(a.rows, day), DayRows(b.rows, day));
    forall i | 0 < i < |x| ensures x[i].prevHash == y[i].prevHash {
      assert RowSound(suite, suite.dailyKey(day), TailBefore(a.rows, day), x, i);
      assert RowSound(suite, suite.dailyKey(day), TailBefore(b.rows, day), y, i);
      assert SameRow(x[i - 1], y[i - 1]);
    }
    if x != [] {
      assert SameRow(x[0], y[0]);
      PrevBytesEqual(x[0].prevHash, y[0].prevHash);
    }
  }

  lemma DayBinding(hash: Hash, x: seq<Row>, y: seq<Row>) returns (f: Finding)
    requires x != [] && y != [] && UniqueIds(x) && UniqueIds(y)
    requires forall i :: 0 <= i < |x| ==> HashSound(hash, x[i])
    requires forall i :: 0 <= i < |y| ==> HashSound(hash, y[i])
    requires Merkle.Root(hash, RowHashes(x)) == Merkle.Root(hash, RowHashes(y))
    ensures f.Sound(hash) && !f.ZeroHash?
    ensures f.Same? ==> SameRows(x, y)
  {
    hide Merkle.Root, SameRows;
    f := HashesDistinct(hash, x);
    if f.Same? {
      f := HashesDistinct(hash, y);
    }
    if f.Same? {
      f := Merkle.RootBinding(hash, RowHashes(x), RowHashes(y), RowInput(x[0].columns, x[0].prevHash),
                              RowInput(y[0].columns, y[0].prevHash));
    }
    if f.Same? {
      f := RowsBinding(hash, x, y);
    }
  }

  // ----- the whole history -----

  lemma LinkedPrefix(hash: Hash, rows: seq<Row>, n: nat)
    requires Linked(hash, None, rows) && n <= |rows|
    ensures Linked(hash, None, rows[..n])
  {
    hide RowInput, HashSound;
    forall i | 0 <= i < n
      ensures rows[..n][i].prevHash == ExpectedPrev(None, rows[..n], i) && HashSound(hash, rows[..n][i])
    {
      assert rows[i].prevHash == ExpectedPrev(None, rows, i);
    }
  }

  /**
   * The hash of the last row commits the whole history: two chains from the first row on, of any lengths,
   * that end in one hash are the same rows, or there is a collision, or some row hashes to 32 zero bytes,
   * the stand-in for "no previous row".
   */
  lemma {:induction false} HistoryBinding(hash: Hash, a: seq<Row>, b: seq<Row>) returns (f: Finding)
    requires a != [] && b != [] && Linked(hash, None, a) && Linked(hash, None, b)
    requires a[|a| - 1].rowHash == b[|b| - 1].rowHash
    ensures f.Sound(hash)
    ensures f.Same? ==> |a| == |b| && SameRows(a, b) && SamePrevs(a, b)
    decreases |a|
  {
    hide RowInput, SameRow, SameRows, SamePrevs, HashSound, Linked;
    f := LastRows(hash, a, b);
    if f.Same? && |a| > 1 && |b| > 1 {
      OneRowShorter(hash, a, b);
      f := HistoryBinding(hash, a[..|a| - 1], b[..|b| - 1]);
    } else if f.Same? {
      f := FirstRows(hash, a, b);
    }
    if f.Same? {
      SameHistory(hash, a, b);
    }
  }

  lemma LastRows(hash: Hash, a: seq<Row>, b: seq<Row>) returns (f: Finding)
    requires a != [] && b != [] && Linked(hash, None, a) && Linked(hash, None, b)
    requires a[|a| - 1].rowHash == b[|b| - 1].rowHash
    ensures f.Sound(hash)
    ensures f.Same? ==> SameRow(a[|a| - 1], b[|b| - 1])
  {
    hide RowInput, SameRow, HashSound;
    f := RowBinding(hash, a[|a| - 1], b[|b| - 1]);
  }

  /** Dropping two equal last rows leaves two chains that end in one hash. */
  lemma OneRowShorter(hash: Hash, a: seq<Row>, b: seq<Row>)
    requires |a| > 1 && |b| > 1 && Linked(hash, None, a) && Linked(hash, None, b)
    requires SameRow(a[|a| - 1], b[|b| - 1])
    ensures var (x, y) := (a[..|a| - 1], b[..|b| - 1]);
            Linked(hash, None, x) && Linked(hash, None, y) && x[|x| - 1].rowHash == y[|y| - 1].rowHash
  {
    hide RowInput, HashSound;
    LinkedPrefix(hash, a, |a| - 1);
    LinkedPrefix(hash, b, |b| - 1);
    assert a[|a| - 1].prevHash == ExpectedPrev(None, a, |a| - 1);
    assert b[|b| - 1].prevHash == ExpectedPrev(None, b, |b| - 1);
  }

  lemma FirstRows(hash: Hash, a: seq<Row>, b: seq<Row>) returns (f: Finding)
    requires a != [] && b != [] && (|a| == 1 || |b| == 1) && Linked(hash, None, a) && Linked(hash, None, b)
    requires SameRow(a[|a| - 1], b[|b| - 1])
    ensures f.Sound(hash)
    ensures f.Same? ==> |a| == |b| == 1 && SameRows(a[..|a| - 1], b[..|b| - 1])
  {
    hide RowInput, SameRow, Linked;
    if |a| > 1 {
      FirstRowPrev(hash, b);
      f := FirstRowMeets(hash, a, b[0]);
    } else if |b| > 1 {
      FirstRowPrev(hash, a);
      f := FirstRowMeets(hash, b, a[0]);
    } else {
      f := Same;
    }
  }

  lemma FirstRowPrev(hash: Hash, rows: seq<Row>)
    requires rows != [] && Linked(hash, None, rows)
    ensures rows[0].prevHash == None
  {
    hide RowInput, HashSound;
    assert rows[0].prevHash == ExpectedPrev(None, rows, 0);
  }

  /** A row of one chain is the first row of another: its predecessor hashes to zero. */
  lemma FirstRowMeets(hash: Hash, rows: seq<Row>, first: Row) returns (f: Finding)
    requires |rows| > 1 && Linked(hash, None, rows) && first.prevHash == None
    requires SameRow(rows[|rows| - 1], first) || SameRow(first, rows[|rows| - 1])
    ensures f.Sound(hash) && f.ZeroHash?
  {
    hide RowInput;
    var before := rows[|rows| - 2];
    assert HashSound(hash, before);
    f := ZeroHash(RowInput(before.columns, before.prevHash));
  }

  lemma SameHistory(hash: Hash, a: seq<Row>, b: seq<Row>)
    requires a != [] && |a| == |b| && Linked(hash, None, a) && Linked(hash, None, b)
    requires SameRow(a[|a| - 1], b[|b| - 1])
    requires SameRows(a[..|a| - 1], b[..|b| - 1])
    ensures SameRows(a, b) && SamePrevs(a, b)
  {
    hide Linked, SameRow, SameRows, SamePrevs;
    SameRowsGrow(a, b);
    SamePredecessors(hash, a, b);
  }

  lemma SameRowsGrow(a: seq<Row>, b: seq<Row>)
    requires a != [] && |a| == |b| && SameRow(a[|a| - 1], b[|b| - 1])
    requires SameRows(a[..|a| - 1], b[..|b| - 1])
    ensures SameRows(a, b)
  {
    hide SameRow;
    var m := |a| - 1;
    forall i | 0 <= i < m ensures SameRow(a[i], b[i]) {
      assert SameRow(a[..m][i], b[..m][i]);
    }
  }

  lemma SamePredecessors(hash: Hash, a: seq<Row>, b: seq<Row>)
    requires |a| == |b| && SameRows(a, b) && Linked(hash, None, a) && Linked(hash, None, b)
    ensures SamePrevs(a, b)
  {
    hide RowInput, HashSound, SameColumns, PrevBytes;
    forall i | 0 <= i < |a| ensures a[i].prevHash == b[i].prevHash {
      assert a[i].prevHash == ExpectedPrev(None, a, i) && b[i].prevHash == ExpectedPrev(None, b, i);
      assert i > 0 ==> SameRow(a[i - 1], b[i - 1]);
    }
  }
}
