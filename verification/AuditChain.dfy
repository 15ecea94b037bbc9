/** The audit table, the hash chain through it, and the daily signature and verification. */
module AuditChain {
  import opened Common
  import opened Text
  import opened Calendar
  import opened AuditRows
  import Merkle

  /** The cryptographic primitives, as functions; Lawful says all that is assumed of them. */
  datatype Suite = Suite(
    hash: Hash,
    mac: (seq<Byte>, seq<Byte>) -> Digest,
    dailyKey: Day -> seq<Byte>,
    sign: seq<Byte> -> seq<Byte>,
    checkSignature: (seq<Byte>, seq<Byte>) -> bool,
    tokenParses: seq<Byte> -> bool)
  {
    ghost predicate Lawful() {
      forall message :: checkSignature(sign(message), message)
    }
  }

  /** A stored row of `audit_logs`. */
  datatype Row = Row(columns: Columns, dayBucket: Day, prevHash: Option<Digest>, rowHash: Digest, mac: Digest)

  datatype Checkpoint = Checkpoint(root: Digest, signature: seq<Byte>, token: Option<seq<Byte>>)

  function PrevBytes(prev: Option<Digest>): Digest {
    match prev
    case None => ZeroDigest()
    case Some(h) => h
  }

  /** What is hashed for a row. */
  function RowInput(c: Columns, prev: Option<Digest>): (b: seq<Byte>)
    ensures |b| > 64
  {
    CanonicalIsLong(c);
    CanonicalJson(c) + PrevBytes(prev)
  }

  function SignedMessage(root: Digest, day: Day): seq<Byte> {
    var r: seq<Byte> := root;
    r + Utf8(DateText(day))
  }

  // ----- queries -----

  /** The order of `ORDER BY created_at, id`. */
  predicate Before(a: Row, b: Row) {
    var (s, t) := (a.columns.createdAt.Utc(), b.columns.createdAt.Utc());
    s < t || (s == t && a.columns.id < b.columns.id)
  }

  /** The order of `ORDER BY day_bucket, created_at, id`. */
  predicate BucketBefore(a: Row, b: Row) {
    a.dayBucket < b.dayBucket || (a.dayBucket == b.dayBucket && Before(a, b))
  }

  function InsertRow(sorted: seq<Row>, r: Row): (s: seq<Row>)
    ensures multiset(s) == multiset(sorted) + multiset{r}
  {
    if sorted == [] || !Before(r, sorted[|sorted| - 1]) then sorted + [r]
    else
      assert sorted == sorted[..|sorted| - 1] + [sorted[|sorted| - 1]];
      InsertRow(sorted[..|sorted| - 1], r) + [sorted[|sorted| - 1]]
  }

  function SortRows(rows: seq<Row>): (s: seq<Row>)
    ensures multiset(s) == multiset(rows)
  {
    if rows == [] then []
    else
      assert rows == rows[..|rows| - 1] + [rows[|rows| - 1]];
      InsertRow(SortRows(rows[..|rows| - 1]), rows[|rows| - 1])
  }

  function RowsOn(table: seq<Row>, day: Day): seq<Row> {
    if table == [] then []
    else
      var last := table[|table| - 1];
      RowsOn(table[..|table| - 1], day) + if last.dayBucket == day then [last] else []
  }

  /** `_fetch_day_rows`. */
  function DayRows(table: seq<Row>, day: Day): seq<Row> {
    SortRows(RowsOn(table, day))
  }

  predicate InOrder(rows: seq<Row>) {
    forall i, j :: 0 <= i < j < |rows| ==> Before(rows[i], rows[j])
  }

  /** The latest row by (created_at, id). */
  function LastRow(table: seq<Row>): Option<Row> {
    if table == [] then None
    else
      match LastRow(table[..|table| - 1])
      case None => Some(table[|table| - 1])
      case Some(r) => Some(if Before(table[|table| - 1], r) then r else table[|table| - 1])
  }

  function HashOf(r: Option<Row>): Option<Digest> {
    match r
    case None => None
    case Some(row) => Some(row.rowHash)
  }

  /** `_last_row_hash`. */
  function LastHash(table: seq<Row>): Option<Digest> {
    HashOf(LastRow(table))
  }

  /** The latest row of an earlier day, by (day_bucket, created_at, id). */
  function RowBefore(table: seq<Row>, day: Day): Option<Row> {
    if table == [] then None
    else
      var last := table[|table| - 1];
      match RowBefore(table[..|table| - 1], day)
      case None => if last.dayBucket < day then Some(last) else None
      case Some(r) => Some(if last.dayBucket >= day || BucketBefore(last, r) then r else last)
  }

  function TailBefore(table: seq<Row>, day: Day): Option<Digest> {
    HashOf(RowBefore(table, day))
  }

  // ----- chaining -----

  function ChainRow(suite: Suite, today: Day, prev: Option<Digest>, c: Columns): Row {
    var h := suite.hash(RowInput(c, prev));
    Row(c, UtcDay(c.createdAt), prev, h, suite.mac(suite.dailyKey(today), h))
  }

  /** The rows a batch becomes when it is chained onto `prev` under the key of `today`. */
  function ChainRows(suite: Suite, today: Day, prev: Option<Digest>, batch: seq<Columns>): (rows: seq<Row>)
    ensures |rows| == |batch|
    decreases |batch|
  {
    if batch == [] then []
    else
      var r := ChainRow(suite, today, prev, batch[0]);
      [r] + ChainRows(suite, today, Some(r.rowHash), batch[1..])
  }

  /** The hash the i-th row must point back to. */
  function ExpectedPrev(prev: Option<Digest>, rows: seq<Row>, i: nat): Option<Digest>
    requires i <= |rows|
  {
    if i == 0 then prev else Some(rows[i - 1].rowHash)
  }

  predicate HashSound(hash: Hash, r: Row) {
    r.rowHash == hash(RowInput(r.columns, r.prevHash))
  }

  /** Every row points back to its predecessor, the first one to `prev`, and carries its own hash. */
  predicate Linked(hash: Hash, prev: Option<Digest>, rows: seq<Row>) {
    forall i :: 0 <= i < |rows| ==> rows[i].prevHash == ExpectedPrev(prev, rows, i) && HashSound(hash, rows[i])
  }

  lemma {:induction false} ChainRowsAt(suite: Suite, today: Day, prev: Option<Digest>, batch: seq<Columns>, i: nat)
    requires i < |batch|
    ensures var rows := ChainRows(suite, today, prev, batch);
            rows[i] == ChainRow(suite, today, ExpectedPrev(prev, rows, i), batch[i])
    decreases i
  {
    hide RowInput;
    if i > 0 {
      var first := ChainRow(suite, today, prev, batch[0]);
      ChainRowsAt(suite, today, Some(first.rowHash), batch[1..], i - 1);
    }
  }

  lemma ChainRowsLinked(suite: Suite, today: Day, prev: Option<Digest>, batch: seq<Columns>)
    ensures Linked(suite.hash, prev, ChainRows(suite, today, prev, batch))
  {
    forall i | 0 <= i < |batch|
      ensures var rows := ChainRows(suite, today, prev, batch);
              rows[i] == ChainRow(suite, today, ExpectedPrev(prev, rows, i), batch[i])
    {
      ChainRowsAt(suite, today, prev, batch, i);
    }
  }

  /** An `AuditLog` object that has not been inserted yet. */
  class AuditLog {
    const content: Content
    var id: Option<Uuid>
    var createdAt: Option<Stamp>
    var dayBucket: Option<Day>
    var prevHash: Option<Digest>
    var rowHash: Option<Digest>
    var mac: Option<Digest>

    constructor (content: Content, id: Option<Uuid>, createdAt: Option<Stamp>)
      ensures this.content == content && this.id == id && this.createdAt == createdAt
      ensures rowHash == None
    {
      this.content, this.id, this.createdAt := content, id, createdAt;
      dayBucket, prevHash, rowHash, mac := None, None, None, None;
    }

    /** The columns to be hashed: a missing id or time is taken from the defaults. */
    function Filled(newId: Uuid, now: Stamp): Columns
      reads this
    {
      Columns(if id.Some? then id.value else newId, content, if createdAt.Some? then createdAt.value else now)
    }

    /** The body of the loop of `finalize_chain`: the entry becomes the row after `prev`. */
    method Finalize(suite: Suite, today: Day, prev: Option<Digest>, newId: Uuid, now: Stamp)
      modifies this
      ensures Holds(ChainRow(suite, today, prev, old(Filled(newId, now))))
      ensures id == if old(id).Some? then old(id) else Some(newId)
      ensures createdAt == if old(createdAt).Some? then old(createdAt) else Some(now)
    {
      hide RowInput, UtcDay;
      ghost var columns := Filled(newId, now);
      if id == None {
        id := Some(newId);
      }
      if createdAt == None {
        createdAt := Some(now);
      }
      assert Columns(id.value, content, createdAt.value) == columns;
      dayBucket := Some(UtcDay(createdAt.value));
      prevHash := prev;
      var h := suite.hash(RowInput(Columns(id.value, content, createdAt.value), prev));
      rowHash := Some(h);
      mac := Some(suite.mac(suite.dailyKey(today), h));
    }

    /** The object carries exactly the values of a row. */
    predicate Holds(r: Row)
      reads this
    {
      && id == Some(r.columns.id) && createdAt == Some(r.columns.createdAt) && content == r.columns.content
      && dayBucket == Some(r.dayBucket) && prevHash == r.prevHash
      && rowHash == Some(r.rowHash) && mac == Some(r.mac)
    }
  }

  // ----- verification -----

  /** What `verify_day` answers; the row faults carry the index of the row. */
  datatype Outcome =
    | Accepted
    | PrevMismatch(i: nat)
    | RowHashMismatch(i: nat)
    | MacMismatch(i: nat)
    | NoCheckpoint
    | RootMismatch
    | BadSignature
    | BadToken

  /** The row passes the loop of `verify_day`, its predecessor being the expected one. */
  predicate RowSound(suite: Suite, key: seq<Byte>, prev: Option<Digest>, rows: seq<Row>, i: nat)
    requires i < |rows|
  {
    && rows[i].prevHash == ExpectedPrev(prev, rows, i)
    && HashSound(suite.hash, rows[i])
    && rows[i].mac == suite.mac(key, rows[i].rowHash)
  }

  predicate RowsSound(suite: Suite, key: seq<Byte>, prev: Option<Digest>, rows: seq<Row>, n: nat)
    requires n <= |rows|
  {
    forall i :: 0 <= i < n ==> RowSound(suite, key, prev, rows, i)
  }

  ghost predicate FirstFault(suite: Suite, key: seq<Byte>, prev: Option<Digest>, rows: seq<Row>, i: nat) {
    i < |rows| && RowsSound(suite, key, prev, rows, i) && !RowSound(suite, key, prev, rows, i)
  }

  /** The first row that fails, and the first of its checks that fails. */
  ghost predicate RowFault(suite: Suite, key: seq<Byte>, prev: Option<Digest>, rows: seq<Row>, fault: Outcome) {
    match fault
    case PrevMismatch(i) =>
      FirstFault(suite, key, prev, rows, i) && rows[i].prevHash != ExpectedPrev(prev, rows, i)
    case RowHashMismatch(i) =>
      && FirstFault(suite, key, prev, rows, i)
      && rows[i].prevHash == ExpectedPrev(prev, rows, i) && !HashSound(suite.hash, rows[i])
    case MacMismatch(i) =>
      && FirstFault(suite, key, prev, rows, i)
      && rows[i].prevHash == ExpectedPrev(prev, rows, i) && HashSound(suite.hash, rows[i])
    case _ => false
  }

  lemma SoundLeaves(suite: Suite, key: seq<Byte>, prev: Option<Digest>, rows: seq<Row>, leaves: seq<Digest>)
    requires RowsSound(suite, key, prev, rows, |rows|) && |leaves| == |rows|
    requires forall i :: 0 <= i < |rows| ==> leaves[i] == suite.hash(RowInput(rows[i].columns, rows[i].prevHash))
    ensures leaves == RowHashes(rows)
  {
    hide RowInput;
    forall i | 0 <= i < |rows| ensures leaves[i] == rows[i].rowHash {
      assert RowSound(suite, key, prev, rows, i);
    }
  }

  function RowHashes(rows: seq<Row>): (hashes: seq<Digest>)
    ensures |hashes| == |rows|
  {
    seq(|rows|, i requires 0 <= i < |rows| => rows[i].rowHash)
  }

  /** The stored table and its signed checkpoints. */
  datatype Ledger = Ledger(rows: seq<Row>, checkpoints: map<Day, Checkpoint>)
  {
    /** Days before the chain starts are out of scope. */
    predicate OutOfScope(start: Option<Day>, day: Day) {
      start.Some? && day < start.value
    }

    predicate CheckpointSound(suite: Suite, day: Day)
      requires day in checkpoints
    {
      var c := checkpoints[day];
      && c.root == Merkle.Root(suite.hash, RowHashes(DayRows(rows, day)))
      && suite.checkSignature(c.signature, SignedMessage(c.root, day))
      && (c.token.Some? ==> suite.tokenParses(c.token.value))
    }

    /** All a verified day stands for. */
    predicate DaySound(suite: Suite, day: Day) {
      var today := DayRows(rows, day);
      && RowsSound(suite, suite.dailyKey(day), TailBefore(rows, day), today, |today|)
      && day in checkpoints
      && CheckpointSound(suite, day)
    }

    /** The outcome names the first check that fails, or that there is none. */
    ghost predicate Explains(suite: Suite, start: Option<Day>, day: Day, outcome: Outcome) {
      var today := DayRows(rows, day);
      if OutOfScope(start, day) || today == [] then
        outcome.Accepted?
      else
        var (key, prev) := (suite.dailyKey(day), TailBefore(rows, day));
        var rowsSound := RowsSound(suite, key, prev, today, |today|);
        match outcome
        case Accepted => DaySound(suite, day)
        case NoCheckpoint => rowsSound && day !in checkpoints
        case RootMismatch =>
          rowsSound && day in checkpoints && checkpoints[day].root != Merkle.Root(suite.hash, RowHashes(today))
        case BadSignature =>
          && rowsSound && day in checkpoints && checkpoints[day].root == Merkle.Root(suite.hash, RowHashes(today))
          && !suite.checkSignature(checkpoints[day].signature, SignedMessage(checkpoints[day].root, day))
        case BadToken =>
          && rowsSound && day in checkpoints && checkpoints[day].root == Merkle.Root(suite.hash, RowHashes(today))
          && suite.checkSignature(checkpoints[day].signature, SignedMessage(checkpoints[day].root, day))
          && checkpoints[day].token.Some? && !suite.tokenParses(checkpoints[day].token.value)
        case _ => RowFault(suite, key, prev, today, outcome)
    }

    ghost predicate Accepts(suite: Suite, start: Option<Day>, day: Day) {
      Explains(suite, start, day, Accepted)
    }
  }

  /** There is one explanation, so Explains pins down the answer of `verify_day`. */
  lemma ExplanationUnique(ledger: Ledger, suite: Suite, start: Option<Day>, day: Day, a: Outcome, b: Outcome)
    requires ledger.Explains(suite, start, day, a) && ledger.Explains(suite, start, day, b)
    ensures a == b
  {
    hide RowInput, SignedMessage;
    var (key, prev, today) := (suite.dailyKey(day), TailBefore(ledger.rows, day), DayRows(ledger.rows, day));
    if i, j :| FirstFault(suite, key, prev, today, i) && FirstFault(suite, key, prev, today, j) && i != j {
      OneFirstFault(suite, key, prev, today, i, j);
    }
  }

  lemma OneFirstFault(suite: Suite, key: seq<Byte>, prev: Option<Digest>, rows: seq<Row>, i: nat, j: nat)
    requires FirstFault(suite, key, prev, rows, i) && FirstFault(suite, key, prev, rows, j)
    ensures i == j
  {
    hide RowInput;
  }

  // ----- the stateful operations -----

  class AuditStore {
    const suite: Suite
    const start: Option<Day>
    var rows: seq<Row>
    var checkpoints: map<Day, Checkpoint>

    constructor (suite: Suite, start: Option<Day>, rows: seq<Row>)
      ensures this.suite == suite && this.start == start && View() == Ledger(rows, map[])
    {
      this.suite, this.start, this.rows, checkpoints := suite, start, rows, map[];
    }

    function View(): Ledger
      reads this
    {
      Ledger(rows, checkpoints)
    }

    /** The columns of a list of entries, the defaults being drawn in list order. */
    static function Batch(entries: seq<AuditLog>, ids: seq<Uuid>, clock: seq<Stamp>): (batch: seq<Columns>)
      requires |entries| == |ids| == |clock|
      reads entries
      ensures |batch| == |entries|
    {
      seq(|entries|, i requires 0 <= i < |entries| reads entries => entries[i].Filled(ids[i], clock[i]))
    }

    /**
     * `finalize_chain`, under the lock: the entries become the rows that continue the chain. The values
     * `uuid4()` and `now()` would give are passed in, as is the day whose key is used.
     */
    method FinalizeChain(entries: seq<AuditLog>, today: Day, ids: seq<Uuid>, clock: seq<Stamp>)
      requires Distinct(entries) && |entries| == |ids| == |clock|
      modifies entries
      ensures var chained := ChainRows(suite, today, LastHash(rows), old(Batch(entries, ids, clock)));
              forall i :: 0 <= i < |entries| ==> entries[i].Holds(chained[i])
    {
      hide RowInput;
      ghost var batch := Batch(entries, ids, clock);
      ghost var chained := ChainRows(suite, today, LastHash(rows), batch);
      var prev := LastHash(rows);
      for i := 0 to |entries|
        invariant prev == ExpectedPrev(LastHash(rows), chained, i)
        invariant forall k :: 0 <= k < i ==> entries[k].Holds(chained[k])
        invariant forall k :: i <= k < |entries| ==> entries[k].Filled(ids[k], clock[k]) == batch[k]
      {
        entries[i].Finalize(suite, today, prev, ids[i], clock[i]);
        prev := entries[i].rowHash;
        ChainRowsAt(suite, today, LastHash(rows), batch, i);
      }
    }

    /** `sign_day`: a first call anchors the day's rows, a later one finds the checkpoint and keeps it. */
    method SignDay(day: Day, token: Option<seq<Byte>>) returns (c: Option<Checkpoint>)
      modifies this`checkpoints
      ensures View() == Sign(suite, old(View()), day, token)
      ensures c.Some? <==> day in checkpoints
      ensures c.Some? ==> c.value == checkpoints[day]
    {
      if day in checkpoints {
        return Some(checkpoints[day]);
      }
      var today := DayRows(rows, day);
      if today == [] {
        return None;
      }
      var root, _ := Merkle.MerkleRoot(suite.hash, RowHashes(today));
      var checkpoint := Checkpoint(root, suite.sign(SignedMessage(root, day)), token);
      checkpoints := checkpoints[day := checkpoint];
      return Some(checkpoint);
    }

    /** The loop of `verify_day` over a day's rows. */
    static method CheckRows(suite: Suite, key: seq<Byte>, tail: Option<Digest>, rows: seq<Row>)
      returns (outcome: Outcome)
      ensures if outcome.Accepted? then RowsSound(suite, key, tail, rows, |rows|)
              else RowFault(suite, key, tail, rows, outcome)
    {
      hide RowInput;
      var prev := tail;
      for i := 0 to |rows|
        invariant prev == ExpectedPrev(tail, rows, i)
        invariant RowsSound(suite, key, tail, rows, i)
      {
        var row := rows[i];
        if row.prevHash != prev {
          return PrevMismatch(i);
        }
        var recomputed := suite.hash(RowInput(row.columns, prev));
        if row.rowHash != recomputed {
          return RowHashMismatch(i);
        }
        if row.mac != suite.mac(key, recomputed) {
          return MacMismatch(i);
        }
        prev := Some(recomputed);
      }
      return Accepted;
    }

    /** `verify_day`. */
    method VerifyDay(day: Day) returns (outcome: Outcome)
      ensures View().Explains(suite, start, day, outcome)
    {
      hide RowInput, SignedMessage, RowsSound, DayRows, TailBefore, Merkle.Root;
      if start.Some? && day < start.value {
        return Accepted;
      }
      var today := DayRows(rows, day);
      if today == [] {
        return Accepted;
      }
      outcome := CheckRows(suite, suite.dailyKey(day), TailBefore(rows, day), today);
      if !outcome.Accepted? {
        return;
      }
      var leaves := seq<Digest>(|today|, i requires 0 <= i < |today| =>
        suite.hash(RowInput(today[i].columns, today[i].prevHash)));
      SoundLeaves(suite, suite.dailyKey(day), TailBefore(rows, day), today, leaves);
      var root, _ := Merkle.MerkleRoot(suite.hash, leaves);
      if day !in checkpoints {
        return NoCheckpoint;
      }
      var checkpoint := checkpoints[day];
      if checkpoint.root != root {
        return RootMismatch;
      }
      if !suite.checkSignature(checkpoint.signature, SignedMessage(root, day)) {
        return BadSignature;
      }
      if checkpoint.token.Some? && !suite.tokenParses(checkpoint.token.value) {
        return BadToken;
      }
      return Accepted;
    }
  }

  /** The ledger after `sign_day`. */
  function Sign(suite: Suite, ledger: Ledger, day: Day, token: Option<seq<Byte>>): Ledger {
    var today := DayRows(ledger.rows, day);
    if day in ledger.checkpoints || today == [] then ledger
    else
      var root := Merkle.Root(suite.hash, RowHashes(today));
      ledger.(checkpoints := ledger.checkpoints[day := Checkpoint(root, suite.sign(SignedMessage(root, day)), token)])
  }
}
