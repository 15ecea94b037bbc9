/** The queries of the chain on any table, in order or not, and the bytes that are hashed and signed. */
module ChainQueries {
  import opened Common
  import opened Text
  import opened Calendar
  import opened AuditRows
  import opened AuditChain
  import Merkle
  import Readings

  // ----- ORDER BY created_at, id -----

  /** `a` is not later than `b` by (created_at, id). */
  ghost predicate NotLater(a: Row, b: Row) {
    var (s, t) := (a.columns.createdAt.Utc(), b.columns.createdAt.Utc());
    s < t || (s == t && a.columns.id <= b.columns.id)
  }

  lemma BeforeIsEarlier(a: Row, b: Row)
    ensures Before(a, b) <==> !NotLater(b, a)
  {
  }

  ghost predicate Ascending(rows: seq<Row>) {
    forall i, j :: 0 <= i < j < |rows| ==> NotLater(rows[i], rows[j])
  }

  lemma {:induction false} InsertAscends(sorted: seq<Row>, r: Row)
    requires Ascending(sorted)
    ensures Ascending(InsertRow(sorted, r))
  {
    if sorted != [] && Before(r, sorted[|sorted| - 1]) {
      var (init, last) := (sorted[..|sorted| - 1], sorted[|sorted| - 1]);
      InsertAscends(init, r);
      var some := InsertRow(init, r);
      assert InsertRow(sorted, r) == some + [last];
      forall i | 0 <= i < |some| ensures NotLater(some[i], last) {
        assert some[i] in multiset(some);
        assert some[i] == r || some[i] in init;
      }
    } else if sorted != [] {
      BeforeIsEarlier(r, sorted[|sorted| - 1]);
      assert InsertRow(sorted, r) == sorted + [r];
      forall i | 0 <= i < |sorted| ensures NotLater(sorted[i], r) {
        assert i < |sorted| - 1 ==> NotLater(sorted[i], sorted[|sorted| - 1]);
      }
    }
  }

  lemma {:induction false} SortAscends(rows: seq<Row>)
    ensures Ascending(SortRows(rows))
  {
    if rows != [] {
      SortAscends(rows[..|rows| - 1]);
      InsertAscends(SortRows(rows[..|rows| - 1]), rows[|rows| - 1]);
    }
  }

  lemma {:induction false} RowsOnAre(table: seq<Row>, day: Day, r: Row)
    ensures multiset(RowsOn(table, day))[r] == if r.dayBucket == day then multiset(table)[r] else 0
  {
    if table != [] {
      var (init, last) := (table[..|table| - 1], table[|table| - 1]);
      RowsOnAre(init, day, r);
      assert table == init + [last];
    }
  }

  /** A day's rows are exactly the table's rows in its bucket, each as often as there, ordered by (created_at, id). */
  lemma DayRowsAre(table: seq<Row>, day: Day)
    ensures Ascending(DayRows(table, day))
    ensures forall r :: multiset(DayRows(table, day))[r] == if r.dayBucket == day then multiset(table)[r] else 0
  {
    SortAscends(RowsOn(table, day));
    forall r ensures multiset(DayRows(table, day))[r] == if r.dayBucket == day then multiset(table)[r] else 0 {
      RowsOnAre(table, day, r);
    }
  }

  /** The row whose hash `_last_row_hash` reads is in the table, and no row of it is later. */
  lemma {:induction false} LastIsLatest(table: seq<Row>)
    ensures LastRow(table).None? <==> table == []
    ensures LastRow(table).Some? ==> LastRow(table).value in table
    ensures LastRow(table).Some? ==> forall r :: r in table ==> NotLater(r, LastRow(table).value)
    ensures LastHash(table) == if table == [] then None else Some(LastRow(table).value.rowHash)
  {
    if table != [] {
      var (init, last) := (table[..|table| - 1], table[|table| - 1]);
      LastIsLatest(init);
      assert table == init + [last];
      if init != [] {
        var r := LastRow(init).value;
        BeforeIsEarlier(last, r);
        hide Before, NotLater;
        forall x | x in table ensures NotLater(x, LastRow(table).value) {
          if x in init {
            Latest(x, r, last);
          } else {
            Latest(last, last, r);
          }
        }
      }
    }
  }

  lemma Latest(a: Row, b: Row, c: Row)
    ensures NotLater(a, b) && NotLater(b, c) ==> NotLater(a, c)
    ensures NotLater(b, c) || NotLater(c, b)
    ensures NotLater(a, a)
  {
  }

  /** `a` is not later than `b` by (day_bucket, created_at, id). */
  ghost predicate NotLaterBucket(a: Row, b: Row) {
    a.dayBucket < b.dayBucket || (a.dayBucket == b.dayBucket && NotLater(a, b))
  }

  /** The row before a day is one of an earlier bucket, and no row of an earlier bucket is later. */
  lemma {:induction false} RowBeforeIsLatest(table: seq<Row>, day: Day)
    ensures RowBefore(table, day).None? <==> forall r :: r in table ==> r.dayBucket >= day
    ensures RowBefore(table, day).Some? ==>
              RowBefore(table, day).value in table && RowBefore(table, day).value.dayBucket < day
    ensures RowBefore(table, day).Some? ==>
              forall r :: r in table && r.dayBucket < day ==> NotLaterBucket(r, RowBefore(table, day).value)
    ensures TailBefore(table, day)
         == if RowBefore(table, day).None? then None else Some(RowBefore(table, day).value.rowHash)
  {
    if table != [] {
      var (init, last) := (table[..|table| - 1], table[|table| - 1]);
      RowBeforeIsLatest(init, day);
      assert table == init + [last];
      assert forall r :: r in table <==> r in init || r == last;
    }
  }

  // ----- the bytes -----

  /** What is hashed for a row: its canonical bytes, and then the previous hash or 32 zero bytes. */
  lemma RowInputIs(c: Columns, prev: Option<Digest>)
    ensures var b := RowInput(c, prev);
            && b[..|b| - 32] == CanonicalJson(c)
            && (prev.Some? ==> b[|b| - 32..] == prev.value)
            && (prev.None? ==> forall i :: |b| - 32 <= i < |b| ==> b[i] == 0)
  {
    hide CanonicalJson;
  }

  /** The characters of an ASCII text as bytes. */
  predicate SpellsOut(b: seq<Byte>, s: string) {
    |b| == |s| && forall i :: 0 <= i < |s| ==> b[i] as int == s[i] as int
  }

  lemma {:induction false} AsciiUtf8(s: string)
    requires forall i :: 0 <= i < |s| ==> s[i] as int < 128
    ensures SpellsOut(Utf8(s), s)
  {
    if s != "" {
      AsciiUtf8(s[1..]);
      assert Utf8(s) == [s[0] as int] + Utf8(s[1..]);
    }
  }

  lemma DateIsAscii(day: Day)
    ensures forall i :: 0 <= i < 10 ==> DateText(day)[i] as int < 128
  {
    hide CivilDate;
  }

  /** What is signed for a day: the 32 bytes of the root, then the ten characters of a date that names the day. */
  lemma SignedMessageIs(root: Digest, day: Day)
    ensures var m := SignedMessage(root, day); |m| == 42 && m[..32] == root
    ensures SpellsOut(SignedMessage(root, day)[32..], DateText(day)) && Readings.ReadDay(DateText(day)) == day
  {
    hide DateText, Utf8, Readings.ReadDay;
    DateIsAscii(day);
    AsciiUtf8(DateText(day));
    Readings.DateTextRead(day);
    var r: seq<Byte> := root;
    assert (r + Utf8(DateText(day)))[32..] == Utf8(DateText(day));
  }

  /** So a message is about one root and one day. */
  lemma SignedMessageInjective(root: Digest, day: Day, other: Digest, signed: Day)
    ensures SignedMessage(root, day) == SignedMessage(other, signed) <==> root == other && day == signed
  {
    hide DateText, SignedMessage, Readings.ReadDay;
    SignedMessageIs(root, day);
    SignedMessageIs(other, signed);
    if SignedMessage(root, day) == SignedMessage(other, signed) {
      assert DateText(day) == DateText(signed);
    }
  }

  // ----- signatures -----

  /** A signature checks against the message it was made on and no other. */
  ghost predicate Strict(suite: Suite) {
    forall m, n :: suite.checkSignature(suite.sign(m), n) <==> m == n
  }

  /**
   * Where the rows of a day and the stored root are right, but the signature was made for some root and some day,
   * the answer is `BadSignature` exactly if one of them is another.
   */
  lemma WrongSignatureIsSeen(suite: Suite, start: Option<Day>, ledger: Ledger, day: Day, root: Digest, signed: Day)
    requires Strict(suite) && !ledger.OutOfScope(start, day) && day in ledger.checkpoints
    requires DayRows(ledger.rows, day) != []
    requires var today := DayRows(ledger.rows, day);
             && RowsSound(suite, suite.dailyKey(day), TailBefore(ledger.rows, day), today, |today|)
             && ledger.checkpoints[day].root == Merkle.Root(suite.hash, RowHashes(today))
    requires ledger.checkpoints[day].signature == suite.sign(SignedMessage(root, signed))
    ensures ledger.Explains(suite, start, day, BadSignature) <==> root != ledger.checkpoints[day].root || signed != day
    ensures ledger.Accepts(suite, start, day) ==> root == ledger.checkpoints[day].root && signed == day
  {
    hide RowsSound, DayRows, TailBefore, Merkle.Root, RowHashes, SignedMessage, DateText;
    SignedMessageInjective(root, signed, ledger.checkpoints[day].root, day);
  }

  /** Where all else is right, a stored token that cannot be parsed is answered with `BadToken`, and no other. */
  lemma BadTokenIsSeen(suite: Suite, start: Option<Day>, ledger: Ledger, day: Day)
    requires !ledger.OutOfScope(start, day) && day in ledger.checkpoints
    requires DayRows(ledger.rows, day) != []
    requires var (today, c) := (DayRows(ledger.rows, day), ledger.checkpoints[day]);
             && RowsSound(suite, suite.dailyKey(day), TailBefore(ledger.rows, day), today, |today|)
             && c.root == Merkle.Root(suite.hash, RowHashes(today))
             && suite.checkSignature(c.signature, SignedMessage(c.root, day))
    ensures var token := ledger.checkpoints[day].token;
            && (ledger.Explains(suite, start, day, BadToken) <==> token.Some? && !suite.tokenParses(token.value))
            && (ledger.Accepts(suite, start, day) <==> token.None? || suite.tokenParses(token.value))
  {
    hide RowsSound, DayRows, TailBefore, Merkle.Root, RowHashes, SignedMessage;
  }

  lemma FaultOf(suite: Suite, key: seq<Byte>, tail: Option<Digest>, rows: seq<Row>, i: nat)
    requires i < |rows| && RowsSound(suite, key, tail, rows, i)
    ensures var right := rows[i].prevHash == if i == 0 then tail else Some(rows[i - 1].rowHash);
            var hashed := rows[i].rowHash == suite.hash(RowInput(rows[i].columns, rows[i].prevHash));
            var keyed := rows[i].mac == suite.mac(key, rows[i].rowHash);
            && (!right ==> RowFault(suite, key, tail, rows, PrevMismatch(i)))
            && (right && !hashed ==> RowFault(suite, key, tail, rows, RowHashMismatch(i)))
            && (right && hashed && !keyed ==> RowFault(suite, key, tail, rows, MacMismatch(i)))
            && (right && hashed && keyed ==> RowsSound(suite, key, tail, rows, i + 1))
  {
    hide RowInput;
  }

  /** The first row of a day that fails is named, by the first of its checks that fails: predecessor, hash, MAC. */
  lemma FaultIsNamed(suite: Suite, start: Option<Day>, ledger: Ledger, day: Day, i: nat)
    requires !ledger.OutOfScope(start, day) && i < |DayRows(ledger.rows, day)|
    requires RowsSound(suite, suite.dailyKey(day), TailBefore(ledger.rows, day), DayRows(ledger.rows, day), i)
    ensures var (rows, tail) := (DayRows(ledger.rows, day), TailBefore(ledger.rows, day));
            var right := rows[i].prevHash == if i == 0 then tail else Some(rows[i - 1].rowHash);
            var hashed := rows[i].rowHash == suite.hash(RowInput(rows[i].columns, rows[i].prevHash));
            var keyed := rows[i].mac == suite.mac(suite.dailyKey(day), rows[i].rowHash);
            && (!right ==> ledger.Explains(suite, start, day, PrevMismatch(i)))
            && (right && !hashed ==> ledger.Explains(suite, start, day, RowHashMismatch(i)))
            && (right && hashed && !keyed ==> ledger.Explains(suite, start, day, MacMismatch(i)))
  {
    FaultOf(suite, suite.dailyKey(day), TailBefore(ledger.rows, day), DayRows(ledger.rows, day), i);
    hide RowInput, DayRows, TailBefore, Merkle.Root, RowHashes, SignedMessage, RowFault, RowsSound;
  }

  /** When all rows pass, a missing checkpoint is named first, and then a root that is not that of the rows. */
  lemma CheckpointIsNamed(suite: Suite, start: Option<Day>, ledger: Ledger, day: Day)
    requires !ledger.OutOfScope(start, day) && DayRows(ledger.rows, day) != []
    requires var today := DayRows(ledger.rows, day);
             RowsSound(suite, suite.dailyKey(day), TailBefore(ledger.rows, day), today, |today|)
    ensures day !in ledger.checkpoints <==> ledger.Explains(suite, start, day, NoCheckpoint)
    ensures day in ledger.checkpoints ==>
              (ledger.checkpoints[day].root != Merkle.Root(suite.hash, RowHashes(DayRows(ledger.rows, day)))
               <==> ledger.Explains(suite, start, day, RootMismatch))
  {
    hide RowInput, DayRows, TailBefore, Merkle.Root, RowHashes, SignedMessage, RowFault, RowsSound;
  }

  /** Days before the chain start, and days without rows, are accepted whatever is stored. */
  lemma OutOfScopePasses(suite: Suite, start: Option<Day>, ledger: Ledger, day: Day)
    requires (start.Some? && day < start.value) || forall r :: r in ledger.rows ==> r.dayBucket != day
    ensures ledger.Accepts(suite, start, day)
  {
    if forall r :: r in ledger.rows ==> r.dayBucket != day {
      NoDayRows(ledger.rows, day);
    }
    hide DayRows, RowInput, Merkle.Root, SignedMessage, RowsSound;
  }

  lemma NoDayRows(table: seq<Row>, day: Day)
    requires forall r :: r in table ==> r.dayBucket != day
    ensures DayRows(table, day) == []
  {
    var today := DayRows(table, day);
    DayRowsAre(table, day);
    hide DayRows;
    forall r ensures multiset(today)[r] == 0 {
      assert r in multiset(table) <==> r in table;
    }
    assert today != [] ==> multiset(today)[today[0]] > 0;
  }

  /** What signing an unsigned day with rows stores, under that day alone. */
  lemma SignStores(suite: Suite, ledger: Ledger, day: Day, token: Option<seq<Byte>>, leaves: seq<Digest>)
    requires day !in ledger.checkpoints && DayRows(ledger.rows, day) != []
    requires |leaves| == |DayRows(ledger.rows, day)|
    requires forall i :: 0 <= i < |leaves| ==> leaves[i] == DayRows(ledger.rows, day)[i].rowHash
    ensures var after := Sign(suite, ledger, day, token);
            && after.rows == ledger.rows && after.checkpoints.Keys == ledger.checkpoints.Keys + {day}
            && (forall d :: d in ledger.checkpoints ==> after.checkpoints[d] == ledger.checkpoints[d])
            && after.checkpoints[day].token == token
            && after.checkpoints[day].root == Merkle.Root(suite.hash, leaves)
    ensures var c := Sign(suite, ledger, day, token).checkpoints[day];
            exists m ::
              c.signature == suite.sign(m) && |m| == 42 && m[..32] == c.root && SpellsOut(m[32..], DateText(day))
  {
    assert leaves == RowHashes(DayRows(ledger.rows, day));
    hide DayRows, Merkle.Root, RowHashes, SignedMessage, DateText;
    var c := Sign(suite, ledger, day, token).checkpoints[day];
    SignedMessageIs(c.root, day);
    var m := SignedMessage(c.root, day);
    assert c.signature == suite.sign(m);
  }
}
