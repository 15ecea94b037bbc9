/** The backfill that moves plaintext documents into encrypted objects, batch by batch. */
module Backfill {
  import opened Common
  import opened Text

  datatype Envelope = Envelope(kekVersion: nat, noncePrefix: seq<Byte>, sha256: string)

  /**
   * The envelope encryption, keyed by the document and its subject, and the hex digest; only `Lawful` is known of
   * them.
   */
  datatype Cipher = Cipher(
    seal: (Uuid, Uuid, seq<Byte>) -> (seq<Byte>, Envelope),
    unseal: (Uuid, Uuid, seq<Byte>) -> seq<Byte>,
    digest: seq<Byte> -> string)
  {
    ghost predicate Lawful() {
      forall id, subject, plain ::
        var (blob, meta) := seal(id, subject, plain);
        unseal(id, subject, blob) == plain && meta.sha256 == digest(plain) && HeaderSays(blob, meta)
    }
  }

  /** The header of a sealed object: a version byte, the key's number, three more bytes, and the nonce prefix. */
  predicate HeaderSays(blob: seq<Byte>, meta: Envelope) {
    |blob| >= 17 && blob[1] as int == meta.kekVersion && blob[5..17] == meta.noncePrefix
  }

  /** A row of the table; an absent file name, file path or subject is "" or None. */
  datatype Row = Row(
    id: Uuid,
    entityType: string,
    entityId: Uuid,
    fileName: string,
    filePath: string,
    fileSize: nat,
    kekVersion: Option<nat>,
    noncePrefix: seq<Byte>,
    sha256: string,
    subjectId: Option<Uuid>,
    shredded: bool)
  {
    function Subject(): Uuid {
      if subjectId.Some? then subjectId.value else entityId
    }

    /** The rows the query of `run` selects. */
    predicate Eligible() {
      kekVersion == None && !shredded
    }
  }

  // ----- object names -----

  /** `file_name.rsplit(".", 1)[1]`. */
  function AfterLastDot(name: string): string
    requires '.' in name
  {
    if name[|name| - 1] == '.' then "" else AfterLastDot(name[..|name| - 1]) + [name[|name| - 1]]
  }

  function Extension(name: string): string {
    if '.' in name then "." + AfterLastDot(name) else ""
  }

  function NewObjectName(row: Row): string {
    "vault/" + (row.entityType + ("/" + (UuidText(row.entityId) + ("/" + (UuidText(row.id)
    + (Extension(row.fileName) + ".enc"))))))
  }

  lemma {:induction false} CutAtSlash(a: string, x: string, b: string, y: string)
    requires '/' !in a && '/' !in b
    requires a + ("/" + x) == b + ("/" + y)
    ensures a == b && x == y
  {
    FirstChar(a, "/" + x);
    FirstChar(b, "/" + y);
    assert ("/" + x)[0] == '/' && ("/" + y)[0] == '/';
    if a == "" && b == "" {
      assert "" + ("/" + x) == "/" + x && "" + ("/" + y) == "/" + y;
      SplitEqual("/", x, "/", y);
    } else if a != "" && b != "" {
      assert (a + ("/" + x))[1..] == a[1..] + ("/" + x) && (b + ("/" + y))[1..] == b[1..] + ("/" + y);
      CutAtSlash(a[1..], x, b[1..], y);
    }
  }

  lemma FirstChar(a: string, x: string)
    requires x != ""
    ensures a == "" ==> (a + x)[0] == x[0]
    ensures a != "" ==> (a + x)[0] == a[0] && a[0] in a
  {
  }

  /** Different documents get different objects, whatever their file names contain. */
  lemma NewObjectNameInjective(a: Row, b: Row)
    requires '/' !in a.entityType && '/' !in b.entityType
    requires NewObjectName(a) == NewObjectName(b)
    ensures a.id == b.id && a.entityType == b.entityType && a.entityId == b.entityId
    ensures Extension(a.fileName) == Extension(b.fileName)
  {
    hide UuidText, Extension;
    var (aTail, bTail) := (Extension(a.fileName) + ".enc", Extension(b.fileName) + ".enc");
    var (aEnd, bEnd) := (UuidText(a.id) + aTail, UuidText(b.id) + bTail);
    var (aMid, bMid) := (UuidText(a.entityId) + ("/" + aEnd), UuidText(b.entityId) + ("/" + bEnd));
    SplitEqual("vault/", a.entityType + ("/" + aMid), "vault/", b.entityType + ("/" + bMid));
    CutAtSlash(a.entityType, aMid, b.entityType, bMid);
    SplitEqual(UuidText(a.entityId), "/" + aEnd, UuidText(b.entityId), "/" + bEnd);
    UuidTextInjective(a.entityId, b.entityId);
    SplitEqual("/", aEnd, "/", bEnd);
    SplitEqual(UuidText(a.id), aTail, UuidText(b.id), bTail);
    UuidTextInjective(a.id, b.id);
    SplitEqual(Extension(a.fileName), ".enc", Extension(b.fileName), ".enc");
  }

  // ----- one document -----

  /** Which calls to the object store raise, and the rest of what a run is given. */
  datatype Config = Config(
    cipher: Cipher,
    batch: nat,
    dryRun: bool,
    unreadable: set<string>,
    unwritable: set<string>,
    undeletable: set<string>)

  datatype Status =
    | SkipEncrypted
    | SkipShredded
    | SkipMissingPath
    | FailDownload
    | WouldEncrypt(bytes: nat, newPath: string)
    | FailUpload
    | Done(bytes: nat, newPath: string, legacyDeleted: bool)

  predicate Readable(config: Config, objects: map<string, seq<Byte>>, path: string) {
    path in objects && path !in config.unreadable
  }

  function StatusOf(config: Config, row: Row, objects: map<string, seq<Byte>>): Status {
    if row.kekVersion.Some? then SkipEncrypted
    else if row.shredded then SkipShredded
    else if row.filePath == "" then SkipMissingPath
    else if !Readable(config, objects, row.filePath) then FailDownload
    else
      var (bytes, newPath) := (|objects[row.filePath]|, NewObjectName(row));
      if config.dryRun then WouldEncrypt(bytes, newPath)
      else if newPath in config.unwritable then FailUpload
      else Done(bytes, newPath, row.filePath !in config.undeletable)
  }

  function Sealed(config: Config, row: Row, plain: seq<Byte>): (seq<Byte>, Envelope) {
    config.cipher.seal(row.id, row.Subject(), plain)
  }

  function RowAfter(config: Config, row: Row, objects: map<string, seq<Byte>>): Row {
    if !StatusOf(config, row, objects).Done? then row
    else
      var plain := objects[row.filePath];
      var meta := Sealed(config, row, plain).1;
      row.(filePath := NewObjectName(row), fileSize := |plain|, kekVersion := Some(meta.kekVersion),
           noncePrefix := meta.noncePrefix, sha256 := meta.sha256, subjectId := Some(row.Subject()))
  }

  function ObjectsAfter(config: Config, row: Row, objects: map<string, seq<Byte>>): map<string, seq<Byte>> {
    if !StatusOf(config, row, objects).Done? then objects
    else
      var uploaded := objects[NewObjectName(row) := Sealed(config, row, objects[row.filePath]).0];
      if row.filePath in config.undeletable then uploaded else uploaded - {row.filePath}
  }

  /** A document's bytes as a reader of its row gets them. */
  function Content(config: Config, row: Row, objects: map<string, seq<Byte>>): Option<seq<Byte>> {
    if row.filePath !in objects then None
    else if row.kekVersion == None then Some(objects[row.filePath])
    else Some(config.cipher.unseal(row.id, row.Subject(), objects[row.filePath]))
  }

  // ----- the whole table -----

  /** The rows in the order of their creation, and the bucket. */
  datatype World = World(rows: seq<Row>, objects: map<string, seq<Byte>>)

  function ProcessOne(config: Config, w: World, i: nat): World
    requires i < |w.rows|
  {
    World(w.rows[i := RowAfter(config, w.rows[i], w.objects)], ObjectsAfter(config, w.rows[i], w.objects))
  }

  predicate InTable(w: World, todo: seq<nat>) {
    forall k :: 0 <= k < |todo| ==> todo[k] < |w.rows|
  }

  /** Processing the rows of a batch one after the other. */
  function ProcessAll(config: Config, w: World, todo: seq<nat>): (r: World)
    requires InTable(w, todo)
    ensures |r.rows| == |w.rows|
  {
    if todo == [] then w else ProcessOne(config, ProcessAll(config, w, todo[..|todo| - 1]), todo[|todo| - 1])
  }

  /** The eligible rows among the first `n`, in order. */
  function EligibleRows(rows: seq<Row>, n: nat): (r: seq<nat>)
    requires n <= |rows|
    ensures |r| <= n && forall k :: 0 <= k < |r| ==> r[k] < n && rows[r[k]].Eligible()
    ensures forall j, k :: 0 <= j < k < |r| ==> r[j] < r[k]
  {
    if n == 0 then []
    else if rows[n - 1].Eligible() then EligibleRows(rows, n - 1) + [n - 1]
    else EligibleRows(rows, n - 1)
  }

  function Waiting(w: World): seq<nat> {
    EligibleRows(w.rows, |w.rows|)
  }

  /** `order_by(created_at).limit(batch)`. */
  function Chosen(config: Config, w: World): (r: seq<nat>)
    ensures InTable(w, r) && forall k :: 0 <= k < |r| ==> w.rows[r[k]].Eligible()
  {
    Waiting(w)[..Min(config.batch, |Waiting(w)|)]
  }

  /** One turn of the loop of `run`. */
  function Round(config: Config, w: World): World {
    ProcessAll(config, w, Chosen(config, w))
  }

  function Rounds(config: Config, w: World, n: nat): World {
    if n == 0 then w else Round(config, Rounds(config, w, n - 1))
  }

  /** The names the backfill makes are not in use, and differ. */
  ghost predicate Apart(w: World) {
    && (forall i, j :: 0 <= i < |w.rows| && 0 <= j < |w.rows| && w.rows[i].Eligible() ==>
          NewObjectName(w.rows[i]) != w.rows[j].filePath)
    && (forall i, j :: 0 <= i < j < |w.rows| ==> w.rows[i].id != w.rows[j].id)
    && (forall i :: 0 <= i < |w.rows| ==> '/' !in w.rows[i].entityType)
  }

  /** No other document that is to be moved has the same object, unless the object cannot be deleted. */
  ghost predicate Alone(config: Config, w: World, j: nat)
    requires j < |w.rows|
  {
    w.rows[j].filePath == ""
    || forall i :: 0 <= i < |w.rows| && i != j && w.rows[i].Eligible() && w.rows[i].filePath == w.rows[j].filePath ==>
         w.rows[j].filePath in config.undeletable
  }

  /** A row the backfill can move: it has a path, the object can be read, and the new one can be written. */
  ghost predicate CanMove(config: Config, row: Row, objects: map<string, seq<Byte>>) {
    && row.filePath != "" && Readable(config, objects, row.filePath)
    && NewObjectName(row) !in config.unwritable
  }

  /** What decides whether the loop ends. */
  ghost predicate Ends(config: Config, w: World) {
    || config.batch == 0
    || (forall i :: 0 <= i < |w.rows| ==> !w.rows[i].Eligible())
    || (!config.dryRun && forall i :: 0 <= i < |w.rows| && w.rows[i].Eligible() ==>
          CanMove(config, w.rows[i], w.objects) && Alone(config, w, i))
  }

  lemma NameNotEmpty(row: Row)
    ensures NewObjectName(row) != ""
  {
  }

  lemma NamesDiffer(w: World, i: nat, j: nat)
    requires Apart(w) && i < |w.rows| && j < |w.rows| && i != j
    ensures NewObjectName(w.rows[i]) != NewObjectName(w.rows[j])
  {
    hide NewObjectName;
    if NewObjectName(w.rows[i]) == NewObjectName(w.rows[j]) {
      NewObjectNameInjective(w.rows[i], w.rows[j]);
    }
  }

  /** Moving a row keeps what its name is made of. */
  lemma NameStays(config: Config, row: Row, objects: map<string, seq<Byte>>)
    ensures NewObjectName(RowAfter(config, row, objects)) == NewObjectName(row)
  {
  }

  lemma StepKeepsApart(config: Config, w: World, i: nat)
    requires Apart(w) && i < |w.rows|
    ensures Apart(ProcessOne(config, w, i))
  {
    hide NewObjectName;
    var (row, row') := (w.rows[i], RowAfter(config, w.rows[i], w.objects));
    NameStays(config, row, w.objects);
    if StatusOf(config, row, w.objects).Done? {
      forall j | 0 <= j < |w.rows| && j != i
        ensures NewObjectName(row) != NewObjectName(w.rows[j])
      {
        NamesDiffer(w, i, j);
      }
    }
  }

  lemma StepKeepsAlone(config: Config, w: World, i: nat, j: nat)
    requires Apart(w) && i < |w.rows| && j < |w.rows| && Alone(config, w, j)
    ensures Alone(config, ProcessOne(config, w, i), j)
  {
    hide NewObjectName;
    PathStays(config, w.rows[j], w.objects);
    if i == j && StatusOf(config, w.rows[j], w.objects).Done? {
      assert RowAfter(config, w.rows[j], w.objects).filePath == NewObjectName(w.rows[j]);
    }
  }

  /** A document's bytes stay what they were when it or another is moved. */
  lemma StepKeepsContent(config: Config, w: World, i: nat, j: nat)
    requires config.cipher.Lawful() && Apart(w) && i < |w.rows| && j < |w.rows| && Alone(config, w, j)
    ensures var w' := ProcessOne(config, w, i);
            Content(config, w'.rows[j], w'.objects) == Content(config, w.rows[j], w.objects) || w.rows[j].filePath == ""
  {
    hide NewObjectName;
    var row := w.rows[i];
    if StatusOf(config, row, w.objects).Done? && i == j {
      assert NewObjectName(row) != row.filePath;
      var plain := w.objects[row.filePath];
      assert config.cipher.unseal(row.id, row.Subject(), config.cipher.seal(row.id, row.Subject(), plain).0) == plain;
    }
  }

  /** Otherwise a document that is not itself to be moved loses its bytes when the other one is. */
  lemma SharedObjectIsLost(config: Config, w: World, i: nat, j: nat)
    requires Apart(w) && i < |w.rows| && j < |w.rows| && !w.rows[j].Eligible() && w.rows[i].Eligible()
    requires !config.dryRun && CanMove(config, w.rows[i], w.objects)
    requires w.rows[i].filePath == w.rows[j].filePath && w.rows[i].filePath !in config.undeletable
    ensures Content(config, w.rows[j], w.objects) != None
    ensures var w' := ProcessOne(config, w, i); Content(config, w'.rows[j], w'.objects) == None
  {
    hide NewObjectName;
  }

  lemma {:induction false} AllKeepContent(config: Config, w: World, todo: seq<nat>, j: nat)
    requires config.cipher.Lawful() && Apart(w) && InTable(w, todo) && j < |w.rows| && Alone(config, w, j)
    ensures var w' := ProcessAll(config, w, todo);
            && Apart(w') && Alone(config, w', j)
            && (w'.rows[j].filePath == "" <==> w.rows[j].filePath == "")
            && (w.rows[j].filePath == ""
                || Content(config, w'.rows[j], w'.objects) == Content(config, w.rows[j], w.objects))
  {
    hide Content, Apart, Alone, RowAfter, ObjectsAfter;
    if todo != [] {
      var (init, i) := (todo[..|todo| - 1], todo[|todo| - 1]);
      AllKeepContent(config, w, init, j);
      var before := ProcessAll(config, w, init);
      StepKeepsApart(config, before, i);
      StepKeepsAlone(config, before, i, j);
      StepKeepsContent(config, before, i, j);
      PathStays(config, before.rows[i], before.objects);
    }
  }

  lemma PathStays(config: Config, row: Row, objects: map<string, seq<Byte>>)
    ensures RowAfter(config, row, objects).filePath == "" <==> row.filePath == ""
  {
    NameNotEmpty(row);
  }

  /**
   * However long the backfill runs, and whatever fails, a document's bytes can be read from its row, if no other
   * document to be moved shares its object.
   */
  lemma {:induction false} BytesStayRecoverable(config: Config, w: World, n: nat, j: nat)
    requires config.cipher.Lawful() && Apart(w) && j < |w.rows| && Alone(config, w, j)
    ensures var w' := Rounds(config, w, n);
            && |w'.rows| == |w.rows| && Apart(w') && Alone(config, w', j)
            && (w'.rows[j].filePath == "" <==> w.rows[j].filePath == "")
            && (w.rows[j].filePath == ""
                || Content(config, w'.rows[j], w'.objects) == Content(config, w.rows[j], w.objects))
  {
    hide Content, Apart, Alone, Chosen, ProcessAll;
    if n > 0 {
      BytesStayRecoverable(config, w, n - 1, j);
      var before := Rounds(config, w, n - 1);
      AllKeepContent(config, before, Chosen(config, before), j);
    }
  }

  // ----- when the loop ends -----

  ghost predicate Increasing(s: seq<nat>) {
    forall j, k :: 0 <= j < k < |s| ==> s[j] < s[k]
  }

  /** Moving one document makes no other movable, and decides nothing for one that does not share its object. */
  lemma StepKeepsCanMove(config: Config, w: World, i: nat, j: nat)
    requires Apart(w) && i < |w.rows| && j < |w.rows| && i != j
    ensures var w' := ProcessOne(config, w, i);
            && w'.rows[j] == w.rows[j]
            && (CanMove(config, w.rows[j], w'.objects) ==> CanMove(config, w.rows[j], w.objects))
            && (Alone(config, w, j) && CanMove(config, w.rows[j], w.objects) ==> CanMove(config, w.rows[j], w'.objects))
  {
    hide NewObjectName;
  }

  /** What a turn does to the standing of such a row: it is moved exactly if it is in the batch and can be. */
  lemma {:induction false} AllMove(config: Config, w: World, todo: seq<nat>, j: nat)
    requires Apart(w) && InTable(w, todo) && Increasing(todo) && j < |w.rows| && Alone(config, w, j)
    ensures var w' := ProcessAll(config, w, todo);
            && Apart(w') && Alone(config, w', j)
            && (w'.rows[j].Eligible() <==>
                (w.rows[j].Eligible() && !(j in todo && !config.dryRun && CanMove(config, w.rows[j], w.objects))))
            && (w'.rows[j].Eligible() || j !in todo ==>
                  w'.rows[j] == w.rows[j]
                  && (CanMove(config, w.rows[j], w'.objects) <==> CanMove(config, w.rows[j], w.objects)))
  {
    hide Apart, Alone, CanMove;
    if todo != [] {
      var (init, i) := (todo[..|todo| - 1], todo[|todo| - 1]);
      AllMove(config, w, init, j);
      var before := ProcessAll(config, w, init);
      assert todo == init + [i] && i !in init;
      hide NewObjectName, ProcessAll;
      StepKeepsApart(config, before, i);
      StepKeepsAlone(config, before, i, j);
      if i == j {
        MoveOne(config, before, i);
      } else {
        StepKeepsCanMove(config, before, i, j);
      }
    }
  }

  lemma MoveOne(config: Config, w: World, i: nat)
    requires i < |w.rows|
    ensures var w' := ProcessOne(config, w, i);
            && (StatusOf(config, w.rows[i], w.objects).Done? <==>
                w.rows[i].Eligible() && !config.dryRun && CanMove(config, w.rows[i], w.objects))
            && (StatusOf(config, w.rows[i], w.objects).Done? ==> !w'.rows[i].Eligible())
            && (!StatusOf(config, w.rows[i], w.objects).Done? ==> w' == w)
  {
    hide NewObjectName;
  }

  ghost function WaitingSet(w: World): set<nat> {
    set i: nat | i < |w.rows| && w.rows[i].Eligible()
  }

  ghost function SetOf(s: seq<nat>): set<nat> {
    set i | i in s
  }

  lemma {:induction false} IncreasingSize(s: seq<nat>)
    requires Increasing(s)
    ensures |SetOf(s)| == |s|
  {
    if s != [] {
      var (init, last) := (s[..|s| - 1], s[|s| - 1]);
      IncreasingSize(init);
      assert s == init + [last];
      assert SetOf(s) == SetOf(init) + {last} && last !in SetOf(init);
    }
  }

  lemma {:induction false} EligibleComplete(rows: seq<Row>, n: nat)
    requires n <= |rows|
    ensures forall i: nat :: i < n && rows[i].Eligible() ==> i in EligibleRows(rows, n)
  {
    if n > 0 {
      EligibleComplete(rows, n - 1);
    }
  }

  lemma WaitingIsSet(w: World)
    ensures SetOf(Waiting(w)) == WaitingSet(w) && |WaitingSet(w)| == |Waiting(w)|
  {
    EligibleComplete(w.rows, |w.rows|);
    IncreasingSize(Waiting(w));
  }

  lemma ChosenIsIncreasing(config: Config, w: World)
    ensures Increasing(Chosen(config, w)) && SetOf(Chosen(config, w)) <= WaitingSet(w)
    ensures Chosen(config, w) == [] <==> config.batch == 0 || Waiting(w) == []
  {
  }

  /** When every waiting row can be moved, a turn takes a full batch off the list. */
  lemma RoundMovesBatch(config: Config, w: World)
    requires Apart(w) && Ends(config, w) && Chosen(config, w) != []
    ensures var w' := Round(config, w);
            && Apart(w') && Ends(config, w')
            && |Waiting(w')| == |Waiting(w)| - |Chosen(config, w)|
  {
    hide Apart, CanMove, Alone, ProcessAll;
    ChosenIsIncreasing(config, w);
    WaitingIsSet(w);
    hide Chosen, Waiting;
    var (w', todo) := (Round(config, w), Chosen(config, w));
    assert todo[0] in SetOf(todo);
    TurnKeepsApart(config, w, todo);
    forall j: nat | j < |w.rows|
      ensures w'.rows[j].Eligible() <==> w.rows[j].Eligible() && j !in todo
      ensures w'.rows[j].Eligible() ==> CanMove(config, w'.rows[j], w'.objects) && Alone(config, w', j)
    {
      if w.rows[j].Eligible() {
        AllMove(config, w, todo, j);
      } else {
        StaysMoved(config, w, todo, j);
      }
    }
    WaitingIsSet(w');
    IncreasingSize(todo);
    assert WaitingSet(w') == WaitingSet(w) - SetOf(todo);
    assert |WaitingSet(w)| == |WaitingSet(w) - SetOf(todo)| + |SetOf(todo)| by {
      assert WaitingSet(w) == (WaitingSet(w) - SetOf(todo)) + SetOf(todo);
    }
  }

  lemma {:induction false} TurnKeepsApart(config: Config, w: World, todo: seq<nat>)
    requires Apart(w) && InTable(w, todo)
    ensures Apart(ProcessAll(config, w, todo))
  {
    hide Apart, ProcessOne;
    if todo != [] {
      TurnKeepsApart(config, w, todo[..|todo| - 1]);
      StepKeepsApart(config, ProcessAll(config, w, todo[..|todo| - 1]), todo[|todo| - 1]);
    }
  }

  lemma {:induction false} StaysMoved(config: Config, w: World, todo: seq<nat>, j: nat)
    requires InTable(w, todo) && j < |w.rows| && !w.rows[j].Eligible()
    ensures !ProcessAll(config, w, todo).rows[j].Eligible()
  {
    hide NewObjectName, ObjectsAfter;
    if todo != [] {
      StaysMoved(config, w, todo[..|todo| - 1], j);
    }
  }

  lemma {:induction false} WaitingShrinks(config: Config, w: World, n: nat)
    requires Apart(w) && Ends(config, w) && config.batch > 0
    ensures var w' := Rounds(config, w, n);
            && Apart(w') && Ends(config, w')
            && (Waiting(w') == [] || |Waiting(w')| <= |Waiting(w)| - n)
  {
    hide Apart, Ends, Round, Waiting, Chosen;
    if n > 0 {
      var before := Rounds(config, w, n - 1);
      WaitingShrinks(config, w, n - 1);
      ChosenIsIncreasing(config, before);
      if Waiting(before) == [] {
        NothingToDo(config, before);
      } else {
        RoundMovesBatch(config, before);
      }
    }
  }

  lemma NothingToDo(config: Config, w: World)
    requires Chosen(config, w) == []
    ensures Round(config, w) == w
  {
  }

  /**
   * One of two rows, which may be the same, waits for ever: it is eligible in a dry run, it cannot be moved, or
   * both are eligible and share an object that the first to be moved deletes.
   */
  ghost predicate Stuck(config: Config, w: World, i: nat, j: nat) {
    i < |w.rows| && j < |w.rows|
    && (|| (w.rows[i].Eligible() && (config.dryRun || !CanMove(config, w.rows[i], w.objects)))
        || (w.rows[j].Eligible() && (config.dryRun || !CanMove(config, w.rows[j], w.objects)))
        || Sharing(config, w, i, j))
  }

  ghost predicate Sharing(config: Config, w: World, i: nat, j: nat)
    requires i < |w.rows| && j < |w.rows|
  {
    && i != j && w.rows[i].Eligible() && w.rows[j].Eligible()
    && w.rows[i].filePath == w.rows[j].filePath && w.rows[i].filePath !in config.undeletable
  }

  /** Moving one of two rows that share an object leaves the other without it. */
  lemma SharersPart(config: Config, w: World, i: nat, j: nat)
    requires Apart(w) && i < |w.rows| && j < |w.rows| && Sharing(config, w, i, j)
    ensures Stuck(config, ProcessOne(config, w, i), i, j) && Stuck(config, ProcessOne(config, w, i), j, i)
  {
    hide NewObjectName;
    MoveOne(config, w, i);
    if StatusOf(config, w.rows[i], w.objects).Done? {
      assert NewObjectName(w.rows[i]) != w.rows[j].filePath;
      assert w.rows[j].filePath !in ProcessOne(config, w, i).objects;
    }
  }

  lemma StepKeepsStuck(config: Config, w: World, m: nat, i: nat, j: nat)
    requires Apart(w) && m < |w.rows| && Stuck(config, w, i, j)
    ensures Stuck(config, ProcessOne(config, w, m), i, j)
  {
    if Sharing(config, w, i, j) && m == i {
      SharersPart(config, w, i, j);
    } else if Sharing(config, w, i, j) && m == j {
      SharersPart(config, w, j, i);
    } else {
      MoveOne(config, w, m);
      if m != i {
        StepKeepsCanMove(config, w, m, i);
      }
      if m != j {
        StepKeepsCanMove(config, w, m, j);
      }
      hide CanMove, ProcessOne, Apart, StatusOf, Alone;
    }
  }

  lemma {:induction false} TurnKeepsStuck(config: Config, w: World, todo: seq<nat>, i: nat, j: nat)
    requires Apart(w) && InTable(w, todo) && Stuck(config, w, i, j)
    ensures Apart(ProcessAll(config, w, todo)) && Stuck(config, ProcessAll(config, w, todo), i, j)
  {
    hide Apart, Stuck, ProcessOne;
    if todo != [] {
      TurnKeepsStuck(config, w, todo[..|todo| - 1], i, j);
      var before := ProcessAll(config, w, todo[..|todo| - 1]);
      StepKeepsApart(config, before, todo[|todo| - 1]);
      StepKeepsStuck(config, before, todo[|todo| - 1], i, j);
    }
  }

  lemma {:induction false} StuckForEver(config: Config, w: World, i: nat, j: nat, n: nat)
    requires Apart(w) && Stuck(config, w, i, j)
    ensures var w' := Rounds(config, w, n); Apart(w') && Stuck(config, w', i, j) && Waiting(w') != []
  {
    hide Apart, Stuck, ProcessAll, Chosen, Waiting;
    if n > 0 {
      StuckForEver(config, w, i, j, n - 1);
      var before := Rounds(config, w, n - 1);
      TurnKeepsStuck(config, before, Chosen(config, before), i, j);
    }
    StuckWaits(config, Rounds(config, w, n), i, j);
  }

  lemma StuckWaits(config: Config, w: World, i: nat, j: nat)
    requires Stuck(config, w, i, j)
    ensures Waiting(w) != []
  {
    hide CanMove, Waiting;
    WaitingIsSet(w);
    assert i in WaitingSet(w) || j in WaitingSet(w);
  }

  /**
   * The loop ends exactly when the batch size is zero, nothing is eligible, or this is no dry run and every
   * eligible row has a path, can be read and can be written, and shares its object with no other eligible row,
   * unless the object cannot be deleted.
   */
  lemma EndsExactly(config: Config, w: World)
    requires Apart(w)
    ensures (exists n: nat :: Chosen(config, Rounds(config, w, n)) == []) <==> Ends(config, w)
  {
    hide Apart, CanMove, Round, Chosen, Waiting, Stuck;
    ChosenIsIncreasing(config, Rounds(config, w, 0));
    if Ends(config, w) {
      if config.batch > 0 {
        var n := |Waiting(w)|;
        WaitingShrinks(config, w, n);
        ChosenIsIncreasing(config, Rounds(config, w, n));
        assert Chosen(config, Rounds(config, w, n)) == [];
      }
      assert config.batch == 0 ==> Chosen(config, Rounds(config, w, 0)) == [];
    } else {
      var i, j := WhatIsStuck(config, w);
      forall n: nat ensures Chosen(config, Rounds(config, w, n)) != [] {
        StuckForEver(config, w, i, j, n);
        ChosenIsIncreasing(config, Rounds(config, w, n));
      }
    }
  }

  lemma WhatIsStuck(config: Config, w: World) returns (i: nat, j: nat)
    requires !Ends(config, w)
    ensures Stuck(config, w, i, j)
  {
    i :| i < |w.rows| && w.rows[i].Eligible()
         && (config.dryRun || !CanMove(config, w.rows[i], w.objects) || !Alone(config, w, i));
    j := i;
    if !config.dryRun && CanMove(config, w.rows[i], w.objects) {
      j :| j < |w.rows| && j != i && w.rows[j].Eligible() && w.rows[j].filePath == w.rows[i].filePath
           && w.rows[i].filePath !in config.undeletable;
    }
  }

  // ----- the code -----

  class Document {
    const id: Uuid
    const entityType: string
    const entityId: Uuid
    const fileName: string
    const shredded: bool
    var filePath: string
    var fileSize: nat
    var kekVersion: Option<nat>
    var noncePrefix: seq<Byte>
    var sha256: string
    var subjectId: Option<Uuid>

    constructor (row: Row)
      ensures Snapshot() == row
    {
      id, entityType, entityId, fileName, shredded := row.id, row.entityType, row.entityId, row.fileName, row.shredded;
      filePath, fileSize, kekVersion := row.filePath, row.fileSize, row.kekVersion;
      noncePrefix, sha256, subjectId := row.noncePrefix, row.sha256, row.subjectId;
    }

    function Snapshot(): Row
      reads this
    {
      Row(id, entityType, entityId, fileName, filePath, fileSize, kekVersion, noncePrefix, sha256, subjectId, shredded)
    }
  }

  class Bucket {
    var objects: map<string, seq<Byte>>

    constructor (objects: map<string, seq<Byte>>)
      ensures this.objects == objects
    {
      this.objects := objects;
    }
  }

  function Snapshots(docs: seq<Document>): (r: seq<Row>)
    reads docs
    ensures |r| == |docs| && forall i :: 0 <= i < |docs| ==> r[i] == docs[i].Snapshot()
  {
    if docs == [] then [] else Snapshots(docs[..|docs| - 1]) + [docs[|docs| - 1].Snapshot()]
  }

  function Table(docs: seq<Document>, bucket: Bucket): World
    reads docs, bucket
  {
    World(Snapshots(docs), bucket.objects)
  }

  /** `_process`: uploads the ciphertext, points the row at it, and tries to delete the plaintext object. */
  method Process(config: Config, doc: Document, bucket: Bucket) returns (status: Status)
    modifies doc, bucket
    ensures status == StatusOf(config, old(doc.Snapshot()), old(bucket.objects))
    ensures doc.Snapshot() == RowAfter(config, old(doc.Snapshot()), old(bucket.objects))
    ensures bucket.objects == ObjectsAfter(config, old(doc.Snapshot()), old(bucket.objects))
  {
    hide NewObjectName;
    if doc.kekVersion.Some? { return SkipEncrypted; }
    if doc.shredded { return SkipShredded; }
    if doc.filePath == "" { return SkipMissingPath; }
    var oldPath := doc.filePath;
    if !Readable(config, bucket.objects, oldPath) { return FailDownload; }
    var plaintext := bucket.objects[oldPath];
    var row := doc.Snapshot();
    var subjectId := row.Subject();
    var newPath := NewObjectName(row);
    if config.dryRun { return WouldEncrypt(|plaintext|, newPath); }
    if newPath in config.unwritable { return FailUpload; }
    var (blob, meta) := config.cipher.seal(doc.id, subjectId, plaintext);
    bucket.objects := bucket.objects[newPath := blob];
    doc.filePath := newPath;
    doc.fileSize := |plaintext|;
    doc.kekVersion := Some(meta.kekVersion);
    doc.noncePrefix := meta.noncePrefix;
    doc.sha256 := meta.sha256;
    doc.subjectId := Some(subjectId);
    var deleted := oldPath !in config.undeletable;
    if deleted {
      bucket.objects := bucket.objects - {oldPath};
    }
    return Done(|plaintext|, newPath, deleted);
  }

  method ProcessAt(config: Config, docs: seq<Document>, i: nat, bucket: Bucket) returns (status: Status)
    requires i < |docs| && Distinct(docs)
    modifies docs[i], bucket
    ensures status == StatusOf(config, old(docs[i].Snapshot()), old(bucket.objects))
    ensures Table(docs, bucket) == ProcessOne(config, old(Table(docs, bucket)), i)
  {
    hide NewObjectName, StatusOf, RowAfter, ObjectsAfter;
    status := Process(config, docs[i], bucket);
    assert forall k :: 0 <= k < |docs| && k != i ==> docs[k] != docs[i];
    assert Snapshots(docs) == old(Snapshots(docs))[i := docs[i].Snapshot()];
  }

  /** How many rows of a batch are moved, and how many fail. */
  function Tally(config: Config, w: World, todo: seq<nat>): (nat, nat)
    requires InTable(w, todo)
  {
    if todo == [] then (0, 0)
    else
      var (init, i) := (todo[..|todo| - 1], todo[|todo| - 1]);
      var (ok, failed) := Tally(config, w, init);
      var before := ProcessAll(config, w, init);
      var status := StatusOf(config, before.rows[i], before.objects);
      if status.Done? then (ok + 1, failed)
      else if status.FailDownload? || status.FailUpload? then (ok, failed + 1)
      else (ok, failed)
  }

  lemma BatchStart(config: Config, w: World)
    ensures ProcessAll(config, w, []) == w && Tally(config, w, []) == (0, 0)
  {
  }

  lemma BatchStep(config: Config, w: World, rows: seq<nat>, k: nat)
    requires InTable(w, rows) && k < |rows|
    ensures var now := ProcessAll(config, w, rows[..k]);
            var status := StatusOf(config, now.rows[rows[k]], now.objects);
            var (ok, failed) := Tally(config, w, rows[..k]);
            && ProcessAll(config, w, rows[..k + 1]) == ProcessOne(config, now, rows[k])
            && Tally(config, w, rows[..k + 1])
            == if status.Done? then (ok + 1, failed)
               else if status.FailDownload? || status.FailUpload? then (ok, failed + 1)
               else (ok, failed)
  {
    hide ProcessOne, StatusOf;
    assert rows[..k + 1][..k] == rows[..k] && rows[..k + 1][k] == rows[k];
  }

  /** The inner loop of `run`, over the rows its query returned. */
  method RunBatch(config: Config, docs: seq<Document>, bucket: Bucket, rows: seq<nat>) returns (ok: nat, failed: nat)
    requires Distinct(docs) && InTable(Table(docs, bucket), rows)
    modifies docs, bucket
    ensures Table(docs, bucket) == ProcessAll(config, old(Table(docs, bucket)), rows)
    ensures (ok, failed) == Tally(config, old(Table(docs, bucket)), rows)
  {
    hide StatusOf, Snapshots, RowAfter, ObjectsAfter, ProcessAll, ProcessOne, Tally;
    ok, failed := 0, 0;
    ghost var before := Table(docs, bucket);
    assert rows[..0] == [];
    BatchStart(config, before);
    for k := 0 to |rows|
      invariant Table(docs, bucket) == ProcessAll(config, before, rows[..k])
      invariant (ok, failed) == Tally(config, before, rows[..k])
    {
      BatchStep(config, before, rows, k);
      var status := ProcessAt(config, docs, rows[k], bucket);
      if status.Done? {
        ok := ok + 1;
      } else if status.FailDownload? || status.FailUpload? {
        failed := failed + 1;
      }
    }
    assert rows[..|rows|] == rows;
  }

  /** `run`, on inputs for which it ends: it moves each eligible document once. */
  method Run(config: Config, docs: seq<Document>, bucket: Bucket) returns (processed: nat, ok: nat, failed: nat)
    requires Distinct(docs) && Apart(Table(docs, bucket)) && Ends(config, Table(docs, bucket))
    modifies docs, bucket
    ensures processed == ok == (if config.batch == 0 then 0 else |Waiting(old(Table(docs, bucket)))|) && failed == 0
    ensures exists n: nat :: Table(docs, bucket) == Rounds(config, old(Table(docs, bucket)), n)
    ensures Chosen(config, Table(docs, bucket)) == []
  {
    hide Apart, Ends, Chosen, Waiting, Snapshots, ProcessAll, Tally;
    processed, ok, failed := 0, 0, 0;
    ghost var start := Table(docs, bucket);
    ghost var n: nat := 0;
    while true
      invariant Table(docs, bucket) == Rounds(config, start, n)
      invariant Apart(Table(docs, bucket)) && Ends(config, Table(docs, bucket))
      invariant processed == ok && failed == 0 && processed + |Waiting(Table(docs, bucket))| == |Waiting(start)|
      invariant config.batch == 0 ==> processed == 0
      decreases |Waiting(Table(docs, bucket))|
    {
      ghost var before := Table(docs, bucket);
      ChosenIsIncreasing(config, before);
      var rows := Chosen(config, Table(docs, bucket));
      if |rows| == 0 {
        break;
      }
      BatchSucceeds(config, before, |rows|);
      assert rows[..|rows|] == rows;
      var moved, lost := RunBatch(config, docs, bucket, rows);
      processed, ok, failed := processed + |rows|, ok + moved, failed + lost;
      RoundMovesBatch(config, before);
      n := n + 1;
    }
  }

  /** In the ending case every row of a batch is moved when its turn comes. */
  lemma {:induction false} BatchSucceeds(config: Config, w: World, k: nat)
    requires Apart(w) && Ends(config, w) && k <= |Chosen(config, w)|
    ensures Tally(config, w, Chosen(config, w)[..k]) == (k, 0)
  {
    hide Apart, CanMove, Ends, ProcessAll, StatusOf, Chosen;
    var rows := Chosen(config, w);
    if k > 0 {
      BatchSucceeds(config, w, k - 1);
      assert rows[..k][..k - 1] == rows[..k - 1] && rows[..k][k - 1] == rows[k - 1];
      MovesInTurn(config, w, k - 1);
    }
  }

  lemma MovesInTurn(config: Config, w: World, k: nat)
    requires Apart(w) && Ends(config, w) && k < |Chosen(config, w)|
    ensures var (init, i) := (Chosen(config, w)[..k], Chosen(config, w)[k]);
            var before := ProcessAll(config, w, init);
            StatusOf(config, before.rows[i], before.objects).Done?
  {
    hide Apart, CanMove, Alone, ProcessAll, StatusOf;
    ChosenIsIncreasing(config, w);
    var (rows, i) := (Chosen(config, w), Chosen(config, w)[k]);
    assert rows != [];
    assert Ends(config, w) && w.rows[i].Eligible() && !config.dryRun && CanMove(config, w.rows[i], w.objects);
    hide Chosen, Ends;
    assert i !in rows[..k];
    AllMove(config, w, rows[..k], i);
    MoveOne(config, ProcessAll(config, w, rows[..k]), i);
  }
}
