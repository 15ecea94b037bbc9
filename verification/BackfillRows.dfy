/** What the backfill leaves in each row and in the bucket, over any number of turns. */
module BackfillRows {
  import opened Common
  import opened Text
  import opened Backfill
  import Readings

  // ----- names -----

  lemma {:induction false} AfterLastDotIs(name: string)
    requires '.' in name
    ensures '.' !in AfterLastDot(name) && |AfterLastDot(name)| < |name|
    ensures name[|name| - |AfterLastDot(name)| - 1] == '.'
    ensures name[|name| - |AfterLastDot(name)|..] == AfterLastDot(name)
  {
    if name[|name| - 1] != '.' {
      var init := name[..|name| - 1];
      assert name == init + [name[|name| - 1]];
      AfterLastDotIs(init);
    }
  }

  /** The extension runs from the last dot on; a name without a dot has none. */
  lemma ExtensionIs(name: string)
    ensures var ext := Extension(name);
            && |ext| <= |name| && name[|name| - |ext|..] == ext
            && (ext == "" <==> '.' !in name) && (ext != "" ==> ext[0] == '.' && '.' !in ext[1..])
  {
    if '.' in name {
      AfterLastDotIs(name);
      var ext := "." + AfterLastDot(name);
      assert ext[1..] == AfterLastDot(name);
      assert name[|name| - |ext|..] == [name[|name| - |ext|]] + name[|name| - |ext| + 1..];
    }
  }

  /** A new object's name, part by part: `vault/type/entity/id.ext.enc`. */
  lemma NameRead(row: Row)
    ensures var (s, n) := (NewObjectName(row), |row.entityType|);
            && |s| >= 84 + n && s[..6] == "vault/" && s[6..6 + n] == row.entityType && s[6 + n] == '/'
            && Readings.ReadUuid(s[7 + n..43 + n]) == row.entityId && s[43 + n] == '/'
            && Readings.ReadUuid(s[44 + n..80 + n]) == row.id && s[80 + n..] == Extension(row.fileName) + ".enc"
  {
    hide UuidText, Extension, Readings.ReadUuid;
    Readings.UuidTextRead(row.entityId);
    Readings.UuidTextRead(row.id);
    NameCut(row.entityType, UuidText(row.entityId), UuidText(row.id), Extension(row.fileName) + ".enc");
  }

  lemma NameCut(kind: string, entity: string, id: string, tail: string)
    requires |entity| == |id| == 36
    ensures var (s, n) := ("vault/" + (kind + ("/" + (entity + ("/" + (id + tail))))), |kind|);
            && |s| == 80 + n + |tail| && s[..6] == "vault/" && s[6..6 + n] == kind && s[6 + n] == '/'
            && s[7 + n..43 + n] == entity && s[43 + n] == '/' && s[44 + n..80 + n] == id && s[80 + n..] == tail
  {
  }

  // ----- one document -----

  /** The row is up for encryption, and its bytes could be read. */
  predicate Tried(config: Config, row: Row, objects: map<string, seq<Byte>>) {
    && row.kekVersion.None? && !row.shredded && row.filePath != ""
    && row.filePath in objects && row.filePath !in config.unreadable
  }

  /** What a status says about the row and the bucket: before, which status it is, and afterwards. */
  lemma StatusSays(config: Config, w: World, i: nat)
    requires Apart(w) && i < |w.rows|
    ensures var (w', row) := (ProcessOne(config, w, i), w.rows[i]);
            match StatusOf(config, row, w.objects)
            case Done(bytes, newPath, deleted) =>
              && Tried(config, row, w.objects) && !config.dryRun && newPath !in config.unwritable
              && bytes == |w.objects[row.filePath]|
              && w'.rows[i].filePath == newPath == NewObjectName(row) && newPath in w'.objects
              && (deleted <==> row.filePath !in w'.objects)
            case WouldEncrypt(bytes, newPath) =>
              && w' == w && Tried(config, row, w.objects) && config.dryRun
              && bytes == |w.objects[row.filePath]| && newPath == NewObjectName(row)
            case SkipEncrypted => w' == w && row.kekVersion.Some?
            case SkipShredded => w' == w && row.kekVersion.None? && row.shredded
            case SkipMissingPath => w' == w && row.kekVersion.None? && !row.shredded && row.filePath == ""
            case FailDownload =>
              && w' == w && row.kekVersion.None? && !row.shredded && row.filePath != ""
              && (row.filePath !in w.objects || row.filePath in config.unreadable)
            case FailUpload =>
              && w' == w && Tried(config, row, w.objects) && !config.dryRun
              && NewObjectName(row) in config.unwritable
  {
    hide NewObjectName;
  }

  // ----- over a run -----

  /** The row of a moved document describes the object it points at and the bytes a reader gets from it. */
  ghost predicate MovedWell(config: Config, was: Row, row: Row, objects: map<string, seq<Byte>>) {
    && row.filePath == NewObjectName(was) && row.filePath in objects && row.kekVersion.Some?
    && HeaderSays(objects[row.filePath], Envelope(row.kekVersion.value, row.noncePrefix, row.sha256))
    && Content(config, row, objects).Some?
    && row.sha256 == config.cipher.digest(Content(config, row, objects).value)
    && row.fileSize == |Content(config, row, objects).value|
    && row.subjectId == Some(if was.subjectId.Some? then was.subjectId.value else was.entityId)
    && row.id == was.id && row.entityType == was.entityType && row.entityId == was.entityId
    && row.fileName == was.fileName && row.shredded == was.shredded
  }

  /** Every row is as it was, or was to be moved and describes its object. */
  ghost predicate AllWell(config: Config, was: World, w: World) {
    && |w.rows| == |was.rows|
    && forall j :: 0 <= j < |w.rows| ==>
         w.rows[j] == was.rows[j] || (was.rows[j].Eligible() && MovedWell(config, was.rows[j], w.rows[j], w.objects))
  }

  lemma MoveIsWell(config: Config, row: Row, objects: map<string, seq<Byte>>)
    requires config.cipher.Lawful() && NewObjectName(row) != row.filePath
    requires StatusOf(config, row, objects).Done?
    ensures MovedWell(config, row, RowAfter(config, row, objects), ObjectsAfter(config, row, objects))
  {
    hide NewObjectName;
    var plain := objects[row.filePath];
    var (blob, meta) := config.cipher.seal(row.id, row.Subject(), plain);
    assert config.cipher.unseal(row.id, row.Subject(), blob) == plain && meta.sha256 == config.cipher.digest(plain);
    assert HeaderSays(blob, meta);
  }

  /** Processing another row leaves a moved document's object alone. */
  lemma OthersStayWell(config: Config, was: World, w: World, i: nat, j: nat)
    requires Apart(was) && AllWell(config, was, w) && i < |w.rows| && j < |w.rows| && i != j
    requires was.rows[j].Eligible() && MovedWell(config, was.rows[j], w.rows[j], w.objects)
    ensures MovedWell(config, was.rows[j], w.rows[j], ObjectsAfter(config, w.rows[i], w.objects))
  {
    hide NewObjectName, HeaderSays;
    if StatusOf(config, w.rows[i], w.objects).Done? {
      assert w.rows[i] == was.rows[i];
      NamesDiffer(was, i, j);
      assert was.rows[i].filePath != NewObjectName(was.rows[j]);
    }
  }

  lemma StepStaysWell(config: Config, was: World, w: World, i: nat)
    requires config.cipher.Lawful() && Apart(was) && AllWell(config, was, w) && i < |w.rows|
    ensures AllWell(config, was, ProcessOne(config, w, i))
  {
    hide NewObjectName, MovedWell;
    var w' := ProcessOne(config, w, i);
    var done := StatusOf(config, w.rows[i], w.objects).Done?;
    forall j | 0 <= j < |w.rows|
      ensures w'.rows[j] == was.rows[j]
              || (was.rows[j].Eligible() && MovedWell(config, was.rows[j], w'.rows[j], w'.objects))
    {
      if i == j && done {
        MovedIsNot(config, was.rows[j], w.rows[j], w.objects);
        MoveIsWell(config, w.rows[j], w.objects);
      } else if w.rows[j] != was.rows[j] {
        if i == j {
          assert ObjectsAfter(config, w.rows[i], w.objects) == w.objects;
        } else {
          OthersStayWell(config, was, w, i, j);
        }
      }
    }
  }

  lemma MovedIsNot(config: Config, was: Row, row: Row, objects: map<string, seq<Byte>>)
    ensures MovedWell(config, was, row, objects) ==> !StatusOf(config, row, objects).Done?
  {
  }

  lemma {:induction false} BatchStaysWell(config: Config, was: World, w: World, todo: seq<nat>)
    requires config.cipher.Lawful() && Apart(was) && AllWell(config, was, w) && InTable(w, todo)
    ensures AllWell(config, was, ProcessAll(config, w, todo))
  {
    hide AllWell, Apart, ProcessOne;
    if todo != [] {
      BatchStaysWell(config, was, w, todo[..|todo| - 1]);
      StepStaysWell(config, was, ProcessAll(config, w, todo[..|todo| - 1]), todo[|todo| - 1]);
    }
  }

  /**
   * After any number of turns each row is as it was, or was to be moved: then it points at its new object, its
   * size and its digest are those of the bytes a reader gets from it, and its key number and its nonce prefix
   * are those in the object's header.
   */
  lemma {:induction false} MovedRowsDescribe(config: Config, w: World, n: nat)
    requires config.cipher.Lawful() && Apart(w)
    ensures AllWell(config, w, Rounds(config, w, n))
  {
    hide AllWell, Apart, Chosen, ProcessAll;
    if n == 0 {
      StartsWell(config, w);
    } else {
      MovedRowsDescribe(config, w, n - 1);
      var before := Rounds(config, w, n - 1);
      BatchStaysWell(config, w, before, Chosen(config, before));
    }
  }

  lemma StartsWell(config: Config, w: World)
    ensures AllWell(config, w, w)
  {
  }

  /** An object that no row to be moved points at or is moved to. */
  ghost predicate Foreign(w: World, path: string) {
    forall j :: 0 <= j < |w.rows| && w.rows[j].Eligible() ==>
      path != w.rows[j].filePath && path != NewObjectName(w.rows[j])
  }

  ghost predicate SameAt(a: map<string, seq<Byte>>, b: map<string, seq<Byte>>, path: string) {
    (path in a <==> path in b) && (path in a ==> a[path] == b[path])
  }

  lemma {:induction false} BatchLeavesForeign(config: Config, was: World, w: World, todo: seq<nat>, path: string)
    requires config.cipher.Lawful() && Apart(was) && AllWell(config, was, w) && InTable(w, todo) && Foreign(was, path)
    ensures SameAt(ProcessAll(config, w, todo).objects, w.objects, path)
  {
    hide Apart, MovedWell, NewObjectName;
    if todo != [] {
      var (init, i) := (todo[..|todo| - 1], todo[|todo| - 1]);
      BatchLeavesForeign(config, was, w, init, path);
      BatchStaysWell(config, was, w, init);
      var before := ProcessAll(config, w, init);
      hide ProcessAll;
      MovedIsNot(config, was.rows[i], before.rows[i], before.objects);
    }
  }

  /** All other objects of the bucket stay as they are. */
  lemma {:induction false} ForeignObjectsStay(config: Config, w: World, n: nat, path: string)
    requires config.cipher.Lawful() && Apart(w) && Foreign(w, path)
    ensures SameAt(Rounds(config, w, n).objects, w.objects, path)
  {
    hide AllWell, Apart, Chosen, ProcessAll, Foreign;
    if n > 0 {
      ForeignObjectsStay(config, w, n - 1, path);
      var before := Rounds(config, w, n - 1);
      MovedRowsDescribe(config, w, n - 1);
      BatchLeavesForeign(config, w, before, Chosen(config, before), path);
    }
  }

  // ----- batches -----

  /** A batch is the oldest rows that wait, as many as fit. */
  lemma BatchIsOldest(config: Config, w: World)
    ensures |Chosen(config, w)| == Min(config.batch, |Waiting(w)|)
    ensures forall i :: 0 <= i < |w.rows| && w.rows[i].Eligible() && i !in Chosen(config, w) ==>
              forall k :: k in Chosen(config, w) ==> k < i
  {
    EligibleComplete(w.rows, |w.rows|);
    var (waiting, first) := (Waiting(w), Chosen(config, w));
    assert forall x :: 0 <= x < |first| ==> first[x] == waiting[x] && first[x] in first;
    forall i, k | 0 <= i < |w.rows| && w.rows[i].Eligible() && i !in Chosen(config, w) && k in Chosen(config, w)
      ensures k < i
    {
      var a :| 0 <= a < |waiting| && waiting[a] == i;
      var b :| 0 <= b < |first| && first[b] == k;
      assert a >= |first|;
    }
  }

  ghost function MovedIn(w: World, w': World, todo: seq<nat>): set<nat>
    requires InTable(w, todo) && |w'.rows| == |w.rows|
  {
    set j | j in todo && w.rows[j].kekVersion.None? && w'.rows[j].kekVersion.Some?
  }

  /** The rows with a path that are not moved. */
  ghost function LeftIn(w: World, w': World, todo: seq<nat>): set<nat>
    requires InTable(w, todo) && |w'.rows| == |w.rows|
  {
    set j | j in todo && w.rows[j].filePath != "" && w'.rows[j].kekVersion.None?
  }

  lemma {:induction false} Untouched(config: Config, w: World, todo: seq<nat>, j: nat)
    requires InTable(w, todo) && j < |w.rows| && j !in todo
    ensures ProcessAll(config, w, todo).rows[j] == w.rows[j]
  {
    hide RowAfter, ObjectsAfter;
    if todo != [] {
      assert todo == todo[..|todo| - 1] + [todo[|todo| - 1]];
      Untouched(config, w, todo[..|todo| - 1], j);
    }
  }

  /**
   * The counts of a batch: as many moved as its rows that became encrypted, and, but for a dry run, as many
   * failed as its rows with a path that did not.
   */
  lemma {:induction false} TallyCounts(config: Config, w: World, todo: seq<nat>)
    requires InTable(w, todo) && Increasing(todo) && forall j :: j in todo ==> w.rows[j].Eligible()
    ensures Tally(config, w, todo).0 == |MovedIn(w, ProcessAll(config, w, todo), todo)|
    ensures !config.dryRun ==> Tally(config, w, todo).1 == |LeftIn(w, ProcessAll(config, w, todo), todo)|
    ensures config.dryRun ==> Tally(config, w, todo).0 == 0
  {
    if todo == [] {
      NothingTallied(config, w);
    } else {
      var init := todo[..|todo| - 1];
      assert forall j :: j in init ==> j in todo;
      TallyCounts(config, w, init);
      TallyGrows(config, w, todo);
      hide *;
    }
  }

  lemma NothingTallied(config: Config, w: World)
    ensures Tally(config, w, []) == (0, 0)
    ensures MovedIn(w, ProcessAll(config, w, []), []) == {} && LeftIn(w, ProcessAll(config, w, []), []) == {}
  {
  }

  /** What the last row of a batch adds to its counts. */
  lemma TallyGrows(config: Config, w: World, todo: seq<nat>)
    requires InTable(w, todo) && todo != [] && Increasing(todo) && w.rows[todo[|todo| - 1]].Eligible()
    ensures var init := todo[..|todo| - 1];
            var (before, after) := (ProcessAll(config, w, init), ProcessAll(config, w, todo));
            && Tally(config, w, todo).0 - Tally(config, w, init).0
            == |MovedIn(w, after, todo)| - |MovedIn(w, before, init)|
            && (!config.dryRun ==>
                  Tally(config, w, todo).1 - Tally(config, w, init).1
                  == |LeftIn(w, after, todo)| - |LeftIn(w, before, init)|)
            && (config.dryRun ==> Tally(config, w, todo).0 == Tally(config, w, init).0)
  {
    var (init, i) := (todo[..|todo| - 1], todo[|todo| - 1]);
    assert todo == init + [i] && i !in init;
    Untouched(config, w, init, i);
    var before := ProcessAll(config, w, init);
    OneMoved(config, before, i);
    TallyLast(config, w, todo);
    hide ProcessOne, ProcessAll, StatusOf, Tally, MovedIn, LeftIn;
    MovedGrows(w, before, ProcessOne(config, before, i), init, i);
    LeftGrows(w, before, ProcessOne(config, before, i), init, i);
  }

  lemma TallyLast(config: Config, w: World, todo: seq<nat>)
    requires InTable(w, todo) && todo != []
    ensures var (init, i) := (todo[..|todo| - 1], todo[|todo| - 1]);
            var before := ProcessAll(config, w, init);
            var status := StatusOf(config, before.rows[i], before.objects);
            && ProcessAll(config, w, todo) == ProcessOne(config, before, i)
            && Tally(config, w, todo).0 == Tally(config, w, init).0 + (if status.Done? then 1 else 0)
            && Tally(config, w, todo).1
            == Tally(config, w, init).1 + (if status.FailDownload? || status.FailUpload? then 1 else 0)
  {
    hide ProcessOne, StatusOf;
  }

  lemma MovedGrows(w: World, before: World, after: World, init: seq<nat>, i: nat)
    requires |w.rows| == |before.rows| == |after.rows| && InTable(w, init) && i < |w.rows| && i !in init
    requires before.rows[i] == w.rows[i]
    requires forall j :: 0 <= j < |w.rows| && j != i ==> after.rows[j] == before.rows[j]
    ensures InTable(w, init + [i])
    ensures |MovedIn(w, after, init + [i])|
         == |MovedIn(w, before, init)| + if w.rows[i].kekVersion.None? && after.rows[i].kekVersion.Some? then 1 else 0
  {
    var (some, all) := (MovedIn(w, before, init), MovedIn(w, after, init + [i]));
    var moved := w.rows[i].kekVersion.None? && after.rows[i].kekVersion.Some?;
    forall j ensures j in all <==> j in some || (moved && j == i) {
      assert j in init + [i] <==> j in init || j == i;
    }
    assert i !in some;
    hide *;
    assert all == if moved then some + {i} else some;
  }

  lemma LeftGrows(w: World, before: World, after: World, init: seq<nat>, i: nat)
    requires |w.rows| == |before.rows| == |after.rows| && InTable(w, init) && i < |w.rows| && i !in init
    requires before.rows[i] == w.rows[i]
    requires forall j :: 0 <= j < |w.rows| && j != i ==> after.rows[j] == before.rows[j]
    ensures InTable(w, init + [i])
    ensures |LeftIn(w, after, init + [i])|
         == |LeftIn(w, before, init)| + if w.rows[i].filePath != "" && after.rows[i].kekVersion.None? then 1 else 0
  {
    var (some, all) := (LeftIn(w, before, init), LeftIn(w, after, init + [i]));
    var stays := w.rows[i].filePath != "" && after.rows[i].kekVersion.None?;
    forall j ensures j in all <==> j in some || (stays && j == i) {
      assert j in init + [i] <==> j in init || j == i;
    }
    assert i !in some;
    hide *;
    assert all == if stays then some + {i} else some;
  }

  lemma OneMoved(config: Config, w: World, i: nat)
    requires i < |w.rows| && w.rows[i].Eligible()
    ensures var (w', status) := (ProcessOne(config, w, i), StatusOf(config, w.rows[i], w.objects));
            && (forall j :: 0 <= j < |w.rows| && j != i ==> w'.rows[j] == w.rows[j])
            && (status.Done? <==> w'.rows[i].kekVersion.Some?)
            && (config.dryRun ==> !status.Done?)
            && (!config.dryRun ==>
                  (status.FailDownload? || status.FailUpload?
                   <==> w.rows[i].filePath != "" && w'.rows[i].kekVersion.None?))
  {
    hide NewObjectName;
  }
}
