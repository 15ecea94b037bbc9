/** The retention policy for encrypted backups: per cadence, the most recent few are kept. */
module Retention {
  import opened Common
  import opened Calendar
  import Readings

  /** A listed object whose name parsed: its key and the second it was taken, counted from 0001-01-01. */
  datatype Backup = Backup(key: string, taken: nat)

  datatype Cadence = Daily | Weekly | Monthly | Yearly

  /** `_retention_bucket` on the parsed time; 1 January of the year 1 was a Monday. */
  function CadenceOf(taken: nat): Cadence {
    var day := taken / 86400;
    var date := CivilDate(day);
    if date.month == 1 && date.day == 1 then Yearly
    else if date.day == 1 then Monthly
    else if day % 7 == 6 then Weekly
    else Daily
  }

  /** `_RETENTION_KEEP`. */
  function Quota(c: Cadence): nat {
    match c
    case Daily => 7
    case Weekly => 4
    case Monthly => 12
    case Yearly => 7
  }

  // ----- the policy on sets of backups -----

  ghost predicate DistinctTimes(backups: set<Backup>) {
    forall a, b :: a in backups && b in backups && a.taken == b.taken ==> a == b
  }

  lemma DistinctSubset(all: set<Backup>, some: set<Backup>)
    requires DistinctTimes(all) && some <= all
    ensures DistinctTimes(some)
  {
  }

  function OfCadence(backups: set<Backup>, c: Cadence): set<Backup> {
    set b | b in backups && CadenceOf(b.taken) == c
  }

  /** The backups of the same cadence taken later. */
  function Newer(backups: set<Backup>, b: Backup): set<Backup> {
    set x | x in backups && CadenceOf(x.taken) == CadenceOf(b.taken) && x.taken > b.taken
  }

  /** What the policy keeps. */
  function Survivors(backups: set<Backup>): set<Backup> {
    set b | b in backups && |Newer(backups, b)| < Quota(CadenceOf(b.taken))
  }

  lemma SubsetSize<T>(a: set<T>, b: set<T>)
    requires a <= b
    ensures |a| <= |b|
    ensures |a| == |b| ==> a == b
  {
    assert b == a + (b - a);
  }

  /** The backups of a cadence with fewer than `n` newer ones. */
  ghost function Top(backups: set<Backup>, c: Cadence, n: nat): set<Backup> {
    set b | b in backups && CadenceOf(b.taken) == c && |Newer(backups, b)| < n
  }

  lemma {:induction false} Latest(backups: set<Backup>) returns (latest: Backup)
    requires backups != {}
    ensures latest in backups && forall b :: b in backups ==> b.taken <= latest.taken
    decreases |backups|
  {
    latest :| latest in backups;
    var rest := backups - {latest};
    if rest != {} {
      var other := Latest(rest);
      if other.taken > latest.taken {
        latest := other;
      }
    }
  }

  /** Leaving the newest of its cadence out, every other one moves up a place. */
  lemma TopWithoutLatest(backups: set<Backup>, c: Cadence, n: nat, latest: Backup)
    requires n > 0 && DistinctTimes(backups) && latest in OfCadence(backups, c)
    requires forall b :: b in OfCadence(backups, c) ==> b.taken <= latest.taken
    ensures Top(backups, c, n) == {latest} + Top(backups - {latest}, c, n - 1)
  {
    hide CadenceOf;
    var rest := backups - {latest};
    assert forall x :: x in backups && CadenceOf(x.taken) == c ==> x in OfCadence(backups, c);
    assert Newer(backups, latest) == {};
    forall b | b in OfCadence(backups, c) && b != latest
      ensures Newer(backups, b) == Newer(rest, b) + {latest} && latest !in Newer(rest, b)
    {
      assert b.taken < latest.taken;
    }
  }

  lemma TopEmpty(backups: set<Backup>, c: Cadence, n: nat)
    requires n == 0 || OfCadence(backups, c) == {}
    ensures Top(backups, c, n) == {}
  {
    hide CadenceOf;
    assert forall b :: b in Top(backups, c, n) ==> b in OfCadence(backups, c);
  }

  lemma TopStep(backups: set<Backup>, c: Cadence, n: nat, latest: Backup)
    requires n > 0 && DistinctTimes(backups) && latest in OfCadence(backups, c)
    requires forall b :: b in OfCadence(backups, c) ==> b.taken <= latest.taken
    ensures DistinctTimes(backups - {latest})
    ensures |Top(backups, c, n)| == 1 + |Top(backups - {latest}, c, n - 1)|
    ensures |OfCadence(backups, c)| == 1 + |OfCadence(backups - {latest}, c)|
  {
    hide CadenceOf;
    var rest := backups - {latest};
    TopWithoutLatest(backups, c, n, latest);
    DistinctSubset(backups, rest);
    assert OfCadence(rest, c) == OfCadence(backups, c) - {latest};
    assert latest !in Top(rest, c, n - 1);
    OneMore(latest, Top(rest, c, n - 1), OfCadence(backups, c));
  }

  /** Exactly `n` of a cadence have fewer than `n` newer ones, or all if there are not as many. */
  lemma {:induction false} TopSize(backups: set<Backup>, c: Cadence, n: nat)
    requires DistinctTimes(backups)
    ensures |Top(backups, c, n)| == Min(n, |OfCadence(backups, c)|)
    decreases n
  {
    hide Top, OfCadence, DistinctTimes;
    if n == 0 || OfCadence(backups, c) == {} {
      TopEmpty(backups, c, n);
    } else {
      var latest := Latest(OfCadence(backups, c));
      TopStep(backups, c, n, latest);
      TopSize(backups - {latest}, c, n - 1);
    }
  }

  lemma OneMore<T>(x: T, few: set<T>, all: set<T>)
    requires x !in few && x in all
    ensures |{x} + few| == 1 + |few| && |all - {x}| == |all| - 1
  {
  }

  /** Each cadence keeps exactly its quota of the most recent backups, or all of them if there are fewer. */
  lemma KeepsMostRecent(backups: set<Backup>, c: Cadence)
    requires DistinctTimes(backups)
    ensures |OfCadence(Survivors(backups), c)| == Min(Quota(c), |OfCadence(backups, c)|)
    ensures forall kept, lost ::
              kept in OfCadence(Survivors(backups), c) && lost in OfCadence(backups, c) - Survivors(backups)
              ==> lost.taken < kept.taken
  {
    hide CadenceOf;
    TopSize(backups, c, Quota(c));
    assert OfCadence(Survivors(backups), c) == Top(backups, c, Quota(c));
    forall kept, lost | kept in OfCadence(Survivors(backups), c) && lost in OfCadence(backups, c) - Survivors(backups)
      ensures lost.taken < kept.taken
    {
      if kept.taken <= lost.taken {
        SubsetSize(Newer(backups, lost), Newer(backups, kept));
      }
    }
  }

  /** What a single pruning keeps, an earlier pruning did not remove. */
  lemma EarlierPruningSpares(past: set<Backup>, recent: set<Backup>, b: Backup)
    requires b in Survivors(past + recent)
    ensures b in Survivors(Survivors(past) + recent)
  {
    hide CadenceOf;
    SubsetSize(Newer(Survivors(past) + recent, b), Newer(past + recent, b));
    SubsetSize(Newer(past, b), Newer(past + recent, b));
  }

  /** What two prunings keep, a single one keeps: had something newer been pruned, a full quota was kept then. */
  lemma EarlierPruningHidesNothing(past: set<Backup>, recent: set<Backup>, b: Backup)
    requires DistinctTimes(past + recent) && b in Survivors(Survivors(past) + recent)
    ensures b in Survivors(past + recent)
  {
    hide CadenceOf;
    var (few, all) := (Survivors(past) + recent, past + recent);
    var c := CadenceOf(b.taken);
    if Newer(all, b) <= Newer(few, b) {
      SubsetSize(Newer(all, b), Newer(few, b));
    } else {
      DistinctSubset(past + recent, past);
      hide Survivors, DistinctTimes;
      var y :| y in Newer(all, b) && y !in Newer(few, b);
      assert y !in few && y in past;
      FullQuota(past, c, y);
      KeepsMostRecent(past, c);
      KeptAreNewer(past, recent, c, b, y);
    }
  }

  lemma KeptAreNewer(past: set<Backup>, recent: set<Backup>, c: Cadence, b: Backup, y: Backup)
    requires CadenceOf(b.taken) == c && b.taken < y.taken
    requires forall kept :: kept in OfCadence(Survivors(past), c) ==> y.taken < kept.taken
    ensures |OfCadence(Survivors(past), c)| <= |Newer(Survivors(past) + recent, b)|
  {
    hide CadenceOf, Survivors;
    SubsetSize(OfCadence(Survivors(past), c), Newer(Survivors(past) + recent, b));
  }

  /** A backup is pruned only from a full cadence. */
  lemma FullQuota(backups: set<Backup>, c: Cadence, lost: Backup)
    requires DistinctTimes(backups) && lost in OfCadence(backups, c) - Survivors(backups)
    ensures |OfCadence(Survivors(backups), c)| == Quota(c)
  {
    hide CadenceOf;
    KeepsMostRecent(backups, c);
    SubsetSize(Newer(backups, lost), OfCadence(backups, c));
  }

  /** Pruning after every backup keeps what pruning the full history once would keep. */
  lemma IncrementalPruning(past: set<Backup>, recent: set<Backup>)
    requires DistinctTimes(past + recent)
    ensures Survivors(Survivors(past) + recent) == Survivors(past + recent)
  {
    forall b ensures b in Survivors(Survivors(past) + recent) <==> b in Survivors(past + recent) {
      if b in Survivors(past + recent) {
        EarlierPruningSpares(past, recent, b);
      }
      if b in Survivors(Survivors(past) + recent) {
        EarlierPruningHidesNothing(past, recent, b);
      }
    }
  }

  lemma PruningIsIdempotent(backups: set<Backup>)
    requires DistinctTimes(backups)
    ensures Survivors(Survivors(backups)) == Survivors(backups)
  {
    IncrementalPruning(backups, {});
    assert backups + {} == backups && Survivors(backups) + {} == Survivors(backups);
  }

  function Union(batches: seq<set<Backup>>): set<Backup> {
    if batches == [] then {} else Union(batches[..|batches| - 1]) + batches[|batches| - 1]
  }

  /** The backups left when the store is pruned after each batch of new ones. */
  function PrunedEachTime(batches: seq<set<Backup>>): set<Backup> {
    if batches == [] then {}
    else Survivors(PrunedEachTime(batches[..|batches| - 1]) + batches[|batches| - 1])
  }

  /** However the history is cut into batches, pruning after each of them loses nothing. */
  lemma {:induction false} PrunedEachTimeIsPrunedOnce(batches: seq<set<Backup>>)
    requires DistinctTimes(Union(batches))
    ensures PrunedEachTime(batches) == Survivors(Union(batches))
  {
    if batches != [] {
      var (init, last) := (batches[..|batches| - 1], batches[|batches| - 1]);
      PrunedEachTimeIsPrunedOnce(init);
      IncrementalPruning(Union(init), last);
    }
  }

  // ----- the code -----

  /** Inserts behind everything taken at the same time or later, as a stable descending sort does. */
  function InsertDescending(sorted: seq<Backup>, b: Backup): (r: seq<Backup>)
    ensures |r| == |sorted| + 1
  {
    if sorted == [] || sorted[|sorted| - 1].taken >= b.taken then sorted + [b]
    else InsertDescending(sorted[..|sorted| - 1], b) + [sorted[|sorted| - 1]]
  }

  /** `keys.sort(key=lambda x: x[1], reverse=True)`. */
  function SortDescending(listing: seq<Backup>): (r: seq<Backup>)
    ensures |r| == |listing|
  {
    if listing == [] then []
    else InsertDescending(SortDescending(listing[..|listing| - 1]), listing[|listing| - 1])
  }

  function CountOf(backups: seq<Backup>, c: Cadence): nat {
    if backups == [] then 0
    else CountOf(backups[..|backups| - 1], c) + if CadenceOf(backups[|backups| - 1].taken) == c then 1 else 0
  }

  /** The keys the selection loop collects, walking a sorted listing: the first few of each cadence. */
  function FirstFew(sorted: seq<Backup>): set<string> {
    if sorted == [] then {}
    else
      var (init, last) := (sorted[..|sorted| - 1], sorted[|sorted| - 1]);
      var c := CadenceOf(last.taken);
      FirstFew(init) + if CountOf(init, c) < Quota(c) then {last.key} else {}
  }

  function Manifest(key: string): string {
    key + ".manifest.json"
  }

  lemma CountStep(sorted: seq<Backup>, i: nat, c: Cadence)
    requires i < |sorted|
    ensures CountOf(sorted[..i + 1], c)
         == CountOf(sorted[..i], c) + if CadenceOf(sorted[i].taken) == c then 1 else 0
  {
    hide CadenceOf;
    assert sorted[..i + 1][..i] == sorted[..i] && sorted[..i + 1][i] == sorted[i];
  }

  lemma FirstFewStep(sorted: seq<Backup>, i: nat)
    requires i < |sorted|
    ensures var c := CadenceOf(sorted[i].taken);
            FirstFew(sorted[..i + 1])
            == FirstFew(sorted[..i]) + if CountOf(sorted[..i], c) < Quota(c) then {sorted[i].key} else {}
  {
    hide CadenceOf, CountOf;
    assert sorted[..i + 1][..i] == sorted[..i] && sorted[..i + 1][i] == sorted[i];
  }

  /** What is left in the bucket once the backups in `gone` that are not in `keep` have been deleted. */
  function Remaining(before: set<string>, gone: seq<Backup>, keep: set<string>, stuck: set<string>): set<string> {
    if gone == [] then before
    else
      var b := gone[|gone| - 1];
      Remaining(before, gone[..|gone| - 1], keep, stuck) - Removed(b, keep, stuck)
  }

  /** The objects one deletion removes; where deleting the backup raises, its manifest is not tried. */
  function Removed(b: Backup, keep: set<string>, stuck: set<string>): set<string> {
    if b.key in keep || b.key in stuck then {}
    else if Manifest(b.key) in stuck then {b.key}
    else {b.key, Manifest(b.key)}
  }

  function Deleted(gone: seq<Backup>, keep: set<string>, stuck: set<string>): nat {
    if gone == [] then 0
    else
      var b := gone[|gone| - 1];
      Deleted(gone[..|gone| - 1], keep, stuck)
      + if b.key !in keep && b.key !in stuck && Manifest(b.key) !in stuck then 1 else 0
  }

  /** The bucket; deleting some keys raises. */
  class BackupStore {
    var objects: set<string>
    const stuck: set<string>

    constructor (objects: set<string>, stuck: set<string>)
      ensures this.objects == objects && this.stuck == stuck
    {
      this.objects, this.stuck := objects, stuck;
    }

    method Delete(key: string) returns (ok: bool)
      modifies this
      ensures ok <==> key !in stuck
      ensures objects == if ok then old(objects) - {key} else old(objects)
    {
      ok := key !in stuck;
      if ok {
        objects := objects - {key};
      }
    }

    /** The selection loop of `_prune`. */
    static method Select(sorted: seq<Backup>) returns (keep: set<string>)
      ensures keep == FirstFew(sorted)
    {
      hide CadenceOf, FirstFew;
      keep := {};
      var seen: map<Cadence, nat> := map[Daily := 0, Weekly := 0, Monthly := 0, Yearly := 0];
      assert sorted[..0] == [];
      NothingKept();
      for i := 0 to |sorted|
        invariant forall c: Cadence :: c in seen
        invariant forall c: Cadence :: seen[c] == Min(CountOf(sorted[..i], c), Quota(c))
        invariant keep == FirstFew(sorted[..i])
      {
        hide CountOf;
        var c := CadenceOf(sorted[i].taken);
        FirstFewStep(sorted, i);
        forall d: Cadence
          ensures CountOf(sorted[..i + 1], d)
               == CountOf(sorted[..i], d) + if c == d then 1 else 0
        {
          CountStep(sorted, i, d);
        }
        if seen[c] < Quota(c) {
          keep := keep + {sorted[i].key};
          seen := seen[c := seen[c] + 1];
        }
      }
      assert sorted[..|sorted|] == sorted;
    }

    /** `_prune`, after the listing has been parsed. */
    method Prune(listing: seq<Backup>) returns (kept: nat, deleted: nat)
      modifies this
      ensures var keep := FirstFew(SortDescending(listing));
              && kept == |keep|
              && deleted == Deleted(SortDescending(listing), keep, stuck)
              && objects == Remaining(old(objects), SortDescending(listing), keep, stuck)
    {
      hide FirstFew, SortDescending, Manifest;
      var keys := SortDescending(listing);
      var keep := Select(keys);
      deleted := 0;
      ghost var before := objects;
      for i := 0 to |keys|
        invariant deleted == Deleted(keys[..i], keep, stuck)
        invariant objects == Remaining(before, keys[..i], keep, stuck)
      {
        assert keys[..i + 1][..i] == keys[..i] && keys[..i + 1][i] == keys[i];
        var key := keys[i].key;
        if key !in keep {
          var ok := Delete(key);
          if ok {
            ok := Delete(Manifest(key));
            if ok {
              deleted := deleted + 1;
            }
          }
        }
      }
      assert keys[..|keys|] == keys;
      kept := |keep|;
    }
  }

  lemma NothingKept()
    ensures FirstFew([]) == {}
  {
  }

  // ----- the code follows the policy -----

  function SetOf(backups: seq<Backup>): set<Backup> {
    set b | b in backups
  }

  ghost function KeysOf(backups: set<Backup>): set<string> {
    set b | b in backups :: b.key
  }

  ghost predicate Descending(backups: seq<Backup>) {
    forall i, j :: 0 <= i < j < |backups| ==> backups[i].taken > backups[j].taken
  }

  ghost predicate TimesDiffer(backups: seq<Backup>) {
    forall i, j :: 0 <= i < j < |backups| ==> backups[i].taken != backups[j].taken
  }

  lemma AppendOldest(backups: seq<Backup>, b: Backup)
    requires Descending(backups) && forall x :: x in SetOf(backups) ==> x.taken > b.taken
    ensures Descending(backups + [b]) && SetOf(backups + [b]) == SetOf(backups) + {b}
  {
    var all := backups + [b];
    forall i, j | 0 <= i < j < |all| ensures all[i].taken > all[j].taken {
      assert i < |backups| ==> backups[i] in SetOf(backups);
    }
  }

  lemma SplitLast(backups: seq<Backup>)
    requires Descending(backups) && backups != []
    ensures var (init, last) := (backups[..|backups| - 1], backups[|backups| - 1]);
            && Descending(init) && backups == init + [last] && SetOf(backups) == SetOf(init) + {last}
            && forall x :: x in SetOf(init) ==> x.taken > last.taken
  {
    assert backups == backups[..|backups| - 1] + [backups[|backups| - 1]];
  }

  lemma {:induction false} InsertKeepsDescending(sorted: seq<Backup>, b: Backup)
    requires Descending(sorted) && forall x :: x in SetOf(sorted) ==> x.taken != b.taken
    ensures Descending(InsertDescending(sorted, b))
    ensures SetOf(InsertDescending(sorted, b)) == SetOf(sorted) + {b}
  {
    if sorted == [] {
      assert SetOf([b]) == {b} && SetOf(sorted) == {};
    } else {
      hide Descending, SetOf;
      SplitLast(sorted);
      var (init, last) := (sorted[..|sorted| - 1], sorted[|sorted| - 1]);
      if last.taken >= b.taken {
        AppendOldest(sorted, b);
      } else {
        InsertKeepsDescending(init, b);
        AppendOldest(InsertDescending(init, b), last);
      }
    }
  }

  lemma {:induction false} SortedDescending(listing: seq<Backup>)
    requires TimesDiffer(listing)
    ensures Descending(SortDescending(listing)) && SetOf(SortDescending(listing)) == SetOf(listing)
  {
    if listing != [] {
      var (init, last) := (listing[..|listing| - 1], listing[|listing| - 1]);
      SortedDescending(init);
      assert listing == init + [last];
      forall x | x in SetOf(SortDescending(init)) ensures x.taken != last.taken {
        assert x in SetOf(init);
      }
      InsertKeepsDescending(SortDescending(init), last);
    }
  }

  function TakenAt(backups: seq<Backup>, taken: nat): seq<Backup> {
    if backups == [] then []
    else
      var last := backups[|backups| - 1];
      TakenAt(backups[..|backups| - 1], taken) + if last.taken == taken then [last] else []
  }

  ghost predicate NewestFirst(backups: seq<Backup>) {
    forall i, j :: 0 <= i < j < |backups| ==> backups[i].taken >= backups[j].taken
  }

  lemma {:induction false} InsertNewestFirst(sorted: seq<Backup>, b: Backup)
    requires NewestFirst(sorted)
    ensures NewestFirst(InsertDescending(sorted, b))
    ensures forall x :: x in InsertDescending(sorted, b) ==> x == b || x in sorted
  {
    if sorted != [] && sorted[|sorted| - 1].taken < b.taken {
      var (init, last) := (sorted[..|sorted| - 1], sorted[|sorted| - 1]);
      InsertNewestFirst(init, b);
      forall x | x in InsertDescending(init, b) ensures x.taken >= last.taken {
        assert x == b || x in init;
      }
    }
  }

  lemma {:induction false} InsertIsStable(sorted: seq<Backup>, b: Backup, taken: nat)
    ensures TakenAt(InsertDescending(sorted, b), taken) == TakenAt(sorted + [b], taken)
  {
    if sorted != [] && sorted[|sorted| - 1].taken < b.taken {
      var (init, last) := (sorted[..|sorted| - 1], sorted[|sorted| - 1]);
      InsertIsStable(init, b, taken);
      TakenAtLast(init, b, taken);
      TakenAtLast(sorted, b, taken);
      TakenAtLast(InsertDescending(init, b), last, taken);
    }
  }

  lemma TakenAtLast(init: seq<Backup>, last: Backup, taken: nat)
    ensures TakenAt(init + [last], taken) == TakenAt(init, taken) + if last.taken == taken then [last] else []
  {
    assert (init + [last])[..|init|] == init;
  }

  /** With any times: newest first, and those taken at one time in the order of the listing. */
  lemma {:induction false} SortIsStable(listing: seq<Backup>, taken: nat)
    ensures NewestFirst(SortDescending(listing))
    ensures TakenAt(SortDescending(listing), taken) == TakenAt(listing, taken)
  {
    if listing != [] {
      var (init, last) := (listing[..|listing| - 1], listing[|listing| - 1]);
      SortIsStable(init, taken);
      InsertNewestFirst(SortDescending(init), last);
      InsertIsStable(SortDescending(init), last, taken);
      TakenAtLast(SortDescending(init), last, taken);
    }
  }

  lemma {:induction false} CountIsSize(sorted: seq<Backup>, c: Cadence)
    requires Descending(sorted)
    ensures CountOf(sorted, c) == |OfCadence(SetOf(sorted), c)|
  {
    hide CadenceOf;
    if sorted == [] {
      assert OfCadence(SetOf(sorted), c) == {};
    } else {
      var (init, last) := (sorted[..|sorted| - 1], sorted[|sorted| - 1]);
      hide OfCadence;
      CountIsSize(init, c);
      OfCadenceStep(sorted, c);
    }
  }

  lemma OfCadenceStep(sorted: seq<Backup>, c: Cadence)
    requires Descending(sorted) && sorted != []
    ensures var (init, last) := (sorted[..|sorted| - 1], sorted[|sorted| - 1]);
            |OfCadence(SetOf(sorted), c)|
            == |OfCadence(SetOf(init), c)| + if CadenceOf(last.taken) == c then 1 else 0
  {
    hide CadenceOf, OfCadence, SetOf;
    var (init, last) := (sorted[..|sorted| - 1], sorted[|sorted| - 1]);
    LastIsNew(sorted);
    OfCadenceOneMore(SetOf(init), last, c);
  }

  lemma LastIsNew(sorted: seq<Backup>)
    requires Descending(sorted) && sorted != []
    ensures var (init, last) := (sorted[..|sorted| - 1], sorted[|sorted| - 1]);
            last !in SetOf(init) && SetOf(sorted) == SetOf(init) + {last}
  {
    var (init, last) := (sorted[..|sorted| - 1], sorted[|sorted| - 1]);
    assert sorted == init + [last];
  }

  lemma OfCadenceOneMore(backups: set<Backup>, b: Backup, c: Cadence)
    requires b !in backups
    ensures |OfCadence(backups + {b}, c)| == |OfCadence(backups, c)| + if CadenceOf(b.taken) == c then 1 else 0
  {
    hide CadenceOf;
    assert b !in OfCadence(backups, c);
    assert OfCadence(backups + {b}, c) == OfCadence(backups, c) + if CadenceOf(b.taken) == c then {b} else {};
  }

  /** The oldest backup takes nobody's place. */
  lemma OldestLast(backups: set<Backup>, oldest: Backup)
    requires forall b :: b in backups ==> b.taken > oldest.taken
    ensures var c := CadenceOf(oldest.taken);
            Survivors(backups + {oldest})
            == Survivors(backups) + if |OfCadence(backups, c)| < Quota(c) then {oldest} else {}
  {
    hide CadenceOf;
    var all := backups + {oldest};
    assert Newer(all, oldest) == OfCadence(backups, CadenceOf(oldest.taken));
    forall b | b in backups ensures Newer(all, b) == Newer(backups, b) {}
  }

  lemma {:induction false} FirstFewSurvive(sorted: seq<Backup>)
    requires Descending(sorted)
    ensures FirstFew(sorted) == KeysOf(Survivors(SetOf(sorted)))
  {
    hide CadenceOf, CountOf, Quota, Survivors, OfCadence, KeysOf, Descending;
    if sorted == [] {
      NothingSurvives();
    } else {
      var (init, last) := (sorted[..|sorted| - 1], sorted[|sorted| - 1]);
      DescendingInit(sorted);
      hide SetOf;
      FirstFewSurvive(init);
      CountIsSize(init, CadenceOf(last.taken));
      LastIsNew(sorted);
      OldestLast(SetOf(init), last);
      KeysOfUnion(Survivors(SetOf(init)), last);
    }
  }

  lemma NothingSurvives()
    ensures KeysOf(Survivors(SetOf([]))) == {}
  {
    assert Survivors(SetOf([])) == {};
  }

  lemma DescendingInit(sorted: seq<Backup>)
    requires Descending(sorted) && sorted != []
    ensures Descending(sorted[..|sorted| - 1])
    ensures forall b :: b in SetOf(sorted[..|sorted| - 1]) ==> b.taken > sorted[|sorted| - 1].taken
  {
  }

  lemma KeysOfUnion(backups: set<Backup>, b: Backup)
    ensures KeysOf(backups + {b}) == KeysOf(backups) + {b.key} && KeysOf(backups + {}) == KeysOf(backups)
  {
    assert backups + {} == backups;
    assert b in backups + {b};
  }

  /** With distinct times the loop of `_prune` keeps exactly what the policy keeps. */
  lemma PruneFollowsPolicy(listing: seq<Backup>)
    requires TimesDiffer(listing)
    ensures FirstFew(SortDescending(listing)) == KeysOf(Survivors(SetOf(listing)))
  {
    SortedDescending(listing);
    FirstFewSurvive(SortDescending(listing));
  }

  /** The backups still listed after a pruning of `listing` whose deletions all succeed. */
  ghost function LeftBy(listing: seq<Backup>): set<Backup> {
    set b | b in listing && b.key in FirstFew(SortDescending(listing))
  }

  /** A later run, on what an earlier run left and the backups taken since, keeps the keys one run over all keeps. */
  lemma PruneAgain(past: seq<Backup>, recent: set<Backup>, next: seq<Backup>, all: seq<Backup>)
    requires TimesDiffer(past) && TimesDiffer(next) && TimesDiffer(all)
    requires forall i, j :: 0 <= i < j < |past| ==> past[i].key != past[j].key
    requires SetOf(next) == LeftBy(past) + recent
    requires SetOf(all) == SetOf(past) + recent
    ensures FirstFew(SortDescending(next)) == FirstFew(SortDescending(all))
  {
    hide FirstFew, SortDescending, Survivors;
    PruneFollowsPolicy(next);
    PruneFollowsPolicy(all);
    LeftAreSurvivors(past);
    DistinctOf(all);
    IncrementalPruning(SetOf(past), recent);
  }

  lemma LeftAreSurvivors(listing: seq<Backup>)
    requires TimesDiffer(listing)
    requires forall i, j :: 0 <= i < j < |listing| ==> listing[i].key != listing[j].key
    ensures LeftBy(listing) == Survivors(SetOf(listing))
  {
    hide FirstFew, SortDescending;
    PruneFollowsPolicy(listing);
    assert Survivors(SetOf(listing)) <= SetOf(listing);
    hide Survivors;
    forall b | b in LeftBy(listing) ensures b in Survivors(SetOf(listing)) {
      var x :| x in Survivors(SetOf(listing)) && x.key == b.key;
      assert x in SetOf(listing);
      assert x == b;
    }
    forall b | b in Survivors(SetOf(listing)) ensures b in LeftBy(listing) {
      assert b in SetOf(listing) && b.key in KeysOf(Survivors(SetOf(listing)));
    }
  }

  lemma DistinctOf(listing: seq<Backup>)
    requires TimesDiffer(listing)
    ensures DistinctTimes(SetOf(listing))
  {
  }

  ghost predicate IsManifest(key: string) {
    exists stem: string :: key == Manifest(stem)
  }

  /** A manifest is named after its backup, and told from a backup by how its name ends. */
  lemma ManifestsEnd(key: string)
    ensures |key| < |Manifest(key)| && Manifest(key)[..|key|] == key && Manifest(key)[|key|..] == ".manifest.json"
    ensures IsManifest(key) <==> |key| >= 14 && key[|key| - 14..] == ".manifest.json"
  {
    if |key| >= 14 && key[|key| - 14..] == ".manifest.json" {
      assert key == Manifest(key[..|key| - 14]);
    }
  }

  /** A backup's object goes exactly when the policy drops it and the bucket lets it go. */
  lemma {:induction false} RemainingBackups(
    before: set<string>, gone: seq<Backup>, keep: set<string>, stuck: set<string>, b: Backup)
    requires b in gone && b.key in before && !IsManifest(b.key)
    ensures b.key in Remaining(before, gone, keep, stuck) <==> b.key in keep + stuck
  {
    RemainingObject(before, gone, keep, stuck, b.key);
    if b.key !in keep + stuck {
      assert exists x :: x in gone && b.key in Removed(x, keep, stuck);
    }
    forall x | x in gone && b.key in Removed(x, keep, stuck) ensures b.key == x.key {
      assert b.key != Manifest(x.key);
    }
  }

  /** An object goes exactly when some deletion removes it: nothing outside the listing is touched. */
  lemma {:induction false} RemainingObject(
    before: set<string>, gone: seq<Backup>, keep: set<string>, stuck: set<string>, o: string)
    ensures o in Remaining(before, gone, keep, stuck)
       <==> o in before && forall b :: b in gone ==> o !in Removed(b, keep, stuck)
  {
    hide Removed;
    if gone != [] {
      var (init, last) := (gone[..|gone| - 1], gone[|gone| - 1]);
      RemainingObject(before, init, keep, stuck, o);
      assert gone == init + [last];
      assert forall b :: b in gone <==> b in init || b == last;
    }
  }

  /** When every deletion succeeds, kept and deleted cover the listing. */
  lemma KeptPlusDeleted(listing: seq<Backup>)
    requires TimesDiffer(listing)
    requires forall i, j :: 0 <= i < j < |listing| ==> listing[i].key != listing[j].key
    ensures var keep := FirstFew(SortDescending(listing));
            |keep| + Deleted(SortDescending(listing), keep, {}) == |listing|
  {
    SortedDescending(listing);
    var sorted := SortDescending(listing);
    KeysStayDistinct(listing, sorted);
    FirstFewAreListed(sorted);
    DeletedCounts(sorted, FirstFew(sorted));
    KeptCounts(sorted, FirstFew(sorted));
  }

  lemma KeysStayDistinct(listing: seq<Backup>, sorted: seq<Backup>)
    requires forall i, j :: 0 <= i < j < |listing| ==> listing[i].key != listing[j].key
    requires Descending(sorted) && SetOf(sorted) == SetOf(listing)
    ensures forall i, j :: 0 <= i < j < |sorted| ==> sorted[i].key != sorted[j].key
  {
    forall i, j | 0 <= i < j < |sorted| ensures sorted[i].key != sorted[j].key {
      assert sorted[i] in SetOf(sorted) && sorted[j] in SetOf(sorted);
      assert sorted[i] in listing && sorted[j] in listing;
      assert sorted[i] != sorted[j];
    }
  }

  function KeptOf(backups: seq<Backup>, keep: set<string>): nat {
    if backups == [] then 0
    else KeptOf(backups[..|backups| - 1], keep) + if backups[|backups| - 1].key in keep then 1 else 0
  }

  lemma {:induction false} DeletedCounts(gone: seq<Backup>, keep: set<string>)
    ensures Deleted(gone, keep, {}) + KeptOf(gone, keep) == |gone|
  {
    if gone != [] {
      DeletedCounts(gone[..|gone| - 1], keep);
    }
  }

  ghost predicate WhollyGone(gone: seq<Backup>, keep: set<string>, stuck: set<string>, i: nat)
    requires i < |gone|
  {
    gone[i].key !in keep && gone[i].key !in stuck && gone[i].key + ".manifest.json" !in stuck
  }

  /** A backup counts as deleted when its object and its manifest could both be deleted. */
  lemma {:induction false} DeletedExactly(gone: seq<Backup>, keep: set<string>, stuck: set<string>)
    ensures Deleted(gone, keep, stuck) == |set i: nat | i < |gone| && WhollyGone(gone, keep, stuck, i)|
  {
    if gone != [] {
      var (init, n) := (gone[..|gone| - 1], |gone| - 1);
      DeletedExactly(init, keep, stuck);
      var before := set i: nat | i < |init| && WhollyGone(init, keep, stuck, i);
      var after := set i: nat | i < |gone| && WhollyGone(gone, keep, stuck, i);
      assert forall i: nat :: i < n ==> init[i] == gone[i];
      assert after == before + if WhollyGone(gone, keep, stuck, n) then {n} else {};
    }
  }

  lemma {:induction false} FirstFewAreListed(sorted: seq<Backup>)
    ensures FirstFew(sorted) <= KeysOf(SetOf(sorted))
  {
    hide CadenceOf, CountOf, Quota;
    if sorted != [] {
      var (init, last) := (sorted[..|sorted| - 1], sorted[|sorted| - 1]);
      FirstFewAreListed(init);
      assert sorted == init + [last];
      assert SetOf(sorted) == SetOf(init) + {last};
      KeysOfUnion(SetOf(init), last);
    }
  }

  lemma {:induction false} KeptCounts(backups: seq<Backup>, keep: set<string>)
    requires forall i, j :: 0 <= i < j < |backups| ==> backups[i].key != backups[j].key
    requires keep <= KeysOf(SetOf(backups))
    ensures KeptOf(backups, keep) == |keep|
  {
    if backups != [] {
      var (init, last) := (backups[..|backups| - 1], backups[|backups| - 1]);
      assert backups == init + [last];
      assert SetOf(backups) == SetOf(init) + {last};
      KeysOfUnion(SetOf(init), last);
      KeptCounts(init, keep - {last.key});
      SameKept(init, keep, last.key);
    } else {
      assert keep == {};
    }
  }

  lemma {:induction false} SameKept(backups: seq<Backup>, keep: set<string>, other: string)
    requires forall b :: b in backups ==> b.key != other
    ensures KeptOf(backups, keep) == KeptOf(backups, keep - {other})
  {
    if backups != [] {
      var (init, last) := (backups[..|backups| - 1], backups[|backups| - 1]);
      assert backups == init + [last];
      SameKept(init, keep, other);
      assert last in backups;
    }
  }

  // ----- the names of the objects -----

  /** `name[11:27]`, the text both loops hand to `strptime`. */
  function TimeSlice(name: string): string {
    name[Min(11, |name|)..Min(27, |name|)]
  }

  /** One way to read a text as `%Y%m%dT%H%M%S`: a year of four characters, every other field of one or two. */
  ghost predicate Fields(text: string, year: string, month: string, day: string,
                         hour: string, minute: string, second: string) {
    && text == year + month + day + "T" + hour + minute + second
    && |year| == 4 && 1 <= |month| <= 2 && 1 <= |day| <= 2 && 1 <= |hour| <= 2 && 1 <= |minute| <= 2
    && 1 <= |second| <= 2
  }

  /** What `strptime` needs, whatever it asks of the digits: the format consumes the whole text. */
  ghost predicate CanParse(text: string) {
    exists year, month, day, hour, minute, second :: Fields(text, year, month, day, hour, minute, second)
  }

  /** `_build_filename` on a time written as `%Y%m%dT%H%M%S`. */
  function FileName(stamp: string): string {
    "amg-portal-" + stamp + "Z.dump.age"
  }

  /** The slice of every name the script writes is a character longer than the format can consume. */
  lemma WrittenNameNotParsed(stamp: string)
    requires |stamp| == 15
    ensures TimeSlice(FileName(stamp)) == stamp + "Z" && !CanParse(TimeSlice(FileName(stamp)))
    ensures FileName(stamp)[..11] == "amg-portal-" && FileName(stamp)[27..] == ".dump.age"
  {
    var name := FileName(stamp);
    assert name == "amg-portal-" + (stamp + "Z" + ".dump.age");
    assert name[11..27] == stamp + "Z";
  }

  /** The listing `_prune` collects from the bucket's keys; `taken` gives the parsed times. */
  ghost function Listed(keys: seq<string>, taken: string -> nat): seq<Backup> {
    if keys == [] then []
    else
      var (rest, key) := (Listed(keys[..|keys| - 1], taken), keys[|keys| - 1]);
      if IsManifest(key) || !CanParse(TimeSlice(key)) then rest else rest + [Backup(key, taken(TimeSlice(key)))]
  }

  /** So from a bucket of the script's own backups and manifests nothing is collected, and nothing deleted. */
  lemma {:induction false} OwnBackupsNotListed(keys: seq<string>, taken: string -> nat)
    requires forall i :: 0 <= i < |keys| ==>
               IsManifest(keys[i]) || exists stamp: string :: |stamp| == 15 && keys[i] == FileName(stamp)
    ensures Listed(keys, taken) == []
  {
    if keys != [] {
      var key := keys[|keys| - 1];
      OwnBackupsNotListed(keys[..|keys| - 1], taken);
      if !IsManifest(key) {
        var stamp: string :| |stamp| == 15 && key == FileName(stamp);
        WrittenNameNotParsed(stamp);
      }
    }
  }

  lemma EmptyListingKeepsAll(before: set<string>, stuck: set<string>)
    ensures FirstFew(SortDescending([])) == {} && Deleted(SortDescending([]), {}, stuck) == 0
    ensures Remaining(before, SortDescending([]), {}, stuck) == before
  {
  }

  // ----- the cadences, by the calendar -----

  /** Sunday, 4 January 1970, as a day. */
  const A_SUNDAY := 719165

  /**
   * 1 January is yearly, any other first of a month monthly, any other Sunday weekly, and the rest daily; the
   * date is the one with that many days before it.
   */
  lemma CadenceIs(taken: nat)
    ensures var (day, date) := (taken / 86400, CivilDate(taken / 86400));
            && date.year > 0 && Readings.DayNumber(date.year, date.month, date.day) == day
            && (CadenceOf(taken) == Yearly <==> date.month == 1 && date.day == 1)
            && (CadenceOf(taken) == Monthly <==> date.month != 1 && date.day == 1)
            && (CadenceOf(taken) == Weekly <==> date.day != 1 && (day - A_SUNDAY) % 7 == 0)
            && (CadenceOf(taken) == Daily <==> date.day != 1 && (day - A_SUNDAY) % 7 != 0)
  {
    hide CivilDate, Readings.DayNumber;
    Readings.CivilDateIs(taken / 86400);
  }

  lemma SundayIs()
    ensures Readings.DayNumber(1970, 1, 4) == A_SUNDAY
  {
  }

  /** Never more than seven daily, four weekly, twelve monthly and seven yearly backups are kept. */
  lemma AtMostThirty(backups: set<Backup>)
    requires DistinctTimes(backups)
    ensures |OfCadence(Survivors(backups), Daily)| <= 7 && |OfCadence(Survivors(backups), Weekly)| <= 4
    ensures |OfCadence(Survivors(backups), Monthly)| <= 12 && |OfCadence(Survivors(backups), Yearly)| <= 7
    ensures |Survivors(backups)| <= 30
  {
    KeepsMostRecent(backups, Daily);
    KeepsMostRecent(backups, Weekly);
    KeepsMostRecent(backups, Monthly);
    KeepsMostRecent(backups, Yearly);
    hide Survivors;
    var kept := Survivors(backups);
    ByCadence(kept);
    hide *;
    UnionSize(OfCadence(kept, Daily), OfCadence(kept, Weekly));
    UnionSize(OfCadence(kept, Monthly), OfCadence(kept, Yearly));
    UnionSize(OfCadence(kept, Daily) + OfCadence(kept, Weekly), OfCadence(kept, Monthly) + OfCadence(kept, Yearly));
    QuotasAre();
  }

  lemma QuotasAre()
    ensures Quota(Daily) == 7 && Quota(Weekly) == 4 && Quota(Monthly) == 12 && Quota(Yearly) == 7
  {
  }

  lemma ByCadence(kept: set<Backup>)
    ensures kept
         == (OfCadence(kept, Daily) + OfCadence(kept, Weekly)) + (OfCadence(kept, Monthly) + OfCadence(kept, Yearly))
  {
    hide CadenceOf;
  }

  lemma UnionSize<T>(a: set<T>, b: set<T>)
    ensures |a + b| <= |a| + |b|
  {
    assert a + b == a + (b - a);
    SubsetSize(b - a, b);
  }
}
