/** The per-key sliding window of the API-key middleware, against the full history of granted requests. */
module RateLimiter {

  /** One call of the check: the key's hash, its limit a minute, and the clock in seconds. */
  datatype Request = Request(key: string, limit: int, time: real)

  /** The timestamps later than `start`. */
  function After(times: seq<real>, start: real): (r: seq<real>)
    ensures |r| <= |times|
    ensures forall t :: t in r ==> t > start && t in times
  {
    if times == [] then []
    else
      var (rest, last) := (After(times[..|times| - 1], start), times[|times| - 1]);
      if last > start then rest + [last] else rest
  }

  /** The timestamps in the minute that ends at `end`. */
  function Minute(times: seq<real>, end: real): (r: seq<real>)
    ensures forall t :: t in r ==> t <= end
  {
    if times == [] then []
    else
      var (rest, last) := (Minute(times[..|times| - 1], end), times[|times| - 1]);
      if end - 60.0 < last <= end then rest + [last] else rest
  }

  /** What the dictionary holds for a key: each call of the key drops what is a minute old and may add itself. */
  function Kept(past: seq<Request>, key: string): seq<real> {
    if past == [] then []
    else
      var (before, last) := (Kept(past[..|past| - 1], key), past[|past| - 1]);
      if last.key != key then before
      else
        var recent := After(before, last.time - 60.0);
        if |recent| < last.limit then recent + [last.time] else recent
  }

  /** The answer to a call. */
  predicate Grants(past: seq<Request>, r: Request) {
    |After(Kept(past, r.key), r.time - 60.0)| < r.limit
  }

  /** Every grant a key ever got, none forgotten. */
  function Granted(past: seq<Request>, key: string): seq<real> {
    if past == [] then []
    else
      var (init, last) := (past[..|past| - 1], past[|past| - 1]);
      if last.key == key && Grants(init, last) then Granted(init, key) + [last.time] else Granted(init, key)
  }

  /** The module dictionary of timestamps; `past` records the calls, for the contracts only. */
  class Limiter {
    var cache: map<string, seq<real>>
    ghost var past: seq<Request>

    ghost predicate Valid()
      reads this
    {
      forall k :: (if k in cache then cache[k] else []) == Kept(past, k)
    }

    constructor ()
      ensures Valid() && past == []
    {
      cache, past := map[], [];
    }

    /** `_check_rate_limit`, whatever the clock says. */
    method Check(key: string, limit: int, now: real) returns (ok: bool)
      requires Valid()
      modifies this
      ensures Valid() && past == old(past) + [Request(key, limit, now)]
      ensures ok == Grants(old(past), Request(key, limit, now))
    {
      hide Kept, After;
      ghost var r := Request(key, limit, now);
      KeptStep(past, r);
      past := past + [r];
      if key !in cache {
        cache := cache[key := []];
      }
      assert cache[key] == Kept(old(past), key);
      cache := cache[key := After(cache[key], now - 60.0)];
      if |cache[key]| >= limit {
        return false;
      }
      cache := cache[key := cache[key] + [now]];
      return true;
    }
  }

  lemma KeptStep(past: seq<Request>, r: Request)
    ensures forall k :: k != r.key ==> Kept(past + [r], k) == Kept(past, k)
    ensures var recent := After(Kept(past, r.key), r.time - 60.0);
            Kept(past + [r], r.key) == if |recent| < r.limit then recent + [r.time] else recent
  {
    assert (past + [r])[..|past|] == past;
  }

  lemma GrantedStep(past: seq<Request>, r: Request)
    ensures forall k :: Granted(past + [r], k)
                     == if r.key == k && Grants(past, r) then Granted(past, k) + [r.time] else Granted(past, k)
  {
    assert (past + [r])[..|past|] == past;
  }

  lemma AfterLast(init: seq<real>, last: real, start: real)
    ensures After(init + [last], start) == if last > start then After(init, start) + [last] else After(init, start)
  {
    assert (init + [last])[..|init|] == init;
  }

  lemma MinuteLast(init: seq<real>, last: real, end: real)
    ensures Minute(init + [last], end)
         == if end - 60.0 < last <= end then Minute(init, end) + [last] else Minute(init, end)
  {
    assert (init + [last])[..|init|] == init;
  }

  // ----- the grants that are left -----

  /** The j-th call was a grant of the key. */
  predicate IsGrant(past: seq<Request>, key: string, j: nat) {
    j < |past| && past[j].key == key && Grants(past[..j], past[j])
  }

  /** A later call of the key was at least a minute ahead of the j-th, and so dropped it. */
  ghost predicate Overtaken(past: seq<Request>, key: string, j: nat) {
    exists i :: j < i < |past| && past[i].key == key && past[i].time - 60.0 >= past[j].time
  }

  /** The grants among the first `n` calls that were not overtaken. */
  ghost function Left(past: seq<Request>, key: string, n: nat): seq<real>
    requires n <= |past|
  {
    if n == 0 then []
    else
      var rest := Left(past, key, n - 1);
      if IsGrant(past, key, n - 1) && !Overtaken(past, key, n - 1) then rest + [past[n - 1].time] else rest
  }

  /** The grants among the first `n` calls. */
  ghost function AllGrants(past: seq<Request>, key: string, n: nat): seq<real>
    requires n <= |past|
  {
    if n == 0 then []
    else
      var rest := AllGrants(past, key, n - 1);
      if IsGrant(past, key, n - 1) then rest + [past[n - 1].time] else rest
  }

  lemma SameGrant(init: seq<Request>, last: Request, key: string, j: nat)
    requires j < |init|
    ensures IsGrant(init + [last], key, j) <==> IsGrant(init, key, j)
  {
    assert (init + [last])[..j] == init[..j];
  }

  lemma OvertakenStep(init: seq<Request>, last: Request, key: string, j: nat)
    requires j < |init|
    ensures Overtaken(init + [last], key, j)
       <==> Overtaken(init, key, j) || (last.key == key && last.time - 60.0 >= init[j].time)
  {
    var past := init + [last];
    if i :| j < i < |init| && init[i].key == key && init[i].time - 60.0 >= init[j].time {
      assert past[i] == init[i];
    }
    if last.key == key && last.time - 60.0 >= init[j].time {
      assert past[|init|] == last;
    }
  }

  lemma {:induction false} LeftStep(init: seq<Request>, last: Request, key: string, n: nat)
    requires n <= |init|
    ensures Left(init + [last], key, n)
         == if last.key == key then After(Left(init, key, n), last.time - 60.0) else Left(init, key, n)
  {
    hide IsGrant, Overtaken, After;
    if n == 0 {
      assert After([], last.time - 60.0) == [] by { NothingAfter(last.time - 60.0); }
    } else {
      LeftStep(init, last, key, n - 1);
      SameGrant(init, last, key, n - 1);
      OvertakenStep(init, last, key, n - 1);
      AfterLast(Left(init, key, n - 1), init[n - 1].time, last.time - 60.0);
    }
  }

  lemma NothingAfter(start: real)
    ensures After([], start) == []
  {
  }

  lemma LastNotOvertaken(init: seq<Request>, last: Request, key: string)
    ensures !Overtaken(init + [last], key, |init|)
    ensures IsGrant(init + [last], key, |init|) <==> last.key == key && Grants(init, last)
  {
    assert (init + [last])[..|init|] == init;
  }

  /** The dictionary holds the grants that no later call of the key has overtaken. */
  lemma {:induction false} KeptIsLeft(past: seq<Request>, key: string)
    ensures Kept(past, key) == Left(past, key, |past|)
  {
    hide IsGrant, Overtaken, After, Kept;
    if past == [] {
      NothingKept(key);
    } else {
      var (init, last) := (past[..|past| - 1], past[|past| - 1]);
      assert past == init + [last];
      KeptIsLeft(init, key);
      LeftStep(init, last, key, |init|);
      LastNotOvertaken(init, last, key);
      KeptStep(init, last);
    }
  }

  lemma NothingKept(key: string)
    ensures Kept([], key) == []
  {
  }

  lemma {:induction false} SameGrants(init: seq<Request>, last: Request, key: string, n: nat)
    requires n <= |init|
    ensures AllGrants(init + [last], key, n) == AllGrants(init, key, n)
  {
    hide IsGrant;
    if n > 0 {
      SameGrants(init, last, key, n - 1);
      SameGrant(init, last, key, n - 1);
    }
  }

  lemma {:induction false} GrantedIsAll(past: seq<Request>, key: string)
    ensures Granted(past, key) == AllGrants(past, key, |past|)
  {
    hide IsGrant, Grants;
    if past != [] {
      var (init, last) := (past[..|past| - 1], past[|past| - 1]);
      assert past == init + [last];
      GrantedIsAll(init, key);
      SameGrants(init, last, key, |init|);
      LastNotOvertaken(init, last, key);
    }
  }

  // ----- when the pruned list is the last minute -----

  /** Of the key's grants later than a minute before `now`, this one is forgotten exactly if it lies after `now`. */
  ghost predicate FitsAt(past: seq<Request>, key: string, now: real, j: nat) {
    IsGrant(past, key, j) && past[j].time > now - 60.0 ==> (Overtaken(past, key, j) <==> past[j].time > now)
  }

  ghost predicate Fits(past: seq<Request>, key: string, now: real) {
    forall j: nat :: j < |past| ==> FitsAt(past, key, now, j)
  }

  /** A grant after `now` that is still counted. */
  ghost predicate Ahead(past: seq<Request>, key: string, now: real, j: nat) {
    IsGrant(past, key, j) && !Overtaken(past, key, j) && past[j].time > now
  }

  /** What the first `n` calls leave in the pruned list, and in the last minute of the history. */
  ghost function Counted(past: seq<Request>, key: string, now: real, n: nat): seq<real>
    requires n <= |past|
  {
    After(Left(past, key, n), now - 60.0)
  }

  ghost function Due(past: seq<Request>, key: string, now: real, n: nat): seq<real>
    requires n <= |past|
  {
    Minute(AllGrants(past, key, n), now)
  }

  lemma CountStep(past: seq<Request>, key: string, now: real, n: nat)
    requires 0 < n <= |past|
    ensures var t := past[n - 1].time;
            Counted(past, key, now, n)
            == if IsGrant(past, key, n - 1) && !Overtaken(past, key, n - 1) && t > now - 60.0
               then Counted(past, key, now, n - 1) + [t] else Counted(past, key, now, n - 1)
  {
    hide IsGrant, Overtaken, After;
    AfterLast(Left(past, key, n - 1), past[n - 1].time, now - 60.0);
  }

  lemma DueStep(past: seq<Request>, key: string, now: real, n: nat)
    requires 0 < n <= |past|
    ensures var t := past[n - 1].time;
            Due(past, key, now, n)
            == if IsGrant(past, key, n - 1) && now - 60.0 < t <= now
               then Due(past, key, now, n - 1) + [t] else Due(past, key, now, n - 1)
  {
    hide IsGrant, Minute;
    MinuteLast(AllGrants(past, key, n - 1), past[n - 1].time, now);
  }

  lemma NothingCounted(past: seq<Request>, key: string, now: real)
    ensures Counted(past, key, now, 0) == [] == Due(past, key, now, 0)
  {
  }

  lemma {:induction false} SameWhenFits(past: seq<Request>, key: string, now: real, n: nat)
    requires n <= |past| && forall j: nat :: j < n ==> FitsAt(past, key, now, j)
    ensures Counted(past, key, now, n) == Due(past, key, now, n)
  {
    hide IsGrant, Overtaken, Counted, Due;
    if n == 0 {
      NothingCounted(past, key, now);
    } else {
      SameWhenFits(past, key, now, n - 1);
      CountStep(past, key, now, n);
      DueStep(past, key, now, n);
      assert FitsAt(past, key, now, n - 1);
    }
  }

  /** With nothing counted that lies after now, every misfit is missing from the list. */
  lemma {:induction false} FewerWhenNot(past: seq<Request>, key: string, now: real, n: nat)
    requires n <= |past| && forall j: nat :: j < n ==> !Ahead(past, key, now, j)
    ensures |Counted(past, key, now, n)| <= |Due(past, key, now, n)|
    ensures (exists j: nat :: j < n && !FitsAt(past, key, now, j)) ==>
              |Counted(past, key, now, n)| < |Due(past, key, now, n)|
  {
    hide IsGrant, Overtaken, Counted, Due;
    if n == 0 {
      NothingCounted(past, key, now);
    } else {
      FewerWhenNot(past, key, now, n - 1);
      CountStep(past, key, now, n);
      DueStep(past, key, now, n);
      assert !Ahead(past, key, now, n - 1);
    }
  }

  lemma {:induction false} AheadIsCounted(past: seq<Request>, key: string, now: real, n: nat, j: nat)
    requires j < n <= |past| && Ahead(past, key, now, j)
    ensures past[j].time in Counted(past, key, now, n)
  {
    hide IsGrant, Overtaken, Counted;
    CountStep(past, key, now, n);
    if j < n - 1 {
      AheadIsCounted(past, key, now, n - 1, j);
    }
  }

  lemma CountedIsKept(past: seq<Request>, key: string, now: real)
    ensures Counted(past, key, now, |past|) == After(Kept(past, key), now - 60.0)
    ensures Due(past, key, now, |past|) == Minute(Granted(past, key), now)
  {
    KeptIsLeft(past, key);
    GrantedIsAll(past, key);
  }

  /**
   * Whatever the clock did, the pruned list is the last minute of the full history exactly if no grant of
   * that minute was overtaken by a call a minute or more ahead of it, and every grant after now was.
   */
  lemma ListIsMinute(past: seq<Request>, key: string, now: real)
    ensures After(Kept(past, key), now - 60.0) == Minute(Granted(past, key), now) <==> Fits(past, key, now)
  {
    CountedIsKept(past, key, now);
    hide IsGrant, Overtaken, After, Minute, FitsAt, Kept, Granted, Counted, Due, Ahead;
    if Fits(past, key, now) {
      SameWhenFits(past, key, now, |past|);
    } else if j: nat :| j < |past| && Ahead(past, key, now, j) {
      AheadIsCounted(past, key, now, |past|, j);
      AheadIsLater(past, key, now, j);
      assert past[j].time !in Minute(Granted(past, key), now);
    } else {
      FewerWhenNot(past, key, now, |past|);
    }
  }

  lemma AheadIsLater(past: seq<Request>, key: string, now: real, j: nat)
    requires Ahead(past, key, now, j)
    ensures j < |past| && past[j].time > now
  {
  }

  /** Where no grant after now is counted, an overtaken grant of the last minute makes the limiter count too few. */
  lemma CountsTooFew(past: seq<Request>, key: string, now: real)
    requires forall j: nat :: j < |past| ==> !Ahead(past, key, now, j)
    ensures |After(Kept(past, key), now - 60.0)| < |Minute(Granted(past, key), now)| <==> !Fits(past, key, now)
  {
    CountedIsKept(past, key, now);
    hide IsGrant, Overtaken, After, Minute, FitsAt, Kept, Granted, Counted, Due, Ahead;
    ListIsMinute(past, key, now);
    FewerWhenNot(past, key, now, |past|);
  }

  // ----- a clock that does not go back -----

  ghost predicate ClockForward(past: seq<Request>) {
    forall i, j :: 0 <= i < j < |past| ==> past[i].time <= past[j].time
  }

  lemma ForwardFits(past: seq<Request>, r: Request)
    requires ClockForward(past + [r])
    ensures Fits(past, r.key, r.time)
  {
    hide IsGrant;
    var all := past + [r];
    forall j: nat | j < |past| ensures FitsAt(past, r.key, r.time, j) {
      assert all[j] == past[j] && all[|past|] == r;
      forall i | j < i < |past| ensures past[i].time <= r.time {
        assert all[i] == past[i];
      }
    }
  }

  /** With such a clock the pruned list decides as the full history does. */
  lemma DecidesAsHistory(past: seq<Request>, r: Request)
    requires ClockForward(past + [r])
    ensures Grants(past, r) <==> |Minute(Granted(past, r.key), r.time)| < r.limit
  {
    hide Kept, Granted, After, Minute, Fits;
    ForwardFits(past, r);
    ListIsMinute(past, r.key, r.time);
  }

  lemma {:induction false} GrantedInPast(past: seq<Request>, key: string, t: real) returns (i: nat)
    requires t in Granted(past, key)
    ensures i < |past| && past[i].time == t
  {
    hide Grants;
    var init := past[..|past| - 1];
    if t in Granted(init, key) {
      i := GrantedInPast(init, key, t);
    } else {
      i := |init|;
    }
  }

  lemma GrantedNotLater(past: seq<Request>, r: Request)
    requires ClockForward(past + [r])
    ensures forall t :: t in Granted(past, r.key) ==> t <= r.time
  {
    forall t | t in Granted(past, r.key) ensures t <= r.time {
      var i := GrantedInPast(past, r.key, t);
      assert (past + [r])[i] == past[i] && (past + [r])[|past|] == r;
    }
  }

  lemma {:induction false} MinuteWithin(times: seq<real>, end: real, now: real)
    requires now <= end && (forall t :: t in times ==> t <= now)
    ensures |Minute(times, end)| <= |Minute(times, now)|
  {
    if times != [] {
      var (init, last) := (times[..|times| - 1], times[|times| - 1]);
      assert last in times;
      forall t | t in init ensures t <= now { assert t in times; }
      MinuteWithin(init, end, now);
    }
  }

  /** Every minute of a run, wherever it ends, holds at most `limit` grants of a key. */
  lemma {:induction false} EveryMinuteBounded(past: seq<Request>, key: string, limit: nat, end: real)
    requires ClockForward(past) && (forall r :: r in past && r.key == key ==> r.limit <= limit)
    ensures |Minute(Granted(past, key), end)| <= limit
  {
    hide Grants, Granted;
    if past == [] {
      assert Granted(past, key) == [] by { NothingGranted(key); }
    } else {
      var (init, last) := (past[..|past| - 1], past[|past| - 1]);
      assert past == init + [last];
      forall r | r in init && r.key == key ensures r.limit <= limit { assert r in past; }
      EveryMinuteBounded(init, key, limit, end);
      GrantedStep(init, last);
      if last.key == key && Grants(init, last) {
        DecidesAsHistory(init, last);
        MinuteLast(Granted(init, key), last.time, end);
        GrantedNotLater(init, last);
        assert last in past;
        if last.time <= end {
          MinuteWithin(Granted(init, key), end, last.time);
        }
      }
    }
  }

  lemma NothingGranted(key: string)
    ensures Granted([], key) == []
  {
  }

  /** A request is refused exactly when the minute up to it is full. */
  lemma RefusedOnlyWhenFull(past: seq<Request>, r: Request)
    requires ClockForward(past + [r]) && (forall x :: x in past + [r] && x.key == r.key ==> x.limit == r.limit)
    requires r.limit >= 0
    ensures !Grants(past, r) <==> |Minute(Granted(past, r.key), r.time)| == r.limit
  {
    hide Granted, Minute, Grants;
    assert ClockForward(past) by {
      forall i, j | 0 <= i < j < |past| ensures past[i].time <= past[j].time {
        assert (past + [r])[i] == past[i] && (past + [r])[j] == past[j];
      }
    }
    forall x | x in past && x.key == r.key ensures x.limit <= r.limit {
      assert x in past + [r];
    }
    EveryMinuteBounded(past, r.key, r.limit, r.time);
    DecidesAsHistory(past, r);
  }

  // ----- a clock set back -----

  function Call(limit: int, time: real): Request {
    Request("k", limit, time)
  }

  lemma KeptTwo(p: Request, q: Request)
    requires p.key == q.key && p.time - 60.0 < q.time - 60.0 < p.time && p.limit > 0 && q.limit > 1
    ensures Kept([p, q], p.key) == [p.time, q.time] == Granted([p, q], p.key)
  {
    assert [] + [p] == [p] && [p] + [q] == [p, q];
    KeptStep([], p);
    GrantedStep([], p);
    KeptStep([p], q);
    GrantedStep([p], q);
    AfterLast([], p.time, q.time - 60.0);
    assert [] + [p.time] == [p.time] && [p.time] + [q.time] == [p.time, q.time];
  }

  /** An input: two grants in the minute up to 10 are overtaken at 100, and a third is granted at 10. */
  lemma ClockSetBack(past: seq<Request>, r: Request)
    requires past == [Call(2, 0.0), Call(2, 5.0), Call(2, 100.0)] && r == Call(2, 10.0)
    ensures !Fits(past, "k", r.time)
    ensures Grants(past, r) && |Minute(Granted(past, "k"), r.time)| == r.limit
  {
    var (a, b, c) := (past[0], past[1], past[2]);
    KeptTwo(a, b);
    assert past == [a, b] + [c];
    KeptStep([a, b], c);
    GrantedStep([a, b], c);
    DropTwo(0.0, 5.0, 40.0);
    AfterLast([], 100.0, -50.0);
    MinuteTwo(0.0, 5.0, 10.0);
    MinuteLast([0.0, 5.0], 100.0, 10.0);
    hide Kept, Granted, After, Minute;
    assert [] + [100.0] == [100.0] && [0.0, 5.0] + [100.0] == [0.0, 5.0, 100.0];
    assert Kept(past, "k") == [100.0] && Granted(past, "k") == [0.0, 5.0, 100.0];
    assert After([100.0], -50.0) == [100.0] by { NothingAfter(-50.0); }
    ListIsMinute(past, "k", r.time);
  }

  lemma DropTwo(x: real, y: real, start: real)
    requires x < y < start
    ensures After([x, y], start) == []
  {
    assert [] + [x] == [x] && [x] + [y] == [x, y];
    AfterLast([], x, start);
    AfterLast([x], y, start);
  }

  lemma MinuteTwo(x: real, y: real, end: real)
    requires end - 60.0 < x < y <= end
    ensures Minute([x, y], end) == [x, y]
  {
    assert [] + [x] == [x] && [x] + [y] == [x, y];
    MinuteLast([], x, end);
    MinuteLast([x], y, end);
  }

  /**
   * Neither the most recent call nor the one furthest ahead decides alone. In the first run the last call, at
   * 50, has overtaken nothing of the minute up to 10, yet a grant of it is forgotten; in the second the call at
   * 100 came before the grant at 10, which is still counted at 20.
   */
  lemma LatestCallDoesNotDecide()
    ensures var past := [Call(1, 0.0), Call(0, 100.0), Call(0, 50.0)];
            After(Kept(past, "k"), 10.0 - 60.0) == [] && Minute(Granted(past, "k"), 10.0) == [0.0]
    ensures var past := [Call(0, 100.0), Call(1, 10.0)];
            After(Kept(past, "k"), 20.0 - 60.0) == [10.0] == Minute(Granted(past, "k"), 20.0)
  {
    ForgottenBefore();
    CountedAfter();
  }

  lemma ForgottenBefore()
    ensures var past := [Call(1, 0.0), Call(0, 100.0), Call(0, 50.0)];
            After(Kept(past, "k"), 10.0 - 60.0) == [] && Minute(Granted(past, "k"), 10.0) == [0.0]
  {
    var (a, b, c) := (Call(1, 0.0), Call(0, 100.0), Call(0, 50.0));
    assert [] + [a] == [a] && [a] + [b] == [a, b] && [a, b] + [c] == [a, b, c] && [] + [0.0] == [0.0];
    NothingKept("k");
    NothingGranted("k");
    KeptStep([], a);
    GrantedStep([], a);
    KeptStep([a], b);
    GrantedStep([a], b);
    KeptStep([a, b], c);
    GrantedStep([a, b], c);
    AfterLast([], 0.0, 40.0);
    MinuteLast([], 0.0, 10.0);
    hide Kept, Granted;
    NothingAfter(-60.0);
    NothingAfter(40.0);
    NothingAfter(-10.0);
    NothingAfter(-50.0);
  }

  lemma CountedAfter()
    ensures var past := [Call(0, 100.0), Call(1, 10.0)];
            After(Kept(past, "k"), 20.0 - 60.0) == [10.0] == Minute(Granted(past, "k"), 20.0)
  {
    var (a, b) := (Call(0, 100.0), Call(1, 10.0));
    assert [] + [a] == [a] && [a] + [b] == [a, b] && [] + [10.0] == [10.0];
    NothingKept("k");
    NothingGranted("k");
    KeptStep([], a);
    GrantedStep([], a);
    KeptStep([a], b);
    GrantedStep([a], b);
    AfterLast([], 10.0, -40.0);
    MinuteLast([], 10.0, 20.0);
    hide Kept, Granted;
    NothingAfter(40.0);
    NothingAfter(-50.0);
    NothingAfter(-40.0);
  }
}
