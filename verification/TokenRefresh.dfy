/**
 * The 401 interceptor of the mobile client: one token refresh at a time, and a queue of the requests that
 * wait for it. Between two awaits the code runs undisturbed, so each stretch between awaits is one step.
 */
module TokenRefresh {
  import opened Common

  /** Where a request stands. */
  datatype Phase =
    | NotSent
    | Sending                // in flight
    | Waiting(ticket: nat)   // its 401 came during a refresh; awaits the promise with that ticket
    | Resuming               // that promise was resolved; about to be sent again
    | ReadingToken           // started a refresh; reads the refresh token
    | Posting                // the refresh call is in flight
    | StoringAccess          // stores the new access token
    | StoringRefresh         // stores the new refresh token
    | LoggingOut             // its refresh failed
    | Done(ok: bool)

  /** A promise handed to a waiter: who waits, for which refresh, and how it was settled, call by call. */
  datatype Promise = Promise(request: nat, refresh: nat, settlements: seq<bool>)

  datatype Answer = Success | Unauthorized | OtherError

  /** What reading the refresh token from the secure store gives; the read is outside the `try`. */
  datatype Lookup = Found | Missing | Raised

  datatype Action =
    | Send(r: nat)
    | Respond(r: nat, answer: Answer)
    | TokenRead(r: nat, lookup: Lookup)
    | RefreshAnswer(r: nat, ok: bool)
    | Stored(r: nat, ok: bool)
    | Resume(r: nat)
    | LoggedOut(r: nat)

  /**
   * The module variables, the requests, and a history: the outcome of every refresh begun so far (None while
   * it runs), the refresh calls and the requests sent, and whether a refresh was ever left without an end.
   */
  datatype State = State(
    isRefreshing: bool,
    failedQueue: seq<nat>,
    promises: seq<Promise>,
    phase: seq<Phase>,
    retry: seq<bool>,
    outcomes: seq<Option<bool>>,
    posts: nat,
    sends: nat,
    abandoned: bool)

  predicate Refreshing(p: Phase) {
    p.ReadingToken? || p.Posting? || p.StoringAccess? || p.StoringRefresh?
  }

  /** Requests to the refresh endpoint itself are never retried. */
  type Urls = seq<bool>

  predicate Shaped(s: State, urls: Urls) {
    |s.phase| == |s.retry| == |urls| && (s.isRefreshing ==> s.outcomes != [])
  }

  predicate Enabled(s: State, a: Action) {
    a.r < |s.phase| &&
    var p := s.phase[a.r];
    match a
    case Send(_) => p == NotSent
    case Respond(_, _) => p == Sending
    case TokenRead(_, _) => p == ReadingToken
    case RefreshAnswer(_, _) => p == Posting
    case Stored(_, _) => p == StoringAccess || p == StoringRefresh
    case Resume(_) => p == Resuming
    case LoggedOut(_) => p == LoggingOut
  }

  function Settle(p: Promise, ok: bool): Promise {
    p.(settlements := p.settlements + [ok])
  }

  /** The phase of a request once the promises in the queue are settled. */
  function Released(p: Phase, queue: seq<nat>, ok: bool): Phase {
    if p.Waiting? && p.ticket in queue then (if ok then Resuming else Done(false)) else p
  }

  /** The promises with some tickets are settled. */
  function SettledBy(s: State, tickets: seq<nat>, ok: bool): (d: State)
    ensures |d.phase| == |s.phase|
  {
    s.(promises := seq(|s.promises|, t requires 0 <= t < |s.promises| =>
                         if t in tickets then Settle(s.promises[t], ok) else s.promises[t]),
       phase := seq(|s.phase|, r requires 0 <= r < |s.phase| => Released(s.phase[r], tickets, ok)))
  }

  /** `processQueue`: every promise in the queue is settled, and the queue is empty. */
  function Drained(s: State, ok: bool): (d: State)
    ensures |d.phase| == |s.phase|
  {
    SettledBy(s, s.failedQueue, ok).(failedQueue := [])
  }

  function WithLast(outcomes: seq<Option<bool>>, ok: bool): seq<Option<bool>> {
    if outcomes == [] then [] else outcomes[..|outcomes| - 1] + [Some(ok)]
  }

  /** The end of a refresh: the queue is settled, then the flag is cleared; the owner goes on to `p`. */
  function Ended(s: State, r: nat, ok: bool, p: Phase): State
    requires r < |s.phase|
  {
    var d := Drained(s, ok);
    d.(isRefreshing := false, phase := d.phase[r := p], outcomes := WithLast(s.outcomes, ok))
  }

  function Failed(s: State, r: nat): State
    requires r < |s.phase|
  {
    Ended(s, r, false, LoggingOut)
  }

  /** The response interceptor up to its first await. */
  function OnAnswer(s: State, urls: Urls, r: nat, answer: Answer): State
    requires Shaped(s, urls) && r < |s.phase|
  {
    match answer
    case Success => s.(phase := s.phase[r := Done(true)])
    case OtherError => s.(phase := s.phase[r := Done(false)])
    case Unauthorized =>
      if s.retry[r] || urls[r] then s.(phase := s.phase[r := Done(false)])
      else if s.isRefreshing then
        var ticket := |s.promises|;
        s.(failedQueue := s.failedQueue + [ticket],
           promises := s.promises + [Promise(r, |s.outcomes| - 1, [])],
           phase := s.phase[r := Waiting(ticket)])
      else
        s.(isRefreshing := true, retry := s.retry[r := true], phase := s.phase[r := ReadingToken],
           outcomes := s.outcomes + [None])
  }

  function Next(s: State, urls: Urls, a: Action): State
    requires Shaped(s, urls) && Enabled(s, a)
  {
    var r := a.r;
    match a
    case Send(_) => s.(phase := s.phase[r := Sending], sends := s.sends + 1)
    case Respond(_, answer) => OnAnswer(s, urls, r, answer)
    case TokenRead(_, Found) => s.(phase := s.phase[r := Posting], posts := s.posts + 1)
    case TokenRead(_, lookup) =>
      s.(phase := s.phase[r := if lookup.Missing? then LoggingOut else Done(false)], abandoned := true)
    case RefreshAnswer(_, ok) =>
      if ok then s.(phase := s.phase[r := StoringAccess]) else Failed(s, r)
    case Stored(_, ok) =>
      if !ok then Failed(s, r)
      else if s.phase[r].StoringAccess? then s.(phase := s.phase[r := StoringRefresh])
      else Ended(s, r, true, Sending).(sends := s.sends + 1)
    case Resume(_) => s.(phase := s.phase[r := Sending], sends := s.sends + 1)
    case LoggedOut(_) => s.(phase := s.phase[r := Done(false)])
  }

  // ----- the invariant -----

  /** A refresh in progress has one owner, unless it was abandoned because its refresh token could not be read. */
  ghost predicate OneFlight(s: State)
    requires |s.phase| == |s.retry|
  {
    && (forall q, r :: 0 <= q < |s.phase| && 0 <= r < |s.phase| && Refreshing(s.phase[q]) && Refreshing(s.phase[r])
          ==> q == r)
    && (forall r :: 0 <= r < |s.phase| && Refreshing(s.phase[r]) ==> s.isRefreshing && !s.abandoned)
    && (s.isRefreshing ==> s.abandoned || exists r :: 0 <= r < |s.phase| && Refreshing(s.phase[r]))
    && (s.abandoned ==> s.isRefreshing)
  }

  /** Only the last refresh can be running, and it runs exactly while the flag is set. */
  ghost predicate OutcomesInOrder(s: State) {
    && (forall e :: 0 <= e < |s.outcomes| - 1 ==> s.outcomes[e].Some?)
    && (s.isRefreshing <==> s.outcomes != [] && s.outcomes[|s.outcomes| - 1] == None)
  }

  /** A promise has been settled once if its refresh is over, with the outcome of that refresh, else not at all. */
  ghost predicate PromiseKept(s: State, t: nat)
    requires t < |s.promises|
  {
    var p := s.promises[t];
    && p.request < |s.phase| && p.refresh < |s.outcomes|
    && (match s.outcomes[p.refresh]
        case None => t in s.failedQueue && p.settlements == [] && s.phase[p.request] == Waiting(t)
        case Some(ok) => t !in s.failedQueue && p.settlements == [ok])
  }

  /** The queue holds each ticket once, and a request waits only on a ticket of its own in the queue. */
  ghost predicate QueueExact(s: State) {
    && (forall t :: t in s.failedQueue ==> t < |s.promises|)
    && Distinct(s.failedQueue)
    && (forall r :: 0 <= r < |s.phase| && s.phase[r].Waiting? ==>
          s.phase[r].ticket in s.failedQueue && s.promises[s.phase[r].ticket].request == r)
  }

  ghost predicate Invariant(s: State, urls: Urls) {
    && |s.phase| == |s.retry| == |urls|
    && OneFlight(s) && OutcomesInOrder(s) && QueueExact(s)
    && (forall t :: 0 <= t < |s.promises| ==> PromiseKept(s, t))
  }

  lemma InvariantIsShaped(s: State, urls: Urls)
    requires Invariant(s, urls)
    ensures Shaped(s, urls) && OneFlight(s)
  {
  }

  /** While a refresh runs the queue holds its tickets; when none runs the queue is empty. */
  lemma QueueNeedsRefresh(s: State, urls: Urls)
    requires Invariant(s, urls)
    ensures s.failedQueue != [] ==> s.isRefreshing
    ensures forall t :: t in s.failedQueue ==> s.promises[t].refresh == |s.outcomes| - 1
  {
    forall t | t in s.failedQueue ensures s.isRefreshing && s.promises[t].refresh == |s.outcomes| - 1 {
      assert PromiseKept(s, t);
    }
    assert s.failedQueue != [] ==> s.failedQueue[0] in s.failedQueue;
  }

  /** Moving one request between phases that neither refresh nor wait disturbs nothing. */
  lemma PlainMove(s: State, s': State, urls: Urls, r: nat, p: Phase)
    requires Invariant(s, urls) && r < |s.phase|
    requires !s.phase[r].Waiting? && !p.Waiting? && Refreshing(s.phase[r]) == Refreshing(p)
    requires s' == s.(phase := s.phase[r := p], posts := s'.posts, sends := s'.sends)
    ensures Invariant(s', urls)
  {
    forall t | 0 <= t < |s'.promises| ensures PromiseKept(s', t) {
      assert PromiseKept(s, t);
    }
    assert forall q :: 0 <= q < |s.phase| ==> Refreshing(s'.phase[q]) == Refreshing(s.phase[q]);
  }

  lemma JoinQueue(s: State, urls: Urls, r: nat)
    requires Invariant(s, urls) && r < |s.phase| && s.phase[r] == Sending
    requires s.isRefreshing && !s.retry[r] && !urls[r]
    ensures Shaped(s, urls) && Invariant(OnAnswer(s, urls, r, Unauthorized), urls)
  {
    var s' := OnAnswer(s, urls, r, Unauthorized);
    forall t | 0 <= t < |s'.promises| ensures PromiseKept(s', t) {
      if t < |s.promises| {
        assert PromiseKept(s, t);
      }
    }
    assert forall i :: 0 <= i < |s.failedQueue| ==> s.failedQueue[i] in s.failedQueue;
    assert forall q :: 0 <= q < |s.phase| ==> Refreshing(s'.phase[q]) == Refreshing(s.phase[q]);
  }

  lemma StartRefresh(s: State, urls: Urls, r: nat)
    requires Invariant(s, urls) && r < |s.phase| && s.phase[r] == Sending
    requires !s.isRefreshing && !s.retry[r] && !urls[r]
    ensures Shaped(s, urls) && Invariant(OnAnswer(s, urls, r, Unauthorized), urls)
  {
    var s' := OnAnswer(s, urls, r, Unauthorized);
    forall t | 0 <= t < |s'.promises| ensures PromiseKept(s', t) {
      assert PromiseKept(s, t);
    }
    assert Refreshing(s'.phase[r]);
  }

  lemma AbandonRefresh(s: State, urls: Urls, r: nat, p: Phase)
    requires Invariant(s, urls) && r < |s.phase| && s.phase[r] == ReadingToken
    requires !Refreshing(p) && !p.Waiting?
    ensures Invariant(s.(phase := s.phase[r := p], abandoned := true), urls)
  {
    var s' := s.(phase := s.phase[r := p], abandoned := true);
    assert Refreshing(s.phase[r]);
    forall t | 0 <= t < |s'.promises| ensures PromiseKept(s', t) {
      assert PromiseKept(s, t);
    }
  }

  /** At the end of a refresh every waiter is settled, once and with its outcome. */
  lemma EndRefresh(s: State, urls: Urls, r: nat, ok: bool, p: Phase)
    requires Invariant(s, urls) && r < |s.phase| && Refreshing(s.phase[r])
    requires !Refreshing(p) && !p.Waiting?
    ensures Invariant(Ended(s, r, ok, p), urls)
  {
    var s' := Ended(s, r, ok, p);
    forall t | 0 <= t < |s'.promises| ensures PromiseKept(s', t) {
      assert PromiseKept(s, t);
    }
    forall q | 0 <= q < |s'.phase| ensures !Refreshing(s'.phase[q]) && !s'.phase[q].Waiting? {
      assert q != r ==> s'.phase[q] == Released(s.phase[q], s.failedQueue, ok);
    }
  }

  lemma NextKeepsInvariant(s: State, urls: Urls, a: Action)
    requires Invariant(s, urls) && Enabled(s, a)
    ensures Shaped(s, urls) && Invariant(Next(s, urls, a), urls)
  {
    hide Invariant, Drained;
    InvariantIsShaped(s, urls);
    var (r, s') := (a.r, Next(s, urls, a));
    match a
    case Respond(_, answer) =>
      if answer.Unauthorized? && !s.retry[r] && !urls[r] {
        if s.isRefreshing {
          JoinQueue(s, urls, r);
        } else {
          StartRefresh(s, urls, r);
        }
      } else {
        PlainMove(s, s', urls, r, s'.phase[r]);
      }
    case TokenRead(_, lookup) =>
      if lookup.Found? {
        PlainMove(s, s', urls, r, Posting);
      } else {
        AbandonRefresh(s, urls, r, s'.phase[r]);
      }
    case RefreshAnswer(_, ok) =>
      if ok {
        PlainMove(s, s', urls, r, StoringAccess);
      } else {
        EndRefresh(s, urls, r, false, LoggingOut);
      }
    case Stored(_, ok) =>
      if !ok {
        EndRefresh(s, urls, r, false, LoggingOut);
      } else if s.phase[r].StoringAccess? {
        PlainMove(s, s', urls, r, StoringRefresh);
      } else {
        EndRefresh(s, urls, r, true, Sending);
        var e := Ended(s, r, true, Sending);
        PlainMove(e, s', urls, r, Sending);
      }
    case _ => PlainMove(s, s', urls, r, s'.phase[r]);
  }

  // ----- counting -----

  function Marked(retry: seq<bool>): (n: nat)
    ensures n <= |retry|
  {
    if retry == [] then 0 else Marked(retry[..|retry| - 1]) + if retry[|retry| - 1] then 1 else 0
  }

  lemma {:induction false} MarkedUpdate(retry: seq<bool>, r: nat, b: bool)
    requires r < |retry|
    ensures Marked(retry[r := b]) == Marked(retry) - (if retry[r] then 1 else 0) + (if b then 1 else 0)
  {
    var n := |retry| - 1;
    if r < n {
      MarkedUpdate(retry[..n], r, b);
      assert retry[r := b][..n] == retry[..n][r := b];
    } else {
      assert retry[r := b][..n] == retry[..n];
    }
  }

  /** A weight that falls with every step of a request between the start and the end of a refresh. */
  function Weight(p: Phase): (w: nat)
    ensures w <= 9
  {
    match p
    case NotSent => 9
    case Resuming => 8
    case Sending => 7
    case ReadingToken => 6
    case Posting => 5
    case StoringAccess => 4
    case StoringRefresh => 3
    case LoggingOut => 1
    case Waiting(_) => 1
    case Done(_) => 0
  }

  /** Whether a request is yet to be sent, for the first time or again. */
  function Unsent(p: Phase): nat {
    if p.NotSent? || p.Resuming? then 1 else 0
  }

  function Total(measure: Phase -> nat, phase: seq<Phase>): nat {
    if phase == [] then 0 else Total(measure, phase[..|phase| - 1]) + measure(phase[|phase| - 1])
  }

  lemma {:induction false} TotalUpdate(measure: Phase -> nat, phase: seq<Phase>, r: nat, p: Phase)
    requires r < |phase|
    ensures Total(measure, phase[r := p]) == Total(measure, phase) - measure(phase[r]) + measure(p)
  {
    var n := |phase| - 1;
    if r < n {
      TotalUpdate(measure, phase[..n], r, p);
      assert phase[r := p][..n] == phase[..n][r := p];
    } else {
      assert phase[r := p][..n] == phase[..n];
    }
  }

  lemma {:induction false} TotalBound(measure: Phase -> nat, phase: seq<Phase>, bound: nat)
    requires forall p :: measure(p) <= bound
    ensures Total(measure, phase) <= bound * |phase|
  {
    if phase != [] {
      TotalBound(measure, phase[..|phase| - 1], bound);
      assert bound * |phase| == bound * (|phase| - 1) + bound;
    }
  }

  /** Refreshes that are over. */
  function Finished(s: State): int {
    |s.outcomes| - if s.isRefreshing then 1 else 0
  }

  /** Every refresh marked a request of its own; each request is sent at most once, plus once a refresh. */
  ghost predicate Bounded(s: State) {
    var n := |s.phase|;
    && Marked(s.retry) == |s.outcomes|
    && s.posts <= |s.outcomes|
    && ((exists r :: 0 <= r < n && s.phase[r].ReadingToken?) ==> s.posts < |s.outcomes|)
    && s.sends + Total(Unsent, s.phase) <= n + n * Finished(s)
  }

  /** All phases but one can be unsent. */
  lemma SomeSent(phase: seq<Phase>, r: nat)
    requires r < |phase| && Unsent(phase[r]) == 0
    ensures Total(Unsent, phase) < |phase|
  {
    TotalUpdate(Unsent, phase, r, NotSent);
    TotalBound(Unsent, phase[r := NotSent], 1);
  }

  lemma EndIsBounded(s: State, urls: Urls, r: nat, ok: bool, p: Phase)
    requires Invariant(s, urls) && Bounded(s) && r < |s.phase| && Refreshing(s.phase[r])
    requires !Refreshing(p) && Unsent(p) == 0
    ensures var s' := Ended(s, r, ok, p); Bounded(s'.(sends := s.sends + if ok then 1 else 0))
  {
    hide QueueExact, PromiseKept, Total, Marked;
    var (s', n) := (Ended(s, r, ok, p), |s.phase|);
    SomeSent(s'.phase, r);
    assert Finished(s') == Finished(s) + 1;
    assert n * (Finished(s) + 1) == n * Finished(s) + n;
    forall q | 0 <= q < n ensures !s'.phase[q].ReadingToken? {
      assert q != r ==> s'.phase[q] == Released(s.phase[q], s.failedQueue, ok);
    }
  }

  /** A step that neither starts nor ends a refresh; `sent` and `posted` are what it sends. */
  lemma MoveIsBounded(s: State, s': State, r: nat, p: Phase, posted: nat)
    requires |s.phase| == |s.retry| && OneFlight(s) && Bounded(s) && r < |s.phase|
    requires s'.phase == s.phase[r := p] && s'.retry == s.retry && s'.outcomes == s.outcomes
    requires s'.isRefreshing == s.isRefreshing && s'.posts == s.posts + posted && !p.ReadingToken?
    requires s'.sends + Unsent(p) <= s.sends + Unsent(s.phase[r])
    requires posted == 0 || (posted == 1 && s.phase[r].ReadingToken?)
    ensures Bounded(s')
  {
    TotalUpdate(Unsent, s.phase, r, p);
    hide Total, Marked;
    if posted == 1 {
      assert Refreshing(s.phase[r]);
      forall q | 0 <= q < |s.phase| ensures !s'.phase[q].ReadingToken? {
        assert Refreshing(s.phase[q]) ==> q == r;
      }
    }
  }

  lemma StartIsBounded(s: State, urls: Urls, r: nat)
    requires Shaped(s, urls) && Bounded(s) && Enabled(s, Respond(r, Unauthorized))
    requires !s.retry[r] && !urls[r] && !s.isRefreshing
    ensures Bounded(OnAnswer(s, urls, r, Unauthorized))
  {
    MarkedUpdate(s.retry, r, true);
    TotalUpdate(Unsent, s.phase, r, ReadingToken);
    hide Total, Marked;
  }

  lemma StoredIsBounded(s: State, urls: Urls, r: nat, ok: bool)
    requires Invariant(s, urls) && Bounded(s) && Enabled(s, Stored(r, ok))
    ensures Shaped(s, urls) && Bounded(Next(s, urls, Stored(r, ok)))
  {
    InvariantIsShaped(s, urls);
    hide Invariant, Bounded, OneFlight;
    if !ok {
      EndIsBounded(s, urls, r, false, LoggingOut);
    } else if s.phase[r].StoringRefresh? {
      EndIsBounded(s, urls, r, true, Sending);
    } else {
      MoveIsBounded(s, Next(s, urls, Stored(r, ok)), r, StoringRefresh, 0);
    }
  }

  lemma NextIsBounded(s: State, urls: Urls, a: Action)
    requires Invariant(s, urls) && Bounded(s) && Enabled(s, a)
    ensures Shaped(s, urls) && Bounded(Next(s, urls, a))
  {
    InvariantIsShaped(s, urls);
    hide Invariant, Ended, Bounded, Total, Marked, OneFlight;
    var (r, s') := (a.r, Next(s, urls, a));
    match a
    case Respond(_, Unauthorized) =>
      if !s.retry[r] && !urls[r] && !s.isRefreshing {
        StartIsBounded(s, urls, r);
      } else {
        MoveIsBounded(s, s', r, s'.phase[r], 0);
      }
    case RefreshAnswer(_, false) => EndIsBounded(s, urls, r, false, LoggingOut);
    case Stored(_, ok) => StoredIsBounded(s, urls, r, ok);
    case TokenRead(_, Found) => MoveIsBounded(s, s', r, Posting, 1);
    case _ => MoveIsBounded(s, s', r, s'.phase[r], 0);
  }

  // ----- termination -----

  /** How many more times a refresh can start or end. */
  function Turns(s: State): int {
    2 * (|s.phase| - |s.outcomes|) + if s.isRefreshing then 1 else 0
  }

  function Measure(s: State): int {
    Turns(s) * (9 * |s.phase| + 1) + Total(Weight, s.phase)
  }

  lemma TurnTaken(s: State, s': State)
    requires |s'.phase| == |s.phase| && Turns(s') == Turns(s) - 1
    ensures Measure(s') < Measure(s)
  {
    TotalBound(Weight, s'.phase, 9);
    var n := 9 * |s.phase| + 1;
    assert Turns(s) * n == Turns(s') * n + n;
  }

  lemma PhaseAdvanced(s: State, s': State, r: nat)
    requires r < |s.phase| == |s'.phase| && s'.phase == s.phase[r := s'.phase[r]] && Turns(s') == Turns(s)
    requires Weight(s'.phase[r]) < Weight(s.phase[r])
    ensures Measure(s') < Measure(s)
  {
    TotalUpdate(Weight, s.phase, r, s'.phase[r]);
  }

  /** Every step brings the end nearer, whatever the server answers. */
  lemma NextDecreases(s: State, urls: Urls, a: Action)
    requires Invariant(s, urls) && Bounded(s) && Enabled(s, a)
    ensures Shaped(s, urls) && 0 <= Measure(Next(s, urls, a)) < Measure(s)
  {
    InvariantIsShaped(s, urls);
    NextIsBounded(s, urls, a);
    NextKeepsInvariant(s, urls, a);
    RefreshingIsSeen(s, urls, a.r);
    var s' := Next(s, urls, a);
    assert |s'.retry| == |s'.phase| by { InvariantIsShaped(s', urls); }
    hide *;
    MeasureNonNegative(s');
    StepAdvances(s, urls, a);
  }

  lemma RefreshingIsSeen(s: State, urls: Urls, r: nat)
    requires Invariant(s, urls)
    ensures r < |s.phase| && Refreshing(s.phase[r]) ==> s.isRefreshing
  {
    hide QueueExact, PromiseKept, OutcomesInOrder;
  }

  /** A step takes a turn, or moves one request to a lighter phase. */
  lemma StepAdvances(s: State, urls: Urls, a: Action)
    requires Shaped(s, urls) && Enabled(s, a)
    requires a.r < |s.phase| && Refreshing(s.phase[a.r]) ==> s.isRefreshing
    ensures Measure(Next(s, urls, a)) < Measure(s)
  {
    hide Measure;
    var (r, s') := (a.r, Next(s, urls, a));
    match a
    case Respond(_, Unauthorized) =>
      if s'.isRefreshing != s.isRefreshing {
        TurnTaken(s, s');
      } else {
        PhaseAdvanced(s, s', r);
      }
    case RefreshAnswer(_, false) => TurnTaken(s, s');
    case Stored(_, ok) =>
      if ok && s.phase[r].StoringAccess? {
        PhaseAdvanced(s, s', r);
      } else {
        TurnTaken(s, s');
      }
    case _ => PhaseAdvanced(s, s', r);
  }

  lemma MeasureNonNegative(s: State)
    requires Bounded(s) && |s.retry| == |s.phase|
    ensures Measure(s) >= 0
  {
    assert Turns(s) >= 0;
    assert Turns(s) * (9 * |s.phase| + 1) >= 0;
  }

  // ----- runs -----

  /** Before anything is sent. */
  function Init(n: nat): State {
    State(false, [], [], seq(n, r => NotSent), seq(n, r => false), [], 0, 0, false)
  }

  ghost predicate IsRun(urls: Urls, states: seq<State>, actions: seq<Action>) {
    && |states| == |actions| + 1 && states[0] == Init(|urls|)
    && forall i :: 0 <= i < |actions| ==>
         Enabled(states[i], actions[i]) && Shaped(states[i], urls) && states[i + 1] == Next(states[i], urls, actions[i])
  }

  lemma {:induction false} NoneMarked(n: nat)
    ensures Marked(seq(n, r => false)) == 0
  {
    if n > 0 {
      assert seq(n, r => false)[..n - 1] == seq(n - 1, r => false);
      NoneMarked(n - 1);
    }
  }

  lemma InitIsGood(urls: Urls)
    ensures Invariant(Init(|urls|), urls) && Bounded(Init(|urls|))
    ensures Measure(Init(|urls|)) <= 2 * |urls| * (9 * |urls| + 1) + 9 * |urls|
  {
    var s := Init(|urls|);
    NoneMarked(|urls|);
    TotalBound(Unsent, s.phase, 1);
    TotalBound(Weight, s.phase, 9);
  }

  lemma {:induction false} Reachable(urls: Urls, states: seq<State>, actions: seq<Action>, i: nat)
    requires IsRun(urls, states, actions) && i < |states|
    ensures Invariant(states[i], urls) && Bounded(states[i])
    ensures 0 <= Measure(states[i]) <= Measure(states[0]) - i
  {
    hide Invariant, Bounded, Next, Enabled, Measure, Shaped;
    if i == 0 {
      InitIsGood(urls);
      assert |states[0].retry| == |states[0].phase|;
      MeasureNonNegative(states[0]);
    } else {
      Reachable(urls, states, actions, i - 1);
      NextKeepsInvariant(states[i - 1], urls, actions[i - 1]);
      NextIsBounded(states[i - 1], urls, actions[i - 1]);
      NextDecreases(states[i - 1], urls, actions[i - 1]);
    }
  }

  // ----- main results -----

  ghost predicate SettledByRefresh(s: State, p: Promise) {
    && p.refresh < |s.outcomes|
    && (match s.outcomes[p.refresh]
        case None => p.settlements == []
        case Some(ok) => p.settlements == [ok])
  }

  /**
   * In every reachable state at most one refresh is in progress, requests wait only while one is, and each
   * waiter's promise is settled once its refresh is over, exactly once and with its outcome, and not before.
   */
  lemma SingleFlight(urls: Urls, states: seq<State>, actions: seq<Action>, i: nat)
    requires IsRun(urls, states, actions) && i < |states|
    ensures var s := states[i];
            && (forall q, r :: 0 <= q < r < |s.phase| ==> !(Refreshing(s.phase[q]) && Refreshing(s.phase[r])))
            && (s.failedQueue != [] ==> s.isRefreshing)
            && (forall p :: p in s.promises ==> SettledByRefresh(s, p))
  {
    hide IsRun;
    Reachable(urls, states, actions, i);
    QueueNeedsRefresh(states[i], urls);
    forall p | p in states[i].promises
      ensures SettledByRefresh(states[i], p)
    {
      var t :| 0 <= t < |states[i].promises| && states[i].promises[t] == p;
      assert PromiseKept(states[i], t);
    }
  }

  /** With n requests there are at most n refresh calls and n + n * n sends. */
  lemma RefreshBound(urls: Urls, states: seq<State>, actions: seq<Action>, i: nat)
    requires IsRun(urls, states, actions) && i < |states|
    ensures states[i].posts <= |urls|
    ensures states[i].sends <= |urls| + |urls| * |urls|
  {
    hide IsRun;
    Reachable(urls, states, actions, i);
    var (s, n) := (states[i], |urls|);
    assert Finished(s) <= n;
    Monotone(n, Finished(s), n);
  }

  lemma Monotone(n: nat, a: int, b: int)
    requires a <= b
    ensures n * a <= n * b
  {
  }

  /** No run goes on for ever, whatever the server answers. */
  lemma RunsEnd(urls: Urls, states: seq<State>, actions: seq<Action>)
    requires IsRun(urls, states, actions)
    ensures |actions| <= 2 * |urls| * (9 * |urls| + 1) + 9 * |urls|
  {
    hide Next, Enabled, Shaped, Measure;
    Reachable(urls, states, actions, |actions|);
    InitIsGood(urls);
  }

  predicate Quiet(s: State) {
    forall r :: 0 <= r < |s.phase| ==> s.phase[r].Done? || s.phase[r].Waiting?
  }

  /** Where nothing more can happen, what is not settled waits. */
  lemma QuietIffStuck(s: State)
    ensures Quiet(s) <==> forall a :: !Enabled(s, a)
  {
    if r :| 0 <= r < |s.phase| && !s.phase[r].Done? && !s.phase[r].Waiting? {
      var a := match s.phase[r]
        case NotSent => Send(r)
        case Sending => Respond(r, Success)
        case Resuming => Resume(r)
        case ReadingToken => TokenRead(r, Found)
        case Posting => RefreshAnswer(r, true)
        case LoggingOut => LoggedOut(r)
        case StoringAccess => Stored(r, true)
        case StoringRefresh => Stored(r, true);
      assert Enabled(s, a);
    }
  }

  /** The refresh during which a state lies, by number. */
  function Refresh(s: State): nat {
    |s.outcomes|
  }

  /** Step `j`: a request that was not retried, and is none to the refresh endpoint, gets a 401 during a refresh. */
  ghost predicate Joins(urls: Urls, states: seq<State>, actions: seq<Action>, j: nat) {
    && j < |actions| < |states| && actions[j].Respond? && actions[j].answer.Unauthorized?
    && actions[j].r < |urls| && actions[j].r < |states[j].retry|
    && states[j].isRefreshing && !states[j].retry[actions[j].r] && !urls[actions[j].r]
  }

  /** Step `k`: the refresh token is not found, or reading it raises. */
  ghost predicate TokenUnread(actions: seq<Action>, k: nat) {
    k < |actions| && actions[k].TokenRead? && !actions[k].lookup.Found?
  }

  /** The 401 of step `j` comes during the very refresh whose token is not read at step `k`, before or after it. */
  ghost predicate Stranded(urls: Urls, states: seq<State>, actions: seq<Action>, j: nat, k: nat) {
    && Joins(urls, states, actions, j) && TokenUnread(actions, k) && |states| == |actions| + 1
    && Refresh(states[j]) == Refresh(states[k])
  }

  lemma StepKeepsAbandoned(s: State, urls: Urls, a: Action)
    requires Invariant(s, urls) && Shaped(s, urls) && Enabled(s, a) && s.abandoned
    ensures Next(s, urls, a).abandoned && Next(s, urls, a).outcomes == s.outcomes
  {
    assert !Refreshing(s.phase[a.r]);
  }

  /** An abandoned refresh never ends, and no other begins. */
  lemma {:induction false} AbandonedStays(urls: Urls, states: seq<State>, actions: seq<Action>, i: nat, e: nat)
    requires IsRun(urls, states, actions) && i <= e < |states| && states[i].abandoned
    ensures states[e].abandoned && states[e].outcomes == states[i].outcomes
  {
    hide Next, Enabled, Invariant, Shaped;
    if i < e {
      AbandonedStays(urls, states, actions, i, e - 1);
      Reachable(urls, states, actions, e - 1);
      StepKeepsAbandoned(states[e - 1], urls, actions[e - 1]);
    }
  }

  lemma StepKeepsPromise(s: State, urls: Urls, a: Action, t: nat)
    requires Shaped(s, urls) && Enabled(s, a) && t < |s.promises|
    ensures var s' := Next(s, urls, a);
            t < |s'.promises| && s'.promises[t].request == s.promises[t].request
            && s'.promises[t].refresh == s.promises[t].refresh
  {
  }

  lemma {:induction false} PromiseStays(urls: Urls, states: seq<State>, actions: seq<Action>, i: nat, e: nat, t: nat)
    requires IsRun(urls, states, actions) && i <= e < |states| && t < |states[i].promises|
    ensures t < |states[e].promises| && states[e].promises[t].refresh == states[i].promises[t].refresh
  {
    hide Next, Enabled, Shaped;
    if i < e {
      PromiseStays(urls, states, actions, i, e - 1, t);
      StepKeepsPromise(states[e - 1], urls, actions[e - 1], t);
    }
  }

  lemma StepMakesPromise(s: State, urls: Urls, a: Action, t: nat)
    requires Shaped(s, urls) && Enabled(s, a) && |s.promises| <= t < |Next(s, urls, a).promises|
    ensures a.Respond? && a.answer.Unauthorized? && a.r < |urls| && a.r < |s.retry|
    ensures s.isRefreshing && !s.retry[a.r] && !urls[a.r]
    ensures Next(s, urls, a).promises[t].refresh == |s.outcomes| - 1
  {
  }

  /** Every promise was handed out to such a request, during the refresh it names. */
  lemma {:induction false} PromiseComesFrom(urls: Urls, states: seq<State>, actions: seq<Action>, i: nat, t: nat)
    returns (j: nat)
    requires IsRun(urls, states, actions) && i < |states| && t < |states[i].promises|
    ensures Joins(urls, states, actions, j) && Refresh(states[j]) == states[i].promises[t].refresh + 1
    decreases i
  {
    hide Next, Enabled;
    if t < |states[i - 1].promises| {
      StepKeepsPromise(states[i - 1], urls, actions[i - 1], t);
      j := PromiseComesFrom(urls, states, actions, i - 1, t);
    } else {
      assert Shaped(states[i - 1], urls);
      StepMakesPromise(states[i - 1], urls, actions[i - 1], t);
      j := i - 1;
    }
  }

  /** A refresh is abandoned only by a token read that finds nothing or raises. */
  lemma {:induction false} AbandonedByTokenRead(urls: Urls, states: seq<State>, actions: seq<Action>, i: nat)
    returns (k: nat)
    requires IsRun(urls, states, actions) && i < |states| && states[i].abandoned
    ensures TokenUnread(actions, k) && Refresh(states[k]) == Refresh(states[i])
    decreases i
  {
    hide Invariant;
    Reachable(urls, states, actions, i - 1);
    if states[i - 1].abandoned {
      StepKeepsAbandoned(states[i - 1], urls, actions[i - 1]);
      k := AbandonedByTokenRead(urls, states, actions, i - 1);
    } else {
      k := i - 1;
    }
  }

  lemma JoinMakesPromise(urls: Urls, states: seq<State>, actions: seq<Action>, j: nat)
    requires IsRun(urls, states, actions) && Joins(urls, states, actions, j)
    ensures var t := |states[j].promises|;
            t < |states[j + 1].promises| && states[j + 1].promises[t].refresh == Refresh(states[j]) - 1
  {
  }

  lemma AbandonsNow(urls: Urls, states: seq<State>, actions: seq<Action>, k: nat)
    requires IsRun(urls, states, actions) && TokenUnread(actions, k)
    ensures states[k + 1].abandoned && states[k + 1].outcomes == states[k].outcomes
  {
  }

  /** A stranded request's promise is never settled. */
  lemma StrandedWaits(urls: Urls, states: seq<State>, actions: seq<Action>, j: nat, k: nat)
    requires IsRun(urls, states, actions) && Stranded(urls, states, actions, j, k)
    ensures var s := states[|actions|]; exists r :: 0 <= r < |s.phase| && s.phase[r].Waiting?
  {
    hide Invariant, Next, Enabled, Shaped;
    var (e, t) := (|actions|, |states[j].promises|);
    var s := states[e];
    JoinMakesPromise(urls, states, actions, j);
    PromiseStays(urls, states, actions, j + 1, e, t);
    AbandonsNow(urls, states, actions, k);
    AbandonedStays(urls, states, actions, k + 1, e);
    Reachable(urls, states, actions, e);
    UnsettledWaits(s, urls, t);
  }

  lemma UnsettledWaits(s: State, urls: Urls, t: nat)
    requires Invariant(s, urls) && s.abandoned && t < |s.promises| && s.promises[t].refresh == Refresh(s) - 1
    ensures exists r :: 0 <= r < |s.phase| && s.phase[r].Waiting?
  {
    assert PromiseKept(s, t);
    assert s.phase[s.promises[t].request] == Waiting(t);
  }

  /**
   * When nothing more can happen, every request has been settled exactly if none that was not retried, and is
   * not to the refresh endpoint, was answered 401 during a refresh whose token read found nothing or raised.
   */
  lemma EveryRequestSettles(urls: Urls, states: seq<State>, actions: seq<Action>)
    requires IsRun(urls, states, actions) && forall a :: !Enabled(states[|actions|], a)
    ensures (forall r :: 0 <= r < |states[|actions|].phase| ==> states[|actions|].phase[r].Done?)
       <==> !exists j: nat, k: nat :: Stranded(urls, states, actions, j, k)
  {
    hide Next, Enabled, Shaped, Invariant;
    var e := |actions|;
    var s := states[e];
    QuietIffStuck(s);
    if j: nat, k: nat :| Stranded(urls, states, actions, j, k) {
      StrandedWaits(urls, states, actions, j, k);
    }
    if r :| 0 <= r < |s.phase| && s.phase[r].Waiting? {
      var j, k := WaiterIsStranded(urls, states, actions, r);
      assert Stranded(urls, states, actions, j, k);
    }
  }

  lemma WaiterIsStranded(urls: Urls, states: seq<State>, actions: seq<Action>, r: nat) returns (j: nat, k: nat)
    requires IsRun(urls, states, actions) && Quiet(states[|actions|])
    requires r < |states[|actions|].phase| && states[|actions|].phase[r].Waiting?
    ensures Stranded(urls, states, actions, j, k)
  {
    hide Joins, PromiseKept;
    var e := |actions|;
    var s := states[e];
    Reachable(urls, states, actions, e);
    QueueNeedsRefresh(s, urls);
    assert s.phase[r].ticket in s.failedQueue;
    hide Next, Enabled, Shaped;
    assert s.abandoned by {
      assert forall q :: 0 <= q < |s.phase| ==> !Refreshing(s.phase[q]);
    }
    hide Invariant;
    j := PromiseComesFrom(urls, states, actions, e, s.phase[r].ticket);
    k := AbandonedByTokenRead(urls, states, actions, e);
  }

  /** An input that strands a request: the read raises, though a token may be stored. */
  lemma StrandedWaiter() returns (states: seq<State>, actions: seq<Action>)
    ensures actions == [Send(0), Send(1), Respond(0, Unauthorized), TokenRead(0, Raised), Respond(1, Unauthorized)]
    ensures IsRun([false, false], states, actions)
    ensures states[5].phase == [Done(false), Waiting(0)] && states[5].failedQueue == [0]
    ensures forall a :: !Enabled(states[5], a)
  {
    var urls := [false, false];
    actions := [Send(0), Send(1), Respond(0, Unauthorized), TokenRead(0, Raised), Respond(1, Unauthorized)];
    var s0 := Init(2);
    var s1 := Next(s0, urls, actions[0]);
    var s2 := Next(s1, urls, actions[1]);
    var s3 := Next(s2, urls, actions[2]);
    var s4 := Next(s3, urls, actions[3]);
    var s5 := Next(s4, urls, actions[4]);
    states := [s0, s1, s2, s3, s4, s5];
    QuietIffStuck(s5);
  }

  // ----- the code -----

  lemma SettleOne(s: State, tickets: seq<nat>, t: nat, ok: bool)
    requires t < |s.promises| && t !in tickets && s.promises[t].request < |s.phase|
    requires forall r :: 0 <= r < |s.phase| ==> (s.phase[r] == Waiting(t) <==> r == s.promises[t].request)
    ensures var (d, r) := (SettledBy(s, tickets, ok), s.promises[t].request);
            SettledBy(s, tickets + [t], ok)
            == d.(promises := d.promises[t := Settle(d.promises[t], ok)],
                  phase := d.phase[r := if ok then Resuming else Done(false)])
  {
    var (d, r) := (SettledBy(s, tickets, ok), s.promises[t].request);
    var e := SettledBy(s, tickets + [t], ok);
    assert e.promises == d.promises[t := Settle(d.promises[t], ok)];
    assert e.phase == d.phase[r := if ok then Resuming else Done(false)];
  }

  lemma SettleNone(s: State, ok: bool)
    ensures SettledBy(s, [], ok) == s
  {
    assert SettledBy(s, [], ok).promises == s.promises;
    assert SettledBy(s, [], ok).phase == s.phase;
  }

  /** The waiter behind a queued ticket is the only request that waits on it. */
  lemma TicketHolder(s: State, urls: Urls, t: nat)
    requires Invariant(s, urls) && t in s.failedQueue
    ensures t < |s.promises| && s.promises[t].request < |s.phase|
    ensures forall r :: 0 <= r < |s.phase| ==> (s.phase[r] == Waiting(t) <==> r == s.promises[t].request)
  {
    assert PromiseKept(s, t);
  }

  /** The module's variables and the requests going through it. */
  class Client {
    const urls: Urls
    var isRefreshing: bool
    var failedQueue: seq<nat>
    var promises: seq<Promise>
    var phase: seq<Phase>
    var retry: seq<bool>
    var outcomes: seq<Option<bool>>
    ghost var posts: nat
    ghost var sends: nat
    ghost var abandoned: bool

    constructor (urls: Urls)
      ensures this.urls == urls && View() == Init(|urls|)
    {
      this.urls := urls;
      isRefreshing, failedQueue, promises := false, [], [];
      phase, retry := seq(|urls|, r => NotSent), seq(|urls|, r => false);
      outcomes, posts, sends, abandoned := [], 0, 0, false;
    }

    ghost function View(): State
      reads this
    {
      State(isRefreshing, failedQueue, promises, phase, retry, outcomes, posts, sends, abandoned)
    }

    /** `processQueue`. */
    method ProcessQueue(ok: bool)
      requires Invariant(View(), urls)
      modifies this`failedQueue, this`promises, this`phase
      ensures View() == Drained(old(View()), ok)
    {
      ghost var s := View();
      SettleNone(s, ok);
      for i := 0 to |failedQueue|
        invariant failedQueue == s.failedQueue
        invariant View() == SettledBy(s, failedQueue[..i], ok)
      {
        var t := failedQueue[i];
        assert failedQueue[..i + 1] == failedQueue[..i] + [t];
        TicketHolder(s, urls, t);
        SettleOne(s, failedQueue[..i], t, ok);
        var waiter := promises[t].request;
        promises := promises[t := Settle(promises[t], ok)];
        phase := phase[waiter := if ok then Resuming else Done(false)];
      }
      assert failedQueue[..|failedQueue|] == failedQueue;
      failedQueue := [];
    }

    /** A request goes out, for the first time or after its waiting was resolved. */
    method Send(r: nat)
      requires Invariant(View(), urls) && r < |phase| && (phase[r] == NotSent || phase[r] == Resuming)
      modifies this
      ensures View() == Next(old(View()), urls, if old(phase)[r] == NotSent then Action.Send(r) else Resume(r))
      ensures Invariant(View(), urls)
    {
      NextKeepsInvariant(View(), urls, if phase[r] == NotSent then Action.Send(r) else Resume(r));
      phase, sends := phase[r := Sending], sends + 1;
    }

    /** The response interceptor, up to its first await. */
    method OnResponse(r: nat, answer: Answer)
      requires Invariant(View(), urls) && r < |phase| && phase[r] == Sending
      modifies this
      ensures View() == Next(old(View()), urls, Respond(r, answer)) && Invariant(View(), urls)
    {
      NextKeepsInvariant(View(), urls, Respond(r, answer));
      if answer == Success {
        phase := phase[r := Done(true)];
      } else if answer == Unauthorized && !retry[r] && !urls[r] {
        if isRefreshing {
          var ticket := |promises|;
          promises := promises + [Promise(r, |outcomes| - 1, [])];
          failedQueue := failedQueue + [ticket];
          phase := phase[r := Waiting(ticket)];
          return;
        }
        retry := retry[r := true];
        isRefreshing := true;
        outcomes := outcomes + [None];
        phase := phase[r := ReadingToken];
      } else {
        phase := phase[r := Done(false)];
      }
    }

    /** After the refresh token was read: without one the request logs out or is rejected, and nothing else happens. */
    method OnTokenRead(r: nat, lookup: Lookup)
      requires Invariant(View(), urls) && r < |phase| && phase[r] == ReadingToken
      modifies this
      ensures View() == Next(old(View()), urls, TokenRead(r, lookup)) && Invariant(View(), urls)
    {
      NextKeepsInvariant(View(), urls, TokenRead(r, lookup));
      if !lookup.Found? {
        phase, abandoned := phase[r := if lookup.Missing? then LoggingOut else Done(false)], true;
        return;
      }
      phase, posts := phase[r := Posting], posts + 1;
    }

    /** After the refresh call, and after each of the two writes of the new tokens. */
    method OnRefreshStep(r: nat, ok: bool)
      requires Invariant(View(), urls) && r < |phase|
      requires phase[r] == Posting || phase[r] == StoringAccess || phase[r] == StoringRefresh
      modifies this
      ensures View() == Next(old(View()), urls,
                             if old(phase)[r] == Posting then RefreshAnswer(r, ok) else Stored(r, ok))
      ensures Invariant(View(), urls)
    {
      NextKeepsInvariant(View(), urls, if phase[r] == Posting then RefreshAnswer(r, ok) else Stored(r, ok));
      if !ok {
        ProcessQueue(false);
        isRefreshing := false;
        outcomes := WithLast(outcomes, false);
        phase := phase[r := LoggingOut];
      } else if phase[r] == Posting {
        phase := phase[r := StoringAccess];
      } else if phase[r] == StoringAccess {
        phase := phase[r := StoringRefresh];
      } else {
        ProcessQueue(true);
        isRefreshing := false;
        outcomes := WithLast(outcomes, true);
        phase, sends := phase[r := Sending], sends + 1;
      }
    }

    method OnLoggedOut(r: nat)
      requires Invariant(View(), urls) && r < |phase| && phase[r] == LoggingOut
      modifies this
      ensures View() == Next(old(View()), urls, LoggedOut(r)) && Invariant(View(), urls)
    {
      NextKeepsInvariant(View(), urls, LoggedOut(r));
      phase := phase[r := Done(false)];
    }
  }
}
