/** How each request of the mobile client ends, and what was sent for it. */
module TokenOutcomes {
  import opened Common
  import opened TokenRefresh

  /**
   * The step rejects the request: by its answer, by a read that raises, after a logout, or with the refresh it
   * waits for.
   */
  ghost predicate Rejects(s: State, urls: Urls, a: Action, r: nat)
    requires |s.phase| == |s.retry| == |urls| && r < |s.phase|
  {
    || a == Respond(r, OtherError)
    || (a == Respond(r, Unauthorized) && (s.retry[r] || urls[r]))
    || a == TokenRead(r, Raised)
    || a == LoggedOut(r)
    || (s.phase[r].Waiting? && ((a.RefreshAnswer? && !a.ok) || (a.Stored? && !a.ok)))
  }

  lemma EndedPhase(s: State, owner: nat, ok: bool, p: Phase, r: nat)
    requires owner < |s.phase| && r < |s.phase|
    ensures |Ended(s, owner, ok, p).phase| == |s.phase|
    ensures Ended(s, owner, ok, p).phase[r] == if r == owner then p else Released(s.phase[r], s.failedQueue, ok)
  {
  }

  /** The outcome of one step for one request. */
  ghost predicate OutcomeOf(s: State, urls: Urls, a: Action, r: nat)
    requires Shaped(s, urls) && Enabled(s, a) && r < |s.phase|
  {
    var s' := Next(s, urls, a);
    && |s'.phase| == |s.phase|
    && (s'.phase[r] == Done(true) <==> s.phase[r] == Done(true) || a == Respond(r, Success))
    && (s'.phase[r] == Done(false) <==> s.phase[r] == Done(false) || Rejects(s, urls, a, r))
  }

  lemma AnswerOutcome(s: State, urls: Urls, q: nat, answer: Answer, r: nat)
    requires Shaped(s, urls) && Enabled(s, Respond(q, answer)) && r < |s.phase|
    ensures OutcomeOf(s, urls, Respond(q, answer), r)
  {
    hide Ended;
  }

  lemma RefreshOutcome(s: State, urls: Urls, q: nat, ok: bool, r: nat)
    requires Shaped(s, urls) && Enabled(s, RefreshAnswer(q, ok)) && r < |s.phase|
    requires s.phase[r].Waiting? ==> s.phase[r].ticket in s.failedQueue
    ensures OutcomeOf(s, urls, RefreshAnswer(q, ok), r)
  {
    EndedPhase(s, q, false, LoggingOut, r);
    hide Ended, OnAnswer;
  }

  lemma StoredOutcome(s: State, urls: Urls, q: nat, ok: bool, r: nat)
    requires Shaped(s, urls) && Enabled(s, Stored(q, ok)) && r < |s.phase|
    requires s.phase[r].Waiting? ==> s.phase[r].ticket in s.failedQueue
    ensures OutcomeOf(s, urls, Stored(q, ok), r)
  {
    EndedPhase(s, q, false, LoggingOut, r);
    EndedPhase(s, q, true, Sending, r);
    hide Ended, OnAnswer;
  }

  lemma PlainOutcome(s: State, urls: Urls, a: Action, r: nat)
    requires Shaped(s, urls) && Enabled(s, a) && r < |s.phase|
    requires !a.Respond? && !a.RefreshAnswer? && !a.Stored?
    ensures OutcomeOf(s, urls, a, r)
  {
    hide Ended, OnAnswer;
  }

  lemma StepOutcome(s: State, urls: Urls, a: Action, r: nat)
    requires Shaped(s, urls) && Enabled(s, a) && r < |s.phase|
    requires s.phase[r].Waiting? ==> s.phase[r].ticket in s.failedQueue
    ensures OutcomeOf(s, urls, a, r)
  {
    hide OutcomeOf, Enabled, Shaped;
    match a
    case Respond(q, answer) => AnswerOutcome(s, urls, q, answer, r);
    case RefreshAnswer(q, ok) => RefreshOutcome(s, urls, q, ok, r);
    case Stored(q, ok) => StoredOutcome(s, urls, q, ok, r);
    case _ => PlainOutcome(s, urls, a, r);
  }

  lemma TicketQueued(s: State, urls: Urls, r: nat)
    requires Invariant(s, urls) && r < |s.phase|
    ensures s.phase[r].Waiting? ==> s.phase[r].ticket in s.failedQueue
  {
    hide OneFlight, PromiseKept, OutcomesInOrder;
  }

  ghost predicate Succeeded(actions: seq<Action>, n: nat, r: nat) {
    exists i :: 0 <= i < n <= |actions| && actions[i] == Respond(r, Success)
  }

  ghost predicate RejectedAt(urls: Urls, states: seq<State>, actions: seq<Action>, r: nat, i: nat) {
    && i < |actions| && i < |states| && |states[i].phase| == |states[i].retry| == |urls| && r < |states[i].phase|
    && Rejects(states[i], urls, actions[i], r)
  }

  ghost predicate Rejected(urls: Urls, states: seq<State>, actions: seq<Action>, n: nat, r: nat) {
    exists i: nat :: i < n && RejectedAt(urls, states, actions, r, i)
  }

  /**
   * A request ends well exactly when the server answered it with success, and badly exactly when it was answered
   * with an error other than 401, or 401 after its own refresh or on the refresh endpoint, when the reading of
   * the refresh token raised, when it logged out, or when the refresh it waited for failed.
   */
  lemma {:induction false} EndsExactly(urls: Urls, states: seq<State>, actions: seq<Action>, n: nat, r: nat)
    requires IsRun(urls, states, actions) && n < |states| && r < |urls|
    ensures r < |states[n].phase|
    ensures states[n].phase[r] == Done(true) <==> Succeeded(actions, n, r)
    ensures states[n].phase[r] == Done(false) <==> Rejected(urls, states, actions, n, r)
  {
    if n == 0 {
    } else {
      var (s, a) := (states[n - 1], actions[n - 1]);
      EndsExactly(urls, states, actions, n - 1, r);
      Reachable(urls, states, actions, n - 1);
      InvariantIsShaped(s, urls);
      TicketQueued(s, urls, r);
      hide Next, Enabled, Invariant, Rejects;
      StepOutcome(s, urls, a, r);
      SucceededStep(actions, n, r);
      RejectedStep(urls, states, actions, n, r);
    }
  }

  lemma SucceededStep(actions: seq<Action>, n: nat, r: nat)
    requires 0 < n <= |actions|
    ensures Succeeded(actions, n, r) <==> Succeeded(actions, n - 1, r) || actions[n - 1] == Respond(r, Success)
  {
  }

  lemma RejectedStep(urls: Urls, states: seq<State>, actions: seq<Action>, n: nat, r: nat)
    requires 0 < n
    ensures Rejected(urls, states, actions, n, r)
       <==> Rejected(urls, states, actions, n - 1, r) || RejectedAt(urls, states, actions, r, n - 1)
  {
    hide RejectedAt;
    if Rejected(urls, states, actions, n - 1, r) {
      var i: nat :| i < n - 1 && RejectedAt(urls, states, actions, r, i);
      assert i < n;
    }
  }

  function Posts(actions: seq<Action>): nat {
    if actions == [] then 0
    else
      var a := actions[|actions| - 1];
      Posts(actions[..|actions| - 1]) + if a.TokenRead? && a.lookup.Found? then 1 else 0
  }

  /** The sends of a run: each first one, each after waiting, and each after the request's own refresh. */
  function Sends(states: seq<State>, actions: seq<Action>): nat
    requires |states| >= |actions|
  {
    if actions == [] then 0
    else
      var (n, a) := (|actions| - 1, actions[|actions| - 1]);
      Sends(states, actions[..n])
      + if a.Send? || a.Resume? then 1
        else if a.Stored? && a.ok && a.r < |states[n].phase| && states[n].phase[a.r].StoringRefresh? then 1 else 0
  }

  /** The counters of the bound are what they say: the refresh calls and the requests sent. */
  lemma {:induction false} CountsAreExact(urls: Urls, states: seq<State>, actions: seq<Action>, n: nat)
    requires IsRun(urls, states, actions) && n < |states|
    ensures states[n].posts == Posts(actions[..n]) && states[n].sends == Sends(states, actions[..n])
  {
    if n > 0 {
      CountsAreExact(urls, states, actions, n - 1);
      assert actions[..n][..n - 1] == actions[..n - 1] && actions[..n][n - 1] == actions[n - 1];
      StepCounts(states[n - 1], urls, actions[n - 1]);
      hide Next, Enabled;
    }
  }

  lemma StepCounts(s: State, urls: Urls, a: Action)
    requires Shaped(s, urls) && Enabled(s, a)
    ensures var s' := Next(s, urls, a);
            && s'.posts == s.posts + (if a.TokenRead? && a.lookup.Found? then 1 else 0)
            && s'.sends == s.sends + (if a.Send? || a.Resume? then 1
                                      else if a.Stored? && a.ok && s.phase[a.r].StoringRefresh? then 1 else 0)
  {
  }
}
