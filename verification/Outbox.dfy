/** The offline message queue: messages kept in the cache for a day and retried when the client is online. */
module Outbox {
  import opened Common

  /** A message as the user wrote it, with the id and the time `queueMessage` gave it. */
  datatype Letter = Letter(id: string, body: string, queuedAt: int)

  datatype QueuedMessage = QueuedMessage(letter: Letter, retryCount: nat)

  /** The cache entry under `offline_message_queue`. */
  datatype Slot = Slot(queue: seq<QueuedMessage>, expiresAt: int)

  const DAY_MS := 24 * 60 * 60 * 1000

  // ----- one walk over the queue -----

  datatype Walked = Walked(remaining: seq<QueuedMessage>, sent: seq<Letter>, dropped: seq<Letter>)

  /** Sends each message in turn; `answers(i)` says whether the i-th send succeeds. */
  function Walk(queue: seq<QueuedMessage>, answers: nat -> bool): Walked {
    if queue == [] then Walked([], [], [])
    else
      var (init, message) := (queue[..|queue| - 1], queue[|queue| - 1]);
      var w := Walk(init, answers);
      if answers(|init|) then w.(sent := w.sent + [message.letter])
      else if message.retryCount < 3 then
        w.(remaining := w.remaining + [message.(retryCount := message.retryCount + 1)])
      else w.(dropped := w.dropped + [message.letter])
  }

  function Letters(queue: seq<QueuedMessage>): (r: seq<Letter>)
    ensures |r| == |queue|
    ensures forall i :: 0 <= i < |queue| ==> r[i] == queue[i].letter
  {
    seq(|queue|, i requires 0 <= i < |queue| => queue[i].letter)
  }

  // ----- the outbox over time -----

  /** The cache, and the history of what was queued, tried, delivered, dropped after the last retry, and expired. */
  datatype State = State(
    slot: Option<Slot>,
    accepted: seq<Letter>,
    calls: seq<Letter>,
    sent: seq<Letter>,
    dropped: seq<Letter>,
    expired: seq<Letter>)

  function Queue(slot: Option<Slot>): seq<QueuedMessage> {
    if slot.Some? then slot.value.queue else []
  }

  predicate Late(slot: Option<Slot>, now: int) {
    slot.Some? && now > slot.value.expiresAt
  }

  /** The cache without the queue, which counts as expired. */
  function Evicted(s: State, queue: seq<QueuedMessage>): State {
    s.(slot := None, expired := s.expired + Letters(queue))
  }

  /** A cache read, which removes an expired entry. */
  function AfterRead(s: State, now: int): State {
    if Late(s.slot, now) then Evicted(s, s.slot.value.queue) else s
  }

  datatype Event =
    | QueueMessage(isOnline: bool, letter: Letter, now: int)
    | ProcessQueue(isOnline: bool, answers: nat -> bool, now: int)
    | UpdateCount(now: int)

  /** What a pass that read `queue` leaves when it ends. */
  function Finish(s: State, queue: seq<QueuedMessage>, answers: nat -> bool, now: int): State {
    var w := Walk(queue, answers);
    State(if w.remaining == [] then None else Some(Slot(w.remaining, now + DAY_MS)), s.accepted,
          s.calls + Letters(queue), s.sent + w.sent, s.dropped + w.dropped, s.expired)
  }

  function Append(s: State, letter: Letter, now: int): State {
    s.(slot := Some(Slot(Queue(s.slot) + [QueuedMessage(letter, 0)], now + DAY_MS)), accepted := s.accepted + [letter])
  }

  function Step(s: State, e: Event): State {
    match e
    case QueueMessage(isOnline, letter, now) =>
      if isOnline then s else Append(AfterRead(s, now), letter, now)
    case ProcessQueue(isOnline, answers, now) =>
      var read := AfterRead(s, now);
      if !isOnline then s
      else if Queue(read.slot) == [] then read
      else Finish(read, Queue(read.slot), answers, now)
    case UpdateCount(now) => AfterRead(s, now)
  }

  /** The hook's two callbacks and its effect on the cache entry; the history fields serve the contracts. */
  class OfflineMessages {
    var slot: Option<Slot>
    ghost var accepted: seq<Letter>
    ghost var calls: seq<Letter>
    ghost var sentLetters: seq<Letter>
    ghost var dropped: seq<Letter>
    ghost var expired: seq<Letter>

    ghost function Now(): State
      reads this
    {
      State(slot, accepted, calls, sentLetters, dropped, expired)
    }

    constructor ()
      ensures Now() == State(None, [], [], [], [], [])
    {
      slot, accepted, calls, sentLetters, dropped, expired := None, [], [], [], [], [];
    }

    /** `dataCache.get(MESSAGE_QUEUE_KEY) || []`. */
    method GetQueue(now: int) returns (queue: seq<QueuedMessage>)
      modifies this
      ensures Now() == AfterRead(old(Now()), now) && queue == Queue(slot)
    {
      if slot.Some? && now > slot.value.expiresAt {
        expired := expired + Letters(slot.value.queue);
        slot := None;
      }
      queue := if slot.Some? then slot.value.queue else [];
    }

    method QueueMessage(isOnline: bool, letter: Letter, now: int) returns (queued: bool)
      modifies this
      ensures queued == !isOnline
      ensures Now() == Step(old(Now()), Event.QueueMessage(isOnline, letter, now))
    {
      if isOnline {
        return false;
      }
      var existingQueue := GetQueue(now);
      slot := Some(Slot(existingQueue + [QueuedMessage(letter, 0)], now + DAY_MS));
      accepted := accepted + [letter];
      return true;
    }

    method ProcessQueue(isOnline: bool, answers: nat -> bool, now: int) returns (sent: nat, failed: nat)
      modifies this
      ensures Now() == Step(old(Now()), Event.ProcessQueue(isOnline, answers, now))
      ensures isOnline ==> sent + failed == |Queue(AfterRead(old(Now()), now).slot)|
      ensures sent == |sentLetters| - |old(sentLetters)|
    {
      sent, failed := 0, 0;
      if !isOnline {
        return;
      }
      var queue := GetQueue(now);
      if |queue| == 0 {
        return;
      }
      hide Walk, Letters;
      var remaining;
      sent, failed, remaining := SendAll(queue, answers);
      slot := if |remaining| > 0 then Some(Slot(remaining, now + DAY_MS)) else None;
      calls := calls + Letters(queue);
      sentLetters := sentLetters + Walk(queue, answers).sent;
      dropped := dropped + Walk(queue, answers).dropped;
    }

    /** The effect that shows the number of waiting messages. */
    method UpdateCount(now: int) returns (queuedCount: nat)
      modifies this
      ensures Now() == Step(old(Now()), Event.UpdateCount(now)) && queuedCount == |Queue(slot)|
    {
      var queue := GetQueue(now);
      queuedCount := |queue|;
    }
  }

  /** The loop of `processQueue`. */
  method SendAll(queue: seq<QueuedMessage>, answers: nat -> bool)
    returns (sent: nat, failed: nat, remaining: seq<QueuedMessage>)
    ensures remaining == Walk(queue, answers).remaining
    ensures sent == |Walk(queue, answers).sent| && sent + failed == |queue|
  {
    sent, failed, remaining := 0, 0, [];
    assert Walk(queue[..0], answers) == Walked([], [], []);
    for i := 0 to |queue|
      invariant remaining == Walk(queue[..i], answers).remaining
      invariant sent == |Walk(queue[..i], answers).sent| && sent + failed == i
    {
      hide Walk;
      WalkStep(queue, answers, i);
      var message := queue[i];
      if answers(i) {
        sent := sent + 1;
      } else {
        if message.retryCount < 3 {
          remaining := remaining + [message.(retryCount := message.retryCount + 1)];
        }
        failed := failed + 1;
      }
    }
    assert queue[..|queue|] == queue;
  }

  // ----- facts about a walk -----

  lemma WalkStep(queue: seq<QueuedMessage>, answers: nat -> bool, i: nat)
    requires i < |queue|
    ensures var (w, message) := (Walk(queue[..i], answers), queue[i]);
            Walk(queue[..i + 1], answers)
            == if answers(i) then w.(sent := w.sent + [message.letter])
               else if message.retryCount < 3 then
                 w.(remaining := w.remaining + [message.(retryCount := message.retryCount + 1)])
               else w.(dropped := w.dropped + [message.letter])
  {
    assert queue[..i + 1][..i] == queue[..i] && queue[..i + 1][i] == queue[i];
  }

  lemma LettersLast(queue: seq<QueuedMessage>, message: QueuedMessage)
    ensures Letters(queue + [message]) == Letters(queue) + [message.letter]
  {
  }

  /** Every letter of the queue is in one of the three parts, as often as it was in the queue. */
  ghost predicate Splits(queue: seq<QueuedMessage>, w: Walked) {
    multiset(Letters(queue)) == multiset(Letters(w.remaining)) + multiset(w.sent) + multiset(w.dropped)
  }

  lemma {:induction false} WalkConserves(queue: seq<QueuedMessage>, answers: nat -> bool)
    ensures Splits(queue, Walk(queue, answers))
  {
    hide Splits;
    if queue == [] {
      NothingSplits();
    } else {
      var (init, message) := (queue[..|queue| - 1], queue[|queue| - 1]);
      WalkConserves(init, answers);
      SplitsStep(init, message, Walk(init, answers));
      assert queue == init + [message];
    }
  }

  lemma NothingSplits()
    ensures Splits([], Walked([], [], []))
  {
    assert Letters([]) == [];
  }

  lemma SplitsStep(init: seq<QueuedMessage>, message: QueuedMessage, w: Walked)
    requires Splits(init, w)
    ensures Splits(init + [message], w.(sent := w.sent + [message.letter]))
    ensures Splits(init + [message], w.(dropped := w.dropped + [message.letter]))
    ensures Splits(init + [message],
                   w.(remaining := w.remaining + [message.(retryCount := message.retryCount + 1)]))
  {
    LettersLast(init, message);
    LettersLast(w.remaining, message.(retryCount := message.retryCount + 1));
    hide Letters;
    OneMoreLetter(Letters(init), Letters(w.remaining), w.sent, w.dropped, message.letter);
  }

  lemma OneMoreLetter(all: seq<Letter>, kept: seq<Letter>, sent: seq<Letter>, dropped: seq<Letter>, l: Letter)
    requires multiset(all) == multiset(kept) + multiset(sent) + multiset(dropped)
    ensures multiset(all + [l]) == multiset(kept + [l]) + multiset(sent) + multiset(dropped)
    ensures multiset(all + [l]) == multiset(kept) + multiset(sent + [l]) + multiset(dropped)
    ensures multiset(all + [l]) == multiset(kept) + multiset(sent) + multiset(dropped + [l])
  {
  }

  /** A kept message has one more try on its count, a dropped one had three, and nothing appears from nowhere. */
  lemma {:induction false} WalkCounts(queue: seq<QueuedMessage>, answers: nat -> bool)
    ensures var w := Walk(queue, answers);
            && (forall m :: m in w.remaining ==>
                  1 <= m.retryCount <= 3 && QueuedMessage(m.letter, m.retryCount - 1) in queue)
            && (forall l :: l in w.sent ==> exists m :: m in queue && m.letter == l)
            && (forall l :: l in w.dropped ==> exists m :: m in queue && m.letter == l && m.retryCount >= 3)
  {
    if queue != [] {
      var (init, message) := (queue[..|queue| - 1], queue[|queue| - 1]);
      assert queue == init + [message];
      WalkCounts(init, answers);
      assert message in queue;
      assert forall m :: m in init ==> m in queue;
      assert QueuedMessage(message.letter, message.retryCount) == message;
    }
  }

  ghost predicate Before(letters: seq<Letter>, x: Letter, y: Letter) {
    exists p, q :: 0 <= p < q < |letters| && letters[p] == x && letters[q] == y
  }

  /** One list's letters stand in the other in the same order. */
  ghost predicate InOrder(some: seq<Letter>, all: seq<Letter>) {
    forall i, j :: 0 <= i < j < |some| ==> Before(all, some[i], some[j])
  }

  lemma InOrderTransitive(few: seq<Letter>, some: seq<Letter>, all: seq<Letter>)
    requires InOrder(few, some) && InOrder(some, all)
    ensures InOrder(few, all)
  {
    forall i, j | 0 <= i < j < |few| ensures Before(all, few[i], few[j]) {
      assert Before(some, few[i], few[j]);
      var p, q :| 0 <= p < q < |some| && some[p] == few[i] && some[q] == few[j];
      assert Before(all, some[p], some[q]);
    }
  }

  lemma {:induction false} WalkKeepsOrder(queue: seq<QueuedMessage>, answers: nat -> bool)
    ensures InOrder(Letters(Walk(queue, answers).remaining), Letters(queue))
  {
    if queue != [] {
      var (init, message) := (queue[..|queue| - 1], queue[|queue| - 1]);
      WalkKeepsOrder(init, answers);
      WalkCounts(init, answers);
      var (few, kept) := (Walk(init, answers).remaining, Walk(queue, answers).remaining);
      assert queue == init + [message];
      LettersLast(init, message);
      LettersLast(few, message.(retryCount := message.retryCount + 1));
      hide Walk;
      forall i, j | 0 <= i < j < |kept|
        ensures Before(Letters(queue), Letters(kept)[i], Letters(kept)[j])
      {
        if j < |few| {
          BeforeLast(Letters(init), message.letter, few[i].letter, few[j].letter);
        } else {
          assert few[i] in few;
          var p :| 0 <= p < |init| && init[p] == QueuedMessage(few[i].letter, few[i].retryCount - 1);
          assert Letters(queue)[p] == few[i].letter && Letters(queue)[|init|] == message.letter;
        }
      }
    }
  }

  lemma BeforeLast(letters: seq<Letter>, last: Letter, x: Letter, y: Letter)
    requires Before(letters, x, y)
    ensures Before(letters + [last], x, y)
  {
    var p, q :| 0 <= p < q < |letters| && letters[p] == x && letters[q] == y;
    assert (letters + [last])[p] == x && (letters + [last])[q] == y;
  }

  // ----- every run -----

  /** Nothing is lost or doubled: each queued message is waiting, delivered, dropped or expired. */
  ghost predicate Conserved(s: State) {
    multiset(s.accepted)
    == multiset(Letters(Queue(s.slot))) + multiset(s.sent) + multiset(s.dropped) + multiset(s.expired)
  }

  /** The retry count of a waiting message is the number of times it was tried. */
  ghost predicate Counted(s: State) {
    && (forall m :: m in Queue(s.slot) ==> m.retryCount <= 3 && multiset(s.calls)[m.letter] == m.retryCount)
    && (forall l :: l in s.sent ==> 1 <= multiset(s.calls)[l] <= 4)
    && (forall l :: l in s.dropped ==> multiset(s.calls)[l] == 4)
    && (forall l :: l in s.expired ==> multiset(s.calls)[l] <= 3)
    && (forall l :: l in s.calls ==> l in s.accepted)
  }

  /** Waiting messages stand in the order they were queued. */
  ghost predicate Ordered(s: State) {
    InOrder(Letters(Queue(s.slot)), s.accepted)
  }

  ghost predicate Good(s: State) {
    Conserved(s) && Counted(s) && Ordered(s) && (forall l :: multiset(s.accepted)[l] <= 1)
  }

  /** The ids `queueMessage` makes differ. */
  ghost predicate NewLetters(s: State, e: Event) {
    e.QueueMessage? && !e.isOnline ==> e.letter !in s.accepted
  }

  lemma EvictKeepsGood(s: State)
    requires Good(s)
    ensures Good(Evicted(s, Queue(s.slot)))
  {
    var queue := Queue(s.slot);
    assert Letters([]) == [];
    forall l | l in s.expired + Letters(queue) ensures multiset(s.calls)[l] <= 3 {
      if l in Letters(queue) {
        var i :| 0 <= i < |queue| && Letters(queue)[i] == l;
        assert queue[i] in queue;
      }
    }
  }

  lemma ReadKeepsGood(s: State, now: int)
    requires Good(s)
    ensures Good(AfterRead(s, now)) && AfterRead(s, now).accepted == s.accepted
  {
    hide Good;
    EvictKeepsGood(s);
  }

  lemma AppendKeepsGood(s: State, letter: Letter, now: int)
    requires Good(s) && letter !in s.accepted
    ensures Good(Append(s, letter, now))
  {
    hide Append, Counted, Ordered, Conserved;
    AppendConserves(s, letter, now);
    AppendKeepsCounts(s, letter, now);
    AppendKeepsOrder(s, letter, now);
  }

  lemma AppendConserves(s: State, letter: Letter, now: int)
    requires Conserved(s) && letter !in s.accepted && (forall l :: multiset(s.accepted)[l] <= 1)
    ensures Conserved(Append(s, letter, now))
    ensures forall l :: multiset(Append(s, letter, now).accepted)[l] <= 1
  {
    assert Letters(Queue(s.slot) + [QueuedMessage(letter, 0)]) == Letters(Queue(s.slot)) + [letter];
    assert letter !in multiset(s.accepted);
  }

  lemma AppendKeepsCounts(s: State, letter: Letter, now: int)
    requires Counted(s) && letter !in s.accepted
    ensures Counted(Append(s, letter, now))
  {
    hide Letters;
    assert letter !in s.calls;
    assert letter !in multiset(s.calls);
  }

  lemma AppendKeepsOrder(s: State, letter: Letter, now: int)
    requires Conserved(s) && Ordered(s)
    ensures Ordered(Append(s, letter, now))
  {
    var (queue, accepted') := (Queue(s.slot), s.accepted + [letter]);
    var waiting := Letters(queue + [QueuedMessage(letter, 0)]);
    forall i, j | 0 <= i < j < |waiting| ensures Before(accepted', waiting[i], waiting[j]) {
      assert waiting[i] == Letters(queue)[i];
      if j < |queue| {
        assert waiting[j] == Letters(queue)[j];
        var p, q :| 0 <= p < q < |s.accepted| && s.accepted[p] == waiting[i] && s.accepted[q] == waiting[j];
        assert accepted'[p] == waiting[i] && accepted'[q] == waiting[j];
      } else {
        assert waiting[i] in multiset(Letters(queue));
        assert waiting[i] in multiset(s.accepted);
        var p :| 0 <= p < |s.accepted| && s.accepted[p] == waiting[i];
        assert accepted'[p] == waiting[i] && accepted'[|s.accepted|] == waiting[j];
      }
    }
  }

  lemma FinishConserves(s: State, answers: nat -> bool, now: int)
    requires Conserved(s)
    ensures Conserved(Finish(s, Queue(s.slot), answers, now))
  {
    hide Walk, Letters;
    WalkConserves(Queue(s.slot), answers);
  }

  lemma FinishKeepsOrder(s: State, answers: nat -> bool, now: int)
    requires Ordered(s)
    ensures Ordered(Finish(s, Queue(s.slot), answers, now))
  {
    var queue := Queue(s.slot);
    WalkKeepsOrder(queue, answers);
    InOrderTransitive(Letters(Walk(queue, answers).remaining), Letters(queue), s.accepted);
    assert InOrder(Letters([]), s.accepted);
  }

  /** In a walk each waiting message is tried once, and no other. */
  lemma FinishCalls(s: State, l: Letter)
    requires Good(s)
    ensures multiset(s.calls + Letters(Queue(s.slot)))[l]
         == multiset(s.calls)[l] + if l in Letters(Queue(s.slot)) then 1 else 0
    ensures l in s.sent || l in s.dropped || l in s.expired ==> l !in Letters(Queue(s.slot))
  {
    assert multiset(s.accepted)[l] <= 1;
    assert multiset(s.accepted)[l] == multiset(Letters(Queue(s.slot)))[l] + multiset(s.sent)[l]
                                      + multiset(s.dropped)[l] + multiset(s.expired)[l];
    assert l in Letters(Queue(s.slot)) <==> l in multiset(Letters(Queue(s.slot)));
    assert l in s.sent <==> l in multiset(s.sent);
    assert l in s.dropped <==> l in multiset(s.dropped);
    assert l in s.expired <==> l in multiset(s.expired);
  }

  lemma TriedBefore(s: State, m: QueuedMessage)
    requires Counted(s) && m in Queue(s.slot)
    ensures m.letter in Letters(Queue(s.slot)) && multiset(s.calls)[m.letter] == m.retryCount <= 3
  {
    var i :| 0 <= i < |Queue(s.slot)| && Queue(s.slot)[i] == m;
    assert Letters(Queue(s.slot))[i] == m.letter;
  }

  lemma FinishKeepsCounts(s: State, answers: nat -> bool, now: int)
    requires Good(s)
    ensures Counted(Finish(s, Queue(s.slot), answers, now))
  {
    hide Walk, Letters, Good, Counted, Conserved, Ordered;
    var queue := Queue(s.slot);
    var (w, s') := (Walk(queue, answers), Finish(s, queue, answers, now));
    assert Counted(s) by { GoodParts(s); }
    WalkCounts(queue, answers);
    forall m | m in Queue(s'.slot) ensures m.retryCount <= 3 && multiset(s'.calls)[m.letter] == m.retryCount {
      TriedBefore(s, QueuedMessage(m.letter, m.retryCount - 1));
      FinishCalls(s, m.letter);
    }
    forall l | l in s'.sent ensures 1 <= multiset(s'.calls)[l] <= 4 {
      FinishCalls(s, l);
      if l in s.sent {
        GoodParts(s);
      } else {
        assert l in w.sent;
        var m :| m in queue && m.letter == l;
        TriedBefore(s, m);
      }
    }
    forall l | l in s'.dropped ensures multiset(s'.calls)[l] == 4 {
      FinishCalls(s, l);
      if l in s.dropped {
        GoodParts(s);
      } else {
        assert l in w.dropped;
        var m :| m in queue && m.letter == l && m.retryCount >= 3;
        TriedBefore(s, m);
      }
    }
    forall l | l in s'.expired ensures multiset(s'.calls)[l] <= 3 {
      FinishCalls(s, l);
      GoodParts(s);
    }
    forall l | l in s'.calls ensures l in s'.accepted {
      GoodParts(s);
      WaitingAccepted(s, l);
    }
    CountedFrom(s');
  }

  lemma GoodParts(s: State)
    requires Good(s)
    ensures Counted(s)
    ensures forall l :: l in s.sent ==> 1 <= multiset(s.calls)[l] <= 4
    ensures forall l :: l in s.dropped ==> multiset(s.calls)[l] == 4
    ensures forall l :: l in s.expired ==> multiset(s.calls)[l] <= 3
    ensures forall l :: l in s.calls ==> l in s.accepted
  {
  }

  lemma WaitingAccepted(s: State, l: Letter)
    requires Good(s)
    ensures l in Letters(Queue(s.slot)) ==> l in s.accepted
  {
    if l in Letters(Queue(s.slot)) {
      assert l in multiset(Letters(Queue(s.slot)));
      assert l in multiset(s.accepted);
    }
  }

  lemma CountedFrom(s: State)
    requires forall m :: m in Queue(s.slot) ==> m.retryCount <= 3 && multiset(s.calls)[m.letter] == m.retryCount
    requires forall l :: l in s.sent ==> 1 <= multiset(s.calls)[l] <= 4
    requires forall l :: l in s.dropped ==> multiset(s.calls)[l] == 4
    requires forall l :: l in s.expired ==> multiset(s.calls)[l] <= 3
    requires forall l :: l in s.calls ==> l in s.accepted
    ensures Counted(s)
  {
  }

  lemma StepKeepsGood(s: State, e: Event)
    requires Good(s) && NewLetters(s, e)
    ensures Good(Step(s, e))
  {
    hide AfterRead, Append, Finish, Counted, Conserved, Ordered;
    ReadKeepsGood(s, e.now);
    var read := AfterRead(s, e.now);
    match e
    case QueueMessage(isOnline, letter, now) =>
      if !isOnline {
        AppendKeepsGood(read, letter, now);
      }
    case ProcessQueue(isOnline, answers, now) =>
      FinishConserves(read, answers, now);
      FinishKeepsOrder(read, answers, now);
      FinishKeepsCounts(read, answers, now);
      FinishAccepts(read, answers, now);
    case UpdateCount(_) =>
  }

  lemma FinishAccepts(s: State, answers: nat -> bool, now: int)
    ensures Finish(s, Queue(s.slot), answers, now).accepted == s.accepted
  {
  }

  function Start(): State {
    State(None, [], [], [], [], [])
  }

  function Run(events: seq<Event>): State {
    if events == [] then Start() else Step(Run(events[..|events| - 1]), events[|events| - 1])
  }

  ghost predicate IdsDiffer(events: seq<Event>) {
    forall i, j :: 0 <= i < j < |events| && events[i].QueueMessage? && events[j].QueueMessage? ==>
      events[i].letter != events[j].letter
  }

  lemma {:induction false} AcceptedComeFromEvents(events: seq<Event>)
    ensures forall l :: l in Run(events).accepted ==>
              exists i :: 0 <= i < |events| && events[i].QueueMessage? && events[i].letter == l
  {
    if events != [] {
      var (init, e) := (events[..|events| - 1], events[|events| - 1]);
      AcceptedComeFromEvents(init);
      var s := Run(init);
      StepAccepts(s, e);
      forall l | l in Run(events).accepted
        ensures exists i :: 0 <= i < |events| && events[i].QueueMessage? && events[i].letter == l
      {
        if l in s.accepted {
          var i :| 0 <= i < |init| && init[i].QueueMessage? && init[i].letter == l;
          assert events[i].QueueMessage? && events[i].letter == l;
        } else {
          assert events[|init|].QueueMessage? && events[|init|].letter == l;
        }
      }
    }
  }

  lemma StepAccepts(s: State, e: Event)
    ensures forall l :: l in Step(s, e).accepted ==> l in s.accepted || (e.QueueMessage? && e.letter == l)
  {
    hide Walk, Letters;
  }

  /** Conservation, the limit of four tries, and the order hold after every run. */
  lemma {:induction false} EveryRunIsGood(events: seq<Event>)
    requires IdsDiffer(events)
    ensures Good(Run(events))
  {
    hide Good, Step;
    if events == [] {
      StartIsGood();
    } else {
      var (init, e) := (events[..|events| - 1], events[|events| - 1]);
      EveryRunIsGood(init);
      AcceptedComeFromEvents(init);
      forall i | 0 <= i < |init| && init[i].QueueMessage? && e.QueueMessage? ensures init[i].letter != e.letter {
        assert events[i] == init[i] && events[|init|] == e;
      }
      StepKeepsGood(Run(init), e);
    }
  }

  lemma StartIsGood()
    ensures Good(Start())
  {
    assert Letters([]) == [];
  }

  function One(b: bool): nat {
    if b then 1 else 0
  }

  /** So after any run each message has one fate, and one delivered was not tried again. */
  lemma OneFate(events: seq<Event>, l: Letter)
    requires IdsDiffer(events) && l in Run(events).accepted
    ensures var s := Run(events);
            One(l in Letters(Queue(s.slot))) + One(l in s.sent) + One(l in s.dropped) + One(l in s.expired) == 1
    ensures multiset(Run(events).calls)[l] <= 4
  {
    hide Run, Letters, Good, Counted, Conserved, Ordered;
    EveryRunIsGood(events);
    OneFateOf(Run(events), l);
  }

  lemma OneFateOf(s: State, l: Letter)
    requires Good(s) && l in s.accepted
    ensures One(l in Letters(Queue(s.slot))) + One(l in s.sent) + One(l in s.dropped) + One(l in s.expired) == 1
    ensures multiset(s.calls)[l] <= 4
  {
    hide Letters, Ordered, Counted;
    assert multiset(s.accepted)[l] == 1 by { assert l in multiset(s.accepted); }
    FinishCalls(s, l);
    GoodParts(s);
    MultisetParts(l, Letters(Queue(s.slot)), s.sent, s.dropped, s.expired);
    if l in Letters(Queue(s.slot)) {
      WaitingTried(s, l);
    }
  }

  lemma MultisetParts(l: Letter, a: seq<Letter>, b: seq<Letter>, c: seq<Letter>, d: seq<Letter>)
    requires multiset(a)[l] + multiset(b)[l] + multiset(c)[l] + multiset(d)[l] == 1
    ensures One(l in a) + One(l in b) + One(l in c) + One(l in d) == 1
  {
    assert l in a <==> multiset(a)[l] > 0;
    assert l in b <==> multiset(b)[l] > 0;
    assert l in c <==> multiset(c)[l] > 0;
    assert l in d <==> multiset(d)[l] > 0;
  }

  lemma WaitingTried(s: State, l: Letter)
    requires Counted(s) && l in Letters(Queue(s.slot))
    ensures multiset(s.calls)[l] <= 3
  {
    var i :| 0 <= i < |Queue(s.slot)| && Letters(Queue(s.slot))[i] == l;
    TriedBefore(s, Queue(s.slot)[i]);
  }

  predicate Reads(e: Event) {
    match e
    case QueueMessage(isOnline, _, _) => !isOnline
    case ProcessQueue(isOnline, _, _) => isOnline
    case UpdateCount(_) => true
  }

  /** What is stored is never an empty queue. */
  ghost predicate Stored(s: State) {
    s.slot.Some? ==> s.slot.value.queue != []
  }

  lemma StepKeepsStored(s: State, e: Event)
    requires Stored(s)
    ensures Stored(Step(s, e))
  {
    hide Walk, Letters;
  }

  lemma StepExpires(s: State, e: Event)
    requires Stored(s)
    ensures s.expired <= Step(s, e).expired
    ensures Step(s, e).expired == s.expired <==> !(Reads(e) && Late(s.slot, e.now))
  {
    hide Walk;
    if s.slot.Some? {
      assert |s.expired + Letters(s.slot.value.queue)| > |s.expired|;
    }
  }

  lemma {:induction false} EveryRunStores(events: seq<Event>)
    ensures Stored(Run(events))
  {
    hide Step, Stored;
    if events == [] {
      assert Stored(Start()) by { NothingStored(); }
    } else {
      EveryRunStores(events[..|events| - 1]);
      StepKeepsStored(Run(events[..|events| - 1]), events[|events| - 1]);
    }
  }

  lemma NothingStored()
    ensures Stored(Start())
  {
  }

  /** Nothing expires over a run exactly if no call reads the queue more than a day after it was last written. */
  lemma {:induction false} ExpiresOnlyWhenLate(events: seq<Event>)
    ensures Run(events).expired == []
       <==> forall i :: 0 <= i < |events| ==> !(Reads(events[i]) && Late(Run(events[..i]).slot, events[i].now))
  {
    hide Step, Reads, Late;
    if events != [] {
      var (init, e) := (events[..|events| - 1], events[|events| - 1]);
      ExpiresOnlyWhenLate(init);
      EveryRunStores(init);
      StepExpires(Run(init), e);
      assert forall i :: 0 <= i < |init| ==> init[..i] == events[..i] && init[i] == events[i];
      assert init == events[..|init|];
    }
  }

  // ----- draining -----

  function Rounds(queue: seq<QueuedMessage>, answers: seq<nat -> bool>): seq<QueuedMessage> {
    if answers == [] then queue
    else Walk(Rounds(queue, answers[..|answers| - 1]), answers[|answers| - 1]).remaining
  }

  lemma {:induction false} RoundsRaiseCounts(queue: seq<QueuedMessage>, answers: seq<nat -> bool>)
    ensures forall m :: m in Rounds(queue, answers) ==> m.retryCount >= |answers|
  {
    hide Walk;
    if answers != [] {
      var (init, last) := (answers[..|answers| - 1], answers[|answers| - 1]);
      RoundsRaiseCounts(queue, init);
      WalkCounts(Rounds(queue, init), last);
    }
  }

  /** With no new messages the queue is empty after four rounds, whatever the server answers. */
  lemma FourRoundsDrain(queue: seq<QueuedMessage>, answers: seq<nat -> bool>)
    requires |answers| >= 4
    ensures Rounds(queue, answers) == []
  {
    var left := Rounds(queue, answers);
    if left != [] {
      assert left[0] in left;
    }
    RoundsRaiseCounts(queue, answers);
    WalkCounts(Rounds(queue, answers[..|answers| - 1]), answers[|answers| - 1]);
  }

  lemma WalkRefused(letter: Letter, tries: nat, refuse: nat -> bool)
    requires !refuse(0) && tries < 3
    ensures Walk([QueuedMessage(letter, tries)], refuse).remaining == [QueuedMessage(letter, tries + 1)]
  {
    assert Walk([], refuse) == Walked([], [], []);
  }

  /** Three rounds need not be enough. */
  lemma ThreeRoundsMayNot(letter: Letter, refuse: nat -> bool)
    requires !refuse(0)
    ensures Rounds([QueuedMessage(letter, 0)], [refuse, refuse, refuse]) == [QueuedMessage(letter, 3)]
  {
    hide Walk;
    assert [refuse, refuse, refuse][..2] == [refuse, refuse] && [refuse, refuse][..1] == [refuse];
    assert [refuse][..0] == [];
    WalkRefused(letter, 0, refuse);
    WalkRefused(letter, 1, refuse);
    WalkRefused(letter, 2, refuse);
    var queue := [QueuedMessage(letter, 0)];
    assert Rounds(queue, [refuse]) == [QueuedMessage(letter, 1)];
    assert Rounds(queue, [refuse, refuse]) == [QueuedMessage(letter, 2)];
  }

  // ----- each message by its own answer -----

  lemma LettersIn(queue: seq<QueuedMessage>, l: Letter)
    ensures l in Letters(queue) <==> exists m :: m in queue && m.letter == l
  {
    if l in Letters(queue) {
      var i :| 0 <= i < |queue| && Letters(queue)[i] == l;
      assert queue[i] in queue;
    }
    if m :| m in queue && m.letter == l {
      var i :| 0 <= i < |queue| && queue[i] == m;
      assert Letters(queue)[i] == l;
    }
  }

  /** A pass delivers exactly the messages whose own send succeeds, and drops those refused that had three retries. */
  lemma {:induction false} WalkByAnswer(queue: seq<QueuedMessage>, answers: nat -> bool, i: nat)
    requires i < |queue| && Distinct(Letters(queue))
    ensures var (w, m) := (Walk(queue, answers), queue[i]);
            && (m.letter in w.sent <==> answers(i))
            && (m.letter in w.dropped <==> !answers(i) && m.retryCount >= 3)
            && (m.letter in Letters(w.remaining) <==> !answers(i) && m.retryCount < 3)
  {
    var (init, last) := (queue[..|queue| - 1], queue[|queue| - 1]);
    var w := Walk(init, answers);
    assert queue == init + [last];
    LettersLast(init, last);
    LettersLast(w.remaining, last.(retryCount := last.retryCount + 1));
    assert Letters(init) == Letters(queue)[..|init|];
    assert Letters(queue)[i] == queue[i].letter && Letters(queue)[|init|] == last.letter;
    if i < |init| {
      WalkByAnswer(init, answers, i);
      assert queue[i].letter != last.letter;
    } else {
      WalkCounts(init, answers);
      LettersIn(w.remaining, last.letter);
      assert forall k :: 0 <= k < |init| ==> Letters(queue)[k] == init[k].letter != last.letter;
      hide Walk;
      assert forall m :: m in init ==> m.letter != last.letter;
    }
  }

  // ----- when the queue expires -----

  /** Call `i` of the run wrote the queue. */
  ghost predicate Wrote(events: seq<Event>, i: nat) {
    i < |events| &&
    match events[i]
    case QueueMessage(isOnline, _, _) => !isOnline
    case ProcessQueue(isOnline, _, now) => isOnline && Queue(AfterRead(Run(events[..i]), now).slot) != []
    case UpdateCount(_) => false
  }

  ghost predicate LastWrote(events: seq<Event>, i: nat) {
    Wrote(events, i) && forall j :: i < j < |events| ==> !Wrote(events, j)
  }

  /** A stored queue expires a day after the last call that wrote it. */
  lemma {:induction false} ExpiresAfterADay(events: seq<Event>)
    requires Run(events).slot.Some?
    ensures exists i: nat :: LastWrote(events, i) && Run(events).slot.value.expiresAt == events[i].now + 86_400_000
  {
    var (init, e) := (events[..|events| - 1], events[|events| - 1]);
    var (s, s', n) := (Run(init), Run(events), |events| - 1);
    assert events == init + [e];
    hide Run, Walk, Letters;
    if Wrote(events, n) {
      assert LastWrote(events, n);
      WroteExpiry(s, e);
    } else {
      NotWrote(s, e);
      ExpiresAfterADay(init);
      var i: nat :| LastWrote(init, i) && s.slot.value.expiresAt == init[i].now + 86_400_000;
      forall k: nat | k < n ensures Wrote(init, k) <==> Wrote(events, k) {
        assert init[..k] == events[..k] && init[k] == events[k];
      }
      assert LastWrote(events, i);
    }
  }

  /** A read takes it for expired exactly when it comes later than that. */
  lemma LateIsAfterADay(events: seq<Event>, now: int)
    ensures Late(Run(events).slot, now)
       <==> Run(events).slot.Some? && exists i: nat :: LastWrote(events, i) && now > events[i].now + 86_400_000
  {
    hide Run, AfterRead;
    if Run(events).slot.Some? {
      ExpiresAfterADay(events);
      forall i: nat, j: nat | LastWrote(events, i) && LastWrote(events, j) ensures i == j {
      }
    }
  }

  lemma WroteExpiry(s: State, e: Event)
    requires match e
             case QueueMessage(isOnline, _, _) => !isOnline
             case ProcessQueue(isOnline, _, now) => isOnline && Queue(AfterRead(s, now).slot) != []
             case UpdateCount(_) => false
    ensures Step(s, e).slot.Some? ==> Step(s, e).slot.value.expiresAt == e.now + 86_400_000
  {
    hide Walk, Letters;
  }

  lemma NotWrote(s: State, e: Event)
    requires match e
             case QueueMessage(isOnline, _, _) => isOnline
             case ProcessQueue(isOnline, _, now) => !isOnline || Queue(AfterRead(s, now).slot) == []
             case UpdateCount(_) => true
    ensures Step(s, e).slot.Some? ==> Step(s, e).slot == s.slot
  {
    hide Walk, Letters;
  }
}
