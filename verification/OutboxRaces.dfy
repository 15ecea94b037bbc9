/**
 * Calls on the outbox side by side. Each begins with a read of the cache entry and may write the entry later,
 * when others have read or written it in between.
 */
module OutboxRaces {
  import opened Common
  import opened Outbox

  /** The count effect, `queueMessage` when offline, and `processQueue` when online. */
  datatype Task = Counting | Queueing(letter: Letter) | Passing(answers: nat -> bool)

  /** A call past its read: about to remove the expired queue it read, or about to write. */
  datatype Call = Evicting(task: Task, seen: seq<QueuedMessage>) | Writing(task: Task, seen: seq<QueuedMessage>)

  datatype Shared = Shared(state: State, calls: map<nat, Call>)

  datatype Move = Begin(id: nat, task: Task, now: int) | Evict(id: nat) | Write(id: nat, now: int)

  /** What a call does with the queue that `getQueue` returned: a pass over an empty queue is over at once. */
  function Proceed(c: Shared, id: nat, task: Task, seen: seq<QueuedMessage>): Shared {
    if task.Counting? || (task.Passing? && seen == []) then c.(calls := c.calls - {id})
    else c.(calls := c.calls[id := Writing(task, seen)])
  }

  function AfterWrite(s: State, task: Task, seen: seq<QueuedMessage>, now: int): State {
    match task
    case Counting => s
    case Queueing(letter) =>
      s.(slot := Some(Slot(seen + [QueuedMessage(letter, 0)], now + DAY_MS)), accepted := s.accepted + [letter])
    case Passing(answers) => Finish(s, seen, answers, now)
  }

  /** Whether the move is the removal or the write of a call that has come to it. */
  predicate Acts(c: Shared, m: Move) {
    match m
    case Begin(_, _, _) => false
    case Evict(id) => id in c.calls && c.calls[id].Evicting?
    case Write(id, _) => id in c.calls && c.calls[id].Writing?
  }

  /** A move that is not possible changes nothing. */
  function Next(c: Shared, m: Move): Shared {
    match m
    case Begin(id, task, now) =>
      if id in c.calls then c
      else if Late(c.state.slot, now) then
        c.(calls := c.calls[id := Evicting(task, c.state.slot.value.queue)])
      else Proceed(c, id, task, Queue(c.state.slot))
    case Evict(id) =>
      if !Acts(c, m) then c
      else Proceed(c.(state := Evicted(c.state, c.calls[id].seen)), id, c.calls[id].task, [])
    case Write(id, now) =>
      if !Acts(c, m) then c
      else Shared(AfterWrite(c.state, c.calls[id].task, c.calls[id].seen, now), c.calls - {id})
  }

  function From(c: Shared, moves: seq<Move>): Shared {
    if moves == [] then c else Next(From(c, moves[..|moves| - 1]), moves[|moves| - 1])
  }

  function Reached(moves: seq<Move>): Shared {
    From(Shared(Start(), map[]), moves)
  }

  // ----- calls one after the other -----

  /** A call from its read to its write, with nothing in between. */
  function Serial(e: Event): seq<Move> {
    match e
    case QueueMessage(isOnline, letter, now) =>
      if isOnline then [] else [Begin(0, Queueing(letter), now), Evict(0), Write(0, now)]
    case ProcessQueue(isOnline, answers, now) =>
      if isOnline then [Begin(0, Passing(answers), now), Evict(0), Write(0, now)] else []
    case UpdateCount(now) => [Begin(0, Counting, now), Evict(0), Write(0, now)]
  }

  lemma FromLast(c: Shared, moves: seq<Move>, m: Move)
    ensures From(c, moves + [m]) == Next(From(c, moves), m)
  {
    assert (moves + [m])[..|moves|] == moves;
  }

  lemma FromThree(c: Shared, a: Move, b: Move, d: Move)
    ensures From(c, [a, b, d]) == Next(Next(Next(c, a), b), d)
  {
    FromLast(c, [a, b], d);
    FromLast(c, [a], b);
    FromLast(c, [], a);
    assert [a, b] + [d] == [a, b, d] && [a] + [b] == [a, b] && [] + [a] == [a];
  }

  /** Such a call is one step of the sequential outbox. */
  lemma SerialIsStep(s: State, e: Event)
    ensures From(Shared(s, map[]), Serial(e)) == Shared(Step(s, e), map[])
  {
    hide Finish, Letters;
    match e
    case QueueMessage(_, letter, now) =>
      FromThree(Shared(s, map[]), Begin(0, Queueing(letter), now), Evict(0), Write(0, now));
    case ProcessQueue(_, answers, now) =>
      FromThree(Shared(s, map[]), Begin(0, Passing(answers), now), Evict(0), Write(0, now));
    case UpdateCount(now) =>
      FromThree(Shared(s, map[]), Begin(0, Counting, now), Evict(0), Write(0, now));
  }

  function SerialAll(events: seq<Event>): seq<Move> {
    if events == [] then [] else SerialAll(events[..|events| - 1]) + Serial(events[|events| - 1])
  }

  lemma {:induction false} FromConcat(c: Shared, a: seq<Move>, b: seq<Move>)
    ensures From(c, a + b) == From(From(c, a), b)
  {
    hide Next;
    if b == [] {
      assert a + b == a;
    } else {
      var init := b[..|b| - 1];
      assert (a + b)[..|a + b| - 1] == a + init && (a + b)[|a + b| - 1] == b[|b| - 1];
      FromConcat(c, a, init);
    }
  }

  /** Every sequence of calls is an interleaving in which they follow one another. */
  lemma {:induction false} RunsAreSerial(events: seq<Event>)
    ensures Reached(SerialAll(events)) == Shared(Run(events), map[])
  {
    hide Step, Serial, From;
    if events == [] {
      assert From(Shared(Start(), map[]), []) == Shared(Start(), map[]) by { FromNothing(Shared(Start(), map[])); }
    } else {
      var (init, e) := (events[..|events| - 1], events[|events| - 1]);
      RunsAreSerial(init);
      FromConcat(Shared(Start(), map[]), SerialAll(init), Serial(e));
      SerialIsStep(Run(init), e);
    }
  }

  lemma FromNothing(c: Shared)
    ensures From(c, []) == c
  {
  }

  // ----- one fate for each message -----

  /** How often a message is waiting, was delivered, dropped or expired. */
  function Fates(s: State, l: Letter): nat {
    multiset(Letters(Queue(s.slot)))[l] + multiset(s.sent)[l] + multiset(s.dropped)[l] + multiset(s.expired)[l]
  }

  ghost predicate EachOnce(s: State) {
    forall l :: Fates(s, l) == One(l in s.accepted)
  }

  /** What a call removes or overwrites are the messages that it read. */
  ghost predicate Finds(c: Shared, m: Move) {
    Acts(c, m) ==> multiset(Letters(Queue(c.state.slot))) == multiset(Letters(c.calls[m.id].seen))
  }

  lemma Cancel(a: multiset<Letter>, b: multiset<Letter>, rest: multiset<Letter>)
    ensures a + rest == b + rest <==> a == b
  {
    if a + rest == b + rest {
      forall l ensures a[l] == b[l] {
        assert (a + rest)[l] == (b + rest)[l];
      }
    }
  }

  /** Where the messages that come and go are those seen, conservation turns on what was waiting. */
  lemma Balance(all: multiset<Letter>, waiting: multiset<Letter>, seen: multiset<Letter>, done: multiset<Letter>)
    requires all == waiting + done
    ensures all == seen + done <==> waiting == seen
  {
    Cancel(waiting, seen, done);
  }

  lemma EvictConserves(s: State, seen: seq<QueuedMessage>)
    requires Conserved(s)
    ensures Conserved(Evicted(s, seen)) <==> multiset(Letters(Queue(s.slot))) == multiset(Letters(seen))
  {
    assert Letters([]) == [];
    var (waiting, read) := (multiset(Letters(Queue(s.slot))), multiset(Letters(seen)));
    var done := multiset(s.sent) + multiset(s.dropped) + multiset(s.expired);
    hide Letters;
    Balance(multiset(s.accepted), waiting, read, done);
    assert multiset(s.expired + Letters(seen)) == multiset(s.expired) + read;
    assert multiset{} + multiset(s.sent) + multiset(s.dropped) + (multiset(s.expired) + read) == read + done;
  }

  lemma AppendConservesExactly(s: State, letter: Letter, seen: seq<QueuedMessage>, now: int)
    requires Conserved(s)
    ensures Conserved(AfterWrite(s, Queueing(letter), seen, now))
       <==> multiset(Letters(Queue(s.slot))) == multiset(Letters(seen))
  {
    var (waiting, read) := (multiset(Letters(Queue(s.slot))), multiset(Letters(seen)));
    var done := multiset(s.sent) + multiset(s.dropped) + multiset(s.expired);
    LettersLast(seen, QueuedMessage(letter, 0));
    hide Letters;
    Balance(multiset(s.accepted) + multiset{letter}, waiting, read, done + multiset{letter});
    assert multiset(s.accepted + [letter]) == multiset(s.accepted) + multiset{letter};
    assert multiset(Letters(seen) + [letter]) == read + multiset{letter};
    assert (read + multiset{letter}) + multiset(s.sent) + multiset(s.dropped) + multiset(s.expired)
        == read + (done + multiset{letter});
  }

  lemma PassConservesExactly(s: State, seen: seq<QueuedMessage>, answers: nat -> bool, now: int)
    requires Conserved(s)
    ensures Conserved(Finish(s, seen, answers, now)) <==> multiset(Letters(Queue(s.slot))) == multiset(Letters(seen))
  {
    var (waiting, read) := (multiset(Letters(Queue(s.slot))), multiset(Letters(seen)));
    var done := multiset(s.sent) + multiset(s.dropped) + multiset(s.expired);
    WalkConserves(seen, answers);
    FinishParts(s, seen, answers, now);
    hide Letters, Walk, Finish;
    var w := Walk(seen, answers);
    Balance(multiset(s.accepted), waiting, read, done);
    assert multiset(Letters(w.remaining)) + (multiset(s.sent) + multiset(w.sent))
           + (multiset(s.dropped) + multiset(w.dropped)) + multiset(s.expired) == read + done;
  }

  lemma FinishParts(s: State, seen: seq<QueuedMessage>, answers: nat -> bool, now: int)
    ensures var (w, s') := (Walk(seen, answers), Finish(s, seen, answers, now));
            && multiset(Letters(Queue(s'.slot))) == multiset(Letters(w.remaining))
            && multiset(s'.sent) == multiset(s.sent) + multiset(w.sent)
            && multiset(s'.dropped) == multiset(s.dropped) + multiset(w.dropped)
            && s'.expired == s.expired && s'.accepted == s.accepted
  {
    hide Walk, Letters;
  }

  /** No task that writes is a count. */
  ghost predicate WritersWrite(c: Shared) {
    forall id :: id in c.calls && c.calls[id].Writing? ==> !c.calls[id].task.Counting?
  }

  /** A move keeps every message at one fate exactly if what it removes or overwrites are the messages it read. */
  lemma MoveConserves(c: Shared, m: Move)
    requires Conserved(c.state) && WritersWrite(c)
    ensures Conserved(Next(c, m).state) <==> Finds(c, m)
  {
    hide Conserved, Letters, Finish, Evicted;
    match m
    case Begin(_, _, _) =>
    case Evict(id) =>
      if Acts(c, m) {
        EvictConserves(c.state, c.calls[id].seen);
      }
    case Write(id, now) =>
      if Acts(c, m) {
        match c.calls[id].task {
          case Counting => assert false;
          case Queueing(letter) => AppendConservesExactly(c.state, letter, c.calls[id].seen, now);
          case Passing(answers) => PassConservesExactly(c.state, c.calls[id].seen, answers, now);
        }
      }
  }

  lemma MoveKeepsWriters(c: Shared, m: Move)
    requires WritersWrite(c)
    ensures WritersWrite(Next(c, m))
  {
    hide Evicted, AfterWrite;
  }

  // ----- every message is queued once -----

  ghost predicate Queues(m: Move, l: Letter) {
    m.Begin? && m.task == Queueing(l)
  }

  /** The ids `queueMessage` makes differ. */
  ghost predicate LettersDiffer(moves: seq<Move>) {
    forall i, j, l :: 0 <= i < j < |moves| && Queues(moves[i], l) ==> !Queues(moves[j], l)
  }

  ghost predicate Carries(c: Shared, id: nat, l: Letter) {
    id in c.calls && c.calls[id].task == Queueing(l)
  }

  ghost predicate Begun(moves: seq<Move>, l: Letter) {
    exists i :: 0 <= i < |moves| && Queues(moves[i], l)
  }

  /** A message that a call is about to queue is not queued yet, and no other call is about to queue it. */
  ghost predicate QueuedOnce(c: Shared, moves: seq<Move>) {
    && WritersWrite(c)
    && (forall l :: multiset(c.state.accepted)[l] <= 1)
    && (forall l :: l in c.state.accepted ==> Begun(moves, l))
    && (forall id, l :: Carries(c, id, l) ==> Begun(moves, l) && l !in c.state.accepted)
    && (forall id, other, l :: Carries(c, id, l) && Carries(c, other, l) ==> id == other)
  }

  lemma BegunLast(init: seq<Move>, m: Move, l: Letter)
    ensures Begun(init + [m], l) <==> Begun(init, l) || Queues(m, l)
  {
    var moves := init + [m];
    if i :| 0 <= i < |init| && Queues(init[i], l) {
      assert Queues(moves[i], l);
    }
    if Queues(m, l) {
      assert Queues(moves[|init|], l);
    }
  }

  lemma NextCarries(c: Shared, m: Move, id: nat, l: Letter)
    ensures Carries(Next(c, m), id, l) ==> Carries(c, id, l) || (Queues(m, l) && m.id == id && id !in c.calls)
    ensures m.Write? && Acts(c, m) ==> !Carries(Next(c, m), m.id, l)
  {
    hide Evicted, AfterWrite;
  }

  lemma NextAccepts(c: Shared, m: Move)
    ensures Next(c, m).state.accepted == c.state.accepted
            || (m.Write? && Acts(c, m) && c.calls[m.id].task.Queueing?
                && Next(c, m).state.accepted == c.state.accepted + [c.calls[m.id].task.letter])
  {
    hide Walk, Letters;
  }

  lemma MoveQueuesOnce(c: Shared, init: seq<Move>, m: Move)
    requires QueuedOnce(c, init) && forall l :: Queues(m, l) ==> !Begun(init, l)
    ensures QueuedOnce(Next(c, m), init + [m])
  {
    hide Next, Begun, Acts, Carries;
    var c' := Next(c, m);
    MoveKeepsWriters(c, m);
    NextAccepts(c, m);
    forall l ensures Begun(init + [m], l) <==> Begun(init, l) || Queues(m, l) {
      BegunLast(init, m, l);
    }
    forall id, l
      ensures Carries(c', id, l) ==> Carries(c, id, l) || (Queues(m, l) && m.id == id)
      ensures Carries(c', id, l) && m.Write? && Acts(c, m) ==> m.id != id
    {
      NextCarries(c, m, id, l);
    }
    if c'.state.accepted != c.state.accepted {
      AcceptedCarried(c, m);
    }
  }

  lemma AcceptedCarried(c: Shared, m: Move)
    requires m.Write? && Acts(c, m) && c.calls[m.id].task.Queueing?
    ensures Carries(c, m.id, c.calls[m.id].task.letter)
  {
  }

  lemma {:induction false} ReachedQueuesOnce(moves: seq<Move>)
    requires LettersDiffer(moves)
    ensures QueuedOnce(Reached(moves), moves)
  {
    hide QueuedOnce, Next;
    if moves == [] {
      StartQueuesOnce();
    } else {
      var (init, m) := (moves[..|moves| - 1], moves[|moves| - 1]);
      ReachedQueuesOnce(init);
      forall l | Queues(m, l) ensures !Begun(init, l) {
        assert Queues(moves[|init|], l);
        assert forall i :: 0 <= i < |init| ==> init[i] == moves[i];
      }
      MoveQueuesOnce(Reached(init), init, m);
      assert moves == init + [m];
    }
  }

  lemma StartQueuesOnce()
    ensures QueuedOnce(Reached([]), [])
  {
  }

  lemma OnceIsConserved(s: State)
    requires forall l :: multiset(s.accepted)[l] <= 1
    ensures EachOnce(s) <==> Conserved(s)
  {
    hide Letters;
    forall l ensures One(l in s.accepted) == multiset(s.accepted)[l] {
      assert l in s.accepted <==> l in multiset(s.accepted);
    }
    var parts := multiset(Letters(Queue(s.slot))) + multiset(s.sent) + multiset(s.dropped) + multiset(s.expired);
    assert forall l :: Fates(s, l) == parts[l];
    if EachOnce(s) {
      forall l ensures multiset(s.accepted)[l] == parts[l] {
        assert Fates(s, l) == One(l in s.accepted);
      }
    }
  }

  // ----- every interleaving -----

  ghost predicate AlwaysOnce(moves: seq<Move>) {
    forall n :: 0 <= n <= |moves| ==> EachOnce(Reached(moves[..n]).state)
  }

  /** Every removal and every write finds the messages that its call read. */
  ghost predicate AlwaysFinds(moves: seq<Move>) {
    forall n :: 0 <= n < |moves| ==> Finds(Reached(moves[..n]), moves[n])
  }

  lemma DifferBefore(moves: seq<Move>, n: nat)
    requires LettersDiffer(moves) && n <= |moves|
    ensures LettersDiffer(moves[..n])
  {
    hide Queues;
  }

  lemma OnceStep(moves: seq<Move>, n: nat)
    requires LettersDiffer(moves) && n < |moves| && EachOnce(Reached(moves[..n]).state)
    ensures EachOnce(Reached(moves[..n + 1]).state) <==> Finds(Reached(moves[..n]), moves[n])
  {
    hide EachOnce, Finds, Next, LettersDiffer, Conserved;
    var c := Reached(moves[..n]);
    DifferBefore(moves, n);
    DifferBefore(moves, n + 1);
    ReachedQueuesOnce(moves[..n]);
    ReachedQueuesOnce(moves[..n + 1]);
    assert moves[..n + 1] == moves[..n] + [moves[n]];
    FromLast(Shared(Start(), map[]), moves[..n], moves[n]);
    OnceIsConserved(c.state);
    OnceIsConserved(Next(c, moves[n]).state);
    MoveConserves(c, moves[n]);
  }

  lemma {:induction false} OnceUpTo(moves: seq<Move>, n: nat)
    requires LettersDiffer(moves) && n <= |moves| && AlwaysFinds(moves)
    ensures EachOnce(Reached(moves[..n]).state)
  {
    hide EachOnce, Finds, LettersDiffer, Reached;
    if n == 0 {
      assert moves[..0] == [];
      StartOnce();
    } else {
      OnceUpTo(moves, n - 1);
      OnceStep(moves, n - 1);
    }
  }

  lemma StartOnce()
    ensures EachOnce(Reached([]).state)
  {
    assert Letters([]) == [];
  }

  /**
   * However calls interleave, at every point each queued message is waiting, delivered, dropped or expired, once,
   * and no other message is, exactly if every removal and every write finds the messages that its call read.
   */
  lemma OneFateExactly(moves: seq<Move>)
    requires LettersDiffer(moves)
    ensures AlwaysOnce(moves) <==> AlwaysFinds(moves)
  {
    hide EachOnce, Finds, LettersDiffer, Reached;
    if AlwaysOnce(moves) {
      forall n | 0 <= n < |moves| ensures Finds(Reached(moves[..n]), moves[n]) {
        OnceStep(moves, n);
      }
    }
    if AlwaysFinds(moves) {
      forall n | 0 <= n <= |moves| ensures EachOnce(Reached(moves[..n]).state) {
        OnceUpTo(moves, n);
      }
    }
  }

  // ----- calls that do not get in each other's way -----

  /** What a call removes or overwrites is the queue that it read, retry counts and order included. */
  ghost predicate FindsSame(c: Shared, m: Move) {
    Acts(c, m) ==> Queue(c.state.slot) == c.calls[m.id].seen
  }

  lemma MoveKeepsGood(c: Shared, m: Move, moves: seq<Move>)
    requires Good(c.state) && QueuedOnce(c, moves) && FindsSame(c, m)
    ensures Good(Next(c, m).state)
  {
    hide Good, Evicted, Finish;
    if Acts(c, m) {
      var task := c.calls[m.id].task;
      if m.Evict? {
        EvictKeepsGood(c.state);
      } else if task.Queueing? {
        AcceptedCarried(c, m);
        AppendKeepsGood(c.state, task.letter, m.now);
      } else if task.Passing? {
        PassKeepsGood(c.state, task.answers, m.now);
      }
    }
  }

  lemma PassKeepsGood(s: State, answers: nat -> bool, now: int)
    requires Good(s)
    ensures Good(Finish(s, Queue(s.slot), answers, now))
  {
    hide Finish, Counted, Conserved, Ordered;
    FinishConserves(s, answers, now);
    FinishKeepsOrder(s, answers, now);
    FinishKeepsCounts(s, answers, now);
    FinishAccepts(s, answers, now);
  }

  /**
   * A move in a run in which calls keep out of each other's way: one that begins while another is past its read
   * only reads.
   */
  ghost predicate Apart(c: Shared, m: Move) {
    m.Begin? && c.calls != map[] ==> Next(c, m) == c
  }

  ghost predicate AlwaysApart(moves: seq<Move>) {
    forall n :: 0 <= n < |moves| ==> Apart(Reached(moves[..n]), moves[n])
  }

  /** At most one call is past its read, and it has read what is there. */
  ghost predicate Alone(c: Shared) {
    && (forall id, other :: id in c.calls && other in c.calls ==> id == other)
    && (forall id :: id in c.calls ==> c.calls[id].seen == Queue(c.state.slot))
  }

  lemma MoveKeepsAlone(c: Shared, m: Move)
    requires Alone(c) && Apart(c, m)
    ensures Alone(Next(c, m)) && FindsSame(c, m)
  {
    hide AfterWrite, Letters;
  }

  /** Then conservation, the limit of four tries and the order hold at every point of the run. */
  lemma {:induction false} ApartIsGood(moves: seq<Move>)
    requires LettersDiffer(moves) && AlwaysApart(moves)
    ensures Good(Reached(moves).state) && Alone(Reached(moves))
  {
    hide Good, Alone, Next, Apart, QueuedOnce, LettersDiffer;
    if moves == [] {
      StartIsGood();
      assert Alone(Reached(moves)) by { StartAlone(); }
    } else {
      var n := |moves| - 1;
      DifferBefore(moves, n);
      forall k | 0 <= k < n ensures Apart(Reached(moves[..n][..k]), moves[..n][k]) {
        assert moves[..n][..k] == moves[..k] && moves[..n][k] == moves[k];
      }
      ApartIsGood(moves[..n]);
      ReachedQueuesOnce(moves[..n]);
      MoveKeepsAlone(Reached(moves[..n]), moves[n]);
      MoveKeepsGood(Reached(moves[..n]), moves[n], moves[..n]);
    }
  }

  lemma StartAlone()
    ensures Alone(Reached([]))
  {
  }

  // ----- calls that do -----

  lemma WalkOne(m: QueuedMessage, answers: nat -> bool)
    ensures Walk([m], answers)
         == if answers(0) then Walked([], [m.letter], [])
            else if m.retryCount < 3 then Walked([m.(retryCount := m.retryCount + 1)], [], [])
            else Walked([], [], [m.letter])
  {
    assert Walk([], answers) == Walked([], [], []);
    assert [m][..0] == [];
  }

  lemma FromFour(c: Shared, a: Move, b: Move, d: Move, e: Move)
    ensures From(c, [a, b, d, e]) == Next(Next(Next(Next(c, a), b), d), e)
  {
    hide Next;
    FromThree(c, a, b, d);
    FromLast(c, [a, b, d], e);
    assert [a, b, d] + [e] == [a, b, d, e];
  }

  /** A message queued between the read and the write of a pass over a queue that is not empty is nowhere any more. */
  lemma OverlapLoses(s: State, letter: Letter, answers: nat -> bool, t: int, u: int, v: int, w: int)
    requires Good(s) && letter !in s.accepted && Queue(s.slot) != [] && !Late(s.slot, t) && !Late(s.slot, u)
    ensures var moves := [Begin(0, Passing(answers), t), Begin(1, Queueing(letter), u), Write(1, v), Write(0, w)];
            var left := From(Shared(s, map[]), moves).state;
            letter in left.accepted && Fates(left, letter) == 0
  {
    hide Finish, Good, Letters, Conserved;
    var queue := Queue(s.slot);
    var (a, b) := (Begin(0, Passing(answers), t), Begin(1, Queueing(letter), u));
    FromFour(Shared(s, map[]), a, b, Write(1, v), Write(0, w));
    var queued := AfterWrite(s, Queueing(letter), queue, v);
    assert From(Shared(s, map[]), [a, b, Write(1, v), Write(0, w)]).state == Finish(queued, queue, answers, w);
    FinishIgnoresSlot(s, letter, answers, v, w);
    PassKeepsGood(s, answers, w);
    FinishAccepts(s, answers, w);
    NowhereElse(Finish(s, queue, answers, w), letter);
  }

  lemma FinishIgnoresSlot(s: State, letter: Letter, answers: nat -> bool, v: int, w: int)
    ensures var (a, b) := (Finish(s, Queue(s.slot), answers, w),
                           Finish(AfterWrite(s, Queueing(letter), Queue(s.slot), v), Queue(s.slot), answers, w));
            b == a.(accepted := s.accepted + [letter])
  {
    hide Walk, Letters;
  }

  lemma NowhereElse(s: State, letter: Letter)
    requires Good(s) && letter !in s.accepted
    ensures Fates(s, letter) == 0
  {
    hide Letters, Counted, Ordered;
    assert multiset(s.accepted)[letter] == 0;
  }

  /**
   * Two passes over one waiting message, the second begun before the first has written: the message keeps one
   * fate exactly if the first was refused and put it back. If the first delivered it, the second delivers it
   * again, or puts it back, or drops it.
   */
  lemma TwoPasses(
    s: State, m: QueuedMessage, first: nat -> bool, second: nat -> bool, t: int, u: int, v: int, w: int)
    requires Good(s) && Queue(s.slot) == [m] && !Late(s.slot, t) && !Late(s.slot, u)
    ensures var moves := [Begin(0, Passing(first), t), Begin(1, Passing(second), u), Write(0, v), Write(1, w)];
            var left := From(Shared(s, map[]), moves).state;
            && (Fates(left, m.letter) == 1 <==> !first(0) && m.retryCount < 3)
            && (first(0) && second(0) ==> multiset(left.sent)[m.letter] == 2)
            && (first(0) && !second(0) ==>
                  m.letter in left.sent
                  && if m.retryCount < 3 then m.letter in Letters(Queue(left.slot)) else m.letter in left.dropped)
  {
    hide Finish, Good, Letters;
    var (a, b) := (Begin(0, Passing(first), t), Begin(1, Passing(second), u));
    FromFour(Shared(s, map[]), a, b, Write(0, v), Write(1, w));
    var once := Finish(s, [m], first, v);
    assert From(Shared(s, map[]), [a, b, Write(0, v), Write(1, w)]).state == Finish(once, [m], second, w);
    PassOne(s, m, first, v);
    PassOne(once, m, second, w);
    OnlyWaiting(s, m);
  }

  /** What a pass over one message adds to its fates. */
  lemma PassOne(s: State, m: QueuedMessage, answers: nat -> bool, now: int)
    ensures var (s', l) := (Finish(s, [m], answers, now), m.letter);
            && multiset(s'.sent)[l] == multiset(s.sent)[l] + One(answers(0))
            && multiset(s'.dropped)[l] == multiset(s.dropped)[l] + One(!answers(0) && m.retryCount >= 3)
            && s'.expired == s.expired
            && multiset(Letters(Queue(s'.slot)))[l] == One(!answers(0) && m.retryCount < 3)
  {
    WalkOne(m, answers);
    hide Walk;
    assert Letters([]) == [] && Letters([m.(retryCount := m.retryCount + 1)]) == [m.letter];
  }

  lemma OnlyWaiting(s: State, m: QueuedMessage)
    requires Good(s) && Queue(s.slot) == [m]
    ensures multiset(s.sent)[m.letter] == multiset(s.dropped)[m.letter] == multiset(s.expired)[m.letter] == 0
  {
    assert Letters([m]) == [m.letter];
    hide Letters, Counted, Ordered;
    assert multiset(s.accepted)[m.letter] <= 1;
  }
}
