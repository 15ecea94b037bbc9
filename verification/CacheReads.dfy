/** What reads of the cache give, in terms of the operations that came before, whatever the clock does. */
module CacheReads {
  import opened Common
  import opened DataCache

  /** The cache that starts empty, after some operations. */
  function Held(events: seq<Event>): map<string, Item> {
    EvictingRun(map[], events)
  }

  /** The operation takes an entry of the key that expires at `expiry` away, or replaces it. */
  predicate Ends(e: Event, key: string, expiry: int) {
    match e.op
    case Set(k, _, _) => k == key
    case Remove(k) => k == key
    case Clear => true
    case Get(k) => k == key && e.now > expiry
    case ClearExpired => e.now > expiry
    case _ => false
  }

  /** Operation `i` stored the entry, and nothing has taken it away or replaced it since. */
  ghost predicate StoredAt(events: seq<Event>, key: string, i: nat) {
    && i < |events| && events[i].op.Set? && events[i].op.key == key
    && forall j :: i < j < |events| ==> !Ends(events[j], key, events[i].now + events[i].op.ttl)
  }

  ghost predicate StoredNow(events: seq<Event>, key: string) {
    exists i: nat :: StoredAt(events, key, i)
  }

  lemma StepHolds(items: map<string, Item>, e: Event, key: string)
    requires key != "metadata"
    ensures e.op.Set? && e.op.key == key ==>
              key in Evicting(items, e) && Evicting(items, e)[key] == Item(e.op.data, e.now + e.op.ttl)
    ensures !(e.op.Set? && e.op.key == key) ==>
              (key in Evicting(items, e) <==> key in items && !Ends(e, key, items[key].expiresAt))
    ensures !(e.op.Set? && e.op.key == key) && key in Evicting(items, e) ==> Evicting(items, e)[key] == items[key]
  {
  }

  /** A key is held exactly if an operation stored it and nothing ended that; then it is what that stored. */
  lemma {:induction false} HeldExactly(events: seq<Event>, key: string)
    requires key != "metadata"
    ensures key in Held(events) <==> StoredNow(events, key)
    ensures forall i: nat :: StoredAt(events, key, i) ==>
              key in Held(events) && Held(events)[key] == Item(events[i].op.data, events[i].now + events[i].op.ttl)
  {
    if events != [] {
      var (init, e) := (events[..|events| - 1], events[|events| - 1]);
      HeldExactly(init, key);
      StepHolds(Held(init), e, key);
      hide Evicting, Ends;
      if e.op.Set? && e.op.key == key {
        assert StoredAt(events, key, |events| - 1);
        forall i: nat | StoredAt(events, key, i) ensures i == |events| - 1 {
          LastSet(events, key, i);
        }
      } else {
        forall i: nat
          ensures StoredAt(events, key, i)
             <==> StoredAt(init, key, i) && !Ends(e, key, init[i].now + init[i].op.ttl)
        {
          StoredStep(init, e, key, i);
          assert events == init + [e];
        }
      }
    }
  }

  lemma LastSet(events: seq<Event>, key: string, i: nat)
    requires StoredAt(events, key, i) && events[|events| - 1].op.Set? && events[|events| - 1].op.key == key
    ensures i == |events| - 1
  {
  }

  lemma StoredStep(init: seq<Event>, e: Event, key: string, i: nat)
    requires !(e.op.Set? && e.op.key == key)
    ensures StoredAt(init + [e], key, i)
       <==> StoredAt(init, key, i) && !Ends(e, key, init[i].now + init[i].op.ttl)
  {
    hide Ends;
    var events := init + [e];
    assert forall j :: 0 <= j < |init| ==> events[j] == init[j];
    assert events[|init|] == e;
  }

  /**
   * What was stored and not taken away since is found: by the stale reads always, by `get` and `has` up to its
   * expiry.
   */
  lemma StoredIsFound(events: seq<Event>, key: string, i: nat, now: int)
    requires key != "metadata" && StoredAt(events, key, i)
    ensures var (held, e) := (Held(events), events[i]);
            && Answered(held, Event(GetStale(key), now)) == Data(Value(e.op.data))
            && Answered(held, Event(HasStale(key), now)) == Flag(true)
            && Answered(held, Event(Get(key), now))
            == Data(if now <= e.now + e.op.ttl then Value(e.op.data) else Absent)
            && Answered(held, Event(Has(key), now)) == Flag(now <= e.now + e.op.ttl)
  {
    HeldExactly(events, key);
  }

  /** And nothing else is. */
  lemma NothingElseIsFound(events: seq<Event>, key: string, now: int)
    requires key != "metadata" && !StoredNow(events, key)
    ensures var held := Held(events);
            && Answered(held, Event(GetStale(key), now)) == Answered(held, Event(Get(key), now)) == Data(Absent)
            && Answered(held, Event(HasStale(key), now)) == Answered(held, Event(Has(key), now)) == Flag(false)
  {
    HeldExactly(events, key);
  }
}
