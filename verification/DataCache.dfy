/** The persistent TTL cache of the mobile client and its write-through index. */
module DataCache {
  import opened Common

  const CACHE_PREFIX := "@amg_cache_"
  const CACHE_METADATA_KEY := "@amg_cache_metadata"

  /** One row of the index. */
  datatype Meta = Meta(cachedAt: int, expiresAt: int, size: nat)

  /** A text in the device's storage: the JSON of a cache entry or of the index. */
  datatype Text =
    | EntryText(data: string, timestamp: int, expiresAt: int)
    | IndexText(index: map<string, Meta>)

  function StorageKey(key: string): string {
    CACHE_PREFIX + key
  }

  lemma StorageKeyInjective(a: string, b: string)
    ensures StorageKey(a) == StorageKey(b) <==> a == b
  {
    if StorageKey(a) == StorageKey(b) {
      SplitEqual(CACHE_PREFIX, a, CACHE_PREFIX, b);
    }
  }

  predicate IsCacheKey(storageKey: string) {
    CACHE_PREFIX <= storageKey
  }

  lemma CacheKeys(key: string)
    ensures IsCacheKey(StorageKey(key)) && IsCacheKey(CACHE_METADATA_KEY)
  {
    assert StorageKey("metadata") == CACHE_METADATA_KEY;
  }

  /** The index shares its storage key with exactly one cache key. */
  lemma IndexKeyTaken(key: string)
    ensures StorageKey(key) == CACHE_METADATA_KEY <==> key == "metadata"
  {
    assert StorageKey("metadata") == CACHE_METADATA_KEY;
    StorageKeyInjective(key, "metadata");
  }

  // ----- what the cache means -----

  datatype Item = Item(data: string, expiresAt: int)

  datatype Op =
    | Set(key: string, data: string, ttl: int)
    | Get(key: string)
    | GetStale(key: string)
    | Has(key: string)
    | HasStale(key: string)
    | Remove(key: string)
    | Clear
    | ClearExpired
    | Restart

  /** An operation and what the clock says while it runs. */
  datatype Event = Event(op: Op, now: int)

  /** What a read gives: the data of an entry, or, under the key of the index, a row of the index. */
  datatype Found = Absent | Value(data: string) | IndexRow(meta: Meta)

  datatype Answer = Nothing | Data(found: Found) | Flag(flag: bool)

  predicate Fresh(items: map<string, Item>, key: string, now: int) {
    key in items && now <= items[key].expiresAt
  }

  function Answered(items: map<string, Item>, e: Event): Answer {
    match e.op
    case Get(k) => Data(if Fresh(items, k, e.now) then Value(items[k].data) else Absent)
    case Has(k) => Flag(Fresh(items, k, e.now))
    case GetStale(k) => Data(if k in items then Value(items[k].data) else Absent)
    case HasStale(k) => Flag(k in items)
    case _ => Nothing
  }

  /**
   * The cache as it is: reading an expired entry and `clearExpired` evict, and what is set under `metadata` is
   * overwritten by the index at once.
   */
  function Evicting(items: map<string, Item>, e: Event): map<string, Item> {
    match e.op
    case Set(k, data, ttl) => if k == "metadata" then items else items[k := Item(data, e.now + ttl)]
    case Get(k) => if Fresh(items, k, e.now) then items else items - {k}
    case Remove(k) => items - {k}
    case Clear => map[]
    case ClearExpired => map k | k in items && Fresh(items, k, e.now) :: items[k]
    case _ => items
  }

  /** A plain TTL map: nothing is evicted, an entry only stops being fresh. */
  function Plain(items: map<string, Item>, e: Event): map<string, Item> {
    match e.op
    case Set(k, data, ttl) => items[k := Item(data, e.now + ttl)]
    case Remove(k) => items - {k}
    case Clear => map[]
    case _ => items
  }

  // ----- the service -----

  /** The device's key-value storage, shared with the rest of the app. */
  class AsyncStorage {
    var items: map<string, Text>

    constructor (items: map<string, Text>)
      ensures this.items == items
    {
      this.items := items;
    }
  }

  /** Index and stored entries hold the same keys, times and expiries, and the stored index is the one in memory. */
  ghost predicate Agree(stored: map<string, Text>, metadata: map<string, Meta>, size: Text -> nat) {
    (forall k :: AgreeAt(stored, metadata, size, k)) && IndexKept(stored, metadata)
  }

  ghost predicate AgreeAt(stored: map<string, Text>, metadata: map<string, Meta>, size: Text -> nat, k: string) {
    k != "metadata" ==>
      && (k in metadata <==> StorageKey(k) in stored)
      && (k in metadata ==> Indexed(stored[StorageKey(k)], metadata[k], size))
  }

  ghost predicate Indexed(text: Text, meta: Meta, size: Text -> nat) {
    text.EntryText? && meta == Meta(text.timestamp, text.expiresAt, size(text))
  }

  ghost predicate IndexKept(stored: map<string, Text>, metadata: map<string, Meta>) {
    if CACHE_METADATA_KEY in stored then stored[CACHE_METADATA_KEY] == IndexText(metadata) else metadata == map[]
  }

  /** The live content: what the stored entries say, expired ones included. */
  ghost function ItemsOf(stored: map<string, Text>, metadata: map<string, Meta>, size: Text -> nat): map<string, Item>
    requires Agree(stored, metadata, size)
  {
    map k | k in metadata && k != "metadata" :: ItemAt(stored, metadata, size, k)
  }

  ghost function ItemAt(stored: map<string, Text>, metadata: map<string, Meta>, size: Text -> nat, k: string): Item
    requires k in metadata && k != "metadata" && AgreeAt(stored, metadata, size, k)
  {
    Item(stored[StorageKey(k)].data, stored[StorageKey(k)].expiresAt)
  }

  /** What is stored for the rest of the app. */
  ghost function Foreign(stored: map<string, Text>): map<string, Text> {
    map s | s in stored && !IsCacheKey(s) :: stored[s]
  }

  /** That is what lies under no key of the cache, and it is there unchanged. */
  lemma ForeignExactly(stored: map<string, Text>, s: string)
    ensures s in Foreign(stored) <==> s in stored && forall key :: s != StorageKey(key)
    ensures s in Foreign(stored) ==> Foreign(stored)[s] == stored[s]
  {
    if IsCacheKey(s) {
      assert s == StorageKey(s[|CACHE_PREFIX|..]);
    }
  }

  function Saved(stored: map<string, Text>, metadata: map<string, Meta>): map<string, Text> {
    stored[CACHE_METADATA_KEY := IndexText(metadata)]
  }

  function StorageKeys(keys: set<string>): set<string> {
    set k | k in keys :: StorageKey(k)
  }

  class DataCacheService {
    const storage: AsyncStorage
    const size: Text -> nat
    var metadata: map<string, Meta>

    ghost predicate Valid()
      reads this, storage
    {
      Agree(storage.items, metadata, size)
    }

    ghost function Items(): map<string, Item>
      requires Valid()
      reads this, storage
    {
      ItemsOf(storage.items, metadata, size)
    }

    constructor (storage: AsyncStorage, size: Text -> nat)
      ensures this.storage == storage && this.size == size && metadata == map[]
    {
      this.storage, this.size, metadata := storage, size, map[];
    }

    /** Loads the index; after a restart this restores the one the last run held in memory. */
    method Initialize()
      requires CACHE_METADATA_KEY in storage.items ==> storage.items[CACHE_METADATA_KEY].IndexText?
      modifies this
      ensures old(metadata) == map[] ==>
                forall last :: Agree(storage.items, last, size) ==> metadata == last && Valid()
    {
      if CACHE_METADATA_KEY in storage.items {
        metadata := storage.items[CACHE_METADATA_KEY].index;
      }
    }

    method SaveMetadata()
      modifies storage
      ensures storage.items == Saved(old(storage.items), metadata)
    {
      storage.items := storage.items[CACHE_METADATA_KEY := IndexText(metadata)];
    }

    method Set(key: string, data: string, ttl: int, now: int)
      requires Valid()
      modifies this, storage
      ensures Valid() && Items() == Evicting(old(Items()), Event(Op.Set(key, data, ttl), now))
      ensures key in metadata && metadata[key].cachedAt == now && metadata[key].expiresAt == now + ttl
      ensures Foreign(storage.items) == old(Foreign(storage.items))
    {
      hide Agree, AgreeAt, ItemsOf, StorageKey, IsCacheKey, Foreign, Saved;
      ghost var (stored, before) := (storage.items, metadata);
      var entry := EntryText(data, now, now + ttl);
      storage.items := storage.items[StorageKey(key) := entry];
      metadata := metadata[key := Meta(now, now + ttl, size(entry))];
      SaveMetadata();
      SetForeign(stored, metadata, key, entry);
      SetAgrees(stored, before, size, key, entry);
    }

    /** Under the key `metadata` the text is the index, whose `expiresAt` never compares as past. */
    method Get(key: string, now: int) returns (data: Found)
      requires Valid()
      modifies this, storage
      ensures Valid() && Items() == Evicting(old(Items()), Event(Op.Get(key), now))
      ensures Data(data) == if key == "metadata" then old(IndexRead())
                            else Answered(old(Items()), Event(Op.Get(key), now))
      ensures Foreign(storage.items) == old(Foreign(storage.items))
    {
      IndexKeyTaken(key);
      assert AgreeAt(storage.items, metadata, size, key);
      if StorageKey(key) !in storage.items {
        assert Items() - {key} == Items();
        return Absent;
      }
      match storage.items[StorageKey(key)]
      case IndexText(index) =>
        assert Items() - {key} == Items();
        return if "data" in index then IndexRow(index["data"]) else Absent;
      case EntryText(text, _, expiresAt) =>
        if now > expiresAt {
          Remove(key, now);
          return Absent;
        }
        return Value(text);
    }

    /** What is found under the key of the index: its row for the key `data`, if there is one. */
    ghost function IndexRead(): Answer
      reads this, storage
    {
      Data(if CACHE_METADATA_KEY in storage.items && "data" in metadata then IndexRow(metadata["data"]) else Absent)
    }

    method GetStale(key: string, now: int) returns (data: Found)
      requires Valid()
      ensures Data(data) == if key == "metadata" then IndexRead() else Answered(Items(), Event(Op.GetStale(key), now))
    {
      IndexKeyTaken(key);
      assert AgreeAt(storage.items, metadata, size, key);
      if StorageKey(key) !in storage.items {
        return Absent;
      }
      match storage.items[StorageKey(key)]
      case IndexText(index) => return if "data" in index then IndexRow(index["data"]) else Absent;
      case EntryText(text, _, _) => return Value(text);
    }

    method Has(key: string, now: int) returns (live: bool)
      requires Valid()
      ensures Flag(live) == if key == "metadata" then Flag(false) else Answered(Items(), Event(Op.Has(key), now))
    {
      IndexKeyTaken(key);
      assert AgreeAt(storage.items, metadata, size, key);
      if StorageKey(key) !in storage.items {
        return false;
      }
      match storage.items[StorageKey(key)]
      case IndexText(_) => return false;
      case EntryText(_, _, expiresAt) => return now <= expiresAt;
    }

    method HasStale(key: string, now: int) returns (stored: bool)
      requires Valid()
      ensures Flag(stored) == if key == "metadata" then Flag(CACHE_METADATA_KEY in storage.items)
                              else Answered(Items(), Event(Op.HasStale(key), now))
    {
      IndexKeyTaken(key);
      assert AgreeAt(storage.items, metadata, size, key);
      return StorageKey(key) in storage.items;
    }

    method Remove(key: string, ghost now: int)
      requires Valid()
      modifies this, storage
      ensures Valid() && Items() == Evicting(old(Items()), Event(Op.Remove(key), now))
      ensures Foreign(storage.items) == old(Foreign(storage.items))
    {
      hide Agree, AgreeAt, ItemsOf, StorageKey, IsCacheKey, Foreign, Saved;
      ghost var (stored, before) := (storage.items, metadata);
      storage.items := storage.items - {StorageKey(key)};
      metadata := metadata - {key};
      SaveMetadata();
      assert StorageKeys({key}) == {StorageKey(key)};
      RemoveAgrees(stored, before, size, {key});
    }

    method Clear(ghost now: int)
      requires Valid()
      modifies this, storage
      ensures Valid() && Items() == Evicting(old(Items()), Event(Op.Clear, now))
      ensures Foreign(storage.items) == old(Foreign(storage.items))
    {
      hide Agree, AgreeAt, ItemsOf, IsCacheKey, Foreign, Saved;
      ghost var (stored, before) := (storage.items, metadata);
      var keys := set s | s in storage.items && IsCacheKey(s);
      storage.items := storage.items - keys;
      metadata := map[];
      SaveMetadata();
      ClearAgrees(stored, size);
    }

    /** Walks the index for what has expired, then removes that from storage. */
    method ClearExpired(now: int)
      requires Valid()
      modifies this, storage
      ensures Valid() && Items() == Evicting(old(Items()), Event(Op.ClearExpired, now))
      ensures Foreign(storage.items) == old(Foreign(storage.items))
    {
      hide Agree, AgreeAt, ItemsOf, StorageKey, IsCacheKey, Foreign, Saved, Evicting, ExpiredKeys, StorageKeys;
      ghost var (stored, before) := (storage.items, metadata);
      NothingExpired(before, now);
      var keysToRemove: set<string> := {};
      ghost var expired: set<string> := {};
      var todo := metadata.Keys;
      while todo != {}
        invariant todo <= metadata.Keys && todo !! expired && storage.items == stored
        invariant expired == ExpiredKeys(before, before.Keys - todo, now)
        invariant metadata == before - expired
        invariant keysToRemove == StorageKeys(expired)
        decreases |todo|
      {
        var key :| key in todo;
        ghost var seen := before.Keys - todo;
        todo := todo - {key};
        assert before.Keys - todo == seen + {key};
        ExpiredStep(before, seen, key, now);
        StorageKeysStep(expired, key);
        if now > metadata[key].expiresAt {
          keysToRemove := keysToRemove + {StorageKey(key)};
          metadata := metadata - {key};
          expired := expired + {key};
        }
      }
      assert before.Keys - {} == before.Keys;
      NoKeys(expired);
      if |keysToRemove| > 0 {
        storage.items := storage.items - keysToRemove;
        SaveMetadata();
      } else {
        assert before - {} == before;
      }
      ClearExpiredAgrees(stored, before, size, now);
    }
  }

  ghost function ExpiredKeys(metadata: map<string, Meta>, keys: set<string>, now: int): set<string>
    requires keys <= metadata.Keys
  {
    set k | k in keys && now > metadata[k].expiresAt
  }

  lemma NothingExpired(metadata: map<string, Meta>, now: int)
    ensures ExpiredKeys(metadata, {}, now) == {} && StorageKeys({}) == {} && metadata - {} == metadata
    ensures metadata.Keys - metadata.Keys == {}
  {
  }

  lemma ExpiredStep(metadata: map<string, Meta>, seen: set<string>, key: string, now: int)
    requires seen <= metadata.Keys && key in metadata
    ensures ExpiredKeys(metadata, seen + {key}, now)
         == if now > metadata[key].expiresAt then ExpiredKeys(metadata, seen, now) + {key}
            else ExpiredKeys(metadata, seen, now)
  {
  }

  lemma StorageKeysStep(keys: set<string>, key: string)
    ensures StorageKeys(keys + {key}) == StorageKeys(keys) + {StorageKey(key)}
  {
    hide StorageKey;
    assert key in keys + {key};
  }

  lemma NoKeys(keys: set<string>)
    ensures keys != {} ==> StorageKeys(keys) != {}
  {
    if k :| k in keys {
      assert StorageKey(k) in StorageKeys(keys);
    }
  }

  lemma SetForeign(stored: map<string, Text>, metadata: map<string, Meta>, key: string, text: Text)
    ensures Foreign(Saved(stored[StorageKey(key) := text], metadata)) == Foreign(stored)
  {
    CacheKeys(key);
    hide StorageKey, IsCacheKey;
  }

  lemma SetAgreesAt(stored: map<string, Text>, metadata: map<string, Meta>, size: Text -> nat,
                    key: string, entry: Text, k: string)
    requires AgreeAt(stored, metadata, size, k) && entry.EntryText? && k != "metadata"
    ensures var metadata' := metadata[key := Meta(entry.timestamp, entry.expiresAt, size(entry))];
            var stored' := Saved(stored[StorageKey(key) := entry], metadata');
            && AgreeAt(stored', metadata', size, k)
            && (k in metadata && k != key ==> stored'[StorageKey(k)] == stored[StorageKey(k)])
            && (k == key ==> StorageKey(k) in stored' && stored'[StorageKey(k)] == entry)
  {
    IndexKeyTaken(k);
    IndexKeyTaken(key);
    StorageKeyInjective(k, key);
    hide StorageKey;
  }

  lemma SetAgrees(stored: map<string, Text>, metadata: map<string, Meta>, size: Text -> nat, key: string, entry: Text)
    requires Agree(stored, metadata, size) && entry.EntryText?
    ensures var metadata' := metadata[key := Meta(entry.timestamp, entry.expiresAt, size(entry))];
            var stored' := Saved(stored[StorageKey(key) := entry], metadata');
            && Agree(stored', metadata', size)
            && ItemsOf(stored', metadata', size)
            == if key == "metadata" then ItemsOf(stored, metadata, size)
               else ItemsOf(stored, metadata, size)[key := Item(entry.data, entry.expiresAt)]
  {
    hide StorageKey, AgreeAt;
    var metadata' := metadata[key := Meta(entry.timestamp, entry.expiresAt, size(entry))];
    var stored' := Saved(stored[StorageKey(key) := entry], metadata');
    forall k
      ensures AgreeAt(stored', metadata', size, k)
      ensures k in metadata && k != key && k != "metadata" ==>
                ItemAt(stored', metadata', size, k) == ItemAt(stored, metadata, size, k)
      ensures k == key && k != "metadata" ==>
                ItemAt(stored', metadata', size, k) == Item(entry.data, entry.expiresAt)
    {
      assert AgreeAt(stored, metadata, size, k);
      if k == "metadata" {
        AgreeAtIndex(stored', metadata', size);
      } else {
        SetAgreesAt(stored, metadata, size, key, entry, k);
      }
    }
    hide ItemAt, Saved;
    assert IndexKept(stored', metadata') by { SavedIsKept(stored[StorageKey(key) := entry], metadata'); }
  }

  lemma AgreeAtIndex(stored: map<string, Text>, metadata: map<string, Meta>, size: Text -> nat)
    ensures AgreeAt(stored, metadata, size, "metadata")
  {
  }

  lemma SavedIsKept(stored: map<string, Text>, metadata: map<string, Meta>)
    ensures IndexKept(Saved(stored, metadata), metadata)
  {
  }

  lemma RemoveAgreesAt(stored: map<string, Text>, metadata: map<string, Meta>, size: Text -> nat,
                       gone: set<string>, k: string)
    requires AgreeAt(stored, metadata, size, k) && k != "metadata"
    ensures var metadata' := metadata - gone;
            var stored' := Saved(stored - StorageKeys(gone), metadata');
            && AgreeAt(stored', metadata', size, k)
            && (k in metadata' ==> stored'[StorageKey(k)] == stored[StorageKey(k)])
  {
    IndexKeyTaken(k);
    forall j | j in gone && StorageKey(j) == StorageKey(k) ensures j == k {
      StorageKeyInjective(j, k);
    }
    hide StorageKey;
    assert StorageKey(k) in StorageKeys(gone) <==> k in gone;
  }

  lemma RemoveAgrees(stored: map<string, Text>, metadata: map<string, Meta>, size: Text -> nat, gone: set<string>)
    requires Agree(stored, metadata, size)
    ensures var metadata' := metadata - gone;
            var stored' := Saved(stored - StorageKeys(gone), metadata');
            && Agree(stored', metadata', size)
            && ItemsOf(stored', metadata', size) == ItemsOf(stored, metadata, size) - gone
            && Foreign(stored') == Foreign(stored)
  {
    hide StorageKey, AgreeAt, Foreign;
    var metadata' := metadata - gone;
    var stored' := Saved(stored - StorageKeys(gone), metadata');
    RemoveForeign(stored, StorageKeys(gone), metadata') by {
      forall k { CacheKeys(k); }
    }
    forall k
      ensures AgreeAt(stored', metadata', size, k)
      ensures k in metadata' && k != "metadata" ==>
                ItemAt(stored', metadata', size, k) == ItemAt(stored, metadata, size, k)
    {
      assert AgreeAt(stored, metadata, size, k);
      if k == "metadata" {
        AgreeAtIndex(stored', metadata', size);
      } else {
        RemoveAgreesAt(stored, metadata, size, gone, k);
      }
    }
    hide ItemAt, Saved;
    assert IndexKept(stored', metadata') by { SavedIsKept(stored - StorageKeys(gone), metadata'); }
  }

  lemma RemoveForeign(stored: map<string, Text>, gone: set<string>, metadata: map<string, Meta>)
    requires forall s :: s in gone ==> IsCacheKey(s)
    ensures Foreign(Saved(stored - gone, metadata)) == Foreign(stored)
  {
    CacheKeys("");
    hide IsCacheKey;
  }

  lemma ClearAgrees(stored: map<string, Text>, size: Text -> nat)
    ensures var keys := set s | s in stored && IsCacheKey(s);
            var stored' := Saved(stored - keys, map[]);
            Agree(stored', map[], size) && ItemsOf(stored', map[], size) == map[] && Foreign(stored') == Foreign(stored)
  {
    hide StorageKey, IsCacheKey;
    var keys := set s | s in stored && IsCacheKey(s);
    var stored' := Saved(stored - keys, map[]);
    RemoveForeign(stored, keys, map[]);
    forall k ensures AgreeAt(stored', map[], size, k) {
      IndexKeyTaken(k);
      CacheKeys(k);
    }
  }

  lemma ClearExpiredAgrees(stored: map<string, Text>, metadata: map<string, Meta>, size: Text -> nat, now: int)
    requires Agree(stored, metadata, size)
    ensures var expired := ExpiredKeys(metadata, metadata.Keys, now);
            var metadata' := metadata - expired;
            var stored' := if expired == {} then stored else Saved(stored - StorageKeys(expired), metadata');
            && Agree(stored', metadata', size)
            && ItemsOf(stored', metadata', size)
            == Evicting(ItemsOf(stored, metadata, size), Event(Op.ClearExpired, now))
            && Foreign(stored') == Foreign(stored)
  {
    hide StorageKey, Foreign, Saved, StorageKeys, IndexKept;
    var expired := ExpiredKeys(metadata, metadata.Keys, now);
    forall k | k in metadata && k != "metadata"
      ensures Fresh(ItemsOf(stored, metadata, size), k, now) <==> k !in expired
    {
      assert AgreeAt(stored, metadata, size, k);
    }
    assert expired == {} ==> metadata - expired == metadata;
    RemoveAgrees(stored, metadata, size, expired);
  }

  // ----- runs -----

  /** The items of a service never include the key of the index. */
  lemma ItemsSparesIndex(stored: map<string, Text>, metadata: map<string, Meta>, size: Text -> nat)
    requires Agree(stored, metadata, size)
    ensures "metadata" !in ItemsOf(stored, metadata, size)
  {
  }

  ghost predicate ClockForward(events: seq<Event>) {
    forall i, j :: 0 <= i < j < |events| ==> events[i].now <= events[j].now
  }

  function EvictingRun(start: map<string, Item>, events: seq<Event>): map<string, Item> {
    if events == [] then start
    else Evicting(EvictingRun(start, events[..|events| - 1]), events[|events| - 1])
  }

  function PlainRun(start: map<string, Item>, events: seq<Event>): map<string, Item> {
    if events == [] then start
    else Plain(PlainRun(start, events[..|events| - 1]), events[|events| - 1])
  }

  /** Only what has expired by `now` was evicted, and nothing else changed. */
  ghost predicate Simulates(cache: map<string, Item>, plain: map<string, Item>, now: int) {
    && (forall k :: k in cache ==> k in plain && plain[k] == cache[k])
    && (forall k :: k in plain && k !in cache && k != "metadata" ==> now > plain[k].expiresAt)
    && "metadata" !in cache
  }

  lemma StepSimulates(cache: map<string, Item>, plain: map<string, Item>, before: int, e: Event)
    requires Simulates(cache, plain, before) && before <= e.now
    ensures Simulates(Evicting(cache, e), Plain(plain, e), e.now)
  {
  }

  lemma {:induction false} RunSimulates(start: map<string, Item>, events: seq<Event>, now: int)
    requires "metadata" !in start && ClockForward(events) && (events == [] || events[|events| - 1].now <= now)
    ensures Simulates(EvictingRun(start, events), PlainRun(start, events), now)
  {
    if events != [] {
      var (init, last) := (events[..|events| - 1], events[|events| - 1]);
      RunSimulates(start, init, last.now);
      StepSimulates(EvictingRun(start, init), PlainRun(start, init), last.now, last);
    }
  }

  /** After any run, `get` and `has` answer as the plain TTL map does; a stale read never finds another value. */
  lemma CacheRefinesTtlMap(start: map<string, Item>, events: seq<Event>, e: Event)
    requires "metadata" !in start && ClockForward(events + [e])
    requires (e.op.Get? || e.op.Has? || e.op.GetStale?) && e.op.key != "metadata"
    ensures e.op.Get? || e.op.Has? ==>
              Answered(EvictingRun(start, events), e) == Answered(PlainRun(start, events), e)
    ensures e.op.GetStale? ==>
              Answered(EvictingRun(start, events), e) in [Data(Absent), Answered(PlainRun(start, events), e)]
  {
    assert (events + [e])[|events|] == e;
    forall i, j | 0 <= i < j < |events| ensures events[i].now <= events[j].now {
      assert (events + [e])[i] == events[i] && (events + [e])[j] == events[j];
    }
    if events != [] {
      assert (events + [e])[|events| - 1] == events[|events| - 1];
    }
    RunSimulates(start, events, e.now);
  }

  lemma {:induction false} PlainIgnoresClearing(
    start: map<string, Item>, before: seq<Event>, clearing: Event, after: seq<Event>)
    requires clearing.op.ClearExpired?
    ensures PlainRun(start, before + [clearing] + after) == PlainRun(start, before + after)
  {
    if after == [] {
      assert before + [clearing] + [] == before + [clearing] && before + [] == before;
      assert (before + [clearing])[..|before|] == before;
    } else {
      var (init, last) := (after[..|after| - 1], after[|after| - 1]);
      PlainIgnoresClearing(start, before, clearing, init);
      var (with, without) := (before + [clearing] + after, before + after);
      assert with[..|with| - 1] == before + [clearing] + init && without[..|without| - 1] == before + init;
    }
  }

  /** Whether `clearExpired` ran at some point is invisible to every later `get` and `has`. */
  lemma ClearExpiredInvisible(
    start: map<string, Item>, before: seq<Event>, clearing: Event, after: seq<Event>, e: Event)
    requires "metadata" !in start
    requires clearing.op.ClearExpired? && (e.op.Get? || e.op.Has?) && e.op.key != "metadata"
    requires ClockForward(before + [clearing] + after + [e]) && ClockForward(before + after + [e])
    ensures Answered(EvictingRun(start, before + [clearing] + after), e)
         == Answered(EvictingRun(start, before + after), e)
  {
    CacheRefinesTtlMap(start, before + [clearing] + after, e);
    CacheRefinesTtlMap(start, before + after, e);
    PlainIgnoresClearing(start, before, clearing, after);
  }
}
