/** The retained-message store: the replica, the match cache, and the snapshot it writes and
    reads. */
module Retained {
  import opened Common
  import opened Codec
  import opened Topic
  import opened RetainedCodec

  /** The part of the store a filter matches. */
  function Matches(s: Store, filter: string): Store {
    map t | t in s && TopicMatches(filter, t) :: s[t]
  }

  /** The matches among the topics looked at so far. */
  function MatchesAmong(s: Store, filter: string, done: set<string>): Store {
    map t | t in s && t in done && TopicMatches(filter, t) :: s[t]
  }

  lemma MatchesAmongNext(s: Store, filter: string, done: set<string>, t: string)
    requires t in s && t !in done
    ensures t !in MatchesAmong(s, filter, done)
    ensures MatchesAmong(s, filter, done + {t}) ==
      if TopicMatches(filter, t) then MatchesAmong(s, filter, done)[t := s[t]] else MatchesAmong(s, filter, done)
  {
  }

  lemma ListsSnoc(items: seq<Item>, s: Store, t: string, e: Entry)
    requires Lists(items, s) && t !in s
    ensures Lists(items + [(t, e)], s[t := e])
  {
    ItemMapSnoc(items, (t, e));
    assert s[t := e].Keys == s.Keys + {t};
  }

  /** The part of a store under the given topics. */
  function Among(s: Store, topics: set<string>): Store {
    map t | t in s && t in topics :: s[t]
  }

  lemma AmongNext(s: Store, topics: set<string>, t: string)
    requires t in s && t !in topics
    ensures t !in Among(s, topics) && Among(s, topics + {t}) == Among(s, topics)[t := s[t]]
  {
  }

  lemma AmongEnds(s: Store)
    ensures Among(s, {}) == map[] && Among(s, s.Keys) == s
  {
  }

  /** Some listing of a store, in whatever order it is iterated. */
  method ListItems(s: Store) returns (items: seq<Item>)
    ensures Lists(items, s)
  {
    items := [];
    var keys, listed: set<string> := s.Keys, {};
    AmongEnds(s);
    while keys != {}
      invariant listed + keys == s.Keys && listed !! keys
      invariant Lists(items, Among(s, listed))
      decreases keys
    {
      var t :| t in keys;
      AmongNext(s, listed, t);
      ListsSnoc(items, Among(s, listed), t, s[t]);
      items := items + [(t, s[t])];
      keys := keys - {t};
      listed := listed + {t};
    }
    assert listed == s.Keys;
  }

  lemma ImageSnoc(items: seq<Item>, i: nat)
    requires i < |items|
    ensures SnapshotImage(items[..i]) + EncodeItem(items[i]) == SnapshotImage(items[..i + 1])
  {
    assert items[..i + 1][..i] == items[..i];
    var body, item := EncodeItems(items[..i]), EncodeItem(items[i]);
    assert SNAPSHOT_MAGIC + body + item == SNAPSHOT_MAGIC + (body + item);
  }

  method BuildImage(items: seq<Item>) returns (image: seq<byte>)
    ensures image == SnapshotImage(items)
  {
    image := SNAPSHOT_MAGIC;
    var i := 0;
    assert SnapshotImage(items[..0]) == image;
    while i < |items|
      invariant 0 <= i <= |items| && image == SnapshotImage(items[..i])
    {
      ImageSnoc(items, i);
      image := image + EncodeItem(items[i]);
      i := i + 1;
    }
    assert items[..|items|] == items;
  }

  /** The store after one write; None removes. */
  function Written(s: Store, topic: string, value: Option<Entry>): Store {
    if value.Some? then s[topic := value.value] else s - {topic}
  }

  function CountOf(m: map<string, nat>, f: string): nat {
    if f in m then m[f] else 0
  }

  /** Every cached answer is what a fresh scan would give. */
  ghost predicate Agree(cache: map<string, seq<Item>>, store: Store) {
    forall f :: f in cache ==> Lists(cache[f], Matches(store, f))
  }

  /** A filter is scanned again only after a change or an eviction. */
  ghost predicate ScansBounded(misses: map<string, nat>, mutations: nat, evictions: map<string, nat>,
                               cache: map<string, seq<Item>>)
  {
    forall f :: CountOf(misses, f) <= mutations + CountOf(evictions, f) + if f in cache then 1 else 0
  }

  lemma AgreeAfterFill(cache: map<string, seq<Item>>, store: Store, f: string, items: seq<Item>)
    requires Agree(cache, store) && Lists(items, Matches(store, f))
    ensures Agree(cache[f := items], store)
  {
  }

  lemma BoundAfterMiss(misses: map<string, nat>, mutations: nat, evictions: map<string, nat>,
                       cache: map<string, seq<Item>>, f: string, items: seq<Item>)
    requires ScansBounded(misses, mutations, evictions, cache) && f !in cache
    ensures ScansBounded(misses[f := CountOf(misses, f) + 1], mutations, evictions, cache[f := items])
  {
  }

  lemma AfterEviction(misses: map<string, nat>, mutations: nat, evictions: map<string, nat>,
                      cache: map<string, seq<Item>>, store: Store, f: string)
    requires Agree(cache, store) && ScansBounded(misses, mutations, evictions, cache)
    ensures Agree(cache - {f}, store)
    ensures ScansBounded(misses, mutations, evictions[f := CountOf(evictions, f) + 1], cache - {f})
  {
  }

  lemma BoundAfterChange(misses: map<string, nat>, mutations: nat, evictions: map<string, nat>,
                         cache: map<string, seq<Item>>)
    requires ScansBounded(misses, mutations, evictions, cache)
    ensures ScansBounded(misses, mutations + 1, evictions, map[])
  {
  }

  class RetainedStore {
    var store: Store
    var dirty: bool
    var cache: map<string, seq<Item>>
    var scans: nat

    /** Changes to the store; per filter, scans made to fill the cache and evictions from it. */
    ghost var mutations: nat
    ghost var misses: map<string, nat>
    ghost var evictions: map<string, nat>

    ghost predicate Valid()
      reads this
    {
      Agree(cache, store) && ScansBounded(misses, mutations, evictions, cache)
    }

    constructor ()
      ensures Valid() && store == map[] && !dirty && cache == map[] && scans == 0
      ensures mutations == 0 && misses == map[] && evictions == map[]
    {
      store, dirty, cache, scans := map[], false, map[], 0;
      mutations, misses, evictions := 0, map[], map[];
    }

    /** The locked part of a write; None removes. */
    method Write(topic: string, value: Option<Entry>)
      modifies `store
      ensures store == Written(old(store), topic, value)
    {
      store := if value.Some? then store[topic := value.value] else store - {topic};
    }

    method MarkDirty()
      modifies `dirty
      ensures dirty
    {
      dirty := true;
    }

    method Insert(topic: string, payload: seq<byte>, writtenAt: int)
      requires Valid()
      modifies `store, `dirty, `cache, `mutations
      ensures Valid() && store == old(store)[topic := Entry(payload, writtenAt)]
      ensures dirty && cache == map[] && mutations == old(mutations) + 1
    {
      Write(topic, Some(Entry(payload, writtenAt)));
      MarkDirty();
      cache := map[];
      BoundAfterChange(misses, mutations, evictions, old(cache));
      mutations := mutations + 1;
    }

    method Remove(topic: string)
      requires Valid()
      modifies `store, `dirty, `cache, `mutations
      ensures Valid() && store == old(store) - {topic}
      ensures dirty && cache == map[] && mutations == old(mutations) + 1
    {
      Write(topic, None);
      MarkDirty();
      cache := map[];
      BoundAfterChange(misses, mutations, evictions, old(cache));
      mutations := mutations + 1;
    }

    method TakeDirty() returns (was: bool)
      modifies `dirty
      ensures was == old(dirty) && !dirty
    {
      was := dirty;
      dirty := false;
    }

    /** A linear scan of the whole replica. */
    method Matching(filter: string) returns (items: seq<Item>)
      modifies `scans
      ensures Lists(items, Matches(store, filter)) && scans == old(scans) + 1
    {
      scans := scans + 1;
      items := [];
      var keys, done: set<string> := store.Keys, {};
      while keys != {}
        invariant done + keys == store.Keys && done !! keys && scans == old(scans) + 1
        invariant Lists(items, MatchesAmong(store, filter, done))
        decreases keys
      {
        var t :| t in keys;
        MatchesAmongNext(store, filter, done, t);
        var hit := MatchTopic(filter, t);
        if hit {
          ListsSnoc(items, MatchesAmong(store, filter, done), t, store[t]);
          items := items + [(t, store[t])];
        }
        keys := keys - {t};
        done := done + {t};
      }
      assert MatchesAmong(store, filter, done) == Matches(store, filter);
    }

    /** The cached answer if there is one, else a scan that fills the cache: the same items as
        `Matching` either way. */
    method MatchingCached(filter: string) returns (items: seq<Item>)
      requires Valid()
      modifies `cache, `scans, `misses
      ensures Valid() && Lists(items, Matches(store, filter))
      ensures filter in cache && cache == old(cache)[filter := items]
      ensures filter in old(cache) ==> scans == old(scans) && misses == old(misses)
      ensures filter !in old(cache) ==>
        scans == old(scans) + 1 && misses == old(misses)[filter := CountOf(old(misses), filter) + 1]
    {
      if filter in cache {
        items := cache[filter];
        assert cache == cache[filter := items];
      } else {
        items := Matching(filter);
        AgreeAfterFill(cache, store, filter, items);
        BoundAfterMiss(misses, mutations, evictions, cache, filter, items);
        cache := cache[filter := items];
        misses := misses[filter := CountOf(misses, filter) + 1];
      }
    }

    /** The cache may drop an answer whenever it likes. */
    method Evict(filter: string)
      requires Valid()
      modifies `cache, `evictions
      ensures Valid() && cache == old(cache) - {filter}
      ensures evictions == old(evictions)[filter := CountOf(old(evictions), filter) + 1]
    {
      AfterEviction(misses, mutations, evictions, cache, store, filter);
      evictions := evictions[filter := CountOf(evictions, filter) + 1];
      cache := cache - {filter};
    }

    /** The snapshot file: every item, appended in turn. It brings the store back, to the
        millisecond, exactly when everything in it fits the format. */
    method SaveSnapshot() returns (image: seq<byte>)
      ensures exists items :: Lists(items, store) && image == SnapshotImage(items)
      ensures Restore(Some(image)) == Floored(store) <==> Fits(store)
    {
      var items := ListItems(store);
      image := BuildImage(items);
      SnapshotRoundTripIff(items, store);
    }

    /** Merge a snapshot file into the store, item by item: exactly the items before the first
        unreadable one go in. The result is their number, or what stopped the reading. */
    method LoadSnapshot(file: seq<byte>) returns (r: Result<nat, FileError>)
      requires cache == map[]
      modifies `store
      ensures store == LoadInto(old(store), Some(file))
      ensures !(SNAPSHOT_MAGIC <= file) ==> r == Err(BadMagic) && store == old(store)
      ensures SNAPSHOT_MAGIC <= file ==>
        (var read := ReadItems(file[|SNAPSHOT_MAGIC|..]);
         && store == old(store) + ItemMap(read.items)
         && r == if read.stopped.None? then Ok(|read.items|) else Err(read.stopped.value))
    {
      if !(SNAPSHOT_MAGIC <= file) {
        return Err(BadMagic);
      }
      var rest, count := file[|SNAPSHOT_MAGIC|..], 0;
      ghost var read := ReadItems(rest);
      AbsorbIsMerge(store, rest);
      while rest != []
        invariant Absorb(store, rest) == LoadInto(old(store), Some(file))
        invariant count + |ReadItems(rest).items| == |read.items| && ReadItems(rest).stopped == read.stopped
        decreases |rest|
      {
        var item := DecodeItem(rest);
        if item.Err? {
          return Err(item.error);
        }
        store := store[item.value.0.0 := item.value.0.1];
        rest := item.value.1;
        count := count + 1;
      }
      r := Ok(count);
    }
  }

  // ---------------------------------------------------------------- sequences of calls

  datatype Op = DoInsert(topic: string, payload: seq<byte>, writtenAt: int) | DoRemove(topic: string)
    | DoMatch(filter: string) | DoEvict(filter: string)

  function Changes(ops: seq<Op>): nat {
    if ops == [] then 0
    else Changes(ops[..|ops| - 1]) + if ops[|ops| - 1].DoInsert? || ops[|ops| - 1].DoRemove? then 1 else 0
  }

  function EvictionsOf(ops: seq<Op>, f: string): nat {
    if ops == [] then 0 else EvictionsOf(ops[..|ops| - 1], f) + if ops[|ops| - 1] == DoEvict(f) then 1 else 0
  }

  /** Any sequence of calls from an empty store leaves a cache that agrees with fresh scans,
      and scanned each filter at most once plus once per change and per eviction. */
  method RunOps(ops: seq<Op>) returns (r: RetainedStore)
    ensures fresh(r) && r.Valid() && r.mutations == Changes(ops)
    ensures forall f :: CountOf(r.misses, f) <= 1 + Changes(ops) + EvictionsOf(ops, f)
  {
    r := new RetainedStore();
    var i := 0;
    while i < |ops|
      invariant 0 <= i <= |ops| && fresh(r) && r.Valid() && r.mutations == Changes(ops[..i])
      invariant forall f :: CountOf(r.evictions, f) <= EvictionsOf(ops[..i], f)
    {
      assert ops[..i + 1][..i] == ops[..i];
      match ops[i] {
        case DoInsert(topic, payload, writtenAt) => r.Insert(topic, payload, writtenAt);
        case DoRemove(topic) => r.Remove(topic);
        case DoMatch(filter) => var _ := r.MatchingCached(filter);
        case DoEvict(filter) => r.Evict(filter);
      }
      i := i + 1;
    }
    assert ops[..|ops|] == ops;
  }
}
