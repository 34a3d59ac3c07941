/** How a retained value travels: as a published envelope, by live replication, in a catch-up
    reply, or through a snapshot file. */
module Replication {
  import opened Common
  import opened Strings
  import opened Zenoh
  import opened Topic
  import opened TopicTheorems
  import opened RetainedCodec
  import opened Retained

  datatype SampleKind = Put | Delete

  /** What Zenoh delivers from the retained keyspace. */
  datatype Sample = Sample(kind: SampleKind, key: string, payload: seq<byte>)

  function ToSample(i: Item, scope: string): Sample {
    Sample(Put, RetainedKeyexpr(i.0, scope), EncodeEnvelope(i.1.payload, i.1.writtenAt))
  }

  /** What catch-up makes of a sample, whatever its kind; a foreign key or a short envelope is ignored. */
  function FromSample(s: Sample, scope: string): Option<Item> {
    match RetainedKeyexprToTopic(s.key, scope)
    case None => None
    case Some(topic) =>
      match DecodeEnvelope(s.payload)
      case None => None
      case Some(entry) => Some((topic, entry))
  }

  lemma SampleRoundTrip(i: Item, scope: string)
    ensures FromSample(ToSample(i, scope), scope) == Some(FlooredItem(i))
  {
    InternalRoundTrips(i.0, scope);
    EnvelopeRoundTrip(i.1.payload, i.1.writtenAt);
  }

  datatype Hop = Live | CatchUpReply | DiskSnapshot

  function Travel(i: Item, hop: Hop, scope: string): Option<Item> {
    match hop
    case Live => FromSample(ToSample(i, scope), scope)
    case CatchUpReply => FromSample(ToSample(i, scope), scope)
    case DiskSnapshot =>
      match DecodeItem(EncodeItem(i))
      case Err(_) => None
      case Ok((item, _)) => Some(item)
  }

  function Journey(i: Item, hops: seq<Hop>, scope: string): Option<Item>
    decreases |hops|
  {
    if hops == [] then Some(i)
    else
      match Travel(i, hops[0], scope)
      case None => None
      case Some(next) => Journey(next, hops[1..], scope)
  }

  /** However many hops of whatever kinds, a value arrives with its topic, its payload, and its
      write time to the millisecond; only a hop through a snapshot file asks that it fits. */
  lemma {:induction false} JourneyKeepsValue(i: Item, hops: seq<Hop>, scope: string)
    requires DiskSnapshot in hops ==> ItemFits(i)
    ensures Journey(i, hops, scope) == Some(if hops == [] then i else FlooredItem(i))
    decreases |hops|
  {
    if hops != [] {
      SampleRoundTrip(i, scope);
      if hops[0] == DiskSnapshot {
        ItemRoundTrip(i, []);
        assert EncodeItem(i) + [] == EncodeItem(i);
      }
      FloorMsFacts(i.1.writtenAt);
      JourneyKeepsValue(FlooredItem(i), hops[1..], scope);
    }
  }

  /** Answer a catch-up query with the whole replica. */
  method ServeReplica(store: Store, scope: string) returns (replies: seq<Sample>, ghost items: seq<Item>)
    ensures Lists(items, store) && |replies| == |items|
    ensures forall k :: 0 <= k < |items| ==> replies[k] == ToSample(items[k], scope)
  {
    var list := ListItems(store);
    items := list;
    replies := [];
    var k := 0;
    while k < |list|
      invariant 0 <= k <= |list| && |replies| == k
      invariant forall j :: 0 <= j < k ==> replies[j] == ToSample(list[j], scope)
    {
      replies := replies + [ToSample(list[k], scope)];
      k := k + 1;
    }
  }

  /** Items read from samples, in order; what cannot be read is skipped. */
  function Readable(samples: seq<Sample>, scope: string): seq<Item> {
    if samples == [] then []
    else
      var last := FromSample(samples[|samples| - 1], scope);
      Readable(samples[..|samples| - 1], scope) + if last.Some? then [last.value] else []
  }

  lemma ReadableSnoc(samples: seq<Sample>, k: nat, scope: string)
    requires k < |samples|
    ensures var item := FromSample(samples[k], scope);
      Readable(samples[..k + 1], scope) ==
      if item.Some? then Readable(samples[..k], scope) + [item.value] else Readable(samples[..k], scope)
  {
    assert samples[..k + 1][..k] == samples[..k];
  }

  /** The store after one sample. */
  function Taken(s: Store, sample: Sample, scope: string): Store {
    match FromSample(sample, scope)
    case None => s
    case Some(item) => s[item.0 := item.1]
  }

  function TakenAll(s: Store, samples: seq<Sample>, scope: string): Store {
    if samples == [] then s else Taken(TakenAll(s, samples[..|samples| - 1], scope), samples[|samples| - 1], scope)
  }

  lemma {:induction false} TakenAllIsMerge(s: Store, samples: seq<Sample>, scope: string)
    ensures TakenAll(s, samples, scope) == s + ItemMap(Readable(samples, scope))
  {
    if samples == [] {
      assert s + map[] == s;
    } else {
      var n := |samples| - 1;
      TakenAllIsMerge(s, samples[..n], scope);
      var item := FromSample(samples[n], scope);
      if item.Some? {
        ItemMapSnoc(Readable(samples[..n], scope), item.value);
      } else {
        assert Readable(samples, scope) == Readable(samples[..n], scope);
      }
    }
  }

  method TakeIn(r: RetainedStore, sample: Sample, scope: string)
    requires r.Valid()
    modifies r`store, r`dirty, r`cache, r`mutations
    ensures r.Valid() && r.store == Taken(old(r.store), sample, scope)
  {
    var item := FromSample(sample, scope);
    if item.Some? {
      r.Insert(item.value.0, item.value.1.payload, item.value.1.writtenAt);
    }
  }

  /** Take in the replies to a catch-up query. */
  method CatchUp(r: RetainedStore, replies: seq<Sample>, scope: string)
    requires r.Valid()
    modifies r`store, r`dirty, r`cache, r`mutations
    ensures r.Valid() && r.store == old(r.store) + ItemMap(Readable(replies, scope))
  {
    var k := 0;
    while k < |replies|
      invariant 0 <= k <= |replies| && r.Valid()
      invariant r.store == TakenAll(old(r.store), replies[..k], scope)
    {
      assert replies[..k + 1][..k] == replies[..k];
      TakeIn(r, replies[k], scope);
      k := k + 1;
    }
    assert replies[..|replies|] == replies;
    TakenAllIsMerge(old(r.store), replies, scope);
  }

  lemma FlooredItemsNext(items: seq<Item>, n: nat)
    requires 0 < n <= |items|
    ensures FlooredItems(items)[..n] == FlooredItems(items)[..n - 1] + [FlooredItem(items[n - 1])]
  {
    var all := FlooredItems(items);
    assert all[n - 1] == FlooredItem(items[n - 1]);
    assert all[..n] == all[..n - 1] + [all[n - 1]];
  }

  lemma ReplyReadable(replies: seq<Sample>, items: seq<Item>, scope: string, k: nat)
    requires k < |items| == |replies| && replies[k] == ToSample(items[k], scope)
    ensures Readable(replies[..k + 1], scope) == Readable(replies[..k], scope) + [FlooredItem(items[k])]
  {
    ReadableSnoc(replies, k, scope);
    SampleRoundTrip(items[k], scope);
  }

  lemma {:induction false} RepliesReadable(replies: seq<Sample>, items: seq<Item>, scope: string, n: nat)
    requires n <= |items| == |replies| && forall k :: 0 <= k < |items| ==> replies[k] == ToSample(items[k], scope)
    ensures Readable(replies[..n], scope) == FlooredItems(items)[..n]
  {
    if n > 0 {
      RepliesReadable(replies, items, scope, n - 1);
      ReplyReadable(replies, items, scope, n - 1);
      FlooredItemsNext(items, n);
    }
  }

  /** A node that joins with an empty store and catches up from one quiescent peer ends with
      exactly that peer's replica, to the millisecond. */
  method JoinLate(peer: RetainedStore, scope: string) returns (joiner: RetainedStore)
    ensures fresh(joiner) && joiner.Valid() && joiner.store == Floored(peer.store)
  {
    var replies, items := ServeReplica(peer.store, scope);
    joiner := new RetainedStore();
    RepliesReadable(replies, items, scope, |items|);
    assert replies[..|items|] == replies && FlooredItems(items)[..|items|] == FlooredItems(items);
    ItemMapFloored(items);
    CatchUp(joiner, replies, scope);
    assert map[] + Floored(peer.store) == Floored(peer.store);
  }

  // ---------------------------------------------------------------- live replication

  /** The store after one live sample: a put inserts, a delete removes. */
  function Followed(s: Store, sample: Sample, scope: string): Store {
    match RetainedKeyexprToTopic(sample.key, scope)
    case None => s
    case Some(topic) => if sample.kind == Delete then s - {topic} else Taken(s, sample, scope)
  }

  function FollowedAll(s: Store, samples: seq<Sample>, scope: string): Store {
    if samples == [] then s
    else Followed(FollowedAll(s, samples[..|samples| - 1], scope), samples[|samples| - 1], scope)
  }

  /** The live replication loop. */
  method Follow(r: RetainedStore, samples: seq<Sample>, scope: string)
    requires r.Valid()
    modifies r`store, r`dirty, r`cache, r`mutations
    ensures r.Valid() && r.store == FollowedAll(old(r.store), samples, scope)
  {
    var k := 0;
    while k < |samples|
      invariant 0 <= k <= |samples| && r.Valid()
      invariant r.store == FollowedAll(old(r.store), samples[..k], scope)
    {
      assert samples[..k + 1][..k] == samples[..k];
      var topic := RetainedKeyexprToTopic(samples[k].key, scope);
      if topic.Some? {
        if samples[k].kind == Delete {
          r.Remove(topic.value);
        } else {
          TakeIn(r, samples[k], scope);
        }
      }
      k := k + 1;
    }
    assert samples[..|samples|] == samples;
  }

  /** A PUBLISH with the retain flag, at the time it reaches its node. */
  datatype RetainedPublish = RetainedPublish(topic: string, payload: seq<byte>, at: int)

  /** What that node puts into the mesh: an empty payload clears the topic. */
  function Announce(p: RetainedPublish, scope: string): Sample {
    if p.payload == [] then Sample(Delete, RetainedKeyexpr(p.topic, scope), [])
    else ToSample((p.topic, Entry(p.payload, p.at)), scope)
  }

  /** What reaches the store's subscription of what a run of publishes puts into the mesh. */
  function Received(ps: seq<RetainedPublish>, scope: string): seq<Sample> {
    if ps == [] then []
    else
      var rest, sample := Received(ps[..|ps| - 1], scope), Announce(ps[|ps| - 1], scope);
      if KeyMatches(RetainedFilter(scope), sample.key) then rest + [sample] else rest
  }

  /** Section 3.3.1.3 of MQTT 3.1.1: the retained message of a topic is its last publish, and
      none if that was empty. */
  function Standing(ps: seq<RetainedPublish>, topic: string): Option<Entry> {
    if ps == [] then None
    else
      var last := ps[|ps| - 1];
      if last.topic != topic then Standing(ps[..|ps| - 1], topic)
      else if last.payload == [] then None
      else Some(Entry(last.payload, FloorMs(last.at)))
  }

  function Lookup(s: Store, topic: string): Option<Entry> {
    if topic in s then Some(s[topic]) else None
  }

  lemma FollowOne(s: Store, p: RetainedPublish, scope: string)
    ensures Followed(s, Announce(p, scope), scope) == Kept(s, p)
  {
    InternalRoundTrips(p.topic, scope);
    SampleRoundTrip((p.topic, Entry(p.payload, p.at)), scope);
  }

  lemma FollowedSnoc(samples: seq<Sample>, sample: Sample, scope: string)
    ensures FollowedAll(map[], samples + [sample], scope) == Followed(FollowedAll(map[], samples, scope), sample, scope)
  {
    assert (samples + [sample])[..|samples|] == samples;
  }

  /** The store after a publish that arrived. */
  function Kept(s: Store, p: RetainedPublish): Store {
    if p.payload == [] then s - {p.topic} else s[p.topic := Entry(p.payload, FloorMs(p.at))]
  }

  function Replica(ps: seq<RetainedPublish>, scope: string): Store {
    FollowedAll(map[], Received(ps, scope), scope)
  }

  lemma ReplicaNext(ps: seq<RetainedPublish>, scope: string)
    requires ps != [] && (scope == "" || ConcreteKey(scope))
    ensures var pre, last := ps[..|ps| - 1], ps[|ps| - 1];
      Replica(ps, scope) ==
      if NoVerbatim(Split(last.topic, '/')) then Kept(Replica(pre, scope), last) else Replica(pre, scope)
  {
    var pre, last := ps[..|ps| - 1], ps[|ps| - 1];
    RetainedFilterSelects(scope, Retained, last.topic);
    assert Announce(last, scope).key == KeyIn(Retained, last.topic, scope);
    FollowedSnoc(Received(pre, scope), Announce(last, scope), scope);
    FollowOne(Replica(pre, scope), last, scope);
  }

  lemma PublishableArrives(topic: string)
    requires ValidTopic(topic)
    ensures NoVerbatim(Split(topic, '/'))
  {
  }

  /** A node that follows the mesh through the store's subscription holds, for every topic,
      exactly the retained message that the publishes left standing; a topic with a reserved
      level, which no client can publish to, never arrives. */
  lemma {:induction false} ReplicaHoldsStanding(ps: seq<RetainedPublish>, scope: string, topic: string)
    requires scope == "" || ConcreteKey(scope)
    ensures Lookup(Replica(ps, scope), topic) == if NoVerbatim(Split(topic, '/')) then Standing(ps, topic) else None
    ensures ValidTopic(topic) ==> Lookup(Replica(ps, scope), topic) == Standing(ps, topic)
  {
    if ps != [] {
      ReplicaHoldsStanding(ps[..|ps| - 1], scope, topic);
      ReplicaNext(ps, scope);
    }
    if ValidTopic(topic) {
      PublishableArrives(topic);
    }
  }
}
