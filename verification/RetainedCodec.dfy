/** Retained values on the wire and on disk: the timestamp envelope and the snapshot file. */
module RetainedCodec {
  import opened Common
  import opened Utf8
  import opened Codec

  /** A retained value and its origin write time, in nanoseconds since the Unix epoch. */
  datatype Entry = Entry(payload: seq<byte>, writtenAt: int)

  type Item = (string, Entry)
  type Store = map<string, Entry>

  // ---------------------------------------------------------------- write times

  const NANOS_PER_MILLI: nat := 1_000_000

  /** Milliseconds since the epoch as 64 bits hold them; a time before the epoch counts as 0. */
  function Millis(t: int): (m: nat)
    ensures m < U64
  {
    (if t < 0 then 0 else t / NANOS_PER_MILLI) % U64
  }

  function FloorMs(t: int): int {
    Millis(t) * NANOS_PER_MILLI
  }

  /** Flooring to the millisecond loses less than one, and only once. */
  lemma FloorMsFacts(t: int)
    ensures FloorMs(FloorMs(t)) == FloorMs(t)
    ensures 0 <= t < U64 * NANOS_PER_MILLI ==> FloorMs(t) <= t < FloorMs(t) + NANOS_PER_MILLI
  {
  }

  function FlooredEntry(e: Entry): Entry {
    e.(writtenAt := FloorMs(e.writtenAt))
  }

  function FlooredItem(i: Item): Item {
    (i.0, FlooredEntry(i.1))
  }

  function Floored(s: Store): Store {
    map t | t in s :: FlooredEntry(s[t])
  }

  function FlooredItems(items: seq<Item>): (r: seq<Item>)
    ensures |r| == |items|
  {
    seq(|items|, i requires 0 <= i < |items| => FlooredItem(items[i]))
  }

  // ---------------------------------------------------------------- lists of items

  /** The store a list of items builds; a later item replaces an earlier one. */
  function ItemMap(items: seq<Item>): Store {
    if items == [] then map[]
    else ItemMap(items[..|items| - 1])[items[|items| - 1].0 := items[|items| - 1].1]
  }

  lemma ItemMapSnoc(items: seq<Item>, i: Item)
    ensures ItemMap(items + [i]) == ItemMap(items)[i.0 := i.1]
  {
    assert (items + [i])[..|items|] == items;
  }

  /** The list holds each item of the store exactly once. */
  predicate Lists(items: seq<Item>, s: Store) {
    ItemMap(items) == s && |items| == |s|
  }

  lemma {:induction false} ItemMapKeys(items: seq<Item>, k: nat)
    requires k < |items|
    ensures items[k].0 in ItemMap(items)
  {
    if k < |items| - 1 {
      ItemMapKeys(items[..|items| - 1], k);
    }
  }

  lemma {:induction false} ItemMapFloored(items: seq<Item>)
    ensures ItemMap(FlooredItems(items)) == Floored(ItemMap(items))
  {
    if items != [] {
      var pre := items[..|items| - 1];
      ItemMapFloored(pre);
      assert FlooredItems(items)[..|items| - 1] == FlooredItems(pre);
    }
  }

  // ---------------------------------------------------------------- the envelope

  function EncodeEnvelope(payload: seq<byte>, writtenAt: int): seq<byte> {
    ToBytes(Millis(writtenAt), 8) + payload
  }

  function DecodeEnvelope(b: seq<byte>): Option<Entry> {
    if |b| < 8 then None else Some(Entry(b[8..], FromBytes(b[..8]) * NANOS_PER_MILLI))
  }

  lemma MillisRoundTrip(t: int)
    ensures FromBytes(ToBytes(Millis(t), 8)) == Millis(t)
  {
    WordSizes();
    FromToBytes(Millis(t), 8);
  }

  lemma EnvelopeRoundTrip(payload: seq<byte>, writtenAt: int)
    ensures DecodeEnvelope(EncodeEnvelope(payload, writtenAt)) == Some(Entry(payload, FloorMs(writtenAt)))
  {
    MillisRoundTrip(writtenAt);
    var b := EncodeEnvelope(payload, writtenAt);
    assert b[..8] == ToBytes(Millis(writtenAt), 8) && b[8..] == payload;
  }

  // ---------------------------------------------------------------- the snapshot file

  // "ENTMOOT-RET2\n"
  const SNAPSHOT_MAGIC: seq<byte> := [69, 78, 84, 77, 79, 79, 84, 45, 82, 69, 84, 50, 10]

  /** A chunk with its length cut to 32 bits, unchecked. */
  function RawChunk(chunk: seq<byte>): seq<byte> {
    ToBytes(|chunk| % U32, 4) + chunk
  }

  function EncodeItem(i: Item): seq<byte> {
    RawChunk(Encode(i.0)) + RawChunk(i.1.payload) + ToBytes(Millis(i.1.writtenAt), 8)
  }

  function EncodeItems(items: seq<Item>): seq<byte> {
    if items == [] then [] else EncodeItems(items[..|items| - 1]) + EncodeItem(items[|items| - 1])
  }

  function SnapshotImage(items: seq<Item>): seq<byte> {
    SNAPSHOT_MAGIC + EncodeItems(items)
  }

  predicate ItemFits(i: Item) {
    ShortText(i.0) && |i.1.payload| < U32
  }

  predicate Fits(s: Store) {
    forall t :: t in s ==> ItemFits((t, s[t]))
  }

  function DecodeItem(rest: seq<byte>): (r: Result<(Item, seq<byte>), FileError>)
    ensures r.Ok? ==> |r.value.1| < |rest| && ItemFits(r.value.0) && FlooredItem(r.value.0) == r.value.0
    ensures r.Err? ==> r.error in {Truncated, BadUtf8}
  {
    match ReadChunk(rest)
    case Err(e) => Err(e)
    case Ok((topicBytes, afterTopic)) =>
      match ReadChunk(afterTopic)
      case Err(e) => Err(e)
      case Ok((payload, tail)) =>
        if |tail| < 8 then Err(Truncated)
        else
          match Decode(topicBytes)
          case None => Err(BadUtf8)
          case Some(topic) =>
            EncodeDecode(topicBytes);
            DecodedTimeIsFloored(tail[..8]);
            Ok(((topic, Entry(payload, FromBytes(tail[..8]) * NANOS_PER_MILLI)), tail[8..]))
  }

  lemma DecodedTimeIsFloored(b: seq<byte>)
    requires |b| == 8
    ensures FloorMs(FromBytes(b) * NANOS_PER_MILLI) == FromBytes(b) * NANOS_PER_MILLI
  {
    WordSizes();
    FromBytesBound(b);
  }

  /** The store after reading a snapshot body into it: items go in as they are read, until the
      input ends or cannot be read. */
  function Absorb(s: Store, rest: seq<byte>): Store
    decreases |rest|
  {
    if rest == [] then s
    else
      match DecodeItem(rest)
      case Err(_) => s
      case Ok((item, tail)) => Absorb(s[item.0 := item.1], tail)
  }

  function LoadInto(s: Store, file: Option<seq<byte>>): Store {
    if file.None? || !(SNAPSHOT_MAGIC <= file.value) then s else Absorb(s, file.value[|SNAPSHOT_MAGIC|..])
  }

  /** The items read from a snapshot body, and what stopped the reading before its end. */
  datatype Readout = Readout(items: seq<Item>, stopped: Option<FileError>)

  function ReadItems(rest: seq<byte>): Readout
    decreases |rest|
  {
    if rest == [] then Readout([], None)
    else
      match DecodeItem(rest)
      case Err(e) => Readout([], Some(e))
      case Ok((item, tail)) => var r := ReadItems(tail); Readout([item] + r.items, r.stopped)
  }

  lemma {:induction false} ItemMapCons(item: Item, items: seq<Item>)
    ensures ItemMap([item] + items) == map[item.0 := item.1] + ItemMap(items)
  {
    if items == [] {
      assert [item][..0] == [];
    } else {
      var pre := items[..|items| - 1];
      ItemMapCons(item, pre);
      assert ([item] + items)[..|items|] == [item] + pre;
    }
  }

  lemma MergeOne(s: Store, k: string, e: Entry, later: Store)
    ensures s[k := e] + later == s + (map[k := e] + later)
  {
  }

  /** Whatever stops the reading, the store takes exactly the items before that. */
  lemma {:induction false} AbsorbIsMerge(s: Store, rest: seq<byte>)
    ensures Absorb(s, rest) == s + ItemMap(ReadItems(rest).items)
    decreases |rest|
  {
    if rest == [] || DecodeItem(rest).Err? {
      assert s + map[] == s;
    } else {
      var (item, tail) := DecodeItem(rest).value;
      AbsorbIsMerge(s[item.0 := item.1], tail);
      ItemMapCons(item, ReadItems(tail).items);
      MergeOne(s, item.0, item.1, ItemMap(ReadItems(tail).items));
    }
  }

  /** What a node starts with, given its snapshot file. */
  function Restore(file: Option<seq<byte>>): Store {
    LoadInto(map[], file)
  }

  /** Whatever the file holds, what is read from it fits the format and has whole
      milliseconds. */
  lemma {:induction false} AbsorbIsStorable(s: Store, rest: seq<byte>)
    requires Fits(s) && Floored(s) == s
    ensures Fits(Absorb(s, rest)) && Floored(Absorb(s, rest)) == Absorb(s, rest)
    decreases |rest|
  {
    if rest != [] && DecodeItem(rest).Ok? {
      var (item, tail) := DecodeItem(rest).value;
      var s' := s[item.0 := item.1];
      assert forall t :: t in s' ==> FlooredEntry(s'[t]) == s'[t] by {
        assert forall t :: t in s ==> Floored(s)[t] == s[t];
      }
      AbsorbIsStorable(s', tail);
    }
  }

  lemma RestoreIsStorable(file: Option<seq<byte>>)
    ensures Fits(Restore(file)) && Floored(Restore(file)) == Restore(file)
  {
    AbsorbIsStorable(map[], if file.Some? && SNAPSHOT_MAGIC <= file.value then file.value[|SNAPSHOT_MAGIC|..] else []);
  }

  lemma FourParts(a: seq<byte>, b: seq<byte>, c: seq<byte>, d: seq<byte>)
    ensures a + b + c + d == a + (b + (c + d))
  {
  }

  lemma DecodeParts(topic: string, payload: seq<byte>, m: nat, rest: seq<byte>)
    requires ShortText(topic) && |payload| < U32 && m < U64
    ensures var whole := WriteChunk(Encode(topic)).value + (WriteChunk(payload).value + (ToBytes(m, 8) + rest));
      DecodeItem(whole) == Ok(((topic, Entry(payload, m * NANOS_PER_MILLI)), rest))
  {
    var after := ToBytes(m, 8) + rest;
    ReadWritten(Encode(topic), WriteChunk(payload).value + after);
    ReadWritten(payload, after);
    DecodeEncode(topic);
    WordSizes();
    FromToBytes(m, 8);
    assert after[..8] == ToBytes(m, 8) && after[8..] == rest;
  }

  lemma ItemRoundTrip(i: Item, rest: seq<byte>)
    requires ItemFits(i)
    ensures DecodeItem(EncodeItem(i) + rest) == Ok((FlooredItem(i), rest))
  {
    DecodeParts(i.0, i.1.payload, Millis(i.1.writtenAt), rest);
    EncodedParts(i, rest);
  }

  lemma EncodedParts(i: Item, rest: seq<byte>)
    requires ItemFits(i)
    ensures EncodeItem(i) + rest
      == WriteChunk(Encode(i.0)).value + (WriteChunk(i.1.payload).value + (ToBytes(Millis(i.1.writtenAt), 8) + rest))
  {
    var m := Millis(i.1.writtenAt);
    assert RawChunk(Encode(i.0)) == WriteChunk(Encode(i.0)).value;
    assert RawChunk(i.1.payload) == WriteChunk(i.1.payload).value;
    FourParts(WriteChunk(Encode(i.0)).value, WriteChunk(i.1.payload).value, ToBytes(m, 8), rest);
  }

  lemma AbsorbOne(s: Store, i: Item, rest: seq<byte>)
    requires ItemFits(i)
    ensures Absorb(s, EncodeItem(i) + rest) == Absorb(s[i.0 := FlooredEntry(i.1)], rest)
  {
    ItemRoundTrip(i, rest);
    assert |EncodeItem(i)| >= 8;
  }

  lemma FlooredSnoc(s: Store, items: seq<Item>)
    requires items != []
    ensures var pre, last := items[..|items| - 1], items[|items| - 1];
      (s + Floored(ItemMap(pre)))[last.0 := FlooredEntry(last.1)] == s + Floored(ItemMap(items))
  {
  }

  lemma {:induction false} AbsorbItems(s: Store, items: seq<Item>, rest: seq<byte>)
    requires forall i :: i in items ==> ItemFits(i)
    ensures Absorb(s, EncodeItems(items) + rest) == Absorb(s + Floored(ItemMap(items)), rest)
    decreases |items|
  {
    if items == [] {
      assert EncodeItems(items) + rest == rest && s + Floored(map[]) == s;
    } else {
      var pre, last := items[..|items| - 1], items[|items| - 1];
      AbsorbItems(s, pre, EncodeItem(last) + rest);
      assert EncodeItems(pre) + EncodeItem(last) + rest == EncodeItems(pre) + (EncodeItem(last) + rest);
      AbsorbOne(s + Floored(ItemMap(pre)), last, rest);
      FlooredSnoc(s, items);
    }
  }

  /** Reading a snapshot back yields the store, to the millisecond, exactly when every topic
      and payload is shorter than 2^32 bytes: the writer does not check, and no file can hold
      a longer chunk. */
  lemma SnapshotRoundTripIff(items: seq<Item>, s: Store)
    requires Lists(items, s)
    ensures Restore(Some(SnapshotImage(items))) == Floored(s) <==> Fits(s)
  {
    var image := SnapshotImage(items);
    assert image[|SNAPSHOT_MAGIC|..] == EncodeItems(items);
    if Fits(s) {
      ListedItemsFit(items, s);
      AbsorbItems(map[], items, []);
      assert EncodeItems(items) + [] == EncodeItems(items);
      assert map[] + Floored(s) == Floored(s);
    } else {
      RestoreIsStorable(Some(image));
      var t :| t in s && !ItemFits((t, s[t]));
      assert t in Floored(s) && !ItemFits((t, Floored(s)[t]));
    }
  }

  /** In a list without repetition, every item is in the store it lists. */
  lemma ListedItemsFit(items: seq<Item>, s: Store)
    requires Lists(items, s) && Fits(s)
    ensures forall i :: i in items ==> ItemFits(i)
  {
    forall k | 0 <= k < |items|
      ensures ItemFits(items[k])
    {
      ListedItemsInStore(items, s, k);
    }
  }

  lemma {:induction false} ListedItemsInStore(items: seq<Item>, s: Store, k: nat)
    requires Lists(items, s) && k < |items|
    ensures items[k].0 in s && s[items[k].0] == items[k].1
  {
    var pre, last := items[..|items| - 1], items[|items| - 1];
    ItemMapSize(pre);
    assert s == ItemMap(pre)[last.0 := last.1];
    assert s.Keys == ItemMap(pre).Keys + {last.0};
    if k < |pre| {
      ListedItemsInStore(pre, ItemMap(pre), k);
    }
  }

  lemma {:induction false} ItemMapSize(items: seq<Item>)
    ensures |ItemMap(items)| <= |items|
  {
    if items != [] {
      var pre, last := items[..|items| - 1], items[|items| - 1];
      ItemMapSize(pre);
      assert ItemMap(items).Keys == ItemMap(pre).Keys + {last.0};
    }
  }
}
