/** The length-prefixed state files: big-endian integers, chunks, the offline queue file,
    the subscription file, and the file name of a client. */
module Codec {
  import opened Common
  import opened Utf8

  datatype FileError = NotFound | BadMagic | Truncated | BadUtf8 | BadQos(b: byte) | TooLarge

  // ---------------------------------------------------------------- big-endian integers

  function Pow256(k: nat): nat {
    if k == 0 then 1 else 256 * Pow256(k - 1)
  }

  /** The low `k` bytes of `n`, most significant first. */
  function ToBytes(n: nat, k: nat): (b: seq<byte>)
    ensures |b| == k
  {
    if k == 0 then [] else ToBytes(n / 256, k - 1) + [n % 256]
  }

  function FromBytes(b: seq<byte>): nat {
    if b == [] then 0 else FromBytes(b[..|b| - 1]) * 256 + b[|b| - 1] as int
  }

  /** Big-endian: the first byte is the most significant one. */
  lemma {:induction false} ToBytesAt(n: nat, k: nat, i: nat)
    requires i < k
    ensures Pow256(k - 1 - i) > 0 && ToBytes(n, k)[i] == n / Pow256(k - 1 - i) % 256
  {
    PowPositive(k - 1 - i);
    if i < k - 1 {
      PowPositive(k - 2 - i);
      ToBytesAt(n / 256, k - 1, i);
      DividedTwice(n, Pow256(k - 2 - i));
    }
  }

  lemma {:induction false} PowPositive(k: nat)
    ensures Pow256(k) > 0
  {
    if k > 0 {
      PowPositive(k - 1);
    }
  }

  lemma DividedTwice(n: nat, b: nat)
    requires b > 0
    ensures n / 256 / b == n / (256 * b)
  {
    var x := n / 256;
    var q, r := x / b, x % b;
    Quotient(x, b);
    Associates(b, q);
    QuotientUnique(n, 256 * b, q, 256 * r + n % 256);
  }

  lemma Quotient(x: nat, b: nat)
    requires b > 0
    ensures x == b * (x / b) + x % b && x % b < b
  {
  }

  lemma Associates(b: nat, q: nat)
    ensures 256 * (b * q) == q * (256 * b)
  {
  }

  lemma QuotientUnique(n: nat, d: nat, q: nat, r: nat)
    requires d > 0 && r < d && n == q * d + r
    ensures n / d == q
  {
    var p := n / d;
    Quotient(n, d);
    Grows(d, p + 1, q);
    Grows(d, q + 1, p);
  }

  lemma Grows(d: nat, a: nat, b: nat)
    ensures a <= b ==> d * a <= d * b
  {
  }

  lemma {:induction false} FromToBytes(n: nat, k: nat)
    requires n < Pow256(k)
    ensures FromBytes(ToBytes(n, k)) == n
  {
    if k > 0 {
      FromToBytes(n / 256, k - 1);
      assert ToBytes(n, k)[..k - 1] == ToBytes(n / 256, k - 1);
    }
  }

  lemma {:induction false} FromBytesBound(b: seq<byte>)
    ensures FromBytes(b) < Pow256(|b|)
  {
    if b != [] {
      FromBytesBound(b[..|b| - 1]);
    }
  }

  const U32: nat := 0x1_0000_0000
  const U64: nat := 0x1_0000_0000_0000_0000

  lemma WordSizes()
    ensures Pow256(4) == U32 && Pow256(8) == U64
  {
    assert Pow256(2) == 0x1_0000;
    assert Pow256(4) == U32;
    assert Pow256(6) == 0x1_0000_0000_0000;
  }

  // ---------------------------------------------------------------- chunks

  function WriteChunk(chunk: seq<byte>): Result<seq<byte>, FileError> {
    if |chunk| >= U32 then Err(TooLarge) else Ok(ToBytes(|chunk|, 4) + chunk)
  }

  /** The chunk at the start of `rest`, and what follows it. */
  function ReadChunk(rest: seq<byte>): (r: Result<(seq<byte>, seq<byte>), FileError>)
    ensures r.Ok? ==> |r.value.1| < |rest| && |r.value.0| < U32
  {
    if |rest| < 4 then Err(Truncated)
    else
      var len := FromBytes(rest[..4]);
      if |rest| - 4 < len then Err(Truncated)
      else
        FromBytesBound(rest[..4]);
        WordSizes();
        Ok((rest[4..4 + len], rest[4 + len..]))
  }

  lemma ReadWritten(chunk: seq<byte>, rest: seq<byte>)
    requires |chunk| < U32
    ensures WriteChunk(chunk).Ok?
    ensures ReadChunk(WriteChunk(chunk).value + rest) == Ok((chunk, rest))
  {
    WordSizes();
    FromToBytes(|chunk|, 4);
    var all := WriteChunk(chunk).value + rest;
    assert all[..4] == ToBytes(|chunk|, 4);
    assert all[4..4 + |chunk|] == chunk && all[4 + |chunk|..] == rest;
  }

  /** A chunk that is cut short is never read. */
  lemma CutChunkRejected(chunk: seq<byte>, cut: seq<byte>)
    requires |chunk| < U32 && cut < WriteChunk(chunk).value
    ensures ReadChunk(cut) == Err(Truncated)
  {
    if |cut| >= 4 {
      WordSizes();
      FromToBytes(|chunk|, 4);
      assert cut[..4] == WriteChunk(chunk).value[..4] == ToBytes(|chunk|, 4);
    }
  }

  // ---------------------------------------------------------------- the offline queue file

  // "ENTMOOT-Q1\n" and "ENTMOOT-S1\n"
  const QUEUE_MAGIC: seq<byte> := [69, 78, 84, 77, 79, 79, 84, 45, 81, 49, 10]
  const SUBS_MAGIC: seq<byte> := [69, 78, 84, 77, 79, 79, 84, 45, 83, 49, 10]

  /** Both chunks of the entry fit a 32-bit length. */
  predicate Encodable(m: Msg) {
    |Encode(m.topic)| < U32 && |m.payload| < U32
  }

  predicate AllEncodable(q: seq<Msg>) {
    forall m :: m in q ==> Encodable(m)
  }

  function EncodeEntry(m: Msg): (r: Result<seq<byte>, FileError>)
    ensures r.Ok? <==> Encodable(m)
  {
    match WriteChunk(Encode(m.topic))
    case Err(e) => Err(e)
    case Ok(topic) =>
      match WriteChunk(m.payload)
      case Err(e) => Err(e)
      case Ok(payload) => Ok(topic + payload)
  }

  function EncodeEntries(q: seq<Msg>): (r: Result<seq<byte>, FileError>)
    ensures r.Ok? <==> AllEncodable(q)
  {
    if q == [] then Ok([])
    else
      assert q[0] in q && q == [q[0]] + q[1..];
      match EncodeEntry(q[0])
      case Err(e) => Err(e)
      case Ok(first) =>
        match EncodeEntries(q[1..])
        case Err(e) => Err(e)
        case Ok(rest) => Ok(first + rest)
  }

  /** The entries of `q` appended to a buffer. */
  function AppendEntries(out: seq<byte>, q: seq<Msg>): Result<seq<byte>, FileError>
    decreases q
  {
    if q == [] then Ok(out)
    else
      match EncodeEntry(q[0])
      case Err(e) => Err(e)
      case Ok(first) => AppendEntries(out + first, q[1..])
  }

  lemma {:induction false} AppendIsEncode(out: seq<byte>, q: seq<Msg>)
    ensures AppendEntries(out, q) ==
      match EncodeEntries(q) case Err(e) => Err(e) case Ok(body) => Ok(out + body)
    decreases q
  {
    if q == [] {
      assert out + [] == out;
    } else if EncodeEntry(q[0]).Ok? {
      var first := EncodeEntry(q[0]).value;
      AppendIsEncode(out + first, q[1..]);
      if EncodeEntries(q[1..]).Ok? {
        assert out + first + EncodeEntries(q[1..]).value == out + (first + EncodeEntries(q[1..]).value);
      }
    }
  }

  function EncodeQueue(q: seq<Msg>): (r: Result<seq<byte>, FileError>)
    ensures r.Ok? <==> AllEncodable(q)
  {
    match EncodeEntries(q)
    case Err(e) => Err(e)
    case Ok(body) => Ok(QUEUE_MAGIC + body)
  }

  /** The file image as it is built: every entry is appended to the buffer in turn. */
  method SaveQueue(q: seq<Msg>) returns (r: Result<seq<byte>, FileError>)
    ensures r == EncodeQueue(q)
  {
    var out := QUEUE_MAGIC;
    var i := 0;
    AppendIsEncode(out, q);
    assert q[0..] == q;
    while i < |q|
      invariant 0 <= i <= |q|
      invariant AppendEntries(out, q[i..]) == EncodeQueue(q)
    {
      assert q[i..][1..] == q[i + 1..];
      var entry := EncodeEntry(q[i]);
      if entry.Err? {
        return Err(entry.error);
      }
      out := out + entry.value;
      i := i + 1;
    }
    r := Ok(out);
  }

  /** One queue entry at the start of `rest`, and what follows it. */
  function DecodeEntry(rest: seq<byte>): (r: Result<(Msg, seq<byte>), FileError>)
    ensures r.Ok? ==> |r.value.1| < |rest| && Encodable(r.value.0)
  {
    match ReadChunk(rest)
    case Err(e) => Err(e)
    case Ok((topicBytes, afterTopic)) =>
      match Decode(topicBytes)
      case None => Err(BadUtf8)
      case Some(topic) =>
        match ReadChunk(afterTopic)
        case Err(e) => Err(e)
        case Ok((payload, tail)) =>
          EncodeDecode(topicBytes);
          Ok((Msg(topic, payload), tail))
  }

  function DecodeEntries(rest: seq<byte>): (r: Result<seq<Msg>, FileError>)
    ensures r.Ok? ==> AllEncodable(r.value)
    decreases |rest|
  {
    if rest == [] then Ok([])
    else
      match DecodeEntry(rest)
      case Err(e) => Err(e)
      case Ok((m, tail)) =>
        match DecodeEntries(tail)
        case Err(e) => Err(e)
        case Ok(ms) => Ok([m] + ms)
  }

  /** Decoding on top of a queue that already holds the last entries read. */
  function ContinueEntries(queue: seq<Msg>, rest: seq<byte>, maxQueue: nat): Result<seq<Msg>, FileError>
    decreases |rest|
  {
    if rest == [] then Ok(queue)
    else
      match DecodeEntry(rest)
      case Err(e) => Err(e)
      case Ok((m, tail)) => ContinueEntries(PushBounded(queue, m, maxQueue), tail, maxQueue)
  }

  lemma SameLastN(a: seq<Msg>, b: seq<Msg>, n: nat)
    requires |a| == |b| && forall i :: 0 <= i < |a| ==> a[i] == b[i]
    ensures LastN(a, n) == LastN(b, n)
  {
    assert a == b;
  }

  lemma {:induction false} ContinueIsDecode(seen: seq<Msg>, rest: seq<byte>, maxQueue: nat)
    requires maxQueue > 0
    ensures ContinueEntries(LastN(seen, maxQueue), rest, maxQueue) ==
      match DecodeEntries(rest) case Err(e) => Err(e) case Ok(ms) => Ok(LastN(seen + ms, maxQueue))
    decreases |rest|
  {
    if rest == [] {
      assert seen + [] == seen;
    } else if DecodeEntry(rest).Ok? {
      var (m, tail) := DecodeEntry(rest).value;
      PushBoundedIsLastN(seen, m, maxQueue);
      ContinueIsDecode(seen + [m], tail, maxQueue);
      var more := DecodeEntries(tail);
      if more.Ok? {
        assert DecodeEntries(rest) == Ok([m] + more.value);
        SameLastN(seen + [m] + more.value, seen + ([m] + more.value), maxQueue);
      }
    }
  }

  /** What a node finds in a queue file: the last `maxQueue` of its entries. */
  function DecodeQueue(file: Option<seq<byte>>, maxQueue: nat): Result<seq<Msg>, FileError> {
    if maxQueue == 0 then Ok([])
    else if file.None? then Err(NotFound)
    else if !(QUEUE_MAGIC <= file.value) then Err(BadMagic)
    else
      match DecodeEntries(file.value[|QUEUE_MAGIC|..])
      case Err(e) => Err(e)
      case Ok(ms) => Ok(LastN(ms, maxQueue))
  }

  /** The file as it is read: a bounded queue is filled while the input lasts. */
  method LoadQueue(file: Option<seq<byte>>, maxQueue: nat) returns (r: Result<seq<Msg>, FileError>)
    ensures r == DecodeQueue(file, maxQueue)
  {
    if maxQueue == 0 {
      return Ok([]);
    }
    if file.None? {
      return Err(NotFound);
    }
    if !(QUEUE_MAGIC <= file.value) {
      return Err(BadMagic);
    }
    var rest := file.value[|QUEUE_MAGIC|..];
    var queue: seq<Msg> := [];
    ContinueIsDecode([], rest, maxQueue);
    assert forall ms: seq<Msg> :: [] + ms == ms;
    while rest != []
      invariant ContinueEntries(queue, rest, maxQueue) == DecodeQueue(file, maxQueue)
      decreases |rest|
    {
      var entry := DecodeEntry(rest);
      if entry.Err? {
        return Err(entry.error);
      }
      queue := PushBounded(queue, entry.value.0, maxQueue);
      rest := entry.value.1;
    }
    r := Ok(queue);
  }

  lemma EntryParts(topic: string, payload: seq<byte>, rest: seq<byte>)
    requires |Encode(topic)| < U32 && |payload| < U32
    ensures DecodeEntry(WriteChunk(Encode(topic)).value + (WriteChunk(payload).value + rest))
         == Ok((Msg(topic, payload), rest))
  {
    ReadWritten(Encode(topic), WriteChunk(payload).value + rest);
    ReadWritten(payload, rest);
    DecodeEncode(topic);
  }

  lemma EntryRoundTrip(m: Msg, rest: seq<byte>)
    requires Encodable(m)
    ensures EncodeEntry(m).Ok?
    ensures DecodeEntry(EncodeEntry(m).value + rest) == Ok((m, rest))
  {
    EntryParts(m.topic, m.payload, rest);
    var topic, payload := WriteChunk(Encode(m.topic)).value, WriteChunk(m.payload).value;
    assert topic + payload + rest == topic + (payload + rest);
  }

  lemma {:induction false} EntriesRoundTrip(q: seq<Msg>)
    requires AllEncodable(q)
    ensures DecodeEntries(EncodeEntries(q).value) == Ok(q)
  {
    if q != [] {
      var first, rest := EncodeEntry(q[0]).value, EncodeEntries(q[1..]).value;
      assert q == [q[0]] + q[1..];
      EntryRoundTrip(q[0], rest);
      EntriesRoundTrip(q[1..]);
      assert first + rest != [];
    }
  }

  /** A saved queue is read back, up to the bound. */
  lemma QueueRoundTrip(q: seq<Msg>, maxQueue: nat)
    requires AllEncodable(q)
    ensures DecodeQueue(Some(EncodeQueue(q).value), maxQueue) == Ok(LastN(q, maxQueue))
  {
    EntriesRoundTrip(q);
    var body := EncodeEntries(q).value;
    assert (QUEUE_MAGIC + body)[|QUEUE_MAGIC|..] == body;
  }

  lemma CutEntryRejected(m: Msg, cut: seq<byte>)
    requires Encodable(m) && EncodeEntry(m).Ok? && cut < EncodeEntry(m).value && cut != []
    ensures DecodeEntry(cut).Err?
  {
    var topic, payload := WriteChunk(Encode(m.topic)).value, WriteChunk(m.payload).value;
    var whole := topic + payload;
    assert cut == whole[..|cut|];
    if |cut| < |topic| {
      assert cut == topic[..|cut|];
      CutChunkRejected(Encode(m.topic), cut);
    } else {
      var rest := cut[|topic|..];
      assert cut == topic + rest && rest == payload[..|rest|];
      ReadWritten(Encode(m.topic), rest);
      CutChunkRejected(m.payload, rest);
    }
  }

  lemma {:induction false} CutEntries(q: seq<Msg>, cut: seq<byte>)
    requires AllEncodable(q) && cut <= EncodeEntries(q).value
    ensures var r := DecodeEntries(cut); r.Ok? ==> r.value <= q
  {
    if q != [] && cut != [] {
      var first, rest := EncodeEntry(q[0]).value, EncodeEntries(q[1..]).value;
      var whole := first + rest;
      assert q == [q[0]] + q[1..] && cut == whole[..|cut|];
      if |cut| < |first| {
        assert cut == first[..|cut|];
        CutEntryRejected(q[0], cut);
      } else {
        var tail := cut[|first|..];
        assert cut == first + tail && tail == rest[..|tail|];
        EntryRoundTrip(q[0], tail);
        CutEntries(q[1..], tail);
      }
    }
  }

  lemma CutBody(magic: seq<byte>, body: seq<byte>, cut: seq<byte>)
    requires magic <= cut <= magic + body
    ensures cut[|magic|..] <= body
  {
    assert cut == (magic + body)[..|cut|];
    assert cut[|magic|..] == body[..|cut| - |magic|];
  }

  /** A truncated queue file never yields a message that was not queued, nor one out of order:
      it is rejected, or it holds an initial stretch of the queue. */
  lemma TruncatedQueueFile(q: seq<Msg>, cut: seq<byte>, maxQueue: nat)
    requires AllEncodable(q) && cut < EncodeQueue(q).value && maxQueue > 0
    ensures var r := DecodeQueue(Some(cut), maxQueue);
      r.Ok? ==> exists q0 :: q0 <= q && r.value == LastN(q0, maxQueue)
  {
    if QUEUE_MAGIC <= cut {
      CutBody(QUEUE_MAGIC, EncodeEntries(q).value, cut);
      CutEntries(q, cut[|QUEUE_MAGIC|..]);
    }
  }

  // ---------------------------------------------------------------- the subscription file

  type SubEntry = (string, QoS)

  function QosByte(q: QoS): byte {
    match q
    case AtMostOnce => 0
    case AtLeastOnce => 1
    case ExactlyOnce => 2
  }

  function QosOf(b: byte): Result<QoS, FileError> {
    if b == 0 then Ok(AtMostOnce) else if b == 1 then Ok(AtLeastOnce) else if b == 2 then Ok(ExactlyOnce)
    else Err(BadQos(b))
  }

  predicate ShortText(s: string) {
    |Encode(s)| < U32
  }

  function EncodeSub(e: SubEntry): Result<seq<byte>, FileError> {
    match WriteChunk(Encode(e.0))
    case Err(err) => Err(err)
    case Ok(filter) => Ok(filter + [QosByte(e.1)])
  }

  function EncodeSubEntries(entries: seq<SubEntry>): (r: Result<seq<byte>, FileError>)
    ensures r.Ok? <==> forall e :: e in entries ==> ShortText(e.0)
  {
    if entries == [] then Ok([])
    else
      assert entries[0] in entries && entries == [entries[0]] + entries[1..];
      match EncodeSub(entries[0])
      case Err(e) => Err(e)
      case Ok(first) =>
        match EncodeSubEntries(entries[1..])
        case Err(e) => Err(e)
        case Ok(rest) => Ok(first + rest)
  }

  /** The image of a subscription file that has entries. */
  function EncodeSubs(client: string, identity: string, entries: seq<SubEntry>): Result<seq<byte>, FileError> {
    match WriteChunk(Encode(client))
    case Err(e) => Err(e)
    case Ok(c) =>
      match WriteChunk(Encode(identity))
      case Err(e) => Err(e)
      case Ok(i) =>
        match EncodeSubEntries(entries)
        case Err(e) => Err(e)
        case Ok(body) => Ok(SUBS_MAGIC + c + i + body)
  }

  function ReadText(rest: seq<byte>): (r: Result<(string, seq<byte>), FileError>)
    ensures r.Ok? ==> |r.value.1| < |rest| && ShortText(r.value.0)
  {
    match ReadChunk(rest)
    case Err(e) => Err(e)
    case Ok((bytes, tail)) =>
      match Decode(bytes)
      case None => Err(BadUtf8)
      case Some(s) =>
        EncodeDecode(bytes);
        Ok((s, tail))
  }

  function DecodeSub(rest: seq<byte>): (r: Result<(SubEntry, seq<byte>), FileError>)
    ensures r.Ok? ==> |r.value.1| < |rest| && ShortText(r.value.0.0)
  {
    match ReadText(rest)
    case Err(e) => Err(e)
    case Ok((filter, tail)) =>
      if tail == [] then Err(Truncated)
      else
        match QosOf(tail[0])
        case Err(e) => Err(e)
        case Ok(qos) => Ok(((filter, qos), tail[1..]))
  }

  function DecodeSubEntries(rest: seq<byte>): (r: Result<seq<SubEntry>, FileError>)
    ensures r.Ok? ==> forall e :: e in r.value ==> ShortText(e.0)
    decreases |rest|
  {
    if rest == [] then Ok([])
    else
      match DecodeSub(rest)
      case Err(e) => Err(e)
      case Ok((entry, tail)) =>
        match DecodeSubEntries(tail)
        case Err(e) => Err(e)
        case Ok(es) => Ok([entry] + es)
  }

  datatype LoadedSubs = LoadedSubs(client: string, identity: string, entries: seq<SubEntry>)

  function DecodeSubs(file: Option<seq<byte>>): (r: Result<LoadedSubs, FileError>)
    ensures r.Ok? ==>
      ShortText(r.value.client) && ShortText(r.value.identity) && forall e :: e in r.value.entries ==> ShortText(e.0)
  {
    if file.None? then Err(NotFound)
    else if !(SUBS_MAGIC <= file.value) then Err(BadMagic)
    else
      match ReadText(file.value[|SUBS_MAGIC|..])
      case Err(e) => Err(e)
      case Ok((client, afterClient)) =>
        match ReadText(afterClient)
        case Err(e) => Err(e)
        case Ok((identity, body)) =>
          match DecodeSubEntries(body)
          case Err(e) => Err(e)
          case Ok(entries) => Ok(LoadedSubs(client, identity, entries))
  }

  /** The entries appended to a buffer. */
  function AppendSubs(out: seq<byte>, entries: seq<SubEntry>): Result<seq<byte>, FileError>
    decreases entries
  {
    if entries == [] then Ok(out)
    else
      match EncodeSub(entries[0])
      case Err(e) => Err(e)
      case Ok(first) => AppendSubs(out + first, entries[1..])
  }

  lemma {:induction false} AppendSubsIsEncode(out: seq<byte>, entries: seq<SubEntry>)
    ensures AppendSubs(out, entries) ==
      match EncodeSubEntries(entries) case Err(e) => Err(e) case Ok(body) => Ok(out + body)
    decreases entries
  {
    if entries == [] {
      assert out + [] == out;
    } else if EncodeSub(entries[0]).Ok? {
      var first := EncodeSub(entries[0]).value;
      AppendSubsIsEncode(out + first, entries[1..]);
      if EncodeSubEntries(entries[1..]).Ok? {
        assert out + first + EncodeSubEntries(entries[1..]).value
            == out + (first + EncodeSubEntries(entries[1..]).value);
      }
    }
  }

  /** The subscription file as it is built. */
  method SaveSubs(client: string, identity: string, entries: seq<SubEntry>) returns (r: Result<seq<byte>, FileError>)
    ensures r == EncodeSubs(client, identity, entries)
  {
    var c, i := WriteChunk(Encode(client)), WriteChunk(Encode(identity));
    if c.Err? {
      return Err(c.error);
    }
    if i.Err? {
      return Err(i.error);
    }
    var out := SUBS_MAGIC + c.value + i.value;
    AppendSubsIsEncode(out, entries);
    var k := 0;
    assert entries[0..] == entries;
    while k < |entries|
      invariant 0 <= k <= |entries|
      invariant AppendSubs(out, entries[k..]) == EncodeSubs(client, identity, entries)
    {
      assert entries[k..][1..] == entries[k + 1..];
      var entry := EncodeSub(entries[k]);
      if entry.Err? {
        return Err(entry.error);
      }
      out := out + entry.value;
      k := k + 1;
    }
    r := Ok(out);
  }

  /** Decoding on top of the entries already read. */
  function ContinueSubs(entries: seq<SubEntry>, rest: seq<byte>): Result<seq<SubEntry>, FileError>
    decreases |rest|
  {
    if rest == [] then Ok(entries)
    else
      match DecodeSub(rest)
      case Err(e) => Err(e)
      case Ok((entry, tail)) => ContinueSubs(entries + [entry], tail)
  }

  lemma {:induction false} ContinueSubsIsDecode(entries: seq<SubEntry>, rest: seq<byte>)
    ensures ContinueSubs(entries, rest) ==
      match DecodeSubEntries(rest) case Err(e) => Err(e) case Ok(es) => Ok(entries + es)
    decreases |rest|
  {
    if rest == [] {
      assert entries + [] == entries;
    } else if DecodeSub(rest).Ok? {
      var (entry, tail) := DecodeSub(rest).value;
      ContinueSubsIsDecode(entries + [entry], tail);
      if DecodeSubEntries(tail).Ok? {
        assert entries + [entry] + DecodeSubEntries(tail).value == entries + ([entry] + DecodeSubEntries(tail).value);
      }
    }
  }

  /** The subscription file as it is read. */
  method LoadSubs(file: Option<seq<byte>>) returns (r: Result<LoadedSubs, FileError>)
    ensures r == DecodeSubs(file)
  {
    if file.None? {
      return Err(NotFound);
    }
    if !(SUBS_MAGIC <= file.value) {
      return Err(BadMagic);
    }
    var client := ReadText(file.value[|SUBS_MAGIC|..]);
    if client.Err? {
      return Err(client.error);
    }
    var identity := ReadText(client.value.1);
    if identity.Err? {
      return Err(identity.error);
    }
    var rest := identity.value.1;
    var entries: seq<SubEntry> := [];
    ghost var all := DecodeSubEntries(rest);
    ContinueSubsIsDecode(entries, rest);
    assert all.Ok? ==> entries + all.value == all.value;
    while rest != []
      invariant ContinueSubs(entries, rest) == all
      decreases |rest|
    {
      var entry := DecodeSub(rest);
      if entry.Err? {
        return Err(entry.error);
      }
      entries := entries + [entry.value.0];
      rest := entry.value.1;
    }
    r := Ok(LoadedSubs(client.value.0, identity.value.0, entries));
  }

  lemma TextRoundTrip(s: string, rest: seq<byte>)
    requires ShortText(s)
    ensures WriteChunk(Encode(s)).Ok?
    ensures ReadText(WriteChunk(Encode(s)).value + rest) == Ok((s, rest))
  {
    ReadWritten(Encode(s), rest);
    DecodeEncode(s);
  }

  lemma SubParts(filter: string, q: QoS, rest: seq<byte>)
    requires ShortText(filter)
    ensures DecodeSub(WriteChunk(Encode(filter)).value + ([QosByte(q)] + rest)) == Ok(((filter, q), rest))
  {
    var after := [QosByte(q)] + rest;
    TextRoundTrip(filter, after);
    assert after[1..] == rest;
  }

  lemma SubRoundTrip(e: SubEntry, rest: seq<byte>)
    requires ShortText(e.0)
    ensures EncodeSub(e).Ok?
    ensures DecodeSub(EncodeSub(e).value + rest) == Ok((e, rest))
  {
    SubParts(e.0, e.1, rest);
    var filter := WriteChunk(Encode(e.0)).value;
    assert filter + [QosByte(e.1)] + rest == filter + ([QosByte(e.1)] + rest);
  }

  lemma {:induction false} SubEntriesRoundTrip(entries: seq<SubEntry>)
    requires forall e :: e in entries ==> ShortText(e.0)
    ensures DecodeSubEntries(EncodeSubEntries(entries).value) == Ok(entries)
  {
    if entries != [] {
      var rest := EncodeSubEntries(entries[1..]).value;
      assert entries[0] in entries && entries == [entries[0]] + entries[1..];
      SubRoundTrip(entries[0], rest);
      SubEntriesRoundTrip(entries[1..]);
    }
  }

  lemma SubsParts(file: seq<byte>, client: string, afterClient: seq<byte>, identity: string,
                  body: seq<byte>, entries: seq<SubEntry>)
    requires SUBS_MAGIC <= file && ReadText(file[|SUBS_MAGIC|..]) == Ok((client, afterClient))
    requires ReadText(afterClient) == Ok((identity, body)) && DecodeSubEntries(body) == Ok(entries)
    ensures DecodeSubs(Some(file)) == Ok(LoadedSubs(client, identity, entries))
  {
  }

  lemma MagicThen(c: seq<byte>, i: seq<byte>, body: seq<byte>)
    ensures var file := SUBS_MAGIC + c + i + body; SUBS_MAGIC <= file && file[|SUBS_MAGIC|..] == c + (i + body)
  {
    assert SUBS_MAGIC + c + i + body == SUBS_MAGIC + (c + (i + body));
  }

  lemma SubsRoundTrip(client: string, identity: string, entries: seq<SubEntry>)
    requires ShortText(client) && ShortText(identity) && forall e :: e in entries ==> ShortText(e.0)
    ensures EncodeSubs(client, identity, entries).Ok?
    ensures DecodeSubs(Some(EncodeSubs(client, identity, entries).value))
         == Ok(LoadedSubs(client, identity, entries))
  {
    var c, i, body := WriteChunk(Encode(client)).value, WriteChunk(Encode(identity)).value,
                      EncodeSubEntries(entries).value;
    SubEntriesRoundTrip(entries);
    TextRoundTrip(client, i + body);
    TextRoundTrip(identity, body);
    MagicThen(c, i, body);
    SubsParts(SUBS_MAGIC + c + i + body, client, i + body, identity, body, entries);
  }

  // ---------------------------------------------------------------- file names

  const HEX := "0123456789abcdef"

  function HexBytes(b: seq<byte>): (s: string)
    ensures |s| == 2 * |b|
  {
    if b == [] then "" else [HEX[b[0] as int / 16], HEX[b[0] as int % 16]] + HexBytes(b[1..])
  }

  function HexName(client: string): string {
    HexBytes(Encode(client))
  }

  lemma HexDigitsDistinct(i: nat, j: nat)
    requires i < 16 && j < 16 && HEX[i] == HEX[j]
    ensures i == j
  {
  }

  lemma {:induction false} HexBytesInjective(a: seq<byte>, b: seq<byte>)
    requires HexBytes(a) == HexBytes(b)
    ensures a == b
  {
    if a != [] && b != [] {
      var x, y := HexBytes(a), HexBytes(b);
      assert x[0] == y[0] && x[1] == y[1];
      HexDigitsDistinct(a[0] as int / 16, b[0] as int / 16);
      HexDigitsDistinct(a[0] as int % 16, b[0] as int % 16);
      assert x[2..] == HexBytes(a[1..]) && y[2..] == HexBytes(b[1..]);
      HexBytesInjective(a[1..], b[1..]);
      assert a == [a[0]] + a[1..] && b == [b[0]] + b[1..];
    }
  }

  /** Different clients never share a state file. */
  lemma HexNameInjective(a: string, b: string)
    requires HexName(a) == HexName(b)
    ensures a == b
  {
    HexBytesInjective(Encode(a), Encode(b));
    EncodeInjective(a, b);
  }
}
