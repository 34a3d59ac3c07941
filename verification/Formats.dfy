/** The formats byte by byte: whole small files, keys and file names as other programs, and other
    versions of this one, see them. */
module Formats {
  import opened Common
  import opened Utf8
  import opened Codec
  import opened Topic
  import opened RetainedCodec
  import opened Registry

  /** One character of each UTF-8 width, up to the last one. */
  lemma Characters()
    ensures Encode(['a']) == [97] && Encode(['\U{E9}']) == [0xC3, 0xA9]
    ensures Encode(['\U{20AC}']) == [0xE2, 0x82, 0xAC]
    ensures Encode(['\U{1F600}']) == [0xF0, 0x9F, 0x98, 0x80] && Encode(['\U{10FFFF}']) == [0xF4, 0x8F, 0xBF, 0xBF]
  {
    OneCharacter('a');
    OneCharacter('\U{E9}');
    OneCharacter('\U{20AC}');
    OneCharacter('\U{1F600}');
    OneCharacter('\U{10FFFF}');
    assert EncodeValue(97) == [97] && EncodeValue(0xE9) == [0xC3, 0xA9];
    assert EncodeValue(0x20AC) == [0xE2, 0x82, 0xAC];
    assert EncodeValue(0x1F600) == [0xF0, 0x9F, 0x98, 0x80];
    assert EncodeValue(0x10FFFF) == [0xF4, 0x8F, 0xBF, 0xBF];
  }

  lemma OneCharacter(c: char)
    ensures Encode([c]) == EncodeValue(c as int)
  {
    EncodeCons(c, "");
    assert [c] == [c] + "";
  }

  lemma Word(n: nat)
    requires n < 256
    ensures ToBytes(n, 4) == [0, 0, 0, n] && ToBytes(n, 8) == [0, 0, 0, 0, 0, 0, 0, n]
  {
    assert ToBytes(0, 3) == [0, 0, 0] && ToBytes(0, 7) == [0, 0, 0, 0, 0, 0, 0];
  }

  /** The bytes are the characters' codes. */
  predicate Spells(b: seq<byte>, s: string) {
    |b| == |s| && forall i :: 0 <= i < |s| ==> b[i] as int == s[i] as int < 0x80
  }

  /** ASCII text is encoded as itself. */
  lemma {:induction false} AsciiIsPlain(b: seq<byte>, s: string)
    requires Spells(b, s)
    ensures Encode(s) == b
  {
    if s != "" {
      AsciiIsPlain(b[1..], s[1..]);
      EncodeCons(s[0], s[1..]);
      assert s == [s[0]] + s[1..] && b == [b[0]] + b[1..];
      assert EncodeChar(s[0]) == [b[0]];
    }
  }

  lemma Magics()
    ensures Spells(QUEUE_MAGIC, "ENTMOOT-Q1\n") && Spells(SUBS_MAGIC, "ENTMOOT-S1\n")
    ensures Spells(SNAPSHOT_MAGIC, "ENTMOOT-RET2\n")
  {
  }

  lemma OneLetter(b: byte, s: string)
    requires |s| == 1 && s[0] as int == b < 0x80
    ensures Encode(s) == [b] && WriteChunk(Encode(s)) == Ok([0, 0, 0, 1, b])
  {
    AsciiIsPlain([b], s);
    OneByte(b);
  }

  lemma OneByte(b: byte)
    ensures WriteChunk([b]) == Ok([0, 0, 0, 1, b]) && WriteChunk([]) == Ok([0, 0, 0, 0])
  {
    Word(0);
    Word(1);
    assert [0, 0, 0, 1] + [b] == [0, 0, 0, 1, b] && [0, 0, 0, 0] + [] == [0, 0, 0, 0];
  }

  /** A queue of one message: topic, then payload. */
  lemma QueueFile()
    ensures EncodeQueue([Msg("a", [7])]) == Ok(QUEUE_MAGIC + ([0, 0, 0, 1, 97] + [0, 0, 0, 1, 7]))
  {
    OneLetter(97, "a");
    OneByte(7);
    var q := [Msg("a", [7])];
    var entry: seq<byte> := [0, 0, 0, 1, 97] + [0, 0, 0, 1, 7];
    assert q[1..] == [] && EncodeEntries([]) == Ok([]);
    assert EncodeEntry(q[0]) == Ok(entry);
    assert entry + [] == entry;
  }

  /** A subscription file: client id, identity, then filter and QoS byte of each entry. */
  lemma SubscriptionFile(q: QoS, b: byte)
    requires b == if q == AtMostOnce then 0 else if q == AtLeastOnce then 1 else 2
    ensures EncodeSubs("c", "", [("f", q)]) ==
      Ok(SUBS_MAGIC + [0, 0, 0, 1, 99] + [0, 0, 0, 0] + ([0, 0, 0, 1, 102] + [b]))
  {
    OneLetter(99, "c");
    OneLetter(102, "f");
    OneByte(0);
    assert Encode("") == [];
    var entries := [("f", q)];
    var entry: seq<byte> := [0, 0, 0, 1, 102] + [b];
    assert entries[1..] == [] && EncodeSubEntries([]) == Ok([]);
    assert EncodeSub(entries[0]) == Ok(entry);
    assert entry + [] == entry;
  }

  /** In an envelope the write time comes first, in whole milliseconds, 64 bits wide; a time
      before the epoch counts as the epoch. */
  lemma Envelope()
    ensures EncodeEnvelope([7], 5_999_999) == [0, 0, 0, 0, 0, 0, 0, 5, 7]
    ensures EncodeEnvelope([], -1) == [0, 0, 0, 0, 0, 0, 0, 0]
  {
    Word(5);
    Word(0);
    assert Millis(5_999_999) == 5 && Millis(-1) == 0;
  }

  /** In a snapshot topic and payload come before the write time. */
  lemma Snapshot()
    ensures SnapshotImage([("a", Entry([7], 5_000_000))]) ==
      SNAPSHOT_MAGIC + ([0, 0, 0, 1, 97] + [0, 0, 0, 1, 7] + [0, 0, 0, 0, 0, 0, 0, 5])
  {
    var items := [("a", Entry([7], 5_000_000))];
    OneItem(items[0]);
    assert items[..0] == [] && EncodeItems([]) == [];
    assert [] + EncodeItem(items[0]) == EncodeItem(items[0]);
  }

  lemma OneItem(i: Item)
    requires i == ("a", Entry([7], 5_000_000))
    ensures EncodeItem(i) == [0, 0, 0, 1, 97] + [0, 0, 0, 1, 7] + [0, 0, 0, 0, 0, 0, 0, 5]
  {
    OneLetter(97, "a");
    Word(1);
    Word(5);
    assert Millis(5_000_000) == 5;
    assert RawChunk([97]) == [0, 0, 0, 1, 97] && RawChunk([7]) == [0, 0, 0, 1, 7];
  }

  /** The internal keys, below a scope and without one. */
  lemma InternalKeys(x: string, scope: string)
    ensures SysKeyexpr(x, scope) == Below(scope, "@sys/" + x)
    ensures MetaKeyexpr(x, scope) == Below(scope, "@meta/" + x)
    ensures RetainedKeyexpr(x, scope) == Below(scope, "@retained/" + x)
    ensures RetainedFilter(scope) == Below(scope, "@retained/**")
  {
    assert SYS_CHUNK + "/" == "@sys/" && META_CHUNK + "/" == "@meta/" && RETAINED_CHUNK + "/" == "@retained/";
    assert RETAINED_CHUNK + "/**" == "@retained/**";
  }

  function Below(scope: string, key: string): string {
    if scope == "" then key else scope + "/" + key
  }

  /** The names of the state files. */
  lemma FileNames()
    ensures HexName("a") == "61"
    ensures StatePath(Some("d"), "a", QUEUE_EXT) == Some("d" + "/" + "61" + ".queue")
    ensures StatePath(Some("d"), "a", SUBS_EXT) == Some("d" + "/" + "61" + ".subs")
  {
    OneLetter(97, "a");
    assert HexBytes([97]) == [HEX[6], HEX[1]] + HexBytes([]);
    assert HexName("a") == "61";
  }

  /** A file name has two lower-case hexadecimal digits per byte, the higher one first. */
  lemma {:induction false} HexDigits(b: seq<byte>, i: nat)
    requires i < |b|
    ensures HexBytes(b)[2 * i] == "0123456789abcdef"[b[i] as int / 16]
    ensures HexBytes(b)[2 * i + 1] == "0123456789abcdef"[b[i] as int % 16]
  {
    assert HEX == "0123456789abcdef";
    if i > 0 {
      HexDigits(b[1..], i - 1);
    }
  }
}
