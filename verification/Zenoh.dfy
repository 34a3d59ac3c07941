/** The part of Zenoh the broker relies on: when a concrete key falls under a key expression.
    `*` stands for exactly one chunk and `**` for any number of chunks; a chunk that starts
    with '@' is verbatim, that is, only an identical literal chunk matches it. */
module Zenoh {
  import opened Strings

  predicate Verbatim(chunk: string) {
    chunk != "" && chunk[0] == '@'
  }

  predicate NoVerbatim(chunks: seq<string>) {
    forall c :: c in chunks ==> !Verbatim(c)
  }

  predicate ChunkMatches(pattern: string, chunk: string) {
    if pattern == "*" then !Verbatim(chunk) else pattern == chunk
  }

  predicate ChunksMatch(pattern: seq<string>, key: seq<string>)
    decreases |pattern| + |key|
  {
    if pattern == [] then key == []
    else if pattern[0] == "**" then
      || ChunksMatch(pattern[1..], key)
      || (key != [] && !Verbatim(key[0]) && ChunksMatch(pattern, key[1..]))
    else
      key != [] && ChunkMatches(pattern[0], key[0]) && ChunksMatch(pattern[1..], key[1..])
  }

  /** Does the key expression `ke` select the concrete key `key`? */
  predicate KeyMatches(ke: string, key: string) {
    ChunksMatch(Split(ke, '/'), Split(key, '/'))
  }

  /** A chunk of a concrete key: not empty, free of key-expression syntax. */
  predicate ConcreteChunk(chunk: string) {
    chunk != "" && '*' !in chunk && '$' !in chunk && '?' !in chunk && '#' !in chunk
  }

  predicate ConcreteKey(key: string) {
    forall c :: c in Split(key, '/') ==> ConcreteChunk(c)
  }

  /** A literal prefix shared by pattern and key plays no part in matching. */
  lemma {:induction false} LiteralPrefix(prefix: seq<string>, pattern: seq<string>, key: seq<string>)
    requires forall c :: c in prefix ==> ConcreteChunk(c)
    ensures ChunksMatch(prefix + pattern, prefix + key) <==> ChunksMatch(pattern, key)
  {
    if prefix == [] {
      assert prefix + pattern == pattern && prefix + key == key;
    } else {
      LiteralPrefix(prefix[1..], pattern, key);
      assert (prefix + pattern)[1..] == prefix[1..] + pattern;
      assert (prefix + key)[1..] == prefix[1..] + key;
      assert prefix[0] in prefix;
      assert (prefix + pattern)[0] == prefix[0];
    }
  }

  /** A final `**` selects exactly the chunk lists without a verbatim chunk. */
  lemma {:induction false} TrailingDoubleStar(key: seq<string>)
    ensures ChunksMatch(["**"], key) <==> NoVerbatim(key)
  {
    if key != [] {
      TrailingDoubleStar(key[1..]);
      assert key == [key[0]] + key[1..];
    }
  }
}
