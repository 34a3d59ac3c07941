/** What the topic algebra guarantees: validation, faithful translation to Zenoh
    (sections 4.7.1 and 4.7.2 of MQTT 3.1.1), separate keyspaces, filter inclusion. */
module TopicTheorems {
  import opened Common
  import opened Strings
  import opened Zenoh
  import opened Topic

  // ---------------------------------------------------------------- validation

  /** A level that stands for itself: not empty, no wildcard, no Zenoh syntax. */
  predicate PlainLevel(l: string) {
    && l != "" && l[0] != '@'
    && '+' !in l && '#' !in l && '*' !in l && '$' !in l && '?' !in l
  }

  predicate ValidTopic(t: string) {
    forall l :: l in Split(t, '/') ==> PlainLevel(l)
  }

  predicate ValidLevel(l: string, first: bool, last: bool) {
    || (first && (l == SYS_PREFIX || l == META_PREFIX))
    || l == "+"
    || (l == "#" && last)
    || PlainLevel(l)
  }

  predicate ValidLevels(parts: seq<string>, first: bool) {
    forall i :: 0 <= i < |parts| ==> ValidLevel(parts[i], first && i == 0, i == |parts| - 1)
  }

  predicate ValidFilter(f: string) {
    ValidLevels(Split(f, '/'), true)
  }

  lemma {:induction false} NoReservedIff(level: string)
    ensures FirstReserved(level).None? <==> '*' !in level && '$' !in level && '?' !in level
  {
    if level != "" {
      NoReservedIff(level[1..]);
      assert level == [level[0]] + level[1..];
    }
  }

  lemma LevelAcceptedIff(level: string)
    ensures level != "" && TopicLevelError(level).None? <==> PlainLevel(level)
  {
    NoReservedIff(level);
    assert "@" <= level <==> level != "" && level[0] == '@';
  }

  lemma {:induction false} NoTopicErrorIff(parts: seq<string>)
    ensures "" !in parts && FirstTopicError(parts).None? <==> forall l :: l in parts ==> PlainLevel(l)
  {
    if parts != [] {
      NoTopicErrorIff(parts[1..]);
      LevelAcceptedIff(parts[0]);
      assert parts == [parts[0]] + parts[1..];
    }
  }

  /** Exactly the valid topics are publishable, and they travel unchanged below the scope. */
  lemma PublishableIff(t: string, scope: string)
    ensures TopicToKeyexpr(t, scope).Ok? <==> ValidTopic(t)
    ensures ValidTopic(t) ==> TopicToKeyexpr(t, scope) == Ok(Scoped(scope, t))
  {
    var parts := Split(t, '/');
    NoTopicErrorIff(parts);
    JoinSplit(t, '/');
    if t == "" {
      assert "" in parts;
    }
  }

  lemma ChunkAcceptedIff(level: string, first: bool, last: bool)
    requires level != ""
    ensures FilterChunk(level, first, last).Ok? <==> ValidLevel(level, first, last)
  {
    NoReservedIff(level);
    assert "@" <= level <==> level[0] == '@';
    assert level == "+" ==> level[0] == '+';
    assert level == "#" ==> level[0] == '#';
  }

  lemma {:induction false} ChunksAcceptedIff(parts: seq<string>, first: bool)
    requires "" !in parts
    ensures FilterChunks(parts, first).Ok? <==> ValidLevels(parts, first)
  {
    if parts != [] {
      var tail := parts[1..];
      ChunkAcceptedIff(parts[0], first, |parts| == 1);
      ChunksAcceptedIff(tail, false);
      assert forall i :: 0 <= i < |tail| ==> tail[i] == parts[i + 1];
      assert ValidLevels(parts, first) ==> ValidLevels(tail, false);
      if ValidLevel(parts[0], first, |parts| == 1) && ValidLevels(tail, false) {
        forall i | 0 <= i < |parts|
          ensures ValidLevel(parts[i], first && i == 0, i == |parts| - 1)
        {
          if i > 0 {
            assert parts[i] == tail[i - 1];
          }
        }
      }
    }
  }

  /** Exactly the valid filters can be subscribed to. */
  lemma SubscribableIff(f: string, scope: string)
    ensures FilterToKeyexpr(f, scope).Ok? <==> ValidFilter(f)
  {
    var parts := Split(f, '/');
    if "" in parts {
      var i :| 0 <= i < |parts| && parts[i] == "";
      assert !ValidLevel(parts[i], i == 0, i == |parts| - 1);
    } else {
      ChunksAcceptedIff(parts, true);
    }
    assert f == "" ==> "" in parts;
  }

  function ScopeChunks(scope: string): seq<string> {
    if scope == "" then [] else Split(scope, '/')
  }

  lemma ScopedSplit(scope: string, ke: string)
    ensures Split(Scoped(scope, ke), '/') == ScopeChunks(scope) + Split(ke, '/')
  {
    if scope == "" {
      assert [] + Split(ke, '/') == Split(ke, '/');
    } else {
      SplitConcat(scope, ke, '/');
    }
  }

  /** Chunk view of an accepted filter's key expression. */
  lemma TranslatedChunks(f: string, scope: string)
    requires ValidFilter(f)
    ensures var parts := Split(f, '/');
      && "" !in parts
      && FilterChunks(parts, true).Ok?
      && FilterToKeyexpr(f, scope).Ok?
      && Split(FilterToKeyexpr(f, scope).value, '/')
         == ScopeChunks(scope) + FilterChunks(parts, true).value
  {
    SubscribableIff(f, scope);
    var parts := Split(f, '/');
    var chunks := FilterChunks(parts, true).value;
    SplitPieces(f, '/');
    ChunksHaveNoSlash(parts, true);
    SplitJoin(chunks, '/');
    ScopedSplit(scope, Join(chunks, '/'));
  }

  lemma {:induction false} ChunksHaveNoSlash(parts: seq<string>, first: bool)
    requires FilterChunks(parts, first).Ok?
    requires forall p :: p in parts ==> '/' !in p
    ensures forall c :: c in FilterChunks(parts, first).value ==> '/' !in c
  {
    if parts != [] {
      assert parts[0] in parts;
      assert forall p :: p in parts[1..] ==> p in parts;
      ChunksHaveNoSlash(parts[1..], false);
    }
  }

  // ---------------------------------------------------------------- matching

  /** The filter agrees with the topic on its first `n` levels, and there either the filter
      goes on with `#` or both end. */
  predicate AgreeUpTo(f: seq<string>, t: seq<string>, n: nat) {
    && n <= |f| && n <= |t|
    && (forall i :: 0 <= i < n ==> f[i] != "#" && (f[i] == "+" || f[i] == t[i]))
    && (if n < |f| then f[n] == "#" else |t| == n)
  }

  /** Section 4.7.1 of MQTT 3.1.1, position by position. */
  ghost predicate Agrees(filter: string, topic: string) {
    var f, t := Split(filter, '/'), Split(topic, '/');
    exists n: nat :: AgreeUpTo(f, t, n)
  }

  lemma MatchesIffAgrees(filter: string, topic: string)
    ensures TopicMatches(filter, topic) <==> Agrees(filter, topic)
  {
    var f, t := Split(filter, '/'), Split(topic, '/');
    MatchIffAgree(f, t);
  }

  lemma {:induction false} MatchIffAgree(f: seq<string>, t: seq<string>)
    ensures LevelsMatch(f, t) <==> exists n: nat :: AgreeUpTo(f, t, n)
  {
    if f == [] {
      assert t == [] ==> AgreeUpTo(f, t, 0);
    } else if f[0] == "#" {
      assert AgreeUpTo(f, t, 0);
    } else if t != [] {
      MatchIffAgree(f[1..], t[1..]);
      if LevelsMatch(f, t) {
        var n: nat :| AgreeUpTo(f[1..], t[1..], n);
        assert AgreeUpTo(f, t, n + 1);
      }
      if n: nat :| AgreeUpTo(f, t, n) {
        assert AgreeUpTo(f[1..], t[1..], n - 1);
      }
    }
  }

  // ---------------------------------------------------------------- forwarding

  /** Below the first level, a translated filter selects exactly the matching chunk lists
      that hold no verbatim chunk. */
  lemma {:induction false} TailForwards(parts: seq<string>, key: seq<string>)
    requires "" !in parts && FilterChunks(parts, false).Ok?
    ensures ChunksMatch(FilterChunks(parts, false).value, key) <==> LevelsMatch(parts, key) && NoVerbatim(key)
  {
    var chunks := FilterChunks(parts, false).value;
    if parts != [] {
      ChunkAcceptedIff(parts[0], false, |parts| == 1);
      assert chunks[1..] == FilterChunks(parts[1..], false).value;
      if parts[0] == "#" {
        TrailingDoubleStar(key);
        assert chunks == ["**"];
      } else if key != [] {
        TailForwards(parts[1..], key[1..]);
        assert key == [key[0]] + key[1..];
        assert chunks[0] != "**";
      }
    }
  }

  predicate Internal(level: string) {
    level == SYS_PREFIX || level == META_PREFIX
  }

  /** The whole translated filter against any chunk list. */
  lemma FilterForwards(parts: seq<string>, key: seq<string>)
    requires parts != [] && "" !in parts && FilterChunks(parts, true).Ok?
    ensures !Internal(parts[0]) ==>
      (ChunksMatch(FilterChunks(parts, true).value, key) <==> LevelsMatch(parts, key) && NoVerbatim(key))
    ensures Internal(parts[0]) ==>
      (ChunksMatch(FilterChunks(parts, true).value, key) <==>
       && key != []
       && key[0] == (if parts[0] == SYS_PREFIX then SYS_CHUNK else META_CHUNK)
       && LevelsMatch(parts[1..], key[1..]) && NoVerbatim(key[1..]))
  {
    var chunks := FilterChunks(parts, true).value;
    if !Internal(parts[0]) {
      assert FilterChunks(parts, false) == Ok(chunks);
      TailForwards(parts, key);
    } else {
      assert chunks[1..] == FilterChunks(parts[1..], false).value;
      assert forall p :: p in parts[1..] ==> p in parts;
      if key != [] {
        TailForwards(parts[1..], key[1..]);
      }
    }
  }

  /** Chunk view of a key that surfaces as an MQTT topic. */
  lemma SurfacedChunks(key: string, scope: string, t: string)
    requires KeyexprToTopic(key, scope) == Some(t)
    ensures exists chunks ::
      && Split(key, '/') == ScopeChunks(scope) + chunks
      && SurfacesAs(chunks, Split(t, '/'))
  {
    var rest := StripScope(key, scope).value;
    var chunks := Split(rest, '/');
    assert key == Scoped(scope, rest);
    ScopedSplit(scope, rest);
    if SYS_CHUNK <= rest {
      InternalChunks(rest, SYS_CHUNK, SYS_PREFIX, t);
    } else if META_CHUNK <= rest {
      InternalChunks(rest, META_CHUNK, META_PREFIX, t);
    } else {
      assert Split(t, '/') == chunks;
      FirstChunkPlain(rest);
    }
    assert SurfacesAs(chunks, Split(t, '/'));
  }

  lemma FirstChunkPlain(s: string)
    requires !("@" <= s)
    ensures !Verbatim(Split(s, '/')[0])
  {
  }

  lemma InternalChunks(rest: string, chunk: string, prefix: string, t: string)
    requires (chunk == SYS_CHUNK && prefix == SYS_PREFIX) || (chunk == META_CHUNK && prefix == META_PREFIX)
    requires chunk <= rest && Surface(rest[|chunk|..], prefix) == Some(t)
    ensures SurfacesAs(Split(rest, '/'), Split(t, '/'))
  {
    var suffix := rest[|chunk|..][1..];
    assert rest == chunk + "/" + suffix && t == prefix + "/" + suffix;
    PrefixedSplit(chunk, suffix);
    PrefixedSplit(prefix, suffix);
  }

  lemma PrefixedSplit(head: string, tail: string)
    requires '/' !in head
    ensures var parts := Split(head + "/" + tail, '/');
      parts == [head] + Split(tail, '/') && parts[0] == head && parts[1..] == Split(tail, '/')
  {
    SplitConcat(head, tail, '/');
    SplitNoSep(head, '/');
  }

  /** How the chunks below the scope relate to the levels of the surfaced topic: they are the
      same, except that a leading `@sys` or `@meta` surfaces as `$SYS` or `$meta`. */
  predicate SurfacesAs(chunks: seq<string>, levels: seq<string>) {
    && chunks != [] && |levels| == |chunks|
    && chunks[1..] == levels[1..]
    && (|| (chunks[0] == SYS_CHUNK && levels[0] == SYS_PREFIX)
        || (chunks[0] == META_CHUNK && levels[0] == META_PREFIX)
        || (chunks[0] == levels[0] && !Verbatim(chunks[0])))
  }

  predicate DollarTopic(t: string) {
    Internal(Split(t, '/')[0])
  }

  predicate WildcardFirst(f: string) {
    Split(f, '/')[0] in {"+", "#"}
  }

  /** The subscription forwards a key exactly when section 4.7 of MQTT 3.1.1 lets the filter
      match the surfaced topic: level by level, with no leading wildcard over a `$` topic, and
      never through a chunk reserved for internal keys. */
  lemma ForwardsIff(f: string, scope: string, key: string, t: string)
    requires ValidFilter(f) && ConcreteKey(key) && (scope == "" || ConcreteKey(scope))
    requires KeyexprToTopic(key, scope) == Some(t)
    ensures FilterToKeyexpr(f, scope).Ok?
    ensures KeyMatches(FilterToKeyexpr(f, scope).value, key) <==>
      && TopicMatches(f, t)
      && (DollarTopic(t) ==> !WildcardFirst(f))
      && NoVerbatim(Split(t, '/'))
  {
    var parts, levels := Split(f, '/'), Split(t, '/');
    var prefix := ScopeChunks(scope);
    TranslatedChunks(f, scope);
    SurfacedChunks(key, scope, t);
    var chunks :| Split(key, '/') == prefix + chunks && SurfacesAs(chunks, levels);
    LiteralPrefix(prefix, FilterChunks(parts, true).value, chunks);
    FilterForwards(parts, chunks);
    assert chunks[0] in Split(key, '/');
    FirstLevelCases(parts, chunks, levels);
  }

  /** The first level decides between the plain and the internal keyspaces. */
  lemma FirstLevelCases(parts: seq<string>, chunks: seq<string>, levels: seq<string>)
    requires parts != [] && "" !in parts && FilterChunks(parts, true).Ok?
    requires SurfacesAs(chunks, levels) && ConcreteChunk(chunks[0])
    ensures !Internal(parts[0]) ==>
      (LevelsMatch(parts, chunks) && NoVerbatim(chunks) <==>
       LevelsMatch(parts, levels) && NoVerbatim(levels) && (Internal(levels[0]) ==> parts[0] !in {"+", "#"}))
    ensures Internal(parts[0]) ==>
      (&& chunks[0] == (if parts[0] == SYS_PREFIX then SYS_CHUNK else META_CHUNK)
       && LevelsMatch(parts[1..], chunks[1..]) && NoVerbatim(chunks[1..])
       <==> LevelsMatch(parts, levels) && NoVerbatim(levels))
  {
    assert chunks == [chunks[0]] + chunks[1..] && levels == [levels[0]] + levels[1..];
    assert SYS_PREFIX[0] == '$' && META_PREFIX[0] == '$';
    ChunkAcceptedIff(parts[0], true, |parts| == 1);
    if chunks[0] == levels[0] {
      assert chunks == levels;
      assert !Internal(levels[0]);
    } else {
      assert Verbatim(chunks[0]) && !Verbatim(levels[0]) && chunks[0] in chunks;
    }
  }

  /** For a publishable topic the broker's own matcher and Zenoh agree on every valid filter. */
  lemma PublishedTopicForwards(f: string, scope: string, t: string)
    requires ValidFilter(f) && ValidTopic(t) && (scope == "" || ConcreteKey(scope))
    ensures FilterToKeyexpr(f, scope).Ok? && TopicToKeyexpr(t, scope).Ok?
    ensures KeyMatches(FilterToKeyexpr(f, scope).value, TopicToKeyexpr(t, scope).value) <==> TopicMatches(f, t)
  {
    PublishableIff(t, scope);
    TopicRoundTrip(t, scope);
    PublishedKey(t, scope);
    ForwardsIff(f, scope, Scoped(scope, t), t);
  }

  lemma PublishedKey(t: string, scope: string)
    requires ValidTopic(t) && (scope == "" || ConcreteKey(scope))
    ensures ConcreteKey(Scoped(scope, t)) && NoVerbatim(Split(t, '/')) && !DollarTopic(t)
  {
    ScopedSplit(scope, t);
    assert Split(t, '/')[0] in Split(t, '/');
  }

  /** Section 4.7.2: a filter that starts with a wildcard sees nothing of `$SYS` or `$meta`. */
  lemma WildcardsMissInternalKeys(f: string, scope: string, suffix: string)
    requires ValidFilter(f) && WildcardFirst(f) && (scope == "" || ConcreteKey(scope))
    ensures FilterToKeyexpr(f, scope).Ok?
    ensures !KeyMatches(FilterToKeyexpr(f, scope).value, SysKeyexpr(suffix, scope))
    ensures !KeyMatches(FilterToKeyexpr(f, scope).value, MetaKeyexpr(suffix, scope))
  {
    HiddenFromClients(f, scope, SYS_CHUNK, suffix);
    HiddenFromClients(f, scope, META_CHUNK, suffix);
  }

  /** No subscription a client can make observes the retained keyspace. */
  lemma ClientsMissRetainedKeys(f: string, scope: string, topic: string)
    requires ValidFilter(f) && (scope == "" || ConcreteKey(scope))
    ensures FilterToKeyexpr(f, scope).Ok?
    ensures !KeyMatches(FilterToKeyexpr(f, scope).value, RetainedKeyexpr(topic, scope))
  {
    HiddenFromClients(f, scope, RETAINED_CHUNK, topic);
  }

  lemma RetainedPattern()
    ensures Split(RETAINED_CHUNK + "/**", '/') == [RETAINED_CHUNK, "**"]
  {
    assert RETAINED_CHUNK + "/**" == RETAINED_CHUNK + "/" + "**";
    PrefixedSplit(RETAINED_CHUNK, "**");
    SplitNoSep("**", '/');
  }

  lemma RetainedPatternMatches(key: seq<string>)
    requires key != []
    ensures ChunksMatch([RETAINED_CHUNK, "**"], key) <==> key[0] == RETAINED_CHUNK && NoVerbatim(key[1..])
  {
    var pattern := [RETAINED_CHUNK, "**"];
    assert pattern[1..] == ["**"] && RETAINED_CHUNK[0] == '@';
    TrailingDoubleStar(key[1..]);
  }

  /** What the store's own subscription selects: the retained keys of all topics without a
      reserved level, so of every publishable topic, and no plain, `$SYS` or `$meta` key. */
  lemma RetainedFilterSelects(scope: string, space: Keyspace, topic: string)
    requires scope == "" || ConcreteKey(scope)
    requires space.Plain? ==> ValidTopic(topic)
    ensures KeyMatches(RetainedFilter(scope), KeyIn(space, topic, scope)) <==>
      space.Retained? && NoVerbatim(Split(topic, '/'))
  {
    var below := if space.Plain? then topic else ChunkOf(space) + "/" + topic;
    RetainedPattern();
    ScopedSplit(scope, RETAINED_CHUNK + "/**");
    ScopedSplit(scope, below);
    LiteralPrefix(ScopeChunks(scope), [RETAINED_CHUNK, "**"], Split(below, '/'));
    RetainedPatternMatches(Split(below, '/'));
    if space.Plain? {
      assert Split(topic, '/')[0] in Split(topic, '/');
    } else {
      PrefixedSplit(ChunkOf(space), topic);
      ChunksDiffer();
    }
  }

  /** The verbatim chunk that opens an internal keyspace. */
  function ChunkOf(space: Keyspace): string
    requires !space.Plain?
  {
    match space
    case Sys => SYS_CHUNK
    case Meta => META_CHUNK
    case Retained => RETAINED_CHUNK
  }

  lemma ChunksDiffer()
    ensures SYS_CHUNK != RETAINED_CHUNK && META_CHUNK != RETAINED_CHUNK && RETAINED_CHUNK[0] == '@'
    ensures '/' !in SYS_CHUNK && '/' !in META_CHUNK && '/' !in RETAINED_CHUNK
  {
    assert SYS_CHUNK[1] == 's' && META_CHUNK[1] == 'm' && RETAINED_CHUNK[1] == 'r';
  }

  lemma HiddenFromClients(f: string, scope: string, chunk: string, suffix: string)
    requires ValidFilter(f) && (scope == "" || ConcreteKey(scope))
    requires chunk in {SYS_CHUNK, META_CHUNK, RETAINED_CHUNK}
    requires chunk == RETAINED_CHUNK || WildcardFirst(f)
    ensures FilterToKeyexpr(f, scope).Ok?
    ensures !KeyMatches(FilterToKeyexpr(f, scope).value, Scoped(scope, chunk + "/" + suffix))
  {
    var parts := Split(f, '/');
    var chunks := Split(chunk + "/" + suffix, '/');
    TranslatedChunks(f, scope);
    ScopedSplit(scope, chunk + "/" + suffix);
    LiteralPrefix(ScopeChunks(scope), FilterChunks(parts, true).value, chunks);
    FilterForwards(parts, chunks);
    InternalFirstChunk(chunk, suffix);
  }

  lemma InternalFirstChunk(chunk: string, suffix: string)
    requires chunk in {SYS_CHUNK, META_CHUNK, RETAINED_CHUNK}
    ensures var chunks := Split(chunk + "/" + suffix, '/');
      chunks[0] == chunk && Verbatim(chunk) && !NoVerbatim(chunks)
  {
    PrefixedSplit(chunk, suffix);
    assert Split(chunk + "/" + suffix, '/')[0] in Split(chunk + "/" + suffix, '/');
  }

  // ---------------------------------------------------------------- round trips and keyspaces

  lemma StripScoped(scope: string, ke: string)
    ensures StripScope(Scoped(scope, ke), scope) == Some(ke)
  {
  }

  lemma TopicRoundTrip(t: string, scope: string)
    requires ValidTopic(t)
    ensures TopicToKeyexpr(t, scope).Ok?
    ensures KeyexprToTopic(TopicToKeyexpr(t, scope).value, scope) == Some(t)
  {
    PublishableIff(t, scope);
    StripScoped(scope, t);
    ValidTopicStart(t);
  }

  lemma ValidTopicStart(t: string)
    requires ValidTopic(t)
    ensures t != "" && t[0] != '@'
  {
    var parts := Split(t, '/');
    assert parts[0] in parts;
  }

  lemma SurfaceSuffix(chunk: string, prefix: string, suffix: string)
    ensures chunk <= chunk + "/" + suffix
    ensures Surface((chunk + "/" + suffix)[|chunk|..], prefix) == Some(prefix + "/" + suffix)
  {
    assert (chunk + "/" + suffix)[|chunk|..] == "/" + suffix;
  }

  lemma SysRoundTrip(suffix: string, scope: string)
    ensures KeyexprToTopic(SysKeyexpr(suffix, scope), scope) == Some(SYS_PREFIX + "/" + suffix)
  {
    StripScoped(scope, SYS_CHUNK + "/" + suffix);
    SurfaceSuffix(SYS_CHUNK, SYS_PREFIX, suffix);
  }

  lemma MetaRoundTrip(suffix: string, scope: string)
    ensures KeyexprToTopic(MetaKeyexpr(suffix, scope), scope) == Some(META_PREFIX + "/" + suffix)
  {
    var rest := META_CHUNK + "/" + suffix;
    StripScoped(scope, rest);
    SurfaceSuffix(META_CHUNK, META_PREFIX, suffix);
    assert rest[1] == 'm' && SYS_CHUNK[1] == 's';
  }

  lemma RetainedRoundTrip(suffix: string, scope: string)
    ensures RetainedKeyexprToTopic(RetainedKeyexpr(suffix, scope), scope) == Some(suffix)
    ensures KeyexprToTopic(RetainedKeyexpr(suffix, scope), scope) == None
  {
    var rest := RETAINED_CHUNK + "/" + suffix;
    StripScoped(scope, rest);
    assert rest[|RETAINED_CHUNK|..] == "/" + suffix;
    assert rest[1] == 'r' && SYS_CHUNK[1] == 's' && META_CHUNK[1] == 'm';
  }

  /** The internal keyspaces invert for every suffix; the retained one never surfaces. */
  lemma InternalRoundTrips(suffix: string, scope: string)
    ensures KeyexprToTopic(SysKeyexpr(suffix, scope), scope) == Some(SYS_PREFIX + "/" + suffix)
    ensures KeyexprToTopic(MetaKeyexpr(suffix, scope), scope) == Some(META_PREFIX + "/" + suffix)
    ensures RetainedKeyexprToTopic(RetainedKeyexpr(suffix, scope), scope) == Some(suffix)
    ensures KeyexprToTopic(RetainedKeyexpr(suffix, scope), scope) == None
  {
    SysRoundTrip(suffix, scope);
    MetaRoundTrip(suffix, scope);
    RetainedRoundTrip(suffix, scope);
  }

  /** Exactly what surfaces, and as what: keys below the scope that are in the sys or meta
      keyspace, or whose first character is not '@'. */
  lemma SurfacesIff(key: string, scope: string, t: string)
    ensures KeyexprToTopic(key, scope) == Some(t) <==>
      || (exists x :: key == SysKeyexpr(x, scope) && t == "$SYS/" + x)
      || (exists x :: key == MetaKeyexpr(x, scope) && t == "$meta/" + x)
      || (key == Scoped(scope, t) && (t == "" || t[0] != '@'))
  {
    forall x
      ensures key == SysKeyexpr(x, scope) ==> KeyexprToTopic(key, scope) == Some("$SYS/" + x)
      ensures key == MetaKeyexpr(x, scope) ==> KeyexprToTopic(key, scope) == Some("$meta/" + x)
    {
      InternalRoundTrips(x, scope);
      assert SYS_PREFIX + "/" + x == "$SYS/" + x && META_PREFIX + "/" + x == "$meta/" + x;
    }
    if key == Scoped(scope, t) && (t == "" || t[0] != '@') {
      StripScoped(scope, t);
      assert SYS_CHUNK[0] == '@' && META_CHUNK[0] == '@';
    }
    if KeyexprToTopic(key, scope) == Some(t) {
      SurfacesOnly(key, scope, t);
    }
  }

  lemma SurfacesOnly(key: string, scope: string, t: string)
    requires KeyexprToTopic(key, scope) == Some(t)
    ensures
      || (exists x :: key == SysKeyexpr(x, scope) && t == "$SYS/" + x)
      || (exists x :: key == MetaKeyexpr(x, scope) && t == "$meta/" + x)
      || (key == Scoped(scope, t) && (t == "" || t[0] != '@'))
  {
    var rest := StripScope(key, scope).value;
    assert key == Scoped(scope, rest);
    if SYS_CHUNK <= rest {
      var x := rest[|SYS_CHUNK|..][1..];
      assert rest == SYS_CHUNK + "/" + x && SYS_PREFIX + "/" + x == "$SYS/" + x;
      assert key == SysKeyexpr(x, scope);
    } else if META_CHUNK <= rest {
      var x := rest[|META_CHUNK|..][1..];
      assert rest == META_CHUNK + "/" + x && META_PREFIX + "/" + x == "$meta/" + x;
      assert key == MetaKeyexpr(x, scope);
    }
  }

  /** Exactly the retained keys name a retained topic. */
  lemma RetainedIff(key: string, scope: string, t: string)
    ensures RetainedKeyexprToTopic(key, scope) == Some(t) <==> key == RetainedKeyexpr(t, scope)
  {
    RetainedRoundTrip(t, scope);
    if RetainedKeyexprToTopic(key, scope) == Some(t) {
      var rest := StripScope(key, scope).value;
      assert key == Scoped(scope, rest) && rest == RETAINED_CHUNK + "/" + t;
    }
  }

  // ---------------------------------------------------------------- why a name is refused

  /** The first level that is refused, and what its refusal says. */
  predicate TopicRefusedAt(parts: seq<string>, i: nat, e: TopicError) {
    && i < |parts| && (forall j :: 0 <= j < i ==> PlainLevel(parts[j]))
    && (match e
        case WildcardInTopic(c) => if c == '+' then '+' in parts[i] else c == '#' && '#' in parts[i] && '+' !in parts[i]
        case ReservedChar(c) => Refused(parts[i], c) && '+' !in parts[i] && '#' !in parts[i]
        case _ => false)
  }

  predicate FirstOfSyntax(level: string, c: char) {
    && c in {'*', '$', '?'}
    && exists k :: 0 <= k < |level| && level[k] == c && NoSyntax(level[..k])
  }

  predicate NoSyntax(s: string) {
    '*' !in s && '$' !in s && '?' !in s
  }

  /** `c` is a leading '@', or, without that, the first character of Zenoh's syntax. */
  predicate Refused(level: string, c: char) {
    if level != "" && level[0] == '@' then c == '@' else FirstOfSyntax(level, c)
  }

  lemma {:induction false} FirstReservedIs(level: string)
    ensures FirstReserved(level).Some? ==>
      FirstReserved(level).value.ReservedChar? && FirstOfSyntax(level, FirstReserved(level).value.c)
  {
    if level != "" {
      if level[0] in {'*', '$', '?'} {
        assert level[0] == FirstReserved(level).value.c && NoSyntax(level[..0]);
      } else {
        var tail := level[1..];
        FirstReservedIs(tail);
        if FirstReserved(level).Some? {
          var c := FirstReserved(level).value.c;
          var k :| 0 <= k < |tail| && tail[k] == c && NoSyntax(tail[..k]);
          assert level[..k + 1] == [level[0]] + tail[..k];
          assert level[k + 1] == c && NoSyntax(level[..k + 1]);
        }
      }
    }
  }

  lemma CharsRefused(level: string)
    ensures CheckLevelChars(level).Some? ==>
      CheckLevelChars(level).value.ReservedChar? && Refused(level, CheckLevelChars(level).value.c)
  {
    FirstReservedIs(level);
    assert "@" <= level <==> level != "" && level[0] == '@';
  }

  lemma {:induction false} FirstTopicErrorAt(parts: seq<string>) returns (i: nat)
    requires "" !in parts && FirstTopicError(parts).Some?
    ensures TopicRefusedAt(parts, i, FirstTopicError(parts).value)
  {
    CharsRefused(parts[0]);
    if TopicLevelError(parts[0]).Some? {
      i := 0;
    } else {
      LevelAcceptedIff(parts[0]);
      var tail := parts[1..];
      var k := FirstTopicErrorAt(tail);
      i := k + 1;
      forall j | 0 <= j < i
        ensures PlainLevel(parts[j])
      {
        if j > 0 {
          assert parts[j] == tail[j - 1];
        }
      }
    }
  }

  /** A refused topic is refused for being empty, for an empty level, or for its leftmost bad
      level, and the error says which. */
  lemma TopicRefusal(t: string, scope: string) returns (i: nat)
    requires !ValidTopic(t)
    ensures TopicToKeyexpr(t, scope).Err?
    ensures var e, parts := TopicToKeyexpr(t, scope).error, Split(t, '/');
      if t == "" then e == Empty
      else if "" in parts then e == EmptyLevel
      else TopicRefusedAt(parts, i, e)
  {
    PublishableIff(t, scope);
    i := 0;
    var parts := Split(t, '/');
    if t != "" && "" !in parts {
      i := FirstTopicErrorAt(parts);
    }
  }

  predicate FilterRefusedAt(parts: seq<string>, first: bool, i: nat, e: TopicError) {
    && i < |parts| && (forall j :: 0 <= j < i ==> ValidLevel(parts[j], first && j == 0, false))
    && (match e
        case HashNotLast => parts[i] == "#" && i < |parts| - 1
        case PartialWildcard(level) => level == parts[i] && |level| > 1 && ('+' in level || '#' in level)
        case ReservedChar(c) => Refused(parts[i], c) && '+' !in parts[i] && '#' !in parts[i]
        case _ => false)
  }

  lemma ChunkRefused(level: string, first: bool, last: bool)
    requires level != "" && FilterChunk(level, first, last).Err?
    ensures var e := FilterChunk(level, first, last).error;
      match e
      case HashNotLast => level == "#" && !last
      case PartialWildcard(l) => l == level && |level| > 1 && ('+' in level || '#' in level)
      case ReservedChar(c) => Refused(level, c) && '+' !in level && '#' !in level
      case _ => false
  {
    CharsRefused(level);
    if |level| == 1 {
      assert level == [level[0]];
    }
  }

  lemma {:induction false} FilterErrorAt(parts: seq<string>, first: bool) returns (i: nat)
    requires "" !in parts && FilterChunks(parts, first).Err?
    ensures FilterRefusedAt(parts, first, i, FilterChunks(parts, first).error)
  {
    var chunk := FilterChunk(parts[0], first, |parts| == 1);
    if chunk.Err? {
      ChunkRefused(parts[0], first, |parts| == 1);
      i := 0;
    } else {
      var tail := parts[1..];
      ChunkAcceptedIff(parts[0], first, |parts| == 1);
      var k := FilterErrorAt(tail, false);
      i := k + 1;
      forall j | 0 <= j < i
        ensures ValidLevel(parts[j], first && j == 0, false)
      {
        if j > 0 {
          assert parts[j] == tail[j - 1];
        }
      }
    }
  }

  /** A refused filter is refused for being empty, for an empty level, or for its leftmost bad
      level, and the error says which. */
  lemma FilterRefusal(f: string, scope: string) returns (i: nat)
    requires !ValidFilter(f)
    ensures FilterToKeyexpr(f, scope).Err?
    ensures var e, parts := FilterToKeyexpr(f, scope).error, Split(f, '/');
      if f == "" then e == Empty
      else if "" in parts then e == EmptyLevel
      else FilterRefusedAt(parts, true, i, e)
  {
    SubscribableIff(f, scope);
    i := 0;
    var parts := Split(f, '/');
    if f != "" && "" !in parts {
      i := FilterErrorAt(parts, true);
    }
  }

  datatype Keyspace = Plain | Sys | Meta | Retained

  function KeyIn(space: Keyspace, topic: string, scope: string): string {
    match space
    case Plain => Scoped(scope, topic)
    case Sys => SysKeyexpr(topic, scope)
    case Meta => MetaKeyexpr(topic, scope)
    case Retained => RetainedKeyexpr(topic, scope)
  }

  /** A key determines its keyspace and its topic: the four keyspaces are disjoint and each
      is injective. */
  lemma KeyspacesSeparate(a: Keyspace, x: string, b: Keyspace, y: string, scope: string)
    requires a.Plain? ==> ValidTopic(x)
    requires b.Plain? ==> ValidTopic(y)
    requires KeyIn(a, x, scope) == KeyIn(b, y, scope)
    ensures a == b && x == y
  {
    KeyDecodes(a, x, scope);
    KeyDecodes(b, y, scope);
    forall z | z == x || z == y
      ensures (SYS_PREFIX + "/" + z)[..2] == "$S" && (SYS_PREFIX + "/" + z)[5..] == z
      ensures (META_PREFIX + "/" + z)[..2] == "$m" && (META_PREFIX + "/" + z)[6..] == z
    {
    }
  }

  lemma KeyDecodes(space: Keyspace, x: string, scope: string)
    requires space.Plain? ==> ValidTopic(x)
    ensures var key := KeyIn(space, x, scope);
      match space
      case Plain => KeyexprToTopic(key, scope) == Some(x) && x != "" && x[0] != '$'
      case Sys => KeyexprToTopic(key, scope) == Some(SYS_PREFIX + "/" + x)
      case Meta => KeyexprToTopic(key, scope) == Some(META_PREFIX + "/" + x)
      case Retained => KeyexprToTopic(key, scope) == None && RetainedKeyexprToTopic(key, scope) == Some(x)
  {
    InternalRoundTrips(x, scope);
    if space.Plain? {
      PublishableIff(x, scope);
      TopicRoundTrip(x, scope);
      ValidTopicStart(x);
      if x[0] == '$' {
        SplitKeepsChars(x, '/', '$');
      }
    }
  }

  /** The level a chunk of a key expression came from. */
  function ChunkToLevel(chunk: string): string {
    if chunk == SYS_CHUNK then SYS_PREFIX
    else if chunk == META_CHUNK then META_PREFIX
    else if chunk == "*" then "+"
    else if chunk == "**" then "#"
    else chunk
  }

  lemma ChunkInverts(level: string, first: bool, last: bool)
    requires level != "" && FilterChunk(level, first, last).Ok?
    ensures ChunkToLevel(FilterChunk(level, first, last).value) == level
  {
    ChunkAcceptedIff(level, first, last);
    assert "**"[0] == '*' && "*"[0] == '*' && SYS_CHUNK[0] == '@' && META_CHUNK[0] == '@';
  }

  lemma {:induction false} ChunksInvert(parts: seq<string>, first: bool)
    requires "" !in parts && FilterChunks(parts, first).Ok?
    ensures var chunks := FilterChunks(parts, first).value;
      forall i :: 0 <= i < |parts| ==> ChunkToLevel(chunks[i]) == parts[i]
  {
    if parts != [] {
      var tail := parts[1..];
      assert forall p :: p in tail ==> p in parts;
      ChunksInvert(tail, false);
      ChunkInverts(parts[0], first, |parts| == 1);
      var chunks, rest := FilterChunks(parts, first).value, FilterChunks(tail, false).value;
      assert forall i :: 0 < i < |parts| ==> chunks[i] == rest[i - 1] && parts[i] == tail[i - 1];
    }
  }

  /** The filter translation loses nothing: different valid filters get different key
      expressions. */
  lemma FilterTranslationInjective(f: string, g: string, scope: string)
    requires ValidFilter(f) && ValidFilter(g)
    requires FilterToKeyexpr(f, scope) == FilterToKeyexpr(g, scope)
    ensures f == g
  {
    TranslatedChunks(f, scope);
    TranslatedChunks(g, scope);
    var prefix := ScopeChunks(scope);
    var fs, gs := Split(f, '/'), Split(g, '/');
    var fc, gc := FilterChunks(fs, true).value, FilterChunks(gs, true).value;
    assert fc == (prefix + fc)[|prefix|..] && gc == (prefix + gc)[|prefix|..];
    ChunksInvert(fs, true);
    ChunksInvert(gs, true);
    assert forall i :: 0 <= i < |fs| ==> fs[i] == ChunkToLevel(fc[i]) == gs[i];
    assert fs == gs;
    SplitInjective(f, g, '/');
  }
}
