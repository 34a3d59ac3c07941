/** `filter_covers` decides inclusion between filters, up to one pair. */
module FilterCoverage {
  import opened Strings
  import opened Topic
  import opened TopicTheorems

  // ---------------------------------------------------------------- a preorder

  lemma {:induction false} LevelsCoverReflexive(f: seq<string>)
    ensures LevelsCover(f, f)
  {
    if f != [] && f[0] != "#" {
      LevelsCoverReflexive(f[1..]);
    }
  }

  lemma {:induction false} LevelsCoverTransitive(a: seq<string>, b: seq<string>, c: seq<string>)
    requires LevelsCover(a, b) && LevelsCover(b, c)
    ensures LevelsCover(a, c)
  {
    if a != [] && a[0] != "#" {
      LevelsCoverTransitive(a[1..], b[1..], c[1..]);
    }
  }

  lemma CoverIsPreorder(a: string, b: string, c: string)
    ensures FilterCovers(a, a)
    ensures FilterCovers(a, b) && FilterCovers(b, c) ==> FilterCovers(a, c)
  {
    LevelsCoverReflexive(Split(a, '/'));
    if FilterCovers(a, b) && FilterCovers(b, c) {
      LevelsCoverTransitive(Split(a, '/'), Split(b, '/'), Split(c, '/'));
    }
  }

  // ---------------------------------------------------------------- soundness

  lemma {:induction false} LevelsCoverSound(o: seq<string>, i: seq<string>, t: seq<string>)
    requires LevelsCover(o, i) && LevelsMatch(i, t)
    ensures LevelsMatch(o, t)
  {
    if o != [] && o[0] != "#" {
      LevelsCoverSound(o[1..], i[1..], t[1..]);
    }
  }

  /** Whatever the strings, a covered filter matches no topic the covering one misses. */
  lemma CoverSound(outer: string, inner: string, t: string)
    requires FilterCovers(outer, inner) && TopicMatches(inner, t)
    ensures TopicMatches(outer, t)
  {
    LevelsCoverSound(Split(outer, '/'), Split(inner, '/'), Split(t, '/'));
  }

  // ---------------------------------------------------------------- completeness

  predicate NameLevel(l: string) {
    l != "" && '+' !in l && '#' !in l && '/' !in l
  }

  predicate NameLevels(t: seq<string>) {
    forall l :: l in t ==> NameLevel(l)
  }

  predicate FilterLevels(f: seq<string>) {
    forall i :: 0 <= i < |f| ==> f[i] == "+" || (f[i] == "#" && i == |f| - 1) || NameLevel(f[i])
  }

  /** The shortest topic a filter matches, with `novel` in place of every `+`. */
  function Instance(f: seq<string>, novel: string): (t: seq<string>)
    requires FilterLevels(f) && NameLevel(novel)
    ensures NameLevels(t) && LevelsMatch(f, t)
  {
    if f == [] || f[0] == "#" then []
    else
      var tail := Instance(f[1..], novel);
      var t := [if f[0] == "+" then novel else f[0]] + tail;
      assert t[1..] == tail;
      t
  }

  /** A topic that separates `inner` from a filter that does not cover it. */
  lemma {:induction false} Separate(o: seq<string>, i: seq<string>, novel: string) returns (t: seq<string>)
    requires FilterLevels(o) && FilterLevels(i) && !LevelsCover(o, i)
    requires NameLevel(novel) && novel !in o
    ensures NameLevels(t) && LevelsMatch(i, t) && !LevelsMatch(o, t)
    ensures i != [] && i[0] != "#" ==> t != []
  {
    if i == [] || (i[0] == "#" && o != []) {
      t := [];
    } else if i[0] == "#" {
      t := [novel];
    } else {
      var head := if i[0] == "+" then novel else i[0];
      if o != [] && (o[0] == "+" || o[0] == i[0]) {
        var tail := Separate(o[1..], i[1..], novel);
        t := [head] + tail;
        assert t[1..] == tail;
      } else {
        t := Instance(i, novel);
        assert t[0] == head;
      }
    }
  }

  /** At the top level the topic must not be empty, which `#` alone can only meet with
      levels of its own: `+/#` then matches every topic that `#` does. */
  lemma SeparateTop(o: seq<string>, i: seq<string>, novel: string) returns (t: seq<string>)
    requires FilterLevels(o) && FilterLevels(i) && !LevelsCover(o, i)
    requires o != [] && i != [] && !(o == ["+", "#"] && i == ["#"])
    requires NameLevel(novel) && novel !in o
    ensures t != [] && NameLevels(t) && LevelsMatch(i, t) && !LevelsMatch(o, t)
  {
    if i[0] != "#" {
      t := Separate(o, i, novel);
    } else {
      t := if o == ["+"] then [novel, novel] else [novel];
      assert [novel, novel][1..] == [novel] && [novel][1..] == [];
      assert o[0] in o;
      assert |o| > 1 ==> o[1..] != [];
      assert |o| == 2 && o[0] == "+" && o[1] == "#" ==> o == ["+", "#"];
      assert |o| > 2 ==> o[1] != "#";
    }
  }

  predicate WildcardFree(t: string) {
    '+' !in t && '#' !in t
  }

  function NovelLevel(n: nat): (s: string)
    ensures |s| == n && forall c :: c in s ==> c == 'x'
  {
    if n == 0 then "" else "x" + NovelLevel(n - 1)
  }

  lemma ValidFilterLevels(f: string)
    requires ValidFilter(f)
    ensures FilterLevels(Split(f, '/'))
  {
    var parts := Split(f, '/');
    SplitPieces(f, '/');
    forall i | 0 <= i < |parts|
      ensures parts[i] == "+" || (parts[i] == "#" && i == |parts| - 1) || NameLevel(parts[i])
    {
      assert ValidLevel(parts[i], i == 0, i == |parts| - 1) && parts[i] in parts;
    }
  }

  lemma Uncovered(outer: string, inner: string) returns (t: string)
    requires ValidFilter(outer) && ValidFilter(inner) && !FilterCovers(outer, inner)
    requires !(outer == "+/#" && inner == "#")
    ensures t != "" && WildcardFree(t) && TopicMatches(inner, t) && !TopicMatches(outer, t)
  {
    var o, i := Split(outer, '/'), Split(inner, '/');
    ValidFilterLevels(outer);
    ValidFilterLevels(inner);
    JoinSplit(outer, '/');
    JoinSplit(inner, '/');
    SplitPieces(outer, '/');
    assert !(o == ["+", "#"] && i == ["#"]) by {
      PlusHashSplit();
      SplitNoSep("#", '/');
      JoinSplit("+/#", '/');
    }
    var levels := SeparateTop(o, i, NovelLevel(|outer| + 1));
    t := Join(levels, '/');
    SplitJoin(levels, '/');
    if '+' in t {
      SplitKeepsChars(t, '/', '+');
    }
    if '#' in t {
      SplitKeepsChars(t, '/', '#');
    }
    assert t != "" by {
      assert levels[0] in levels;
    }
  }

  /** For valid filters, coverage is exactly inclusion over the named topics, except that
      `+/#` includes `#` without covering it. */
  lemma CoverIffInclusion(outer: string, inner: string)
    requires ValidFilter(outer) && ValidFilter(inner)
    ensures FilterCovers(outer, inner) || (outer == "+/#" && inner == "#") <==>
      forall t :: t != "" && WildcardFree(t) && TopicMatches(inner, t) ==> TopicMatches(outer, t)
    ensures !FilterCovers("+/#", "#")
  {
    if FilterCovers(outer, inner) {
      forall t | TopicMatches(inner, t)
        ensures TopicMatches(outer, t)
      {
        CoverSound(outer, inner, t);
      }
    } else if outer == "+/#" && inner == "#" {
      forall t
        ensures TopicMatches(outer, t)
      {
        PlusHashMatchesAll(t);
      }
    } else {
      var t := Uncovered(outer, inner);
    }
    PlusHashSplit();
    assert Split("#", '/') == ["#"] by {
      SplitNoSep("#", '/');
    }
  }

  lemma PlusHashSplit()
    ensures Split("+/#", '/') == ["+", "#"]
  {
    SplitNoSep("+", '/');
    SplitNoSep("#", '/');
    SplitConcat("+", "#", '/');
    assert "+/#" == "+" + "/" + "#";
  }

  lemma PlusHashMatchesAll(t: string)
    ensures TopicMatches("+/#", t)
  {
    PlusHashSplit();
    assert ["+", "#"][1..] == ["#"];
  }
}
