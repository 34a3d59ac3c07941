/** Splitting and joining strings on a separator, and prefix stripping. */
module Strings {
  import opened Common

  /** Pieces of `s` between occurrences of `sep`; the empty string has one empty piece. */
  function Split(s: string, sep: char): (parts: seq<string>)
    ensures |parts| >= 1
  {
    if s == "" then [""]
    else
      ConsPieces(s[0], Split(s[1..], sep), sep)
  }

  function Join(parts: seq<string>, sep: char): string
    requires |parts| >= 1
  {
    if |parts| == 1 then parts[0] else parts[0] + [sep] + Join(parts[1..], sep)
  }

  function StripPrefix(s: string, prefix: string): (r: Option<string>)
    ensures r.Some? <==> prefix <= s
    ensures r.Some? ==> s == prefix + r.value
  {
    if prefix <= s then Some(s[|prefix|..]) else None
  }

  lemma {:induction false} JoinSplit(s: string, sep: char)
    ensures Join(Split(s, sep), sep) == s
  {
    if s != "" {
      JoinSplit(s[1..], sep);
      var rest := Split(s[1..], sep);
      var parts := Split(s, sep);
      if s[0] == sep {
        assert parts[1..] == rest;
      } else if |rest| > 1 {
        assert parts[1..] == rest[1..];
      }
    }
  }

  /** No piece contains the separator, and each is at most as long as the whole. */
  lemma {:induction false} SplitPieces(s: string, sep: char)
    ensures forall p :: p in Split(s, sep) ==> sep !in p && |p| <= |s| && forall c :: c in p ==> c in s
  {
    if s != "" {
      SplitPieces(s[1..], sep);
    }
  }

  /** Every character of `s` other than the separator lies in some piece. */
  lemma {:induction false} SplitKeepsChars(s: string, sep: char, c: char)
    requires c in s && c != sep
    ensures exists p :: p in Split(s, sep) && c in p
  {
    var parts, rest := Split(s, sep), Split(s[1..], sep);
    if s[0] == c {
      assert c in parts[0] && parts[0] in parts;
    } else {
      SplitKeepsChars(s[1..], sep, c);
      var p :| p in rest && c in p;
      var k :| 0 <= k < |rest| && rest[k] == p;
      if s[0] == sep {
        assert parts[k + 1] == p;
      } else {
        assert c in parts[k];
      }
    }
  }

  /** Put a character before the pieces of what follows it. */
  function ConsPieces(c: char, pieces: seq<string>, sep: char): seq<string>
    requires |pieces| >= 1
  {
    if c == sep then [""] + pieces else [[c] + pieces[0]] + pieces[1..]
  }

  lemma {:induction false} SplitCons(c: char, s: string, sep: char)
    ensures Split([c] + s, sep) == ConsPieces(c, Split(s, sep), sep)
  {
    assert ([c] + s)[1..] == s;
  }

  lemma ConsPiecesConcat(c: char, rest: seq<string>, tail: seq<string>, sep: char)
    requires |rest| >= 1
    ensures ConsPieces(c, rest + tail, sep) == ConsPieces(c, rest, sep) + tail
  {
    assert (rest + tail)[1..] == rest[1..] + tail;
  }

  lemma {:induction false} SplitConcat(a: string, b: string, sep: char)
    ensures Split(a + [sep] + b, sep) == Split(a, sep) + Split(b, sep)
  {
    if a == "" {
      SplitCons(sep, b, sep);
      assert a + [sep] + b == [sep] + b;
    } else {
      var rest := a[1..];
      SplitConcat(rest, b, sep);
      SplitCons(a[0], rest, sep);
      SplitCons(a[0], rest + [sep] + b, sep);
      ConsPiecesConcat(a[0], Split(rest, sep), Split(b, sep), sep);
      Reassemble(a, b, sep);
    }
  }

  lemma Reassemble(a: string, b: string, sep: char)
    requires a != ""
    ensures a == [a[0]] + a[1..] && a + [sep] + b == [a[0]] + (a[1..] + [sep] + b)
  {
  }

  lemma {:induction false} SplitNoSep(s: string, sep: char)
    requires sep !in s
    ensures Split(s, sep) == [s]
  {
    if s != "" {
      SplitNoSep(s[1..], sep);
      assert [s[0]] + s[1..] == s;
    }
  }

  lemma {:induction false} SplitJoin(parts: seq<string>, sep: char)
    requires |parts| >= 1
    requires forall p :: p in parts ==> sep !in p
    ensures Split(Join(parts, sep), sep) == parts
  {
    SplitNoSep(parts[0], sep);
    if |parts| > 1 {
      SplitJoin(parts[1..], sep);
      SplitConcat(parts[0], Join(parts[1..], sep), sep);
      assert parts == [parts[0]] + parts[1..];
    }
  }

  lemma SplitInjective(a: string, b: string, sep: char)
    requires Split(a, sep) == Split(b, sep)
    ensures a == b
  {
    JoinSplit(a, sep);
    JoinSplit(b, sep);
  }
}
