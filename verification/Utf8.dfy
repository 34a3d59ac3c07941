/** UTF-8, as used for every string that reaches a state file. */
module Utf8 {
  import opened Common

  /** The low `k` six-bit digits of `v` as continuation bytes. */
  function Tail(v: nat, k: nat): (b: seq<byte>)
    ensures |b| == k && forall x :: x in b ==> Continuation(x)
  {
    if k == 0 then [] else Tail(v / 64, k - 1) + [0x80 + v % 64]
  }

  /** What is left of `v` above its low `k` six-bit digits. */
  function Top(v: nat, k: nat): nat {
    if k == 0 then v else Top(v / 64, k - 1)
  }

  /** The number spelled by a lead byte's payload and its continuation bytes. */
  function Value(lead: nat, tail: seq<byte>): nat {
    if tail == [] then lead else Value(lead, tail[..|tail| - 1]) * 64 + Digit(tail[|tail| - 1])
  }

  function Digit(b: byte): nat {
    if b < 0x80 then 0 else b - 0x80
  }

  predicate Continuation(b: byte) {
    0x80 <= b < 0xC0
  }

  lemma {:induction false} ValueOfDigits(v: nat, k: nat)
    ensures Value(Top(v, k), Tail(v, k)) == v
  {
    if k > 0 {
      ValueOfDigits(v / 64, k - 1);
      assert Tail(v, k)[..k - 1] == Tail(v / 64, k - 1);
    }
  }

  lemma {:induction false} DigitsOfValue(lead: nat, tail: seq<byte>)
    requires forall x :: x in tail ==> Continuation(x)
    ensures Top(Value(lead, tail), |tail|) == lead && Tail(Value(lead, tail), |tail|) == tail
  {
    if tail != [] {
      var short, last := tail[..|tail| - 1], tail[|tail| - 1];
      assert last in tail && forall x :: x in short ==> x in tail;
      DigitsOfValue(lead, short);
      assert Value(lead, tail) / 64 == Value(lead, short);
      assert tail == short + [last];
    }
  }

  /** The smallest value that needs `k` continuation bytes. */
  function Least(k: nat): nat {
    if k == 0 then 0 else if k == 1 then 0x80 else if k == 2 then 0x800 else if k == 3 then 0x10000 else 0x110000
  }

  /** The lead byte of a character with `k` continuation bytes, before its payload. */
  function Mark(k: nat): nat {
    if k == 0 then 0 else if k == 1 then 0xC0 else if k == 2 then 0xE0 else 0xF0
  }

  function Width(v: nat): (k: nat)
    requires v < 0x110000
    ensures k <= 3 && Least(k) <= v < Least(k + 1)
    ensures Mark(k) + Top(v, k) < (if k == 0 then 0x80 else if k == 3 then 0xF8 else Mark(k + 1))
  {
    if v < 0x80 then 0 else if v < 0x800 then Top1(v); 1 else if v < 0x10000 then Top2(v); 2 else Top3(v); 3
  }

  lemma Top1(v: nat)
    ensures Top(v, 1) == v / 64
  {
  }

  lemma Top2(v: nat)
    ensures Top(v, 2) == v / 64 / 64
  {
    Top1(v / 64);
  }

  lemma Top3(v: nat)
    ensures Top(v, 3) == v / 64 / 64 / 64
  {
    Top2(v / 64);
  }

  function EncodeValue(v: nat): (b: seq<byte>)
    requires v < 0x110000
    ensures |b| == Width(v) + 1
  {
    var k := Width(v);
    [Mark(k) + Top(v, k)] + Tail(v, k)
  }

  function EncodeChar(c: char): (b: seq<byte>)
    ensures |b| >= 1
  {
    EncodeValue(c as int)
  }

  function Encode(s: string): seq<byte> {
    if s == "" then [] else EncodeChar(s[0]) + Encode(s[1..])
  }

  /** How many continuation bytes a lead byte announces. */
  function Announced(lead: byte): Option<nat> {
    if lead < 0x80 then Some(0)
    else if 0xC0 <= lead < 0xE0 then Some(1)
    else if 0xE0 <= lead < 0xF0 then Some(2)
    else if 0xF0 <= lead < 0xF8 then Some(3)
    else None
  }

  /** The character at the start of `b` and its width; overlong forms, surrogates and values
      past U+10FFFF are not characters. */
  function DecodeChar(b: seq<byte>): (r: Option<(char, nat)>)
    requires b != []
    ensures r.Some? ==> 1 <= r.value.1 <= |b|
  {
    var k := Announced(b[0]);
    if k.None? || |b| <= k.value then None
    else
      var lead: int := b[0];
      match Assemble(lead - Mark(k.value), b[1..k.value + 1])
      case None => None
      case Some(c) => Some((c, k.value + 1))
  }

  function Assemble(lead: nat, tail: seq<byte>): Option<char> {
    var v := Value(lead, tail);
    if (forall x :: x in tail ==> Continuation(x)) && Least(|tail|) <= v < 0x110000 && !(0xD800 <= v < 0xE000)
    then Some(v as char) else None
  }

  function Decode(b: seq<byte>): Option<string> {
    if b == [] then Some("")
    else
      match DecodeChar(b)
      case None => None
      case Some((c, n)) =>
        match Decode(b[n..])
        case None => None
        case Some(rest) => Some([c] + rest)
  }

  lemma {:induction false} AssembleDigits(c: char, v: nat, lead: nat, tail: seq<byte>)
    requires v == c as int && |tail| == Width(v) && Value(lead, tail) == v
    requires forall x :: x in tail ==> Continuation(x)
    ensures Assemble(lead, tail) == Some(c)
  {
  }

  lemma {:induction false} DecodeParts(b: seq<byte>, lead: nat, tail: seq<byte>, c: char)
    requires |tail| <= 3 && |b| > |tail| && b[0] == Mark(|tail|) + lead && Announced(b[0]) == Some(|tail|)
    requires b[1..|tail| + 1] == tail && Assemble(lead, tail) == Some(c)
    ensures DecodeChar(b) == Some((c, |tail| + 1))
  {
  }

  lemma {:induction false} LeadAnnounces(v: nat)
    requires v < 0x110000
    ensures var k := Width(v); k <= 3 && Mark(k) + Top(v, k) < 0x100 && Announced(Mark(k) + Top(v, k)) == Some(k)
  {
  }

  lemma {:induction false} AssembleEncoded(c: char, v: nat)
    requires v == c as int
    ensures Assemble(Top(v, Width(v)), Tail(v, Width(v))) == Some(c)
  {
    ValueOfDigits(v, Width(v));
    AssembleDigits(c, v, Top(v, Width(v)), Tail(v, Width(v)));
  }

  /** Bytes that start with a lead byte and its continuation bytes. */
  predicate Starts(e: seq<byte>, lead: nat, tail: seq<byte>) {
    && |tail| <= 3 && Mark(|tail|) + lead < 0x100 && Announced(Mark(|tail|) + lead) == Some(|tail|)
    && e == [Mark(|tail|) + lead] + tail
  }

  lemma {:induction false} EncodedStarts(v: nat)
    requires v < 0x110000
    ensures Starts(EncodeValue(v), Top(v, Width(v)), Tail(v, Width(v)))
  {
    LeadAnnounces(v);
  }

  lemma {:induction false} DecodeShaped(e: seq<byte>, lead: nat, tail: seq<byte>, rest: seq<byte>, c: char)
    requires Starts(e, lead, tail) && Assemble(lead, tail) == Some(c)
    ensures DecodeChar(e + rest) == Some((c, |tail| + 1))
  {
    var b := e + rest;
    assert b[0] == Mark(|tail|) + lead && b[1..|tail| + 1] == tail;
    DecodeParts(b, lead, tail, c);
  }

  lemma {:induction false} ValueRoundTrip(c: char, v: nat, rest: seq<byte>)
    requires v == c as int
    ensures DecodeChar(EncodeValue(v) + rest) == Some((c, Width(v) + 1))
  {
    EncodedStarts(v);
    AssembleEncoded(c, v);
    DecodeShaped(EncodeValue(v), Top(v, Width(v)), Tail(v, Width(v)), rest, c);
  }

  lemma {:induction false} CharRoundTrip(c: char, rest: seq<byte>)
    ensures DecodeChar(EncodeChar(c) + rest) == Some((c, |EncodeChar(c)|))
  {
    ValueRoundTrip(c, c as int, rest);
  }

  lemma {:induction false} AssembleInverse(lead: nat, tail: seq<byte>, c: char)
    requires Assemble(lead, tail) == Some(c)
    ensures c as int == Value(lead, tail) && Least(|tail|) <= Value(lead, tail) < 0x110000
    ensures forall x :: x in tail ==> Continuation(x)
  {
  }

  lemma {:induction false} ValueCanonical(v: nat, k: nat, lead: nat, tail: seq<byte>)
    requires k == |tail| <= 3 && Value(lead, tail) == v && Least(k) <= v < 0x110000
    requires v < Least(k + 1) || k == 3
    requires forall x :: x in tail ==> Continuation(x)
    ensures Width(v) == k && EncodeValue(v) == [Mark(k) + lead] + tail
  {
    DigitsOfValue(lead, tail);
  }

  lemma {:induction false} CharCanonical(b: seq<byte>, c: char, n: nat)
    requires b != [] && DecodeChar(b) == Some((c, n))
    ensures n <= |b| && EncodeChar(c) == b[..n]
  {
    var k, lead: int := Announced(b[0]).value, b[0];
    var tail := b[1..k + 1];
    AssembleInverse(lead - Mark(k), tail, c);
    LeadBounds(b[0], tail);
    ValueCanonical(c as int, k, lead - Mark(k), tail);
    assert b[..k + 1] == [b[0]] + tail;
  }

  lemma {:induction false} LeadBounds(lead: byte, tail: seq<byte>)
    requires Announced(lead) == Some(|tail|) && forall x :: x in tail ==> Continuation(x)
    ensures Value(lead - Mark(|tail|), tail) < Least(|tail| + 1) || |tail| == 3
  {
    var v := Value(lead - Mark(|tail|), tail);
    DigitsOfValue(lead - Mark(|tail|), tail);
    if |tail| == 1 {
      Top1(v);
    } else if |tail| == 2 {
      Top2(v);
    }
  }

  lemma {:induction false} EncodeCons(c: char, s: string)
    ensures Encode([c] + s) == EncodeChar(c) + Encode(s)
  {
    assert ([c] + s)[1..] == s;
  }

  lemma {:induction false} DecodeCons(b: seq<byte>, c: char, n: nat)
    requires b != [] && DecodeChar(b) == Some((c, n))
    ensures Decode(b) == match Decode(b[n..]) case None => None case Some(rest) => Some([c] + rest)
  {
  }

  lemma {:induction false} DecodeEncode(s: string)
    ensures Decode(Encode(s)) == Some(s)
  {
    if s != "" {
      var head, rest := EncodeChar(s[0]), Encode(s[1..]);
      CharRoundTrip(s[0], rest);
      DecodeEncode(s[1..]);
      DecodeCons(head + rest, s[0], |head|);
      assert (head + rest)[|head|..] == rest;
      assert s == [s[0]] + s[1..];
    }
  }

  lemma {:induction false} EncodeJoined(b: seq<byte>, c: char, n: nat, rest: string)
    requires n <= |b| && EncodeChar(c) == b[..n] && Encode(rest) == b[n..]
    ensures Encode([c] + rest) == b
  {
    EncodeCons(c, rest);
    assert b == b[..n] + b[n..];
  }

  lemma {:induction false} EncodeDecode(b: seq<byte>)
    requires Decode(b).Some?
    ensures Encode(Decode(b).value) == b
  {
    if b != [] {
      var (c, n) := DecodeChar(b).value;
      DecodeCons(b, c, n);
      EncodeDecode(b[n..]);
      CharCanonical(b, c, n);
      EncodeJoined(b, c, n, Decode(b[n..]).value);
    }
  }

  lemma EncodeInjective(s: string, t: string)
    requires Encode(s) == Encode(t)
    ensures s == t
  {
    DecodeEncode(s);
    DecodeEncode(t);
  }
}
