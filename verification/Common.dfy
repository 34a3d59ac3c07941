/** Shared vocabulary: optional values, results, bytes, and bounded suffixes. */
module Common {

  datatype Option<+T> = None | Some(value: T)

  datatype Result<+T, +E> = Ok(value: T) | Err(error: E)

  /** A published message: the topic it surfaces under and its payload. */
  datatype Msg = Msg(topic: string, payload: seq<byte>)

  datatype QoS = AtMostOnce | AtLeastOnce | ExactlyOnce

  type byte = n: int | 0 <= n < 256

  /** The last `n` elements of `s`, or all of `s` when it is shorter. */
  function LastN<T>(s: seq<T>, n: nat): (r: seq<T>)
    ensures |r| == if |s| <= n then |s| else n
  {
    if |s| <= n then s else s[|s| - n..]
  }

  lemma LastNIs<T>(r: seq<T>, s: seq<T>, n: nat)
    requires r == LastN(s, n)
    ensures |r| <= |s| && forall i :: 0 <= i < |r| ==> r[i] == s[|s| - |r| + i]
  {
  }

  /** Appending to a bounded suffix and dropping the oldest element when it is full. */
  function PushBounded<T>(q: seq<T>, x: T, n: nat): (r: seq<T>)
  {
    (if |q| >= n && q != [] then q[1..] else q) + [x]
  }

  lemma PushBoundedIsLastN<T>(s: seq<T>, x: T, n: nat)
    requires n > 0
    ensures PushBounded(LastN(s, n), x, n) == LastN(s + [x], n)
  {
  }

  /** Dropping from the front goes through what is appended. */
  lemma DropConcat<T>(a: seq<T>, b: seq<T>, k: nat)
    requires k <= |a|
    ensures (a + b)[k..] == a[k..] + b
  {
  }

  lemma DropTwice<T>(s: seq<T>, k: nat, j: nat)
    requires k + j <= |s|
    ensures s[k..][j..] == s[k + j..]
  {
  }

  /** Bounding a prefix first loses nothing that a later bound would keep. */
  lemma LastNOfLastN<T>(a: seq<T>, b: seq<T>, n: nat)
    ensures LastN(LastN(a, n) + b, n) == LastN(a + b, n)
  {
    if |a| > n {
      var k := |a| - n;
      DropConcat(a, b, k);
      if |b| > 0 {
        DropTwice(a + b, k, |b|);
      }
    }
  }
}
