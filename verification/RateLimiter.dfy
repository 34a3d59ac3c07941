/** The publish token bucket: capacity is one second's worth of the configured rate. Times are
    in seconds. */
module RateLimiter {

  class Limiter {
    const rate: real
    var tokens: real
    var last: real

    predicate Valid()
      reads this
    {
      0.0 <= tokens <= rate
    }

    constructor (ratePerSec: nat, now: real)
      ensures Valid() && rate == ratePerSec as real && tokens == rate && last == now
    {
      rate, tokens, last := ratePerSec as real, ratePerSec as real, now;
    }

    /** Admit or refuse one publish at time `now`. */
    method Allow(now: real) returns (ok: bool)
      requires Valid() && now >= last
      modifies `tokens, `last
      ensures Valid()
      ensures rate == 0.0 ==> ok && tokens == old(tokens) && last == old(last)
      ensures rate != 0.0 ==> last == now
      ensures rate != 0.0 ==> ok == (Refilled(rate, old(tokens), now - old(last)) >= 1.0)
      ensures rate != 0.0 ==> tokens == Refilled(rate, old(tokens), now - old(last)) - if ok then 1.0 else 0.0
    {
      if rate == 0.0 {
        return true;
      }
      var level := tokens + rate * (now - last);
      Product(rate, now - last);
      tokens := if level < rate then level else rate;
      last := now;
      ok := tokens >= 1.0;
      if ok {
        tokens := tokens - 1.0;
      }
    }
  }

  lemma Product(a: real, b: real)
    requires a >= 0.0 && b >= 0.0
    ensures a * b >= 0.0
  {
  }

  function Min(a: real, b: real): real {
    if a < b then a else b
  }

  function Refilled(rate: real, tokens: real, elapsed: real): real {
    Min(tokens + rate * elapsed, rate)
  }

  // ---------------------------------------------------------------- runs of calls

  /** Call times, none before the one before it. */
  predicate Ordered(times: seq<real>) {
    forall i, j :: 0 <= i < j < |times| ==> times[i] <= times[j]
  }

  /** The bucket's level when the call at `times[k]` is decided, after refilling. A new bucket
      is full, so it is still full at the first call. */
  function Level(rate: real, times: seq<real>, k: nat): real
    requires k < |times|
    decreases k, 0
  {
    if k == 0 then rate else Refilled(rate, After(rate, times, k - 1), times[k] - times[k - 1])
  }

  predicate Allowed(rate: real, times: seq<real>, k: nat)
    requires k < |times|
    decreases k, 1
  {
    Level(rate, times, k) >= 1.0
  }

  /** The level after the call at `times[k]`. */
  function After(rate: real, times: seq<real>, k: nat): real
    requires k < |times|
    decreases k, 2
  {
    Level(rate, times, k) - if Allowed(rate, times, k) then 1.0 else 0.0
  }

  /** How many of the calls `i..j` are admitted. */
  function Admitted(rate: real, times: seq<real>, i: nat, j: nat): nat
    requires i <= j <= |times|
  {
    if i == j then 0 else Admitted(rate, times, i, j - 1) + if Allowed(rate, times, j - 1) then 1 else 0
  }

  /** What a window from call `i` to call `k` may admit: one full bucket, plus what flows in. */
  function Budget(rate: real, times: seq<real>, i: nat, k: nat): real
    requires i < |times| && k < |times|
  {
    rate * (1.0 + (times[k] - times[i]))
  }

  /** Admitting call `k` too would overrun the window that starts at call `i`. */
  predicate OverBudget(rate: real, times: seq<real>, i: nat, k: nat)
    requires i <= k < |times|
  {
    Admitted(rate, times, i, k) as real + 1.0 > Budget(rate, times, i, k)
  }

  lemma BudgetGrows(rate: real, times: seq<real>, i: nat, k: nat)
    requires rate >= 0.0 && Ordered(times) && i <= k && k + 1 < |times|
    ensures Budget(rate, times, i, k + 1) == Budget(rate, times, i, k) + rate * (times[k + 1] - times[k])
    ensures rate * (times[k + 1] - times[k]) >= 0.0
  {
    Product(rate, times[k + 1] - times[k]);
  }

  lemma BudgetOfOne(rate: real, times: seq<real>, k: nat)
    requires k < |times|
    ensures Budget(rate, times, k, k) == rate
  {
  }

  /** The level never exceeds what any window ending here still allows. */
  lemma {:induction false} LevelWithinBudget(rate: real, times: seq<real>, i: nat, k: nat)
    requires rate >= 1.0 && Ordered(times) && i <= k < |times|
    ensures Level(rate, times, k) + Admitted(rate, times, i, k) as real <= Budget(rate, times, i, k)
    decreases k
  {
    BudgetOfOne(rate, times, k);
    if i < k {
      LevelWithinBudget(rate, times, i, k - 1);
      BudgetGrows(rate, times, i, k - 1);
    }
  }

  /** And it equals what one of them allows. */
  lemma {:induction false} SomeWindowIsTight(rate: real, times: seq<real>, k: nat) returns (i: nat)
    requires rate >= 1.0 && Ordered(times) && k < |times|
    ensures i <= k && Level(rate, times, k) + Admitted(rate, times, i, k) as real == Budget(rate, times, i, k)
    decreases k
  {
    BudgetOfOne(rate, times, k);
    if k == 0 || Level(rate, times, k) == rate {
      i := k;
    } else {
      i := SomeWindowIsTight(rate, times, k - 1);
      BudgetGrows(rate, times, i, k - 1);
    }
  }

  lemma {:induction false} LevelBounds(rate: real, times: seq<real>, k: nat)
    requires rate >= 1.0 && Ordered(times) && k < |times|
    ensures 0.0 <= Level(rate, times, k) <= rate && 0.0 <= After(rate, times, k) <= rate
  {
    if k > 0 {
      LevelBounds(rate, times, k - 1);
      var elapsed := times[k] - times[k - 1];
      Product(rate, elapsed);
      assert Level(rate, times, k) == Refilled(rate, After(rate, times, k - 1), elapsed);
    }
  }

  /** In any window of calls, at most rate * (1 + its length) are admitted. */
  lemma WindowBound(rate: real, times: seq<real>, i: nat, k: nat)
    requires rate >= 1.0 && Ordered(times) && i <= k < |times|
    ensures Admitted(rate, times, i, k + 1) as real <= rate * (1.0 + (times[k] - times[i]))
  {
    LevelWithinBudget(rate, times, i, k);
    LevelBounds(rate, times, k);
  }

  /** A publish is refused exactly when admitting it would break the bound of some window that
      ends with it: the limiter is as generous as the bound allows. */
  lemma RefusedIff(rate: real, times: seq<real>, k: nat)
    requires rate >= 1.0 && Ordered(times) && k < |times|
    ensures !Allowed(rate, times, k) <==>
      exists i: nat :: i <= k && OverBudget(rate, times, i, k)
  {
    if Allowed(rate, times, k) {
      forall i: nat | i <= k
        ensures !OverBudget(rate, times, i, k)
      {
        LevelWithinBudget(rate, times, i, k);
      }
    } else {
      var i := SomeWindowIsTight(rate, times, k);
      assert OverBudget(rate, times, i, k);
    }
  }

  /** Publishes at least 1/rate apart are never refused. */
  lemma SpacedNeverRefused(rate: real, times: seq<real>, k: nat)
    requires rate >= 1.0 && Ordered(times) && k < |times|
    requires k > 0 ==> (times[k] - times[k - 1]) * rate >= 1.0
    ensures Allowed(rate, times, k)
  {
    if k > 0 {
      LevelBounds(rate, times, k - 1);
    }
  }

  /** A limiter made at time `created` and called at these times gives exactly these answers. */
  method Replay(rate: nat, created: real, times: seq<real>) returns (answers: seq<bool>)
    requires rate >= 1 && Ordered(times) && (times != [] ==> created <= times[0])
    ensures |answers| == |times|
    ensures forall k :: 0 <= k < |times| ==> answers[k] == Allowed(rate as real, times, k)
  {
    answers := [];
    var limiter := new Limiter(rate, created);
    var k := 0;
    while k < |times|
      invariant 0 <= k <= |times| && |answers| == k && limiter.Valid() && fresh(limiter)
      invariant limiter.rate == rate as real
      invariant limiter.last == if k == 0 then created else times[k - 1]
      invariant limiter.tokens == if k == 0 then rate as real else After(rate as real, times, k - 1)
      invariant forall j :: 0 <= j < k ==> answers[j] == Allowed(rate as real, times, j)
    {
      Product(rate as real, times[k] - limiter.last);
      var ok := limiter.Allow(times[k]);
      answers := answers + [ok];
      k := k + 1;
    }
  }
}
