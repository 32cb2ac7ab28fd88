/** How long to wait before reconnection attempt number `attempt`, counting from one. */
module Backoff {
  import opened Basics

  // Integer division as C++ does it, towards zero.
  function Half(x: int): int {
    if 0 <= x then x / 2 else -(-x / 2)
  }

  // The doubling loop, with this many turns left.
  function Doubled(delay: int, max: int, turns: nat): int
    decreases turns
  {
    if turns == 0 then Min(delay, max)
    else if Half(max) <= delay then max
    else Doubled(delay * 2, max, turns - 1)
  }

  function Delay(attempt: int, initial: int, max: int): int {
    if attempt <= 1 then initial else Doubled(initial, max, attempt - 1)
  }

  method ReconnectDelay(attempt: int, initial: int, max: int) returns (delay: int)
    ensures delay == Delay(attempt, initial, max)
  {
    if attempt <= 1 {
      return initial;
    }
    delay := initial;
    for i := 1 to attempt
      invariant Delay(attempt, initial, max) == Doubled(delay, max, attempt - i)
      invariant 0 < initial <= max ==> 0 < delay <= max  // nothing on the way overflows
    {
      if Half(max) <= delay {
        return max;
      }
      delay := delay * 2;
    }
    delay := Min(delay, max);
  }

  // A doubling that lands one short of an odd ceiling is rounded up to it.
  function JustShort(scaled: int, max: int): bool {
    max % 2 == 1 && scaled == max - 1
  }

  lemma {:induction false} DoubledIsPower(delay: int, max: int, turns: nat)
    requires 0 < delay && 0 < turns
    requires 0 < max
    decreases turns
    ensures Doubled(delay, max, turns) ==
      if JustShort(delay * Pow2(turns), max) then max else Min(delay * Pow2(turns), max)
  {
    assert Pow2(turns) == 2 * Pow2(turns - 1);
    assert delay * Pow2(turns) == delay * 2 * Pow2(turns - 1);
    PowerGrows(delay * 2, turns - 1);
    if Half(max) <= delay {
      assert max - 1 <= delay * 2 <= delay * Pow2(turns);
    } else if turns == 1 {
      assert Pow2(0) == 1;
    } else {
      DoubledIsPower(delay * 2, max, turns - 1);
    }
  }

  lemma {:induction false} PowerGrows(delay: int, turns: nat)
    requires 0 < delay
    ensures delay <= delay * Pow2(turns)
    ensures 0 < turns ==> delay < delay * Pow2(turns)
    decreases turns
  {
    if 0 < turns {
      PowerGrows(delay, turns - 1);
      assert delay * Pow2(turns) == 2 * (delay * Pow2(turns - 1));
    } else {
      assert Pow2(0) == 1;
    }
  }

  // Half, cut off towards zero.
  lemma {:induction false} HalfIs(x: int)
    ensures if 0 <= x then x - 1 <= 2 * Half(x) <= x else x <= 2 * Half(x) <= x + 1
  {
  }

  // A first wait above the ceiling is waited once; the ceiling is what follows.
  lemma {:induction false} AboveTheCeiling(k: nat, initial: int, max: int)
    requires 1 <= k && 0 < initial && max <= initial
    ensures Delay(k, initial, max) == if k == 1 then initial else max
  {
    HalfIs(max);
  }

  // The k-th wait, for any sensible pair of delays.
  lemma {:induction false} KthDelay(k: nat, initial: int, max: int)
    requires 1 <= k && 0 < initial <= max
    ensures var scaled := initial * Pow2(k - 1);
      Delay(k, initial, max) == if 1 < k && JustShort(scaled, max) then max else Min(scaled, max)
    ensures initial <= Delay(k, initial, max) <= max
  {
    PowerGrows(initial, k - 1);
    if 1 < k {
      DoubledIsPower(initial, max, k - 1);
    }
  }

  lemma {:induction false} NextDelayIsNoShorter(k: nat, initial: int, max: int)
    requires 1 <= k && 0 < initial <= max
    ensures Delay(k, initial, max) <= Delay(k + 1, initial, max)
  {
    KthDelay(k, initial, max);
    KthDelay(k + 1, initial, max);
    PowerGrows(initial, k - 1);
    TwiceAsMuch(initial, k - 1);
    hide Pow2, Delay;
  }

  lemma {:induction false} TwiceAsMuch(delay: int, turns: nat)
    ensures delay * Pow2(turns + 1) == 2 * (delay * Pow2(turns))
  {
    var p := Pow2(turns);
    assert Pow2(turns + 1) == 2 * p;
    assert delay * (2 * p) == 2 * (delay * p);
  }

  // The waits never shorten exactly when the first one is under the ceiling.
  lemma {:induction false} NeverShortensExactlyWhen(initial: int, max: int)
    requires 0 < initial
    ensures (forall k: nat :: 1 <= k ==> Delay(k, initial, max) <= Delay(k + 1, initial, max)) <==> initial <= max
  {
    if initial <= max {
      forall k: nat | 1 <= k
        ensures Delay(k, initial, max) <= Delay(k + 1, initial, max)
      {
        NextDelayIsNoShorter(k, initial, max);
      }
    } else {
      assert Half(max) <= initial;
      assert Delay(1, initial, max) == initial && Delay(1 + 1, initial, max) == max;
    }
  }
}
