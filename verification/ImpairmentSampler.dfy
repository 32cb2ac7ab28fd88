/** The splitmix64 draw behind the network impairment, and what it decides. */
module ImpairmentSamplers {
  import opened Basics
  import opened Words

  const STEP: Word := 0x9E37_79B9_7F4A_7C15
  const FIRST: Word := 0xBF58_476D_1CE4_E5B9
  const SECOND: Word := 0x94D0_49BB_1331_11EB

  // Their inverses modulo 2^64.
  const UNSTEP: Word := 0xF1DE_83E1_9937_733D
  const UNFIRST: Word := 0x96DE_1B17_3F11_9089
  const UNSECOND: Word := 0x3196_42B2_D24D_8EC3

  function Folded(z: Word, places: nat): (r: Word) {
    TwoTo64();
    StirFits(z, places, 64);
    Stir(z, places)
  }

  function Unfolded(y: Word, places: nat): (r: Word) {
    TwoTo64();
    StirFits(y, places, 64);
    Unstir(y, places)
  }

  // What one draw makes of the state it has just stepped to.
  function Scramble(state: Word): Word {
    Folded(Wrap(Folded(Wrap(Folded(state, 30) * FIRST), 27) * SECOND), 31)
  }

  function Unscramble(draw: Word): Word {
    Unfolded(Wrap(Unfolded(Wrap(Unfolded(draw, 31) * UNSECOND), 27) * UNFIRST), 30)
  }

  // The state after n draws.
  function StateAfter(seed: Word, n: nat): Word {
    if n == 0 then seed else Wrap(StateAfter(seed, n - 1) + STEP)
  }

  // The n-th draw, counting from zero.
  function Draw(seed: Word, n: nat): Word {
    Scramble(StateAfter(seed, n + 1))
  }

  // --- A bijection ------------------------------------------------------------------------

  lemma {:induction false} WrapMultiplies(a: int, b: int)
    ensures Wrap(Wrap(a) * b) == Wrap(a * b)
  {
    var q := a / TWO_64;
    assert a == TWO_64 * q + Wrap(a);
    assert a * b == TWO_64 * (q * b) + Wrap(a) * b;
    Periodic(Wrap(a) * b, q * b);
  }

  lemma {:induction false} WrapAdds(a: int, b: int)
    ensures Wrap(Wrap(a) + b) == Wrap(a + b)
  {
    var q := a / TWO_64;
    assert a == TWO_64 * q + Wrap(a);
    Periodic(Wrap(a) + b, q);
  }

  lemma {:induction false} Periodic(a: int, q: int)
    ensures Wrap(TWO_64 * q + a) == Wrap(a)
  {
    var r := a / TWO_64;
    assert a == TWO_64 * r + Wrap(a);
    Unique(TWO_64 * q + a, q + r, Wrap(a));
  }

  lemma {:induction false} Unique(n: int, q: int, r: Word)
    requires n == TWO_64 * q + r
    ensures Wrap(n) == r
  {
    var q' := n / TWO_64;
    assert n == TWO_64 * q' + Wrap(n);
    assert TWO_64 * (q - q') == Wrap(n) - r;
  }

  lemma {:induction false} ProductUndone(z: Word, c: Word, inverse: Word)
    requires Wrap(c * inverse) == 1
    ensures Wrap(Wrap(z * c) * inverse) == z
  {
    Unique(z, 0, z);
    WrapMultiplies(z * c, inverse);
    WrapMultiplies(c * inverse, z);
    hide Wrap;
    assert z * c * inverse == (c * inverse) * z;
    assert 1 * z == z;
  }

  lemma {:induction false} Inverses()
    ensures Wrap(FIRST * UNFIRST) == 1 && Wrap(UNFIRST * FIRST) == 1
    ensures Wrap(SECOND * UNSECOND) == 1 && Wrap(UNSECOND * SECOND) == 1
    ensures Wrap(STEP * UNSTEP) == 1
  {
  }

  lemma {:induction false} FoldUndone(z: Word, places: nat)
    requires 22 <= places
    ensures Unfolded(Folded(z, places), places) == z && Folded(Unfolded(z, places), places) == z
  {
    TwoTo64();
    hide Stir, Unstir, Pow2;
    StirUndone(z, places, 64);
  }

  // Every word is the draw of exactly one state.
  lemma {:induction false} ScrambleIsABijection(z: Word)
    ensures Unscramble(Scramble(z)) == z && Scramble(Unscramble(z)) == z
  {
    hide Folded, Unfolded, Wrap;
    Inverses();
    var a := Folded(z, 30);
    var b := Folded(Wrap(a * FIRST), 27);
    FoldUndone(z, 30);
    FoldUndone(Wrap(a * FIRST), 27);
    FoldUndone(Wrap(b * SECOND), 31);
    ProductUndone(a, FIRST, UNFIRST);
    ProductUndone(b, SECOND, UNSECOND);
    var c := Unfolded(z, 31);
    var d := Unfolded(Wrap(c * UNSECOND), 27);
    FoldUndone(z, 31);
    FoldUndone(Wrap(c * UNSECOND), 27);
    FoldUndone(Wrap(d * UNFIRST), 30);
    ProductUndone(c, UNSECOND, SECOND);
    ProductUndone(d, UNFIRST, FIRST);
  }

  lemma {:induction false} DifferentStatesDrawDifferently(s: Word, t: Word)
    ensures Scramble(s) == Scramble(t) <==> s == t
  {
    hide Scramble, Unscramble;
    ScrambleIsABijection(s);
    ScrambleIsABijection(t);
  }

  // --- The full period --------------------------------------------------------------------

  lemma {:induction false} StateIs(seed: Word, n: nat)
    ensures StateAfter(seed, n) == Wrap(seed + n * STEP)
  {
    if n != 0 {
      StateIs(seed, n - 1);
      WrapAdds(seed + (n - 1) * STEP, STEP);
    }
  }

  lemma {:induction false} Distance(seed: Word, n: nat)
    ensures Wrap(StateAfter(seed, n) - seed) == Wrap(n * STEP)
  {
    StateIs(seed, n);
    WrapAdds(seed + n * STEP, 0 - seed as int);
    hide StateAfter, Wrap;
    assert seed + n * STEP + (0 - seed as int) == n * STEP;
  }

  // Multiplying by the inverse of the step counts the steps.
  lemma {:induction false} StepsRecovered(seed: Word, n: nat)
    ensures Wrap((StateAfter(seed, n) - seed) * UNSTEP) == Wrap(n)
  {
    Distance(seed, n);
    var d: int := StateAfter(seed, n) - seed;
    Inverses();
    hide StateAfter, Wrap;
    WrapMultiplies(d, UNSTEP);
    WrapMultiplies(n * STEP, UNSTEP);
    WrapMultiplies(STEP * UNSTEP, n);
    assert n * STEP * UNSTEP == (STEP * UNSTEP) * n;
    assert 1 * n == n;
  }

  lemma {:induction false} SameStateExactlyWhen(seed: Word, m: nat, n: nat)
    ensures StateAfter(seed, m) == StateAfter(seed, n) <==> Wrap(m) == Wrap(n)
  {
    StepsRecovered(seed, m);
    StepsRecovered(seed, n);
    StateIs(seed, m);
    StateIs(seed, n);
    hide StateAfter, Wrap;
    WrapMultiplies(m, STEP);
    WrapMultiplies(n, STEP);
    WrapAdds(m * STEP, seed);
    WrapAdds(n * STEP, seed);
    assert m * STEP + seed == seed + m * STEP && n * STEP + seed == seed + n * STEP;
  }

  lemma {:induction false} NextAgree(m: int, n: int)
    ensures Wrap(m + 1) == Wrap(n + 1) <==> Wrap(m) == Wrap(n)
  {
    WrapAdds(m, 1);
    WrapAdds(n, 1);
    WrapAdds(m + 1, -1);
    WrapAdds(n + 1, -1);
    hide Wrap;
    assert m + 1 + -1 == m && n + 1 + -1 == n;
  }

  // Two draws of one sampler agree exactly when they are a multiple of 2^64 draws apart.
  lemma {:induction false} DrawsRepeatExactlyEvery64Bits(seed: Word, m: nat, n: nat)
    ensures Draw(seed, m) == Draw(seed, n) <==> Wrap(m) == Wrap(n)
  {
    hide StateAfter, Scramble, Wrap;
    DifferentStatesDrawDifferently(StateAfter(seed, m + 1), StateAfter(seed, n + 1));
    SameStateExactlyWhen(seed, m + 1, n + 1);
    NextAgree(m, n);
  }

  lemma {:induction false} StepsCover(distance: int, steps: int)
    requires Wrap(steps) == Wrap(distance * UNSTEP)
    ensures Wrap(steps * STEP) == Wrap(distance)
  {
    Inverses();
    hide Wrap;
    WrapMultiplies(steps, STEP);
    WrapMultiplies(distance * UNSTEP, STEP);
    assert distance * UNSTEP * STEP == (STEP * UNSTEP) * distance;
    WrapMultiplies(STEP * UNSTEP, distance);
    assert 1 * distance == distance;
  }

  lemma {:induction false} StateReached(seed: Word, state: Word) returns (n: nat)
    ensures n < TWO_64 && StateAfter(seed, n + 1) == state
  {
    var d: int := state - seed;
    n := Wrap(d * UNSTEP - 1);
    WrapAdds(d * UNSTEP - 1, 1);
    StateIs(seed, n + 1);
    Unique(state, 0, state);
    hide StateAfter, Wrap;
    StepsCover(d, n + 1);
    var distance := (n + 1) * STEP;
    WrapAdds(distance, seed);
    WrapAdds(d, seed);
    assert distance + seed == seed + distance && d + seed == state;
  }

  // Whatever the seed, every word is drawn once in each run of 2^64.
  lemma {:induction false} EveryWordIsDrawn(seed: Word, word: Word) returns (n: nat)
    ensures n < TWO_64 && Draw(seed, n) == word
    ensures forall m: nat :: m < TWO_64 && Draw(seed, m) == word ==> m == n
  {
    hide StateAfter, Scramble, Unscramble;
    ScrambleIsABijection(word);
    n := StateReached(seed, Unscramble(word));
    forall m: nat | m < TWO_64 && Draw(seed, m) == word
      ensures m == n
    {
      DrawsRepeatExactlyEvery64Bits(seed, m, n);
    }
  }

  // --- Decisions, with reals for the doubles ------------------------------------------------

  function Uniform(draw: Word): real {
    Shr(draw, 11) as real / 9007199254740992.0
  }

  lemma {:induction false} UniformIsBelowOne(draw: Word)
    ensures 0.0 <= Uniform(draw) < 1.0
  {
    TwoTo64();
    ShiftFits(draw, 11, 53);
    assert Pow2(4) == 16 && Pow2(5) == 32 && Pow2(1) == 2;
    PowersJoin(4, 4);
    PowersJoin(8, 8);
    PowersJoin(16, 16);
    PowersJoin(32, 16);
    PowersJoin(48, 5);
    assert Pow2(53) == 9007199254740992;
    hide Shr, Pow2;
  }

  // To the nearest integer, halves away from zero.
  function Round(x: real): int {
    if x < 0.0 then -((-x + 0.5).Floor) else (x + 0.5).Floor
  }

  function Held(draw: Word, delay: int, jitter: int): int {
    Max(Round(delay as real + (Uniform(draw) * 2.0 - 1.0) * jitter as real), 0)
  }

  lemma {:induction false} RoundStaysBetween(x: real, low: int, high: int)
    requires low as real <= x <= high as real
    ensures low <= Round(x) <= high
  {
  }

  lemma {:induction false} Scaled(x: real, size: real)
    requires -1.0 <= x <= 1.0 && 0.0 <= size
    ensures -size <= x * size <= size
  {
  }

  // A packet is held for the delay, give or take the jitter, and never for less than nothing.
  lemma {:induction false} HeldWithinJitter(draw: Word, delay: int, jitter: int)
    requires 0 < jitter
    ensures Max(0, delay - jitter) <= Held(draw, delay, jitter) <= Max(0, delay + jitter)
  {
    var u := Uniform(draw);
    UniformIsBelowOne(draw);
    hide Uniform;
    var offset := (u * 2.0 - 1.0) * jitter as real;
    Scaled(u * 2.0 - 1.0, jitter as real);
    RoundStaysBetween(delay as real + offset, delay - jitter, delay + jitter);
  }

  class ImpairmentSampler {
    var state: Word

    constructor (seed: Word)
      ensures state == seed
    {
      state := seed;
    }

    method Next() returns (draw: Word)
      modifies this
      ensures state == StateAfter(old(state), 1) && draw == Draw(old(state), 0)
    {
      assert StateAfter(state, 0) == state;
      state := Wrap(state + STEP);
      var z := state;
      z := Wrap(Folded(z, 30) * FIRST);
      z := Wrap(Folded(z, 27) * SECOND);
      draw := Folded(z, 31);
    }

    // Certain either way, no draw is spent.
    method Drops(probability: real) returns (lost: bool)
      modifies this
      ensures if 0.0 < probability < 1.0
              then state == StateAfter(old(state), 1) && lost == (Uniform(Draw(old(state), 0)) < probability)
              else state == old(state) && lost == (1.0 <= probability)
    {
      if probability <= 0.0 {
        return false;
      }
      if 1.0 <= probability {
        return true;
      }
      var draw := Next();
      return Uniform(draw) < probability;
    }

    method Holds(delay: int, jitter: int) returns (held: int)
      modifies this
      ensures Max(0, delay - Max(0, jitter)) <= held <= Max(0, delay + Max(0, jitter))
      ensures if 0 < jitter
              then state == StateAfter(old(state), 1) && held == Held(Draw(old(state), 0), delay, jitter)
              else state == old(state)
    {
      if jitter <= 0 {
        return Max(delay, 0);
      }
      var draw := Next();
      HeldWithinJitter(draw, delay, jitter);
      return Held(draw, delay, jitter);
    }
  }
}
