/** The draw, the fraction and the hold in plain arithmetic, and how often a packet is lost. */
module SamplerLaws {
  import opened Basics
  import opened Words
  import opened ImpairmentSamplers

  // --- The words ----------------------------------------------------------------------------

  function Bit(n: nat, i: nat): nat {
    n / Pow2(i) % 2
  }

  lemma {:induction false} HalfFirst(n: nat, i: nat)
    ensures n / Pow2(i + 1) == n / 2 / Pow2(i)
  {
    var p, q := Pow2(i), n / 2 / Pow2(i);
    assert Pow2(i + 1) == 2 * p;
    var r := n / 2 - p * q;
    assert 0 <= r < p;
    assert n == (2 * p) * q + (2 * r + n % 2) by {
      assert n == 2 * (n / 2) + n % 2;
      assert 2 * (p * q) == (2 * p) * q;
    }
    Quotient(n, 2 * p, q, 2 * r + n % 2);
  }

  lemma {:induction false} Quotient(n: int, d: int, q: int, r: int)
    requires n == d * q + r && 0 <= r < d
    ensures n / d == q
  {
    var k := n / d;
    assert n == d * k + n % d;
    if k < q {
      Times(d, k + 1, q);
    } else if q < k {
      Times(d, q + 1, k);
    }
  }

  lemma {:induction false} Times(d: int, a: int, b: int)
    requires 0 <= d && a <= b
    ensures d * a <= d * b
  {
  }

  // A shift is a division.
  lemma {:induction false} ShiftDivides(z: nat, places: nat)
    ensures Shr(z, places) == z / Pow2(places)
    decreases places
  {
    if places != 0 {
      ShiftDivides(z / 2, places - 1);
      HalfFirst(z, places - 1);
      hide Pow2;
    }
  }

  // Each bit of an exclusive or is set exactly where the two differ.
  lemma {:induction false} XorDiffers(a: nat, b: nat, i: nat)
    ensures Bit(Xor(a, b), i) == if Bit(a, i) == Bit(b, i) then 0 else 1
    decreases i
  {
    XorBits(a, b);
    BitFrom(a, i);
    BitFrom(b, i);
    BitFrom(Xor(a, b), i);
    hide Xor, Bit;
    if i != 0 {
      XorDiffers(a / 2, b / 2, i - 1);
    }
  }

  lemma {:induction false} BitFrom(n: nat, i: nat)
    ensures Bit(n, i) == if i == 0 then n % 2 else Bit(n / 2, i - 1)
  {
    if i == 0 {
      assert Pow2(0) == 1;
    } else {
      HalfFirst(n, i - 1);
      hide Pow2;
    }
  }

  lemma {:induction false} BitOfShift(z: nat, places: nat, i: nat)
    ensures Bit(Shr(z, places), i) == Bit(z, i + places)
  {
    ShiftDivides(z, places + i);
    ShiftDivides(Shr(z, places), i);
    ShiftsAdd(z, places, i);
    hide Shr, Pow2;
  }

  // y is z with itself, this many places further down, folded over it.
  ghost predicate Folds(y: nat, z: nat, places: nat) {
    forall i: nat :: Bit(y, i) == (Bit(z, i) + Bit(z, i + places)) % 2
  }

  lemma {:induction false} BitIsABit(n: nat, i: nat)
    ensures Bit(n, i) == 0 || Bit(n, i) == 1
  {
    hide Pow2;
  }

  lemma {:induction false} FoldedFolds(z: Word, places: nat)
    ensures Folds(Folded(z, places), z, places)
  {
    assert Folded(z, places) == Xor(z, Shr(z, places));
    hide Folded, Xor, Shr, Bit;
    forall i: nat
      ensures Bit(Folded(z, places), i) == (Bit(z, i) + Bit(z, i + places)) % 2
    {
      XorDiffers(z, Shr(z, places), i);
      BitOfShift(z, places, i);
      BitIsABit(z, i);
      BitIsABit(z, i + places);
    }
  }

  // The n-th draw of a seed, as splitmix64 is written: step, then fold by 30, multiply, fold by 27,
  // multiply, fold by 31, all in 64 bits.
  lemma {:induction false} DrawIsSplitmix64(seed: Word, n: nat) returns (first: Word, second: Word)
    ensures Folds(first, (seed + (n + 1) * 0x9E37_79B9_7F4A_7C15) % 0x1_0000_0000_0000_0000, 30)
    ensures Folds(second, first * 0xBF58_476D_1CE4_E5B9 % 0x1_0000_0000_0000_0000, 27)
    ensures Folds(Draw(seed, n), second * 0x94D0_49BB_1331_11EB % 0x1_0000_0000_0000_0000, 31)
  {
    hide Folds, Folded, StateAfter;
    var state := StateAfter(seed, n + 1);
    StateIs(seed, n + 1);
    first := Folded(state, 30);
    second := Folded(Wrap(first * FIRST), 27);
    FoldedFolds(state, 30);
    FoldedFolds(Wrap(first * FIRST), 27);
    FoldedFolds(Wrap(second * SECOND), 31);
  }

  // --- The fraction ---------------------------------------------------------------------------

  const SCALE := 9007199254740992

  // The top 53 bits of the draw, over 2^53.
  lemma {:induction false} UniformIsTheTopBits(draw: Word)
    ensures Uniform(draw) * SCALE as real == (draw / 2048) as real
  {
    ShiftDivides(draw, 11);
    PowerOfEleven();
    hide Shr, Pow2;
  }

  lemma {:induction false} PowerOfEleven()
    ensures Pow2(11) == 2048
  {
    assert Pow2(3) == 8 && Pow2(4) == 16;
    PowersJoin(4, 4);
    PowersJoin(8, 3);
  }

  // With k over 2^53 the least such fraction that is no smaller than the probability, a draw is
  // lost exactly when it is one of the lowest k of every 2^53.
  lemma {:induction false} LostExactlyBelow(draw: Word, probability: real, k: nat)
    requires (k - 1) as real < probability * SCALE as real <= k as real
    ensures Uniform(draw) < probability <==> draw < 2048 * k
  {
    UniformIsTheTopBits(draw);
    var u := draw / 2048;
    hide Uniform;
    assert Uniform(draw) < probability <==> u as real < probability * SCALE as real;
    assert u as real < probability * SCALE as real <==> u < k;
  }

  ghost function Lost(seed: Word, probability: real): set<nat> {
    set n: nat | n < TWO_64 && Uniform(Draw(seed, n)) < probability
  }

  ghost function Below(n: nat): set<nat> {
    if n == 0 then {} else Below(n - 1) + {n - 1}
  }

  lemma {:induction false} BelowHas(n: nat)
    ensures |Below(n)| == n
    ensures forall w: nat :: w in Below(n) <==> w < n
  {
    if n != 0 {
      BelowHas(n - 1);
    }
  }

  ghost function Draws(seed: Word, indices: set<nat>): set<nat> {
    set n | n in indices :: Draw(seed, n) as nat
  }

  lemma {:induction false} DrawsAreAsMany(seed: Word, indices: set<nat>)
    requires forall n <- indices :: n < TWO_64
    ensures |Draws(seed, indices)| == |indices|
  {
    hide Draw;
    if indices == {} {
      assert Draws(seed, indices) == {};
    } else {
      var n :| n in indices;
      var fewer := indices - {n};
      DrawsAreAsMany(seed, fewer);
      assert Draws(seed, indices) == Draws(seed, fewer) + {Draw(seed, n)};
      if Draw(seed, n) in Draws(seed, fewer) {
        var m :| m in fewer && Draw(seed, m) == Draw(seed, n);
        DrawsRepeatExactlyEvery64Bits(seed, m, n);
        Unique(m, 0, m);
        Unique(n, 0, n);
        assert false;
      }
    }
  }

  // Of the 2^64 draws of a seed a probability loses that share, to within one part in 2^53.
  lemma {:induction false} LostShare(seed: Word, probability: real, k: nat)
    requires 0.0 < probability < 1.0 && (k - 1) as real < probability * SCALE as real <= k as real
    ensures |Lost(seed, probability)| == 2048 * k
  {
    hide Uniform, Draw;
    var lost := Lost(seed, probability);
    assert k <= SCALE;
    forall w: nat
      ensures w in Draws(seed, lost) <==> w < 2048 * k
    {
      if w < TWO_64 {
        LostExactlyBelow(w, probability, k);
        var n := EveryWordIsDrawn(seed, w);
        assert w < 2048 * k ==> n in lost;
      }
      if w in Draws(seed, lost) {
        var n :| n in lost && Draw(seed, n) == w;
        LostExactlyBelow(w, probability, k);
      }
    }
    BelowHas(2048 * k);
    hide Below;
    assert Draws(seed, lost) == Below(2048 * k);
    DrawsAreAsMany(seed, lost);
  }

  // --- The hold -------------------------------------------------------------------------------

  lemma {:induction false} RoundIsNearest(x: real)
    ensures var r := Round(x) as real;
      -0.5 <= r - x <= 0.5 && (r - x == 0.5 ==> 0.0 <= x) && (r - x == -0.5 ==> x < 0.0)
  {
  }

  // 2^53 times the delay with the draw's share of the jitter, from all of it below to all above.
  function Aimed(draw: Word, delay: int, jitter: int): int {
    delay * SCALE + (2 * (draw / 2048) - SCALE) * jitter
  }

  // The hold is the nearest whole number of milliseconds to that, halves away from zero, and
  // nothing when that is less than nothing.
  lemma {:induction false} HeldIsNearest(draw: Word, delay: int, jitter: int) returns (r: int)
    ensures Held(draw, delay, jitter) == if r < 0 then 0 else r
    ensures var off := 2 * (r * SCALE - Aimed(draw, delay, jitter));
      && -SCALE <= off <= SCALE
      && (off == SCALE ==> 0 <= Aimed(draw, delay, jitter))
      && (off == -SCALE ==> Aimed(draw, delay, jitter) < 0)
  {
    var x := delay as real + (Uniform(draw) * 2.0 - 1.0) * jitter as real;
    r := Round(x);
    RoundIsNearest(x);
    AimedIs(draw, delay, jitter);
    hide Uniform, Round, Aimed;
    InWholeNumbers(x, r, Aimed(draw, delay, jitter));
    hide *;
  }

  lemma {:induction false} InWholeNumbers(x: real, r: int, aimed: int)
    requires x * SCALE as real == aimed as real
    requires -0.5 <= r as real - x <= 0.5
    requires (r as real - x == 0.5 ==> 0.0 <= x) && (r as real - x == -0.5 ==> x < 0.0)
    ensures var off := 2 * (r * SCALE - aimed);
      && -SCALE <= off <= SCALE && (off == SCALE ==> 0 <= aimed) && (off == -SCALE ==> aimed < 0)
  {
  }

  lemma {:induction false} AimedIs(draw: Word, delay: int, jitter: int)
    ensures (delay as real + (Uniform(draw) * 2.0 - 1.0) * jitter as real) * SCALE as real
         == Aimed(draw, delay, jitter) as real
  {
    UniformIsTheTopBits(draw);
    hide Uniform;
    var top := draw / 2048;
    Distributes(delay as real, Uniform(draw), jitter as real, SCALE as real);
    ProductAsReal(2 * top - SCALE, jitter);
    ProductAsReal(delay, SCALE);
    var scaled, offset := Uniform(draw) * SCALE as real, (2 * top - SCALE) * jitter;
    assert 2.0 * scaled - SCALE as real == (2 * top - SCALE) as real;
    assert Aimed(draw, delay, jitter) == delay * SCALE + offset;
    hide *;
  }

  lemma {:induction false} Distributes(d: real, u: real, j: real, s: real)
    ensures (d + (u * 2.0 - 1.0) * j) * s == d * s + (2.0 * (u * s) - s) * j
  {
    var a, b := u * j, u * s;
    assert a * s == b * j;
    assert (u * 2.0 - 1.0) * j == 2.0 * a - j;
    assert (2.0 * a - j) * s == 2.0 * (a * s) - j * s;
    assert (2.0 * b - s) * j == 2.0 * (b * j) - s * j;
  }

  lemma {:induction false} ProductAsReal(a: int, b: int)
    ensures (a * b) as real == a as real * b as real
  {
  }

  // The lowest draw holds for the low end of the band, and the highest for the high end
  // unless the jitter is wider than the fraction is fine.
  lemma {:induction false} EndsAreReached(delay: int, jitter: int)
    requires 0 < jitter
    ensures Held(0, delay, jitter) == Max(0, delay - jitter)
    ensures Held(0xFFFF_FFFF_FFFF_FFFF, delay, jitter) == Max(0, delay + jitter)
       <==> jitter <= 2251799813685248 || delay + jitter <= 0
  {
    var low := HeldIsNearest(0, delay, jitter);
    var high := HeldIsNearest(0xFFFF_FFFF_FFFF_FFFF, delay, jitter);
    assert Aimed(0, delay, jitter) == (delay - jitter) * SCALE;
    assert Aimed(0xFFFF_FFFF_FFFF_FFFF, delay, jitter) == (delay + jitter) * SCALE - 2 * jitter;
    hide Held, Aimed;
  }
}
