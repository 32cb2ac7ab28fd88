/** Unsigned 64-bit words as numbers: shift, exclusive or, and wrap-around. */
module Words {
  import opened Basics

  const TWO_64: nat := 0x1_0000_0000_0000_0000

  type Word = w: int | 0 <= w < TWO_64

  function Wrap(n: int): Word {
    n % TWO_64
  }

  function Shr(z: nat, places: nat): nat
    decreases places
  {
    if places == 0 then z else Shr(z / 2, places - 1)
  }

  function Xor(a: nat, b: nat): nat
    decreases a + b
  {
    if a == 0 && b == 0 then 0 else 2 * Xor(a / 2, b / 2) + (a + b) % 2
  }

  // --- Exclusive or -----------------------------------------------------------------------

  lemma {:induction false} XorBits(a: nat, b: nat)
    ensures Xor(a, b) / 2 == Xor(a / 2, b / 2) && Xor(a, b) % 2 == (a + b) % 2
  {
  }

  lemma {:induction false} XorCommutes(a: nat, b: nat)
    ensures Xor(a, b) == Xor(b, a)
    decreases a + b
  {
    if a != 0 || b != 0 {
      XorCommutes(a / 2, b / 2);
    }
  }

  lemma {:induction false} XorWithZero(a: nat)
    ensures Xor(a, 0) == a == Xor(0, a)
  {
    if a != 0 {
      XorWithZero(a / 2);
    }
  }

  lemma {:induction false} XorWithSelf(a: nat)
    ensures Xor(a, a) == 0
  {
    if a != 0 {
      XorWithSelf(a / 2);
    }
  }

  lemma {:induction false} XorAssociates(a: nat, b: nat, c: nat)
    ensures Xor(Xor(a, b), c) == Xor(a, Xor(b, c))
    decreases a + b + c
  {
    if a != 0 || b != 0 || c != 0 {
      hide Xor;
      var ab, bc := Xor(a, b), Xor(b, c);
      XorBits(a, b);
      XorBits(b, c);
      XorBits(ab, c);
      XorBits(a, bc);
      assert Xor(ab, c) / 2 == Xor(a, bc) / 2 by {
        XorAssociates(a / 2, b / 2, c / 2);
      }
      assert Xor(ab, c) % 2 == Xor(a, bc) % 2 by {
        Parities(a, b, c, ab, bc);
      }
      SameBits(Xor(ab, c), Xor(a, bc));
      hide *;
    }
  }

  lemma {:induction false} Parities(a: nat, b: nat, c: nat, ab: nat, bc: nat)
    requires ab % 2 == (a + b) % 2 && bc % 2 == (b + c) % 2
    ensures (ab + c) % 2 == (a + bc) % 2
  {
  }

  lemma {:induction false} SameBits(m: nat, n: nat)
    requires m / 2 == n / 2 && m % 2 == n % 2
    ensures m == n
  {
  }

  lemma {:induction false} XorFits(a: nat, b: nat, bits: nat)
    requires a < Pow2(bits) && b < Pow2(bits)
    ensures Xor(a, b) < Pow2(bits)
    decreases bits
  {
    if bits == 0 {
      assert Pow2(0) == 1;
    } else {
      XorFits(a / 2, b / 2, bits - 1);
    }
  }

  lemma {:induction false} ShiftOfXor(a: nat, b: nat, places: nat)
    ensures Shr(Xor(a, b), places) == Xor(Shr(a, places), Shr(b, places))
    decreases places
  {
    if places != 0 {
      XorBits(a, b);
      ShiftOfXor(a / 2, b / 2, places - 1);
    }
  }

  lemma {:induction false} ShiftsAdd(z: nat, m: nat, n: nat)
    ensures Shr(Shr(z, m), n) == Shr(z, m + n)
    decreases m
  {
    if m != 0 {
      ShiftsAdd(z / 2, m - 1, n);
    }
  }

  lemma {:induction false} ShiftFits(z: nat, places: nat, bits: nat)
    requires z < Pow2(places + bits)
    ensures Shr(z, places) < Pow2(bits)
    decreases places
  {
    if places != 0 {
      ShiftFits(z / 2, places - 1, bits);
    }
  }

  lemma {:induction false} ShiftedOut(z: nat, bits: nat, places: nat)
    requires z < Pow2(bits) && bits <= places
    ensures Shr(z, places) == 0
    decreases places
  {
    if bits == 0 {
      assert Pow2(0) == 1;
      if places != 0 {
        ShiftedOut(0, 0, places - 1);
      }
    } else {
      ShiftedOut(z / 2, bits - 1, places - 1);
    }
  }

  lemma {:induction false} TwoTo64()
    ensures Pow2(64) == TWO_64
  {
    assert Pow2(4) == 16;
    PowersJoin(4, 4);
    PowersJoin(8, 8);
    PowersJoin(16, 16);
    PowersJoin(32, 32);
    hide Pow2;
  }

  lemma {:induction false} PowersJoin(m: nat, n: nat)
    ensures Pow2(m + n) == Pow2(m) * Pow2(n)
  {
    if m == 0 {
      assert Pow2(0) == 1;
    } else {
      PowersJoin(m - 1, n);
      assert 2 * (Pow2(m - 1) * Pow2(n)) == (2 * Pow2(m - 1)) * Pow2(n);
    }
  }

  // --- Folding a word onto itself, and unfolding it ---------------------------------------

  function Stir(z: nat, places: nat): nat {
    Xor(z, Shr(z, places))
  }

  function Unstir(y: nat, places: nat): nat {
    Xor(Xor(y, Shr(y, places)), Shr(y, 2 * places))
  }

  lemma {:induction false} StirFits(z: nat, places: nat, bits: nat)
    requires z < Pow2(bits)
    ensures Stir(z, places) < Pow2(bits) && Unstir(z, places) < Pow2(bits)
  {
    ShiftSmaller(z, places);
    ShiftSmaller(z, 2 * places);
    XorFits(z, Shr(z, places), bits);
    XorFits(Xor(z, Shr(z, places)), Shr(z, 2 * places), bits);
  }

  lemma {:induction false} ShiftSmaller(z: nat, places: nat)
    ensures Shr(z, places) <= z
    decreases places
  {
    if places != 0 {
      ShiftSmaller(z / 2, places - 1);
    }
  }

  // Three words that differ by shifts of `places` fold into the first and the last's shift.
  lemma {:induction false} Telescopes(a: nat, b: nat, c: nat, d: nat)
    ensures Xor(Xor(Xor(a, b), Xor(b, c)), Xor(c, d)) == Xor(a, d)
    ensures Xor(Xor(Xor(a, b), c), Xor(Xor(b, c), d)) == Xor(a, d)
  {
    Cancels(a, b, c);
    Cancels(a, c, d);
    XorAssociates(a, b, c);
    Cancels(a, Xor(b, c), d);
  }

  lemma {:induction false} Cancels(a: nat, b: nat, c: nat)
    ensures Xor(Xor(a, b), Xor(b, c)) == Xor(a, c)
  {
    hide Xor;
    XorAssociates(a, b, Xor(b, c));
    XorAssociates(b, b, c);
    XorWithSelf(b);
    XorWithZero(c);
  }

  // On words of at most three shifts' width, folding and unfolding undo each other.
  lemma {:induction false} StirUndone(z: nat, places: nat, bits: nat)
    requires z < Pow2(bits) && bits <= 3 * places
    ensures Unstir(Stir(z, places), places) == z && Stir(Unstir(z, places), places) == z
  {
    var a, b, c, d := z, Shr(z, places), Shr(z, 2 * places), Shr(z, 3 * places);
    ShiftOfXor(a, b, places);
    ShiftOfXor(a, b, 2 * places);
    ShiftOfXor(Xor(a, b), c, places);
    ShiftsAdd(z, places, places);
    ShiftsAdd(z, places, 2 * places);
    ShiftsAdd(z, 2 * places, places);
    ShiftedOut(z, bits, 3 * places);
    hide Shr, Xor;
    Telescopes(a, b, c, d);
    XorWithZero(a);
  }
}
