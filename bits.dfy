// The C bitwise operators `|`, `&` and `& ~` on non-negative integers,
// defined one binary digit at a time, with the facts the report encoders
// rely on: each operator works bit by bit, a single-bit mask touches only
// its own bit, and the results stay within the width of their operands.
module Bits {

  /** `1 << b`. */
  function Pow2(b: nat): (p: nat)
    ensures p >= 1
  {
    if b == 0 then 1 else 2 * Pow2(b - 1)
  }

  /** The widths the firmware's fields use. */
  lemma Pow2Widths()
    ensures Pow2(8) == 0x100 && Pow2(16) == 0x1_0000
  {
    assert Pow2(4) == 16;
    assert Pow2(8) == 256;
    assert Pow2(12) == 4096;
  }

  lemma {:induction false} Pow2Mono(a: nat, b: nat)
    requires a <= b
    ensures Pow2(a) <= Pow2(b)
    decreases b
  {
    if a < b {
      Pow2Mono(a, b - 1);
    }
  }

  /** Bit `j` of `x`: `(x >> j) & 1`. */
  predicate Bit(x: nat, j: nat)
  {
    if j == 0 then x % 2 == 1 else Bit(x / 2, j - 1)
  }

  function LowBit(c: bool): nat { if c then 1 else 0 }

  /** `x | y`. */
  function Or(x: nat, y: nat): nat
    decreases x + y
  {
    if x == 0 && y == 0 then 0 else LowBit(x % 2 == 1 || y % 2 == 1) + 2 * Or(x / 2, y / 2)
  }

  /** `x & y`. */
  function And(x: nat, y: nat): nat
    decreases x + y
  {
    if x == 0 || y == 0 then 0 else LowBit(x % 2 == 1 && y % 2 == 1) + 2 * And(x / 2, y / 2)
  }

  /** `x & ~y`. */
  function AndNot(x: nat, y: nat): nat
    decreases x
  {
    if x == 0 then 0 else LowBit(x % 2 == 1 && y % 2 == 0) + 2 * AndNot(x / 2, y / 2)
  }

  /** The digit below and the rest of a number built as `c + 2 * rest`. */
  lemma Digits(c: bool, rest: nat)
    ensures (LowBit(c) + 2 * rest) % 2 == LowBit(c) && (LowBit(c) + 2 * rest) / 2 == rest
  {
  }

  lemma {:induction false} ZeroBits(j: nat)
    ensures !Bit(0, j)
  {
    if j > 0 {
      ZeroBits(j - 1);
    }
  }

  /** Bit `j` of `x | y` is set exactly when it is set in `x` or in `y`. */
  lemma {:induction false} OrBit(x: nat, y: nat, j: nat)
    ensures Bit(Or(x, y), j) <==> Bit(x, j) || Bit(y, j)
    decreases j
  {
    if x == 0 && y == 0 {
      ZeroBits(j);
    } else {
      Digits(x % 2 == 1 || y % 2 == 1, Or(x / 2, y / 2));
      if j > 0 {
        OrBit(x / 2, y / 2, j - 1);
      }
    }
  }

  /** Bit `j` of `x & y` is set exactly when it is set in both. */
  lemma {:induction false} AndBit(x: nat, y: nat, j: nat)
    ensures Bit(And(x, y), j) <==> Bit(x, j) && Bit(y, j)
    decreases j
  {
    if x == 0 || y == 0 {
      ZeroBits(j);
    } else {
      Digits(x % 2 == 1 && y % 2 == 1, And(x / 2, y / 2));
      if j > 0 {
        AndBit(x / 2, y / 2, j - 1);
      }
    }
  }

  /** Bit `j` of `x & ~y` is set exactly when it is set in `x` and clear in `y`. */
  lemma {:induction false} AndNotBit(x: nat, y: nat, j: nat)
    ensures Bit(AndNot(x, y), j) <==> Bit(x, j) && !Bit(y, j)
    decreases j
  {
    if x == 0 {
      ZeroBits(j);
    } else {
      Digits(x % 2 == 1 && y % 2 == 0, AndNot(x / 2, y / 2));
      if j > 0 {
        AndNotBit(x / 2, y / 2, j - 1);
      }
    }
  }

  /** Every bit of `x | y` at once. */
  lemma OrBits(x: nat, y: nat)
    ensures forall j: nat :: Bit(Or(x, y), j) <==> Bit(x, j) || Bit(y, j)
  {
    forall j: nat
      ensures Bit(Or(x, y), j) <==> Bit(x, j) || Bit(y, j)
    {
      OrBit(x, y, j);
    }
  }

  /** Every bit of `x & ~y` at once. */
  lemma AndNotBits(x: nat, y: nat)
    ensures forall j: nat :: Bit(AndNot(x, y), j) <==> Bit(x, j) && !Bit(y, j)
  {
    forall j: nat
      ensures Bit(AndNot(x, y), j) <==> Bit(x, j) && !Bit(y, j)
    {
      AndNotBit(x, y, j);
    }
  }

  /** `1 << b` has exactly bit `b` set. */
  lemma {:induction false} Pow2Bit(b: nat, j: nat)
    ensures Bit(Pow2(b), j) <==> j == b
    decreases b
  {
    if b == 0 {
      if j > 0 {
        ZeroBits(j - 1);
      }
    } else if j == 0 {
    } else {
      Pow2Bit(b - 1, j - 1);
    }
  }

  /**
   * Setting and clearing bit `b` with a one-bit mask leaves every other bit
   * as it was.
   */
  lemma SetClearBit(x: nat, b: nat, j: nat)
    ensures Bit(Or(x, Pow2(b)), j) <==> j == b || Bit(x, j)
    ensures Bit(AndNot(x, Pow2(b)), j) <==> j != b && Bit(x, j)
  {
    OrBit(x, Pow2(b), j);
    AndNotBit(x, Pow2(b), j);
    Pow2Bit(b, j);
  }

  /** The operators stay within the width `w` of their operands. */
  lemma {:induction false} OrWidth(x: nat, y: nat, w: nat)
    requires x < Pow2(w) && y < Pow2(w)
    ensures Or(x, y) < Pow2(w)
    decreases w
  {
    if !(x == 0 && y == 0) {
      if w == 0 {
      } else {
        OrWidth(x / 2, y / 2, w - 1);
      }
    }
  }

  lemma {:induction false} AndNotWidth(x: nat, y: nat)
    ensures AndNot(x, y) <= x
    decreases x
  {
    if x > 0 {
      AndNotWidth(x / 2, y / 2);
    }
  }

  lemma {:induction false} AndWidth(x: nat, y: nat)
    ensures And(x, y) <= x
    decreases x + y
  {
    if x > 0 && y > 0 {
      AndWidth(x / 2, y / 2);
    }
  }

  /** `x & y` is zero exactly when no bit is set in both. */
  lemma {:induction false} AndZero(x: nat, y: nat)
    ensures And(x, y) == 0 <==> forall j: nat :: !(Bit(x, j) && Bit(y, j))
    decreases x + y
  {
    if And(x, y) == 0 {
      forall j: nat
        ensures !(Bit(x, j) && Bit(y, j))
      {
        AndBit(x, y, j);
        ZeroBits(j);
      }
    } else {
      SomeBitExists(And(x, y));
      var j: nat :| Bit(And(x, y), j);
      AndBit(x, y, j);
    }
  }

  /** A non-zero number has a set bit. */
  lemma {:induction false} SomeBitExists(x: nat)
    requires x > 0
    ensures exists j: nat :: Bit(x, j)
    decreases x
  {
    if x % 2 == 0 {
      SomeBitExists(x / 2);
      var j: nat :| Bit(x / 2, j);
      assert Bit(x, j + 1);
    } else {
      assert Bit(x, 0);
    }
  }

  /** Two numbers with the same bits are the same number. */
  lemma {:induction false} BitsEqual(x: nat, y: nat)
    requires forall j: nat :: Bit(x, j) <==> Bit(y, j)
    ensures x == y
    decreases x + y
  {
    assert Bit(x, 0) <==> Bit(y, 0);
    if x + y > 0 {
      forall j: nat
        ensures Bit(x / 2, j) <==> Bit(y / 2, j)
      {
        assert Bit(x, j + 1) <==> Bit(y, j + 1);
      }
      BitsEqual(x / 2, y / 2);
    }
  }

  /** A zero mask changes nothing. */
  lemma OrAndNotZero(x: nat)
    ensures Or(x, 0) == x && AndNot(x, 0) == x
  {
    forall j: nat
      ensures Bit(Or(x, 0), j) <==> Bit(x, j)
    {
      OrBit(x, 0, j);
      ZeroBits(j);
    }
    forall j: nat
      ensures Bit(AndNot(x, 0), j) <==> Bit(x, j)
    {
      AndNotBit(x, 0, j);
      ZeroBits(j);
    }
    BitsEqual(Or(x, 0), x);
    BitsEqual(AndNot(x, 0), x);
  }

  /** Setting the same bits twice is setting them once. */
  lemma OrAbsorb(x: nat, y: nat)
    ensures Or(Or(x, y), y) == Or(x, y)
  {
    forall j: nat
      ensures Bit(Or(Or(x, y), y), j) <==> Bit(Or(x, y), j)
    {
      OrBit(Or(x, y), y, j);
      OrBit(x, y, j);
    }
    BitsEqual(Or(Or(x, y), y), Or(x, y));
  }

  /** Clearing bits that were just set, and were clear before, restores the number. */
  lemma ClearAfterSet(x: nat, y: nat)
    requires And(x, y) == 0
    ensures AndNot(Or(x, y), y) == x
  {
    AndZero(x, y);
    forall j: nat
      ensures Bit(AndNot(Or(x, y), y), j) <==> Bit(x, j)
    {
      AndNotBit(Or(x, y), y, j);
      OrBit(x, y, j);
    }
    BitsEqual(AndNot(Or(x, y), y), x);
  }

  /** The bits of `a + 2^k b` with `a` below `2^k`: those of `a`, then those of `b`. */
  lemma {:induction false} BitOfSum(a: nat, b: nat, k: nat, j: nat)
    requires a < Pow2(k)
    ensures Bit(a + Pow2(k) * b, j) <==> if j < k then Bit(a, j) else Bit(b, j - k)
    decreases k
  {
    if k == 0 {
    } else {
      var x := a + Pow2(k) * b;
      assert Pow2(k) * b == 2 * (Pow2(k - 1) * b);
      assert x % 2 == a % 2 && x / 2 == a / 2 + Pow2(k - 1) * b;
      if j > 0 {
        BitOfSum(a / 2, b, k - 1, j - 1);
      }
    }
  }
}
