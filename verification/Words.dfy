/** Unsigned 64-bit words as numbers, their bits, and the bitwise operators of C on them. */
module Words {

  function Pow(n: nat): (p: nat)
    ensures p > 0
  {
    if n == 0 then 1 else 2 * Pow(n - 1)
  }

  const WIDTH: nat := 64

  predicate IsWord(x: nat) { x < Pow(WIDTH) }

  predicate Bit(x: nat, i: nat)
    decreases i
  {
    if i == 0 then x % 2 == 1 else Bit(x / 2, i - 1)
  }

  function Both(x: nat, y: nat): nat
    decreases x + y
  {
    if x == 0 && y == 0 then 0 else 2 * Both(x / 2, y / 2) + (if x % 2 == 1 && y % 2 == 1 then 1 else 0)
  }

  function Either(x: nat, y: nat): nat
    decreases x + y
  {
    if x == 0 && y == 0 then 0 else 2 * Either(x / 2, y / 2) + (if x % 2 == 1 || y % 2 == 1 then 1 else 0)
  }

  /** The complement of a word (C11, section 6.5.3.3). */
  function Flip(x: nat): nat
    requires IsWord(x)
  {
    Pow(WIDTH) - 1 - x
  }

  /** A right shift, one position at a time. */
  function Shr(x: nat, n: nat): nat
    decreases n
  {
    if n == 0 then x else Shr(x / 2, n - 1)
  }

  /** A left shift, one position at a time; the top bit is lost. */
  function Shl(x: nat, n: nat): nat
    decreases n
  {
    if n == 0 then x else Shl(2 * x % Pow(WIDTH), n - 1)
  }

  // ---------------------------------------------------------------------------------------------
  // Bits of results

  lemma {:induction false} BitZero(i: nat)
    ensures !Bit(0, i)
    decreases i
  {
    if i > 0 {
      BitZero(i - 1);
    }
  }

  lemma {:induction false} BitBoth(x: nat, y: nat, i: nat)
    ensures Bit(Both(x, y), i) <==> Bit(x, i) && Bit(y, i)
    decreases i
  {
    if x == 0 && y == 0 {
      BitZero(i);
    } else if i > 0 {
      BitBoth(x / 2, y / 2, i - 1);
    }
  }

  lemma {:induction false} BitEither(x: nat, y: nat, i: nat)
    ensures Bit(Either(x, y), i) <==> Bit(x, i) || Bit(y, i)
    decreases i
  {
    if x == 0 && y == 0 {
      BitZero(i);
    } else if i > 0 {
      BitEither(x / 2, y / 2, i - 1);
    }
  }

  lemma {:induction false} BitComplement(x: nat, n: nat, i: nat)
    requires x < Pow(n) && i < n
    ensures Bit(Pow(n) - 1 - x, i) <==> !Bit(x, i)
    decreases i
  {
    if i > 0 {
      assert (Pow(n) - 1 - x) / 2 == Pow(n - 1) - 1 - x / 2;
      BitComplement(x / 2, n - 1, i - 1);
    }
  }

  lemma {:induction false} BitOnes(n: nat, i: nat)
    ensures Bit(Pow(n) - 1, i) <==> i < n
    decreases i
  {
    if n == 0 {
      BitZero(i);
    } else if i > 0 {
      assert (Pow(n) - 1) / 2 == Pow(n - 1) - 1;
      BitOnes(n - 1, i - 1);
    }
  }

  /** Bits below position `n` do not depend on a multiple of `Pow(n)`. */
  lemma {:induction false} BitBelow(x: nat, n: nat, i: nat)
    requires i < n
    ensures Bit(x + Pow(n), i) <==> Bit(x, i)
    decreases i
  {
    if i > 0 {
      assert (x + Pow(n)) / 2 == x / 2 + Pow(n - 1);
      BitBelow(x / 2, n - 1, i - 1);
    }
  }

  lemma BitHalf(x: nat, i: nat)
    ensures i > 0 ==> (Bit(x, i) <==> Bit(x / 2, i - 1))
    ensures i == 0 ==> (Bit(x, i) <==> x % 2 == 1)
  {
  }

  lemma PowNext(n: nat)
    ensures Pow(n + 1) == 2 * Pow(n)
  {
  }

  lemma BitDoubled(x: nat, i: nat)
    requires IsWord(x) && i < WIDTH
    ensures Bit(2 * x % Pow(WIDTH), i) <==> i > 0 && Bit(x, i - 1)
  {
    hide Pow, Bit;
    PowNext(WIDTH - 1);
    DoubleWraps(x);
    var half := Pow(WIDTH - 1);
    if x < half {
      BitHalf(2 * x, i);
    } else {
      BitHalf(2 * (x - half), i);
      if i > 0 {
        BitBelow(x - half, WIDTH - 1, i - 1);
      }
    }
  }

  lemma PowByte(n: nat)
    ensures Pow(n + 8) == 256 * Pow(n)
  {
    hide Pow;
    PowNext(n);
    PowNext(n + 1);
    PowNext(n + 2);
    PowNext(n + 3);
    PowNext(n + 4);
    PowNext(n + 5);
    PowNext(n + 6);
    PowNext(n + 7);
  }

  lemma WordSize()
    ensures Pow(WIDTH) == 0x1_0000_0000_0000_0000 && Pow(WIDTH - 1) == 0x8000_0000_0000_0000
  {
    assert Pow(0) == 1;
    hide Pow;
    PowByte(0);
    PowByte(8);
    PowByte(16);
    PowByte(24);
    PowByte(32);
    PowByte(40);
    PowByte(48);
    PowByte(56);
    PowNext(63);
  }

  /** Doubling wraps at most once. */
  lemma DoubleWraps(x: nat)
    requires IsWord(x)
    ensures 2 * x % Pow(WIDTH) == if x < Pow(WIDTH - 1) then 2 * x else 2 * (x - Pow(WIDTH - 1))
  {
    hide Pow;
    WordSize();
  }

  lemma {:induction false} BitShl(x: nat, n: nat, i: nat)
    requires IsWord(x) && i < WIDTH
    ensures Bit(Shl(x, n), i) <==> n <= i && Bit(x, i - n)
    decreases n
  {
    hide Pow, Bit;
    if n > 0 {
      BitShl(2 * x % Pow(WIDTH), n - 1, i);
      if n - 1 <= i {
        BitDoubled(x, i - (n - 1));
      }
    }
  }

  lemma {:induction false} BitShr(x: nat, n: nat, i: nat)
    ensures Bit(Shr(x, n), i) <==> Bit(x, n + i)
    decreases n
  {
    if n > 0 {
      BitShr(x / 2, n - 1, i);
    }
  }

  lemma {:induction false} ShlOne(n: nat)
    requires n < WIDTH
    ensures Shl(1, n) == Pow(n)
  {
    hide Shl;
    ShlPower(0, n);
  }

  lemma {:induction false} ShlPower(k: nat, n: nat)
    requires k + n < WIDTH
    ensures Shl(Pow(k), n) == Pow(k + n)
    decreases n
  {
    hide Pow;
    if n > 0 {
      PowNext(k);
      PowGrows(k, WIDTH - 1);
      PowGrows(k, WIDTH);
      DoubleWraps(Pow(k));
      ShlPower(k + 1, n - 1);
    }
  }

  lemma {:induction false} PowGrows(a: nat, b: nat)
    requires a < b
    ensures Pow(a) < Pow(b)
    decreases b
  {
    if a < b - 1 {
      PowGrows(a, b - 1);
    }
  }

  /** Bits at and above the size of a number are clear. */
  lemma {:induction false} BitAbove(x: nat, n: nat, i: nat)
    requires x < Pow(n) && n <= i
    ensures !Bit(x, i)
    decreases n
  {
    if n == 0 {
      BitZero(i);
    } else {
      BitAbove(x / 2, n - 1, i - 1);
    }
  }

  /** A number whose bits from `n` on are clear is below `Pow(n)`. */
  lemma {:induction false} ClearAbove(x: nat, n: nat, width: nat)
    requires x < Pow(width) && n <= width && forall i :: n <= i < width ==> !Bit(x, i)
    ensures x < Pow(n)
    decreases width
  {
    if n < width {
      if n == 0 {
        forall i | 0 <= i < width - 1 ensures !Bit(x / 2, i) {
          assert !Bit(x, i + 1);
        }
        ClearAbove(x / 2, 0, width - 1);
        assert !Bit(x, 0);
      } else {
        forall i | n - 1 <= i < width - 1 ensures !Bit(x / 2, i) {
          assert !Bit(x, i + 1);
        }
        ClearAbove(x / 2, n - 1, width - 1);
      }
    }
  }

  /** Numbers below `Pow(n)` with the same `n` bits are equal. */
  lemma {:induction false} SameBits(x: nat, y: nat, n: nat)
    requires x < Pow(n) && y < Pow(n) && forall i :: 0 <= i < n ==> (Bit(x, i) <==> Bit(y, i))
    ensures x == y
    decreases n
  {
    if n > 0 {
      forall i | 0 <= i < n - 1 ensures Bit(x / 2, i) <==> Bit(y / 2, i) {
        assert Bit(x, i + 1) <==> Bit(y, i + 1);
      }
      SameBits(x / 2, y / 2, n - 1);
      assert Bit(x, 0) <==> Bit(y, 0);
    }
  }

  // ---------------------------------------------------------------------------------------------
  // Results are words

  lemma {:induction false} BothIsSmall(x: nat, y: nat)
    ensures Both(x, y) <= x && Both(x, y) <= y
    decreases x + y
  {
    if x != 0 || y != 0 {
      BothIsSmall(x / 2, y / 2);
    }
  }

  lemma {:induction false} EitherIsBelow(x: nat, y: nat, n: nat)
    requires x < Pow(n) && y < Pow(n)
    ensures Either(x, y) < Pow(n)
    decreases n
  {
    if n > 0 && (x != 0 || y != 0) {
      EitherIsBelow(x / 2, y / 2, n - 1);
    }
  }

  lemma {:induction false} ShlIsWord(x: nat, n: nat)
    requires IsWord(x)
    ensures IsWord(Shl(x, n))
    decreases n
  {
    if n > 0 {
      ShlIsWord(2 * x % Pow(WIDTH), n - 1);
    }
  }

  lemma {:induction false} ShrIsSmall(x: nat, n: nat)
    ensures Shr(x, n) <= x
    decreases n
  {
    if n > 0 {
      ShrIsSmall(x / 2, n - 1);
    }
  }
}
