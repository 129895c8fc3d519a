/** Shifts, truncation and exclusive or on unsigned integers, one binary place at a time. */
module Bits {
  import opened DivMod

  /** 2^n. */
  function Pow2(n: nat): (p: nat)
    ensures p > 0
  {
    if n == 0 then 1 else 2 * Pow2(n - 1)
  }

  /** `a >> n`, `a << n`, and `a` truncated to `n` bits. */
  function Shr(a: nat, n: nat): nat
    decreases n
  {
    if n == 0 then a else Shr(a / 2, n - 1)
  }
  function Shl(a: nat, n: nat): nat
    decreases n
  {
    if n == 0 then a else 2 * Shl(a, n - 1)
  }
  function Low(a: nat, n: nat): nat
    decreases n
  {
    if n == 0 then 0 else a % 2 + 2 * Low(a / 2, n - 1)
  }

  function Xor(a: nat, b: nat): nat
    decreases a + b
  {
    if a == 0 && b == 0 then 0 else (a % 2 + b % 2) % 2 + 2 * Xor(a / 2, b / 2)
  }

  // ----- powers of two -----

  lemma Pow2By4(n: nat)
    ensures Pow2(n + 4) == 16 * Pow2(n)
  {
    assert Pow2(n + 4) == 2 * Pow2(n + 3) && Pow2(n + 3) == 2 * Pow2(n + 2);
    assert Pow2(n + 2) == 2 * Pow2(n + 1) && Pow2(n + 1) == 2 * Pow2(n);
  }

  lemma Pow2Of16()
    ensures Pow2(16) == 0x1_0000
  {
    Pow2By4(0);
    Pow2By4(4);
    Pow2By4(8);
    Pow2By4(12);
  }

  lemma Pow2Of32()
    ensures Pow2(32) == 0x1_0000_0000
  {
    Pow2Of16();
    Pow2By4(16);
    Pow2By4(20);
    Pow2By4(24);
    Pow2By4(28);
  }

  lemma Pow2Of64()
    ensures Pow2(64) == 0x1_0000_0000_0000_0000
  {
    Pow2Of32();
    Pow2By4(32);
    Pow2By4(36);
    Pow2By4(40);
    Pow2By4(44);
    Pow2By4(48);
    Pow2By4(52);
    Pow2By4(56);
    Pow2By4(60);
  }

  // ----- fields -----

  lemma {:induction false} LowBound(a: nat, n: nat)
    ensures Low(a, n) < Pow2(n)
    decreases n
  {
    if n > 0 {
      LowBound(a / 2, n - 1);
    }
  }

  /** A number is its low field and the rest ... */
  lemma {:induction false} Split(a: nat, n: nat)
    ensures a == Low(a, n) + Shl(Shr(a, n), n)
    decreases n
  {
    if n > 0 {
      Split(a / 2, n - 1);
    }
  }

  lemma {:induction false} ShlHalf(h: nat, n: nat)
    requires n > 0
    ensures Shl(h, n) % 2 == 0 && Shl(h, n) / 2 == Shl(h, n - 1)
  {
  }

  /** ... and the two parts can be read back. */
  lemma {:induction false} Join(l: nat, h: nat, n: nat)
    requires l < Pow2(n)
    ensures Low(l + Shl(h, n), n) == l && Shr(l + Shl(h, n), n) == h
    decreases n
  {
    if n > 0 {
      ShlHalf(h, n);
      Join(l / 2, h, n - 1);
      assert (l + Shl(h, n)) / 2 == l / 2 + Shl(h, n - 1);
    }
  }

  lemma {:induction false} JoinBound(l: nat, h: nat, n: nat, m: nat)
    requires l < Pow2(n) && h < Pow2(m)
    ensures l + Shl(h, n) < Pow2(n + m)
    decreases n
  {
    if n > 0 {
      JoinBound(l / 2, h, n - 1, m);
    }
  }

  lemma {:induction false} ShrBound(a: nat, n: nat, m: nat)
    requires a < Pow2(n + m)
    ensures Shr(a, n) < Pow2(m)
    decreases n
  {
    if n > 0 {
      ShrBound(a / 2, n - 1, m);
    }
  }

  lemma {:induction false} ShrShr(a: nat, m: nat, n: nat)
    ensures Shr(Shr(a, m), n) == Shr(a, m + n)
    decreases m
  {
    if m > 0 {
      ShrShr(a / 2, m - 1, n);
    }
  }

  lemma LowOfSmall(a: nat, n: nat)
    requires a < Pow2(n)
    ensures Low(a, n) == a
  {
    Join(a, 0, n);
    ShlZero(n);
  }

  lemma {:induction false} ShlZero(n: nat)
    ensures Shl(0, n) == 0
  {
    if n > 0 {
      ShlZero(n - 1);
    }
  }

  lemma LowStep(a: nat, n: nat)
    requires n > 0
    ensures Low(a, n) % 2 == a % 2 && Low(a, n) / 2 == Low(a / 2, n - 1)
  {
  }

  // ----- equality of the low bits -----

  /** `d` is a multiple of 2^n. */
  predicate Multiple(d: int, n: nat)
    decreases n
  {
    n == 0 || (d % 2 == 0 && Multiple(d / 2, n - 1))
  }

  lemma {:induction false} MultipleSum(d: int, e: int, n: nat)
    requires Multiple(d, n) && Multiple(e, n)
    ensures Multiple(d + e, n) && Multiple(d - e, n)
    decreases n
  {
    if n > 0 {
      MultipleSum(d / 2, e / 2, n - 1);
      assert (d + e) / 2 == d / 2 + e / 2 && (d - e) / 2 == d / 2 - e / 2;
    }
  }

  lemma {:induction false} MultipleLess(d: int, m: nat, n: nat)
    requires Multiple(d, n) && m <= n
    ensures Multiple(d, m)
    decreases m
  {
    if m > 0 {
      MultipleLess(d / 2, m - 1, n - 1);
    }
  }

  lemma {:induction false} SameLow(a: nat, b: nat, n: nat)
    ensures Low(a, n) == Low(b, n) <==> Multiple(a - b, n)
    decreases n
  {
    if n > 0 {
      SameLow(a / 2, b / 2, n - 1);
      if (a - b) % 2 == 0 {
        assert (a - b) / 2 == a / 2 - b / 2;
      }
    }
  }

  /** Shifting up moves an agreement up. */
  lemma {:induction false} MultipleShl(a: nat, b: nat, s: nat, n: nat)
    requires Multiple(a - b, n)
    ensures Multiple(Shl(a, s) - Shl(b, s), n + s)
    decreases s
  {
    if s > 0 {
      MultipleShl(a, b, s - 1, n);
      assert (Shl(a, s) - Shl(b, s)) / 2 == Shl(a, s - 1) - Shl(b, s - 1);
    }
  }

  lemma {:induction false} LowLow(a: nat, m: nat, n: nat)
    requires m <= n
    ensures Low(Low(a, n), m) == Low(a, m)
    decreases m
  {
    if m > 0 {
      LowLow(a / 2, m - 1, n - 1);
      assert Low(a, n) / 2 == Low(a / 2, n - 1);
    }
  }

  // ----- exclusive or -----

  lemma {:induction false} XorCancel(a: nat, b: nat, k: nat)
    requires Xor(a, k) == Xor(b, k)
    ensures a == b
    decreases a + b + k
  {
    if a + b + k > 0 {
      XorStep(a, k);
      XorStep(b, k);
      XorCancel(a / 2, b / 2, k / 2);
    }
  }

  lemma XorStep(a: nat, b: nat)
    ensures Xor(a, b) % 2 == (a % 2 + b % 2) % 2 && Xor(a, b) / 2 == Xor(a / 2, b / 2)
  {
  }

  lemma {:induction false} XorShr(a: nat, b: nat, n: nat)
    ensures Shr(Xor(a, b), n) == Xor(Shr(a, n), Shr(b, n))
    decreases n
  {
    if n > 0 {
      XorStep(a, b);
      XorShr(a / 2, b / 2, n - 1);
    }
  }

  lemma {:induction false} XorLow(a: nat, b: nat, n: nat)
    ensures Low(Xor(a, b), n) == Xor(Low(a, n), Low(b, n))
    decreases n
  {
    if n > 0 {
      XorLow(a / 2, b / 2, n - 1);
      XorLowStep(a, b, n);
    }
  }

  lemma XorLowStep(a: nat, b: nat, n: nat)
    requires n > 0 && Low(Xor(a / 2, b / 2), n - 1) == Xor(Low(a / 2, n - 1), Low(b / 2, n - 1))
    ensures Low(Xor(a, b), n) == Xor(Low(a, n), Low(b, n))
  {
    XorStep(a, b);
    LowStep(a, n);
    LowStep(b, n);
    XorStep(Low(a, n), Low(b, n));
    LowStep(Xor(a, b), n);
    SameHalves(Low(Xor(a, b), n), Xor(Low(a, n), Low(b, n)));
  }

  lemma SameHalves(x: nat, y: nat)
    requires x % 2 == y % 2 && x / 2 == y / 2
    ensures x == y
  {
  }

  lemma {:induction false} XorBound(a: nat, b: nat, n: nat)
    requires a < Pow2(n) && b < Pow2(n)
    ensures Xor(a, b) < Pow2(n)
    decreases n
  {
    if n > 0 {
      XorStep(a, b);
      XorBound(a / 2, b / 2, n - 1);
    }
  }

  // ----- masks -----

  function And(a: nat, b: nat): nat
    decreases a + b
  {
    if a == 0 || b == 0 then 0 else (if a % 2 == 1 && b % 2 == 1 then 1 else 0) + 2 * And(a / 2, b / 2)
  }

  lemma AndStep(a: nat, b: nat)
    ensures And(a, b) == (if a % 2 == 1 && b % 2 == 1 then 1 else 0) + 2 * And(a / 2, b / 2)
  {
  }

  lemma {:induction false} AndOnes(a: nat, w: nat)
    requires a < Pow2(w)
    ensures And(a, Pow2(w) - 1) == a
    decreases w
  {
    if w > 0 {
      AndOnes(a / 2, w - 1);
      AndOnesStep(a, Pow2(w) - 1, a / 2, Pow2(w - 1) - 1, a % 2);
    }
  }

  lemma AndOnesStep(a: nat, m: nat, h: nat, n: nat, x: nat)
    requires a == 2 * h + x && x < 2 && m == 2 * n + 1 && And(h, n) == h
    ensures And(a, m) == a
  {
    AndStep(a, m);
    Halves(a, h, x);
    Halves(m, n, 1);
  }

  lemma Halves(a: nat, h: nat, x: nat)
    requires a == 2 * h + x && x < 2
    ensures a / 2 == h && a % 2 == x
  {
  }

  lemma {:induction false} PowGrows(k: nat, w: nat)
    requires k <= w
    ensures Pow2(k) <= Pow2(w)
  {
    if k < w {
      PowGrows(k, w - 1);
    }
  }

  /** Clearing the low `k` bits of a `w`-bit number with the mask ~(2^k - 1). */
  lemma {:induction false} AndHigh(a: nat, k: nat, w: nat)
    requires k <= w && a < Pow2(w)
    ensures Pow2(k) <= Pow2(w) && And(a, Pow2(w) - Pow2(k)) == a - Low(a, k)
    decreases k
  {
    PowGrows(k, w);
    if k == 0 {
      AndOnes(a, w);
    } else {
      var m := Pow2(w) - Pow2(k);
      AndHigh(a / 2, k - 1, w - 1);
      AndStep(a, m);
      assert m % 2 == 0 && m / 2 == Pow2(w - 1) - Pow2(k - 1);
    }
  }

  lemma {:induction false} LowIsMod(a: nat, k: nat)
    ensures Low(a, k) == a % Pow2(k)
    decreases k
  {
    Split(a, k);
    LowBound(a, k);
    ShlIsMul(Shr(a, k), k);
    ModUnique(a, Pow2(k), Shr(a, k), Low(a, k));
  }

  lemma {:induction false} ShlIsMul(a: nat, n: nat)
    ensures Shl(a, n) == Pow2(n) * a
  {
    if n > 0 {
      ShlIsMul(a, n - 1);
      assert Pow2(n) * a == 2 * (Pow2(n - 1) * a);
    }
  }

  // ----- binary digits -----

  /** Digit `j` of `v` is a one. */
  predicate BitAt(v: nat, j: nat) { (v / Pow2(j)) % 2 == 1 }

  lemma BitHalf(v: nat, j: nat)
    ensures BitAt(v, 0) <==> v % 2 == 1
    ensures BitAt(v, j + 1) <==> BitAt(v / 2, j)
  {
    HalfQuotient(v, Pow2(j));
  }

  lemma HalfQuotient(v: nat, b: nat)
    requires b > 0
    ensures v / (2 * b) == (v / 2) / b
  {
    var h, q := v / 2, v / 2 / b;
    var r := h - b * q;
    assert h == b * q + h % b;
    assert (2 * b) * q == 2 * (b * q);
    ModUnique(v, 2 * b, q, 2 * r + v % 2);
  }

  lemma {:induction false} BitXor(a: nat, b: nat, j: nat)
    ensures BitAt(Xor(a, b), j) <==> BitAt(a, j) != BitAt(b, j)
    decreases j
  {
    if j == 0 {
      BitHalf(a, 0);
      BitHalf(b, 0);
      BitHalf(Xor(a, b), 0);
      XorParity(a, b);
    } else {
      BitXor(a / 2, b / 2, j - 1);
      BitHalf(a, j - 1);
      BitHalf(b, j - 1);
      BitHalf(Xor(a, b), j - 1);
      XorStep(a, b);
    }
  }

  lemma XorParity(a: nat, b: nat)
    ensures Xor(a, b) % 2 == 1 <==> (a % 2 == 1) != (b % 2 == 1)
  {
    XorStep(a, b);
  }

  lemma {:induction false} BitShr(a: nat, n: nat, j: nat)
    ensures BitAt(Shr(a, n), j) <==> BitAt(a, j + n)
    decreases n
  {
    if n > 0 {
      BitShr(a / 2, n - 1, j);
      BitHalf(a, j + n - 1);
    }
  }

  lemma {:induction false} BitShl(a: nat, n: nat, j: nat)
    ensures BitAt(Shl(a, n), j) <==> j >= n && BitAt(a, j - n)
    decreases n
  {
    if n > 0 {
      ShlHalf(a, n);
      if j == 0 {
        BitHalf(Shl(a, n), 0);
      } else {
        BitHalf(Shl(a, n), j - 1);
        BitShl(a, n - 1, j - 1);
      }
    }
  }

  lemma {:induction false} BitLow(a: nat, n: nat, j: nat)
    ensures BitAt(Low(a, n), j) <==> j < n && BitAt(a, j)
    decreases n
  {
    if n == 0 {
      NoBits(j);
    } else {
      LowStep(a, n);
      if j == 0 {
        BitHalf(a, 0);
        BitHalf(Low(a, n), 0);
      } else {
        BitHalf(a, j - 1);
        BitHalf(Low(a, n), j - 1);
        BitLow(a / 2, n - 1, j - 1);
      }
    }
  }

  lemma NoBits(j: nat)
    ensures !BitAt(0, j)
  {
    ModUnique(0, Pow2(j), 0, 0);
  }

  /** A number below 2^n has no digit from place n on. */
  lemma BitBound(a: nat, n: nat, j: nat)
    requires a < Pow2(n) && j >= n
    ensures !BitAt(a, j)
  {
    LowOfSmall(a, n);
    BitLow(a, n, j);
  }

  /** Numbers are told apart by their digits. */
  lemma {:induction false} SameBits(a: nat, b: nat)
    requires forall j: nat :: BitAt(a, j) <==> BitAt(b, j)
    ensures a == b
    decreases a + b
  {
    if a + b > 0 {
      BitHalf(a, 0);
      BitHalf(b, 0);
      forall j: nat ensures BitAt(a / 2, j) <==> BitAt(b / 2, j) {
        BitHalf(a, j);
        BitHalf(b, j);
        assert BitAt(a, j + 1) <==> BitAt(b, j + 1);
      }
      SameBits(a / 2, b / 2);
    }
  }

  lemma {:induction false} ShrLess(a: nat, s: nat)
    ensures Shr(a, s) <= a
    decreases s
  {
    if s > 0 {
      ShrLess(a / 2, s - 1);
    }
  }

  lemma AndParity(a: nat, b: nat)
    ensures And(a, b) / 2 == And(a / 2, b / 2) && (And(a, b) % 2 == 1 <==> a % 2 == 1 && b % 2 == 1)
  {
    AndStep(a, b);
  }

  function Or(a: nat, b: nat): nat
    decreases a + b
  {
    if a == 0 && b == 0 then 0 else (if a % 2 == 1 || b % 2 == 1 then 1 else 0) + 2 * Or(a / 2, b / 2)
  }

  lemma OrParity(a: nat, b: nat)
    ensures Or(a, b) / 2 == Or(a / 2, b / 2) && (Or(a, b) % 2 == 1 <==> a % 2 == 1 || b % 2 == 1)
  {
  }

  lemma {:induction false} ShlShl(a: nat, m: nat, n: nat)
    ensures Shl(Shl(a, m), n) == Shl(a, m + n)
  {
    if n > 0 {
      ShlShl(a, m, n - 1);
    }
  }

  /** Numbers without a common place. */
  lemma {:induction false} OrIsSum(l: nat, h: nat, n: nat)
    requires l < Pow2(n)
    ensures Or(l, Shl(h, n)) == l + Shl(h, n)
    decreases n
  {
    OrParity(l, Shl(h, n));
    if n > 0 {
      ShlHalf(h, n);
      OrIsSum(l / 2, h, n - 1);
    } else {
      OrZero(h);
    }
  }

  lemma {:induction false} OrZero(h: nat)
    ensures Or(0, h) == h
  {
    if h > 0 {
      OrZero(h / 2);
    }
  }

  lemma {:induction false} BitAnd(a: nat, b: nat, j: nat)
    ensures BitAt(And(a, b), j) <==> BitAt(a, j) && BitAt(b, j)
    decreases j
  {
    AndParity(a, b);
    if j == 0 {
      BitHalf(a, 0);
      BitHalf(b, 0);
      BitHalf(And(a, b), 0);
    } else {
      BitAnd(a / 2, b / 2, j - 1);
      BitHalf(a, j - 1);
      BitHalf(b, j - 1);
      BitHalf(And(a, b), j - 1);
    }
  }

  lemma {:induction false} BitOr(a: nat, b: nat, j: nat)
    ensures BitAt(Or(a, b), j) <==> BitAt(a, j) || BitAt(b, j)
    decreases j
  {
    OrParity(a, b);
    if j == 0 {
      BitHalf(a, 0);
      BitHalf(b, 0);
      BitHalf(Or(a, b), 0);
    } else {
      BitOr(a / 2, b / 2, j - 1);
      BitHalf(a, j - 1);
      BitHalf(b, j - 1);
      BitHalf(Or(a, b), j - 1);
    }
  }

  /** 2^w - 1 is `w` ones. */
  lemma {:induction false} BitOnes(w: nat, j: nat)
    ensures BitAt(Pow2(w) - 1, j) <==> j < w
    decreases j
  {
    if w == 0 {
      NoBits(j);
    } else {
      Halves(Pow2(w) - 1, Pow2(w - 1) - 1, 1);
      if j == 0 {
        BitHalf(Pow2(w) - 1, 0);
      } else {
        BitHalf(Pow2(w) - 1, j - 1);
        BitOnes(w - 1, j - 1);
      }
    }
  }

  /** A mask of `w` ones cuts a number to `w` places. */
  lemma MaskIsLow(a: nat, w: nat)
    ensures And(a, Pow2(w) - 1) == Low(a, w)
  {
    forall j: nat ensures BitAt(And(a, Pow2(w) - 1), j) <==> BitAt(Low(a, w), j) {
      BitAnd(a, Pow2(w) - 1, j);
      BitOnes(w, j);
      BitLow(a, w, j);
    }
    SameBits(And(a, Pow2(w) - 1), Low(a, w));
  }
}
