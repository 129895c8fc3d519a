/** The vertex scrambler: three kinds of mixing step, two hashes built from them, and the
    sliding windows that stretch a hash over ids of 17 to 64 bits. */
module Hash {
  import opened Bits
  import opened Numbers

  // ----- the mixing steps, truncated to w bits -----

  /** `(a + k) + (a << s)` */
  function AddShl(w: nat, k: nat, s: nat, a: nat): nat { Low(a + k + Shl(a, s), w) }
  /** `(a ^ k) ^ (a >> s)` */
  function XorDown(k: nat, s: nat, a: nat): nat { Xor(Xor(a, k), Shr(a, s)) }
  /** `(a + k) ^ (a << s)` */
  function XorUp(w: nat, k: nat, s: nat, a: nat): nat { Low(Xor(a + k, Shl(a, s)), w) }

  /** Two inputs that give the same result agree on their low bits, one bit at a time. */
  lemma {:induction false} AddShlLow(w: nat, k: nat, s: nat, a: nat, b: nat, j: nat)
    requires s > 0 && j <= w && AddShl(w, k, s, a) == AddShl(w, k, s, b)
    ensures Multiple(a - b, j)
    decreases j
  {
    if j > 0 {
      AddShlLow(w, k, s, a, b, j - 1);
      MultipleShl(a, b, s, j - 1);
      MultipleLess(Shl(a, s) - Shl(b, s), j, j - 1 + s);
      var x, y := a + k + Shl(a, s), b + k + Shl(b, s);
      SameLow(x, y, w);
      MultipleLess(x - y, j, w);
      MultipleSum(x - y, Shl(a, s) - Shl(b, s), j);
    }
  }

  lemma XorUpParts(w: nat, k: nat, s: nat, a: nat, j: nat)
    requires j <= w
    ensures Low(XorUp(w, k, s, a), j) == Xor(Low(a + k, j), Low(Shl(a, s), j))
  {
    LowLow(Xor(a + k, Shl(a, s)), j, w);
    XorLow(a + k, Shl(a, s), j);
  }

  lemma {:induction false} XorUpLow(w: nat, k: nat, s: nat, a: nat, b: nat, j: nat)
    requires s > 0 && j <= w && XorUp(w, k, s, a) == XorUp(w, k, s, b)
    ensures Multiple(a - b, j)
    decreases j
  {
    if j > 0 {
      XorUpLow(w, k, s, a, b, j - 1);
      MultipleShl(a, b, s, j - 1);
      MultipleLess(Shl(a, s) - Shl(b, s), j, j - 1 + s);
      SameLow(Shl(a, s), Shl(b, s), j);
      XorUpParts(w, k, s, a, j);
      XorUpParts(w, k, s, b, j);
      XorCancel(Low(a + k, j), Low(b + k, j), Low(Shl(a, s), j));
      SameLow(a + k, b + k, j);
    }
  }

  /** For the downward shift the agreement grows from the top. */
  lemma {:induction false} XorDownHigh(w: nat, k: nat, s: nat, a: nat, b: nat, j: nat)
    requires s > 0 && j <= w && a < Pow2(w) && b < Pow2(w) && XorDown(k, s, a) == XorDown(k, s, b)
    ensures Shr(a, j) == Shr(b, j)
    decreases w - j
  {
    if j == w {
      ShrBound(a, w, 0);
      ShrBound(b, w, 0);
    } else {
      XorDownHigh(w, k, s, a, b, j + 1);
      XorDownShr(k, s, a, j);
      XorDownShr(k, s, b, j);
      ShrShr(a, j + 1, s - 1);
      ShrShr(b, j + 1, s - 1);
      XorCancel(Xor(Shr(a, j), Shr(k, j)), Xor(Shr(b, j), Shr(k, j)), Shr(a, s + j));
      XorCancel(Shr(a, j), Shr(b, j), Shr(k, j));
    }
  }

  lemma XorDownShr(k: nat, s: nat, a: nat, j: nat)
    ensures Shr(XorDown(k, s, a), j) == Xor(Xor(Shr(a, j), Shr(k, j)), Shr(a, s + j))
  {
    XorShr(Xor(a, k), Shr(a, s), j);
    XorShr(a, k, j);
    ShrShr(a, s, j);
  }

  lemma AddShlInjective(w: nat, k: nat, s: nat, a: nat, b: nat)
    requires s > 0 && a < Pow2(w) && b < Pow2(w) && AddShl(w, k, s, a) == AddShl(w, k, s, b)
    ensures a == b
  {
    AddShlLow(w, k, s, a, b, w);
    SameLow(a, b, w);
    LowOfSmall(a, w);
    LowOfSmall(b, w);
  }

  lemma XorUpInjective(w: nat, k: nat, s: nat, a: nat, b: nat)
    requires s > 0 && a < Pow2(w) && b < Pow2(w) && XorUp(w, k, s, a) == XorUp(w, k, s, b)
    ensures a == b
  {
    XorUpLow(w, k, s, a, b, w);
    SameLow(a, b, w);
    LowOfSmall(a, w);
    LowOfSmall(b, w);
  }

  lemma XorDownInjective(w: nat, k: nat, s: nat, a: nat, b: nat)
    requires s > 0 && a < Pow2(w) && b < Pow2(w) && XorDown(k, s, a) == XorDown(k, s, b)
    ensures a == b
  {
    XorDownHigh(w, k, s, a, b, 0);
  }

  lemma XorDownBound(w: nat, k: nat, s: nat, a: nat)
    requires a < Pow2(w) && k < Pow2(w)
    ensures XorDown(k, s, a) < Pow2(w)
  {
    XorBound(a, k, w);
    ShrLess(a, s);
    XorBound(Xor(a, k), Shr(a, s), w);
  }

  // ----- the hashes -----

  /** The constants of a hash: six addends and masks, six shift amounts. */
  datatype Mixer = Mixer(w: nat, k1: nat, s1: nat, k2: nat, s2: nat, k3: nat, s3: nat, k4: nat, s4: nat, k5: nat,
                         s5: nat, k6: nat, s6: nat)

  const MIX32 := Mixer(32, 0x7ed55d16, 12, 0xc761c23c, 19, 0x165667b1, 5, 0xd3a2646c, 9, 0xfd7046c5, 3, 0xb55a4f09, 16)
  const MIX16 := Mixer(16, 0x5d16, 6, 0xc23c, 9, 0x67b1, 5, 0x646c, 7, 0x46c5, 3, 0x4f09, 8)

  /** The first three steps, the last three, and all six. */
  function MixA(m: Mixer, a: nat): nat {
    AddShl(m.w, m.k3, m.s3, XorDown(m.k2, m.s2, AddShl(m.w, m.k1, m.s1, a)))
  }
  function MixB(m: Mixer, a: nat): nat {
    XorDown(m.k6, m.s6, AddShl(m.w, m.k5, m.s5, XorUp(m.w, m.k4, m.s4, a)))
  }
  function Mix(m: Mixer, a: nat): nat { MixB(m, MixA(m, a)) }

  /** All shifts are by at least one place and the masks fit the width. */
  predicate Proper(m: Mixer) {
    m.s1 > 0 && m.s2 > 0 && m.s3 > 0 && m.s4 > 0 && m.s5 > 0 && m.s6 > 0 && m.k2 < Pow2(m.w) && m.k6 < Pow2(m.w)
  }

  lemma MixersAreProper()
    ensures Proper(MIX32) && Proper(MIX16)
  {
    Pow2Of16();
    Pow2Of32();
  }

  lemma AddShlBound(w: nat, k: nat, s: nat, a: nat)
    ensures AddShl(w, k, s, a) < Pow2(w)
  {
    LowBound(a + k + Shl(a, s), w);
  }

  lemma XorUpBound(w: nat, k: nat, s: nat, a: nat)
    ensures XorUp(w, k, s, a) < Pow2(w)
  {
    LowBound(Xor(a + k, Shl(a, s)), w);
  }

  lemma MixBound(m: Mixer, a: nat)
    requires Proper(m)
    ensures Mix(m, a) < Pow2(m.w)
  {
    var a4 := XorUp(m.w, m.k4, m.s4, MixA(m, a));
    AddShlBound(m.w, m.k5, m.s5, a4);
    XorDownBound(m.w, m.k6, m.s6, AddShl(m.w, m.k5, m.s5, a4));
  }

  lemma MixAInjective(m: Mixer, a: nat, b: nat)
    requires Proper(m) && a < Pow2(m.w) && b < Pow2(m.w) && MixA(m, a) == MixA(m, b)
    ensures a == b
  {
    var a1, b1 := AddShl(m.w, m.k1, m.s1, a), AddShl(m.w, m.k1, m.s1, b);
    AddShlBound(m.w, m.k1, m.s1, a);
    AddShlBound(m.w, m.k1, m.s1, b);
    XorDownBound(m.w, m.k2, m.s2, a1);
    XorDownBound(m.w, m.k2, m.s2, b1);
    AddShlInjective(m.w, m.k3, m.s3, XorDown(m.k2, m.s2, a1), XorDown(m.k2, m.s2, b1));
    XorDownInjective(m.w, m.k2, m.s2, a1, b1);
    AddShlInjective(m.w, m.k1, m.s1, a, b);
  }

  lemma MixBInjective(m: Mixer, a: nat, b: nat)
    requires Proper(m) && a < Pow2(m.w) && b < Pow2(m.w) && MixB(m, a) == MixB(m, b)
    ensures a == b
  {
    var a4, b4 := XorUp(m.w, m.k4, m.s4, a), XorUp(m.w, m.k4, m.s4, b);
    XorUpBound(m.w, m.k4, m.s4, a);
    XorUpBound(m.w, m.k4, m.s4, b);
    AddShlBound(m.w, m.k5, m.s5, a4);
    AddShlBound(m.w, m.k5, m.s5, b4);
    XorDownInjective(m.w, m.k6, m.s6, AddShl(m.w, m.k5, m.s5, a4), AddShl(m.w, m.k5, m.s5, b4));
    AddShlInjective(m.w, m.k5, m.s5, a4, b4);
    XorUpInjective(m.w, m.k4, m.s4, a, b);
  }

  /** A proper mixer never maps two numbers of its width to one. */
  lemma MixInjective(m: Mixer, a: nat, b: nat)
    requires Proper(m) && a < Pow2(m.w) && b < Pow2(m.w) && Mix(m, a) == Mix(m, b)
    ensures a == b
  {
    AddShlBound(m.w, m.k3, m.s3, XorDown(m.k2, m.s2, AddShl(m.w, m.k1, m.s1, a)));
    AddShlBound(m.w, m.k3, m.s3, XorDown(m.k2, m.s2, AddShl(m.w, m.k1, m.s1, b)));
    MixBInjective(m, MixA(m, a), MixA(m, b));
    MixAInjective(m, a, b);
  }

  // ----- one window -----

  /** Replace the field of the mixer's width that starts at bit `i` by its hash: take it out,
      hash it, clear it, put the hash in its place. */
  function Shifted(m: Mixer, x: nat, i: nat): nat {
    var field := Low(Shr(x, i), m.w);
    var above := Shr(Shr(x, i), m.w);
    Low(x, i) + Shl(Mix(m, field) + Shl(above, m.w), i)
  }

  /** The window step with masks: clear the field and put the hash in its place. */
  lemma ShiftedIsMasked(m: Mixer, x: nat, i: nat, h: nat)
    requires h == Mix(m, Low(Shr(x, i), m.w)) && h < Pow2(m.w)
    ensures Shifted(m, x, i) == Or(Xor(x, And(x, Shl(Pow2(m.w) - 1, i))), Shl(h, i))
  {
    ShiftedParts(m, x, i, h);
    SameWindow(x, m.w, i, h);
  }

  lemma ShiftedParts(m: Mixer, x: nat, i: nat, h: nat)
    requires h == Mix(m, Low(Shr(x, i), m.w))
    ensures Shifted(m, x, i) == Low(x, i) + Shl(h + Shl(Shr(Shr(x, i), m.w), m.w), i)
  {
  }

  lemma SameWindow(x: nat, w: nat, i: nat, h: nat)
    requires h < Pow2(w)
    ensures Low(x, i) + Shl(h + Shl(Shr(Shr(x, i), w), w), i) == Or(Xor(x, And(x, Shl(Pow2(w) - 1, i))), Shl(h, i))
  {
    var parts := Low(x, i) + Shl(h + Shl(Shr(Shr(x, i), w), w), i);
    var masked := Or(Xor(x, And(x, Shl(Pow2(w) - 1, i))), Shl(h, i));
    forall j: nat ensures BitAt(parts, j) <==> BitAt(masked, j) {
      WindowDigit(x, w, i, h, j);
      MaskedDigit(x, w, i, h, j);
    }
    SameBits(parts, masked);
  }

  lemma MaskedDigit(x: nat, w: nat, i: nat, h: nat, j: nat)
    requires h < Pow2(w)
    ensures BitAt(Or(Xor(x, And(x, Shl(Pow2(w) - 1, i))), Shl(h, i)), j)
       <==> if i <= j < i + w then BitAt(h, j - i) else BitAt(x, j)
  {
    var mask := Shl(Pow2(w) - 1, i);
    BitOr(Xor(x, And(x, mask)), Shl(h, i), j);
    BitXor(x, And(x, mask), j);
    BitAnd(x, mask, j);
    BitShl(Pow2(w) - 1, i, j);
    BitShl(h, i, j);
    if j >= i {
      BitOnes(w, j - i);
      if j >= i + w {
        BitBound(h, w, j - i);
      }
    }
  }

  lemma WindowDigit(x: nat, w: nat, i: nat, h: nat, j: nat)
    requires h < Pow2(w)
    ensures BitAt(Low(x, i) + Shl(h + Shl(Shr(Shr(x, i), w), w), i), j)
       <==> if i <= j < i + w then BitAt(h, j - i) else BitAt(x, j)
  {
    LowBound(x, i);
    BitJoin(Low(x, i), h + Shl(Shr(Shr(x, i), w), w), i, j);
    if j < i {
      BitLow(x, i, j);
    } else {
      InnerDigit(Shr(x, i), h, w, j - i);
      BitShr(x, i, j - i);
    }
  }

  lemma InnerDigit(p: nat, h: nat, w: nat, j: nat)
    requires h < Pow2(w)
    ensures BitAt(h + Shl(Shr(p, w), w), j) <==> if j < w then BitAt(h, j) else BitAt(p, j)
  {
    BitJoin(h, Shr(p, w), w, j);
    if j >= w {
      BitShr(p, w, j - w);
    }
  }

  /** The digits of a number put together from a low and a high part. */
  lemma BitJoin(l: nat, h: nat, n: nat, j: nat)
    requires l < Pow2(n)
    ensures BitAt(l + Shl(h, n), j) <==> if j < n then BitAt(l, j) else BitAt(h, j - n)
  {
    Join(l, h, n);
    if j < n {
      BitLow(l + Shl(h, n), n, j);
    } else {
      BitShr(l + Shl(h, n), n, j - n);
    }
  }

  lemma ShiftedInjective(m: Mixer, x: nat, y: nat, i: nat)
    requires Proper(m) && Shifted(m, x, i) == Shifted(m, y, i)
    ensures x == y
  {
    var p, q := Shr(x, i), Shr(y, i);
    var p', q' := Mix(m, Low(p, m.w)) + Shl(Shr(p, m.w), m.w), Mix(m, Low(q, m.w)) + Shl(Shr(q, m.w), m.w);
    LowBound(x, i);
    LowBound(y, i);
    Join(Low(x, i), p', i);
    Join(Low(y, i), q', i);
    FieldInjective(m, p, q);
    Split(x, i);
    Split(y, i);
  }

  lemma FieldInjective(m: Mixer, p: nat, q: nat)
    requires Proper(m)
    requires Mix(m, Low(p, m.w)) + Shl(Shr(p, m.w), m.w) == Mix(m, Low(q, m.w)) + Shl(Shr(q, m.w), m.w)
    ensures p == q
  {
    var u, v := Low(p, m.w), Low(q, m.w);
    MixBound(m, u);
    MixBound(m, v);
    SameParts(Mix(m, u), Shr(p, m.w), Mix(m, v), Shr(q, m.w), m.w);
    LowBound(p, m.w);
    LowBound(q, m.w);
    MixInjective(m, u, v);
    Split(p, m.w);
    Split(q, m.w);
  }

  lemma SameParts(l: nat, h: nat, l': nat, h': nat, n: nat)
    requires l < Pow2(n) && l' < Pow2(n) && l + Shl(h, n) == l' + Shl(h', n)
    ensures l == l' && h == h'
  {
    Join(l, h, n);
    Join(l', h', n);
  }

  /** A window inside an `n`-bit id keeps it an `n`-bit id. */
  lemma ShiftedBound(m: Mixer, x: nat, i: nat, n: nat)
    requires Proper(m) && x < Pow2(n) && i + m.w <= n
    ensures Shifted(m, x, i) < Pow2(n)
  {
    var p := Shr(x, i);
    var h := Mix(m, Low(p, m.w));
    ShrBound(x, i, n - i);
    ShrBound(p, m.w, n - i - m.w);
    MixBound(m, Low(p, m.w));
    JoinBound(h, Shr(p, m.w), m.w, n - i - m.w);
    LowBound(x, i);
    JoinBound(Low(x, i), h + Shl(Shr(p, m.w), m.w), i, n - i);
  }

  // ----- the two sweeps -----

  /** Windows 0, 1, ..., k - 1. */
  function Up(m: Mixer, x: nat, k: nat): nat
    decreases k
  {
    if k == 0 then x else Shifted(m, Up(m, x, k - 1), k - 1)
  }

  /** Windows k - 1, ..., 1, 0. */
  function Down(m: Mixer, x: nat, k: nat): nat
    decreases k
  {
    if k == 0 then x else Down(m, Shifted(m, x, k - 1), k - 1)
  }

  function MixerFor(n: nat): Mixer { if n >= 32 then MIX32 else MIX16 }

  function ScrambledBy(m: Mixer, x: nat, n: nat): nat
    requires m.w <= n
  {
    if n == m.w then Mix(m, Low(x, n))
    else
      var k := n - m.w + 1;
      Down(m, Up(m, x, k), k)
  }

  /** The scrambled form of an id of `n` bits. */
  function Scrambled(x: nat, n: nat): nat
    requires 16 < n <= 64
  {
    ScrambledBy(MixerFor(n), x, n)
  }

  lemma {:induction false} UpInjective(m: Mixer, x: nat, y: nat, k: nat)
    requires Proper(m) && Up(m, x, k) == Up(m, y, k)
    ensures x == y
    decreases k
  {
    if k > 0 {
      ShiftedInjective(m, Up(m, x, k - 1), Up(m, y, k - 1), k - 1);
      UpInjective(m, x, y, k - 1);
    }
  }

  lemma {:induction false} DownInjective(m: Mixer, x: nat, y: nat, k: nat)
    requires Proper(m) && Down(m, x, k) == Down(m, y, k)
    ensures x == y
    decreases k
  {
    if k > 0 {
      DownInjective(m, Shifted(m, x, k - 1), Shifted(m, y, k - 1), k - 1);
      ShiftedInjective(m, x, y, k - 1);
    }
  }

  lemma {:induction false} UpBound(m: Mixer, x: nat, k: nat, n: nat)
    requires Proper(m) && x < Pow2(n) && k + m.w <= n + 1
    ensures Up(m, x, k) < Pow2(n)
    decreases k
  {
    if k > 0 {
      UpBound(m, x, k - 1, n);
      ShiftedBound(m, Up(m, x, k - 1), k - 1, n);
    }
  }

  lemma {:induction false} DownBound(m: Mixer, x: nat, k: nat, n: nat)
    requires Proper(m) && x < Pow2(n) && k + m.w <= n + 1
    ensures Down(m, x, k) < Pow2(n)
    decreases k
  {
    if k > 0 {
      ShiftedBound(m, x, k - 1, n);
      DownBound(m, Shifted(m, x, k - 1), k - 1, n);
    }
  }

  lemma ScrambledByInjective(m: Mixer, x: nat, y: nat, n: nat)
    requires Proper(m) && m.w <= n && x < Pow2(n) && y < Pow2(n) && ScrambledBy(m, x, n) == ScrambledBy(m, y, n)
    ensures x == y
  {
    if n == m.w {
      LowOfSmall(x, n);
      LowOfSmall(y, n);
      MixInjective(m, x, y);
    } else {
      var k := n - m.w + 1;
      DownInjective(m, Up(m, x, k), Up(m, y, k), k);
      UpInjective(m, x, y, k);
    }
  }

  lemma ScrambledByBound(m: Mixer, x: nat, n: nat)
    requires Proper(m) && m.w <= n && x < Pow2(n)
    ensures ScrambledBy(m, x, n) < Pow2(n)
  {
    if n == m.w {
      MixBound(m, Low(x, n));
    } else {
      var k := n - m.w + 1;
      UpBound(m, x, k, n);
      DownBound(m, Up(m, x, k), k, n);
    }
  }

  /** Scrambling never merges two ids ... */
  lemma ScrambleInjective(x: nat, y: nat, n: nat)
    requires 16 < n <= 64 && x < Pow2(n) && y < Pow2(n)
    ensures Scrambled(x, n) == Scrambled(y, n) ==> x == y
  {
    MixersAreProper();
    if ScrambledBy(MixerFor(n), x, n) == ScrambledBy(MixerFor(n), y, n) {
      ScrambledByInjective(MixerFor(n), x, y, n);
    }
  }

  /** ... never leaves the range of ids ... */
  lemma ScrambleBound(x: nat, n: nat)
    requires 16 < n <= 64 && x < Pow2(n)
    ensures Scrambled(x, n) < Pow2(n)
  {
    MixersAreProper();
    ScrambledByBound(MixerFor(n), x, n);
  }

  /** ... and so reaches every id: it is a permutation of [0, 2^n). */
  lemma ScrambleOnto(y: nat, n: nat) returns (x: nat)
    requires 16 < n <= 64 && y < Pow2(n)
    ensures x < Pow2(n) && Scrambled(x, n) == y
  {
    var f: nat -> nat := (u: nat) => Scrambled(u, n);
    forall u: nat, v: nat | u < v < Pow2(n) ensures f(u) != f(v) {
      ScrambleInjective(u, v, n);
    }
    forall u: nat | u < Pow2(n) ensures f(u) < Pow2(n) {
      ScrambleBound(u, n);
    }
    x := Onto(f, Pow2(n), y);
  }

  /** An injective map of [0, size) into itself reaches everything. */
  lemma Onto(f: nat -> nat, size: nat, y: nat) returns (x: nat)
    requires y < size && (forall u: nat :: u < size ==> f(u) < size)
    requires forall u: nat, v: nat :: u < v < size ==> f(u) != f(v)
    ensures x < size && f(x) == y
  {
    var image := ImageBelow(f, size, size);
    var all := Below(size);
    BelowCount(size);
    forall v | v in image ensures v in all {
      var u: nat :| u < size && f(u) == v;
    }
    SubsetOfSameSize(image, all);
    assert y in image;
    x :| x < size && f(x) == y;
  }

  /** The images of the numbers below `k`. */
  lemma {:induction false} ImageBelow(f: nat -> nat, size: nat, k: nat) returns (s: set<nat>)
    requires k <= size && (forall u: nat, v: nat :: u < v < size ==> f(u) != f(v))
    ensures |s| == k && forall v :: v in s <==> exists u: nat :: u < k && f(u) == v
    decreases k
  {
    if k == 0 {
      s := {};
    } else {
      var t := ImageBelow(f, size, k - 1);
      var v := f(k - 1);
      assert v !in t;
      s := t + {v};
    }
  }

  lemma SubsetOfSameSize(a: set<nat>, b: set<nat>)
    requires a <= b && |a| == |b|
    ensures a == b
  {
    assert |b - a| == |b| - |a|;
  }
}
