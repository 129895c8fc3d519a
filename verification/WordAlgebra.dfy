/** Facts about machine words that follow from how a number is written into a word, one binary
    place at a time, whatever the width of the word. */
module WordAlgebra {
  import opened Bits

  /** `w(v)` is the word of `v`: the word of its half with one more place pushed in. */
  ghost predicate Spells<T(!new)>(w: nat -> T, push: (T, bool) -> T) {
    forall v: nat :: w(v) == push(w(v / 2), v % 2 == 1)
  }

  // ----- sums -----

  /** Adding one: a carry if the last place is taken. */
  ghost predicate Counts<T(!new)>(push: (T, bool) -> T, next: T -> T) {
    forall h: T :: next(push(h, true)) == push(next(h), false) && next(push(h, false)) == push(h, true)
  }

  lemma {:induction false} NextWord<T(!new)>(w: nat -> T, push: (T, bool) -> T, next: T -> T, v: nat)
    requires Spells(w, push) && Counts(push, next)
    ensures w(v + 1) == next(w(v))
  {
    if v % 2 == 1 {
      NextWord(w, push, next, v / 2);
      assert (v + 1) / 2 == v / 2 + 1;
    } else {
      assert (v + 1) / 2 == v / 2;
    }
  }

  /** One more on the left is one more in the sum. */
  ghost predicate Adds<T(!new)>(add: (T, T) -> T, next: T -> T) {
    forall a: T, b: T :: add(next(a), b) == next(add(a, b))
  }

  lemma {:induction false} SumWord<T(!new)>(w: nat -> T, push: (T, bool) -> T, next: T -> T, add: (T, T) -> T, u: nat,
                                            v: nat)
    requires Spells(w, push) && Counts(push, next) && Adds(add, next) && (forall b: T :: add(w(0), b) == b)
    ensures w(u + v) == add(w(u), w(v))
  {
    if u > 0 {
      SumWord(w, push, next, add, u - 1, v);
      NextWord(w, push, next, u - 1);
      NextWord(w, push, next, u - 1 + v);
    }
  }

  // ----- operations that work place by place -----

  ghost predicate Xors<T(!new)>(push: (T, bool) -> T, xor: (T, T) -> T) {
    forall a: T, b: T, p: bool, q: bool :: xor(push(a, p), push(b, q)) == push(xor(a, b), p != q)
  }

  lemma {:induction false} XorWord<T(!new)>(w: nat -> T, push: (T, bool) -> T, xor: (T, T) -> T, u: nat, v: nat)
    requires Spells(w, push) && Xors(push, xor) && xor(w(0), w(0)) == w(0)
    ensures w(Xor(u, v)) == xor(w(u), w(v))
    decreases u + v
  {
    if u + v > 0 {
      XorWord(w, push, xor, u / 2, v / 2);
      XorStep(u, v);
      XorParity(u, v);
    }
  }

  ghost predicate Ands<T(!new)>(push: (T, bool) -> T, and: (T, T) -> T) {
    forall a: T, b: T, p: bool, q: bool :: and(push(a, p), push(b, q)) == push(and(a, b), p && q)
  }

  lemma {:induction false} AndWord<T(!new)>(w: nat -> T, push: (T, bool) -> T, and: (T, T) -> T, u: nat, v: nat)
    requires Spells(w, push) && Ands(push, and) && and(w(0), w(0)) == w(0)
    ensures w(And(u, v)) == and(w(u), w(v))
    decreases u + v
  {
    if u + v > 0 {
      AndWord(w, push, and, u / 2, v / 2);
      AndParity(u, v);
    }
  }

  ghost predicate Ors<T(!new)>(push: (T, bool) -> T, or: (T, T) -> T) {
    forall a: T, b: T, p: bool, q: bool :: or(push(a, p), push(b, q)) == push(or(a, b), p || q)
  }

  lemma {:induction false} OrWord<T(!new)>(w: nat -> T, push: (T, bool) -> T, or: (T, T) -> T, u: nat, v: nat)
    requires Spells(w, push) && Ors(push, or) && or(w(0), w(0)) == w(0)
    ensures w(Or(u, v)) == or(w(u), w(v))
    decreases u + v
  {
    if u + v > 0 {
      OrWord(w, push, or, u / 2, v / 2);
      OrParity(u, v);
    }
  }

  // ----- shifts -----

  lemma {:induction false} ShlWord<T(!new)>(w: nat -> T, push: (T, bool) -> T, s: nat, v: nat)
    requires Spells(w, push)
    ensures w(Shl(v, s)) == Pushed(push, w(v), s)
  {
    if s > 0 {
      ShlWord(w, push, s - 1, v);
      ShlHalf(v, s);
    }
  }

  /** `s` zeros pushed in. */
  ghost function Pushed<T(!new)>(push: (T, bool) -> T, h: T, s: nat): T {
    if s == 0 then h else push(Pushed(push, h, s - 1), false)
  }

  // ----- no place is lost while there is room -----

  /** `m` is `n` ones. */
  ghost predicate AllOnes<T(!new)>(half: T -> T, odd: T -> bool, zero: T, m: T, n: nat) {
    if n == 0 then m == zero else odd(m) && AllOnes(half, odd, zero, half(m), n - 1)
  }

  ghost predicate Ordered<T(!new)>(push: (T, bool) -> T, half: T -> T, odd: T -> bool, le: (T, T) -> bool) {
    && (forall h: T, m: T, b: bool :: odd(m) && le(h, half(m)) ==> le(push(h, b), m))
    && (forall m: T :: le(m, m))
  }

  /** A number of at most `n` places does not exceed `n` ones. */
  lemma {:induction false} FitWord<T(!new)>(w: nat -> T, push: (T, bool) -> T, half: T -> T, odd: T -> bool,
                                            le: (T, T) -> bool, v: nat, m: T, n: nat)
    requires Spells(w, push) && Ordered(push, half, odd, le) && v < Pow2(n) && AllOnes(half, odd, w(0), m, n)
    ensures le(w(v), m)
    decreases n
  {
    if n > 0 {
      FitWord(w, push, half, odd, le, v / 2, half(m), n - 1);
    }
  }

  /** Shifting down, place by place, as long as nothing was lost at the top. */
  lemma {:induction false} ShrWord<T(!new)>(w: nat -> T, half: T -> T, size: nat, s: nat, v: nat)
    requires (forall u: nat :: u < size ==> half(w(u)) == w(u / 2)) && v < size
    ensures w(Shr(v, s)) == Halved(half, w(v), s)
  {
    if s > 0 {
      ShrWord(w, half, size, s - 1, v);
      ShrShr(v, s - 1, 1);
      ShrLess(v, s - 1);
      assert Shr(Shr(v, s - 1), 1) == Shr(v, s - 1) / 2;
    }
  }

  ghost function Halved<T(!new)>(half: T -> T, h: T, s: nat): T {
    if s == 0 then h else half(Halved(half, h, s - 1))
  }

  lemma {:induction false} PushedSum<T(!new)>(push: (T, bool) -> T, h: T, s: nat, t: nat)
    ensures Pushed(push, Pushed(push, h, s), t) == Pushed(push, h, s + t)
  {
    if t > 0 {
      PushedSum(push, h, s, t - 1);
    }
  }

  lemma {:induction false} HalvedSum<T(!new)>(half: T -> T, h: T, s: nat, t: nat)
    ensures Halved(half, Halved(half, h, s), t) == Halved(half, h, s + t)
  {
    if t > 0 {
      HalvedSum(half, h, s, t - 1);
    }
  }

  // ----- shifts by an amount that is itself a word -----

  /** Shifting by 2^e places is shifting by half as many, twice. */
  ghost predicate Doubles<T(!new)>(place: nat -> T, shift: (T, T) -> T) {
    forall x: T, e: nat {:trigger DoubleAt(place, shift, x, e)} :: 0 < e < 6 ==> DoubleAt(place, shift, x, e)
  }

  ghost predicate DoubleAt<T(!new)>(place: nat -> T, shift: (T, T) -> T, x: T, e: nat)
    requires e > 0
  {
    shift(x, place(e)) == shift(shift(x, place(e - 1)), place(e - 1))
  }

  lemma {:induction false} PushedPlace<T(!new)>(push: (T, bool) -> T, place: nat -> T, shift: (T, T) -> T, h: T, e: nat)
    requires Doubles(place, shift) && (forall x: T :: shift(x, place(0)) == push(x, false)) && e < 6
    ensures Pushed(push, h, Pow2(e)) == shift(h, place(e))
    decreases e
  {
    if e == 0 {
      assert Pushed(push, h, 1) == push(Pushed(push, h, 0), false);
    } else {
      PushedPlace(push, place, shift, h, e - 1);
      PushedPlace(push, place, shift, shift(h, place(e - 1)), e - 1);
      PushedSum(push, h, Pow2(e - 1), Pow2(e - 1));
      assert DoubleAt(place, shift, h, e);
    }
  }

  lemma {:induction false} HalvedPlace<T(!new)>(half: T -> T, place: nat -> T, shift: (T, T) -> T, h: T, e: nat)
    requires Doubles(place, shift) && (forall x: T :: shift(x, place(0)) == half(x)) && e < 6
    ensures Halved(half, h, Pow2(e)) == shift(h, place(e))
    decreases e
  {
    if e == 0 {
      assert Halved(half, h, 1) == half(Halved(half, h, 0));
    } else {
      HalvedPlace(half, place, shift, h, e - 1);
      HalvedPlace(half, place, shift, shift(h, place(e - 1)), e - 1);
      HalvedSum(half, h, Pow2(e - 1), Pow2(e - 1));
      assert DoubleAt(place, shift, h, e);
    }
  }

  /** `place(e)` is the word of 2^e. */
  ghost predicate Amounts<T(!new)>(w: nat -> T, add: (T, T) -> T, place: nat -> T, below: (T, T) -> bool) {
    forall j: nat, e: nat {:trigger AmountAt(w, add, place, below, j, e)} :: e < 6 && j < Pow2(e) ==>
      AmountAt(w, add, place, below, j, e)
  }

  ghost predicate AmountAt<T(!new)>(w: nat -> T, add: (T, T) -> T, place: nat -> T, below: (T, T) -> bool, j: nat,
                                    e: nat)
  {
    w(j + Pow2(e)) == add(w(j), place(e)) && below(w(j), place(e))
  }

  lemma AmountsAre<T(!new)>(w: nat -> T, add: (T, T) -> T, place: nat -> T, below: (T, T) -> bool)
    requires forall j: nat, s: nat :: w(j + s) == add(w(j), w(s))
    requires forall e: nat :: e < 6 ==> w(Pow2(e)) == place(e)
    requires forall j: nat, e: nat :: e < 6 && j < Pow2(e) ==> below(w(j), place(e))
    ensures Amounts(w, add, place, below)
  {
    forall j: nat, e: nat {:trigger AmountAt(w, add, place, below, j, e)} | e < 6 && j < Pow2(e)
      ensures AmountAt(w, add, place, below, j, e)
    {
      assert w(j + Pow2(e)) == add(w(j), w(Pow2(e)));
    }
  }

  /** Shifting by a sum is shifting by both parts. */
  ghost predicate Parts<T(!new)>(add: (T, T) -> T, place: nat -> T, below: (T, T) -> bool, shift: (T, T) -> T) {
    forall x: T, k: T, e: nat :: e < 6 && below(k, place(e)) ==>
      shift(x, add(k, place(e))) == shift(shift(x, place(e)), k)
  }

  lemma {:induction false} PushedBy<T(!new)>(w: nat -> T, push: (T, bool) -> T, add: (T, T) -> T, place: nat -> T,
                                             below: (T, T) -> bool, shift: (T, T) -> T, h: T, i: nat, e: nat)
    requires Amounts(w, add, place, below) && Parts(add, place, below, shift)
    requires forall x: T :: shift(x, w(0)) == x
    requires Doubles(place, shift) && forall x: T :: shift(x, place(0)) == push(x, false)
    requires e <= 6 && i < Pow2(e)
    ensures Pushed(push, h, i) == shift(h, w(i))
    decreases e
  {
    if e > 0 {
      if i < Pow2(e - 1) {
        PushedBy(w, push, add, place, below, shift, h, i, e - 1);
      } else {
        PushedBy(w, push, add, place, below, shift, shift(h, place(e - 1)), i - Pow2(e - 1), e - 1);
        PushedPlace(push, place, shift, h, e - 1);
        PushedMore(w, push, add, place, below, shift, h, i - Pow2(e - 1), e - 1);
      }
    }
  }

  lemma PushedMore<T(!new)>(w: nat -> T, push: (T, bool) -> T, add: (T, T) -> T, place: nat -> T, below: (T, T) -> bool,
                          shift: (T, T) -> T, h: T, j: nat, e: nat)
    requires Amounts(w, add, place, below) && Parts(add, place, below, shift) && e < 6 && j < Pow2(e)
    requires Pushed(push, h, Pow2(e)) == shift(h, place(e))
    requires Pushed(push, shift(h, place(e)), j) == shift(shift(h, place(e)), w(j))
    ensures Pushed(push, h, j + Pow2(e)) == shift(h, w(j + Pow2(e)))
  {
    PushedSum(push, h, Pow2(e), j);
    assert AmountAt(w, add, place, below, j, e);
  }

  lemma {:induction false} HalvedBy<T(!new)>(w: nat -> T, half: T -> T, add: (T, T) -> T, place: nat -> T,
                                             below: (T, T) -> bool, shift: (T, T) -> T, h: T, i: nat, e: nat)
    requires Amounts(w, add, place, below) && Parts(add, place, below, shift)
    requires forall x: T :: shift(x, w(0)) == x
    requires Doubles(place, shift) && forall x: T :: shift(x, place(0)) == half(x)
    requires e <= 6 && i < Pow2(e)
    ensures Halved(half, h, i) == shift(h, w(i))
    decreases e
  {
    if e > 0 {
      if i < Pow2(e - 1) {
        HalvedBy(w, half, add, place, below, shift, h, i, e - 1);
      } else {
        HalvedBy(w, half, add, place, below, shift, shift(h, place(e - 1)), i - Pow2(e - 1), e - 1);
        HalvedPlace(half, place, shift, h, e - 1);
        HalvedMore(w, half, add, place, below, shift, h, i - Pow2(e - 1), e - 1);
      }
    }
  }

  lemma HalvedMore<T(!new)>(w: nat -> T, half: T -> T, add: (T, T) -> T, place: nat -> T, below: (T, T) -> bool,
                          shift: (T, T) -> T, h: T, j: nat, e: nat)
    requires Amounts(w, add, place, below) && Parts(add, place, below, shift) && e < 6 && j < Pow2(e)
    requires Halved(half, h, Pow2(e)) == shift(h, place(e))
    requires Halved(half, shift(h, place(e)), j) == shift(shift(h, place(e)), w(j))
    ensures Halved(half, h, j + Pow2(e)) == shift(h, w(j + Pow2(e)))
  {
    HalvedSum(half, h, Pow2(e), j);
    assert AmountAt(w, add, place, below, j, e);
  }
}
