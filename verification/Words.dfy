/** Numbers below 2^64 as machine words. */
module Words {
  import opened Bits
  import opened WordAlgebra

  const LIMIT: nat := 0x1_0000_0000_0000_0000

  /** One more binary place. */
  function Push(h: bv64, b: bool): bv64 { if b then (h << 1) | 1 else h << 1 }

  function Word(v: nat): bv64 { if v == 0 then 0 else Push(Word(v / 2), v % 2 == 1) }

  function Half(h: bv64): bv64 { h >> 1 }
  predicate Odd(h: bv64) { h & 1 == 1 }
  predicate AtMost(a: bv64, b: bv64) { a <= b }

  lemma Spelled()
    ensures Spells(Word, Push)
  {
    assert Push(0, false) == 0;
  }

  // ----- the value of a word -----

  lemma Room()
    ensures Ordered(Push, Half, Odd, AtMost)
  {
    forall h: bv64, m: bv64, b: bool | Odd(m) && AtMost(h, Half(m)) ensures AtMost(Push(h, b), m) {
      if b {
        RoomForOne(h, m);
      } else {
        RoomForZero(h, m);
      }
    }
  }

  lemma RoomForOne(h: bv64, m: bv64)
    requires Odd(m) && AtMost(h, Half(m))
    ensures AtMost(Push(h, true), m)
  {
  }

  lemma RoomForZero(h: bv64, m: bv64)
    requires Odd(m) && AtMost(h, Half(m))
    ensures AtMost(Push(h, false), m)
  {
  }

  lemma OnesAre()
    ensures AllOnes(Half, Odd, Word(0), 0x7FFF_FFFF_FFFF_FFFF, 63)
  {
    assert AllOnes(Half, Odd, Word(0), 0x7F, 7);
    MoreOnes(0x7F, 0x7FFF, 7);
    MoreOnes(0x7FFF, 0x7F_FFFF, 15);
    MoreOnes(0x7F_FFFF, 0x7FFF_FFFF, 23);
    MoreOnes(0x7FFF_FFFF, 0x7F_FFFF_FFFF, 31);
    MoreOnes(0x7F_FFFF_FFFF, 0x7FFF_FFFF_FFFF, 39);
    MoreOnes(0x7FFF_FFFF_FFFF, 0x7F_FFFF_FFFF_FFFF, 47);
    MoreOnes(0x7F_FFFF_FFFF_FFFF, 0x7FFF_FFFF_FFFF_FFFF, 55);
  }

  lemma MoreOnes(m: bv64, m': bv64, n: nat)
    requires AllOnes(Half, Odd, Word(0), m, n) && m == m' >> 8 && m' & 0xFF == 0xFF
    ensures AllOnes(Half, Odd, Word(0), m', n + 8)
  {
    var a := Half(m');
    var b := Half(a);
    var c := Half(b);
    var d := Half(c);
    var e := Half(d);
    var f := Half(e);
    var g := Half(f);
    LastEight(m', a, b, c, d, e, f, g);
    MoreOne(m, g, n);
    MoreOne(g, f, n + 1);
    MoreOne(f, e, n + 2);
    MoreOne(e, d, n + 3);
    MoreOne(d, c, n + 4);
    MoreOne(c, b, n + 5);
    MoreOne(b, a, n + 6);
    MoreOne(a, m', n + 7);
  }

  lemma MoreOne(m: bv64, m': bv64, n: nat)
    requires AllOnes(Half, Odd, Word(0), m, n) && Odd(m') && Half(m') == m
    ensures AllOnes(Half, Odd, Word(0), m', n + 1)
  {
  }

  lemma LastEight(m: bv64, a: bv64, b: bv64, c: bv64, d: bv64, e: bv64, f: bv64, g: bv64)
    requires m & 0xFF == 0xFF && a == Half(m) && b == Half(a) && c == Half(b) && d == Half(c) && e == Half(d)
    requires f == Half(e) && g == Half(f)
    ensures Odd(m) && Odd(a) && Odd(b) && Odd(c) && Odd(d) && Odd(e) && Odd(f) && Odd(g) && Half(g) == m >> 8
  {
  }

  /** A number below 2^63 leaves the top place free. */
  lemma TopFree(v: nat)
    requires 2 * v < LIMIT
    ensures Word(v) <= 0x7FFF_FFFF_FFFF_FFFF
  {
    Pow2Of64();
    Spelled();
    Room();
    OnesAre();
    FitWord(Word, Push, Half, Odd, AtMost, v, 0x7FFF_FFFF_FFFF_FFFF, 63);
  }

  lemma HalfOf(v: nat)
    requires v < LIMIT
    ensures Half(Word(v)) == Word(v / 2)
  {
    Spelled();
    TopFree(v / 2);
    assert Word(v) == Push(Word(v / 2), v % 2 == 1);
    Dropped(Word(v / 2), v % 2 == 1);
  }

  lemma Dropped(h: bv64, b: bool)
    requires h <= 0x7FFF_FFFF_FFFF_FFFF
    ensures Half(Push(h, b)) == h
  {
  }

  function Value(x: bv64): nat { x as nat }

  lemma {:induction false} ValueOf(v: nat)
    requires v < LIMIT
    ensures Value(Word(v)) == v
  {
    if v == 0 {
      ZeroValue();
    } else {
      ValueOf(v / 2);
      TopFree(v / 2);
      ValueMore(v, Word(v / 2));
    }
  }

  lemma ZeroValue()
    ensures Value(0) == 0
  {
  }

  lemma ValueMore(v: nat, h: bv64)
    requires v > 0 && h == Word(v / 2) && h <= 0x7FFF_FFFF_FFFF_FFFF && Value(h) == v / 2
    ensures Value(Word(v)) == v
  {
    assert Word(v) == Push(h, v % 2 == 1);
    ValueOfPush(h, v % 2 == 1, v / 2);
  }

  lemma ValueOfPush(h: bv64, b: bool, n: nat)
    requires h <= 0x7FFF_FFFF_FFFF_FFFF && Value(h) == n
    ensures Value(Push(h, b)) == 2 * n + if b then 1 else 0
  {
    PushedValue(h);
  }

  lemma PushedValue(h: bv64)
    requires h <= 0x7FFF_FFFF_FFFF_FFFF
    ensures Value(Push(h, false)) == 2 * Value(h) && Value(Push(h, true)) == 2 * Value(h) + 1
  {
    ZeroPushed(h);
    OnePushed(h);
  }

  lemma ZeroPushed(h: bv64)
    requires h <= 0x7FFF_FFFF_FFFF_FFFF
    ensures (h << 1) as nat == 2 * (h as nat)
  {
  }

  lemma OnePushed(h: bv64)
    requires h <= 0x7FFF_FFFF_FFFF_FFFF
    ensures ((h << 1) | 1) as nat == 2 * (h as nat) + 1
  {
  }

  /** `Word` is the conversion of the language, in both directions. */
  lemma WordIs(v: nat)
    requires v < LIMIT
    ensures Word(v) as nat == v && v as bv64 == Word(v)
  {
    ValueOf(v);
    RoundTrip(Word(v));
  }

  lemma WordOf(x: bv64)
    ensures Word(x as nat) == x
  {
    ValueOf(x as nat);
    RoundTrip(x);
    RoundTrip(Word(x as nat));
  }

  lemma RoundTrip(x: bv64)
    ensures x as nat < LIMIT && (x as nat) as bv64 == x
  {
  }

  // ----- sums -----

  function Add(a: bv64, b: bv64): bv64 { a + b }
  function Next(h: bv64): bv64 { h + 1 }

  lemma Counting()
    ensures Counts(Push, Next)
  {
    forall h: bv64 ensures Next(Push(h, true)) == Push(Next(h), false) && Next(Push(h, false)) == Push(h, true) {
      Carry(h);
      NoCarry(h);
    }
  }

  lemma Carry(h: bv64)
    ensures Next(Push(h, true)) == Push(Next(h), false)
  {
  }

  lemma NoCarry(h: bv64)
    ensures Next(Push(h, false)) == Push(h, true)
  {
  }

  lemma Adding()
    ensures Adds(Add, Next)
  {
    forall a: bv64, b: bv64 ensures Add(Next(a), b) == Next(Add(a, b)) {
      OneMore(a, b);
    }
  }

  lemma OneMore(a: bv64, b: bv64)
    ensures Add(Next(a), b) == Next(Add(a, b))
  {
    assert Next(a) == a + 1;
    Plus(a, b);
    assert Add(Next(a), b) == Add(a + 1, b);
    assert Next(Add(a, b)) == Add(a, b) + 1;
  }

  lemma Plus(a: bv64, b: bv64)
    ensures Add(a + 1, b) == Add(a, b) + 1
  {
  }

  lemma ZeroAdded()
    ensures forall b :: Add(Word(0), b) == b
  {
    forall b ensures Add(Word(0), b) == b {
      Nothing(b);
    }
  }

  lemma Nothing(b: bv64)
    ensures Add(0, b) == b
  {
  }

  lemma SumOf(u: nat, v: nat)
    ensures Word(u + v) == Add(Word(u), Word(v))
  {
    Spelled();
    Counting();
    Adding();
    ZeroAdded();
    SumWord(Word, Push, Next, Add, u, v);
  }

  // ----- logic -----

  function XorBits(a: bv64, b: bv64): bv64 { a ^ b }
  function AndBits(a: bv64, b: bv64): bv64 { a & b }
  function OrBits(a: bv64, b: bv64): bv64 { a | b }

  lemma XorPlaces()
    ensures Xors(Push, XorBits)
  {
    forall a: bv64, b: bv64, p: bool, q: bool ensures XorBits(Push(a, p), Push(b, q)) == Push(XorBits(a, b), p != q) {
      if p && q {
        XorOneOne(a, b);
      } else if p {
        XorOneZero(a, b);
      } else if q {
        XorZeroOne(a, b);
      } else {
        XorZeroZero(a, b);
      }
    }
  }

  lemma XorOneOne(a: bv64, b: bv64)
    ensures XorBits(Push(a, true), Push(b, true)) == Push(XorBits(a, b), false)
  {
  }

  lemma XorOneZero(a: bv64, b: bv64)
    ensures XorBits(Push(a, true), Push(b, false)) == Push(XorBits(a, b), true)
  {
  }

  lemma XorZeroOne(a: bv64, b: bv64)
    ensures XorBits(Push(a, false), Push(b, true)) == Push(XorBits(a, b), true)
  {
  }

  lemma XorZeroZero(a: bv64, b: bv64)
    ensures XorBits(Push(a, false), Push(b, false)) == Push(XorBits(a, b), false)
  {
  }

  lemma XorOf(u: nat, v: nat)
    ensures Word(Xor(u, v)) == XorBits(Word(u), Word(v))
  {
    Spelled();
    XorPlaces();
    XorWord(Word, Push, XorBits, u, v);
  }

  lemma AndPlaces()
    ensures Ands(Push, AndBits)
  {
    forall a: bv64, b: bv64, p: bool, q: bool ensures AndBits(Push(a, p), Push(b, q)) == Push(AndBits(a, b), p && q) {
      if p && q {
        AndOneOne(a, b);
      } else if p {
        AndOneZero(a, b);
      } else if q {
        AndZeroOne(a, b);
      } else {
        AndZeroZero(a, b);
      }
    }
  }

  lemma AndOneOne(a: bv64, b: bv64)
    ensures AndBits(Push(a, true), Push(b, true)) == Push(AndBits(a, b), true)
  {
  }

  lemma AndOneZero(a: bv64, b: bv64)
    ensures AndBits(Push(a, true), Push(b, false)) == Push(AndBits(a, b), false)
  {
  }

  lemma AndZeroOne(a: bv64, b: bv64)
    ensures AndBits(Push(a, false), Push(b, true)) == Push(AndBits(a, b), false)
  {
  }

  lemma AndZeroZero(a: bv64, b: bv64)
    ensures AndBits(Push(a, false), Push(b, false)) == Push(AndBits(a, b), false)
  {
  }

  lemma AndOf(u: nat, v: nat)
    ensures Word(And(u, v)) == AndBits(Word(u), Word(v))
  {
    Spelled();
    AndPlaces();
    AndWord(Word, Push, AndBits, u, v);
  }

  lemma OrPlaces()
    ensures Ors(Push, OrBits)
  {
    forall a: bv64, b: bv64, p: bool, q: bool ensures OrBits(Push(a, p), Push(b, q)) == Push(OrBits(a, b), p || q) {
      if p && q {
        OrOneOne(a, b);
      } else if p {
        OrOneZero(a, b);
      } else if q {
        OrZeroOne(a, b);
      } else {
        OrZeroZero(a, b);
      }
    }
  }

  lemma OrOneOne(a: bv64, b: bv64)
    ensures OrBits(Push(a, true), Push(b, true)) == Push(OrBits(a, b), true)
  {
  }

  lemma OrOneZero(a: bv64, b: bv64)
    ensures OrBits(Push(a, true), Push(b, false)) == Push(OrBits(a, b), true)
  {
  }

  lemma OrZeroOne(a: bv64, b: bv64)
    ensures OrBits(Push(a, false), Push(b, true)) == Push(OrBits(a, b), true)
  {
  }

  lemma OrZeroZero(a: bv64, b: bv64)
    ensures OrBits(Push(a, false), Push(b, false)) == Push(OrBits(a, b), false)
  {
  }

  lemma OrOf(u: nat, v: nat)
    ensures Word(Or(u, v)) == OrBits(Word(u), Word(v))
  {
    Spelled();
    OrPlaces();
    OrWord(Word, Push, OrBits, u, v);
  }

  function NotBits(a: bv64): bv64 { !a }

  lemma Cleared(a: bv64, b: bv64)
    ensures AndBits(a, NotBits(b)) == XorBits(a, AndBits(a, b))
  {
    assert NotBits(b) == !b && AndBits(a, b) == a & b;
    ClearedRaw(a, b);
    assert AndBits(a, NotBits(b)) == a & !b && XorBits(a, AndBits(a, b)) == a ^ (a & b);
  }

  lemma ClearedRaw(a: bv64, b: bv64)
    ensures a & !b == a ^ (a & b)
  {
  }

  // ----- shifts -----

  lemma ShlOf(v: nat, s: nat)
    ensures Word(Shl(v, s)) == Pushed(Push, Word(v), s)
  {
    Spelled();
    ShlWord(Word, Push, s, v);
  }

  lemma ShrOf(v: nat, s: nat)
    requires v < LIMIT
    ensures Word(Shr(v, s)) == Halved(Half, Word(v), s)
  {
    forall u: nat | u < LIMIT ensures Half(Word(u)) == Word(u / 2) {
      HalfOf(u);
    }
    ShrWord(Word, Half, LIMIT, s, v);
  }

  function ShiftUp(x: bv64, n: bv64): bv64 { if n < 64 then x << n else 0 }
  function ShiftDown(x: bv64, n: bv64): bv64 { if n < 64 then x >> n else 0 }

  /** The word of 2^e for the six places of a shift amount. */
  function Place(e: nat): bv64 {
    if e == 0 then 1 else if e == 1 then 2 else if e == 2 then 4 else if e == 3 then 8 else if e == 4 then 16 else 32
  }

  lemma UpDoubles()
    ensures WordAlgebra.Doubles(Place, ShiftUp)
  {
    forall x: bv64, e: nat {:trigger DoubleAt(Place, ShiftUp, x, e)} | 0 < e < 6
      ensures DoubleAt(Place, ShiftUp, x, e)
    {
      Twice(x, e);
    }
  }

  lemma DownDoubles()
    ensures WordAlgebra.Doubles(Place, ShiftDown)
  {
    forall x: bv64, e: nat {:trigger DoubleAt(Place, ShiftDown, x, e)} | 0 < e < 6
      ensures DoubleAt(Place, ShiftDown, x, e)
    {
      Twice(x, e);
    }
  }

  lemma OnePlace(h: bv64)
    ensures ShiftUp(h, 1) == Push(h, false) && ShiftDown(h, 1) == Half(h)
  {
  }

  lemma Twice(h: bv64, e: nat)
    requires 0 < e < 6
    ensures ShiftUp(ShiftUp(h, Place(e - 1)), Place(e - 1)) == ShiftUp(h, Place(e))
    ensures ShiftDown(ShiftDown(h, Place(e - 1)), Place(e - 1)) == ShiftDown(h, Place(e))
  {
    if e == 1 {
      Twice1(h);
    } else if e == 2 {
      Twice2(h);
    } else if e == 3 {
      Twice4(h);
    } else if e == 4 {
      Twice8(h);
    } else {
      Twice16(h);
    }
  }

  lemma Twice1(h: bv64)
    ensures ShiftUp(ShiftUp(h, 1), 1) == ShiftUp(h, 2) && ShiftDown(ShiftDown(h, 1), 1) == ShiftDown(h, 2)
  {
  }

  lemma Twice2(h: bv64)
    ensures ShiftUp(ShiftUp(h, 2), 2) == ShiftUp(h, 4) && ShiftDown(ShiftDown(h, 2), 2) == ShiftDown(h, 4)
  {
  }

  lemma Twice4(h: bv64)
    ensures ShiftUp(ShiftUp(h, 4), 4) == ShiftUp(h, 8) && ShiftDown(ShiftDown(h, 4), 4) == ShiftDown(h, 8)
  {
  }

  lemma Twice8(h: bv64)
    ensures ShiftUp(ShiftUp(h, 8), 8) == ShiftUp(h, 16) && ShiftDown(ShiftDown(h, 8), 8) == ShiftDown(h, 16)
  {
  }

  lemma Twice16(h: bv64)
    ensures ShiftUp(ShiftUp(h, 16), 16) == ShiftUp(h, 32) && ShiftDown(ShiftDown(h, 16), 16) == ShiftDown(h, 32)
  {
  }

  predicate Less(a: bv64, b: bv64) { a < b }

  lemma UpParts()
    ensures Parts(Add, Place, Less, ShiftUp)
  {
    forall x: bv64, k: bv64, e: nat | e < 6 && Less(k, Place(e))
      ensures ShiftUp(x, Add(k, Place(e))) == ShiftUp(ShiftUp(x, Place(e)), k)
    {
      if e == 0 {
        ShiftUp1(x, k);
      } else if e == 1 {
        ShiftUp2(x, k);
      } else if e == 2 {
        ShiftUp4(x, k);
      } else if e == 3 {
        ShiftUp8(x, k);
      } else if e == 4 {
        ShiftUp16(x, k);
      } else {
        ShiftUp32(x, k);
      }
    }
  }

  lemma DownParts()
    ensures Parts(Add, Place, Less, ShiftDown)
  {
    forall x: bv64, k: bv64, e: nat | e < 6 && Less(k, Place(e))
      ensures ShiftDown(x, Add(k, Place(e))) == ShiftDown(ShiftDown(x, Place(e)), k)
    {
      if e == 0 {
        ShiftDown1(x, k);
      } else if e == 1 {
        ShiftDown2(x, k);
      } else if e == 2 {
        ShiftDown4(x, k);
      } else if e == 3 {
        ShiftDown8(x, k);
      } else if e == 4 {
        ShiftDown16(x, k);
      } else {
        ShiftDown32(x, k);
      }
    }
  }

  lemma ShiftUp1(x: bv64, k: bv64)
    requires k < 1
    ensures ShiftUp(x, Add(k, 1)) == ShiftUp(ShiftUp(x, 1), k)
  {
    BothUp1(x, k);
    assert Add(k, 1) == k + 1 && ShiftUp(x, 1) == x << 1;
  }

  lemma BothUp1(x: bv64, k: bv64)
    requires k < 1
    ensures ShiftUp(x, k + 1) == ShiftUp(x << 1, k)
  {
    RawUp1(x, k);
  }

  lemma RawUp1(x: bv64, k: bv64)
    requires k < 1
    ensures k + 1 < 64 && x << (k + 1) == (x << 1) << k
  {
  }

  lemma ShiftUp2(x: bv64, k: bv64)
    requires k < 2
    ensures ShiftUp(x, Add(k, 2)) == ShiftUp(ShiftUp(x, 2), k)
  {
    BothUp2(x, k);
    assert Add(k, 2) == k + 2 && ShiftUp(x, 2) == x << 2;
  }

  lemma BothUp2(x: bv64, k: bv64)
    requires k < 2
    ensures ShiftUp(x, k + 2) == ShiftUp(x << 2, k)
  {
    RawUp2(x, k);
  }

  lemma RawUp2(x: bv64, k: bv64)
    requires k < 2
    ensures k + 2 < 64 && x << (k + 2) == (x << 2) << k
  {
  }

  lemma ShiftUp4(x: bv64, k: bv64)
    requires k < 4
    ensures ShiftUp(x, Add(k, 4)) == ShiftUp(ShiftUp(x, 4), k)
  {
    BothUp4(x, k);
    assert Add(k, 4) == k + 4 && ShiftUp(x, 4) == x << 4;
  }

  lemma BothUp4(x: bv64, k: bv64)
    requires k < 4
    ensures ShiftUp(x, k + 4) == ShiftUp(x << 4, k)
  {
    RawUp4(x, k);
  }

  lemma RawUp4(x: bv64, k: bv64)
    requires k < 4
    ensures k + 4 < 64 && x << (k + 4) == (x << 4) << k
  {
  }

  lemma ShiftUp8(x: bv64, k: bv64)
    requires k < 8
    ensures ShiftUp(x, Add(k, 8)) == ShiftUp(ShiftUp(x, 8), k)
  {
    BothUp8(x, k);
    assert Add(k, 8) == k + 8 && ShiftUp(x, 8) == x << 8;
  }

  lemma BothUp8(x: bv64, k: bv64)
    requires k < 8
    ensures ShiftUp(x, k + 8) == ShiftUp(x << 8, k)
  {
    RawUp8(x, k);
  }

  lemma RawUp8(x: bv64, k: bv64)
    requires k < 8
    ensures k + 8 < 64 && x << (k + 8) == (x << 8) << k
  {
  }

  lemma ShiftUp16(x: bv64, k: bv64)
    requires k < 16
    ensures ShiftUp(x, Add(k, 16)) == ShiftUp(ShiftUp(x, 16), k)
  {
    BothUp16(x, k);
    assert Add(k, 16) == k + 16 && ShiftUp(x, 16) == x << 16;
  }

  lemma BothUp16(x: bv64, k: bv64)
    requires k < 16
    ensures ShiftUp(x, k + 16) == ShiftUp(x << 16, k)
  {
    RawUp16(x, k);
  }

  lemma RawUp16(x: bv64, k: bv64)
    requires k < 16
    ensures k + 16 < 64 && x << (k + 16) == (x << 16) << k
  {
  }

  lemma ShiftUp32(x: bv64, k: bv64)
    requires k < 32
    ensures ShiftUp(x, Add(k, 32)) == ShiftUp(ShiftUp(x, 32), k)
  {
    BothUp32(x, k);
    assert Add(k, 32) == k + 32 && ShiftUp(x, 32) == x << 32;
  }

  lemma BothUp32(x: bv64, k: bv64)
    requires k < 32
    ensures ShiftUp(x, k + 32) == ShiftUp(x << 32, k)
  {
    RawUp32(x, k);
  }

  lemma RawUp32(x: bv64, k: bv64)
    requires k < 32
    ensures k + 32 < 64 && x << (k + 32) == (x << 32) << k
  {
  }

  lemma ShiftDown1(x: bv64, k: bv64)
    requires k < 1
    ensures ShiftDown(x, Add(k, 1)) == ShiftDown(ShiftDown(x, 1), k)
  {
    BothDown1(x, k);
    assert Add(k, 1) == k + 1 && ShiftDown(x, 1) == x >> 1;
  }

  lemma BothDown1(x: bv64, k: bv64)
    requires k < 1
    ensures ShiftDown(x, k + 1) == ShiftDown(x >> 1, k)
  {
    RawDown1(x, k);
  }

  lemma RawDown1(x: bv64, k: bv64)
    requires k < 1
    ensures k + 1 < 64 && x >> (k + 1) == (x >> 1) >> k
  {
  }

  lemma ShiftDown2(x: bv64, k: bv64)
    requires k < 2
    ensures ShiftDown(x, Add(k, 2)) == ShiftDown(ShiftDown(x, 2), k)
  {
    BothDown2(x, k);
    assert Add(k, 2) == k + 2 && ShiftDown(x, 2) == x >> 2;
  }

  lemma BothDown2(x: bv64, k: bv64)
    requires k < 2
    ensures ShiftDown(x, k + 2) == ShiftDown(x >> 2, k)
  {
    RawDown2(x, k);
  }

  lemma RawDown2(x: bv64, k: bv64)
    requires k < 2
    ensures k + 2 < 64 && x >> (k + 2) == (x >> 2) >> k
  {
  }

  lemma ShiftDown4(x: bv64, k: bv64)
    requires k < 4
    ensures ShiftDown(x, Add(k, 4)) == ShiftDown(ShiftDown(x, 4), k)
  {
    BothDown4(x, k);
    assert Add(k, 4) == k + 4 && ShiftDown(x, 4) == x >> 4;
  }

  lemma BothDown4(x: bv64, k: bv64)
    requires k < 4
    ensures ShiftDown(x, k + 4) == ShiftDown(x >> 4, k)
  {
    RawDown4(x, k);
  }

  lemma RawDown4(x: bv64, k: bv64)
    requires k < 4
    ensures k + 4 < 64 && x >> (k + 4) == (x >> 4) >> k
  {
  }

  lemma ShiftDown8(x: bv64, k: bv64)
    requires k < 8
    ensures ShiftDown(x, Add(k, 8)) == ShiftDown(ShiftDown(x, 8), k)
  {
    BothDown8(x, k);
    assert Add(k, 8) == k + 8 && ShiftDown(x, 8) == x >> 8;
  }

  lemma BothDown8(x: bv64, k: bv64)
    requires k < 8
    ensures ShiftDown(x, k + 8) == ShiftDown(x >> 8, k)
  {
    RawDown8(x, k);
  }

  lemma RawDown8(x: bv64, k: bv64)
    requires k < 8
    ensures k + 8 < 64 && x >> (k + 8) == (x >> 8) >> k
  {
  }

  lemma ShiftDown16(x: bv64, k: bv64)
    requires k < 16
    ensures ShiftDown(x, Add(k, 16)) == ShiftDown(ShiftDown(x, 16), k)
  {
    BothDown16(x, k);
    assert Add(k, 16) == k + 16 && ShiftDown(x, 16) == x >> 16;
  }

  lemma BothDown16(x: bv64, k: bv64)
    requires k < 16
    ensures ShiftDown(x, k + 16) == ShiftDown(x >> 16, k)
  {
    RawDown16(x, k);
  }

  lemma RawDown16(x: bv64, k: bv64)
    requires k < 16
    ensures k + 16 < 64 && x >> (k + 16) == (x >> 16) >> k
  {
  }

  lemma ShiftDown32(x: bv64, k: bv64)
    requires k < 32
    ensures ShiftDown(x, Add(k, 32)) == ShiftDown(ShiftDown(x, 32), k)
  {
    BothDown32(x, k);
    assert Add(k, 32) == k + 32 && ShiftDown(x, 32) == x >> 32;
  }

  lemma BothDown32(x: bv64, k: bv64)
    requires k < 32
    ensures ShiftDown(x, k + 32) == ShiftDown(x >> 32, k)
  {
    RawDown32(x, k);
  }

  lemma RawDown32(x: bv64, k: bv64)
    requires k < 32
    ensures k + 32 < 64 && x >> (k + 32) == (x >> 32) >> k
  {
  }

  lemma {:induction false} PlaceIs(e: nat)
    requires e < 6
    ensures Word(Pow2(e)) == Place(e)
  {
    if e == 0 {
      FirstPlace();
    } else {
      PlaceIs(e - 1);
      WordDouble(Pow2(e - 1));
      DoublePlace(e);
    }
  }

  lemma FirstPlace()
    ensures Word(1) == 1
  {
    assert Word(1) == Push(Word(0), true);
  }

  lemma WordDouble(v: nat)
    requires v > 0
    ensures Word(2 * v) == Push(Word(v), false)
  {
    assert (2 * v) / 2 == v && (2 * v) % 2 == 0;
  }

  lemma DoublePlace(e: nat)
    requires 0 < e < 6
    ensures Push(Place(e - 1), false) == Place(e)
  {
  }

  lemma BelowPlace(j: nat, e: nat)
    requires e < 6 && j < Pow2(e)
    ensures Word(j) < Place(e)
  {
    var m := Place(e) - 1;
    assert AllOnes(Half, Odd, Word(0), m, e) && m < Place(e);
    Spelled();
    Room();
    FitWord(Word, Push, Half, Odd, AtMost, j, m, e);
  }

  lemma AmountsHold()
    ensures Amounts(Word, Add, Place, Less)
  {
    forall j: nat, s: nat ensures Word(j + s) == Add(Word(j), Word(s)) {
      SumOf(j, s);
    }
    forall e: nat | e < 6 ensures Word(Pow2(e)) == Place(e) {
      PlaceIs(e);
    }
    forall j: nat, e: nat | e < 6 && j < Pow2(e) ensures Less(Word(j), Place(e)) {
      BelowPlace(j, e);
    }
    AmountsAre(Word, Add, Place, Less);
  }

  /** A shift by a variable amount. */
  lemma ShlBy(v: nat, i: nat)
    requires i < 64
    ensures Word(Shl(v, i)) == ShiftUp(Word(v), Word(i))
  {
    AmountsHold();
    UpParts();
    forall x: bv64 ensures ShiftUp(x, Word(0)) == x {
      NoShift(x);
    }
    UpDoubles();
    forall x: bv64 ensures ShiftUp(x, Place(0)) == Push(x, false) {
      OnePlace(x);
    }
    PushedBy(Word, Push, Add, Place, Less, ShiftUp, Word(v), i, 6);
    ShlOf(v, i);
  }

  lemma NoShift(x: bv64)
    ensures ShiftUp(x, 0) == x && ShiftDown(x, 0) == x
  {
  }

  lemma ShrBy(v: nat, i: nat)
    requires v < LIMIT && i < 64
    ensures Word(Shr(v, i)) == ShiftDown(Word(v), Word(i))
  {
    AmountsHold();
    DownParts();
    forall x: bv64 ensures ShiftDown(x, Word(0)) == x {
      NoShift(x);
    }
    DownDoubles();
    forall x: bv64 ensures ShiftDown(x, Place(0)) == Half(x) {
      OnePlace(x);
    }
    HalvedBy(Word, Half, Add, Place, Less, ShiftDown, Word(v), i, 6);
    ShrOf(v, i);
  }
}
