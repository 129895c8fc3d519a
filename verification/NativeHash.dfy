/** The scrambler as the source writes it, on machine words.  An assignment to a 16- or 32-bit
    variable cuts the value to its width. */
module NativeHash {
  import opened Bits
  import opened Words
  import opened Hash

  // ----- the assignments -----

  /** `(a + k) + (a << s)` */
  function AddStep(a: bv64, k: bv64, s: bv64, mask: bv64): bv64 { AndBits(Add(Add(a, k), ShiftUp(a, s)), mask) }

  /** `(a ^ k) ^ (a >> s)` */
  function DownStep(a: bv64, k: bv64, s: bv64): bv64 { XorBits(XorBits(a, k), ShiftDown(a, s)) }

  /** `(a + k) ^ (a << s)` */
  function UpStep(a: bv64, k: bv64, s: bv64, mask: bv64): bv64 { AndBits(XorBits(Add(a, k), ShiftUp(a, s)), mask) }

  function Hash16(a: bv64): bv64 {
    var a1 := AddStep(a, 0x5d16, 6, 0xFFFF);
    var a2 := DownStep(a1, 0xc23c, 9);
    var a3 := AddStep(a2, 0x67b1, 5, 0xFFFF);
    var a4 := UpStep(a3, 0x646c, 7, 0xFFFF);
    var a5 := AddStep(a4, 0x46c5, 3, 0xFFFF);
    DownStep(a5, 0x4f09, 8)
  }

  function Hash32(a: bv64): bv64 {
    var a1 := AddStep(a, 0x7ed55d16, 12, 0xFFFF_FFFF);
    var a2 := DownStep(a1, 0xc761c23c, 19);
    var a3 := AddStep(a2, 0x165667b1, 5, 0xFFFF_FFFF);
    var a4 := UpStep(a3, 0xd3a2646c, 9, 0xFFFF_FFFF);
    var a5 := AddStep(a4, 0xfd7046c5, 3, 0xFFFF_FFFF);
    DownStep(a5, 0xb55a4f09, 16)
  }

  // ----- the steps are those of the specification -----

  lemma Cut(v: nat, w: nat)
    ensures Word(Low(v, w)) == AndBits(Word(v), Word(Pow2(w) - 1))
  {
    MaskIsLow(v, w);
    AndOf(v, Pow2(w) - 1);
  }

  lemma AddStepIs(w: nat, k: nat, s: nat, a: nat)
    requires s < 64
    ensures Word(AddShl(w, k, s, a)) == AddStep(Word(a), Word(k), Word(s), Word(Pow2(w) - 1))
  {
    Cut(a + k + Shl(a, s), w);
    SumOf(a + k, Shl(a, s));
    SumOf(a, k);
    ShlBy(a, s);
  }

  lemma DownStepIs(k: nat, s: nat, a: nat)
    requires s < 64 && a < LIMIT
    ensures Word(XorDown(k, s, a)) == DownStep(Word(a), Word(k), Word(s))
  {
    XorOf(Xor(a, k), Shr(a, s));
    XorOf(a, k);
    ShrBy(a, s);
  }

  lemma UpStepIs(w: nat, k: nat, s: nat, a: nat)
    requires s < 64
    ensures Word(XorUp(w, k, s, a)) == UpStep(Word(a), Word(k), Word(s), Word(Pow2(w) - 1))
  {
    Cut(Xor(a + k, Shl(a, s)), w);
    XorOf(a + k, Shl(a, s));
    SumOf(a, k);
    ShlBy(a, s);
  }

  /** The six steps of a mixer on words. */
  lemma FirstSteps(m: Mixer, a: nat) returns (a1: nat, a2: nat)
    requires Proper(m) && m.w <= 64 && m.s1 < 64 && m.s2 < 64 && m.s3 < 64
    ensures Word(a1) == AddStep(Word(a), Word(m.k1), Word(m.s1), Word(Pow2(m.w) - 1))
    ensures Word(a2) == DownStep(Word(a1), Word(m.k2), Word(m.s2))
    ensures Word(MixA(m, a)) == AddStep(Word(a2), Word(m.k3), Word(m.s3), Word(Pow2(m.w) - 1))
  {
    a1 := AddShl(m.w, m.k1, m.s1, a);
    a2 := XorDown(m.k2, m.s2, a1);
    InWord(m, m.k1, m.s1, a);
    AddStepIs(m.w, m.k1, m.s1, a);
    DownStepIs(m.k2, m.s2, a1);
    AddStepIs(m.w, m.k3, m.s3, a2);
  }

  lemma LastSteps(m: Mixer, a3: nat) returns (a4: nat, a5: nat)
    requires Proper(m) && m.w <= 64 && m.s4 < 64 && m.s5 < 64 && m.s6 < 64
    ensures Word(a4) == UpStep(Word(a3), Word(m.k4), Word(m.s4), Word(Pow2(m.w) - 1))
    ensures Word(a5) == AddStep(Word(a4), Word(m.k5), Word(m.s5), Word(Pow2(m.w) - 1))
    ensures Word(MixB(m, a3)) == DownStep(Word(a5), Word(m.k6), Word(m.s6))
  {
    a4 := XorUp(m.w, m.k4, m.s4, a3);
    a5 := AddShl(m.w, m.k5, m.s5, a4);
    UpStepIs(m.w, m.k4, m.s4, a3);
    AddStepIs(m.w, m.k5, m.s5, a4);
    InWord(m, m.k5, m.s5, a4);
    DownStepIs(m.k6, m.s6, a5);
  }

  lemma InWord(m: Mixer, k: nat, s: nat, a: nat)
    requires m.w <= 64
    ensures AddShl(m.w, k, s, a) < LIMIT
  {
    AddShlBound(m.w, k, s, a);
    PowGrows(m.w, 64);
    Pow2Of64();
  }

  lemma Constant(v: nat, x: bv64)
    requires x as nat == v
    ensures Word(v) == x
  {
    WordOf(x);
  }

  /** `hash16` computes the mixer of the specification, and so does `hash32`. */
  lemma Hash16Is(m: Mixer, a: nat)
    requires m == MIX16
    ensures Word(Mix(m, a)) == Hash16(Word(a))
  {
    MixersAreProper();
    Constants16(m);
    var a1, a2 := FirstSteps(m, a);
    var a4, a5 := LastSteps(m, MixA(m, a));
  }

  lemma Hash32Is(m: Mixer, a: nat)
    requires m == MIX32
    ensures Word(Mix(m, a)) == Hash32(Word(a))
  {
    MixersAreProper();
    Constants32(m);
    var a1, a2 := FirstSteps(m, a);
    var a4, a5 := LastSteps(m, MixA(m, a));
  }

  lemma Constants16(m: Mixer)
    requires m == MIX16
    ensures Word(m.k1) == 0x5d16 && Word(m.k2) == 0xc23c && Word(m.k3) == 0x67b1 && Word(m.k4) == 0x646c
    ensures Word(m.k5) == 0x46c5 && Word(m.k6) == 0x4f09 && Word(Pow2(m.w) - 1) == 0xFFFF
    ensures Word(m.s1) == 6 && Word(m.s2) == 9 && Word(m.s3) == 5 && Word(m.s4) == 7 && Word(m.s5) == 3
    ensures Word(m.s6) == 8
  {
    Pow2Of16();
    Constant(m.k1, 0x5d16);
    Constant(m.k2, 0xc23c);
    Constant(m.k3, 0x67b1);
    Constant(m.k4, 0x646c);
    Constant(m.k5, 0x46c5);
    Constant(m.k6, 0x4f09);
    Constant(Pow2(m.w) - 1, 0xFFFF);
    Constant(m.s1, 6);
    Constant(m.s2, 9);
    Constant(m.s3, 5);
    Constant(m.s4, 7);
    Constant(m.s5, 3);
    Constant(m.s6, 8);
  }

  lemma Constants32(m: Mixer)
    requires m == MIX32
    ensures Word(m.k1) == 0x7ed55d16 && Word(m.k2) == 0xc761c23c && Word(m.k3) == 0x165667b1
    ensures Word(m.k4) == 0xd3a2646c && Word(m.k5) == 0xfd7046c5 && Word(m.k6) == 0xb55a4f09
    ensures Word(m.s1) == 12 && Word(m.s2) == 19 && Word(m.s3) == 5 && Word(m.s4) == 9 && Word(m.s5) == 3
    ensures Word(m.s6) == 16 && Word(Pow2(m.w) - 1) == 0xFFFF_FFFF
  {
    Pow2Of32();
    Constant(m.k1, 0x7ed55d16);
    Constant(m.k2, 0xc761c23c);
    Constant(m.k3, 0x165667b1);
    Constant(m.k4, 0xd3a2646c);
    Constant(m.k5, 0xfd7046c5);
    Constant(m.k6, 0xb55a4f09);
    Constant(Pow2(m.w) - 1, 0xFFFF_FFFF);
    Constant(m.s1, 12);
    Constant(m.s2, 19);
    Constant(m.s3, 5);
    Constant(m.s4, 9);
    Constant(m.s5, 3);
    Constant(m.s6, 16);
  }

  // ----- one window -----

  function Mask(wide: bool): bv64 { if wide then 0xFFFF_FFFF else 0xFFFF }
  function HashOf(wide: bool, a: bv64): bv64 { if wide then Hash32(a) else Hash16(a) }
  function MixerOf(wide: bool): Mixer { if wide then MIX32 else MIX16 }

  /** `shifted_n_hash32` and `shifted_n_hash16`: take the field out, hash it, clear it, put the
      hash in its place. */
  function Window(wide: bool, input: bv64, n: bv64): bv64 {
    var toHash := HashOf(wide, AndBits(ShiftDown(input, n), Mask(wide)));
    OrBits(AndBits(input, NotBits(ShiftUp(Mask(wide), n))), ShiftUp(toHash, n))
  }

  lemma HashOfIs(wide: bool, m: Mixer, a: nat)
    requires m == MixerOf(wide)
    ensures Word(Mix(m, a)) == HashOf(wide, Word(a)) && Word(Pow2(m.w) - 1) == Mask(wide) && Proper(m)
  {
    MixersAreProper();
    if wide {
      Hash32Is(m, a);
      Constants32(m);
    } else {
      Hash16Is(m, a);
      Constants16(m);
    }
  }

  lemma WindowIs(wide: bool, m: Mixer, x: nat, i: nat)
    requires m == MixerOf(wide) && x < LIMIT && i < 64
    ensures Word(Shifted(m, x, i)) == Window(wide, Word(x), Word(i))
  {
    var ones := Pow2(m.w) - 1;
    var field := And(Shr(x, i), ones);
    HashOfIs(wide, m, field);
    MaskIsLow(Shr(x, i), m.w);
    MixBound(m, field);
    ShiftedIsMasked(m, x, i, Mix(m, field));
    AndOf(Shr(x, i), ones);
    ShrBy(x, i);
    Masked(x, ones, i, Mix(m, field));
  }

  lemma Masked(x: nat, ones: nat, i: nat, h: nat)
    requires i < 64
    ensures Word(Or(Xor(x, And(x, Shl(ones, i))), Shl(h, i)))
         == OrBits(AndBits(Word(x), NotBits(ShiftUp(Word(ones), Word(i)))), ShiftUp(Word(h), Word(i)))
  {
    OrOf(Xor(x, And(x, Shl(ones, i))), Shl(h, i));
    XorOf(x, And(x, Shl(ones, i)));
    AndOf(x, Shl(ones, i));
    ShlBy(ones, i);
    ShlBy(h, i);
    Cleared(Word(x), ShiftUp(Word(ones), Word(i)));
  }

  // ----- the two sweeps -----

  /** One turn of the loop that goes up, and one of the loop that comes down. */
  lemma UpTurn(wide: bool, m: Mixer, x: nat, i: nat)
    requires m == MixerOf(wide) && x < LIMIT && i + m.w <= 64
    ensures Word(Up(m, x, i + 1)) == Window(wide, Word(Up(m, x, i)), i as bv64)
  {
    MixersAreProper();
    Pow2Of64();
    UpBound(m, x, i, 64);
    WindowIs(wide, m, Up(m, x, i), i);
    WordIs(i);
  }

  lemma DownTurn(wide: bool, m: Mixer, x: nat, i: nat)
    requires m == MixerOf(wide) && x < LIMIT && i + m.w <= 64
    ensures Word(Shifted(m, x, i)) == Window(wide, Word(x), i as bv64) && Shifted(m, x, i) < LIMIT
    ensures Hash.Down(m, x, i + 1) == Hash.Down(m, Shifted(m, x, i), i)
  {
    MixersAreProper();
    Pow2Of64();
    ShiftedBound(m, x, i, 64);
    WindowIs(wide, m, x, i);
    WordIs(i);
  }

  method SweepUp(wide: bool, input: bv64, last: nat, ghost m: Mixer, ghost x: nat) returns (r: bv64)
    requires m == MixerOf(wide) && last + m.w <= 64 && x < LIMIT && input == Word(x)
    ensures r == Word(Up(m, x, last + 1))
  {
    r := input;
    for i := 0 to last + 1
      invariant r == Word(Up(m, x, i))
    {
      UpTurn(wide, m, x, i);
      r := Window(wide, r, i as bv64);
    }
  }

  method SweepDown(wide: bool, input: bv64, last: nat, ghost m: Mixer, ghost x: nat) returns (r: bv64)
    requires m == MixerOf(wide) && last + m.w <= 64 && x < LIMIT && input == Word(x)
    ensures r == Word(Hash.Down(m, x, last + 1))
  {
    r := input;
    ghost var y: nat := x;
    for i := last + 1 downto 0
      invariant r == Word(y) && y < LIMIT && Hash.Down(m, y, i) == Hash.Down(m, x, last + 1)
    {
      DownTurn(wide, m, y, i);
      y := Shifted(m, y, i);
      r := Window(wide, r, i as bv64);
    }
  }

  /** `hash_nbits`: the value returned is the scrambled value of the input. */
  method HashNBits(input: bv64, n: nat) returns (r: bv64)
    requires 16 < n <= 64
    ensures r as nat == Scrambled(input as nat, n)
  {
    ghost var x := input as nat;
    WordOf(input);
    if n == 32 {
      r := Hash32(AndBits(input, 0xFFFF_FFFF));
      WholeIs(MIX32, x, n);
    } else if n > 32 {
      r := Sweeps(true, input, n - 32, MIX32, x, n);
    } else {
      r := Sweeps(false, input, n - 16, MIX16, x, n);
    }
    ReadBack(r, x, n);
  }

  /** Up over the windows and down again. */
  method Sweeps(wide: bool, input: bv64, last: nat, ghost m: Mixer, ghost x: nat, ghost n: nat) returns (r: bv64)
    requires m == MixerOf(wide) && 0 < last && n == last + m.w <= 64 && m == MixerFor(n) && n != 32
    requires x < LIMIT && input == Word(x)
    ensures r == Word(Scrambled(x, n))
  {
    SweepsAre(m, x, n, last + 1);
    UpFits(m, x, last + 1);
    r := SweepUp(wide, input, last, m, x);
    r := SweepDown(wide, r, last, m, Up(m, x, last + 1));
  }

  lemma ReadBack(r: bv64, x: nat, n: nat)
    requires 16 < n <= 64 && x < LIMIT && r == Word(Scrambled(x, n))
    ensures r as nat == Scrambled(x, n)
  {
    ScrambledFits(x, n);
    ValueOf(Scrambled(x, n));
  }

  lemma WholeIs(m: Mixer, x: nat, n: nat)
    requires m == MIX32 && n == m.w
    ensures Word(Scrambled(x, n)) == Hash32(AndBits(Word(x), 0xFFFF_FFFF))
  {
    Hash32Is(m, Low(x, n));
    Cut(x, n);
    Constants32(m);
  }

  lemma UpFits(m: Mixer, x: nat, k: nat)
    requires (m == MIX16 || m == MIX32) && x < LIMIT && k + m.w <= 65
    ensures Up(m, x, k) < LIMIT
  {
    MixersAreProper();
    Pow2Of64();
    UpBound(m, x, k, 64);
  }

  lemma SweepsAre(m: Mixer, x: nat, n: nat, k: nat)
    requires 16 < n <= 64 && n != 32 && m == MixerFor(n) && k == n - m.w + 1
    ensures Scrambled(x, n) == Hash.Down(m, Up(m, x, k), k)
  {
  }

  lemma ScrambledFits(x: nat, n: nat)
    requires 16 < n <= 64 && x < LIMIT
    ensures Scrambled(x, n) < LIMIT
  {
    MixersAreProper();
    Pow2Of64();
    var m := MixerFor(n);
    if n == m.w {
      MixBound(m, Low(x, n));
      PowGrows(m.w, 64);
    } else {
      UpFits(m, x, n - m.w + 1);
      DownBound(m, Up(m, x, n - m.w + 1), n - m.w + 1, 64);
    }
  }
}
