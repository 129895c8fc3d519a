/** What the scrambler makes of some ids, in 17, 32 and 33 bits. */
module HashValues {
  import opened Words
  import opened Bits
  import opened Hash
  import opened NativeHash

  /** One window, computed on words. */
  lemma Turn(wide: bool, m: Mixer, x: nat, w: bv64, i: nat, n: bv64, r: bv64, y: nat)
    requires m == MixerOf(wide) && x < LIMIT && i + m.w <= 64
    requires w as nat == x && n as nat == i && Window(wide, w, n) == r && r as nat == y
    ensures Shifted(m, x, i) == y
  {
    MixersAreProper();
    Pow2Of64();
    ShiftedBound(m, x, i, 64);
    WordOf(w);
    WordOf(n);
    WindowIs(wide, m, x, i);
    ValueOf(Shifted(m, x, i));
  }

  /** Up over windows 0 and 1, down over 1 and 0. */
  lemma TwoWindows(m: Mixer, x: nat, n: nat, i: nat, j: nat, a: nat, b: nat, c: nat, d: nat)
    requires m == MixerFor(n) && 16 < n <= 64 && n == m.w + 1 && n != 32 && i == 0 && j == 1
    requires Shifted(m, x, i) == a && Shifted(m, a, j) == b && Shifted(m, b, j) == c && Shifted(m, c, i) == d
    ensures Scrambled(x, n) == d
  {
    SweepsAre(m, x, n, j + 1);
    assert Up(m, x, i) == x && Up(m, x, i + 1) == a && Up(m, x, j + 1) == b;
    assert Down(m, d, i) == d && Down(m, c, i + 1) == d && Down(m, b, j + 1) == d;
  }

  lemma Turn17A(i: nat)
    requires i == 0
    ensures Shifted(MIX16, 1, i) == 0x9203
  {
    Turn(false, MIX16, 1, 1, i, 0, 0x9203, 0x9203);
  }

  lemma Turn17B(i: nat)
    requires i == 1
    ensures Shifted(MIX16, 0x9203, i) == 0xa66f
  {
    Turn(false, MIX16, 0x9203, 0x9203, i, 1, 0xa66f, 0xa66f);
  }

  lemma Turn17C(i: nat)
    requires i == 1
    ensures Shifted(MIX16, 0xa66f, i) == 0x1fe63
  {
    Turn(false, MIX16, 0xa66f, 0xa66f, i, 1, 0x1fe63, 0x1fe63);
  }

  lemma Turn17D(i: nat)
    requires i == 0
    ensures Shifted(MIX16, 0x1fe63, i) == 0x1badd
  {
    Turn(false, MIX16, 0x1fe63, 0x1fe63, i, 0, 0x1badd, 0x1badd);
  }

  lemma ValueAt17(x: nat, n: nat, i: nat, j: nat)
    requires x == 1 && n == 17 && i == 0 && j == 1
    ensures Scrambled(x, n) == 113373
  {
    Turn17A(i);
    Turn17B(j);
    Turn17C(j);
    Turn17D(i);
    TwoWindows(MIX16, x, n, i, j, 0x9203, 0xa66f, 0x1fe63, 0x1badd);
  }

  lemma Turn33A(i: nat)
    requires i == 0
    ensures Shifted(MIX32, 1, i) == 0xb48681b6
  {
    Turn(true, MIX32, 1, 1, i, 0, 0xb48681b6, 0xb48681b6);
  }

  lemma Turn33B(i: nat)
    requires i == 1
    ensures Shifted(MIX32, 0xb48681b6, i) == 0x813b1aaa
  {
    Turn(true, MIX32, 0xb48681b6, 0xb48681b6, i, 1, 0x813b1aaa, 0x813b1aaa);
  }

  lemma Turn33C(i: nat)
    requires i == 1
    ensures Shifted(MIX32, 0x813b1aaa, i) == 0x9c42b354
  {
    Turn(true, MIX32, 0x813b1aaa, 0x813b1aaa, i, 1, 0x9c42b354, 0x9c42b354);
  }

  lemma Turn33D(i: nat)
    requires i == 0
    ensures Shifted(MIX32, 0x9c42b354, i) == 0x2f712363
  {
    Turn(true, MIX32, 0x9c42b354, 0x9c42b354, i, 0, 0x2f712363, 0x2f712363);
  }

  lemma ValueAt33(x: nat, n: nat, i: nat, j: nat)
    requires x == 1 && n == 33 && i == 0 && j == 1
    ensures Scrambled(x, n) == 795943779
  {
    Turn33A(i);
    Turn33B(j);
    Turn33C(j);
    Turn33D(i);
    TwoWindows(MIX32, x, n, i, j, 0xb48681b6, 0x813b1aaa, 0x9c42b354, 0x2f712363);
  }

  lemma ValueAt32(x: nat, n: nat)
    requires x == 1 && n == 32
    ensures Scrambled(x, n) == 3028713910
  {
    WordOf(1);
    WholeIs(MIX32, x, n);
    Whole();
    ScrambledFits(x, n);
    ValueOf(Scrambled(x, n));
  }

  lemma Whole()
    ensures Hash32(AndBits(1, 0xFFFF_FFFF)) == 0xb48681b6
  {
  }

  /** The same as one statement. */
  lemma Values(x: nat, n: nat)
    requires 16 < n <= 64
    ensures x == 1 && n == 17 ==> Scrambled(x, n) == 113373
    ensures x == 1 && n == 32 ==> Scrambled(x, n) == 3028713910
    ensures x == 1 && n == 33 ==> Scrambled(x, n) == 795943779
  {
    if x == 1 && n == 17 {
      ValueAt17(x, n, 0, 1);
    } else if x == 1 && n == 32 {
      ValueAt32(x, n);
    } else if x == 1 && n == 33 {
      ValueAt33(x, n, 0, 1);
    }
  }
}
