/** The sizes of the sparse store as the source computes them, in double precision: `a * 1.0 / b`
    converts both numbers to the nearest double, divides, rounds, and `ceil` follows. */
module DoubleSizes {
  import opened DivMod
  import opened Bits
  import opened StoreLayout

  const EXACT: nat := 0x20_0000_0000_0000
  const WORD: nat := 0x1_0000_0000_0000_0000

  // ----- converting an integer -----

  /** The distance between neighbouring doubles at `n`: doubles have 53 significant bits. */
  function Ulp(n: nat): (u: nat)
    ensures u > 0
  {
    if n < EXACT then 1 else 2 * Ulp(n / 2)
  }

  /** The nearest double, and of two equally near the even one. */
  function ToDouble(n: nat): nat { Nearest(n, Ulp(n)) }

  function Nearest(n: nat, u: nat): nat
    requires u > 0
  {
    var q, r := n / u, n % u;
    if 2 * r < u || (2 * r == u && q % 2 == 0) then q * u else (q + 1) * u
  }

  lemma {:induction false} UlpBound(n: nat)
    ensures n < EXACT * Ulp(n)
  {
    if n >= EXACT {
      UlpBound(n / 2);
    }
  }

  /** The spacing is a power of two, and at most 2^j below 2^(53 + j). */
  lemma {:induction false} UlpDivides(n: nat, j: nat) returns (m: nat)
    requires n < EXACT * Pow2(j)
    ensures Pow2(j) == m * Ulp(n)
  {
    if n < EXACT {
      m := Pow2(j);
    } else {
      m := UlpDivides(n / 2, j - 1);
      Doubled(m, Ulp(n / 2));
    }
  }

  lemma Doubled(m: nat, u: nat)
    ensures m * (2 * u) == 2 * (m * u)
  {
  }

  lemma UlpOfWord(n: nat, b: nat) returns (y: nat)
    requires n < WORD && b % 2048 == 0
    ensures b == y * Ulp(n)
  {
    assert Pow2(11) == 2048;
    var m := UlpDivides(n, 11);
    y := (b / 2048) * m;
    Regroup(b / 2048, m, Ulp(n));
  }

  lemma Regroup(x: nat, m: nat, u: nat)
    ensures x * (m * u) == (x * m) * u
  {
  }

  /** What the conversion gives, with the double as a multiple of the spacing. */
  lemma Converted(n: nat) returns (x: nat)
    ensures ToDouble(n) == x * Ulp(n) && x <= EXACT && n < x * Ulp(n) + Ulp(n) && x * Ulp(n) < n + Ulp(n)
    ensures n % Ulp(n) == 0 ==> ToDouble(n) == n
  {
    UlpBound(n);
    x := NearestIsMultiple(n, Ulp(n));
  }

  lemma NearestIsMultiple(n: nat, u: nat) returns (x: nat)
    requires u > 0 && n < EXACT * u
    ensures Nearest(n, u) == x * u && x <= EXACT && n < x * u + u && x * u < n + u && (n % u == 0 ==> x * u == n)
  {
    var q, r := n / u, n % u;
    Parts(n, u, q, r);
    FewerTimes(q, EXACT, u, n);
    x := if 2 * r < u || (2 * r == u && q % 2 == 0) then q else q + 1;
  }

  lemma Parts(n: nat, u: nat, q: nat, r: nat)
    requires u > 0 && q == n / u && r == n % u
    ensures n == q * u + r && (q + 1) * u == q * u + u && r < u
  {
  }

  lemma FewerTimes(q: nat, e: nat, u: nat, n: nat)
    requires q * u <= n < e * u
    ensures q < e
  {
    if e <= q {
      TimesMonotone(e, q, u);
    }
  }

  lemma TimesMonotone(e: nat, q: nat, u: nat)
    requires e <= q
    ensures e * u <= q * u
  {
    assert q * u == e * u + (q - e) * u;
  }

  // ----- rounding the quotient -----

  /** What correct rounding promises of the double `d` nearest to `q`: the relative error is below
      2^-53, and no integer up to 2^53 lies between them. */
  ghost predicate RoundsTo(q: real, d: real) {
    && (q > 0.0 ==> q - q / EXACT as real < d)
    && forall k: nat :: k <= EXACT ==> SameSide(k, q, d)
  }

  predicate SameSide(k: nat, q: real, d: real) {
    (k as real <= q ==> k as real <= d) && (q <= k as real ==> d <= k as real)
  }

  /** Rounding the quotient of two doubles does not change its ceiling. */
  lemma QuotientIsExact(a: nat, b: nat, x: nat, y: nat, u: nat, d: real)
    requires u > 0 && a == x * u && b == y * u && b > 0 && x <= EXACT && RoundsTo(a as real / b as real, d)
    ensures Ceil(d) == CeilDiv(a, b)
  {
    var n, q := CeilDiv(a, b), a as real / b as real;
    CeilCovers(a, b);
    CeilAtMost(a, b, x, y, u, n);
    CeilSides(a, b);
    assert SameSide(n, q, d);
    if n > 0 {
      AboveFloor(a, b, x, y, u, n, d);
    }
  }

  lemma CeilSides(a: nat, b: nat)
    requires b > 0
    ensures (CeilDiv(a, b) - 1) as real < a as real / b as real <= CeilDiv(a, b) as real
    ensures CeilDiv(a, b) == 0 ==> a as real / b as real == 0.0
  {
    CeilCovers(a, b);
  }

  lemma CeilAtMost(a: nat, b: nat, x: nat, y: nat, u: nat, n: nat)
    requires u > 0 && a == x * u && b == y * u && b > 0 && (n - 1) * b < a
    ensures n <= x
  {
    if n > x {
      TimesMonotone(x, n - 1, b);
      TimesMonotone(1, y, u);
      MulUp(x, u, b);
    }
  }

  lemma MulUp(x: nat, u: nat, b: nat)
    requires u <= b
    ensures x * u <= x * b
  {
  }

  /** The quotient exceeds the integer below it by more than the rounding error. */
  lemma AboveFloor(a: nat, b: nat, x: nat, y: nat, u: nat, n: nat, d: real)
    requires u > 0 && a == x * u && b == y * u && b > 0 && x <= EXACT && n > 0 && (n - 1) * b < a
    requires RoundsTo(a as real / b as real, d)
    ensures (n - 1) as real < d
  {
    var q, m := a as real / b as real, (n - 1) as real;
    Gap(x, y, u, n - 1);
    Divides(a as real, b as real);
    ProductAsReal(n - 1, b);
    ErrorBound(a, x, u);
    Errors(q, m, a as real, b as real, u as real);
  }

  /** Multiples of the spacing differ by at least the spacing. */
  lemma Gap(x: nat, y: nat, u: nat, k: nat)
    requires k * (y * u) < x * u
    ensures k * (y * u) + u <= x * u
  {
    Regroup(k, y, u);
    FewerTimes(k * y, x, u, k * (y * u));
    TimesMonotone(k * y + 1, x, u);
    assert (k * y + 1) * u == k * y * u + u;
  }

  lemma ErrorBound(a: nat, x: nat, u: nat)
    requires a == x * u && x <= EXACT
    ensures a as real / EXACT as real <= u as real
  {
    TimesMonotone(x, EXACT, u);
  }

  lemma Errors(q: real, m: real, a: real, b: real, u: real)
    requires b > 0.0 && q * b == a && m * b + u <= a && a / EXACT as real <= u
    ensures m <= q - q / EXACT as real
  {
    var e := q / EXACT as real;
    assert e * b == a / EXACT as real;
    assert (q - e) * b == a - e * b;
    Unscale(m, q - e, b);
  }

  lemma Unscale(x: real, y: real, b: real)
    requires b > 0.0 && x * b <= y * b
    ensures x <= y
  {
    if y < x {
      Scale(y, x, b);
    }
  }

  // ----- the sizes -----

  lemma CeilUnique(a: nat, b: nat, n: int)
    requires b > 0 && (n - 1) * b < a <= n * b
    ensures n == CeilDiv(a, b)
  {
    var m := CeilDiv(a, b);
    CeilCovers(a, b);
    MulLess(b, m - 1, n);
    MulLess(b, n - 1, m);
  }

  /** A size and a double less than one spacing away need the same number of pieces unless the
      double is below the size and at the end of a piece. */
  lemma SameCeil(size: nat, x: nat, y: nat, u: nat, b: nat)
    requires u > 0 && b == y * u && b > 0 && size < x * u + u && x * u < size + u
    ensures CeilDiv(x * u, b) == CeilDiv(size, b) <==> !(x * u < size && (x * u) % b == 0)
    ensures size <= CeilDiv(x * u, b) * b <==> !(x * u < size && (x * u) % b == 0)
  {
    var a, n := x * u, CeilDiv(x * u, b);
    CeilCovers(a, b);
    EndOfPiece(a, b, n);
    if a < size && a == n * b {
      CeilCovers(size, b);
    } else {
      if a < size {
        Regroup(n, y, u);
        FewerTimes(x, n * y, u, a);
        TimesMonotone(x + 1, n * y, u);
      } else if n > 0 {
        Gap(x, y, u, n - 1);
      }
      CeilUnique(size, b, n);
    }
  }

  lemma EndOfPiece(a: nat, b: nat, n: nat)
    requires b > 0 && (n - 1) * b < a <= n * b
    ensures a % b == 0 <==> a == n * b
  {
    if a == n * b {
      MultipleMod(n, b);
    } else {
      ModUnique(a, b, n - 1, a - (n - 1) * b);
    }
  }

  /** A multiple of 2048 that fits in 64 bits is a double. */
  lemma MultipleIsDouble(b: nat)
    requires b < WORD && b % 2048 == 0
    ensures ToDouble(b) == b
  {
    var x := Converted(b);
    var y := UlpOfWord(b, b);
    IsMultiple(b, y, Ulp(b));
  }

  lemma IsMultiple(b: nat, y: nat, u: nat)
    requires u > 0 && b == y * u
    ensures b % u == 0
  {
    MultipleMod(y, u);
  }

  /** For every 64-bit size and every piece size that is a multiple of 2048, the number of pieces
      computed in double precision is that of the converted size.  It is the right number, and
      covers the size, iff the conversion does not round the size down to the end of a piece. */
  lemma PiecesExact(size: nat, b: nat, d: real)
    requires size < WORD && 0 < b < WORD && b % 2048 == 0
    requires ToDouble(b) > 0 && RoundsTo(ToDouble(size) as real / ToDouble(b) as real, d)
    ensures Ceil(d) == CeilDiv(ToDouble(size), b)
    ensures Ceil(d) == CeilDiv(size, b) <==> !(ToDouble(size) < size && ToDouble(size) % b == 0)
    ensures size <= Ceil(d) * b <==> !(ToDouble(size) < size && ToDouble(size) % b == 0)
  {
    MultipleIsDouble(b);
    var x := Converted(size);
    var y := UlpOfWord(size, b);
    QuotientIsExact(ToDouble(size), b, x, y, Ulp(size), d);
    SameCeil(size, x, y, Ulp(size), b);
  }

  /** The file size, a product that is itself rounded, is the exact one under the same condition. */
  lemma FileSizeExact(requested: nat, pageSize: nat, d: real)
    requires requested < WORD && 0 < pageSize < WORD && pageSize % 2048 == 0
    requires ToDouble(pageSize) > 0 && RoundsTo(ToDouble(requested) as real / ToDouble(pageSize) as real, d)
    ensures Ceil(d) >= 0
    ensures pageSize * Ceil(d) < WORD ==>
              (ToDouble(pageSize * Ceil(d)) == RoundedFileSize(requested, pageSize)
               <==> !(ToDouble(requested) < requested && ToDouble(requested) % pageSize == 0))
  {
    PiecesExact(requested, pageSize, d);
    CeilCovers(ToDouble(requested), pageSize);
    if pageSize * Ceil(d) < WORD {
      TimesMod(pageSize, Ceil(d));
      MultipleIsDouble(pageSize * Ceil(d));
      MulLess(pageSize, Ceil(d), CeilDiv(requested, pageSize));
      MulLess(pageSize, CeilDiv(requested, pageSize), Ceil(d));
    }
  }

  lemma TimesMod(b: nat, n: nat)
    requires b % 2048 == 0
    ensures b * n >= 0 && (b * n) % 2048 == 0
  {
    var k := b / 2048;
    assert b * n == 2048 * (k * n);
  }

  /** Below 2^53 bytes the number is right for every piece size. */
  lemma SmallSizesExact(size: nat, b: nat, d: real)
    requires size < EXACT && 0 < b < EXACT && RoundsTo(ToDouble(size) as real / ToDouble(b) as real, d)
    ensures Ceil(d) == CeilDiv(size, b)
  {
    QuotientIsExact(size, b, size, b, 1, d);
  }

  lemma Halfway(m: nat)
    ensures Nearest(4 * m + 1, 2) == 4 * m
  {
    assert (4 * m + 1) / 2 == 2 * m && (4 * m + 1) % 2 == 1;
  }

  /** One byte more than 2^53 is not covered. */
  lemma SizeCanBeMissed()
    ensures var size, b, d := EXACT + 1, 4096, 0x200_0000_0000 as real;
            && RoundsTo(ToDouble(size) as real / ToDouble(b) as real, d)
            && Ceil(d) * b == size - 1
  {
    assert ToDouble(4096) == 4096;
    assert Ulp(EXACT + 1) == 2;
    Halfway(EXACT / 4);
    assert EXACT as real / 4096.0 == 0x200_0000_0000 as real;
  }
}
