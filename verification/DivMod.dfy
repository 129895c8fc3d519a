/** Quotients and remainders by a variable. */
module DivMod {
  lemma MultipleMod(k: int, b: nat)
    requires b > 0
    ensures (b * k) % b == 0
  {
    ModUnique(b * k, b, k, 0);
  }

  lemma MulLess(b: nat, x: int, y: int)
    requires b > 0
    ensures b * x < b * y <==> x < y
  {
    assert b * y - b * x == b * (y - x);
  }

  lemma ModUnique(x: int, b: nat, k: int, r: nat)
    requires b > 0 && x == b * k + r && r < b
    ensures x % b == r && x / b == k
  {
    var q := x / b;
    assert x == b * q + x % b;
    assert b * (q + 1) == b * q + b && b * (k + 1) == b * k + b;
    MulLess(b, q, k + 1);
    MulLess(b, k, q + 1);
  }

  lemma Grows(m: nat, b: nat)
    requires b > 0
    ensures m <= m * b
  {
    assert m * b == m + m * (b - 1);
  }
}
