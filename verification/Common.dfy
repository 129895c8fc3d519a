/** A value or its absence. */
module Options {
  datatype Option<T> = None | Some(value: T)
}

/** The contents of memory and of stores. */
module Bytes {
  newtype Byte = x: int | 0 <= x < 256
}

/** The numbers below a bound. */
module Numbers {
  function Below(n: nat): set<nat> {
    if n == 0 then {} else Below(n - 1) + {n - 1}
  }

  lemma {:induction false} BelowCount(n: nat)
    ensures |Below(n)| == n && forall d: nat :: d in Below(n) <==> d < n
  {
    if n > 0 {
      BelowCount(n - 1);
    }
  }
}
