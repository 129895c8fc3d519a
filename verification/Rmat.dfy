/** The R-MAT generator: one edge by recursive quadrant choices, and the iterator that emits
    a thread's share of edges, each followed by its reverse when both directions are wanted. */
module Rmat {
  import opened Csr
  import opened Bits
  import opened Hash
  import Words
  import NativeHash

  /** Which half of the rows and of the columns a level of the recursion picks.  The source
      draws it at random; here it is arbitrary. */
  datatype Quadrant = A | B | C | D {
    predicate Lower() { C? || D? }
    predicate Right() { B? || D? }
  }

  // ----- one edge -----

  function Digit(b: bool): nat { if b then 1 else 0 }

  /** The binary number whose digits, most significant first, are the row choices. */
  function Row(q: seq<Quadrant>): nat {
    if q == [] then 0 else 2 * Row(q[..|q| - 1]) + Digit(q[|q| - 1].Lower())
  }

  function Column(q: seq<Quadrant>): nat {
    if q == [] then 0 else 2 * Column(q[..|q| - 1]) + Digit(q[|q| - 1].Right())
  }

  lemma {:induction false} CoordinatesBound(q: seq<Quadrant>)
    ensures Row(q) < Pow2(|q|) && Column(q) < Pow2(|q|)
  {
    if q != [] {
      CoordinatesBound(q[..|q| - 1]);
    }
  }

  /** Different choices give different cells of the adjacency matrix. */
  lemma {:induction false} CellsAreDistinct(p: seq<Quadrant>, q: seq<Quadrant>)
    requires |p| == |q| && Row(p) == Row(q) && Column(p) == Column(q)
    ensures p == q
  {
    if p != [] {
      var i := |p| - 1;
      LastDigit(Row(p[..i]), p[i].Lower(), Row(q[..i]), q[i].Lower());
      LastDigit(Column(p[..i]), p[i].Right(), Column(q[..i]), q[i].Right());
      CellsAreDistinct(p[..i], q[..i]);
      assert p == p[..i] + [p[i]] && q == q[..i] + [q[i]];
    }
  }

  /** Digit by digit from the highest: a level picks the lower rows iff it draws C or D, and the right
      columns iff it draws B or D. */
  lemma {:induction false} CellDigits(q: seq<Quadrant>, j: nat)
    requires j < |q|
    ensures BitAt(Row(q), |q| - 1 - j) <==> q[j] == C || q[j] == D
    ensures BitAt(Column(q), |q| - 1 - j) <==> q[j] == B || q[j] == D
  {
    var front, last := q[..|q| - 1], q[|q| - 1];
    DigitAt(Row(front), last.Lower(), |q| - 1 - j);
    DigitAt(Column(front), last.Right(), |q| - 1 - j);
    if j < |q| - 1 {
      CellDigits(front, j);
    }
  }

  lemma DigitAt(m: nat, x: bool, i: nat)
    ensures BitAt(2 * m + Digit(x), i) <==> if i == 0 then x else BitAt(m, i - 1)
  {
    var v := 2 * m + Digit(x);
    Halves(v, m, Digit(x));
    BitHalf(v, if i == 0 then 0 else i - 1);
  }

  lemma LastDigit(m: nat, x: bool, n: nat, y: bool)
    requires 2 * m + Digit(x) == 2 * n + Digit(y)
    ensures m == n && x == y
  {
  }

  /** The scale is at most 63: the source computes 2^scale in 64 bits.  Scrambling needs
      more than 16 bits. */
  method GenerateEdge(scale: nat, scramble: bool, q: seq<Quadrant>) returns (u: nat, v: nat)
    requires |q| == scale <= 63 && (scramble ==> scale > 16)
    ensures u == if scramble then Scrambled(Row(q), scale) else Row(q)
    ensures v == if scramble then Scrambled(Column(q), scale) else Column(q)
    ensures u < Pow2(scale) && v < Pow2(scale)
  {
    u, v := PickCell(scale, q);
    CoordinatesBound(q);
    if scramble {
      u := ScrambleId(u, scale);
      v := ScrambleId(v, scale);
    }
  }

  /** The loop over the recursion levels. */
  method PickCell(scale: nat, q: seq<Quadrant>) returns (u: nat, v: nat)
    requires |q| == scale
    ensures u == Row(q) && v == Column(q)
  {
    u, v := 0, 0;
    var step := Pow2(scale) / 2;
    ShlZero(scale);
    ghost var row, column := 0, 0;
    for j := 0 to scale
      invariant step == Pow2(scale - j) / 2
      invariant row == Row(q[..j]) && column == Column(q[..j]) && PickedAs(row, column, scale - j, u, v)
    {
      ghost var u0, v0 := u, v;
      CellMore(q, j);
      HalfPower(scale - j);
      match q[j] {
        case A =>
        case B => v := v + step;
        case C => u := u + step;
        case D => u, v := u + step, v + step;
      }
      DigitsIn(row, column, scale - j, u0, v0, q[j], u, v);
      row, column := 2 * row + Digit(q[j].Lower()), 2 * column + Digit(q[j].Right());
      step := step / 2;
    }
    assert q[..scale] == q;
  }

  /** The coordinates when `row` and `column` have been spelled and `left` levels are left. */
  ghost predicate PickedAs(row: nat, column: nat, left: nat, u: nat, v: nat) {
    u == Shl(row, left) && v == Shl(column, left)
  }

  lemma DigitsIn(row: nat, column: nat, n: nat, u: nat, v: nat, d: Quadrant, u': nat, v': nat)
    requires n > 0 && PickedAs(row, column, n, u, v)
    requires u' == u + (if d.Lower() then Pow2(n) / 2 else 0) && v' == v + (if d.Right() then Pow2(n) / 2 else 0)
    ensures PickedAs(2 * row + Digit(d.Lower()), 2 * column + Digit(d.Right()), n - 1, u', v')
  {
    ShlDigit(row, d.Lower(), n);
    ShlDigit(column, d.Right(), n);
  }

  lemma CellMore(q: seq<Quadrant>, j: nat)
    requires j < |q|
    ensures Row(q[..j + 1]) == 2 * Row(q[..j]) + Digit(q[j].Lower())
    ensures Column(q[..j + 1]) == 2 * Column(q[..j]) + Digit(q[j].Right())
  {
    assert q[..j + 1][..j] == q[..j];
  }

  method ScrambleId(x: nat, scale: nat) returns (y: nat)
    requires 16 < scale <= 64 && x < Pow2(scale)
    ensures y == Scrambled(x, scale) && y < Pow2(scale)
  {
    ScrambleBound(x, scale);
    PowGrows(scale, 64);
    Pow2Of64();
    Words.WordIs(x);
    var r := NativeHash.HashNBits(x as bv64, scale);
    y := r as nat;
  }

  lemma HalfPower(n: nat)
    requires n > 0
    ensures Pow2(n) / 2 == Pow2(n - 1)
  {
  }

  lemma ShlDigit(x: nat, b: bool, n: nat)
    requires n > 0
    ensures Shl(2 * x + Digit(b), n - 1) == Shl(x, n) + if b then Pow2(n) / 2 else 0
  {
    ShlSum(x, b, n - 1);
  }

  lemma {:induction false} ShlSum(x: nat, b: bool, n: nat)
    ensures Shl(2 * x + Digit(b), n) == Shl(x, n + 1) + if b then Pow2(n) else 0
  {
    if n > 0 {
      ShlSum(x, b, n - 1);
    }
  }

  /** Scrambled or not, edges between different cells stay different, and stay inside the
      matrix. */
  lemma EdgesAreDistinct(p: seq<Quadrant>, q: seq<Quadrant>, scale: nat, scramble: bool)
    requires |p| == |q| == scale <= 63 && (scramble ==> scale > 16) && p != q
    ensures if scramble then Scrambled(Row(p), scale) != Scrambled(Row(q), scale)
                          || Scrambled(Column(p), scale) != Scrambled(Column(q), scale)
            else Row(p) != Row(q) || Column(p) != Column(q)
  {
    CoordinatesBound(p);
    CoordinatesBound(q);
    if Row(p) == Row(q) && Column(p) == Column(q) {
      CellsAreDistinct(p, q);
    } else if scramble {
      if Row(p) != Row(q) {
        Separated(Row(p), Row(q), scale);
      } else {
        Separated(Column(p), Column(q), scale);
      }
    }
  }

  lemma Separated(x: nat, y: nat, n: nat)
    requires 16 < n <= 64 && x < Pow2(n) && y < Pow2(n) && x != y
    ensures Scrambled(x, n) != Scrambled(y, n)
  {
    ScrambleInjective(x, y, n);
  }

  // ----- the iterator -----

  function Reverse(e: Edge): Edge { Edge(e.trg, e.src) }

  /** What the generator is for: the drawn edges, each followed at once by its reverse when
      both directions are wanted. */
  function Emission(draws: seq<Edge>, undirected: bool): seq<Edge> {
    if draws == [] then []
    else
      var e := draws[|draws| - 1];
      Emission(draws[..|draws| - 1], undirected) + if undirected then [e, Reverse(e)] else [e]
  }

  lemma {:induction false} EmissionLength(draws: seq<Edge>, undirected: bool)
    ensures |Emission(draws, undirected)| == if undirected then 2 * |draws| else |draws|
  {
    if draws != [] {
      EmissionLength(draws[..|draws| - 1], undirected);
    }
  }

  /** `out` has each draw in its own direction and, when both are wanted, next to it the edge
      from its target to its source. */
  ghost predicate Carries(draws: seq<Edge>, undirected: bool, out: seq<Edge>) {
    if undirected then
      && |out| == 2 * |draws|
      && forall i :: 0 <= i < |draws| ==>
           && out[2 * i] == draws[i]
           && out[2 * i + 1].src == draws[i].trg && out[2 * i + 1].trg == draws[i].src
    else out == draws
  }

  lemma {:induction false} EmissionCarries(draws: seq<Edge>, undirected: bool)
    ensures Carries(draws, undirected, Emission(draws, undirected))
  {
    EmissionLength(draws, undirected);
    if draws != [] {
      EmissionCarries(draws[..|draws| - 1], undirected);
      EmissionLength(draws[..|draws| - 1], undirected);
    }
  }

  /** Every edge is there as often as the opposite edge. */
  ghost predicate Symmetric(out: seq<Edge>) {
    forall u: nat, v: nat :: multiset(out)[Edge(u, v)] == multiset(out)[Edge(v, u)]
  }

  lemma EmissionIsSymmetric(draws: seq<Edge>)
    ensures Symmetric(Emission(draws, true))
  {
    forall u: nat, v: nat
      ensures multiset(Emission(draws, true))[Edge(u, v)] == multiset(Emission(draws, true))[Edge(v, u)]
    {
      BothDirections(draws, u, v);
    }
  }

  lemma {:induction false} BothDirections(draws: seq<Edge>, u: nat, v: nat)
    ensures multiset(Emission(draws, true))[Edge(u, v)] == multiset(Emission(draws, true))[Edge(v, u)]
  {
    if draws != [] {
      var front, e := Emission(draws[..|draws| - 1], true), draws[|draws| - 1];
      BothDirections(draws[..|draws| - 1], u, v);
      EmissionCarries([e], true);
      PairIsSymmetric(e, u, v);
      assert multiset(front + [e, Reverse(e)]) == multiset(front) + multiset([e, Reverse(e)]);
    }
  }

  lemma PairIsSymmetric(e: Edge, u: nat, v: nat)
    ensures multiset([e, Reverse(e)])[Edge(u, v)] == multiset([e, Reverse(e)])[Edge(v, u)]
  {
    assert Reverse(e).src == e.trg && Reverse(e).trg == e.src;
  }

  /** The input iterator.  `draws` are the edges its random number generator will yield. */
  class EdgeIterator {
    const draws: seq<Edge>
    const undirected: bool
    var next: nat
    var count: nat
    var current: Edge
    var makeUndirected: bool

    constructor (draws: seq<Edge>, undirected: bool, count: nat)
      requires |draws| > 0
      ensures this.draws == draws && this.undirected == undirected && this.count == count
      ensures count == 0 ==> next == 1 && current == draws[0] && makeUndirected
    {
      this.draws, this.undirected, this.count := draws, undirected, count;
      next, current, makeUndirected := 0, draws[0], false;
      new;
      if count == 0 {
        GetNext();
        this.count := 0;
      }
    }

    method GetNext()
      requires (undirected && makeUndirected) || next < |draws|
      modifies this
      ensures old(undirected && makeUndirected) ==>
                && next == old(next) && count == old(count) && !makeUndirected
                && current.src == old(current.trg) && current.trg == old(current.src)
      ensures !old(undirected && makeUndirected) ==>
                next == old(next) + 1 && count == old(count) + 1 && current == draws[old(next)] && makeUndirected
    {
      if undirected && makeUndirected {
        current := Edge(current.trg, current.src);
        makeUndirected := false;
      } else {
        current := draws[next];
        next := next + 1;
        count := count + 1;
        makeUndirected := true;
      }
    }

    /** Where the iterator stands when `out` has been emitted. */
    ghost predicate Emitted(out: seq<Edge>)
      reads this
    {
      && count < |draws| && next == count + 1
      && (makeUndirected || undirected)
      && current == (if makeUndirected then draws[count] else Reverse(draws[count]))
      && out == Emission(draws[..count], undirected) + if makeUndirected then [] else [draws[count]]
    }
  }

  lemma EmissionSnoc(draws: seq<Edge>, n: nat, undirected: bool)
    requires n < |draws|
    ensures Emission(draws[..n + 1], undirected)
         == Emission(draws[..n], undirected) + if undirected then [draws[n], Reverse(draws[n])] else [draws[n]]
  {
    assert draws[..n + 1][..n] == draws[..n];
  }

  /** Iterate from begin to end: exactly the first `edgeCount` draws are emitted, each with
      its reverse when asked for. */
  method EmitShare(draws: seq<Edge>, edgeCount: nat, undirected: bool) returns (out: seq<Edge>)
    requires |draws| > edgeCount
    ensures out == Emission(draws[..edgeCount], undirected)
    ensures |out| == if undirected then 2 * edgeCount else edgeCount
    ensures Carries(draws[..edgeCount], undirected, out)
  {
    var it := new EdgeIterator(draws, undirected, 0);
    var end := new EdgeIterator(draws, undirected, edgeCount);
    out := [];
    while it.count != end.count
      invariant it != end && it.draws == draws && it.undirected == undirected && end.count == edgeCount
      invariant it.count <= edgeCount && it.Emitted(out) && (it.count == edgeCount ==> it.makeUndirected)
      decreases edgeCount - it.count, if it.makeUndirected then 1 else 0
    {
      EmissionSnoc(draws, it.count, undirected);
      out := out + [it.current];
      it.GetNext();
    }
    EmissionLength(draws[..edgeCount], undirected);
    EmissionCarries(draws[..edgeCount], undirected);
  }
}

/** Dividing the edges among threads, and the final count. */
module EdgeShares {
  import opened DivMod
  import opened Csr
  import opened Rmat

  const MODULUS := 0x1_0000_0000_0000_0000

  /** 64-bit unsigned arithmetic. */
  function Wrap(x: int): nat { x % MODULUS }

  method NumLocalEdges(first: nat, last: nat, myid: nat, nthreads: nat) returns (n: nat)
    requires first < MODULUS && last < MODULUS && myid < nthreads < MODULUS
    ensures n == Share(Wrap(last - first + 1), myid, nthreads)
  {
    var len := Length(first, last);
    var chunk := len / nthreads;
    var r := len % nthreads;
    var start := StartOf(first, chunk, r, myid, len, nthreads);
    ShareBound(len, myid, nthreads);
    n := Extent(start, chunk, myid < r);
  }

  method Length(first: nat, last: nat) returns (len: nat)
    ensures len == Wrap(last - first + 1)
  {
    len := Wrap(Wrap(last - first) + 1);
    WrapAdd(last - first, 1);
  }

  /** The number of edges from a thread's first to its last, in wrapping arithmetic. */
  method Extent(start: nat, chunk: nat, more: bool) returns (n: nat)
    requires chunk + (if more then 1 else 0) < MODULUS
    ensures n == chunk + if more then 1 else 0
  {
    var end := if more then Wrap(start + chunk) else Wrap(Wrap(start + chunk) - 1);
    n := Wrap(Wrap(end - start) + 1);
    SpanIsShare(start, chunk, more, n);
  }

  lemma SpanIsShare(start: nat, chunk: nat, more: bool, n: nat)
    requires n == Wrap(Wrap((if more then Wrap(start + chunk) else Wrap(Wrap(start + chunk) - 1)) - start) + 1)
    requires chunk + (if more then 1 else 0) < MODULUS
    ensures n == chunk + if more then 1 else 0
  {
    if more {
      Span(start, chunk);
    } else {
      ShorterSpan(start, chunk);
    }
  }

  lemma ShorterSpan(start: nat, chunk: nat)
    requires chunk < MODULUS
    ensures Wrap(Wrap(Wrap(Wrap(start + chunk) - 1) - start) + 1) == chunk
  {
    OneLess(start, chunk);
    Span(start, chunk - 1);
    Fits(chunk);
  }

  lemma OneLess(start: int, chunk: int)
    ensures Wrap(Wrap(start + chunk) - 1) == Wrap(start + (chunk - 1))
  {
    WrapAdd(start + chunk, -1);
  }

  lemma Fits(x: nat)
    requires x < MODULUS
    ensures Wrap(x) == x
  {
  }

  /** The first edge of a thread comes right after the edges of the threads before it. */
  method StartOf(first: nat, chunk: nat, r: nat, myid: nat, ghost len: nat, ghost nthreads: nat) returns (start: nat)
    requires nthreads > 0 && chunk == len / nthreads && r == len % nthreads
    ensures start == Wrap(first + Shares(len, nthreads, myid))
  {
    PartialShares(len, nthreads, myid);
    if myid < r {
      start := Wrap(first + Wrap(Wrap(chunk + 1) * myid));
      StartOfLonger(first, chunk, myid);
    } else {
      start := Wrap(Wrap(first + Wrap(Wrap(chunk + 1) * r)) + Wrap(chunk * (myid - r)));
      StartOfShorter(first, chunk, r, myid);
    }
  }

  lemma StartOfLonger(first: nat, chunk: nat, myid: nat)
    ensures Wrap(first + Wrap(Wrap(chunk + 1) * myid)) == Wrap(first + (myid * chunk + myid))
  {
    WrapMul(chunk + 1, myid);
    assert (chunk + 1) * myid == myid * chunk + myid;
    WrapAdd((chunk + 1) * myid, first);
  }

  lemma StartOfShorter(first: nat, chunk: nat, r: nat, myid: nat)
    requires r <= myid
    ensures Wrap(Wrap(first + Wrap(Wrap(chunk + 1) * r)) + Wrap(chunk * (myid - r))) == Wrap(first + (myid * chunk + r))
  {
    StartOfLonger(first, chunk, r);
    var x, y := first + (r * chunk + r), chunk * (myid - r);
    WrapAdd(x, Wrap(y));
    WrapAdd(y, x);
    assert r * chunk + y == myid * chunk;
  }

  lemma WrapMul(a: int, b: int)
    ensures Wrap(Wrap(a) * b) == Wrap(a * b)
  {
    var q := a / MODULUS;
    assert Wrap(a) == a - q * MODULUS;
    assert Wrap(a) * b == a * b - (q * b) * MODULUS;
    WrapMultiple(a * b, q * b);
  }

  lemma WrapAdd(x: int, y: int)
    ensures Wrap(Wrap(x) + y) == Wrap(x + y)
  {
    var k := x / MODULUS;
    assert Wrap(x) == x - k * MODULUS;
    var z := x + y - k * MODULUS;
    assert z % MODULUS == (x + y) % MODULUS by { WrapMultiple(x + y, k); }
  }

  lemma {:induction false} WrapMultiple(x: int, k: int)
    ensures (x - k * MODULUS) % MODULUS == x % MODULUS
    decreases if k < 0 then -k else k
  {
    if k > 0 {
      WrapMultiple(x, k - 1);
    } else if k < 0 {
      WrapMultiple(x, k + 1);
    }
  }

  /** The number of places from `start` to `start + d`, both included, in wrapping arithmetic. */
  lemma Span(start: int, d: int)
    ensures Wrap(Wrap(Wrap(start + d) - start) + 1) == Wrap(d + 1)
  {
    WrapAdd(start + d, -start);
    WrapAdd(d, 1);
  }

  /** An even division: the first `len % nthreads` threads take one more. */
  function Share(len: nat, myid: nat, nthreads: nat): nat
    requires nthreads > 0
  {
    len / nthreads + if myid < len % nthreads then 1 else 0
  }

  /** No thread has more than one edge more than another, and the earlier threads have them. */
  lemma SharesAreEven(len: nat, t: nat, u: nat, nthreads: nat)
    requires t < u < nthreads
    ensures Share(len, u, nthreads) <= Share(len, t, nthreads) <= Share(len, u, nthreads) + 1
  {
  }

  lemma ShareBound(len: nat, myid: nat, nthreads: nat)
    requires nthreads > 0 && len < MODULUS
    ensures Share(len, myid, nthreads) < MODULUS
  {
    Quotient(len, nthreads);
  }

  lemma Quotient(len: nat, n: nat)
    requires n > 0
    ensures len == n * (len / n) + len % n && len / n + len % n <= len
  {
    Grows(len / n, n);
  }

  /** The edges of the first `t` threads. */
  function Shares(len: nat, nthreads: nat, t: nat): nat
    requires nthreads > 0
  {
    if t == 0 then 0 else Shares(len, nthreads, t - 1) + Share(len, t - 1, nthreads)
  }

  lemma {:induction false} PartialShares(len: nat, nthreads: nat, t: nat)
    requires nthreads > 0
    ensures Shares(len, nthreads, t) == t * (len / nthreads) + if t < len % nthreads then t else len % nthreads
  {
    if t > 0 {
      PartialShares(len, nthreads, t - 1);
      OneMoreTimes(t, len / nthreads);
    }
  }

  lemma OneMoreTimes(t: nat, q: nat)
    requires t > 0
    ensures t * q == (t - 1) * q + q
  {
  }

  /** Whatever the number of threads, the shares add up to the number of edges. */
  lemma SharesAddUp(len: nat, nthreads: nat)
    requires nthreads > 0
    ensures Shares(len, nthreads, nthreads) == len
  {
    PartialShares(len, nthreads, nthreads);
    Quotient(len, nthreads);
  }

  /** Generate with `nthreads` threads, each from its own draws, and count what is written;
      the final comparison never fails, wrap-around included. */
  method GenerateAll(edgeCount: nat, undirected: bool, draws: seq<seq<Edge>>) returns (files: seq<seq<Edge>>, ok: bool)
    requires edgeCount < MODULUS && 0 < |draws| < MODULUS
    requires forall t :: 0 <= t < |draws| ==> |draws[t]| > Share(edgeCount, t, |draws|)
    ensures ok && |files| == |draws|
    ensures forall t :: 0 <= t < |draws| ==> Carries(draws[t][..Share(edgeCount, t, |draws|)], undirected, files[t])
    ensures undirected ==> forall t :: 0 <= t < |draws| ==> Symmetric(files[t])
  {
    var numGenerated;
    files, numGenerated := GenerateFiles(edgeCount, undirected, draws);
    ok := CountMatches(edgeCount, undirected, |draws|, numGenerated);
    FilesCarry(edgeCount, undirected, draws, files);
  }

  /** The final comparison. */
  method CountMatches(edgeCount: nat, undirected: bool, nthreads: nat, numGenerated: nat) returns (ok: bool)
    requires edgeCount < MODULUS && nthreads > 0
    requires numGenerated == Wrap(Times(undirected) * Shares(edgeCount, nthreads, nthreads))
    ensures ok
  {
    SharesAddUp(edgeCount, nthreads);
    var expected := if undirected then Wrap(edgeCount * 2) else edgeCount;
    ok := expected == numGenerated;
  }

  method GenerateFiles(edgeCount: nat, undirected: bool, draws: seq<seq<Edge>>)
    returns (files: seq<seq<Edge>>, numGenerated: nat)
    requires edgeCount < MODULUS && 0 < |draws| < MODULUS
    requires forall t :: 0 <= t < |draws| ==> |draws[t]| > Share(edgeCount, t, |draws|)
    ensures |files| == |draws|
    ensures forall t :: 0 <= t < |draws| ==> files[t] == Emission(draws[t][..Share(edgeCount, t, |draws|)], undirected)
    ensures numGenerated == Wrap(Times(undirected) * Shares(edgeCount, |draws|, |draws|))
  {
    var nthreads := |draws|;
    numGenerated := 0;
    files := [];
    for t := 0 to nthreads
      invariant |files| == t
      invariant forall j :: 0 <= j < t ==> files[j] == Emission(draws[j][..Share(edgeCount, j, nthreads)], undirected)
      invariant numGenerated == Wrap(Times(undirected) * Shares(edgeCount, nthreads, t))
    {
      var file := ThreadFile(edgeCount, undirected, draws[t], t, nthreads);
      files := files + [file];
      numGenerated := Wrap(numGenerated + |file|);
      CountStep(edgeCount, nthreads, t, Times(undirected), |file|);
    }
  }

  lemma FilesCarry(edgeCount: nat, undirected: bool, draws: seq<seq<Edge>>, files: seq<seq<Edge>>)
    requires |files| == |draws|
    requires forall t :: 0 <= t < |draws| ==> |draws[t]| > Share(edgeCount, t, |draws|)
    requires forall t :: 0 <= t < |draws| ==> files[t] == Emission(draws[t][..Share(edgeCount, t, |draws|)], undirected)
    ensures forall t :: 0 <= t < |draws| ==> Carries(draws[t][..Share(edgeCount, t, |draws|)], undirected, files[t])
    ensures undirected ==> forall t :: 0 <= t < |draws| ==> Symmetric(files[t])
  {
    forall t | 0 <= t < |draws| ensures Carries(draws[t][..Share(edgeCount, t, |draws|)], undirected, files[t]) {
      EmissionCarries(draws[t][..Share(edgeCount, t, |draws|)], undirected);
    }
    if undirected {
      forall t | 0 <= t < |draws| ensures Symmetric(files[t]) {
        EmissionIsSymmetric(draws[t][..Share(edgeCount, t, |draws|)]);
      }
    }
  }

  /** What one thread writes. */
  method ThreadFile(edgeCount: nat, undirected: bool, draws: seq<Edge>, t: nat, nthreads: nat) returns (file: seq<Edge>)
    requires edgeCount < MODULUS && t < nthreads < MODULUS && |draws| > Share(edgeCount, t, nthreads)
    ensures file == Emission(draws[..Share(edgeCount, t, nthreads)], undirected)
    ensures |file| == Times(undirected) * Share(edgeCount, t, nthreads)
  {
    var share := NumLocalEdges(0, Wrap(edgeCount - 1), t, nthreads);
    WholeLength(edgeCount);
    file := EmitShare(draws, share, undirected);
  }

  lemma CountStep(len: nat, nthreads: nat, t: nat, k: nat, n: nat)
    requires nthreads > 0 && n == k * Share(len, t, nthreads)
    ensures Wrap(Wrap(k * Shares(len, nthreads, t)) + n) == Wrap(k * Shares(len, nthreads, t + 1))
  {
    CountMore(Shares(len, nthreads, t), Share(len, t, nthreads), k);
  }

  lemma CountMore(total: nat, share: nat, k: nat)
    ensures Wrap(Wrap(k * total) + k * share) == Wrap(k * (total + share))
  {
    WrapAdd(k * total, k * share);
    assert k * (total + share) == k * total + k * share;
  }

  function Times(undirected: bool): nat { if undirected then 2 else 1 }

  lemma WholeLength(edgeCount: nat)
    requires edgeCount < MODULUS
    ensures Wrap(Wrap(edgeCount - 1) - 0 + 1) == edgeCount
  {
  }
}
