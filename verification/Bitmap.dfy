/** The visited filter: one bit per vertex, packed in 64-bit words. */
module Bitmap {
  type Word = bv64

  const WORD_BITS := 64

  function BitmapSize(size: nat): nat {
    if size == 0 then 0 else (size - 1) / WORD_BITS + 1
  }

  function Mask(k: nat): Word
    requires k < WORD_BITS
  {
    (1 as Word) << (k as bv7)
  }

  predicate Holds(map_: seq<Word>, pos: nat) { pos / WORD_BITS < |map_| }

  predicate GetBit(map_: seq<Word>, pos: nat)
    requires Holds(map_, pos)
  {
    map_[pos / WORD_BITS] & Mask(pos % WORD_BITS) != 0
  }

  function WithBit(map_: seq<Word>, pos: nat): seq<Word>
    requires Holds(map_, pos)
  {
    map_[pos / WORD_BITS := map_[pos / WORD_BITS] | Mask(pos % WORD_BITS)]
  }

  lemma SizeCovers(size: nat, pos: nat)
    requires pos < size
    ensures pos / WORD_BITS < BitmapSize(size)
  {
  }

  lemma Shift(k: nat)
    requires k < WORD_BITS
    ensures (k as bv7) as nat == k && (k as bv7) < 64
  {
  }

  lemma MaskBits(w: Word, j: bv7, k: bv7)
    requires j < 64 && k < 64
    ensures (w | ((1 as Word) << k)) & ((1 as Word) << j) == if j == k then (1 as Word) << j else w & ((1 as Word) << j)
    ensures (1 as Word) << j != 0
  {
  }

  lemma WordUpdate(w: Word, j: nat, k: nat)
    requires j < WORD_BITS && k < WORD_BITS
    ensures (w | Mask(k)) & Mask(j) != 0 <==> j == k || w & Mask(j) != 0
  {
    Shift(j);
    Shift(k);
    MaskBits(w, j as bv7, k as bv7);
  }

  /** Setting a bit sets that bit and no other, whether or not they share a word. */
  lemma BitUpdate(map_: seq<Word>, pos: nat, q: nat)
    requires Holds(map_, pos) && Holds(map_, q)
    ensures GetBit(WithBit(map_, pos), q) <==> q == pos || GetBit(map_, q)
  {
    WordUpdate(map_[q / WORD_BITS], q % WORD_BITS, pos % WORD_BITS);
  }

  lemma ZeroAnd(m: Word)
    ensures 0 & m == 0
  {
  }

  /** A fresh filter has no bit set. */
  lemma ZeroHasNoBits(map_: seq<Word>, q: nat)
    requires Holds(map_, q) && map_[q / WORD_BITS] == 0
    ensures !GetBit(map_, q)
  {
    ZeroAnd(Mask(q % WORD_BITS));
  }

  /** Two threads that update the same word without synchronisation: the one that stores
      last has read a stale word.  Whatever it lost, it invents no bit: only the bits of
      the stale word and its own are set. */
  lemma LostUpdateInventsNothing(stale: seq<Word>, current: seq<Word>, pos: nat, q: nat)
    requires |stale| == |current| && Holds(stale, pos) && Holds(stale, q)
    ensures var racy := current[pos / WORD_BITS := stale[pos / WORD_BITS] | Mask(pos % WORD_BITS)];
            GetBit(racy, q) ==> q == pos || GetBit(stale, q) || GetBit(current, q)
  {
    BitUpdate(stale, pos, q);
  }

  /** The bits that are set below `n` are exactly `bits`. */
  ghost predicate Shows(map_: seq<Word>, n: nat, bits: set<nat>) {
    && (forall q :: q in bits ==> 0 <= q < n)
    && (n == 0 || Holds(map_, n - 1))
    && forall q {:trigger GetBit(map_, q)} :: 0 <= q < n && Holds(map_, q) ==> (GetBit(map_, q) <==> q in bits)
  }

  lemma ShowsRange(n: nat, q: nat)
    requires q < n
    ensures q / WORD_BITS <= (n - 1) / WORD_BITS
  {
  }

  lemma ZeroShowsNothing(map_: seq<Word>, n: nat)
    requires |map_| == BitmapSize(n) && forall j :: 0 <= j < |map_| ==> map_[j] == 0
    ensures Shows(map_, n, {})
  {
    if n > 0 {
      SizeCovers(n, n - 1);
    }
    forall q | 0 <= q < n && Holds(map_, q) ensures !GetBit(map_, q) {
      ZeroHasNoBits(map_, q);
    }
  }

  lemma WithBitShows(map_: seq<Word>, n: nat, bits: set<nat>, pos: nat)
    requires Shows(map_, n, bits) && pos < n && Holds(map_, pos)
    ensures Shows(WithBit(map_, pos), n, bits + {pos})
  {
    forall q | 0 <= q < n && Holds(map_, q) ensures GetBit(WithBit(map_, pos), q) <==> q in bits + {pos} {
      BitUpdate(map_, pos, q);
    }
  }

  method TestBit(a: array<Word>, pos: nat, ghost n: nat, ghost bits: set<nat>) returns (set_: bool)
    requires Shows(a[..], n, bits) && pos < n
    ensures set_ <==> pos in bits
  {
    ShowsRange(n, pos);
    set_ := GetBit(a[..], pos);
  }

  method SetBit(a: array<Word>, pos: nat, ghost n: nat, ghost bits: set<nat>)
    requires Shows(a[..], n, bits) && pos < n
    modifies a
    ensures Shows(a[..], n, bits + {pos})
  {
    ShowsRange(n, pos);
    WithBitShows(a[..], n, bits, pos);
    OrWord(a, pos);
  }

  method OrWord(a: array<Word>, pos: nat)
    requires Holds(a[..], pos)
    modifies a
    ensures a[..] == WithBit(old(a[..]), pos)
  {
    a[pos / WORD_BITS] := a[pos / WORD_BITS] | Mask(pos % WORD_BITS);
  }
}
