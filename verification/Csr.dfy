/** Building the compressed adjacency structure from an edge list: count the out-degrees,
    shift, sum, and scatter the targets. */
module Csr {
  datatype Edge = Edge(src: nat, trg: nat)

  /** The targets of the edges that leave `s`, in list order. */
  function Targets(es: seq<Edge>, s: nat): seq<nat> {
    if es == [] then []
    else
      var e := es[|es| - 1];
      Targets(es[..|es| - 1], s) + if e.src == s then [e.trg] else []
  }

  /** Where the slice of `s` starts. */
  function Offset(es: seq<Edge>, s: nat): nat {
    if s == 0 then 0 else Offset(es, s - 1) + |Targets(es, s - 1)|
  }

  predicate Bounded(es: seq<Edge>, maxId: nat) {
    forall i :: 0 <= i < |es| ==> es[i].src <= maxId && es[i].trg <= maxId
  }

  // ----- facts about the specification -----

  /** Vertex `t` is listed as a target of `s` as often as the list has the edge from `s` to `t`. */
  lemma {:induction false} TargetsCount(es: seq<Edge>, s: nat, t: nat)
    ensures multiset(Targets(es, s))[t] == multiset(es)[Edge(s, t)]
  {
    if es != [] {
      var front, e := es[..|es| - 1], es[|es| - 1];
      TargetsCount(front, s, t);
      assert es == front + [e];
      assert multiset(es) == multiset(front) + multiset{e};
      CountMore(Targets(front, s), e.trg);
      assert (e == Edge(s, t)) == (e.src == s && e.trg == t);
    }
  }

  lemma CountMore(ts: seq<nat>, t: nat)
    ensures multiset(ts + [t]) == multiset(ts) + multiset{t}
  {
  }

  lemma TargetsSnoc(es: seq<Edge>, i: nat, s: nat)
    requires i < |es|
    ensures Targets(es[..i + 1], s) == Targets(es[..i], s) + if es[i].src == s then [es[i].trg] else []
  {
    assert es[..i + 1][..i] == es[..i];
  }

  lemma {:induction false} TargetsPrefix(es: seq<Edge>, i: nat, j: nat, s: nat)
    requires i <= j <= |es|
    ensures Targets(es[..i], s) <= Targets(es[..j], s)
    decreases j
  {
    if i < j {
      TargetsPrefix(es, i, j - 1, s);
      TargetsSnoc(es, j - 1, s);
    }
  }

  lemma {:induction false} OffsetMonotone(es: seq<Edge>, s: nat, s': nat)
    requires s <= s'
    ensures Offset(es, s) <= Offset(es, s')
    decreases s'
  {
    if s < s' {
      OffsetMonotone(es, s, s' - 1);
    }
  }

  lemma {:induction false} OffsetSnoc(es: seq<Edge>, e: Edge, s: nat)
    ensures Offset(es + [e], s) == Offset(es, s) + if e.src < s then 1 else 0
    decreases s
  {
    if s > 0 {
      OffsetSnoc(es, e, s - 1);
      assert (es + [e])[..|es|] == es;
    }
  }

  /** The slices cover exactly as many slots as there are edges. */
  lemma {:induction false} OffsetTotal(es: seq<Edge>, maxId: nat)
    requires Bounded(es, maxId)
    ensures Offset(es, maxId + 1) == |es|
    decreases |es|
  {
    if es == [] {
      OffsetEmpty(maxId + 1);
    } else {
      var front := es[..|es| - 1];
      OffsetTotal(front, maxId);
      OffsetSnoc(front, es[|es| - 1], maxId + 1);
      assert es == front + [es[|es| - 1]];
    }
  }

  lemma {:induction false} OffsetEmpty(s: nat)
    ensures Offset([], s) == 0
  {
    if s > 0 {
      OffsetEmpty(s - 1);
    }
  }

  lemma {:induction false} TargetsConcat(a: seq<Edge>, b: seq<Edge>, s: nat)
    ensures Targets(a + b, s) == Targets(a, s) + Targets(b, s)
    decreases |b|
  {
    if b == [] {
      assert a + b == a;
    } else {
      assert (a + b)[..|a + b| - 1] == a + b[..|b| - 1];
      TargetsConcat(a, b[..|b| - 1], s);
    }
  }

  /** The targets as a multiset do not depend on the order of the list. */
  lemma {:induction false} TargetsOrder(a: seq<Edge>, b: seq<Edge>, s: nat)
    requires multiset(a) == multiset(b)
    ensures multiset(Targets(a, s)) == multiset(Targets(b, s))
    decreases |a|
  {
    if a == [] {
      assert multiset(b) == multiset{};
      assert |multiset(b)| == |b|;
    } else {
      var e, front := a[|a| - 1], a[..|a| - 1];
      var p, r := TakeOut(a, b, front, e);
      TargetsOrder(front, p + r, s);
      TargetsWithout(p, e, r, s);
      TargetsConcat(front, [e], s);
    }
  }

  /** The last element of one list taken out of another arrangement of it. */
  lemma TakeOut(a: seq<Edge>, b: seq<Edge>, front: seq<Edge>, e: Edge) returns (p: seq<Edge>, r: seq<Edge>)
    requires multiset(a) == multiset(b) && a != [] && e == a[|a| - 1] && front == a[..|a| - 1]
    ensures a == front + [e] && b == p + [e] + r && multiset(front) == multiset(p + r)
  {
    assert a == front + [e];
    LastOut(front, e);
    p, r := SplitAround(b, e);
    EdgeOut(p, e, r);
  }

  lemma LastOut(front: seq<Edge>, e: Edge)
    ensures multiset(front) == multiset(front + [e]) - multiset{e}
  {
    EdgeOut(front, e, []);
    assert front + [e] + [] == front + [e] && front + [] == front;
  }

  lemma SplitAround(b: seq<Edge>, e: Edge) returns (p: seq<Edge>, r: seq<Edge>)
    requires e in multiset(b)
    ensures b == p + [e] + r
  {
    var i :| 0 <= i < |b| && b[i] == e;
    p, r := b[..i], b[i + 1..];
  }

  lemma EdgeOut(p: seq<Edge>, e: Edge, r: seq<Edge>)
    ensures multiset(p + r) == multiset(p + [e] + r) - multiset{e}
  {
  }

  lemma TargetsWithout(p: seq<Edge>, e: Edge, r: seq<Edge>, s: nat)
    ensures multiset(Targets(p + [e] + r, s)) == multiset(Targets(p + r, s)) + multiset(Targets([e], s))
  {
    TargetsConcat(p, r, s);
    TargetsConcat(p + [e], r, s);
    TargetsConcat(p, [e], s);
    MiddleOut(Targets(p, s), Targets([e], s), Targets(r, s));
  }

  lemma MiddleOut(x: seq<nat>, m: seq<nat>, y: seq<nat>)
    ensures multiset(x + m + y) == multiset(x + y) + multiset(m)
  {
  }

  lemma {:induction false} OffsetOrder(a: seq<Edge>, b: seq<Edge>, s: nat)
    requires multiset(a) == multiset(b)
    ensures Offset(a, s) == Offset(b, s)
  {
    if s > 0 {
      OffsetOrder(a, b, s - 1);
      DegreeOrder(a, b, s - 1);
    }
  }

  lemma DegreeOrder(a: seq<Edge>, b: seq<Edge>, s: nat)
    requires multiset(a) == multiset(b)
    ensures |Targets(a, s)| == |Targets(b, s)|
  {
    TargetsOrder(a, b, s);
    var ta, tb := Targets(a, s), Targets(b, s);
    assert |multiset(ta)| == |ta| && |multiset(tb)| == |tb|;
  }

  lemma {:induction false} TargetsMember(es: seq<Edge>, s: nat, t: nat)
    ensures t in Targets(es, s) <==> Edge(s, t) in es
  {
    if es != [] {
      var front := es[..|es| - 1];
      TargetsMember(front, s, t);
      assert es == front + [es[|es| - 1]];
    }
  }

  // ----- the slots of the scatter pass -----

  /** The slot that the edge at position `i` of the processing order is written to. */
  function Slot(order: seq<Edge>, i: nat): nat
    requires i < |order|
  {
    Offset(order, order[i].src) + |Targets(order[..i], order[i].src)|
  }

  lemma SlotInSlice(order: seq<Edge>, i: nat)
    requires i < |order|
    ensures Offset(order, order[i].src) <= Slot(order, i) < Offset(order, order[i].src + 1)
  {
    var s := order[i].src;
    TargetsSnoc(order, i, s);
    TargetsPrefix(order, i + 1, |order|, s);
    assert order[..|order|] == order;
  }

  lemma SameSource(order: seq<Edge>, i: nat, j: nat)
    requires i < j < |order| && order[i].src == order[j].src
    ensures Slot(order, i) < Slot(order, j)
  {
    TargetsSnoc(order, i, order[i].src);
    TargetsPrefix(order, i + 1, j, order[i].src);
  }

  lemma OtherSource(order: seq<Edge>, i: nat, j: nat)
    requires i < |order| && j < |order| && order[i].src < order[j].src
    ensures Slot(order, i) < Slot(order, j)
  {
    SlotInSlice(order, i);
    OffsetMonotone(order, order[i].src + 1, order[j].src);
  }

  /** No slot is written twice. */
  lemma SlotsAreDistinct(order: seq<Edge>, i: nat, j: nat)
    requires i < j < |order|
    ensures Slot(order, i) != Slot(order, j)
  {
    if order[i].src == order[j].src {
      SameSource(order, i, j);
    } else if order[i].src < order[j].src {
      OtherSource(order, i, j);
    } else {
      OtherSource(order, j, i);
    }
  }

  /** Every slot is written: the slices are disjoint, consecutive and filled. */
  lemma {:induction false} EverySlotIsWritten(order: seq<Edge>, maxId: nat, pos: nat) returns (i: nat)
    requires Bounded(order, maxId) && pos < |order|
    ensures i < |order| && Slot(order, i) == pos
  {
    OffsetTotal(order, maxId);
    assert order[..|order|] == order;
    var s := SliceOf(order, maxId + 1, pos);
    i := NthEdge(order, s, pos - Offset(order, s), |order|);
  }

  lemma {:induction false} SliceOf(order: seq<Edge>, s: nat, pos: nat) returns (t: nat)
    requires pos < Offset(order, s)
    ensures t < s && Offset(order, t) <= pos < Offset(order, t + 1)
  {
    if pos >= Offset(order, s - 1) {
      t := s - 1;
    } else {
      t := SliceOf(order, s - 1, pos);
    }
  }

  lemma {:induction false} NthEdge(order: seq<Edge>, s: nat, n: nat, m: nat) returns (i: nat)
    requires m <= |order| && n < |Targets(order[..m], s)|
    ensures i < m && order[i].src == s && |Targets(order[..i], s)| == n
    decreases m
  {
    TargetsSnoc(order, m - 1, s);
    if order[m - 1].src == s && |Targets(order[..m - 1], s)| == n {
      i := m - 1;
    } else {
      i := NthEdge(order, s, n, m - 1);
    }
  }
}
