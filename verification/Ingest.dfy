/** The passes of the edge-list ingestion, in place on the index array.  The files are
    read in parallel, so the counting pass and the scattering pass can each see the edges
    in any order: the two orders are parameters. */
module Ingest {
  import opened Csr

  /** The largest vertex id and the number of edges. */
  method CheckEdgeList(es: seq<Edge>) returns (maxId: nat, numEdges: nat)
    ensures Bounded(es, maxId) && numEdges == |es|
    ensures maxId == 0 || exists i :: 0 <= i < |es| && (es[i].src == maxId || es[i].trg == maxId)
  {
    maxId, numEdges := 0, 0;
    for i := 0 to |es|
      invariant numEdges == i
      invariant forall j :: 0 <= j < i ==> es[j].src <= maxId && es[j].trg <= maxId
      invariant maxId == 0 || exists j :: 0 <= j < i && (es[j].src == maxId || es[j].trg == maxId)
    {
      if maxId < es[i].src { maxId := es[i].src; }
      if maxId < es[i].trg { maxId := es[i].trg; }
      numEdges := numEdges + 1;
    }
  }

  method CountDegrees(index: array<nat>, es: seq<Edge>, maxId: nat)
    requires index.Length == maxId + 2 && Bounded(es, maxId)
    modifies index
    ensures forall s :: 0 <= s <= maxId ==> index[s] == |Targets(es, s)|
  {
    for i := 0 to index.Length
      invariant forall s :: 0 <= s < i ==> index[s] == 0
    {
      index[i] := 0;
    }
    for i := 0 to |es|
      invariant forall s :: 0 <= s <= maxId ==> index[s] == |Targets(es[..i], s)|
    {
      var source := es[i].src;
      forall s | 0 <= s <= maxId
        ensures |Targets(es[..i + 1], s)| == |Targets(es[..i], s)| + if s == source then 1 else 0
      {
        TargetsSnoc(es, i, s);
      }
      index[source] := index[source] + 1;
    }
    assert es[..|es|] == es;
  }

  /** Move every count one place up, from the top down. */
  method ShiftCounts(index: array<nat>)
    requires index.Length >= 2
    modifies index
    ensures index[0] == 0
    ensures forall i :: 1 <= i < index.Length ==> index[i] == old(index[i - 1])
  {
    var i := index.Length - 1;
    while i > 0
      invariant 0 <= i < index.Length
      invariant forall j :: i < j < index.Length ==> index[j] == old(index[j - 1])
      invariant forall j :: 0 <= j <= i ==> index[j] == old(index[j])
    {
      index[i] := index[i - 1];
      i := i - 1;
    }
    index[0] := 0;
  }

  /** `off` is the running sum of `deg`. */
  ghost predicate RunningSum(deg: seq<nat>, off: seq<nat>) {
    |off| == |deg| + 1 && off[0] == 0 && forall i :: 0 <= i < |deg| ==> off[i + 1] == off[i] + deg[i]
  }

  method SumCounts(index: array<nat>, ghost deg: seq<nat>, ghost off: seq<nat>)
    requires RunningSum(deg, off) && index.Length == |off| && index[0] == 0
    requires forall i :: 1 <= i < index.Length ==> index[i] == deg[i - 1]
    modifies index
    ensures index[..] == off
  {
    for i := 0 to index.Length - 1
      invariant forall s :: 0 <= s <= i ==> index[s] == off[s]
      invariant forall j :: i < j < index.Length ==> index[j] == deg[j - 1]
    {
      index[i + 1] := index[i + 1] + index[i];
    }
  }

  ghost function Degrees(es: seq<Edge>, n: nat): seq<nat> { seq(n, (s: nat) => |Targets(es, s)|) }
  ghost function Offsets(es: seq<Edge>, n: nat): seq<nat> { seq(n, (s: nat) => Offset(es, s)) }

  lemma OffsetsAreSums(es: seq<Edge>, n: nat)
    ensures RunningSum(Degrees(es, n), Offsets(es, n + 1))
  {
    forall i | 0 <= i < n ensures Offsets(es, n + 1)[i + 1] == Offsets(es, n + 1)[i] + Degrees(es, n)[i] {
      assert Offset(es, i + 1) == Offset(es, i) + |Targets(es, i)|;
    }
  }

  /** What the first `i` edges of the scatter pass have written. */
  ghost predicate Filled(order: seq<Edge>, i: nat, edges: seq<nat>)
    requires i <= |order|
  {
    |edges| == |order| && forall j :: 0 <= j < i ==> Slot(order, j) < |edges| && edges[Slot(order, j)] == order[j].trg
  }

  method Scatter(index: array<nat>, edges: array<nat>, order: seq<Edge>, maxId: nat)
    requires index != edges && index.Length == maxId + 2 && edges.Length == |order| && Bounded(order, maxId)
    requires forall s :: 0 <= s < index.Length ==> index[s] == Offset(order, s)
    modifies index, edges
    ensures Filled(order, |order|, edges[..])
  {
    for i := 0 to |order|
      invariant Advanced(order, i, maxId, index[..]) && Filled(order, i, edges[..])
    {
      var source := order[i].src;
      var pos := index[source];
      SlotInRange(order, i, maxId);
      AdvanceMore(order, i, maxId, index[..]);
      FillMore(order, i, maxId, edges[..]);
      ghost var index', edges' := index[..][source := index[source] + 1], edges[..][pos := order[i].trg];
      index[source] := index[source] + 1;
      assert index[..] == index';
      edges[pos] := order[i].trg;
      assert edges[..] == edges';
    }
  }

  /** Each index entry is past the slots its vertex has used so far. */
  ghost predicate Advanced(order: seq<Edge>, i: nat, maxId: nat, index: seq<nat>)
    requires i <= |order|
  {
    |index| == maxId + 2 && forall s :: 0 <= s <= maxId ==> index[s] == Offset(order, s) + |Targets(order[..i], s)|
  }

  lemma AdvanceMore(order: seq<Edge>, i: nat, maxId: nat, index: seq<nat>)
    requires i < |order| && order[i].src <= maxId && Advanced(order, i, maxId, index)
    ensures index[order[i].src] == Slot(order, i)
    ensures Advanced(order, i + 1, maxId, index[order[i].src := index[order[i].src] + 1])
  {
    forall s | 0 <= s <= maxId
      ensures |Targets(order[..i + 1], s)| == |Targets(order[..i], s)| + if s == order[i].src then 1 else 0
    {
      TargetsSnoc(order, i, s);
    }
  }

  lemma FillMore(order: seq<Edge>, i: nat, maxId: nat, edges: seq<nat>)
    requires i < |order| && Bounded(order, maxId) && Filled(order, i, edges)
    ensures Slot(order, i) < |edges| && Filled(order, i + 1, edges[Slot(order, i) := order[i].trg])
  {
    SlotInRange(order, i, maxId);
    forall j | 0 <= j < i ensures Slot(order, j) != Slot(order, i) {
      SlotsAreDistinct(order, j, i);
    }
  }

  lemma SlotInRange(order: seq<Edge>, i: nat, maxId: nat)
    requires i < |order| && Bounded(order, maxId)
    ensures Slot(order, i) < |order|
  {
    SlotInSlice(order, i);
    OffsetMonotone(order, order[i].src + 1, maxId + 1);
    OffsetTotal(order, maxId);
  }

  lemma FilledAt(order: seq<Edge>, edges: seq<nat>, s: nat, n: nat)
    requires Filled(order, |order|, edges) && n < |Targets(order, s)|
    ensures Offset(order, s) + n < |edges| && edges[Offset(order, s) + n] == Targets(order, s)[n]
  {
    assert order[..|order|] == order;
    var i := NthEdge(order, s, n, |order|);
    NthTarget(order, s, i);
    assert Slot(order, i) == Offset(order, s) + n;
  }

  /** A filled edge array holds, in the slice of each vertex, the targets of the edges
      that leave it, in processing order. */
  lemma FilledSlice(order: seq<Edge>, edges: seq<nat>, s: nat, lo: nat, hi: nat)
    requires Filled(order, |order|, edges)
    requires lo == Offset(order, s) && hi == lo + |Targets(order, s)| && hi <= |edges|
    ensures edges[lo..hi] == Targets(order, s)
  {
    var ts := Targets(order, s);
    forall n | 0 <= n < |ts| ensures edges[lo + n] == ts[n] {
      FilledAt(order, edges, s, n);
    }
    SliceIs(edges, lo, ts);
  }

  lemma SliceIs(edges: seq<nat>, lo: nat, ts: seq<nat>)
    requires lo + |ts| <= |edges| && forall n :: 0 <= n < |ts| ==> edges[lo + n] == ts[n]
    ensures edges[lo..lo + |ts|] == ts
  {
  }

  lemma NthTarget(order: seq<Edge>, s: nat, i: nat)
    requires i < |order| && order[i].src == s
    ensures |Targets(order[..i], s)| < |Targets(order, s)|
    ensures Targets(order, s)[|Targets(order[..i], s)|] == order[i].trg
  {
    TargetsSnoc(order, i, s);
    TargetsPrefix(order, i + 1, |order|, s);
    assert order[..|order|] == order;
  }

  /** The slice of `s` is well placed and holds the given targets. */
  ghost predicate SliceHolds(index: seq<nat>, edges: seq<nat>, s: nat, ts: seq<nat>) {
    && s + 1 < |index| && index[s] <= index[s + 1] <= |edges|
    && multiset(edges[index[s]..index[s + 1]]) == multiset(ts)
  }

  /** The adjacency structure represents the edge list. */
  ghost predicate Represents(es: seq<Edge>, maxId: nat, index: seq<nat>, edges: seq<nat>) {
    && |index| == maxId + 2 && |edges| == |es| && index[0] == 0 && index[maxId + 1] == |edges|
    && (forall s :: 0 <= s <= maxId ==> SliceHolds(index, edges, s, Targets(es, s)))
  }

  /** The slice of `s` has `t` as often as the edge list has the edge from `s` to `t`. */
  ghost predicate ListsEachEdge(es: seq<Edge>, maxId: nat, index: seq<nat>, edges: seq<nat>) {
    |index| == maxId + 2 && forall s: nat, t: nat :: s <= maxId ==> ListsEdge(es, index, edges, s, t)
  }

  ghost predicate ListsEdge(es: seq<Edge>, index: seq<nat>, edges: seq<nat>, s: nat, t: nat)
    requires s + 1 < |index|
  {
    index[s] <= index[s + 1] <= |edges| && multiset(edges[index[s]..index[s + 1]])[t] == multiset(es)[Edge(s, t)]
  }

  lemma EachEdgeListed(es: seq<Edge>, maxId: nat, index: seq<nat>, edges: seq<nat>)
    requires Represents(es, maxId, index, edges)
    ensures ListsEachEdge(es, maxId, index, edges)
  {
    forall s: nat, t: nat | s <= maxId ensures ListsEdge(es, index, edges, s, t) {
      assert SliceHolds(index, edges, s, Targets(es, s));
      TargetsCount(es, s, t);
    }
  }

  lemma BuildsSlice(es: seq<Edge>, order: seq<Edge>, maxId: nat, index: seq<nat>, edges: seq<nat>, s: nat)
    requires multiset(order) == multiset(es) && Bounded(order, maxId) && s <= maxId
    requires index == Offsets(es, maxId + 2) && Filled(order, |order|, edges)
    ensures SliceHolds(index, edges, s, Targets(es, s))
  {
    SliceEnds(es, order, maxId, s);
    SliceOf(order, edges, s, Offset(es, s), Offset(es, s + 1));
    TargetsOrder(order, es, s);
    OffsetsAt(es, maxId + 2, s, index);
  }

  lemma OffsetsAt(es: seq<Edge>, n: nat, s: nat, index: seq<nat>)
    requires index == Offsets(es, n) && s + 1 < n
    ensures |index| == n && index[s] == Offset(es, s) && index[s + 1] == Offset(es, s + 1)
  {
  }

  lemma SliceOf(order: seq<Edge>, edges: seq<nat>, s: nat, lo: nat, hi: nat)
    requires Filled(order, |order|, edges)
    requires lo == Offset(order, s) && hi == lo + |Targets(order, s)| && hi <= |edges|
    ensures multiset(edges[lo..hi]) == multiset(Targets(order, s))
  {
    FilledSlice(order, edges, s, lo, hi);
  }

  lemma SliceEnds(es: seq<Edge>, order: seq<Edge>, maxId: nat, s: nat)
    requires multiset(order) == multiset(es) && Bounded(order, maxId) && s <= maxId
    ensures Offset(es, s) == Offset(order, s)
    ensures Offset(es, s + 1) == Offset(order, s) + |Targets(order, s)| <= |order|
  {
    OffsetOrder(order, es, s);
    OffsetOrder(order, es, s + 1);
    OffsetMonotone(order, s + 1, maxId + 1);
    OffsetTotal(order, maxId);
  }

  lemma BuildsRepresentation(es: seq<Edge>, order: seq<Edge>, maxId: nat, index: seq<nat>, edges: seq<nat>)
    requires multiset(order) == multiset(es) && Bounded(order, maxId)
    requires index == Offsets(es, maxId + 2) && Filled(order, |order|, edges)
    ensures Represents(es, maxId, index, edges)
  {
    assert |multiset(order)| == |order| && |multiset(es)| == |es|;
    OffsetOrder(order, es, maxId + 1);
    OffsetTotal(order, maxId);
    forall s: nat | s <= maxId ensures SliceHolds(index, edges, s, Targets(es, s)) {
      BuildsSlice(es, order, maxId, index, edges, s);
    }
  }

  lemma BoundedOrder(es: seq<Edge>, order: seq<Edge>, maxId: nat)
    requires multiset(order) == multiset(es) && Bounded(es, maxId)
    ensures Bounded(order, maxId)
  {
    forall i | 0 <= i < |order| ensures order[i].src <= maxId && order[i].trg <= maxId {
      assert order[i] in multiset(es);
      var j :| 0 <= j < |es| && es[j] == order[i];
    }
  }

  /** The whole ingestion: whatever the order in which the second reading of the files
      delivers the edges, the slice of each vertex is, as a multiset, the targets of the
      edges that leave it. */
  method IngestEdges(es: seq<Edge>, order: seq<Edge>, maxId: nat) returns (indexMap: seq<nat>, edgesMap: seq<nat>)
    requires Bounded(es, maxId) && multiset(order) == multiset(es)
    ensures Represents(es, maxId, indexMap, edgesMap)
    ensures ListsEachEdge(es, maxId, indexMap, edgesMap)
  {
    var index := new nat[maxId + 2];
    CountDegrees(index, es, maxId);
    ShiftCounts(index);
    OffsetsAreSums(es, maxId + 1);
    SumCounts(index, Degrees(es, maxId + 1), Offsets(es, maxId + 2));
    indexMap := index[..];
    assert |multiset(order)| == |order| && |multiset(es)| == |es|;
    var edges := new nat[|es|];
    BoundedOrder(es, order, maxId);
    forall s | 0 <= s < index.Length ensures index[s] == Offset(order, s) {
      OffsetOrder(order, es, s);
    }
    Scatter(index, edges, order, maxId);
    edgesMap := edges[..];
    BuildsRepresentation(es, order, maxId, indexMap, edgesMap);
    EachEdgeListed(es, maxId, indexMap, edgesMap);
  }
}
