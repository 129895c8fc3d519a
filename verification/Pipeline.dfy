/** From an edge list to breadth-first levels, end to end. */
module Pipeline {
  import opened Csr
  import opened Ingest
  import opened Distances
  import opened Bitmap
  import opened Bfs

  ghost function ArcsOf(es: seq<Edge>): set<Edge> { set e | e in es }

  lemma SliceWellPlaced(es: seq<Edge>, maxId: nat, index: seq<nat>, edges: seq<nat>, s: nat)
    requires Represents(es, maxId, index, edges) && s <= maxId
    ensures HasSlice(Graph(index, edges), s)
  {
    assert SliceHolds(index, edges, s, Targets(es, s));
  }

  lemma SlotOfTarget(index: seq<nat>, edges: seq<nat>, s: nat, ts: seq<nat>, t: nat) returns (i: nat)
    requires SliceHolds(index, edges, s, ts) && t in ts
    ensures index[s] <= i < index[s + 1] && edges[i] == t
  {
    var slice := edges[index[s]..index[s + 1]];
    assert t in multiset(ts);
    assert t in multiset(slice);
    var k :| 0 <= k < |slice| && slice[k] == t;
    i := index[s] + k;
  }

  lemma TargetOfSlot(index: seq<nat>, edges: seq<nat>, s: nat, ts: seq<nat>, i: nat)
    requires SliceHolds(index, edges, s, ts) && index[s] <= i < index[s + 1]
    ensures edges[i] in ts
  {
    var slice := edges[index[s]..index[s + 1]];
    assert slice[i - index[s]] == edges[i];
    assert edges[i] in multiset(slice);
    assert edges[i] in multiset(ts);
  }

  /** A slot of the slice of `s` holds an arc that leaves `s` ... */
  lemma SlotIsArc(es: seq<Edge>, maxId: nat, g: Graph, s: nat, i: nat)
    requires Represents(es, maxId, g.index, g.edges) && IsSlot(g, s, i)
    ensures s <= maxId && Edge(s, g.edges[i]) in es
  {
    TargetOfSlot(g.index, g.edges, s, Targets(es, s), i);
    TargetsMember(es, s, g.edges[i]);
  }

  /** ... and every arc has a slot. */
  lemma ArcHasSlot(es: seq<Edge>, maxId: nat, g: Graph, e: Edge) returns (i: nat)
    requires Represents(es, maxId, g.index, g.edges) && e.src <= maxId && e in es
    ensures IsSlot(g, e.src, i) && g.edges[i] == e.trg
  {
    TargetsMember(es, e.src, e.trg);
    i := SlotOfTarget(g.index, g.edges, e.src, Targets(es, e.src), e.trg);
  }

  lemma SameArcs(es: seq<Edge>, maxId: nat, g: Graph)
    requires Represents(es, maxId, g.index, g.edges) && Bounded(es, maxId)
    ensures Arcs(g) == ArcsOf(es)
  {
    forall e | e in Arcs(g) ensures e in es {
      var s, i :| 0 <= s < |g.index| && 0 <= i < |g.edges| && IsSlot(g, s, i) && e == Edge(s, g.edges[i]);
      SlotIsArc(es, maxId, g, s, i);
    }
    forall e | e in es ensures e in Arcs(g) {
      var k :| 0 <= k < |es| && es[k] == e;
      var i := ArcHasSlot(es, maxId, g, e);
    }
  }

  /** Each slot lies in some slice, so each stored target is a vertex. */
  lemma {:induction false} SlotHasSource(g: Graph, s: nat, i: nat) returns (t: nat)
    requires s < |g.index| && g.index[0] <= i < g.index[s] && i < |g.edges|
    ensures IsSlot(g, t, i)
  {
    if g.index[s - 1] <= i {
      t := s - 1;
    } else {
      t := SlotHasSource(g, s - 1, i);
    }
  }

  lemma RepresentationIsWellFormed(es: seq<Edge>, maxId: nat, g: Graph)
    requires Represents(es, maxId, g.index, g.edges) && Bounded(es, maxId)
    ensures WellFormed(g, maxId + 1)
  {
    forall s | 0 <= s < maxId + 1 ensures HasSlice(g, s) {
      SliceWellPlaced(es, maxId, g.index, g.edges, s);
    }
    forall i | 0 <= i < |g.edges| ensures g.edges[i] < maxId + 1 {
      var s := SlotHasSource(g, maxId + 1, i);
      SlotIsArc(es, maxId, g, s, i);
      var e := Edge(s, g.edges[i]);
      var k :| 0 <= k < |es| && es[k] == e;
    }
  }

  /** The first vertex with a slice is the smallest source. */
  lemma RootIsSmallestSource(es: seq<Edge>, g: Graph, root: nat)
    requires Arcs(g) == ArcsOf(es) && root + 1 < |g.index|
    requires forall s :: 0 <= s < root ==> g.index[s] == g.index[s + 1]
    ensures forall e :: e in es ==> root <= e.src
  {
    forall e | e in es ensures root <= e.src {
      assert e in Arcs(g);
    }
  }

  /** The whole pipeline.  A root is found iff there is an edge, and it is the smallest
      source.  The levels are the distances in the given edge list iff no vertex is at
      distance 65535; the largest distance is returned with them. */
  method SearchEdgeList(es: seq<Edge>, order: seq<Edge>)
    returns (found: bool, root: nat, levels: seq<Level>, maxLevel: Level)
    requires multiset(order) == multiset(es)
    ensures found <==> es != []
    ensures found ==> forall e :: e in es ==> root <= e.src < |levels| && e.trg < |levels|
    ensures found ==> exists e :: e in es && e.src == root
    ensures found ==> (LevelsAreDistances(ArcsOf(es), root, levels) <==> NoneAt(ArcsOf(es), root, INF))
    ensures found && NoneAt(ArcsOf(es), root, INF) ==> Answer(ArcsOf(es), root, levels, maxLevel)
  {
    var maxId, numEdges := CheckEdgeList(es);
    var index, edges := IngestEdges(es, order, maxId);
    var n, g := maxId + 1, Graph(index, edges);
    SameArcs(es, maxId, g);
    RepresentationIsWellFormed(es, maxId, g);
    var level, filter := new Level[n], new Word[BitmapSize(n)];
    InitBfs(n, level, filter);
    found, root := FindRoot(n, g, level);
    if !found {
      EmptyArcs(es);
      return false, 0, [], 0;
    }
    RootIsSmallestSource(es, g, root);
    RootHasArc(es, g, root);
    maxLevel := RunBfs(n, g, level, filter, root);
    levels := level[..];
    forall e | e in es ensures e.src < n && e.trg < n {
      var k :| 0 <= k < |es| && es[k] == e;
    }
  }

  lemma EmptyArcs(es: seq<Edge>)
    ensures ArcsOf(es) == {} <==> es == []
  {
    if es != [] {
      assert es[0] in ArcsOf(es);
    }
  }

  lemma RootHasArc(es: seq<Edge>, g: Graph, root: nat)
    requires Arcs(g) == ArcsOf(es) && HasSlice(g, root) && g.index[root] < g.index[root + 1]
    ensures exists e :: e in es && e.src == root
  {
    assert IsSlot(g, root, g.index[root]);
    assert Edge(root, g.edges[g.index[root]]) in Arcs(g);
  }

  // ----- the level counter does wrap -----

  /** The path 0 -> 1 -> ... -> n. */
  function PathOf(n: nat): seq<Edge> { seq(n, (i: nat) => Edge(i, i + 1)) }

  lemma {:induction false} PathWalks(n: nat, v: nat, k: nat)
    requires v <= n
    ensures Walk(ArcsOf(PathOf(n)), 0, v, k) <==> k == v
    decreases k
  {
    var arcs := ArcsOf(PathOf(n));
    if k > 0 {
      if v > 0 {
        assert PathOf(n)[v - 1] == Edge(v - 1, v);
        PathWalks(n, v - 1, k - 1);
      }
      assert forall u: nat :: Edge(u, v) in arcs ==> u + 1 == v;
    }
  }

  /** A path one vertex longer than the largest 16-bit number: the last vertex is at
      distance 65535, so the search reports it as unreachable. */
  lemma LongPathWraps()
    ensures INF == 65535 && !NoneAt(ArcsOf(PathOf(INF)), 0, INF)
  {
    PathEnd(INF);
  }

  lemma PathEnd(n: nat)
    ensures IsDistance(ArcsOf(PathOf(n)), 0, n, n)
  {
    forall k: nat ensures Walk(ArcsOf(PathOf(n)), 0, n, k) <==> k == n {
      PathWalks(n, n, k);
    }
  }
}
