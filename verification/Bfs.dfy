/** Level-synchronous breadth-first search with 16-bit levels and a visited filter. */
module Bfs {
  import opened Csr
  import opened Distances
  import opened Bitmap

  const INF := 65535
  type Level = x: int | 0 <= x <= INF

  /** `++current_level` and `current_level + 1` stored in 16 bits. */
  function Succ(c: Level): Level { (c + 1) % (INF + 1) }

  /** The slice of `s` is `edges[index[s]..index[s + 1]]`. */
  datatype Graph = Graph(index: seq<nat>, edges: seq<nat>)

  predicate IsSlot(g: Graph, s: nat, i: nat) {
    s + 1 < |g.index| && g.index[s] <= i < g.index[s + 1] && i < |g.edges|
  }

  predicate HasSlice(g: Graph, s: nat) {
    s + 1 < |g.index| && g.index[s] <= g.index[s + 1] <= |g.edges|
  }

  predicate WellFormed(g: Graph, n: nat) {
    && |g.index| == n + 1
    && (forall s :: 0 <= s < n ==> HasSlice(g, s))
    && (forall i :: 0 <= i < |g.edges| ==> g.edges[i] < n)
  }

  ghost function Arcs(g: Graph): set<Edge> {
    set s, i | 0 <= s < |g.index| && 0 <= i < |g.edges| && IsSlot(g, s, i) :: Edge(s, g.edges[i])
  }

  /** A finite level is the distance from the root; the infinite level means unreachable. */
  ghost predicate LevelsAreDistances(arcs: set<Edge>, r: nat, level: seq<Level>) {
    forall v :: 0 <= v < |level| ==>
      if level[v] == INF then !Reachable(arcs, r, v) else IsDistance(arcs, r, v, level[v])
  }

  // ----- initialisation -----

  method InitBfs(n: nat, level: array<Level>, filter: array<Word>)
    requires level.Length == n && filter.Length == BitmapSize(n) && (level as object) != filter
    modifies level, filter
    ensures forall v :: 0 <= v < n ==> level[v] == INF
    ensures Shows(filter[..], n, {})
  {
    for i := 0 to n
      invariant forall v :: 0 <= v < i ==> level[v] == INF
    {
      level[i] := INF;
    }
    for i := 0 to BitmapSize(n)
      invariant forall v :: 0 <= v < n ==> level[v] == INF
      invariant forall j :: 0 <= j < i ==> filter[j] == 0
    {
      filter[i] := 0;
    }
    ZeroShowsNothing(filter[..], n);
  }

  /** The root is the first vertex with an outgoing arc; there may be none. */
  method FindRoot(n: nat, g: Graph, level: array<Level>) returns (found: bool, root: nat)
    requires WellFormed(g, n) && level.Length == n
    modifies level
    ensures found ==> root < n && g.index[root] < g.index[root + 1]
    ensures found ==> level[..] == old(level[..])[root := 0]
    ensures found ==> forall s :: 0 <= s < root ==> g.index[s] == g.index[s + 1]
    ensures !found ==> level[..] == old(level[..]) && Arcs(g) == {}
  {
    for src := 0 to n
      invariant level[..] == old(level[..])
      invariant forall s :: 0 <= s < src ==> g.index[s] == g.index[s + 1]
    {
      assert HasSlice(g, src);
      if g.index[src + 1] - g.index[src] > 0 {
        level[src] := 0;
        return true, src;
      }
    }
    return false, 0;
  }

  // ----- the invariant of a pass -----

  /** The levels in the middle of the pass over level `c`: everything up to `c` is known,
      `c + 1` is being discovered. */
  ghost predicate Pass(arcs: set<Edge>, r: nat, c: nat, level: seq<Level>) {
    && (forall v :: 0 <= v < |level| && level[v] != INF ==> level[v] <= c + 1 && IsDistance(arcs, r, v, level[v]))
    && (forall v, k: nat :: 0 <= v < |level| && k <= c && IsDistance(arcs, r, v, k) ==> level[v] == k)
  }

  /** The bits never hide an unvisited vertex. */
  ghost predicate Marked(level: seq<Level>, bits: set<nat>) {
    forall v :: 0 <= v < |level| ==> (v in bits ==> level[v] != INF)
  }

  /** A vertex at distance 65535 has been given the level that also means unvisited. */
  ghost predicate Poisoned(arcs: set<Edge>, r: nat, level: seq<Level>, bits: set<nat>) {
    exists v :: 0 <= v < |level| && v in bits && level[v] == INF && IsDistance(arcs, r, v, INF)
  }

  /** The targets of all vertices at level `c` have been visited. */
  ghost predicate Explored(arcs: set<Edge>, c: nat, level: seq<Level>)
    requires Inside(arcs, |level|)
  {
    forall e :: e in arcs && level[e.src] == c ==> level[e.trg] != INF
  }

  /** An unvisited target of a vertex at distance `c` is at distance `c + 1`. */
  lemma TargetDistance(arcs: set<Edge>, r: nat, c: nat, level: seq<Level>, u: nat, t: nat)
    requires Pass(arcs, r, c, level) && c < INF && u < |level| && t < |level|
    requires level[u] == c && Edge(u, t) in arcs && level[t] == INF
    ensures IsDistance(arcs, r, t, c + 1)
  {
    Extend(arcs, r, u, t, c);
    var d := LeastWalk(arcs, r, t, c + 1);
  }

  /** Writing the next level to such a target keeps the invariant, provided the level
      number is still distinguishable from the infinite one. */
  lemma WriteKeepsPass(arcs: set<Edge>, r: nat, c: nat, level: seq<Level>, t: nat)
    requires Pass(arcs, r, c, level) && c + 1 < INF && t < |level|
    requires IsDistance(arcs, r, t, c + 1)
    ensures Pass(arcs, r, c, level[t := c + 1])
  {
  }

  /** When every slot of level `c` has been looked at, level `c + 1` is complete. */
  lemma Advance(arcs: set<Edge>, r: nat, c: nat, level: seq<Level>, v: nat)
    requires Pass(arcs, r, c, level) && c < INF && v < |level| && IsDistance(arcs, r, v, c + 1)
    requires Inside(arcs, |level|)
    requires Explored(arcs, c, level)
    ensures level[v] == c + 1 && c + 1 != INF
  {
    var u := Predecessor(arcs, r, v, c);
    assert level[u] == c;
    assert level[v] != INF;
    assert Walk(arcs, r, v, level[v]);
  }

  /** A complete pass that found nothing leaves the exact answer. */
  lemma Finish(arcs: set<Edge>, r: nat, c: nat, level: seq<Level>)
    requires Pass(arcs, r, c, level) && c < INF && r < |level|
    requires Inside(arcs, |level|)
    requires Explored(arcs, c, level)
    requires forall v :: 0 <= v < |level| && level[v] != INF ==> level[v] <= c
    ensures NoneAt(arcs, r, c + 1)
    ensures forall v: nat, d: nat :: IsDistance(arcs, r, v, d) ==> d <= c
    ensures LevelsAreDistances(arcs, r, level)
  {
    var d := c + 1;
    if v: nat :| IsDistance(arcs, r, v, d) {
      VertexInRange(arcs, r, |level|, v, c + 1);
      Advance(arcs, r, c, level, v);
    }
    forall v: nat, d: nat | IsDistance(arcs, r, v, d) ensures d <= c {
      NothingBeyond(arcs, r, v, c + 1, d);
    }
    forall v: nat | v < |level| && level[v] == INF ensures !Reachable(arcs, r, v) {
      if k: nat :| Walk(arcs, r, v, k) {
        NothingBeyond(arcs, r, v, c + 1, k);
      }
    }
  }

  // ----- the search -----

  /** A pass over level `c` that has gone right up to slot `i` of vertex `s`. */
  ghost predicate Right(g: Graph, r: nat, c: nat, level: seq<Level>, bits: set<nat>, found: bool, s: nat, i: nat) {
    && c < INF && Pass(Arcs(g), r, c, level) && Marked(level, bits)
    && (found ==> c + 1 < INF && !NoneAt(Arcs(g), r, c + 1))
    && (!found ==> AllUpTo(level, c))
    && Scanned(g, c, level, s, i)
  }

  /** Either the pass has gone right so far or the 16-bit level has wrapped around. */
  ghost predicate Going(g: Graph, r: nat, c: nat, level: seq<Level>, bits: set<nat>, found: bool, s: nat, i: nat) {
    Poisoned(Arcs(g), r, level, bits) || Right(g, r, c, level, bits, found, s, i)
  }

  ghost predicate AllUpTo(level: seq<Level>, c: nat) {
    forall v :: 0 <= v < |level| && level[v] != INF ==> level[v] <= c
  }

  /** The slots before slot `i` of vertex `s` have been looked at. */
  ghost predicate Scanned(g: Graph, c: nat, level: seq<Level>, s: nat, i: nat) {
    forall u: nat, j: nat :: IsSlot(g, u, j) && (u < s || (u == s && j < i)) ==> Settled(g, c, level, u, j)
  }

  ghost predicate Settled(g: Graph, c: nat, level: seq<Level>, u: nat, j: nat) {
    j < |g.edges| && u < |level| && g.edges[j] < |level| && (level[u] == c ==> level[g.edges[j]] != INF)
  }

  /** The state of the inner loop while it scans the slice of `s`. */
  ghost predicate Scanning(g: Graph, n: nat, r: nat, c: Level, level: seq<Level>, bits: set<nat>, found: bool,
                           s: nat, i: nat) {
    && WellFormed(g, n) && |level| == n
    && Going(g, r, c, level, bits, found, s, i)
    && s < n && (Poisoned(Arcs(g), r, level, bits) || level[s] == c)
  }

  lemma ScannedWrite(g: Graph, c: nat, level: seq<Level>, s: nat, i: nat, t: nat)
    requires Scanned(g, c, level, s, i) && IsSlot(g, s, i) && g.edges[i] == t < |level| && s < |level|
    requires c + 1 < INF && level[s] == c && level[t] == INF
    ensures Scanned(g, c, level[t := c + 1], s, i + 1)
  {
    var level' := level[t := c + 1];
    forall u: nat, j: nat | IsSlot(g, u, j) && (u < s || (u == s && j < i + 1)) ensures Settled(g, c, level', u, j) {
      assert (u == s && j == i) || Settled(g, c, level, u, j);
    }
  }

  lemma PoisonedStays(arcs: set<Edge>, r: nat, level: seq<Level>, bits: set<nat>, t: nat, l: Level)
    requires Poisoned(arcs, r, level, bits) && t < |level| && t !in bits
    ensures Poisoned(arcs, r, level[t := l], bits + {t})
  {
    var v :| 0 <= v < |level| && v in bits && level[v] == INF && IsDistance(arcs, r, v, INF);
    assert level[t := l][v] == INF;
  }

  lemma MarkedWrite(level: seq<Level>, bits: set<nat>, t: nat, l: Level)
    requires Marked(level, bits) && t < |level| && t !in bits && l != INF
    ensures Marked(level[t := l], bits + {t})
  {
  }

  /** Relaxing an unvisited target keeps the invariant; at level 65534 it poisons it. */
  lemma Relax(g: Graph, n: nat, r: nat, c: Level, level: seq<Level>, bits: set<nat>, found: bool, s: nat, i: nat,
              t: nat)
    requires Scanning(g, n, r, c, level, bits, found, s, i)
    requires IsSlot(g, s, i) && g.edges[i] == t && t < n && t !in bits && level[t] == INF
    ensures Scanning(g, n, r, c, level[t := Succ(c)], bits + {t}, true, s, i + 1)
  {
    if Poisoned(Arcs(g), r, level, bits) {
      PoisonedStays(Arcs(g), r, level, bits, t, Succ(c));
    } else {
      assert Edge(s, t) in Arcs(g);
      RelaxRight(g, r, c, level, bits, found, s, i, t);
    }
  }

  lemma RelaxRight(g: Graph, r: nat, c: Level, level: seq<Level>, bits: set<nat>, found: bool, s: nat, i: nat, t: nat)
    requires Right(g, r, c, level, bits, found, s, i) && IsSlot(g, s, i) && g.edges[i] == t && Edge(s, t) in Arcs(g)
    requires s < |level| && t < |level| && level[s] == c && t !in bits && level[t] == INF
    ensures Going(g, r, c, level[t := Succ(c)], bits + {t}, true, s, i + 1)
  {
    TargetDistance(Arcs(g), r, c, level, s, t);
    if c + 1 == INF {
      RelaxLast(g, r, c, level, bits, s, i, t);
    } else {
      RelaxBelow(g, r, c, level, bits, s, i, t);
    }
    OneUp(c);
  }

  lemma OneUp(c: Level)
    requires c < INF
    ensures Succ(c) == c + 1
  {
  }

  lemma RelaxLast(g: Graph, r: nat, c: nat, level: seq<Level>, bits: set<nat>, s: nat, i: nat, t: nat)
    requires c + 1 == INF && t < |level| && IsDistance(Arcs(g), r, t, c + 1)
    ensures Going(g, r, c, level[t := c + 1], bits + {t}, true, s, i + 1)
  {
    Poisons(Arcs(g), r, level, bits, t, c + 1);
  }

  lemma Poisons(arcs: set<Edge>, r: nat, level: seq<Level>, bits: set<nat>, t: nat, d: nat)
    requires t < |level| && d == INF && IsDistance(arcs, r, t, d)
    ensures Poisoned(arcs, r, level[t := INF], bits + {t})
  {
    assert level[t := INF][t] == INF;
  }

  lemma RelaxBelow(g: Graph, r: nat, c: nat, level: seq<Level>, bits: set<nat>, s: nat, i: nat, t: nat)
    requires c + 1 < INF && Pass(Arcs(g), r, c, level) && Marked(level, bits) && Scanned(g, c, level, s, i)
    requires IsSlot(g, s, i) && g.edges[i] == t && s < |level| && t < |level| && t !in bits
    requires level[s] == c && level[t] == INF && IsDistance(Arcs(g), r, t, c + 1)
    ensures Going(g, r, c, level[t := c + 1], bits + {t}, true, s, i + 1)
  {
    WriteKeepsPass(Arcs(g), r, c, level, t);
    ScannedWrite(g, c, level, s, i, t);
    MarkedWrite(level, bits, t, c + 1);
  }

  lemma Skip(g: Graph, n: nat, r: nat, c: Level, level: seq<Level>, bits: set<nat>, found: bool, s: nat, i: nat, t: nat)
    requires Scanning(g, n, r, c, level, bits, found, s, i)
    requires IsSlot(g, s, i) && g.edges[i] == t && t < n && (t in bits || level[t] != INF)
    ensures Scanning(g, n, r, c, level, bits, found, s, i + 1)
  {
    if !Poisoned(Arcs(g), r, level, bits) {
      forall u: nat, j: nat | IsSlot(g, u, j) && (u < s || (u == s && j < i + 1)) ensures Settled(g, c, level, u, j) {
        assert (u == s && j == i) || Settled(g, c, level, u, j);
      }
    }
  }

  /** The state of the outer loop: the slices of the vertices below `s` have been scanned. */
  ghost predicate Passing(g: Graph, n: nat, r: nat, c: Level, level: seq<Level>, bits: set<nat>, found: bool, s: nat) {
    && WellFormed(g, n) && |level| == n
    && Going(g, r, c, level, bits, found, s, 0)
  }

  lemma EnterVertex(g: Graph, n: nat, r: nat, c: Level, level: seq<Level>, bits: set<nat>, found: bool, s: nat)
    requires Passing(g, n, r, c, level, bits, found, s) && s < n && level[s] == c
    ensures Scanning(g, n, r, c, level, bits, found, s, g.index[s])
  {
    if !Poisoned(Arcs(g), r, level, bits) {
      assert forall u: nat, j: nat :: IsSlot(g, u, j) && (u < s || (u == s && j < g.index[s])) ==> u < s;
    }
  }

  /** Going on to the next vertex. */
  lemma NextVertex(g: Graph, n: nat, r: nat, c: Level, level: seq<Level>, bits: set<nat>, found: bool, s: nat, i: nat)
    requires WellFormed(g, n) && |level| == n && s < n
    requires Going(g, r, c, level, bits, found, s, i)
    requires level[s] != c || i == g.index[s + 1]
    ensures Passing(g, n, r, c, level, bits, found, s + 1)
  {
    if !Poisoned(Arcs(g), r, level, bits) {
      forall u: nat, j: nat | IsSlot(g, u, j) && u < s + 1 ensures Settled(g, c, level, u, j) {
        assert u == s || Settled(g, c, level, u, j);
      }
    }
  }

  /** At the start of a pass nothing has been scanned. */
  ghost predicate Ready(g: Graph, n: nat, r: nat, c: Level, level: seq<Level>, bits: set<nat>) {
    && Passing(g, n, r, c, level, bits, false, 0)
    && (Poisoned(Arcs(g), r, level, bits) || !NoneAt(Arcs(g), r, c))
  }

  lemma AllScanned(g: Graph, n: nat, c: nat, level: seq<Level>)
    requires WellFormed(g, n) && |level| == n && Scanned(g, c, level, n, 0)
    ensures Inside(Arcs(g), n) && Explored(Arcs(g), c, level)
  {
    forall e | e in Arcs(g) ensures e.src < n && e.trg < n && (level[e.src] == c ==> level[e.trg] != INF) {
      var s, i :| 0 <= s < |g.index| && 0 <= i < |g.edges| && IsSlot(g, s, i) && e == Edge(s, g.edges[i]);
      assert Settled(g, c, level, s, i);
    }
  }

  /** A pass that found something makes the next one ready. */
  lemma NextPass(g: Graph, n: nat, r: nat, c: Level, level: seq<Level>, bits: set<nat>)
    requires Passing(g, n, r, c, level, bits, true, n)
    ensures Ready(g, n, r, Succ(c), level, bits)
  {
    var arcs := Arcs(g);
    if !Poisoned(arcs, r, level, bits) {
      AllScanned(g, n, c, level);
      forall v: nat, k: nat | v < n && k <= c + 1 && IsDistance(arcs, r, v, k) ensures level[v] == k {
        if k == c + 1 {
          Advance(arcs, r, c, level, v);
        }
      }
    }
  }

  /** What a search from `r` must deliver: the levels are the distances and the returned
      number is the largest of them. */
  ghost predicate Answer(arcs: set<Edge>, r: nat, level: seq<Level>, maxLevel: nat) {
    && LevelsAreDistances(arcs, r, level)
    && !NoneAt(arcs, r, maxLevel)
    && (forall v: nat, d: nat :: IsDistance(arcs, r, v, d) ==> d <= maxLevel)
  }

  lemma PoisonedIsWrong(arcs: set<Edge>, r: nat, level: seq<Level>, bits: set<nat>)
    requires Poisoned(arcs, r, level, bits)
    ensures !LevelsAreDistances(arcs, r, level) && !NoneAt(arcs, r, INF)
  {
    var v :| 0 <= v < |level| && v in bits && level[v] == INF && IsDistance(arcs, r, v, INF);
    DistanceReaches(arcs, r, v, INF);
  }

  lemma ArcsInside(g: Graph, n: nat)
    requires WellFormed(g, n)
    ensures Inside(Arcs(g), n)
  {
  }

  /** No array of 16-bit levels can be right about a vertex at distance 65535: the number that
      would be its distance means unreachable. */
  lemma NoLevelsAreRight(arcs: set<Edge>, r: nat, level: seq<Level>)
    requires Inside(arcs, |level|) && r < |level| && !NoneAt(arcs, r, INF)
    ensures !LevelsAreDistances(arcs, r, level)
  {
    var v: nat :| IsDistance(arcs, r, v, INF);
    if LevelsAreDistances(arcs, r, level) {
      FarVertex(arcs, r, level, v, INF);
    }
  }

  lemma FarVertex(arcs: set<Edge>, r: nat, level: seq<Level>, v: nat, d: nat)
    requires Inside(arcs, |level|) && r < |level| && IsDistance(arcs, r, v, d) && LevelsAreDistances(arcs, r, level)
    ensures v < |level| && level[v] == d != INF
  {
    VertexInRange(arcs, r, |level|, v, d);
    DistanceReaches(arcs, r, v, d);
  }

  lemma NoneFar(arcs: set<Edge>, r: nat, c: nat, d: nat)
    requires (forall v: nat, e: nat :: IsDistance(arcs, r, v, e) ==> e <= c) && c < d
    ensures NoneAt(arcs, r, d)
  {
  }

  /** A pass that found nothing ends the search: the answer is right unless the level
      number has wrapped, and it has wrapped iff some vertex is at distance 65535. */
  lemma Conclude(g: Graph, n: nat, r: nat, c: Level, level: seq<Level>, bits: set<nat>)
    requires Passing(g, n, r, c, level, bits, false, n) && r < n
    requires Poisoned(Arcs(g), r, level, bits) || !NoneAt(Arcs(g), r, c)
    ensures LevelsAreDistances(Arcs(g), r, level) <==> NoneAt(Arcs(g), r, INF)
    ensures NoneAt(Arcs(g), r, INF) ==> Answer(Arcs(g), r, level, c)
  {
    var arcs := Arcs(g);
    if Poisoned(arcs, r, level, bits) {
      PoisonedIsWrong(arcs, r, level, bits);
    } else {
      AllScanned(g, n, c, level);
      Finish(arcs, r, c, level);
      NoneFar(arcs, r, c, INF);
    }
  }

  /** Look at one slot of the slice of `src`. */
  method VisitSlot(n: nat, g: Graph, level: array<Level>, filter: array<Word>, c: Level, src: nat, i: nat, found0: bool,
                   ghost r: nat, ghost bits0: set<nat>)
    returns (found: bool, ghost bits: set<nat>)
    requires IsSlot(g, src, i) && (level as object) != filter
    requires Scanning(g, n, r, c, level[..], bits0, found0, src, i) && Shows(filter[..], n, bits0)
    modifies level, filter
    ensures Scanning(g, n, r, c, level[..], bits, found, src, i + 1) && Shows(filter[..], n, bits)
    ensures found0 ==> found
    ensures bits0 <= bits && (found && !found0 ==> bits0 < bits)
  {
    found, bits := found0, bits0;
    var trg := g.edges[i];
    var seen := TestBit(filter, trg, n, bits);
    if !seen && level[trg] == INF {
      Relax(g, n, r, c, level[..], bits, found, src, i, trg);
      ghost var newLevel := level[..][trg := Succ(c)];
      level[trg] := Succ(c);
      assert level[..] == newLevel;
      SetBit(filter, trg, n, bits);
      bits, found := bits + {trg}, true;
    } else {
      Skip(g, n, r, c, level[..], bits, found, src, i, trg);
    }
  }

  /** Scan the slice of one vertex. */
  method ScanVertex(n: nat, g: Graph, level: array<Level>, filter: array<Word>, c: Level, src: nat, found0: bool,
                    ghost r: nat, ghost bits0: set<nat>)
    returns (found: bool, ghost bits: set<nat>)
    requires src < n && WellFormed(g, n) && (level as object) != filter
    requires Scanning(g, n, r, c, level[..], bits0, found0, src, g.index[src]) && Shows(filter[..], n, bits0)
    modifies level, filter
    ensures Passing(g, n, r, c, level[..], bits, found, src + 1) && Shows(filter[..], n, bits)
    ensures found0 ==> found
    ensures bits0 <= bits && (found && !found0 ==> bits0 < bits)
  {
    found, bits := found0, bits0;
    var i := g.index[src];
    assert HasSlice(g, src);
    while i < g.index[src + 1]
      invariant g.index[src] <= i <= g.index[src + 1]
      invariant Scanning(g, n, r, c, level[..], bits, found, src, i) && Shows(filter[..], n, bits)
      invariant found0 ==> found
      invariant bits0 <= bits && (found && !found0 ==> bits0 < bits)
    {
      assert IsSlot(g, src, i);
      found, bits := VisitSlot(n, g, level, filter, c, src, i, found, r, bits);
      i := i + 1;
    }
    NextVertex(g, n, r, c, level[..], bits, found, src, i);
  }

  /** One pass over all vertices. */
  method RunLevel(n: nat, g: Graph, level: array<Level>, filter: array<Word>, c: Level, ghost r: nat,
                  ghost bits0: set<nat>)
    returns (found: bool, ghost bits: set<nat>)
    requires Ready(g, n, r, c, level[..], bits0) && Shows(filter[..], n, bits0) && (level as object) != filter
    modifies level, filter
    ensures Passing(g, n, r, c, level[..], bits, found, n) && Shows(filter[..], n, bits)
    ensures bits0 <= bits && (found ==> bits0 < bits)
  {
    found, bits := false, bits0;
    for src := 0 to n
      invariant Passing(g, n, r, c, level[..], bits, found, src) && Shows(filter[..], n, bits)
      invariant bits0 <= bits && (found ==> bits0 < bits)
    {
      if level[src] != c {
        NextVertex(g, n, r, c, level[..], bits, found, src, 0);
      } else {
        EnterVertex(g, n, r, c, level[..], bits, found, src);
        found, bits := ScanVertex(n, g, level, filter, c, src, found, r, bits);
      }
    }
  }

  /** The search.  It always terminates, since every pass but the last sets a filter bit;
      its levels are the distances iff no vertex is at distance 65535, and then the
      returned level is the largest distance.  That it fails otherwise is a limit of the
      level type and not of the search: see NoLevelsAreRight. */
  method RunBfs(n: nat, g: Graph, level: array<Level>, filter: array<Word>, ghost r: nat) returns (maxLevel: Level)
    requires WellFormed(g, n) && r < n && level.Length == n && (level as object) != filter
    requires forall v :: 0 <= v < n ==> level[v] == (if v == r then 0 else INF)
    requires Shows(filter[..], n, {})
    modifies level, filter
    ensures LevelsAreDistances(Arcs(g), r, level[..]) <==> NoneAt(Arcs(g), r, INF)
    ensures NoneAt(Arcs(g), r, INF) ==> Answer(Arcs(g), r, level[..], maxLevel)
  {
    var currentLevel: Level, visitedNew := 0, false;
    ghost var bits: set<nat> := {};
    StartIsReady(g, n, r, level[..]);
    while true
      invariant Ready(g, n, r, currentLevel, level[..], bits) && Shows(filter[..], n, bits)
      decreases |Unmarked(n, bits)|
    {
      ghost var before := bits;
      visitedNew, bits := RunLevel(n, g, level, filter, currentLevel, r, bits);
      if !visitedNew {
        break;
      }
      FewerUnmarked(n, before, bits);
      NextPass(g, n, r, currentLevel, level[..], bits);
      currentLevel := Succ(currentLevel);
    }
    Conclude(g, n, r, currentLevel, level[..], bits);
    maxLevel := currentLevel;
  }

  lemma StartIsReady(g: Graph, n: nat, r: nat, level: seq<Level>)
    requires WellFormed(g, n) && r < n && |level| == n
    requires forall v :: 0 <= v < n ==> level[v] == (if v == r then 0 else INF)
    ensures Ready(g, n, r, 0, level, {})
  {
    assert IsDistance(Arcs(g), r, r, 0);
  }

  ghost function Unmarked(n: nat, bits: set<nat>): set<nat> { set v | 0 <= v < n && v !in bits }

  lemma FewerUnmarked(n: nat, before: set<nat>, after: set<nat>)
    requires before < after && forall v :: v in after ==> v < n
    ensures |Unmarked(n, after)| < |Unmarked(n, before)|
  {
    var v :| v in after && v !in before;
    Smaller(Unmarked(n, after), Unmarked(n, before) - {v});
  }

  lemma {:induction false} Smaller(a: set<nat>, b: set<nat>)
    requires a <= b
    ensures |a| <= |b|
  {
    if a != {} {
      var x :| x in a;
      Smaller(a - {x}, b - {x});
    }
  }
}
