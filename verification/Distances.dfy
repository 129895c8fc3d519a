/** Shortest distances in a directed graph, stated without any algorithm. */
module Distances {
  import opened Csr

  /** There is a walk of exactly `k` arcs from `r` to `v`. */
  ghost predicate Walk(arcs: set<Edge>, r: nat, v: nat, k: nat)
    decreases k
  {
    if k == 0 then v == r else exists u: nat :: Edge(u, v) in arcs && Walk(arcs, r, u, k - 1)
  }

  ghost predicate Reachable(arcs: set<Edge>, r: nat, v: nat) { exists k: nat :: Walk(arcs, r, v, k) }

  ghost predicate IsDistance(arcs: set<Edge>, r: nat, v: nat, d: nat) {
    Walk(arcs, r, v, d) && forall k: nat :: k < d ==> !Walk(arcs, r, v, k)
  }

  ghost predicate NoneAt(arcs: set<Edge>, r: nat, d: nat) { forall v: nat :: !IsDistance(arcs, r, v, d) }

  /** All arcs are between vertices below `n`. */
  ghost predicate Inside(arcs: set<Edge>, n: nat) { forall e :: e in arcs ==> e.src < n && e.trg < n }

  lemma {:induction false} LeastWalk(arcs: set<Edge>, r: nat, v: nat, k: nat) returns (d: nat)
    requires Walk(arcs, r, v, k)
    ensures d <= k && IsDistance(arcs, r, v, d)
    decreases k
  {
    if j: nat :| j < k && Walk(arcs, r, v, j) {
      d := LeastWalk(arcs, r, v, j);
    } else {
      d := k;
    }
  }

  /** One arc further is at most one further. */
  lemma Extend(arcs: set<Edge>, r: nat, u: nat, v: nat, k: nat)
    requires Walk(arcs, r, u, k) && Edge(u, v) in arcs
    ensures Walk(arcs, r, v, k + 1)
  {
  }

  /** A vertex at distance `d + 1` has a predecessor at distance `d`. */
  lemma Predecessor(arcs: set<Edge>, r: nat, v: nat, d: nat) returns (u: nat)
    requires IsDistance(arcs, r, v, d + 1)
    ensures Edge(u, v) in arcs && IsDistance(arcs, r, u, d)
  {
    u :| Edge(u, v) in arcs && Walk(arcs, r, u, d);
    forall k: nat | k < d ensures !Walk(arcs, r, u, k) {
      if Walk(arcs, r, u, k) {
        Extend(arcs, r, u, v, k);
      }
    }
  }

  /** The distances that occur have no gap. */
  lemma {:induction false} NoGap(arcs: set<Edge>, r: nat, v: nat, d: nat, e: nat) returns (w: nat)
    requires IsDistance(arcs, r, v, d) && e <= d
    ensures IsDistance(arcs, r, w, e)
    decreases d
  {
    if e == d {
      w := v;
    } else {
      var u := Predecessor(arcs, r, v, d - 1);
      w := NoGap(arcs, r, u, d - 1, e);
    }
  }

  /** If no vertex is at distance `d` then none is further, and reachable vertices are nearer. */
  lemma NothingBeyond(arcs: set<Edge>, r: nat, v: nat, d: nat, k: nat)
    requires NoneAt(arcs, r, d)
    requires Walk(arcs, r, v, k)
    ensures exists e: nat :: e < d && IsDistance(arcs, r, v, e)
  {
    var e := LeastWalk(arcs, r, v, k);
    if d <= e {
      var w := NoGap(arcs, r, v, e, d);
    }
  }

  lemma DistanceReaches(arcs: set<Edge>, r: nat, v: nat, d: nat)
    requires IsDistance(arcs, r, v, d)
    ensures Reachable(arcs, r, v)
  {
  }

  lemma VertexInRange(arcs: set<Edge>, r: nat, n: nat, v: nat, k: nat)
    requires r < n && Walk(arcs, r, v, k) && Inside(arcs, n)
    ensures v < n
  {
  }
}
