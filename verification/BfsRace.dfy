/** The search as its parallel loop runs it: any number of threads test the slots of a level
    in any order, without synchronisation.  Testing the filter, testing the level, writing the
    level, loading a filter word, storing it back and raising the flag are separate steps, so
    two threads may claim the same vertex and a store may wipe out other threads' filter bits. */
module BfsRace {
  import opened Csr
  import opened Distances
  import opened Bitmap
  import opened Bfs

  datatype Thread =
    | Idle
    | Tested(t: nat)                        // the filter bit of t was clear
    | Claimed(t: nat)                       // the level of t was infinite as well
    | Levelled(t: nat)                      // the level of t has been written
    | Loaded(t: nat, stale: seq<Word>)      // the filter word of t has been read
    | Stored(t: nat)                        // and written back

  datatype Search = Search(
    level: seq<Level>, filter: seq<Word>, todo: set<(nat, nat)>, threads: seq<Thread>,
    c: Level, found: bool, done: bool)

  datatype Action =
    | Test(s: nat, i: nat) | Check | Write | Load | Store | Flag | Barrier | Stop

  ghost function Slots(g: Graph): set<(nat, nat)> {
    set s, i | 0 <= s < |g.index| && 0 <= i < |g.edges| && IsSlot(g, s, i) :: (s, i)
  }

  predicate AllIdle(x: Search) { forall p :: 0 <= p < |x.threads| ==> x.threads[p] == Idle }

  predicate InBounds(g: Graph, x: Search) {
    && (forall v :: 0 <= v < |x.level| ==> Holds(x.filter, v))
    && WellFormed(g, |x.level|)
  }

  /** The filter after a store computed from a stale word. */
  function RacyStore(stale: seq<Word>, filter: seq<Word>, t: nat): seq<Word>
    requires |stale| == |filter| && Holds(stale, t)
  {
    filter[t / WORD_BITS := stale[t / WORD_BITS] | Mask(t % WORD_BITS)]
  }

  function At(x: Search, p: nat, th: Thread): Search
    requires p < |x.threads|
  {
    x.(threads := x.threads[p := th])
  }

  /** One step: by thread `p`, or by all threads at the end of a pass. */
  ghost predicate Step(g: Graph, x: Search, p: nat, a: Action, y: Search) {
    && !x.done && InBounds(g, x)
    && match a
       case Test(s, i) =>
         && p < |x.threads| && x.threads[p] == Idle && (s, i) in x.todo && IsSlot(g, s, i) && s < |x.level|
         && y == (var x1 := x.(todo := x.todo - {(s, i)});
                  if x.level[s] == x.c && !GetBit(x.filter, g.edges[i]) then At(x1, p, Tested(g.edges[i])) else x1)
       case Check =>
         && p < |x.threads| && x.threads[p].Tested? && x.threads[p].t < |x.level|
         && y == At(x, p, if x.level[x.threads[p].t] == INF then Claimed(x.threads[p].t) else Idle)
       case Write =>
         && p < |x.threads| && x.threads[p].Claimed? && x.threads[p].t < |x.level|
         && y == At(x, p, Levelled(x.threads[p].t)).(level := x.level[x.threads[p].t := Succ(x.c)])
       case Load =>
         && p < |x.threads| && x.threads[p].Levelled?
         && y == At(x, p, Loaded(x.threads[p].t, x.filter))
       case Store =>
         && p < |x.threads| && x.threads[p].Loaded?
         && |x.threads[p].stale| == |x.filter| && Holds(x.filter, x.threads[p].t)
         && y == At(x, p, Stored(x.threads[p].t)).(filter := RacyStore(x.threads[p].stale, x.filter, x.threads[p].t))
       case Flag =>
         && p < |x.threads| && x.threads[p].Stored?
         && y == At(x, p, Idle).(found := true)
       case Barrier =>
         && x.todo == {} && AllIdle(x) && x.found
         && y == x.(c := Succ(x.c), found := false, todo := Slots(g))
       case Stop =>
         && x.todo == {} && AllIdle(x) && !x.found
         && y == x.(done := true)
  }

  /** As initialisation and root selection leave it. */
  ghost predicate Start(g: Graph, r: nat, x: Search) {
    && r < |x.level| && WellFormed(g, |x.level|)
    && (forall v :: 0 <= v < |x.level| ==> x.level[v] == if v == r then 0 else INF)
    && (forall v :: 0 <= v < |x.level| ==> Holds(x.filter, v) && !GetBit(x.filter, v))
    && x.todo == Slots(g) && AllIdle(x) && x.c == 0 && !x.found && !x.done
  }

  // ----- the invariant -----

  /** A set bit means a finite level. */
  ghost predicate Honest(level: seq<Level>, filter: seq<Word>) {
    forall v {:trigger GetBit(filter, v)} ::
      0 <= v < |level| && Holds(filter, v) && GetBit(filter, v) ==> level[v] != INF
  }

  ghost predicate IsTarget(arcs: set<Edge>, c: nat, level: seq<Level>, t: nat) {
    exists u :: 0 <= u < |level| && Edge(u, t) in arcs && level[u] == c
  }

  /** What a thread relies on. */
  ghost predicate ThreadOk(arcs: set<Edge>, r: nat, c: nat, level: seq<Level>, width: nat, th: Thread) {
    match th
    case Idle => true
    case Tested(t) => t < |level| && IsTarget(arcs, c, level, t)
    case Claimed(t) => t < |level| && IsDistance(arcs, r, t, c + 1)
    case Levelled(t) => t < |level| && level[t] == c + 1 != INF
    case Loaded(t, stale) => t < |level| && level[t] == c + 1 != INF && |stale| == width && Honest(level, stale)
    case Stored(t) => t < |level| && level[t] == c + 1 != INF
  }

  ghost predicate Pending(threads: seq<Thread>, t: nat) {
    exists p :: 0 <= p < |threads| && (threads[p] == Tested(t) || threads[p] == Claimed(t))
  }

  predicate Wrote(th: Thread) { th.Levelled? || th.Loaded? || th.Stored? }

  /** Every slot that has been tested is settled or is being settled. */
  ghost predicate Covered(g: Graph, c: nat, level: seq<Level>, todo: set<(nat, nat)>, threads: seq<Thread>) {
    forall s: nat, i: nat :: IsSlot(g, s, i) && (s, i) !in todo ==>
      i < |g.edges| && (Settled(g, c, level, s, i) || Pending(threads, g.edges[i]))
  }

  /** A new level is announced, or will be. */
  ghost predicate Announced(arcs: set<Edge>, r: nat, x: Search) {
    && (x.found ==> x.c + 1 < INF && !NoneAt(arcs, r, x.c + 1))
    && (x.found || AllUpTo(x.level, x.c) || exists p :: 0 <= p < |x.threads| && Wrote(x.threads[p]))
  }

  ghost predicate ThreadsOk(arcs: set<Edge>, r: nat, x: Search) {
    forall p :: 0 <= p < |x.threads| ==> ThreadOk(arcs, r, x.c, x.level, |x.filter|, x.threads[p])
  }

  ghost predicate RaceI(g: Graph, r: nat, x: Search) {
    && r < |x.level| && InBounds(g, x) && x.c < INF && x.todo <= Slots(g)
    && Pass(Arcs(g), r, x.c, x.level) && !NoneAt(Arcs(g), r, x.c)
    && Honest(x.level, x.filter)
    && ThreadsOk(Arcs(g), r, x)
    && Covered(g, x.c, x.level, x.todo, x.threads)
    && Announced(Arcs(g), r, x)
    && (x.done ==> Answer(Arcs(g), r, x.level, x.c))
  }

  // ----- every step keeps it -----

  lemma StartHolds(g: Graph, r: nat, x: Search)
    requires Start(g, r, x)
    ensures RaceI(g, r, x)
  {
    assert IsDistance(Arcs(g), r, r, 0);
    forall s: nat, i: nat | IsSlot(g, s, i) ensures (s, i) in x.todo {
    }
  }

  /** A thread moves on to a state that no other thread can see. */
  lemma PendingElsewhere(threads: seq<Thread>, p: nat, th: Thread, t: nat)
    requires p < |threads| && Pending(threads, t)
    requires (threads[p] == Tested(t) || threads[p] == Claimed(t)) ==> th == Tested(t) || th == Claimed(t)
    ensures Pending(threads[p := th], t)
  {
    var q :| 0 <= q < |threads| && (threads[q] == Tested(t) || threads[q] == Claimed(t));
    assert threads[p := th][q] == if q == p then th else threads[q];
  }

  lemma CoveredMove(g: Graph, c: nat, level: seq<Level>, todo: set<(nat, nat)>, threads: seq<Thread>, p: nat,
                    th: Thread)
    requires Covered(g, c, level, todo, threads) && p < |threads|
    requires !threads[p].Tested? && !threads[p].Claimed?
    ensures Covered(g, c, level, todo, threads[p := th])
  {
    forall s: nat, i: nat | IsSlot(g, s, i) && (s, i) !in todo
      ensures i < |g.edges| && (Settled(g, c, level, s, i) || Pending(threads[p := th], g.edges[i]))
    {
      if !Settled(g, c, level, s, i) {
        PendingElsewhere(threads, p, th, g.edges[i]);
      }
    }
  }

  /** The thread gives up or finishes on `t`, whose level is finite. */
  lemma CoveredRelease(g: Graph, c: nat, level: seq<Level>, level': seq<Level>, todo: set<(nat, nat)>,
                       threads: seq<Thread>, p: nat, th: Thread)
    requires Covered(g, c, level, todo, threads) && p < |threads| && WellFormed(g, |level|)
    requires threads[p].Tested? || threads[p].Claimed?
    requires threads[p].t < |level| && |level'| == |level| && level'[threads[p].t] != INF
    requires forall v :: 0 <= v < |level| && level'[v] == c ==> level[v] == c
    requires forall v :: 0 <= v < |level| && level[v] != INF ==> level'[v] != INF
    ensures Covered(g, c, level', todo, threads[p := th])
  {
    forall s: nat, i: nat | IsSlot(g, s, i) && (s, i) !in todo
      ensures i < |g.edges| && (Settled(g, c, level', s, i) || Pending(threads[p := th], g.edges[i]))
    {
      if !Settled(g, c, level', s, i) {
        assert !Settled(g, c, level, s, i);
        PendingElsewhere(threads, p, th, g.edges[i]);
      }
    }
  }

  lemma TestKeeps(g: Graph, r: nat, x: Search, p: nat, s: nat, i: nat, y: Search)
    requires RaceI(g, r, x) && Step(g, x, p, Test(s, i), y)
    ensures RaceI(g, r, y)
  {
    var t := g.edges[i];
    assert Edge(s, t) in Arcs(g);
    if y.threads == x.threads {
      assert Settled(g, x.c, x.level, s, i);
    } else {
      CoveredMove(g, x.c, x.level, x.todo, x.threads, p, Tested(t));
      assert y.threads[p] == Tested(t);
      assert Pending(y.threads, t);
      AnnouncedMove(Arcs(g), r, x, p, y);
    }
  }

  lemma AnnouncedMove(arcs: set<Edge>, r: nat, x: Search, p: nat, y: Search)
    requires Announced(arcs, r, x) && p < |x.threads| == |y.threads|
    requires y.c == x.c && y.found == x.found && y.level == x.level
    requires forall q :: 0 <= q < |x.threads| && q != p ==> y.threads[q] == x.threads[q]
    requires Wrote(x.threads[p]) ==> Wrote(y.threads[p])
    ensures Announced(arcs, r, y)
  {
    if q :| 0 <= q < |x.threads| && Wrote(x.threads[q]) {
      assert Wrote(y.threads[q]);
    }
  }

  lemma CheckKeeps(g: Graph, r: nat, x: Search, p: nat, y: Search)
    requires RaceI(g, r, x) && Step(g, x, p, Check, y)
    ensures RaceI(g, r, y)
  {
    var t := x.threads[p].t;
    AnnouncedMove(Arcs(g), r, x, p, y);
    assert ThreadOk(Arcs(g), r, x.c, x.level, |x.filter|, x.threads[p]);
    if x.level[t] == INF {
      var u :| 0 <= u < |x.level| && Edge(u, t) in Arcs(g) && x.level[u] == x.c;
      TargetDistance(Arcs(g), r, x.c, x.level, u, t);
      ClaimCovered(g, x.c, x.level, x.todo, x.threads, p, t);
    } else {
      CoveredRelease(g, x.c, x.level, x.level, x.todo, x.threads, p, Idle);
    }
  }

  lemma ClaimCovered(g: Graph, c: nat, level: seq<Level>, todo: set<(nat, nat)>, threads: seq<Thread>, p: nat, t: nat)
    requires Covered(g, c, level, todo, threads) && p < |threads| && threads[p] == Tested(t)
    ensures Covered(g, c, level, todo, threads[p := Claimed(t)])
  {
    forall s: nat, i: nat | IsSlot(g, s, i) && (s, i) !in todo
      ensures i < |g.edges| && (Settled(g, c, level, s, i) || Pending(threads[p := Claimed(t)], g.edges[i]))
    {
      if !Settled(g, c, level, s, i) {
        PendingElsewhere(threads, p, Claimed(t), g.edges[i]);
      }
    }
  }

  lemma HonestGrows(level: seq<Level>, filter: seq<Word>, t: nat, l: Level)
    requires Honest(level, filter) && t < |level| && l != INF
    ensures Honest(level[t := l], filter)
  {
  }

  /** Two threads may both write: they write the same number. */
  lemma ThreadOkWrite(arcs: set<Edge>, r: nat, c: nat, level: seq<Level>, width: nat, th: Thread, t: nat)
    requires ThreadOk(arcs, r, c, level, width, th) && t < |level| && c + 1 < INF
    requires Pass(arcs, r, c, level) && IsDistance(arcs, r, t, c + 1)
    ensures ThreadOk(arcs, r, c, level[t := c + 1], width, th)
  {
    match th
    case Tested(t0) =>
      var u :| 0 <= u < |level| && Edge(u, t0) in arcs && level[u] == c;
      assert u != t;
      assert level[t := c + 1][u] == c;
    case Loaded(t0, stale) => HonestGrows(level, stale, t, c + 1);
    case _ =>
  }

  lemma ThreadsOkWrite(arcs: set<Edge>, r: nat, x: Search, p: nat, t: nat)
    requires ThreadsOk(arcs, r, x) && p < |x.threads| && t < |x.level| && x.c + 1 < INF
    requires Pass(arcs, r, x.c, x.level) && IsDistance(arcs, r, t, x.c + 1)
    ensures ThreadsOk(arcs, r, At(x, p, Levelled(t)).(level := x.level[t := x.c + 1]))
  {
    forall q | 0 <= q < |x.threads| && q != p
      ensures ThreadOk(arcs, r, x.c, x.level[t := x.c + 1], |x.filter|, x.threads[q])
    {
      ThreadOkWrite(arcs, r, x.c, x.level, |x.filter|, x.threads[q], t);
    }
  }

  lemma WriteKeeps(g: Graph, r: nat, x: Search, p: nat, y: Search)
    requires RaceI(g, r, x) && Step(g, x, p, Write, y)
    ensures RaceI(g, r, y) <==> x.c + 1 < INF
    ensures x.c + 1 == INF ==> IsDistance(Arcs(g), r, x.threads[p].t, x.c + 1)
  {
    var arcs, t := Arcs(g), x.threads[p].t;
    assert ThreadOk(arcs, r, x.c, x.level, |x.filter|, x.threads[p]);
    if x.c + 1 < INF {
      assert y == Written(x, p, t);
      WrittenOk(g, r, x, p, t);
    } else {
      LostVertex(g, r, x, p, y);
    }
  }

  lemma LostVertex(g: Graph, r: nat, x: Search, p: nat, y: Search)
    requires Step(g, x, p, Write, y) && x.c + 1 == INF
    ensures !RaceI(g, r, y)
  {
    assert !ThreadOk(Arcs(g), r, y.c, y.level, |y.filter|, y.threads[p]);
  }

  function Written(x: Search, p: nat, t: nat): Search
    requires p < |x.threads| && t < |x.level| && x.c + 1 < INF
  {
    At(x, p, Levelled(t)).(level := x.level[t := x.c + 1])
  }

  lemma WrittenOk(g: Graph, r: nat, x: Search, p: nat, t: nat)
    requires RaceI(g, r, x) && p < |x.threads| && t < |x.level| && x.c + 1 < INF && !x.done
    requires x.threads[p] == Claimed(t) && IsDistance(Arcs(g), r, t, x.c + 1)
    ensures RaceI(g, r, Written(x, p, t))
  {
    var y := Written(x, p, t);
    assert y.level == x.level[t := x.c + 1] && y.threads == x.threads[p := Levelled(t)];
    assert y.filter == x.filter && y.todo == x.todo && y.c == x.c && !y.done;
    WriteKeepsPass(Arcs(g), r, x.c, x.level, t);
    HonestGrows(x.level, x.filter, t, x.c + 1);
    ThreadsOkWrite(Arcs(g), r, x, p, t);
    WrittenCovered(g, r, x, p, t);
    WrittenAnnounced(g, r, x, p, t);
  }

  lemma WrittenAnnounced(g: Graph, r: nat, x: Search, p: nat, t: nat)
    requires p < |x.threads| && t < |x.level| && x.c + 1 < INF && IsDistance(Arcs(g), r, t, x.c + 1)
    ensures Announced(Arcs(g), r, Written(x, p, t))
  {
    assert Wrote(Written(x, p, t).threads[p]);
  }

  lemma WrittenCovered(g: Graph, r: nat, x: Search, p: nat, t: nat)
    requires InBounds(g, x) && Covered(g, x.c, x.level, x.todo, x.threads) && p < |x.threads| && t < |x.level|
    requires x.threads[p] == Claimed(t) && x.c + 1 < INF
    requires Pass(Arcs(g), r, x.c, x.level) && IsDistance(Arcs(g), r, t, x.c + 1)
    ensures Covered(g, x.c, x.level[t := x.c + 1], x.todo, x.threads[p := Levelled(t)])
  {
    CoveredRelease(g, x.c, x.level, x.level[t := x.c + 1], x.todo, x.threads, p, Levelled(t));
  }

  lemma LoadKeeps(g: Graph, r: nat, x: Search, p: nat, y: Search)
    requires RaceI(g, r, x) && Step(g, x, p, Load, y)
    ensures RaceI(g, r, y)
  {
    assert ThreadOk(Arcs(g), r, x.c, x.level, |x.filter|, x.threads[p]);
    CoveredMove(g, x.c, x.level, x.todo, x.threads, p, y.threads[p]);
    AnnouncedMove(Arcs(g), r, x, p, y);
  }

  /** A store that loses other threads' bits is still honest. */
  lemma RacyStoreHonest(level: seq<Level>, stale: seq<Word>, filter: seq<Word>, t: nat)
    requires Honest(level, stale) && Honest(level, filter) && t < |level| && level[t] != INF
    requires |stale| == |filter| && Holds(stale, t)
    ensures Honest(level, RacyStore(stale, filter, t))
    ensures |RacyStore(stale, filter, t)| == |filter|
  {
    forall v | 0 <= v < |level| && Holds(filter, v) && GetBit(RacyStore(stale, filter, t), v) ensures level[v] != INF {
      LostUpdateInventsNothing(stale, filter, t, v);
    }
  }

  lemma StoreKeeps(g: Graph, r: nat, x: Search, p: nat, y: Search)
    requires RaceI(g, r, x) && Step(g, x, p, Store, y)
    ensures RaceI(g, r, y)
  {
    var th := x.threads[p];
    assert ThreadOk(Arcs(g), r, x.c, x.level, |x.filter|, th);
    RacyStoreHonest(x.level, th.stale, x.filter, th.t);
    forall v | 0 <= v < |y.level| ensures Holds(y.filter, v) {
      assert Holds(x.filter, v);
    }
    CoveredMove(g, x.c, x.level, x.todo, x.threads, p, y.threads[p]);
    AnnouncedMove(Arcs(g), r, x, p, y);
  }

  lemma FlagKeeps(g: Graph, r: nat, x: Search, p: nat, y: Search)
    requires RaceI(g, r, x) && Step(g, x, p, Flag, y)
    ensures RaceI(g, r, y)
  {
    var t := x.threads[p].t;
    assert ThreadOk(Arcs(g), r, x.c, x.level, |x.filter|, x.threads[p]);
    assert IsDistance(Arcs(g), r, t, x.c + 1);
    CoveredMove(g, x.c, x.level, x.todo, x.threads, p, Idle);
  }

  /** At a barrier the pass is complete. */
  lemma PassIsComplete(g: Graph, r: nat, x: Search)
    requires RaceI(g, r, x) && x.todo == {} && AllIdle(x)
    ensures Inside(Arcs(g), |x.level|) && Explored(Arcs(g), x.c, x.level)
  {
    forall u: nat, j: nat | IsSlot(g, u, j) ensures Settled(g, x.c, x.level, u, j) {
      assert (u, j) !in x.todo;
    }
    AllScanned(g, |x.level|, x.c, x.level);
  }

  lemma BarrierKeeps(g: Graph, r: nat, x: Search, p: nat, y: Search)
    requires RaceI(g, r, x) && Step(g, x, p, Barrier, y)
    ensures RaceI(g, r, y)
  {
    PassIsComplete(g, r, x);
    forall v: nat, k: nat | v < |x.level| && k <= x.c + 1 && IsDistance(Arcs(g), r, v, k) ensures x.level[v] == k {
      if k == x.c + 1 {
        Advance(Arcs(g), r, x.c, x.level, v);
      }
    }
  }

  lemma StopKeeps(g: Graph, r: nat, x: Search, p: nat, y: Search)
    requires RaceI(g, r, x) && Step(g, x, p, Stop, y)
    ensures RaceI(g, r, y)
  {
    PassIsComplete(g, r, x);
    Finish(Arcs(g), r, x.c, x.level);
  }

  /** Every step of every thread keeps the invariant, except a write of level 65535; and that
      one is made only for a vertex at distance 65535. */
  lemma StepKeeps(g: Graph, r: nat, x: Search, p: nat, a: Action, y: Search)
    requires RaceI(g, r, x) && Step(g, x, p, a, y)
    ensures RaceI(g, r, y) <==> !(a.Write? && x.c + 1 == INF)
    ensures !RaceI(g, r, y) ==> IsDistance(Arcs(g), r, x.threads[p].t, x.c + 1) && x.c + 1 == INF
  {
    match a
    case Test(s, i) => TestKeeps(g, r, x, p, s, i, y);
    case Check => CheckKeeps(g, r, x, p, y);
    case Write => WriteKeeps(g, r, x, p, y);
    case Load => LoadKeeps(g, r, x, p, y);
    case Store => StoreKeeps(g, r, x, p, y);
    case Flag => FlagKeeps(g, r, x, p, y);
    case Barrier => BarrierKeeps(g, r, x, p, y);
    case Stop => StopKeeps(g, r, x, p, y);
  }

  // ----- whole runs -----

  ghost predicate Linked(g: Graph, x: Search, y: Search) {
    exists p: nat, a: Action :: Step(g, x, p, a, y)
  }

  lemma SomeoneAt(arcs: set<Edge>, r: nat, t: nat, d: nat)
    requires IsDistance(arcs, r, t, d)
    ensures !NoneAt(arcs, r, d)
  {
  }

  lemma LinkKeeps(g: Graph, r: nat, x: Search, y: Search)
    requires RaceI(g, r, x) && Linked(g, x, y)
    ensures RaceI(g, r, y) || !NoneAt(Arcs(g), r, INF)
  {
    var p: nat, a: Action :| Step(g, x, p, a, y);
    StepKeeps(g, r, x, p, a, y);
    if !RaceI(g, r, y) {
      SomeoneAt(Arcs(g), r, x.threads[p].t, x.c + 1);
    }
  }

  ghost predicate IsRun(g: Graph, r: nat, run: seq<Search>) {
    && |run| > 0 && Start(g, r, run[0])
    && forall k :: 0 <= k < |run| - 1 ==> Linked(g, run[k], run[k + 1])
  }

  lemma {:induction false} RunKeeps(g: Graph, r: nat, run: seq<Search>, i: nat)
    requires IsRun(g, r, run) && i < |run|
    ensures RaceI(g, r, run[i]) || !NoneAt(Arcs(g), r, INF)
  {
    if i == 0 {
      StartHolds(g, r, run[0]);
    } else {
      RunKeeps(g, r, run, i - 1);
      assert Linked(g, run[i - 1], run[i - 1 + 1]);
      if NoneAt(Arcs(g), r, INF) {
        LinkKeeps(g, r, run[i - 1], run[i]);
      }
    }
  }

  lemma {:induction false} RunShape(g: Graph, r: nat, run: seq<Search>, i: nat)
    requires IsRun(g, r, run) && i < |run|
    ensures |run[i].level| == |run[0].level| && r < |run[i].level| && WellFormed(g, |run[i].level|)
  {
    if i > 0 {
      RunShape(g, r, run, i - 1);
      assert Linked(g, run[i - 1], run[i - 1 + 1]);
      LinkShape(g, run[i - 1], run[i]);
    }
  }

  lemma LinkShape(g: Graph, x: Search, y: Search)
    requires Linked(g, x, y)
    ensures |y.level| == |x.level|
  {
  }

  /** Every racy run that ends, on every graph: its levels are the distances iff no vertex is at
      distance 65535, and then its last level number is the largest distance. */
  lemma RaceTolerance(g: Graph, r: nat, run: seq<Search>)
    requires IsRun(g, r, run) && run[|run| - 1].done
    ensures LevelsAreDistances(Arcs(g), r, run[|run| - 1].level) <==> NoneAt(Arcs(g), r, INF)
    ensures NoneAt(Arcs(g), r, INF) ==> Answer(Arcs(g), r, run[|run| - 1].level, run[|run| - 1].c)
  {
    RunKeeps(g, r, run, |run| - 1);
    RunShape(g, r, run, |run| - 1);
    if !NoneAt(Arcs(g), r, INF) {
      ArcsInside(g, |run[|run| - 1].level|);
      NoLevelsAreRight(Arcs(g), r, run[|run| - 1].level);
    }
  }

  lemma LevelOf(arcs: set<Edge>, r: nat, level: seq<Level>, v: nat, d: nat)
    requires LevelsAreDistances(arcs, r, level) && v < |level| && IsDistance(arcs, r, v, d)
    ensures level[v] == d
  {
    DistanceReaches(arcs, r, v, d);
  }

  /** There is only one answer. */
  lemma AnswerUnique(arcs: set<Edge>, r: nat, l1: seq<Level>, m1: nat, l2: seq<Level>, m2: nat)
    requires |l1| == |l2| && Answer(arcs, r, l1, m1) && Answer(arcs, r, l2, m2)
    ensures l1 == l2 && m1 == m2
  {
    forall v: nat | v < |l1| ensures l1[v] == l2[v] {
      if l1[v] != INF {
        LevelOf(arcs, r, l2, v, l1[v]);
      }
      if l2[v] != INF {
        LevelOf(arcs, r, l1, v, l2[v]);
      }
    }
  }

  /** However the threads interleave and whatever bits they lose, two searches of the same
      graph from the same root are both right or both wrong, and if right they agree. */
  lemma RaceOutcomeIsUnique(g: Graph, r: nat, a: seq<Search>, b: seq<Search>)
    requires IsRun(g, r, a) && IsRun(g, r, b) && a[|a| - 1].done && b[|b| - 1].done
    ensures LevelsAreDistances(Arcs(g), r, a[|a| - 1].level) <==> LevelsAreDistances(Arcs(g), r, b[|b| - 1].level)
    ensures LevelsAreDistances(Arcs(g), r, a[|a| - 1].level) ==>
              a[|a| - 1].level == b[|b| - 1].level && a[|a| - 1].c == b[|b| - 1].c
  {
    RaceTolerance(g, r, a);
    RaceTolerance(g, r, b);
    RunShape(g, r, a, |a| - 1);
    RunShape(g, r, b, |b| - 1);
    if NoneAt(Arcs(g), r, INF) {
      AnswerUnique(Arcs(g), r, a[|a| - 1].level, a[|a| - 1].c, b[|b| - 1].level, b[|b| - 1].c);
    }
  }
}
