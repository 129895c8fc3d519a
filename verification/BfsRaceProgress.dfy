/** The racy search always ends: every step lowers a number, and until the search is done
    some step is possible. */
module BfsRaceProgress {
  import opened Numbers
  import opened Distances
  import opened Bitmap
  import opened Bfs
  import opened BfsRace

  /** How many steps a thread is away from being idle. */
  function Rank(th: Thread): nat {
    match th
    case Idle => 0
    case Stored(_) => 1
    case Loaded(_, _) => 2
    case Levelled(_) => 3
    case Claimed(_) => 4
    case Tested(_) => 5
  }

  function Ranks(ths: seq<Thread>): nat {
    if ths == [] then 0 else Ranks(ths[..|ths| - 1]) + Rank(ths[|ths| - 1])
  }

  lemma {:induction false} RanksUpdate(ths: seq<Thread>, p: nat, th: Thread)
    requires p < |ths|
    ensures Ranks(ths[p := th]) == Ranks(ths) - Rank(ths[p]) + Rank(th)
    decreases |ths|
  {
    var front, front' := ths[..|ths| - 1], ths[p := th][..|ths| - 1];
    if p < |ths| - 1 {
      RanksUpdate(front, p, th);
      assert front' == front[p := th];
    } else {
      assert front' == front;
    }
  }

  lemma {:induction false} IdleRanks(ths: seq<Thread>)
    requires forall p :: 0 <= p < |ths| ==> ths[p] == Idle
    ensures Ranks(ths) == 0
  {
    if ths != [] {
      IdleRanks(ths[..|ths| - 1]);
    }
  }

  // ----- what keeps the search going -----

  /** A level has been written in this pass. */
  predicate Dirty(x: Search) { x.found || exists p :: 0 <= p < |x.threads| && Wrote(x.threads[p]) }

  /** Threads work on vertices; a claimed vertex is unvisited unless another thread got there
      first, which cannot happen when the level being written is the infinite one. */
  predicate ThreadFits(x: Search, th: Thread) {
    && (th.Idle? || th.t < |x.level|)
    && (th.Loaded? ==> |th.stale| == |x.filter|)
    && (th.Claimed? ==> x.level[th.t] == INF || (Dirty(x) && Succ(x.c) != INF))
  }

  /** This holds on every graph, whether or not the levels are right. */
  ghost predicate Fits(g: Graph, x: Search) {
    InBounds(g, x) && x.todo <= Slots(g) && forall p :: 0 <= p < |x.threads| ==> ThreadFits(x, x.threads[p])
  }

  lemma StartFits(g: Graph, r: nat, x: Search)
    requires Start(g, r, x)
    ensures Fits(g, x)
  {
  }

  lemma DirtyStays(g: Graph, x: Search, p: nat, a: Action, y: Search)
    requires Step(g, x, p, a, y) && !a.Barrier? && !a.Write?
    ensures Dirty(y) == Dirty(x)
  {
    if q :| 0 <= q < |x.threads| && Wrote(x.threads[q]) {
      assert y.found || Wrote(y.threads[q]);
    }
    if q :| 0 <= q < |y.threads| && Wrote(y.threads[q]) {
      assert x.found || Wrote(x.threads[q]);
    }
  }

  lemma StepFits(g: Graph, x: Search, p: nat, a: Action, y: Search)
    requires Fits(g, x) && Step(g, x, p, a, y)
    ensures Fits(g, y)
  {
    if a.Write? {
      WriteFits(g, x, p, y);
    } else if a.Barrier? {
      assert forall q :: 0 <= q < |y.threads| ==> y.threads[q] == Idle;
    } else {
      DirtyStays(g, x, p, a, y);
      OtherFits(g, x, p, a, y);
    }
  }

  lemma WriteFits(g: Graph, x: Search, p: nat, y: Search)
    requires Fits(g, x) && Step(g, x, p, Write, y)
    ensures Fits(g, y)
  {
    assert Wrote(y.threads[p]);
    forall q | 0 <= q < |y.threads| ensures ThreadFits(y, y.threads[q]) {
      assert ThreadFits(x, x.threads[q]);
    }
  }

  lemma OtherFits(g: Graph, x: Search, p: nat, a: Action, y: Search)
    requires Fits(g, x) && Step(g, x, p, a, y) && !a.Barrier? && !a.Write? && Dirty(y) == Dirty(x)
    ensures Fits(g, y)
  {
    assert |y.filter| == |x.filter|;
    forall v | 0 <= v < |y.level| ensures Holds(y.filter, v) {
      assert Holds(x.filter, v);
    }
    forall q | 0 <= q < |y.threads| ensures ThreadFits(y, y.threads[q]) {
      assert ThreadFits(x, x.threads[q]);
      if a.Test? {
        assert IsSlot(g, a.s, a.i);
      }
    }
  }

  // ----- a number that every step lowers -----

  /** What is left of the current pass. */
  ghost function PassLeft(x: Search): nat { 6 * |x.todo| + Ranks(x.threads) + if x.done then 0 else 1 }

  ghost function Unvisited(x: Search): set<nat> { set v: nat | v < |x.level| && x.level[v] == INF }

  /** How many passes may follow: each pass but that over level 65534 must visit a vertex. */
  ghost function PassesLeft(x: Search): nat {
    3 * |Unvisited(x)| + if Succ(x.c) == INF then 1 else if Dirty(x) then 2 else 0
  }

  ghost function Left(g: Graph, x: Search): nat {
    PassesLeft(x) * (6 * |Slots(g)| + 1) + PassLeft(x)
  }

  lemma QuietStep(g: Graph, x: Search, p: nat, a: Action, y: Search)
    requires Step(g, x, p, a, y) && !a.Barrier? && !a.Stop? && !a.Write? && !a.Test?
    ensures PassesLeft(y) == PassesLeft(x) && PassLeft(y) < PassLeft(x)
  {
    DirtyStays(g, x, p, a, y);
    assert Unvisited(y) == Unvisited(x);
    RanksUpdate(x.threads, p, y.threads[p]);
    assert y.threads == x.threads[p := y.threads[p]];
  }

  lemma TestStep(g: Graph, x: Search, p: nat, a: Action, y: Search)
    requires Step(g, x, p, a, y) && a.Test?
    ensures PassesLeft(y) == PassesLeft(x) && PassLeft(y) < PassLeft(x)
  {
    DirtyStays(g, x, p, a, y);
    assert Unvisited(y) == Unvisited(x);
    RanksUpdate(x.threads, p, y.threads[p]);
    assert y.threads == x.threads[p := y.threads[p]];
    assert |x.todo - {(a.s, a.i)}| == |x.todo| - 1;
  }

  lemma WriteStep(g: Graph, x: Search, p: nat, y: Search)
    requires Fits(g, x) && Step(g, x, p, Write, y)
    ensures PassesLeft(y) <= PassesLeft(x) && PassLeft(y) < PassLeft(x)
  {
    var t := x.threads[p].t;
    assert ThreadFits(x, x.threads[p]) && Wrote(y.threads[p]);
    RanksUpdate(x.threads, p, Levelled(t));
    if Succ(x.c) == INF || x.level[t] != INF {
      assert Unvisited(y) == Unvisited(x);
    } else {
      assert Unvisited(y) == Unvisited(x) - {t};
      assert |Unvisited(y)| == |Unvisited(x)| - 1;
    }
  }

  lemma BarrierStep(g: Graph, x: Search, p: nat, y: Search)
    requires Step(g, x, p, Barrier, y)
    ensures PassesLeft(y) < PassesLeft(x) && PassLeft(x) == 1 && PassLeft(y) == 6 * |Slots(g)| + 1
  {
    IdleRanks(x.threads);
    assert Unvisited(y) == Unvisited(x);
    assert !Dirty(y);
  }

  lemma StopStep(g: Graph, x: Search, p: nat, y: Search)
    requires Step(g, x, p, Stop, y)
    ensures PassesLeft(y) == PassesLeft(x) && PassLeft(y) < PassLeft(x)
  {
    assert Unvisited(y) == Unvisited(x);
    DirtyStays(g, x, p, Stop, y);
  }

  lemma Weighted(a: nat, b: nat, s: nat)
    ensures a <= b ==> a * (s + 1) <= b * (s + 1)
    ensures a < b ==> a * (s + 1) + (s + 1) <= b * (s + 1)
  {
    if a < b {
      assert b * (s + 1) - a * (s + 1) == (b - a) * (s + 1);
      assert (b - a - 1) * (s + 1) >= 0;
    }
  }

  /** Less of the pass is left, or the pass is over and fewer are left. */
  ghost predicate Lower(g: Graph, x: Search, y: Search) {
    || (PassesLeft(y) <= PassesLeft(x) && PassLeft(y) < PassLeft(x))
    || (PassesLeft(y) < PassesLeft(x) && PassLeft(x) == 1 && PassLeft(y) == 6 * |Slots(g)| + 1)
  }

  lemma LowerIsLess(g: Graph, x: Search, y: Search)
    requires Lower(g, x, y)
    ensures Left(g, y) < Left(g, x)
  {
    Weighted(PassesLeft(y), PassesLeft(x), 6 * |Slots(g)|);
  }

  lemma StepIsLower(g: Graph, x: Search, p: nat, a: Action, y: Search)
    requires Fits(g, x) && Step(g, x, p, a, y)
    ensures Lower(g, x, y)
  {
    match a
    case Test(_, _) => TestStep(g, x, p, a, y);
    case Write => WriteStep(g, x, p, y);
    case Barrier => BarrierStep(g, x, p, y);
    case Stop => StopStep(g, x, p, y);
    case _ => QuietStep(g, x, p, a, y);
  }

  /** Every step brings the end nearer, on every graph. */
  lemma StepIsProgress(g: Graph, x: Search, p: nat, a: Action, y: Search)
    requires Fits(g, x) && Step(g, x, p, a, y)
    ensures Left(g, y) < Left(g, x)
  {
    StepIsLower(g, x, p, a, y);
    LowerIsLess(g, x, y);
  }

  lemma LinkIsProgress(g: Graph, x: Search, y: Search)
    requires Fits(g, x) && Linked(g, x, y)
    ensures Left(g, y) < Left(g, x) && Fits(g, y)
  {
    var p: nat, a: Action :| Step(g, x, p, a, y);
    StepIsProgress(g, x, p, a, y);
    StepFits(g, x, p, a, y);
  }

  lemma {:induction false} RunFits(g: Graph, r: nat, run: seq<Search>, i: nat)
    requires IsRun(g, r, run) && i < |run|
    ensures Fits(g, run[i])
  {
    if i == 0 {
      StartFits(g, r, run[0]);
    } else {
      RunFits(g, r, run, i - 1);
      assert Linked(g, run[i - 1], run[i - 1 + 1]);
      LinkIsProgress(g, run[i - 1], run[i]);
    }
  }

  lemma StartLeft(g: Graph, r: nat, x: Search)
    requires Start(g, r, x)
    ensures Left(g, x) == (3 * |x.level| - 2) * (6 * |Slots(g)| + 1)
  {
    IdleRanks(x.threads);
    AllBut(x, r);
    assert !Dirty(x);
  }

  lemma AllBut(x: Search, r: nat)
    requires r < |x.level| && forall v :: 0 <= v < |x.level| ==> x.level[v] == if v == r then 0 else INF
    ensures |Unvisited(x)| == |x.level| - 1
  {
    var all := Below(|x.level|);
    BelowCount(|x.level|);
    assert Unvisited(x) == all - {r};
    assert |all - {r}| == |all| - 1;
  }

  lemma {:induction false} Descent(vals: seq<nat>)
    requires |vals| > 0 && forall k :: 0 < k < |vals| ==> vals[k] < vals[k - 1]
    ensures |vals| - 1 + vals[|vals| - 1] <= vals[0]
    decreases |vals|
  {
    if |vals| > 1 {
      Descent(vals[..|vals| - 1]);
    }
  }

  lemma EachStepIsProgress(g: Graph, r: nat, run: seq<Search>, k: nat)
    requires IsRun(g, r, run) && 0 < k < |run|
    ensures Left(g, run[k]) < Left(g, run[k - 1])
  {
    RunFits(g, r, run, k - 1);
    assert Linked(g, run[k - 1], run[k - 1 + 1]);
    LinkIsProgress(g, run[k - 1], run[k]);
  }

  /** So no run is longer than a number that depends on the graph alone. */
  lemma RunsAreBounded(g: Graph, r: nat, run: seq<Search>)
    requires IsRun(g, r, run)
    ensures |run| - 1 <= (3 * |run[0].level| - 2) * (6 * |Slots(g)| + 1)
  {
    var vals := seq(|run|, k requires 0 <= k < |run| => Left(g, run[k]));
    forall k | 0 < k < |run| ensures vals[k] < vals[k - 1] {
      EachStepIsProgress(g, r, run, k);
    }
    Descent(vals);
    StartLeft(g, r, run[0]);
  }

  // ----- some step is always possible -----

  ghost predicate Enabled(g: Graph, x: Search) { exists y :: Linked(g, x, y) }

  lemma StepEnables(g: Graph, x: Search, p: nat, a: Action, y: Search)
    requires Step(g, x, p, a, y)
    ensures Enabled(g, x)
  {
    assert Linked(g, x, y);
  }

  lemma BusyThreadMoves(g: Graph, x: Search, p: nat)
    requires Fits(g, x) && !x.done && p < |x.threads| && x.threads[p] != Idle
    ensures Enabled(g, x)
  {
    var th := x.threads[p];
    assert ThreadFits(x, th);
    match th
    case Tested(t) =>
      StepEnables(g, x, p, Check, At(x, p, if x.level[t] == INF then Claimed(t) else Idle));
    case Claimed(t) =>
      StepEnables(g, x, p, Write, At(x, p, Levelled(t)).(level := x.level[t := Succ(x.c)]));
    case Levelled(t) =>
      StepEnables(g, x, p, Load, At(x, p, Loaded(t, x.filter)));
    case Loaded(t, stale) =>
      assert Holds(x.filter, t);
      StepEnables(g, x, p, Store, At(x, p, Stored(t)).(filter := RacyStore(stale, x.filter, t)));
    case Stored(t) =>
      StepEnables(g, x, p, Flag, At(x, p, Idle).(found := true));
  }

  lemma IdleThreadTests(g: Graph, x: Search, e: (nat, nat))
    requires Fits(g, x) && !x.done && |x.threads| > 0 && x.threads[0] == Idle && e in x.todo
    ensures Enabled(g, x)
  {
    var (s, i) := e;
    assert e in Slots(g);
    var x1 := x.(todo := x.todo - {e});
    var y := if x.level[s] == x.c && !GetBit(x.filter, g.edges[i]) then At(x1, 0, Tested(g.edges[i])) else x1;
    StepEnables(g, x, 0, Test(s, i), y);
  }

  lemma BarrierOpens(g: Graph, x: Search)
    requires Fits(g, x) && !x.done && AllIdle(x) && x.todo == {}
    ensures Enabled(g, x)
  {
    if x.found {
      StepEnables(g, x, 0, Barrier, x.(c := Succ(x.c), found := false, todo := Slots(g)));
    } else {
      StepEnables(g, x, 0, Stop, x.(done := true));
    }
  }

  /** With at least one thread the search never gets stuck before it is done; with the bound
      above, every run can only be continued until it is done.  Whether it then has the
      distances is what RaceTolerance says. */
  lemma NeverStuck(g: Graph, r: nat, run: seq<Search>)
    requires IsRun(g, r, run) && |run[|run| - 1].threads| > 0
    ensures run[|run| - 1].done || Enabled(g, run[|run| - 1])
  {
    RunFits(g, r, run, |run| - 1);
    var x := run[|run| - 1];
    if !x.done {
      if p: nat :| p < |x.threads| && x.threads[p] != Idle {
        BusyThreadMoves(g, x, p);
      } else if x.todo != {} {
        var e :| e in x.todo;
        IdleThreadTests(g, x, e);
      } else {
        BarrierOpens(g, x);
      }
    }
  }
}
