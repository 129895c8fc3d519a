/** The work queue shared by a pool of workers, and the pool that is stopped by sending
    one EXIT item per worker. */
module WorkQueues {
  datatype Item<T> = Job(job: T) | Exit

  /** The fields of the queue object. */
  datatype Q<T> = Q(queue: seq<Item<T>>, maxWaiting: nat, waiting: nat, idleWaiters: nat)

  datatype Turn<T> = Blocked(signalIdle: bool) | Took(item: Item<T>)

  function Enqueued<T>(q: Q<T>, item: Item<T>): Q<T> { q.(queue := q.queue + [item]) }

  predicate IsIdle<T>(q: Q<T>) { q.queue == [] && q.waiting == q.maxWaiting }

  /** One pass of a worker through the critical section of `dequeue`, on arrival or after
      a wakeup, up to the point where it takes an item or waits. */
  function DequeueTurn<T>(q: Q<T>, arriving: bool): (Q<T>, Turn<T>)
    requires arriving || q.waiting > 0
  {
    var q1 := if arriving then q.(waiting := q.waiting + 1) else q;
    if q1.queue == [] then (q1, Blocked(q1.waiting == q1.maxWaiting && q1.idleWaiters > 0))
    else (q1.(queue := q1.queue[1..], waiting := q1.waiting - 1), Took(q1.queue[0]))
  }

  /** One pass of a thread through the critical section of `wait_for_idle`. */
  function IdleTurn<T>(q: Q<T>, arriving: bool): (Q<T>, bool)
    requires arriving || q.idleWaiters > 0
  {
    var q1 := if arriving then q.(idleWaiters := q.idleWaiters + 1) else q;
    if IsIdle(q1) then (q1.(idleWaiters := q1.idleWaiters - 1), true) else (q1, false)
  }

  class WorkQueue<T> {
    var queue: seq<Item<T>>
    const maxWaiting: nat
    var waiting: nat
    var idleWaiters: nat

    function View(): Q<T>
      reads this
    {
      Q(queue, maxWaiting, waiting, idleWaiters)
    }

    constructor (maxWorkers: nat)
      ensures View() == Q([], maxWorkers, 0, 0)
    {
      queue, maxWaiting, waiting, idleWaiters := [], maxWorkers, 0, 0;
    }

    method Enqueue(item: Item<T>)
      modifies this`queue
      ensures View() == Enqueued(old(View()), item)
    {
      queue := queue + [item];
    }

    method Dequeue(arriving: bool) returns (turn: Turn<T>)
      requires arriving || waiting > 0
      modifies this`queue, this`waiting
      ensures (View(), turn) == DequeueTurn(old(View()), arriving)
    {
      if arriving {
        waiting := waiting + 1;
      }
      if queue == [] {
        return Blocked(waiting == maxWaiting && idleWaiters > 0);
      }
      waiting := waiting - 1;
      turn := Took(queue[0]);
      queue := queue[1..];
    }

    method WaitForIdle(arriving: bool) returns (returned: bool)
      requires arriving || idleWaiters > 0
      modifies this`idleWaiters
      ensures (View(), returned) == IdleTurn(old(View()), arriving)
    {
      if arriving {
        idleWaiters := idleWaiters + 1;
      }
      returned := queue == [] && waiting == maxWaiting;
      if returned {
        idleWaiters := idleWaiters - 1;
      }
    }
  }
}

/** All interleavings of a pool of workers, producers and threads that wait for idle. */
module WorkerPool {
  import opened WorkQueues

  /** A worker is outside the queue, possibly working on the item it took; inside it,
      asleep or woken; or it has taken EXIT and is gone.  Items are numbered in the order
      in which they were enqueued. */
  datatype Worker = Outside | Working(k: nat) | Asleep | Woken | Gone

  datatype Pool<T> = Pool(q: Q<T>, workers: seq<Worker>, waiters: map<nat, bool>,
                          log: seq<Item<T>>,   // every item ever enqueued
                          takers: seq<nat>)    // takers[k] is the worker that took item k

  predicate Inside(w: Worker) { w.Asleep? || w.Woken? }

  datatype Act<T> =
    | Send(item: Item<T>, wake: nat)     // `wake` is the worker that the signal reaches
    | Arrive(w: nat, wake: nat)          // a worker finishes its item and enters `dequeue`
    | Retry(w: nat, wake: nat)           // a woken worker looks at the queue again
    | Nudge(w: nat)                      // a spurious wakeup of a worker
    | AwaitIdle(i: nat)                  // a thread calls `wait_for_idle`
    | RecheckIdle(i: nat)                // a woken waiter looks again
    | NudgeIdle(i: nat)                  // a spurious wakeup of a waiter

  /** A signal wakes one sleeper if there is one. */
  function Signal(workers: seq<Worker>, w: nat): seq<Worker> {
    if w < |workers| && workers[w].Asleep? then workers[w := Woken] else workers
  }

  predicate CanSignal(workers: seq<Worker>, w: nat) {
    (exists i :: 0 <= i < |workers| && workers[i].Asleep?) ==> w < |workers| && workers[w].Asleep?
  }

  function SignalIdle(waiters: map<nat, bool>, i: nat): map<nat, bool> {
    if i in waiters && !waiters[i] then waiters[i := true] else waiters
  }

  predicate CanSignalIdle(waiters: map<nat, bool>, i: nat) {
    (exists j :: j in waiters && !waiters[j]) ==> i in waiters && !waiters[i]
  }

  predicate CanTurn<T>(p: Pool<T>, w: nat, wake: nat, arriving: bool) {
    && w < |p.workers| && CanSignalIdle(p.waiters, wake)
    && if arriving then p.workers[w].Outside? || p.workers[w].Working? else p.workers[w].Woken? && p.q.waiting > 0
  }

  /** What a worker's pass through `dequeue` does to the pool. */
  function DoTurn<T>(p: Pool<T>, w: nat, wake: nat, arriving: bool): Pool<T>
    requires CanTurn(p, w, wake, arriving)
  {
    var (q, turn) := DequeueTurn(p.q, arriving);
    match turn
    case Blocked(signal) =>
      p.(q := q, workers := p.workers[w := Asleep],
         waiters := if signal then SignalIdle(p.waiters, wake) else p.waiters)
    case Took(item) =>
      p.(q := q, workers := p.workers[w := if item.Exit? then Gone else Working(|p.takers|)],
         takers := p.takers + [w])
  }

  predicate CanAct<T>(p: Pool<T>, a: Act<T>) {
    match a
    case Send(item, wake) => CanSignal(p.workers, wake)
    case Arrive(w, wake) => CanTurn(p, w, wake, true)
    case Retry(w, wake) => CanTurn(p, w, wake, false)
    case Nudge(w) => w < |p.workers| && p.workers[w].Asleep?
    case AwaitIdle(i) => i !in p.waiters
    case RecheckIdle(i) => i in p.waiters && p.waiters[i] && p.q.idleWaiters > 0
    case NudgeIdle(i) => i in p.waiters && !p.waiters[i]
  }

  function Do<T>(p: Pool<T>, a: Act<T>): Pool<T>
    requires CanAct(p, a)
  {
    match a
    case Send(item, wake) =>
      p.(q := Enqueued(p.q, item), workers := Signal(p.workers, wake), log := p.log + [item])
    case Arrive(w, wake) => DoTurn(p, w, wake, true)
    case Retry(w, wake) => DoTurn(p, w, wake, false)
    case Nudge(w) => p.(workers := p.workers[w := Woken])
    case AwaitIdle(i) =>
      var (q, returned) := IdleTurn(p.q, true);
      p.(q := q, waiters := if returned then p.waiters else p.waiters[i := false])
    case RecheckIdle(i) =>
      var (q, returned) := IdleTurn(p.q, false);
      p.(q := q, waiters := if returned then p.waiters - {i} else p.waiters[i := false])
    case NudgeIdle(i) => p.(waiters := p.waiters[i := true])
  }

  /** The call of `wait_for_idle` that this action makes returns. */
  predicate IdleReturns<T>(p: Pool<T>, a: Act<T>)
    requires CanAct(p, a)
  {
    match a
    case AwaitIdle(i) => IdleTurn(p.q, true).1
    case RecheckIdle(i) => IdleTurn(p.q, false).1
    case _ => false
  }

  ghost predicate Start<T>(p: Pool<T>, n: nat) {
    && p.q == Q([], n, 0, 0) && p.workers == seq(n, i => Outside) && p.waiters == map[]
    && p.log == [] && p.takers == []
  }

  ghost predicate IsRun<T>(n: nat, ps: seq<Pool<T>>, acts: seq<Act<T>>) {
    && |ps| == |acts| + 1
    && Start(ps[0], n)
    && forall i :: 0 <= i < |acts| ==> CanAct(ps[i], acts[i]) && ps[i + 1] == Do(ps[i], acts[i])
  }

  // ----- the invariant -----

  function InsideCount(ws: seq<Worker>): nat {
    if ws == [] then 0 else InsideCount(ws[..|ws| - 1]) + if Inside(ws[|ws| - 1]) then 1 else 0
  }

  function GoneCount(ws: seq<Worker>): nat {
    if ws == [] then 0 else GoneCount(ws[..|ws| - 1]) + if ws[|ws| - 1].Gone? then 1 else 0
  }

  function ExitCount<T>(items: seq<Item<T>>): nat {
    if items == [] then 0 else ExitCount(items[..|items| - 1]) + if items[|items| - 1].Exit? then 1 else 0
  }

  ghost predicate Inv<T>(n: nat, p: Pool<T>) {
    && |p.workers| == n && p.q.maxWaiting == n
    && |p.takers| <= |p.log|
    && p.q.queue == p.log[|p.takers|..]
    && p.q.waiting == InsideCount(p.workers)
    && p.q.idleWaiters == |p.waiters|
    && GoneCount(p.workers) == ExitCount(p.log[..|p.takers|])
    && (forall w :: 0 <= w < n && p.workers[w].Working? ==>
          p.workers[w].k < |p.takers| && p.takers[p.workers[w].k] == w && p.log[p.workers[w].k].Job?)
    && (forall k :: 0 <= k < |p.takers| ==> p.takers[k] < n)
  }

  lemma {:induction false} CountUpdate(ws: seq<Worker>, w: nat, x: Worker)
    requires w < |ws|
    ensures InsideCount(ws[w := x]) == InsideCount(ws) - (if Inside(ws[w]) then 1 else 0) + (if Inside(x) then 1 else 0)
    ensures GoneCount(ws[w := x]) == GoneCount(ws) - (if ws[w].Gone? then 1 else 0) + (if x.Gone? then 1 else 0)
    decreases |ws|
  {
    var front, front' := ws[..|ws| - 1], ws[w := x][..|ws| - 1];
    if w < |ws| - 1 {
      CountUpdate(front, w, x);
      assert front' == front[w := x];
    } else {
      assert front' == front;
    }
  }

  lemma {:induction false} InsideCountBound(ws: seq<Worker>)
    ensures InsideCount(ws) <= |ws|
    ensures InsideCount(ws) == |ws| ==> forall i :: 0 <= i < |ws| ==> Inside(ws[i])
  {
    if ws != [] {
      InsideCountBound(ws[..|ws| - 1]);
    }
  }

  lemma {:induction false} GoneCountBound(ws: seq<Worker>)
    ensures GoneCount(ws) <= |ws|
    ensures GoneCount(ws) == |ws| <==> forall i :: 0 <= i < |ws| ==> ws[i].Gone?
  {
    if ws != [] {
      GoneCountBound(ws[..|ws| - 1]);
    }
  }

  lemma {:induction false} AllOutside(n: nat)
    ensures InsideCount(seq(n, i => Outside)) == 0 && GoneCount(seq(n, i => Outside)) == 0
  {
    if n > 0 {
      AllOutside(n - 1);
      var all: seq<Worker> := seq(n, i => Outside);
      assert all[..n - 1] == seq(n - 1, i => Outside);
    }
  }

  lemma {:induction false} ExitCountSplit<T>(a: seq<Item<T>>, b: seq<Item<T>>)
    ensures ExitCount(a + b) == ExitCount(a) + ExitCount(b)
    decreases |b|
  {
    if b == [] {
      assert a + b == a;
    } else {
      var b' := b[..|b| - 1];
      assert (a + b)[..|a + b| - 1] == a + b';
      ExitCountSplit(a, b');
    }
  }

  lemma TakeKeeps<T>(n: nat, p: Pool<T>, w: nat, wake: nat, arriving: bool)
    requires Inv(n, p) && CanTurn(p, w, wake, arriving) && p.q.queue != []
    ensures Inv(n, DoTurn(p, w, wake, arriving))
  {
    var k := |p.takers|;
    var p' := DoTurn(p, w, wake, arriving);
    CountUpdate(p.workers, w, p'.workers[w]);
    assert p.log[..k + 1] == p.log[..k] + [p.log[k]];
    assert p.log[..k + 1][..k] == p.log[..k];
    assert p'.q.queue == p.log[k + 1..];
  }

  lemma BlockKeeps<T>(n: nat, p: Pool<T>, w: nat, wake: nat, arriving: bool)
    requires Inv(n, p) && CanTurn(p, w, wake, arriving) && p.q.queue == []
    ensures Inv(n, DoTurn(p, w, wake, arriving))
  {
    CountUpdate(p.workers, w, Asleep);
    SignalIdleSize(p.waiters, wake);
  }

  lemma SignalIdleSize(waiters: map<nat, bool>, i: nat)
    ensures |SignalIdle(waiters, i)| == |waiters|
  {
    assert SignalIdle(waiters, i).Keys == waiters.Keys;
    assert |waiters| == |waiters.Keys| && |SignalIdle(waiters, i)| == |SignalIdle(waiters, i).Keys|;
  }

  lemma SendKeeps<T>(n: nat, p: Pool<T>, item: Item<T>, wake: nat)
    requires Inv(n, p) && CanAct(p, Send(item, wake))
    ensures Inv(n, Do(p, Send(item, wake)))
  {
    var p' := Do(p, Send(item, wake));
    if wake < n {
      CountUpdate(p.workers, wake, Woken);
    }
    assert p'.log[..|p.takers|] == p.log[..|p.takers|];
    assert p'.q.queue == p'.log[|p.takers|..];
  }

  lemma IdleKeeps<T>(n: nat, p: Pool<T>, a: Act<T>)
    requires Inv(n, p) && CanAct(p, a) && (a.AwaitIdle? || a.RecheckIdle? || a.NudgeIdle?)
    ensures Inv(n, Do(p, a))
  {
    var waiters' := Do(p, a).waiters;
    assert |waiters'| == |waiters'.Keys| && |p.waiters| == |p.waiters.Keys|;
    match a
    case AwaitIdle(i) => assert waiters'.Keys == p.waiters.Keys || waiters'.Keys == p.waiters.Keys + {i};
    case RecheckIdle(i) => assert waiters'.Keys == p.waiters.Keys || waiters'.Keys == p.waiters.Keys - {i};
    case NudgeIdle(i) => assert waiters'.Keys == p.waiters.Keys;
  }

  lemma TurnKeeps<T>(n: nat, p: Pool<T>, w: nat, wake: nat, arriving: bool)
    requires Inv(n, p) && CanTurn(p, w, wake, arriving)
    ensures Inv(n, DoTurn(p, w, wake, arriving))
  {
    if p.q.queue == [] {
      BlockKeeps(n, p, w, wake, arriving);
    } else {
      TakeKeeps(n, p, w, wake, arriving);
    }
  }

  lemma ActKeeps<T>(n: nat, p: Pool<T>, a: Act<T>)
    requires Inv(n, p) && CanAct(p, a)
    ensures Inv(n, Do(p, a))
  {
    match a
    case Send(item, wake) => SendKeeps(n, p, item, wake);
    case Arrive(w, wake) => TurnKeeps(n, p, w, wake, true);
    case Retry(w, wake) => TurnKeeps(n, p, w, wake, false);
    case Nudge(w) => CountUpdate(p.workers, w, Woken);
    case _ => IdleKeeps(n, p, a);
  }

  lemma {:induction false} RunKeeps<T>(n: nat, ps: seq<Pool<T>>, acts: seq<Act<T>>, i: nat)
    requires IsRun(n, ps, acts) && i < |ps|
    ensures Inv(n, ps[i])
  {
    if i == 0 {
      AllOutside(n);
    } else {
      RunKeeps(n, ps, acts, i - 1);
      ActKeeps(n, ps[i - 1], acts[i - 1]);
    }
  }

  // ----- idle means done -----

  /** Item `k` has been handed to its one taker, who is no longer working on it. */
  ghost predicate Done<T>(p: Pool<T>, k: nat) {
    k < |p.takers| && forall w :: 0 <= w < |p.workers| ==> p.workers[w] != Working(k)
  }

  /** When `wait_for_idle` returns, every item that was ever enqueued has been delivered
      and fully processed. */
  lemma IdleMeansDone<T>(n: nat, ps: seq<Pool<T>>, acts: seq<Act<T>>, i: nat)
    requires IsRun(n, ps, acts) && i < |acts| && CanAct(ps[i], acts[i]) && IdleReturns(ps[i], acts[i])
    ensures forall k :: 0 <= k < |ps[i].log| ==> Done(ps[i], k)
  {
    RunKeeps(n, ps, acts, i);
    InsideCountBound(ps[i].workers);
    assert |ps[i].takers| == |ps[i].log|;
  }

  /** Delivery is in order and each item goes to exactly one worker: a take hands out the
      first item that has no taker yet, and no later action changes who took what. */
  lemma DeliveryIsFifo<T>(n: nat, ps: seq<Pool<T>>, acts: seq<Act<T>>, i: nat)
    requires IsRun(n, ps, acts) && i < |acts|
    ensures ps[i].takers <= ps[i + 1].takers && ps[i].log <= ps[i + 1].log
    ensures |ps[i + 1].takers| <= |ps[i].takers| + 1
    ensures |ps[i + 1].takers| == |ps[i].takers| + 1 ==>
              var k, w := |ps[i].takers|, ps[i + 1].takers[|ps[i].takers|];
              && k < |ps[i].log| && w < n
              && ps[i + 1].workers[w] == if ps[i].log[k].Exit? then Gone else Working(k)
  {
    RunKeeps(n, ps, acts, i);
    assert CanAct(ps[i], acts[i]) && ps[i + 1] == Do(ps[i], acts[i]);
  }

  // ----- the idle signal -----

  /** A sleeping idle waiter waits for something that is still false. */
  ghost predicate IdleOk<T>(p: Pool<T>) {
    forall i :: i in p.waiters && !p.waiters[i] ==> !IsIdle(p.q)
  }

  function Sleeping<T>(p: Pool<T>): set<nat> { set i | i in p.waiters && !p.waiters[i] }

  lemma LoneMember(s: set<nat>, i: nat)
    requires i in s
    ensures |s| <= 1 <==> s == {i}
  {
    assert |s - {i}| == |s| - 1;
    assert s == (s - {i}) + {i};
  }

  /** The exact effect of a turn that leaves the pool idle: nobody is left asleep iff at most
      one waiter slept before it. */
  lemma TurnExact<T>(n: nat, p: Pool<T>, w: nat, wake: nat, arriving: bool)
    requires Inv(n, p) && CanTurn(p, w, wake, arriving) && IsIdle(DoTurn(p, w, wake, arriving).q)
    ensures IdleOk(DoTurn(p, w, wake, arriving)) <==> |Sleeping(p)| <= 1
  {
    var p' := DoTurn(p, w, wake, arriving);
    TurnTakes(n, p, w, wake, arriving);
    var asleep := Sleeping(p);
    if i :| i in asleep {
      assert wake in asleep;
      LoneMember(asleep, wake);
      assert |p.waiters| > 0 by { assert i in p.waiters; }
      assert p'.waiters == p.waiters[wake := true];
      if j :| j in asleep && j != wake {
        assert j in p'.waiters && !p'.waiters[j];
        assert asleep != {wake};
      } else {
        assert asleep == {wake};
        assert forall k :: k in p'.waiters && k != wake ==> k !in asleep;
      }
    } else {
      assert asleep == {} && wake !in asleep;
      assert p'.waiters == p.waiters;
      assert forall k :: k in p.waiters ==> k !in asleep;
    }
  }

  /** A turn that takes an item does not leave the pool idle. */
  lemma TurnTakes<T>(n: nat, p: Pool<T>, w: nat, wake: nat, arriving: bool)
    requires Inv(n, p) && CanTurn(p, w, wake, arriving)
    ensures p.q.queue != [] ==> !IsIdle(DoTurn(p, w, wake, arriving).q)
  {
    var p' := DoTurn(p, w, wake, arriving);
    CountUpdate(p.workers, w, p'.workers[w]);
    InsideCountBound(p'.workers);
  }

  lemma TurnIdleOk<T>(n: nat, p: Pool<T>, w: nat, wake: nat, arriving: bool)
    requires Inv(n, p) && CanTurn(p, w, wake, arriving) && |Sleeping(p)| <= 1
    ensures IdleOk(DoTurn(p, w, wake, arriving))
  {
    if IsIdle(DoTurn(p, w, wake, arriving).q) {
      TurnExact(n, p, w, wake, arriving);
    }
  }

  lemma ActIdleOk<T>(n: nat, p: Pool<T>, a: Act<T>)
    requires Inv(n, p) && CanAct(p, a) && IdleOk(p) && |Sleeping(p)| <= 1
    ensures IdleOk(Do(p, a))
  {
    match a
    case Arrive(w, wake) => TurnIdleOk(n, p, w, wake, true);
    case Retry(w, wake) => TurnIdleOk(n, p, w, wake, false);
    case _ =>
  }

  /** While at most one idle waiter sleeps at a time the idle signal is never lost. */
  lemma {:induction false} IdleSignalNotLost<T>(n: nat, ps: seq<Pool<T>>, acts: seq<Act<T>>, i: nat)
    requires IsRun(n, ps, acts) && i < |ps| && forall j :: 0 <= j < i ==> |Sleeping(ps[j])| <= 1
    ensures forall t :: t in ps[i].waiters && !ps[i].waiters[t] ==> !IsIdle(ps[i].q)
  {
    if i > 0 {
      IdleSignalNotLost(n, ps, acts, i - 1);
      RunKeeps(n, ps, acts, i - 1);
      assert |Sleeping(ps[i - 1])| <= 1 && ps[i] == Do(ps[i - 1], acts[i - 1]);
      ActIdleOk(n, ps[i - 1], acts[i - 1]);
    }
  }

  /** With two idle waiters it can be: one worker, two waiters, and the single signal
      that the worker sends on arrival reaches only one of them. */
  lemma TwoWaitersCanLoseIt() returns (ps: seq<Pool<int>>, acts: seq<Act<int>>)
    ensures IsRun(1, ps, acts)
    ensures var p := ps[|acts|]; 1 in p.waiters && !p.waiters[1] && IsIdle(p.q)
  {
    acts := [AwaitIdle(0), AwaitIdle(1), Arrive(0, 0)];
    var p0: Pool<int> := Pool(Q([], 1, 0, 0), [Outside], map[], [], []);
    var p1 := Do(p0, acts[0]);
    var p2 := Do(p1, acts[1]);
    assert CanSignalIdle(p2.waiters, 0);
    ps := [p0, p1, p2, Do(p2, acts[2])];
    assert seq(1, i => Outside) == [Outside];
  }

  // ----- the work signal -----

  function WokenCount(ws: seq<Worker>): nat {
    if ws == [] then 0 else WokenCount(ws[..|ws| - 1]) + if ws[|ws| - 1].Woken? then 1 else 0
  }

  lemma {:induction false} WokenUpdate(ws: seq<Worker>, w: nat, x: Worker)
    requires w < |ws|
    ensures WokenCount(ws[w := x]) == WokenCount(ws) - (if ws[w].Woken? then 1 else 0) + (if x.Woken? then 1 else 0)
    decreases |ws|
  {
    var front, front' := ws[..|ws| - 1], ws[w := x][..|ws| - 1];
    if w < |ws| - 1 {
      WokenUpdate(front, w, x);
      assert front' == front[w := x];
    } else {
      assert front' == front;
    }
  }

  predicate SomeAsleep(ws: seq<Worker>) { exists i :: 0 <= i < |ws| && ws[i].Asleep? }

  /** While some worker sleeps, every queued item has a woken worker on its way. */
  ghost predicate Served<T>(p: Pool<T>) { SomeAsleep(p.workers) ==> WokenCount(p.workers) >= |p.q.queue| }

  lemma ActServed<T>(p: Pool<T>, a: Act<T>)
    requires Served(p) && CanAct(p, a)
    ensures Served(Do(p, a))
  {
    var p' := Do(p, a);
    match a
    case Send(item, wake) =>
      if SomeAsleep(p.workers) {
        WokenUpdate(p.workers, wake, Woken);
      }
    case Arrive(w, wake) => TurnServed(p, w, wake, true);
    case Retry(w, wake) => TurnServed(p, w, wake, false);
    case Nudge(w) => WokenUpdate(p.workers, w, Woken);
    case _ =>
  }

  lemma TurnServed<T>(p: Pool<T>, w: nat, wake: nat, arriving: bool)
    requires Served(p) && CanTurn(p, w, wake, arriving)
    ensures Served(DoTurn(p, w, wake, arriving))
  {
    var p' := DoTurn(p, w, wake, arriving);
    WokenUpdate(p.workers, w, p'.workers[w]);
    if p.q.queue != [] && SomeAsleep(p'.workers) {
      var i :| 0 <= i < |p'.workers| && p'.workers[i].Asleep?;
      assert p.workers[i].Asleep?;
    }
  }

  /** No work signal is lost: an item never waits in the queue while all the workers that
      could take it sleep. */
  lemma {:induction false} WorkSignalNotLost<T>(n: nat, ps: seq<Pool<T>>, acts: seq<Act<T>>, i: nat)
    requires IsRun(n, ps, acts) && i < |ps|
    ensures SomeAsleep(ps[i].workers) ==> WokenCount(ps[i].workers) >= |ps[i].q.queue|
  {
    if i > 0 {
      WorkSignalNotLost(n, ps, acts, i - 1);
      ActServed(ps[i - 1], acts[i - 1]);
    }
  }

  // ----- stopping the pool -----

  predicate AllGone<T>(p: Pool<T>) { forall w :: 0 <= w < |p.workers| ==> p.workers[w].Gone? }

  /** When all workers are gone, everything enqueued before the last of the EXIT items
      they took has been delivered and processed; and as long as enough EXIT items have
      been sent, a worker that is still there finds the queue non-empty. */
  lemma ExitStopsAll<T>(n: nat, ps: seq<Pool<T>>, acts: seq<Act<T>>, i: nat, m: nat)
    requires IsRun(n, ps, acts) && i < |ps| && m <= |ps[i].log| && ExitCount(ps[i].log[..m]) == n
    requires m > 0 ==> ps[i].log[m - 1].Exit?
    ensures AllGone(ps[i]) <==> |ps[i].takers| >= m
    ensures !AllGone(ps[i]) ==> ps[i].q.queue != []
    ensures AllGone(ps[i]) ==> forall k :: 0 <= k < m ==> Done(ps[i], k)
  {
    RunKeeps(n, ps, acts, i);
    var p, taken := ps[i], |ps[i].takers|;
    GoneCountBound(p.workers);
    if taken < m {
      ExitPrefix(p.log, taken, m);
    } else {
      assert p.log[..taken] == p.log[..m] + p.log[m..taken];
      ExitCountSplit(p.log[..m], p.log[m..taken]);
    }
  }

  /** Cutting a log before its last EXIT loses at least that one. */
  lemma ExitPrefix<T>(log: seq<Item<T>>, k: nat, m: nat)
    requires k < m <= |log| && log[m - 1].Exit?
    ensures ExitCount(log[..k]) < ExitCount(log[..m])
  {
    assert log[..m][..m - 1] == log[..m - 1];
    assert log[..m - 1] == log[..k] + log[k..m - 1];
    ExitCountSplit(log[..k], log[k..m - 1]);
  }
}
