/** The evict workers as a pool over the work queue, beside the protocol.  The protocol's guard
    that the table of evict items is empty stands for the return of the wait for idle; here the
    two go side by side and the one is shown to follow from the other. */
module EvictPool {
  import opened Options
  import opened WorkQueues
  import U = UmapProtocol
  import P = WorkerPool

  datatype Joint = Joint(s: U.State, p: P.Pool<nat>)

  datatype Move =
    | Protocol(l: U.Label)           // a step that sends nothing to the evict workers
    | Send(l: U.Label, wake: nat)    // a step that does
    | Queue(a: P.Act<nat>)           // a worker or a waiter at the queue

  /** The ticket of the evict item that a step creates. */
  function NewTicket(s: U.State, l: U.Label): Option<nat> {
    if l.Manage? && l.manage.ManagerSend? then Some(l.manage.t)
    else if l.UnmapBy? && l.unmap.UnmapLeave? then Some(l.unmap.t)
    else if l.UnmapBy? && l.unmap.DrainSend? then Some(l.unmap.t)
    else if l.FlushBy? && l.flush.FlushScan? && U.CanFlushScan(s, l.flush.t)
            && s.b.desc[s.b.busy[s.flush.next]].dirty then Some(l.flush.t)
    else None
  }

  /** Some worker has taken the item and has not come back for the next one. */
  predicate InWork(p: P.Pool<nat>, k: nat) { exists w :: 0 <= w < |p.workers| && p.workers[w] == P.Working(k) }

  predicate Holder(p: P.Pool<nat>, t: nat) { exists k :: 0 <= k < |p.log| && p.log[k] == Job(t) && InWork(p, k) }

  /** A worker takes the steps of the item it has, and comes back to the queue only when the
      item is finished. */
  predicate CanMove(c: U.Config, j: Joint, m: Move) {
    match m
    case Protocol(l) => U.Can(c, j.s, l) && NewTicket(j.s, l) == None && (l.Evict? ==> Holder(j.p, l.t))
    case Send(l, wake) =>
      U.Can(c, j.s, l) && NewTicket(j.s, l).Some? && P.CanAct(j.p, P.Send(Job(NewTicket(j.s, l).value), wake))
    case Queue(a) =>
      && P.CanAct(j.p, a) && (a.Send? ==> a.item.Exit?)
      && (a.Arrive? ==> Finished(j, j.p.workers[a.w]))
  }

  predicate Finished(j: Joint, w: P.Worker) {
    w.Working? && w.k < |j.p.log| && j.p.log[w.k].Job? ==> j.p.log[w.k].job !in j.s.evicts
  }

  function DoMove(c: U.Config, j: Joint, m: Move): Joint
    requires CanMove(c, j, m)
  {
    match m
    case Protocol(l) => j.(s := U.Do(c, j.s, l))
    case Send(l, wake) => Joint(U.Do(c, j.s, l), P.Do(j.p, P.Send(Job(NewTicket(j.s, l).value), wake)))
    case Queue(a) => j.(p := P.Do(j.p, a))
  }

  // ----- the invariant -----

  /** The item of the ticket is still queued or in work. */
  predicate Outstanding(p: P.Pool<nat>, t: nat) {
    exists k :: 0 <= k < |p.log| && p.log[k] == Job(t) && (k >= |p.takers| || InWork(p, k))
  }

  ghost predicate JointI(n: nat, j: Joint) {
    P.Inv(n, j.p) && forall t :: t in j.s.evicts ==> Outstanding(j.p, t)
  }

  // ----- the table of items -----

  ghost predicate GainsAtMost(s: U.State, s': U.State, new_: Option<nat>) {
    forall t :: t in s'.evicts ==> t in s.evicts || new_ == Some(t)
  }

  lemma EvictGains(s: U.State, e: U.EvictStep, t: nat)
    requires U.CanEvict(s, e, t)
    ensures GainsAtMost(s, U.DoEvict(s, e, t), None)
  {
  }

  lemma FillGains(s: U.State, f: U.FillStep, t: nat)
    requires U.CanFill(s, f, t)
    ensures U.DoFill(s, f, t).evicts == s.evicts
  {
  }

  lemma ManageGains(c: U.Config, s: U.State, m: U.ManagerStep)
    requires U.CanManage(c, s, m)
    ensures GainsAtMost(s, U.DoManage(c, s, m), NewTicket(s, U.Manage(m)))
  {
  }

  lemma FlushGains(s: U.State, f: U.FlushStep)
    requires U.CanFlush(s, f)
    ensures GainsAtMost(s, U.DoFlush(s, f), NewTicket(s, U.FlushBy(f)))
  {
  }

  lemma UnmapGains(s: U.State, u: U.UnmapStep)
    requires U.CanUnmap(s, u)
    ensures GainsAtMost(s, U.DoUnmap(s, u), NewTicket(s, U.UnmapBy(u)))
  {
  }

  lemma StepGains(c: U.Config, s: U.State, l: U.Label)
    requires U.Can(c, s, l)
    ensures GainsAtMost(s, U.Do(c, s, l), NewTicket(s, l))
  {
    match l
    case Evict(e, t) => EvictGains(s, e, t);
    case Fill(f, t) => FillGains(s, f, t);
    case Manage(m) => ManageGains(c, s, m);
    case FlushBy(f) => FlushGains(s, f);
    case UnmapBy(u) => UnmapGains(s, u);
    case _ => OtherGains(c, s, l);
  }

  lemma OtherGains(c: U.Config, s: U.State, l: U.Label)
    requires U.Can(c, s, l)
    requires l.AppWrite? || l.MapRegion? || l.FaultNew? || l.FaultUpgrade? || l.FaultSpurious?
    ensures U.Do(c, s, l).evicts == s.evicts
  {
  }

  // ----- the queue -----

  lemma SendOutstanding(p: P.Pool<nat>, item: Item<nat>, wake: nat, t: nat)
    requires P.CanAct(p, P.Send(item, wake)) && |p.takers| <= |p.log| && (Outstanding(p, t) || item == Job(t))
    ensures Outstanding(P.Do(p, P.Send(item, wake)), t)
  {
    var p' := P.Do(p, P.Send(item, wake));
    if Outstanding(p, t) {
      var k :| 0 <= k < |p.log| && p.log[k] == Job(t) && (k >= |p.takers| || InWork(p, k));
      assert p'.log[k] == Job(t);
      if k < |p.takers| {
        var w :| 0 <= w < |p.workers| && p.workers[w] == P.Working(k);
        assert p'.workers[w] == P.Working(k);
      }
    } else {
      assert p'.log[|p.log|] == Job(t);
    }
  }

  lemma TurnOutstanding(n: nat, p: P.Pool<nat>, w: nat, wake: nat, arriving: bool, t: nat)
    requires P.Inv(n, p) && P.CanTurn(p, w, wake, arriving) && Outstanding(p, t)
    requires p.workers[w].Working? && p.workers[w].k < |p.log| ==> p.log[p.workers[w].k] != Job(t)
    ensures Outstanding(P.DoTurn(p, w, wake, arriving), t)
  {
    var p' := P.DoTurn(p, w, wake, arriving);
    var k :| 0 <= k < |p.log| && p.log[k] == Job(t) && (k >= |p.takers| || InWork(p, k));
    if k < |p.takers| {
      var v :| 0 <= v < |p.workers| && p.workers[v] == P.Working(k);
      assert v != w && p'.workers[v] == P.Working(k);
      assert InWork(p', k);
    } else if k == |p.takers| {
      assert p.q.queue[0] == p.log[k];
      assert p'.workers[w] == P.Working(k);
      assert InWork(p', k);
    }
    assert p'.log[k] == Job(t);
  }

  lemma QueueOutstanding(n: nat, j: Joint, a: P.Act<nat>, t: nat)
    requires JointI(n, j) && t in j.s.evicts && P.CanAct(j.p, a) && (a.Send? ==> a.item.Exit?)
    requires a.Arrive? ==> Finished(j, j.p.workers[a.w])
    ensures Outstanding(P.Do(j.p, a), t)
  {
    match a
    case Send(item, wake) => SendOutstanding(j.p, item, wake, t);
    case Arrive(w, wake) => TurnOutstanding(n, j.p, w, wake, true, t);
    case Retry(w, wake) => TurnOutstanding(n, j.p, w, wake, false, t);
    case Nudge(w) => NudgeOutstanding(j.p, w, t);
    case _ => WaiterOutstanding(j.p, a, t);
  }

  lemma NudgeOutstanding(p: P.Pool<nat>, w: nat, t: nat)
    requires P.CanAct(p, P.Nudge(w)) && Outstanding(p, t)
    ensures Outstanding(P.Do(p, P.Nudge(w)), t)
  {
    var p' := P.Do(p, P.Nudge(w));
    var k :| 0 <= k < |p.log| && p.log[k] == Job(t) && (k >= |p.takers| || InWork(p, k));
    if k < |p.takers| {
      var v :| 0 <= v < |p.workers| && p.workers[v] == P.Working(k);
      assert p'.workers[v] == P.Working(k);
    }
    assert p'.log[k] == Job(t);
  }

  lemma WaiterOutstanding(p: P.Pool<nat>, a: P.Act<nat>, t: nat)
    requires P.CanAct(p, a) && (a.AwaitIdle? || a.RecheckIdle? || a.NudgeIdle?) && Outstanding(p, t)
    ensures Outstanding(P.Do(p, a), t)
  {
    var p' := P.Do(p, a);
    var k :| 0 <= k < |p.log| && p.log[k] == Job(t) && (k >= |p.takers| || InWork(p, k));
    if k < |p.takers| {
      var v :| 0 <= v < |p.workers| && p.workers[v] == P.Working(k);
      assert p'.workers[v] == P.Working(k);
    }
    assert p'.log[k] == Job(t);
  }

  lemma MoveKeeps(n: nat, c: U.Config, j: Joint, m: Move)
    requires JointI(n, j) && CanMove(c, j, m)
    ensures JointI(n, DoMove(c, j, m))
  {
    match m
    case Protocol(l) => StepGains(c, j.s, l);
    case Send(l, wake) => SendKeeps(n, c, j, l, wake);
    case Queue(a) =>
      P.ActKeeps(n, j.p, a);
      forall t | t in j.s.evicts ensures Outstanding(P.Do(j.p, a), t) {
        QueueOutstanding(n, j, a, t);
      }
  }

  lemma SendKeeps(n: nat, c: U.Config, j: Joint, l: U.Label, wake: nat)
    requires JointI(n, j) && CanMove(c, j, Send(l, wake))
    ensures JointI(n, DoMove(c, j, Send(l, wake)))
  {
    var t0 := NewTicket(j.s, l).value;
    StepGains(c, j.s, l);
    P.ActKeeps(n, j.p, P.Send(Job(t0), wake));
    forall t | t in U.Do(c, j.s, l).evicts ensures Outstanding(P.Do(j.p, P.Send(Job(t0), wake)), t) {
      SendOutstanding(j.p, Job(t0), wake, t);
    }
  }

  // ----- whole runs -----

  ghost predicate IsRun(n: nat, c: U.Config, js: seq<Joint>, ms: seq<Move>) {
    && |js| == |ms| + 1 && U.Init(c, js[0].s) && P.Start(js[0].p, n)
    && forall i :: 0 <= i < |ms| ==> CanMove(c, js[i], ms[i]) && js[i + 1] == DoMove(c, js[i], ms[i])
  }

  lemma StartHolds(n: nat, c: U.Config, j: Joint)
    requires U.Init(c, j.s) && P.Start(j.p, n)
    ensures JointI(n, j)
  {
    P.AllOutside(n);
  }

  lemma {:induction false} RunKeeps(n: nat, c: U.Config, js: seq<Joint>, ms: seq<Move>, i: nat)
    requires IsRun(n, c, js, ms) && i < |js|
    ensures JointI(n, js[i])
  {
    if i == 0 {
      StartHolds(n, c, js[0]);
    } else {
      RunKeeps(n, c, js, ms, i - 1);
      MoveKeeps(n, c, js[i - 1], ms[i - 1]);
    }
  }

  /** When the wait for idle returns, the protocol's table of evict items is empty: the guard
      under which a flush and a drain end. */
  lemma IdleReturnEmptiesTable(n: nat, c: U.Config, js: seq<Joint>, ms: seq<Move>, i: nat)
    requires IsRun(n, c, js, ms) && i < |ms| && ms[i].Queue?
    requires P.CanAct(js[i].p, ms[i].a) && P.IdleReturns(js[i].p, ms[i].a)
    ensures js[i].s.evicts == map[]
  {
    RunKeeps(n, c, js, ms, i);
    NothingOutstanding(n, js[i], ms[i].a);
    assert forall t :: t !in js[i].s.evicts;
  }

  lemma NothingOutstanding(n: nat, j: Joint, a: P.Act<nat>)
    requires P.Inv(n, j.p) && P.CanAct(j.p, a) && P.IdleReturns(j.p, a)
    ensures forall t :: !Outstanding(j.p, t)
  {
    P.InsideCountBound(j.p.workers);
    assert |j.p.takers| == |j.p.log|;
  }
}
