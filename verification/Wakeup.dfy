/** Sleeping and waking on the two condition variables of the buffer, layered over the
    protocol steps: no wakeup is lost. */
module Wakeup {
  import opened PageBuffer
  import opened UmapProtocol
  import opened ProtocolInvariant
  import opened ProtocolSteps

  type Thread = nat

  /** What a thread waits for: the fault handler for a page to settle or for a free
      descriptor, the other threads for a descriptor to become PRESENT or FREE. */
  datatype Cond = Settled(p: Page) | Available | Becomes(d: nat, freed: bool)

  predicate Holds(b: Buf, q: Cond) {
    match q
    case Settled(p) => p !in b.present || (b.present[p] < |b.desc| && b.desc[b.present[p]].state == PRESENT)
    case Available => b.free != []
    case Becomes(d, freed) => d < |b.desc| && b.desc[d].state == if freed then FREE else PRESENT
  }

  /** A waiter sleeps until it is signalled and then, awake, has still to run. */
  datatype Waiter = Waiter(q: Cond, awake: bool)

  /** `stateWaits` and `availWaits` are the counters that decide whether a broadcast is
      sent. */
  datatype World = World(s: State, waiters: map<Thread, Waiter>, stateWaits: int, availWaits: int)

  predicate Asleep(w: World, t: Thread) { t in w.waiters && !w.waiters[t].awake }

  /** Steps that broadcast the state-change condition when its counter is not zero. */
  predicate ChangesState(l: Label) {
    (l.Fill? && l.fill == FillFinish) || (l.Evict? && l.evict == EvictFinish) || l == UnmapBy(DrainFree)
  }

  /** Steps that put a descriptor on the free list and so broadcast the other condition. */
  predicate Releases(s: State, l: Label) {
    || (l.Evict? && l.evict == EvictFinish && ValidEvict(s, l.t) && !s.b.desc[s.evicts[l.t].d].deferred)
    || (l == UnmapBy(DrainFree) && s.unmap.Dispatch? && s.unmap.d < |s.b.desc| && !s.b.desc[s.unmap.d].deferred)
    || l == UnmapBy(DrainRelease)
  }

  predicate Signalled(w: World, l: Label, q: Cond) {
    if q.Available? then Releases(w.s, l) && w.availWaits > 0 else ChangesState(l) && w.stateWaits > 0
  }

  datatype Action =
    | Protocol(l: Label)
    | Sleep(thread: Thread, q: Cond)
    | Spurious(thread: Thread)
    | Resume(thread: Thread)

  predicate CanAct(c: Config, w: World, a: Action) {
    match a
    case Protocol(l) => Can(c, w.s, l)
    case Sleep(t, q) => t !in w.waiters && !Holds(w.s.b, q)
    case Spurious(t) => Asleep(w, t)
    case Resume(t) => t in w.waiters && w.waiters[t].awake
  }

  /** A broadcast wakes every waiter of its condition variable. */
  function Broadcast(w: World, l: Label): map<Thread, Waiter> {
    map t | t in w.waiters :: Waiter(w.waiters[t].q, w.waiters[t].awake || Signalled(w, l, w.waiters[t].q))
  }

  /** Going to sleep for a free descriptor bumps both counters. */
  function Slept(w: World, t: Thread, q: Cond): World {
    w.(waiters := w.waiters[t := Waiter(q, false)], stateWaits := w.stateWaits + 1,
       availWaits := if q.Available? then w.availWaits + 1 else w.availWaits)
  }

  function Roused(w: World, t: Thread): World
    requires t in w.waiters
  {
    w.(waiters := w.waiters[t := w.waiters[t].(awake := true)])
  }

  /** Waking up from a sleep for a descriptor takes only one of the counters down. */
  function Resumed(w: World, t: Thread): World
    requires t in w.waiters
  {
    if w.waiters[t].q.Available? then w.(waiters := w.waiters - {t}, availWaits := w.availWaits - 1)
    else w.(waiters := w.waiters - {t}, stateWaits := w.stateWaits - 1)
  }

  function Act(c: Config, w: World, a: Action): World
    requires CanAct(c, w, a)
  {
    match a
    case Protocol(l) => w.(s := Do(c, w.s, l), waiters := Broadcast(w, l))
    case Sleep(t, q) => Slept(w, t, q)
    case Spurious(t) => Roused(w, t)
    case Resume(t) => Resumed(w, t)
  }

  function Counted(w: World, avail: bool): set<Thread> {
    set t | t in w.waiters && w.waiters[t].q.Available? == avail
  }

  ghost predicate Sleepers(w: World) {
    forall t :: Asleep(w, t) ==> !Holds(w.s.b, w.waiters[t].q)
  }

  ghost predicate Covered(w: World) {
    |Counted(w, false)| <= w.stateWaits && |Counted(w, true)| <= w.availWaits
  }

  /** Sleepers wait for something false and each counter covers its waiters. */
  ghost predicate WorldInv(c: Config, w: World) { Inv(c, w.s) && Sleepers(w) && Covered(w) }

  // ----- which steps can make a condition true -----

  lemma FillQuiet(c: Config, s: State, f: FillStep, t: nat, q: Cond)
    requires CanFill(s, f, t) && !Holds(s.b, q) && (f == FillFinish ==> q.Available?)
    ensures !Holds(DoFill(s, f, t).b, q)
  {
  }

  lemma EvictQuiet(c: Config, s: State, e: EvictStep, t: nat, q: Cond)
    requires CanEvict(s, e, t) && !Holds(s.b, q)
    requires e == EvictFinish ==> q.Available? && s.b.desc[s.evicts[t].d].deferred
    ensures !Holds(DoEvict(s, e, t).b, q)
  {
    if e == EvictClear {
      ClearQuiet(s, t, q);
    } else if e == EvictFinish {
      MarkFreeQuiet(s.b, s.evicts[t].d);
    } else {
      assert DoEvict(s, e, t).b == s.b;
    }
  }

  lemma ClearQuiet(s: State, t: nat, q: Cond)
    requires ValidEvict(s, t) && !Holds(s.b, q)
    ensures !Holds(DoEvictClear(s, t).b, q)
  {
  }

  lemma FaultQuiet(c: Config, s: State, p: Page, w: bool, t: nat, q: Cond)
    requires ListsI(c, s) && IndexI(c, s) && CanFaultNew(c, s, p, t) && !Holds(s.b, q)
    ensures !Holds(DoFaultNew(c, s, p, w, t).b, q)
  {
    assert s.b.free[|s.b.free| - 1] in s.b.free;
  }

  lemma UpgradeQuiet(c: Config, s: State, p: Page, t: nat, q: Cond)
    requires IndexI(c, s) && CanFaultUpgrade(c, s, p, t) && !Holds(s.b, q)
    ensures !Holds(DoFaultUpgrade(c, s, p, t).b, q)
  {
  }

  lemma ManageQuiet(c: Config, s: State, m: ManagerStep, q: Cond)
    requires CanManage(c, s, m) && !Holds(s.b, q)
    ensures !Holds(DoManage(c, s, m).b, q)
  {
  }

  lemma UnmapQuiet(c: Config, s: State, u: UnmapStep, q: Cond)
    requires CanUnmap(s, u) && !Holds(s.b, q) && (u == DrainRelease ==> !q.Available?)
    requires u == DrainFree ==> q.Available? && s.b.desc[s.unmap.d].deferred
    ensures !Holds(DoUnmap(s, u).b, q)
  {
    if u == DrainFree {
      MarkFreeQuiet(s.b, s.unmap.d);
    }
  }

  lemma MarkFreeQuiet(b: Buf, d: nat)
    requires d < |b.desc| && b.desc[d].deferred
    ensures MarkFree(b, d).free == b.free
  {
  }

  lemma QuietStep(c: Config, s: State, l: Label, q: Cond)
    requires ListsI(c, s) && IndexI(c, s) && Can(c, s, l) && !Holds(s.b, q)
    requires if q.Available? then !Releases(s, l) else !ChangesState(l)
    ensures !Holds(Do(c, s, l).b, q)
  {
    if l.Fill? || l.Evict? {
      QuietWorker(c, s, l, q);
    } else {
      QuietOther(c, s, l, q);
    }
  }

  lemma QuietWorker(c: Config, s: State, l: Label, q: Cond)
    requires Can(c, s, l) && !Holds(s.b, q) && (l.Fill? || l.Evict?)
    requires if q.Available? then !Releases(s, l) else !ChangesState(l)
    ensures !Holds(Do(c, s, l).b, q)
  {
    match l
    case Fill(f, t) => FillQuiet(c, s, f, t, q);
    case Evict(e, t) => EvictQuiet(c, s, e, t, q);
  }

  lemma QuietOther(c: Config, s: State, l: Label, q: Cond)
    requires ListsI(c, s) && IndexI(c, s) && Can(c, s, l) && !Holds(s.b, q) && !l.Fill? && !l.Evict?
    requires if q.Available? then !Releases(s, l) else !ChangesState(l)
    ensures !Holds(Do(c, s, l).b, q)
  {
    match l
    case FaultNew(p, w, t) => FaultQuiet(c, s, p, w, t, q);
    case FaultUpgrade(p, t) => UpgradeQuiet(c, s, p, t, q);
    case Manage(m) => ManageQuiet(c, s, m, q);
    case UnmapBy(u) => UnmapQuiet(c, s, u, q);
    case FlushBy(f) => FlushQuiet(s, f);
    case _ =>
  }

  lemma FlushQuiet(s: State, f: FlushStep)
    requires CanFlush(s, f)
    ensures DoFlush(s, f).b == s.b
  {
    if f.FlushScan? {
      FlushScanIs(s, f.t);
    }
  }

  // ----- the invariant of the layer -----

  lemma SleepersStay(c: Config, w: World, l: Label)
    requires ListsI(c, w.s) && IndexI(c, w.s) && Sleepers(w) && Covered(w) && Can(c, w.s, l)
    ensures Sleepers(Act(c, w, Protocol(l)))
  {
    var w' := Act(c, w, Protocol(l));
    forall t | Asleep(w', t) ensures !Holds(w'.s.b, w'.waiters[t].q) {
      var q := w.waiters[t].q;
      assert Asleep(w, t) && t in Counted(w, q.Available?);
      QuietStep(c, w.s, l, q);
    }
  }

  lemma BroadcastCounts(w: World, l: Label, avail: bool)
    ensures Counted(w.(waiters := Broadcast(w, l)), avail) == Counted(w, avail)
  {
  }

  lemma SleptCounts(w: World, t: Thread, q: Cond)
    requires Covered(w) && t !in w.waiters
    ensures Covered(Slept(w, t, q))
  {
    var w' := Slept(w, t, q);
    assert Counted(w', q.Available?) == Counted(w, q.Available?) + {t};
    assert Counted(w', !q.Available?) == Counted(w, !q.Available?);
  }

  lemma RousedCounts(w: World, t: Thread)
    requires Covered(w) && t in w.waiters
    ensures Covered(Roused(w, t))
  {
    assert Counted(Roused(w, t), false) == Counted(w, false);
    assert Counted(Roused(w, t), true) == Counted(w, true);
  }

  lemma ResumedCounts(w: World, t: Thread)
    requires Covered(w) && t in w.waiters
    ensures Covered(Resumed(w, t))
  {
    var q, w' := w.waiters[t].q, Resumed(w, t);
    assert t in Counted(w, q.Available?);
    assert Counted(w', q.Available?) == Counted(w, q.Available?) - {t};
    assert Counted(w', !q.Available?) == Counted(w, !q.Available?);
  }

  lemma ProtocolActKeeps(c: Config, w: World, l: Label)
    requires ListsI(c, w.s) && IndexI(c, w.s) && Sleepers(w) && Covered(w) && Can(c, w.s, l)
    ensures var w' := Act(c, w, Protocol(l)); Sleepers(w') && Covered(w')
  {
    SleepersStay(c, w, l);
    BroadcastCounts(w, l, false);
    BroadcastCounts(w, l, true);
    var w' := Act(c, w, Protocol(l));
    assert Counted(w', false) == Counted(w.(waiters := Broadcast(w, l)), false);
    assert Counted(w', true) == Counted(w.(waiters := Broadcast(w, l)), true);
  }

  lemma WaitingActKeeps(c: Config, w: World, a: Action)
    requires Sleepers(w) && Covered(w) && CanAct(c, w, a) && !a.Protocol?
    ensures var w' := Act(c, w, a); Sleepers(w') && Covered(w') && w'.s == w.s
  {
    match a
    case Sleep(t, q) => SleptCounts(w, t, q);
    case Spurious(t) => RousedCounts(w, t);
    case Resume(t) => ResumedCounts(w, t);
  }

  lemma ActKeeps(c: Config, w: World, a: Action)
    requires WorldInv(c, w) && CanAct(c, w, a)
    ensures WorldInv(c, Act(c, w, a))
  {
    if a.Protocol? {
      StepKeeps(c, w.s, a.l);
      ProtocolActKeeps(c, w, a.l);
    } else {
      WaitingActKeeps(c, w, a);
    }
  }

  predicate IsWorldRun(c: Config, ws: seq<World>, acts: seq<Action>) {
    && |ws| == |acts| + 1
    && Init(c, ws[0].s) && ws[0].waiters == map[]
    && ws[0].stateWaits == 0 && ws[0].availWaits == 0
    && forall i :: 0 <= i < |acts| ==> CanAct(c, ws[i], acts[i]) && ws[i + 1] == Act(c, ws[i], acts[i])
  }

  lemma {:induction false} WorldRunKeeps(c: Config, ws: seq<World>, acts: seq<Action>, i: nat)
    requires IsWorldRun(c, ws, acts) && i < |ws|
    ensures WorldInv(c, ws[i])
  {
    if i == 0 {
      InitHolds(c, ws[0].s);
      assert Counted(ws[0], false) == {} && Counted(ws[0], true) == {};
    } else {
      WorldRunKeeps(c, ws, acts, i - 1);
      ActKeeps(c, ws[i - 1], acts[i - 1]);
    }
  }

  /** No lost wakeup: a thread that is asleep and has not been signalled waits for
      something that is still false, and the counters never under-count the waiters. */
  lemma NoLostWakeup(c: Config, ws: seq<World>, acts: seq<Action>, i: nat, t: Thread)
    requires IsWorldRun(c, ws, acts) && i < |ws| && Asleep(ws[i], t)
    ensures !Holds(ws[i].s.b, ws[i].waiters[t].q)
    ensures if ws[i].waiters[t].q.Available? then ws[i].availWaits > 0 else ws[i].stateWaits > 0
  {
    WorldRunKeeps(c, ws, acts, i);
    assert t in Counted(ws[i], ws[i].waiters[t].q.Available?);
  }

  /** Over-counting is possible: a thread that slept for a descriptor and resumed leaves
      the state counter above the number of waiters. */
  lemma StateCounterCanOverCount(w: World, t: Thread)
    requires w.waiters == map[]
    ensures var w' := Resumed(Roused(Slept(w, t, Available), t), t);
            Counted(w', false) == {} && w'.stateWaits == w.stateWaits + 1 && w'.availWaits == w.availWaits
  {
  }
}
