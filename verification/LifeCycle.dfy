/** The life of a descriptor.  The batch eviction writes the state field without the guarded
    setter, so that every change is along the guarded cycle is a fact about whole runs. */
module LifeCycle {
  import opened PageBuffer
  import opened UmapProtocol
  import opened BatchEviction

  /** Every descriptor keeps its state or moves along the cycle. */
  ghost predicate AlongCycle(desc: seq<Desc>, desc': seq<Desc>) {
    |desc'| == |desc| && forall d :: 0 <= d < |desc| ==> Moves(desc[d].state, desc'[d].state)
  }

  predicate Moves(from: DState, to: DState) { to == from || Legal(from, to) }

  lemma SetStateMoves(b: Buf, d: nat, to: DState)
    requires d < |b.desc|
    ensures AlongCycle(b.desc, SetState(b, d, to).desc)
  {
  }

  lemma MarkFreeMoves(b: Buf, d: nat)
    requires d < |b.desc|
    ensures AlongCycle(b.desc, MarkFree(b, d).desc)
  {
  }

  lemma NewPageMoves(b: Buf, p: Page, r: Region, w: bool)
    requires b.free != [] && b.free[|b.free| - 1] < |b.desc|
    ensures AlongCycle(b.desc, NewPage(b, p, r, w).desc)
  {
  }

  /** Only PRESENT pages are taken in a batch. */
  lemma BatchMoves(b: Buf)
    ensures AlongCycle(b.desc, EvictOldestPages(b).desc)
  {
    BatchConserves(b.desc, b.busy, MAX_EVICTED);
  }

  lemma FillMoves(s: State, f: FillStep, t: nat)
    requires CanFill(s, f, t)
    ensures AlongCycle(s.b.desc, DoFill(s, f, t).b.desc)
  {
    if f == FillFinish {
      SetStateMoves(s.b, s.fills[t].d, PRESENT);
    }
  }

  lemma EvictMoves(s: State, e: EvictStep, t: nat)
    requires CanEvict(s, e, t)
    ensures AlongCycle(s.b.desc, DoEvict(s, e, t).b.desc)
  {
    if e == EvictFinish {
      MarkFreeMoves(s.b, s.evicts[t].d);
    }
  }

  lemma UpgradeMoves(b: Buf, d: nat)
    requires d < |b.desc|
    ensures AlongCycle(b.desc, UpgradePage(b, d).desc)
  {
  }

  lemma FaultMoves(c: Config, s: State, p: Page, w: bool, t: nat)
    ensures CanFaultNew(c, s, p, t) ==> AlongCycle(s.b.desc, DoFaultNew(c, s, p, w, t).b.desc)
    ensures CanFaultUpgrade(c, s, p, t) ==> AlongCycle(s.b.desc, DoFaultUpgrade(c, s, p, t).b.desc)
  {
    if CanFaultNew(c, s, p, t) {
      NewPageMoves(s.b, p, c.regionOf[p], w);
    } else if CanFaultUpgrade(c, s, p, t) {
      UpgradeMoves(s.b, s.b.present[p]);
    }
  }

  lemma ManageMoves(c: Config, s: State, m: ManagerStep)
    requires CanManage(c, s, m)
    ensures AlongCycle(s.b.desc, DoManage(c, s, m).b.desc)
  {
    if m.ManagerBatch? {
      BatchMoves(s.b);
    }
  }

  lemma UnmapMoves(s: State, u: UnmapStep)
    requires CanUnmap(s, u)
    ensures AlongCycle(s.b.desc, DoUnmap(s, u).b.desc)
  {
    if u == DrainFree {
      MarkFreeMoves(s.b, s.unmap.d);
    }
  }

  lemma StepMoves(c: Config, s: State, l: Label)
    requires Can(c, s, l)
    ensures AlongCycle(s.b.desc, Do(c, s, l).b.desc)
  {
    match l
    case Fill(f, t) => FillMoves(s, f, t);
    case Evict(e, t) => EvictMoves(s, e, t);
    case Manage(m) => ManageMoves(c, s, m);
    case UnmapBy(u) => UnmapMoves(s, u);
    case FaultNew(p, w, t) => FaultMoves(c, s, p, w, t);
    case FaultUpgrade(p, t) => FaultMoves(c, s, p, false, t);
    case _ => OthersStay(c, s, l);
  }

  lemma OthersStay(c: Config, s: State, l: Label)
    requires Can(c, s, l) && (l.AppWrite? || l.MapRegion? || l.FaultSpurious? || l.FlushBy?)
    ensures Do(c, s, l).b.desc == s.b.desc
  {
    if l.FlushBy? {
      FlushStays(s, l.flush);
    }
  }

  lemma FlushStays(s: State, f: FlushStep)
    requires CanFlush(s, f)
    ensures DoFlush(s, f).b.desc == s.b.desc
  {
    match f
    case FlushBegin =>
    case FlushScan(t) => ScanStays(s, t);
    case FlushEnd =>
  }

  lemma ScanStays(s: State, t: nat)
    requires CanFlushScan(s, t)
    ensures DoFlushScan(s, t).b.desc == s.b.desc
  {
    var scanned := s.(flush := s.flush.(next := s.flush.next + 1));
    assert scanned.b.desc == s.b.desc;
  }

  /** In every run every change of state is FREE to FILLING, FILLING or UPDATING to PRESENT,
      PRESENT to UPDATING or LEAVING, or LEAVING to FREE. */
  lemma LifeCycleIsGuarded(c: Config, ss: seq<State>, ls: seq<Label>, i: nat, d: nat)
    requires IsRun(c, ss, ls) && i < |ls| && d < |ss[i].b.desc|
    ensures d < |ss[i + 1].b.desc|
    ensures var from, to := ss[i].b.desc[d].state, ss[i + 1].b.desc[d].state;
            || to == from
            || (from == FREE && to == FILLING)
            || (from == FILLING && to == PRESENT)
            || (from == PRESENT && to == UPDATING)
            || (from == UPDATING && to == PRESENT)
            || (from == PRESENT && to == LEAVING)
            || (from == LEAVING && to == FREE)
  {
    StepAt(c, ss, ls, i);
    StepMoves(c, ss[i], ls[i]);
  }
}
