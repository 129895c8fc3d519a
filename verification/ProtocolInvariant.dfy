/** The invariant of the page-cache protocol. */
module ProtocolInvariant {
  import opened PageBuffer
  import opened UmapProtocol

  // ----- the lists and the indexes of the buffer -----

  predicate Resident(pd: Desc) {
    pd.state == FILLING || pd.state == PRESENT || pd.state == UPDATING
  }

  /** Every descriptor is on exactly one of the free list and the busy deque, except
      those that are leaving; a FREE descriptor is still in the deque only while it is
      deferred. */
  ghost predicate Lists(desc: seq<Desc>, free: seq<nat>, busy: seq<nat>) {
    && NoDup(free) && NoDup(busy)
    && (forall d :: d in free ==> d < |desc|)
    && (forall d :: d in busy ==> d < |desc|)
    && (forall d :: 0 <= d < |desc| && desc[d].state == FREE ==>
          (d in free <==> d !in busy) && (d in busy ==> desc[d].deferred))
    && (forall d :: 0 <= d < |desc| && desc[d].state != FREE ==>
          d !in free && (d in busy <==> Resident(desc[d]) || desc[d].deferred))
  }

  /** The present map indexes exactly the descriptors that are not FREE, injectively. */
  ghost predicate Index(regionOf: map<Page, Region>, desc: seq<Desc>, present: map<Page, nat>) {
    && (forall p :: p in present ==>
          present[p] < |desc| && desc[present[p]].state != FREE && desc[present[p]].page == p)
    && (forall d :: 0 <= d < |desc| && desc[d].state != FREE ==>
          && desc[d].page in present && present[desc[d].page] == d
          && desc[d].page in regionOf && desc[d].region == regionOf[desc[d].page])
  }

  predicate Picked(u: Unmap, r: Region, d: nat) {
    u == AwaitPresent(r, d) || u == AwaitFree(r, d)
  }

  /** The active sets hold the pages of each region, apart from the one page that the
      unmapping thread has taken out. */
  ghost predicate Active(desc: seq<Desc>, active: set<(Region, nat)>, u: Unmap, open: set<Region>) {
    && (forall r, d :: (r, d) in active ==>
          d < |desc| && desc[d].state != FREE && desc[d].region == r && !desc[d].deferred)
    && (forall d :: 0 <= d < |desc| && desc[d].state != FREE ==>
          && ((desc[d].region, d) in active || Picked(u, desc[d].region, d))
          && (desc[d].region in open || (!u.NoUnmap? && u.r == desc[d].region)))
    && (forall d :: 0 <= d < |desc| && desc[d].deferred ==>
          !Resident(desc[d]) || (u.AwaitPresent? && u.d == d))
    && (u.AwaitPresent? ==> u.d < |desc| && desc[u.d].deferred && Resident(desc[u.d]) && desc[u.d].region == u.r)
    && (u.Drain? || u.Dispatch? ==> open == {})
    && (!u.NoUnmap? ==> u.r !in open)
  }

  // ----- outstanding work -----

  predicate BeingFilled(pd: Desc) { pd.state == FILLING || pd.state == UPDATING }

  predicate FillOk(pd: Desc, phase: FillPhase, mem: map<Page, Frame>, store: map<Page, Bytes>) {
    match pd.state
    case UPDATING =>
      pd.dirty && pd.dataPresent && pd.page in mem && (phase == FQueued || phase == FLift || phase == FDone)
    case FILLING =>
      (match phase
       case FLift => false
       case FDone => pd.page in mem && pd.dataPresent
       case FCopy(buf) => !pd.dataPresent && pd.page !in mem && pd.page in store && buf == store[pd.page]
       case _ => !pd.dataPresent && pd.page !in mem)
    case _ => false
  }

  /** Exactly one fill item for each FILLING or UPDATING descriptor, none for others. */
  ghost predicate Fills(desc: seq<Desc>, fills: map<nat, FillJob>, mem: map<Page, Frame>, store: map<Page, Bytes>) {
    && (forall t :: t in fills ==> fills[t].d < |desc| && FillOk(desc[fills[t].d], fills[t].phase, mem, store))
    && (forall t, u :: t in fills && u in fills && fills[t].d == fills[u].d ==> t == u)
    && (forall d :: 0 <= d < |desc| && BeingFilled(desc[d]) ==> HasFill(fills, d))
  }

  ghost predicate HasFill(fills: map<nat, FillJob>, d: nat) {
    exists t :: t in fills && fills[t].d == d
  }

  ghost predicate HasEvict(evicts: map<nat, EvictJob>, d: nat) {
    exists t :: t in evicts && evicts[t].d == d
  }

  predicate EvictOk(pd: Desc, j: EvictJob, mem: map<Page, Frame>, store: map<Page, Bytes>, u: Unmap, f: Flush) {
    && (if j.kind == FLUSH then pd.state == PRESENT && f.Flushing? && j.phase != EFree else pd.state == LEAVING)
    && (j.kind == FAST_EVICT ==> u.Drain? || u.Dispatch?)
    && (j.phase == EDrop || j.phase == EFree ==> !pd.dirty)
    && (pd.page in mem <==> !(j.phase == EFree && j.kind == EVICT))
    && (j.phase == EWrite || j.phase == EClear ==> mem[pd.page].wp)
    && (j.phase == EClear ==> pd.page in store && store[pd.page] == mem[pd.page].data)
  }

  predicate Held(hand: seq<nat>, u: Unmap, d: nat) {
    d in hand || (u.Dispatch? && u.d == d)
  }

  ghost predicate EvictItems(desc: seq<Desc>, evicts: map<nat, EvictJob>, u: Unmap, f: Flush,
                             mem: map<Page, Frame>, store: map<Page, Bytes>) {
    && (forall t :: t in evicts ==> evicts[t].d < |desc| && EvictOk(desc[evicts[t].d], evicts[t], mem, store, u, f))
    && (forall t, v :: t in evicts && v in evicts && evicts[t].d == evicts[v].d ==> t == v)
  }

  ghost predicate Hands(desc: seq<Desc>, evicts: map<nat, EvictJob>, hand: seq<nat>, u: Unmap, mem: map<Page, Frame>) {
    && (forall t :: t in evicts ==> !Held(hand, u, evicts[t].d))
    && NoDup(hand)
    && (u.Dispatch? ==> u.d !in hand)
    && (forall d: nat :: Held(hand, u, d) ==>
          d < |desc| && desc[d].state == LEAVING && !desc[d].deferred && desc[d].page in mem)
  }

  ghost predicate Owned(desc: seq<Desc>, evicts: map<nat, EvictJob>, hand: seq<nat>, u: Unmap) {
    forall d :: 0 <= d < |desc| && desc[d].state == LEAVING ==> Held(hand, u, d) || HasEvict(evicts, d)
  }

  /** Exactly one owner or evict item for each LEAVING descriptor; a PRESENT one can
      have a flush item; the others have none. */
  ghost predicate Evicts(desc: seq<Desc>, evicts: map<nat, EvictJob>, hand: seq<nat>, u: Unmap, f: Flush,
                         mem: map<Page, Frame>, store: map<Page, Bytes>) {
    && EvictItems(desc, evicts, u, f, mem, store)
    && Hands(desc, evicts, hand, u, mem)
    && Owned(desc, evicts, hand, u)
  }

  // ----- memory and store -----

  /** A mapped page holds what the application wrote last; an unmapped page's store
      copy does.  A page left mapped without a descriptor belongs to a closed region. */
  ghost predicate Mirror(regionOf: map<Page, Region>, open: set<Region>, present: map<Page, nat>,
                         mem: map<Page, Frame>, store: map<Page, Bytes>, logical: map<Page, Bytes>) {
    && store.Keys == regionOf.Keys && logical.Keys == regionOf.Keys && mem.Keys <= regionOf.Keys
    && (forall p :: p in mem ==> mem[p].data == logical[p])
    && (forall p :: p in regionOf && p !in mem ==> store[p] == logical[p])
    && (forall p :: p in mem && p !in present ==> store[p] == logical[p] && regionOf[p] !in open)
  }

  /** A clean mapped page is write-protected and equal to its store copy. */
  ghost predicate Clean(desc: seq<Desc>, mem: map<Page, Frame>, store: map<Page, Bytes>) {
    && (forall d :: 0 <= d < |desc| && desc[d].state != FREE ==> CleanOk(desc[d], mem, store))
    && (forall d :: 0 <= d < |desc| && desc[d].state == PRESENT ==> desc[d].page in mem && desc[d].dataPresent)
  }

  predicate CleanOk(pd: Desc, mem: map<Page, Frame>, store: map<Page, Bytes>) {
    !pd.dirty && pd.page in mem ==> mem[pd.page].wp && pd.page in store && store[pd.page] == mem[pd.page].data
  }

  // ----- the flushing thread and the evict manager -----

  ghost predicate FlushSeen(busy: seq<nat>, next: nat, evicts: map<nat, EvictJob>)
    requires next <= |busy|
  {
    forall t :: t in evicts && evicts[t].kind == FLUSH ==> evicts[t].d in busy[..next]
  }

  ghost predicate FlushEntry(desc: seq<Desc>, busy: seq<nat>, entry: set<nat>) {
    && (forall d :: d in entry ==> d < |desc| && desc[d].state == PRESENT && d in busy)
    && (forall d :: d in busy && d < |desc| && desc[d].dirty ==> d in entry)
  }

  ghost predicate FlushPending(desc: seq<Desc>, busy: seq<nat>, next: nat, entry: set<nat>, evicts: map<nat, EvictJob>)
    requires next <= |busy|
  {
    forall d :: d in entry && d < |desc| && desc[d].dirty ==> d in busy[next..] || HasEvict(evicts, d)
  }

  /** While the lock is held for a flush, every page that is still dirty is either
      ahead of the scan or has a flush item. */
  ghost predicate FlushOk(desc: seq<Desc>, busy: seq<nat>, evicts: map<nat, EvictJob>, u: Unmap, f: Flush) {
    f.Flushing? ==>
      && u.NoUnmap?
      && f.next <= |busy|
      && FlushSeen(busy, f.next, evicts)
      && FlushEntry(desc, busy, f.entry)
      && FlushPending(desc, busy, f.next, f.entry, evicts)
  }

  ghost predicate ManagerOk(c: Config, busy: nat, hand: seq<nat>, managing: bool, thresholds: nat) {
    && (hand != [] ==> managing)
    && (c.low < c.high && busy >= c.high ==> managing || thresholds > 0)
  }

  // ----- the invariant -----

  ghost predicate ListsI(c: Config, s: State) {
    |s.b.desc| == c.size && Lists(s.b.desc, s.b.free, s.b.busy)
  }
  ghost predicate IndexI(c: Config, s: State) { Index(c.regionOf, s.b.desc, s.b.present) }
  ghost predicate ActiveI(s: State) { Active(s.b.desc, s.b.active, s.unmap, s.open) }
  ghost predicate FillsI(s: State) { Fills(s.b.desc, s.fills, s.mem, s.store) }
  ghost predicate EvictsI(s: State) { Evicts(s.b.desc, s.evicts, s.hand, s.unmap, s.flush, s.mem, s.store) }
  ghost predicate MirrorI(c: Config, s: State) { Mirror(c.regionOf, s.open, s.b.present, s.mem, s.store, s.logical) }
  ghost predicate CleanI(s: State) { Clean(s.b.desc, s.mem, s.store) }
  ghost predicate FlushI(s: State) { FlushOk(s.b.desc, s.b.busy, s.evicts, s.unmap, s.flush) }
  ghost predicate ManagerI(c: Config, s: State) { ManagerOk(c, |s.b.busy|, s.hand, s.managing, s.thresholds) }
  ghost predicate NoFailure(s: State) { !s.b.failed && !s.kfailed }

  ghost predicate Inv(c: Config, s: State) {
    && ListsI(c, s) && IndexI(c, s) && ActiveI(s)
    && FillsI(s) && EvictsI(s)
    && MirrorI(c, s) && CleanI(s)
    && FlushI(s) && ManagerI(c, s) && NoFailure(s)
  }

  lemma InitHolds(c: Config, s: State)
    requires Init(c, s)
    ensures Inv(c, s)
  {
    forall d | 0 <= d < c.size ensures d in s.b.free {
      assert s.b.free[d] == d;
    }
  }
}
