/** What the page-cache protocol guarantees over every run. */
module ProtocolRuns {
  import opened Numbers
  import opened PageBuffer
  import opened UmapProtocol
  import opened ProtocolInvariant
  import opened ProtocolFrames
  import opened ProtocolSteps

  lemma {:induction false} RunKeeps(c: Config, ss: seq<State>, ls: seq<Label>, i: nat)
    requires IsRun(c, ss, ls) && i < |ss|
    ensures Inv(c, ss[i])
  {
    if i == 0 {
      InitHolds(c, ss[0]);
    } else {
      RunKeeps(c, ss, ls, i - 1);
      StepAt(c, ss, ls, i - 1);
      StepKeeps(c, ss[i - 1], ls[i - 1]);
    }
  }

  /** What is known at a step of a run. */
  lemma RunParts(c: Config, ss: seq<State>, ls: seq<Label>, k: nat)
    requires IsRun(c, ss, ls) && k < |ls|
    ensures ListsI(c, ss[k]) && FillsI(ss[k]) && EvictsI(ss[k]) && ActiveI(ss[k]) && FlushI(ss[k])
    ensures Can(c, ss[k], ls[k]) && ss[k + 1] == Do(c, ss[k], ls[k])
  {
    RunKeeps(c, ss, ls, k);
    StepAt(c, ss, ls, k);
  }

  /** A run can be continued by a step. */
  lemma OneMore(c: Config, ss: seq<State>, ls: seq<Label>, l: Label, s': State)
    requires IsRun(c, ss, ls) && Next(c, ss[|ls|], l, s')
    ensures IsRun(c, ss + [s'], ls + [l])
  {
    var ss', ls' := ss + [s'], ls + [l];
    forall i | 0 <= i < |ls'| ensures Next(c, ss'[i], ls'[i], ss'[i + 1]) {
      if i < |ls| {
        StepAt(c, ss, ls, i);
      }
    }
  }

  // ----- the flat memory that the application is promised -----

  /** The reference machine has no buffer: a write changes the memory, mapping a region
      loads its store, and nothing else has an effect. */
  function FlatStep(c: Config, flat: map<Page, Bytes>, l: Label): map<Page, Bytes> {
    match l
    case AppWrite(p, v) => flat[p := v]
    case MapRegion(r, contents) =>
      map p | p in flat :: if InRegion(c, r, p) && p in contents then contents[p] else flat[p]
    case _ => flat
  }

  function Flat(c: Config, start: map<Page, Bytes>, ls: seq<Label>): map<Page, Bytes> {
    if ls == [] then start
    else FlatStep(c, Flat(c, start, ls[..|ls| - 1]), ls[|ls| - 1])
  }

  /** The step says nothing about the page. */
  predicate LeavesAlone(c: Config, l: Label, p: Page) {
    && !(l.AppWrite? && l.p == p)
    && !(l.MapRegion? && InRegion(c, l.r, p))
  }

  /** The flat memory holds what was written last ... */
  lemma {:induction false} FlatIsLastWrite(c: Config, start: map<Page, Bytes>, ls: seq<Label>, k: nat, p: Page,
                                           v: Bytes)
    requires k < |ls| && ls[k] == AppWrite(p, v) && forall j :: k < j < |ls| ==> LeavesAlone(c, ls[j], p)
    ensures p in Flat(c, start, ls) && Flat(c, start, ls)[p] == v
  {
    if k < |ls| - 1 {
      FlatIsLastWrite(c, start, ls[..|ls| - 1], k, p, v);
    }
  }

  /** ... or, since its region was mapped, what the region's store then held ... */
  lemma {:induction false} FlatIsMapped(c: Config, start: map<Page, Bytes>, ls: seq<Label>, k: nat, r: Region,
                                        contents: map<Page, Bytes>, p: Page)
    requires k < |ls| && ls[k] == MapRegion(r, contents) && forall j :: k < j < |ls| ==> LeavesAlone(c, ls[j], p)
    requires InRegion(c, r, p) && p in contents && p in start
    ensures p in Flat(c, start, ls) && Flat(c, start, ls)[p] == contents[p]
  {
    if k < |ls| - 1 {
      FlatIsMapped(c, start, ls[..|ls| - 1], k, r, contents, p);
    } else {
      FlatKeeps(c, start, ls[..k], p);
    }
  }

  lemma {:induction false} FlatKeeps(c: Config, start: map<Page, Bytes>, ls: seq<Label>, p: Page)
    requires p in start
    ensures p in Flat(c, start, ls)
  {
    if ls != [] {
      FlatKeeps(c, start, ls[..|ls| - 1], p);
    }
  }

  /** ... or what it held at first. */
  lemma {:induction false} FlatIsFirst(c: Config, start: map<Page, Bytes>, ls: seq<Label>, p: Page)
    requires p in start && forall j :: 0 <= j < |ls| ==> LeavesAlone(c, ls[j], p)
    ensures p in Flat(c, start, ls) && Flat(c, start, ls)[p] == start[p]
  {
    if ls != [] {
      FlatIsFirst(c, start, ls[..|ls| - 1], p);
    }
  }

  lemma FillIsSilent(s: State, f: FillStep, t: nat)
    requires CanFill(s, f, t)
    ensures DoFill(s, f, t).logical == s.logical
  {
  }

  lemma EvictIsSilent(s: State, e: EvictStep, t: nat)
    requires CanEvict(s, e, t)
    ensures DoEvict(s, e, t).logical == s.logical
  {
    if e == EvictProtect || e == EvictWrite || e == EvictClear {
      WriteBackIsSilent(s, e, t);
    }
  }

  lemma WriteBackIsSilent(s: State, e: EvictStep, t: nat)
    requires CanEvict(s, e, t) && (e == EvictProtect || e == EvictWrite || e == EvictClear)
    ensures DoEvict(s, e, t).logical == s.logical
  {
  }

  lemma OthersAreSilent(c: Config, s: State, m: ManagerStep, f: FlushStep)
    ensures CanManage(c, s, m) ==> DoManage(c, s, m).logical == s.logical
    ensures CanFlush(s, f) ==> DoFlush(s, f).logical == s.logical
  {
    if CanFlush(s, f) && f.FlushScan? {
      FlushScanIs(s, f.t);
    }
  }

  lemma UnmapIsSilent(s: State, u: UnmapStep)
    requires CanUnmap(s, u)
    ensures DoUnmap(s, u).logical == s.logical
  {
  }

  lemma LogicalStep(c: Config, s: State, l: Label)
    requires Can(c, s, l)
    ensures Do(c, s, l).logical == FlatStep(c, s.logical, l)
  {
    match l
    case Fill(f, t) => FillIsSilent(s, f, t);
    case Evict(e, t) => EvictIsSilent(s, e, t);
    case Manage(m) => OthersAreSilent(c, s, m, FlushEnd);
    case FlushBy(f) => OthersAreSilent(c, s, ManagerRest, f);
    case UnmapBy(u) => UnmapIsSilent(s, u);
    case _ =>
  }

  lemma {:induction false} LogicalIsFlat(c: Config, ss: seq<State>, ls: seq<Label>, i: nat)
    requires IsRun(c, ss, ls) && i < |ss|
    ensures ss[i].logical == Flat(c, ss[0].store, ls[..i])
  {
    if i > 0 {
      LogicalIsFlat(c, ss, ls, i - 1);
      StepAt(c, ss, ls, i - 1);
      LogicalStep(c, ss[i - 1], ls[i - 1]);
      assert ls[..i][..i - 1] == ls[..i - 1];
    }
  }

  /** Transparency: over every interleaving a mapped page of an open region holds what
      the flat memory holds, and the store copy of an unmapped page does. */
  lemma Transparency(c: Config, ss: seq<State>, ls: seq<Label>, i: nat, p: Page)
    requires IsRun(c, ss, ls) && i < |ss| && p in c.regionOf
    ensures p in Flat(c, ss[0].store, ls[..i]) && p in ss[i].store
    ensures p in ss[i].mem ==> ss[i].mem[p].data == Flat(c, ss[0].store, ls[..i])[p]
    ensures p !in ss[i].mem ==> ss[i].store[p] == Flat(c, ss[0].store, ls[..i])[p]
  {
    RunKeeps(c, ss, ls, i);
    LogicalIsFlat(c, ss, ls, i);
  }

  /** So the application reads its own last write, whatever happened to the page in between. */
  lemma ReadsLastWrite(c: Config, ss: seq<State>, ls: seq<Label>, k: nat, i: nat, p: Page, v: Bytes)
    requires IsRun(c, ss, ls) && k < i <= |ls| && ls[k] == AppWrite(p, v)
    requires forall j :: k < j < i ==> LeavesAlone(c, ls[j], p)
    ensures p in ss[i].mem ==> ss[i].mem[p].data == v
    ensures p !in ss[i].mem ==> p in ss[i].store && ss[i].store[p] == v
  {
    StepAt(c, ss, ls, k);
    FlatIsLastWrite(c, ss[0].store, ls[..i], k, p, v);
    Transparency(c, ss, ls, i, p);
  }

  /** A page that is clean is write-protected while it is mapped and equal to its store
      copy, so a write can never slip past the dirty flag; and a descriptor whose data
      has not arrived has no mapped page, so a fill never overwrites newer data. */
  lemma CleanPagesAreProtected(c: Config, ss: seq<State>, ls: seq<Label>, i: nat, d: nat)
    requires IsRun(c, ss, ls) && i < |ss| && d < |ss[i].b.desc| && ss[i].b.desc[d].state != FREE
    ensures var pd := ss[i].b.desc[d];
            && (pd.page in ss[i].mem && !ss[i].mem[pd.page].wp ==> pd.dirty)
            && (pd.page in ss[i].mem && !pd.dirty ==>
                  pd.page in ss[i].store && ss[i].store[pd.page] == ss[i].mem[pd.page].data)
            && (pd.state == FILLING ==> (pd.dataPresent <==> pd.page in ss[i].mem))
  {
    RunKeeps(c, ss, ls, i);
    if ss[i].b.desc[d].state == FILLING {
      var t :| t in ss[i].fills && ss[i].fills[t].d == d;
      assert FillOk(ss[i].b.desc[d], ss[i].fills[t].phase, ss[i].mem, ss[i].store);
    }
  }

  /** No run attempts a state transition that the descriptor's guards reject, nor a
      kernel call that the kernel rejects. */
  lemma NoFailures(c: Config, ss: seq<State>, ls: seq<Label>, i: nat)
    requires IsRun(c, ss, ls) && i < |ss|
    ensures !ss[i].b.failed && !ss[i].kfailed
  {
    RunKeeps(c, ss, ls, i);
  }

  // ----- outstanding work -----

  function FillTickets(s: State, d: nat): set<nat> { set t | t in s.fills && s.fills[t].d == d }
  function EvictTickets(s: State, d: nat): set<nat> { set t | t in s.evicts && s.evicts[t].d == d }

  lemma AtMostOne<T>(a: set<T>)
    requires forall x, y :: x in a && y in a ==> x == y
    ensures |a| <= 1
  {
    if a != {} {
      var x :| x in a;
      assert a == {x};
    }
  }

  /** Each descriptor under fill has exactly one fill item; each leaving one has exactly
      one owner or evict item; free and present ones have none, but for a flush. */
  lemma ExactlyOneOwner(c: Config, ss: seq<State>, ls: seq<Label>, i: nat, d: nat)
    requires IsRun(c, ss, ls) && i < |ss| && d < |ss[i].b.desc|
    ensures var s, pd := ss[i], ss[i].b.desc[d];
            && |FillTickets(s, d)| == (if BeingFilled(pd) then 1 else 0)
            && |EvictTickets(s, d)| <= 1
            && (pd.state == LEAVING ==> (|EvictTickets(s, d)| == 1 <==> !Held(s.hand, s.unmap, d)))
            && (Held(s.hand, s.unmap, d) ==> pd.state == LEAVING)
            && (EvictTickets(s, d) != {} && pd.state != LEAVING ==>
                  && pd.state == PRESENT && s.flush.Flushing?
                  && forall t :: t in EvictTickets(s, d) ==> s.evicts[t].kind == FLUSH)
  {
    RunKeeps(c, ss, ls, i);
    FillCount(c, ss[i], d);
    EvictCount(c, ss[i], d);
  }

  lemma FillCount(c: Config, s: State, d: nat)
    requires FillsI(s) && d < |s.b.desc|
    ensures |FillTickets(s, d)| == (if BeingFilled(s.b.desc[d]) then 1 else 0)
  {
    AtMostOne(FillTickets(s, d));
    if BeingFilled(s.b.desc[d]) {
      var t :| t in s.fills && s.fills[t].d == d;
      assert t in FillTickets(s, d);
    } else {
      assert FillTickets(s, d) == {};
    }
  }

  lemma EvictCount(c: Config, s: State, d: nat)
    requires EvictsI(s) && d < |s.b.desc|
    ensures |EvictTickets(s, d)| <= 1
    ensures s.b.desc[d].state == LEAVING ==> (|EvictTickets(s, d)| == 1 <==> !Held(s.hand, s.unmap, d))
  {
    AtMostOne(EvictTickets(s, d));
    if s.b.desc[d].state == LEAVING {
      if Held(s.hand, s.unmap, d) {
        assert EvictTickets(s, d) == {};
      } else {
        var t :| t in s.evicts && s.evicts[t].d == d;
        assert t in EvictTickets(s, d);
      }
    }
  }

  // ----- conservation -----

  function InFlight(s: State): set<nat> {
    set d | 0 <= d < |s.b.desc| && s.b.desc[d].state == LEAVING && !s.b.desc[d].deferred
  }

  function Elements(q: seq<nat>): set<nat> { set d | d in q }

  lemma {:induction false} ElementsCount(q: seq<nat>)
    requires NoDup(q)
    ensures |Elements(q)| == |q|
  {
    if q != [] {
      var rest := q[..|q| - 1];
      ElementsCount(rest);
      DropOldest(q, rest);
      assert Elements(q) == Elements(rest) + {q[|q| - 1]};
    }
  }

  lemma PartitionCount(size: nat, a: set<nat>, b: set<nat>, e: set<nat>)
    requires a !! b && a !! e && b !! e && a + b + e == Below(size)
    ensures |a| + |b| + |e| == size
  {
    BelowCount(size);
    assert |a + b| == |a| + |b| && |(a + b) + e| == |a + b| + |e|;
  }

  /** Every descriptor is on the free list, in the busy deque or in flight, in exactly
      one of the three, so the three counts always sum to the size of the buffer. */
  lemma Conservation(c: Config, ss: seq<State>, ls: seq<Label>, i: nat)
    requires IsRun(c, ss, ls) && i < |ss|
    ensures |ss[i].b.free| + |ss[i].b.busy| + |InFlight(ss[i])| == c.size
    ensures Elements(ss[i].b.free) !! Elements(ss[i].b.busy)
    ensures InFlight(ss[i]) !! Elements(ss[i].b.free) && InFlight(ss[i]) !! Elements(ss[i].b.busy)
  {
    RunKeeps(c, ss, ls, i);
    Counts(c, ss[i]);
  }

  lemma Counts(c: Config, s: State)
    requires ListsI(c, s)
    ensures |s.b.free| + |s.b.busy| + |InFlight(s)| == c.size
    ensures Elements(s.b.free) !! Elements(s.b.busy)
    ensures InFlight(s) !! Elements(s.b.free) && InFlight(s) !! Elements(s.b.busy)
  {
    ElementsCount(s.b.free);
    ElementsCount(s.b.busy);
    BelowCount(c.size);
    Partition(c, s);
    PartitionCount(c.size, Elements(s.b.free), Elements(s.b.busy), InFlight(s));
  }

  lemma Partition(c: Config, s: State)
    requires ListsI(c, s)
    ensures Elements(s.b.free) + Elements(s.b.busy) + InFlight(s) == Below(c.size)
    ensures Elements(s.b.free) !! Elements(s.b.busy)
    ensures InFlight(s) !! Elements(s.b.free) && InFlight(s) !! Elements(s.b.busy)
  {
    BelowCount(c.size);
    forall d: nat | d < c.size ensures d in Elements(s.b.free) || d in Elements(s.b.busy) || d in InFlight(s) {
      assert s.b.desc[d].state == FREE || s.b.desc[d].state != FREE;
    }
  }

  ghost predicate Indexed(b: Buf, d: nat) { exists p :: p in b.present && b.present[p] == d }

  /** The present map is an injective index of exactly the descriptors in use. */
  lemma PresentIsIndex(c: Config, ss: seq<State>, ls: seq<Label>, i: nat)
    requires IsRun(c, ss, ls) && i < |ss|
    ensures var b := ss[i].b;
            && (forall p, q :: p in b.present && q in b.present && b.present[p] == b.present[q] ==> p == q)
            && (forall d: nat :: Indexed(b, d) <==> d < |b.desc| && b.desc[d].state != FREE)
  {
    RunKeeps(c, ss, ls, i);
    var b := ss[i].b;
    forall d: nat | d < |b.desc| && b.desc[d].state != FREE ensures Indexed(b, d) {
      assert b.desc[d].page in b.present && b.present[b.desc[d].page] == d;
    }
  }

  // ----- eviction is always triggered -----

  /** At or above the high-water mark the evict manager is at work or has been called;
      so an empty free list never meets a dormant manager with nothing in flight. */
  lemma EvictionIsTriggered(c: Config, ss: seq<State>, ls: seq<Label>, i: nat)
    requires IsRun(c, ss, ls) && i < |ss| && c.low < c.high <= c.size
    ensures |ss[i].b.busy| >= c.high ==> ss[i].managing || ss[i].thresholds > 0
    ensures ss[i].b.free == [] && InFlight(ss[i]) == {} ==> ss[i].managing || ss[i].thresholds > 0
  {
    RunKeeps(c, ss, ls, i);
    Counts(c, ss[i]);
  }

  // ----- durability -----

  ghost predicate Durable(s: State, p: Page) {
    p in s.store && p in s.logical && s.store[p] == s.logical[p]
  }

  ghost predicate AllClean(s: State) {
    forall d :: 0 <= d < |s.b.desc| && s.b.desc[d].state != FREE ==> !s.b.desc[d].dirty
  }

  lemma CleanIsDurable(c: Config, s: State)
    requires IndexI(c, s) && MirrorI(c, s) && CleanI(s) && AllClean(s)
    ensures forall p :: p in c.regionOf ==> Durable(s, p)
  {
  }

  /** When a flush is about to release the lock, every page that was dirty in the busy
      deque when it took the lock is clean, protected and equal to its store copy.
      Everything in the buffer is clean exactly when the evict manager holds no dirty
      page, and then the store agrees with the application on every page. */
  lemma FlushIsDurable(c: Config, s: State)
    requires Inv(c, s) && CanFlushEnd(s)
    ensures forall d :: d in s.flush.entry ==>
              && d < |s.b.desc| && !s.b.desc[d].dirty && s.b.desc[d].page in s.mem
              && s.mem[s.b.desc[d].page].wp && Durable(s, s.b.desc[d].page)
    ensures AllClean(s) <==> forall d :: d in s.hand && d < |s.b.desc| ==> !s.b.desc[d].dirty
    ensures AllClean(s) ==> forall p :: p in c.regionOf ==> Durable(s, p)
  {
    FlushLeavesClean(c, s);
    if AllClean(s) {
      CleanIsDurable(c, s);
    }
    FlushHand(c, s);
  }

  lemma FlushLeavesClean(c: Config, s: State)
    requires FlushI(s) && IndexI(c, s) && MirrorI(c, s) && CleanI(s) && CanFlushEnd(s)
    ensures forall d :: d in s.flush.entry ==>
              && d < |s.b.desc| && !s.b.desc[d].dirty && s.b.desc[d].page in s.mem
              && s.mem[s.b.desc[d].page].wp && Durable(s, s.b.desc[d].page)
  {
    assert s.b.busy[s.flush.next..] == [];
    forall d | d in s.flush.entry ensures d < |s.b.desc| && !s.b.desc[d].dirty {
      assert !HasEvict(s.evicts, d);
    }
  }

  lemma FlushHand(c: Config, s: State)
    requires ListsI(c, s) && ActiveI(s) && EvictsI(s) && FlushI(s) && CanFlushEnd(s)
    ensures AllClean(s) <==> forall d :: d in s.hand && d < |s.b.desc| ==> !s.b.desc[d].dirty
  {
    assert s.b.busy[s.flush.next..] == [];
    if forall d :: d in s.hand && d < |s.b.desc| ==> !s.b.desc[d].dirty {
      forall d | 0 <= d < |s.b.desc| && s.b.desc[d].state != FREE ensures !s.b.desc[d].dirty {
        assert !HasEvict(s.evicts, d);
        if s.b.desc[d].state == LEAVING {
          assert Held(s.hand, s.unmap, d);
        } else {
          assert d in s.b.busy;
        }
      }
    } else {
      var d :| d in s.hand && d < |s.b.desc| && s.b.desc[d].dirty;
      assert Held(s.hand, s.unmap, d);
    }
  }

  ghost predicate SamePages(s: State, s': State) {
    |s'.b.desc| == |s.b.desc| && forall d :: 0 <= d < |s.b.desc| ==> s'.b.desc[d].page == s.b.desc[d].page
  }

  ghost predicate StillFlushing(s: State, s': State) {
    s.flush.Flushing? && s'.flush.Flushing? && s'.flush.entry == s.flush.entry && SamePages(s, s')
  }

  lemma FillWhileFlushing(s: State, f: FillStep, t: nat)
    requires s.flush.Flushing? && CanFill(s, f, t)
    ensures StillFlushing(s, DoFill(s, f, t))
  {
  }

  lemma EvictWhileFlushing(s: State, e: EvictStep, t: nat)
    requires s.flush.Flushing? && CanEvict(s, e, t)
    ensures StillFlushing(s, DoEvict(s, e, t))
  {
  }

  lemma OthersWhileFlushing(c: Config, s: State, m: ManagerStep, f: FlushStep)
    requires s.flush.Flushing?
    ensures CanManage(c, s, m) ==> StillFlushing(s, DoManage(c, s, m))
    ensures CanFlush(s, f) && f != FlushEnd ==> StillFlushing(s, DoFlush(s, f))
  {
    if CanFlush(s, f) && f.FlushScan? {
      FlushScanIs(s, f.t);
    }
  }

  /** While the lock is held for a flush, the set taken at the start stays and no
      descriptor changes its page. */
  lemma FlushingStep(c: Config, s: State, l: Label)
    requires FlushI(s) && Can(c, s, l) && s.flush.Flushing? && l != FlushBy(FlushEnd)
    ensures StillFlushing(s, Do(c, s, l))
  {
    match l
    case AppWrite(p, v) => assert StillFlushing(s, DoAppWrite(s, p, v));
    case Fill(f, t) => FillWhileFlushing(s, f, t);
    case Evict(e, t) => EvictWhileFlushing(s, e, t);
    case Manage(m) => OthersWhileFlushing(c, s, m, FlushEnd);
    case FlushBy(f) => OthersWhileFlushing(c, s, ManagerRest, f);
    case _ => LockedOut(c, s, l);
  }

  /** The other steps need the lock, or wait until no flush is under way. */
  lemma LockedOut(c: Config, s: State, l: Label)
    requires FlushI(s) && s.flush.Flushing?
    requires l.MapRegion? || l.FaultNew? || l.FaultUpgrade? || l.FaultSpurious? || l.UnmapBy?
    ensures !Can(c, s, l)
  {
  }

  lemma RunFlush(c: Config, ss: seq<State>, ls: seq<Label>, i: nat)
    requires IsRun(c, ss, ls) && i < |ss|
    ensures FlushI(ss[i])
  {
    RunKeeps(c, ss, ls, i);
  }

  lemma {:induction false} FlushingStretch(c: Config, ss: seq<State>, ls: seq<Label>, j: nat, i: nat)
    requires IsRun(c, ss, ls) && j < i < |ss| && ls[j] == FlushBy(FlushBegin)
    requires forall k :: j < k < i ==> ls[k] != FlushBy(FlushEnd)
    ensures ss[i].flush.Flushing? && ss[i].flush.entry == DirtyBusy(ss[j])
    ensures SamePages(ss[j], ss[i])
    decreases i
  {
    StepAt(c, ss, ls, i - 1);
    if j < i - 1 {
      FlushingStretch(c, ss, ls, j, i - 1);
      RunFlush(c, ss, ls, i - 1);
      FlushingStep(c, ss[i - 1], ls[i - 1]);
    }
  }

  /** Durability at flush, from the step that takes the lock to the step that releases
      it, whatever the application and the workers do in between. */
  lemma FlushDurability(c: Config, ss: seq<State>, ls: seq<Label>, j: nat, i: nat, d: nat)
    requires IsRun(c, ss, ls) && j < i < |ls|
    requires ls[j] == FlushBy(FlushBegin) && ls[i] == FlushBy(FlushEnd)
    requires forall k :: j < k < i ==> ls[k] != FlushBy(FlushEnd)
    requires d in DirtyBusy(ss[j])
    ensures var p := ss[j].b.desc[d].page;
            && p in ss[i].mem && ss[i].mem[p].wp && p in ss[i].store
            && ss[i].store[p] == ss[i].mem[p].data
            && p in Flat(c, ss[0].store, ls[..i]) && ss[i].store[p] == Flat(c, ss[0].store, ls[..i])[p]
    ensures d < |ss[i].b.desc| && ss[i].b.desc[d].page == ss[j].b.desc[d].page && !ss[i].b.desc[d].dirty
  {
    FlushingStretch(c, ss, ls, j, i);
    RunKeeps(c, ss, ls, i);
    StepAt(c, ss, ls, i);
    FlushIsDurable(c, ss[i]);
    LogicalIsFlat(c, ss, ls, i);
  }

  /** Durability at unmap, per-page loop: when the region's active set is empty, no
      page of the region is in the buffer and its store holds what was last written. */
  lemma UnmapDurability(c: Config, ss: seq<State>, ls: seq<Label>, i: nat, p: Page)
    requires IsRun(c, ss, ls) && i < |ss| && CanUnmapEnd(ss[i]) && InRegion(c, ss[i].unmap.r, p)
    ensures p !in ss[i].b.present && p in ss[i].store && p in Flat(c, ss[0].store, ls[..i])
    ensures ss[i].store[p] == Flat(c, ss[0].store, ls[..i])[p]
  {
    RunKeeps(c, ss, ls, i);
    LogicalIsFlat(c, ss, ls, i);
    UnmapLeavesNothing(c, ss[i], p);
  }

  lemma UnmapLeavesNothing(c: Config, s: State, p: Page)
    requires IndexI(c, s) && ActiveI(s) && CanUnmapEnd(s) && InRegion(c, s.unmap.r, p)
    ensures p !in s.b.present
  {
    forall d | 0 <= d < |s.b.desc| && s.b.desc[d].state != FREE ensures s.b.desc[d].region != s.unmap.r {
      assert (s.b.desc[d].region, d) in s.b.active;
    }
  }

  /** Durability at unmap, draining the buffer: when the deque is empty and the evict
      workers are idle, the present map is empty exactly when the evict manager holds
      nothing; then every descriptor is back on the free list and the store holds what
      was last written to every page. */
  lemma DrainDurability(c: Config, ss: seq<State>, ls: seq<Label>, i: nat)
    requires IsRun(c, ss, ls) && i < |ss| && Drained(ss[i])
    ensures ss[i].b.present == map[] <==> ss[i].hand == []
    ensures ss[i].hand == [] ==> |ss[i].b.free| == c.size && ss[i].store == Flat(c, ss[0].store, ls[..i])
  {
    RunKeeps(c, ss, ls, i);
    LogicalIsFlat(c, ss, ls, i);
    if ss[i].hand == [] {
      DrainedIsEmpty(c, ss[i]);
      DrainedIsDurable(c, ss[i]);
    } else {
      HeldIsPresent(c, ss[i]);
    }
  }

  lemma HeldIsPresent(c: Config, s: State)
    requires IndexI(c, s) && EvictsI(s) && s.hand != []
    ensures s.b.present != map[]
  {
    assert Held(s.hand, s.unmap, s.hand[0]);
    assert s.b.desc[s.hand[0]].page in s.b.present;
  }

  lemma DrainedIsEmpty(c: Config, s: State)
    requires ListsI(c, s) && IndexI(c, s) && ActiveI(s) && EvictsI(s) && CanDrainEnd(s)
    ensures s.b.present == map[] && |s.b.free| == c.size
  {
    AllFree(c, s);
    Counts(c, s);
    assert InFlight(s) == {};
    assert forall p :: p !in s.b.present;
  }

  lemma DrainedIsDurable(c: Config, s: State)
    requires ListsI(c, s) && ActiveI(s) && EvictsI(s) && MirrorI(c, s) && CanDrainEnd(s) && s.b.present == map[]
    ensures s.store == s.logical
  {
    forall p | p in s.store ensures p in s.logical && s.store[p] == s.logical[p] {
      assert p in s.mem || p !in s.mem;
    }
  }
}
