/** The write-back page cache as a step relation.

    One step is one section of code that runs under the buffer lock, or one kernel
    or store call made outside it.  A wait on a condition is the guard of the step
    that follows it.  Work items live in tables keyed by tickets; a ticket that has
    been handed out can be served at any time, so the steps cover every number of
    workers and every order of service. */
module UmapProtocol {
  import opened PageBuffer
  import B = Bytes

  type Bytes = seq<B.Byte>

  /** A mapped page: its contents and whether it is write-protected. */
  datatype Frame = Frame(data: Bytes, wp: bool)

  // A phase is named by what the worker does next.
  datatype FillPhase = FQueued | FLift | FLoad | FCopy(buf: Bytes) | FDone
  datatype FillJob = FillJob(d: nat, phase: FillPhase)

  datatype EvictKind = EVICT | FAST_EVICT | FLUSH
  datatype EvictPhase = EQueued | EProtect | EWrite | EClear | EDrop | EFree
  datatype EvictJob = EvictJob(d: nat, kind: EvictKind, phase: EvictPhase)

  /** The unmapping thread.  `Scan`, `AwaitPresent` and `AwaitFree` are the per-page
      loop; `Drain` and `Dispatch` are the loop that empties the whole buffer. */
  datatype Unmap =
    | NoUnmap
    | Scan(r: Region)
    | AwaitPresent(r: Region, d: nat)
    | AwaitFree(r: Region, d: nat)
    | Drain(r: Region)
    | Dispatch(r: Region, d: nat)

  /** The flushing thread keeps the buffer lock while it scans `busy[next..]` and then
      waits for the evict workers.  `entry` is the set of descriptors that were dirty
      in the busy deque when it took the lock. */
  datatype Flush = NoFlush | Flushing(next: nat, entry: set<nat>)

  datatype Config = Config(size: nat, low: nat, high: nat, regionOf: map<Page, Region>)

  datatype State = State(
    b: Buf,
    fills: map<nat, FillJob>,
    evicts: map<nat, EvictJob>,
    hand: seq<nat>,              // chosen by the evict manager, not yet sent
    managing: bool,              // the evict manager is inside its eviction loop
    thresholds: nat,             // THRESHOLD items waiting for the evict manager
    unmap: Unmap,
    flush: Flush,
    open: set<Region>,
    mem: map<Page, Frame>,
    store: map<Page, Bytes>,
    logical: map<Page, Bytes>,   // what the application last wrote
    kfailed: bool)               // a kernel call was made that the kernel rejects

  datatype FillStep = FillStart | FillLift | FillLoad | FillCopy | FillFinish
  datatype EvictStep = EvictStart | EvictProtect | EvictWrite | EvictClear | EvictDrop | EvictFinish

  datatype ManagerStep = ManagerWake | ManagerRest | ManagerBatch | ManagerSend(t: nat)
  datatype FlushStep = FlushBegin | FlushScan(t: nat) | FlushEnd
  datatype UnmapStep =
    | UnmapBegin(r: Region) | UnmapPick(d: nat) | UnmapLeave(t: nat) | UnmapFreed | UnmapEnd
    | DrainRelease | DrainOldest | DrainSend(t: nat) | DrainFree | DrainEnd

  datatype Label =
    | AppWrite(p: Page, v: Bytes)
    | MapRegion(r: Region, contents: map<Page, Bytes>)
    | FaultNew(p: Page, isWrite: bool, t: nat)
    | FaultUpgrade(p: Page, t: nat)
    | FaultSpurious(p: Page, isWrite: bool)
    | Fill(fill: FillStep, t: nat)
    | Evict(evict: EvictStep, t: nat)
    | Manage(manage: ManagerStep)
    | FlushBy(flush: FlushStep)
    | UnmapBy(unmap: UnmapStep)

  // ----- helpers -----

  predicate LockFree(s: State) { s.flush.NoFlush? }

  function PageOf(s: State, d: nat): Page
    requires d < |s.b.desc|
  {
    s.b.desc[d].page
  }

  function SetProtection(mem: map<Page, Frame>, p: Page, wp: bool): map<Page, Frame> {
    if p in mem then mem[p := mem[p].(wp := wp)] else mem
  }

  /** A fault that sent work also kicks the evict manager when the busy deque has
      exactly reached the high-water mark. */
  function Kicked(c: Config, s: State): State {
    if |s.b.busy| == c.high then s.(thresholds := s.thresholds + 1) else s
  }

  predicate ValidFill(s: State, t: nat) {
    t in s.fills && s.fills[t].d < |s.b.desc|
  }

  predicate ValidEvict(s: State, t: nat) {
    t in s.evicts && s.evicts[t].d < |s.b.desc|
  }

  predicate IsPresent(s: State, p: Page) {
    p in s.b.present && s.b.present[p] < |s.b.desc| && s.b.desc[s.b.present[p]].state == PRESENT
  }

  predicate OldestIs(s: State, deferred: bool, state: DState) {
    && s.b.busy != []
    && var d := s.b.busy[|s.b.busy| - 1];
    && d < |s.b.desc|
    && s.b.desc[d].deferred == deferred
    && s.b.desc[d].state == state
  }

  predicate Accessible(c: Config, s: State, p: Page) {
    p in c.regionOf && c.regionOf[p] in s.open
  }

  predicate BusyDirtyArePresent(s: State) {
    forall d :: d in s.b.busy && d < |s.b.desc| && s.b.desc[d].dirty ==> s.b.desc[d].state == PRESENT
  }

  function DirtyBusy(s: State): set<nat> {
    set d | d in s.b.busy && d < |s.b.desc| && s.b.desc[d].dirty
  }

  // ----- the application and the regions -----

  predicate CanAppWrite(c: Config, s: State, p: Page) {
    Accessible(c, s, p) && p in s.mem && !s.mem[p].wp
  }

  function DoAppWrite(s: State, p: Page, v: Bytes): State {
    s.(mem := s.mem[p := Frame(v, false)], logical := s.logical[p := v])
  }

  predicate CanMapRegion(s: State, r: Region, contents: map<Page, Bytes>) {
    s.unmap.NoUnmap? && LockFree(s) && r !in s.open && contents.Keys == s.store.Keys
  }

  predicate InRegion(c: Config, r: Region, p: Page) {
    p in c.regionOf && c.regionOf[p] == r
  }

  /** A region is mapped afresh: nothing of it is resident and the application's view
      is the contents of its store. */
  function DoMapRegion(c: Config, s: State, r: Region, contents: map<Page, Bytes>): State
    requires contents.Keys == s.store.Keys
  {
    s.(open := s.open + {r},
       mem := map p | p in s.mem && !InRegion(c, r, p) :: s.mem[p],
       store := map p | p in s.store :: if InRegion(c, r, p) then contents[p] else s.store[p],
       logical := map p | p in s.logical ::
         if InRegion(c, r, p) && p in contents then contents[p] else s.logical[p])
  }

  // ----- the fault handler -----

  predicate CanFaultNew(c: Config, s: State, p: Page, t: nat) {
    && LockFree(s) && Accessible(c, s, p) && p !in s.b.present && t !in s.fills
    && s.b.free != [] && s.b.free[|s.b.free| - 1] < |s.b.desc|
  }

  function DoFaultNew(c: Config, s: State, p: Page, isWrite: bool, t: nat): State
    requires CanFaultNew(c, s, p, t)
  {
    Kicked(c, s.(b := NewPage(s.b, p, c.regionOf[p], isWrite),
                 fills := s.fills[t := FillJob(s.b.free[|s.b.free| - 1], FQueued)]))
  }

  predicate CanFaultUpgrade(c: Config, s: State, p: Page, t: nat) {
    LockFree(s) && Accessible(c, s, p) && IsPresent(s, p) && !s.b.desc[s.b.present[p]].dirty && t !in s.fills
  }

  function DoFaultUpgrade(c: Config, s: State, p: Page, t: nat): State
    requires CanFaultUpgrade(c, s, p, t)
  {
    var d := s.b.present[p];
    Kicked(c, s.(b := UpgradePage(s.b, d), fills := s.fills[t := FillJob(d, FQueued)]))
  }

  predicate CanFaultSpurious(c: Config, s: State, p: Page, isWrite: bool) {
    LockFree(s) && Accessible(c, s, p) && IsPresent(s, p) && (isWrite ==> s.b.desc[s.b.present[p]].dirty)
  }

  // ----- fill workers -----

  predicate CanFill(s: State, f: FillStep, t: nat) {
    && ValidFill(s, t)
    && match f
       case FillStart => s.fills[t].phase == FQueued
       case FillLift => s.fills[t].phase == FLift
       case FillLoad => s.fills[t].phase == FLoad && PageOf(s, s.fills[t].d) in s.store
       case FillCopy => s.fills[t].phase.FCopy?
       case FillFinish => s.fills[t].phase == FDone && LockFree(s)
  }

  function FillTo(s: State, t: nat, phase: FillPhase): State
    requires t in s.fills
  {
    s.(fills := s.fills[t := s.fills[t].(phase := phase)])
  }

  function DoFill(s: State, f: FillStep, t: nat): State
    requires CanFill(s, f, t)
  {
    match f
    case FillStart =>
      var pd := s.b.desc[s.fills[t].d];
      FillTo(s, t, if pd.dirty && pd.dataPresent then FLift else FLoad)
    case FillLift => DoFillLift(s, t)
    case FillLoad => FillTo(s, t, FCopy(s.store[PageOf(s, s.fills[t].d)]))
    case FillCopy => DoFillCopy(s, t)
    case FillFinish => s.(b := MarkPresent(s.b, s.fills[t].d), fills := s.fills - {t})
  }

  function DoFillLift(s: State, t: nat): State
    requires ValidFill(s, t)
  {
    var p := PageOf(s, s.fills[t].d);
    FillTo(s, t, FDone).(mem := SetProtection(s.mem, p, false), kfailed := s.kfailed || p !in s.mem)
  }

  /** UFFDIO_COPY: fails on a page that is already mapped; protects the page iff the
      fault was not a write. */
  function DoFillCopy(s: State, t: nat): State
    requires ValidFill(s, t) && s.fills[t].phase.FCopy?
  {
    var d := s.fills[t].d;
    var pd := s.b.desc[d];
    FillTo(s, t, FDone).(
      mem := if pd.page in s.mem then s.mem else s.mem[pd.page := Frame(s.fills[t].phase.buf, !pd.dirty)],
      kfailed := s.kfailed || pd.page in s.mem,
      b := s.b.(desc := s.b.desc[d := pd.(dataPresent := true)]))
  }

  // ----- evict workers -----

  predicate CanEvict(s: State, e: EvictStep, t: nat) {
    && ValidEvict(s, t)
    && match e
       case EvictStart => s.evicts[t].phase == EQueued
       case EvictProtect => s.evicts[t].phase == EProtect
       case EvictWrite => s.evicts[t].phase == EWrite
       case EvictClear => s.evicts[t].phase == EClear
       case EvictDrop => s.evicts[t].phase == EDrop
       case EvictFinish => s.evicts[t].phase == EFree && LockFree(s)
  }

  function EvictTo(s: State, t: nat, phase: EvictPhase): State
    requires t in s.evicts
  {
    s.(evicts := s.evicts[t := s.evicts[t].(phase := phase)])
  }

  function DoEvict(s: State, e: EvictStep, t: nat): State
    requires CanEvict(s, e, t)
  {
    match e
    case EvictStart => EvictTo(s, t, if s.b.desc[s.evicts[t].d].dirty then EProtect else EDrop)
    case EvictProtect => DoEvictProtect(s, t)
    case EvictWrite => DoEvictWrite(s, t)
    case EvictClear => DoEvictClear(s, t)
    case EvictDrop => DoEvictDrop(s, t)
    case EvictFinish => s.(b := MarkFree(s.b, s.evicts[t].d), evicts := s.evicts - {t})
  }

  function DoEvictProtect(s: State, t: nat): State
    requires ValidEvict(s, t)
  {
    var p := PageOf(s, s.evicts[t].d);
    EvictTo(s, t, EWrite).(mem := SetProtection(s.mem, p, true), kfailed := s.kfailed || p !in s.mem)
  }

  /** The store call reads the page through its mapping. */
  function DoEvictWrite(s: State, t: nat): State
    requires ValidEvict(s, t)
  {
    var p := PageOf(s, s.evicts[t].d);
    EvictTo(s, t, EClear).(store := if p in s.mem then s.store[p := s.mem[p].data] else s.store,
                           kfailed := s.kfailed || p !in s.mem)
  }

  function DoEvictClear(s: State, t: nat): State
    requires ValidEvict(s, t)
  {
    var d := s.evicts[t].d;
    EvictTo(s, t, EDrop).(b := s.b.(desc := s.b.desc[d := s.b.desc[d].(dirty := false)]))
  }

  /** A flush is finished here; a fast eviction leaves the page mapped. */
  function DoEvictDrop(s: State, t: nat): State
    requires ValidEvict(s, t)
  {
    match s.evicts[t].kind
    case FLUSH => s.(evicts := s.evicts - {t})
    case FAST_EVICT => EvictTo(s, t, EFree)
    case EVICT => EvictTo(s, t, EFree).(mem := s.mem - {PageOf(s, s.evicts[t].d)})
  }

  // ----- the evict manager -----

  predicate CanBatch(c: Config, s: State) {
    s.managing && s.hand == [] && |s.b.busy| > c.low && LockFree(s)
  }

  function DoBatch(s: State): State {
    s.(b := EvictOldestPages(s.b), hand := ScanOldest(s.b.desc, s.b.busy, MAX_EVICTED).evicted)
  }

  predicate CanSend(s: State, t: nat) {
    s.managing && s.hand != [] && t !in s.evicts
  }

  function DoSend(s: State, t: nat): State
    requires CanSend(s, t)
  {
    s.(hand := s.hand[1..], evicts := s.evicts[t := EvictJob(s.hand[0], EVICT, EQueued)])
  }

  // ----- the flushing thread -----

  predicate CanFlushBegin(s: State) {
    LockFree(s) && s.unmap.NoUnmap? && BusyDirtyArePresent(s)
  }

  predicate CanFlushScan(s: State, t: nat) {
    s.flush.Flushing? && s.flush.next < |s.b.busy| && s.b.busy[s.flush.next] < |s.b.desc| && t !in s.evicts
  }

  function DoFlushScan(s: State, t: nat): State
    requires CanFlushScan(s, t)
  {
    var d := s.b.busy[s.flush.next];
    var scanned := s.(flush := s.flush.(next := s.flush.next + 1));
    if s.b.desc[d].dirty
    then scanned.(evicts := s.evicts[t := EvictJob(d, FLUSH, EQueued)])
    else scanned
  }

  predicate CanFlushEnd(s: State) {
    s.flush.Flushing? && s.flush.next >= |s.b.busy| && s.evicts == map[]
  }

  // ----- the unmapping thread: per-page loop -----

  predicate CanUnmapBegin(s: State, r: Region) {
    s.unmap.NoUnmap? && LockFree(s) && r in s.open
  }

  function DoUnmapBegin(s: State, r: Region): State {
    s.(open := s.open - {r}, unmap := if |s.open| > 1 then Scan(r) else Drain(r))
  }

  predicate CanPick(s: State, d: nat) {
    s.unmap.Scan? && (s.unmap.r, d) in s.b.active && d < |s.b.desc|
  }

  function DoPick(s: State, d: nat): State
    requires CanPick(s, d)
  {
    s.(b := PickActive(s.b, s.unmap.r, d),
       unmap := if s.b.desc[d].state != LEAVING then AwaitPresent(s.unmap.r, d) else AwaitFree(s.unmap.r, d))
  }

  predicate CanLeave(s: State, t: nat) {
    s.unmap.AwaitPresent? && s.unmap.d < |s.b.desc| && s.b.desc[s.unmap.d].state == PRESENT && t !in s.evicts
  }

  function DoLeave(s: State, t: nat): State
    requires CanLeave(s, t)
  {
    s.(b := SetState(s.b, s.unmap.d, LEAVING), unmap := AwaitFree(s.unmap.r, s.unmap.d),
       evicts := s.evicts[t := EvictJob(s.unmap.d, EVICT, EQueued)])
  }

  predicate CanFreed(s: State) {
    s.unmap.AwaitFree? && s.unmap.d < |s.b.desc| && s.b.desc[s.unmap.d].state == FREE
  }

  predicate CanUnmapEnd(s: State) {
    s.unmap.Scan? && forall e | e in s.b.active :: e.0 != s.unmap.r
  }

  // ----- the unmapping thread: draining the whole buffer -----

  predicate CanDrainRelease(s: State) { s.unmap.Drain? && OldestIs(s, true, FREE) }

  predicate CanDrainOldest(s: State) { s.unmap.Drain? && OldestIs(s, false, PRESENT) }

  function DoDrainOldest(s: State): State
    requires CanDrainOldest(s)
  {
    s.(b := EvictOldest(s.b), unmap := Dispatch(s.unmap.r, s.b.busy[|s.b.busy| - 1]))
  }

  predicate CanDrainSend(s: State, t: nat) {
    s.unmap.Dispatch? && s.unmap.d < |s.b.desc| && s.b.desc[s.unmap.d].dirty && t !in s.evicts
  }

  function DoDrainSend(s: State, t: nat): State
    requires CanDrainSend(s, t)
  {
    s.(unmap := Drain(s.unmap.r), evicts := s.evicts[t := EvictJob(s.unmap.d, FAST_EVICT, EQueued)])
  }

  predicate CanDrainFree(s: State) {
    s.unmap.Dispatch? && s.unmap.d < |s.b.desc| && !s.b.desc[s.unmap.d].dirty
  }

  function DoDrainFree(s: State): State
    requires CanDrainFree(s)
  {
    s.(b := MarkFree(s.b, s.unmap.d), unmap := Drain(s.unmap.r))
  }

  /** The loop has emptied the deque and the evict workers are idle. */
  predicate Drained(s: State) { s.unmap.Drain? && s.b.busy == [] && s.evicts == map[] }

  /** The region goes away only when the evict manager holds nothing. */
  predicate CanDrainEnd(s: State) { Drained(s) && s.hand == [] }

  // ----- one step -----

  predicate CanManage(c: Config, s: State, m: ManagerStep) {
    match m
    case ManagerWake => !s.managing && s.thresholds > 0
    case ManagerRest => s.managing && s.hand == [] && |s.b.busy| <= c.low
    case ManagerBatch => CanBatch(c, s)
    case ManagerSend(t) => CanSend(s, t)
  }

  function DoManage(c: Config, s: State, m: ManagerStep): State
    requires CanManage(c, s, m)
  {
    match m
    case ManagerWake => s.(managing := true, thresholds := s.thresholds - 1)
    case ManagerRest => s.(managing := false)
    case ManagerBatch => DoBatch(s)
    case ManagerSend(t) => DoSend(s, t)
  }

  predicate CanFlush(s: State, f: FlushStep) {
    match f
    case FlushBegin => CanFlushBegin(s)
    case FlushScan(t) => CanFlushScan(s, t)
    case FlushEnd => CanFlushEnd(s)
  }

  function DoFlush(s: State, f: FlushStep): State
    requires CanFlush(s, f)
  {
    match f
    case FlushBegin => s.(flush := Flushing(0, DirtyBusy(s)))
    case FlushScan(t) => DoFlushScan(s, t)
    case FlushEnd => s.(flush := NoFlush)
  }

  predicate CanUnmap(s: State, u: UnmapStep) {
    match u
    case UnmapBegin(r) => CanUnmapBegin(s, r)
    case UnmapPick(d) => CanPick(s, d)
    case UnmapLeave(t) => CanLeave(s, t)
    case UnmapFreed => CanFreed(s)
    case UnmapEnd => CanUnmapEnd(s)
    case DrainRelease => CanDrainRelease(s)
    case DrainOldest => CanDrainOldest(s)
    case DrainSend(t) => CanDrainSend(s, t)
    case DrainFree => CanDrainFree(s)
    case DrainEnd => CanDrainEnd(s)
  }

  function DoUnmap(s: State, u: UnmapStep): State
    requires CanUnmap(s, u)
  {
    match u
    case UnmapBegin(r) => DoUnmapBegin(s, r)
    case UnmapPick(d) => DoPick(s, d)
    case UnmapLeave(t) => DoLeave(s, t)
    case UnmapFreed => s.(unmap := Scan(s.unmap.r))
    case UnmapEnd => s.(unmap := NoUnmap)
    case DrainRelease => s.(b := ReleaseOldest(s.b))
    case DrainOldest => DoDrainOldest(s)
    case DrainSend(t) => DoDrainSend(s, t)
    case DrainFree => DoDrainFree(s)
    case DrainEnd => s.(unmap := NoUnmap)
  }

  predicate Can(c: Config, s: State, l: Label) {
    match l
    case AppWrite(p, v) => CanAppWrite(c, s, p)
    case MapRegion(r, contents) => CanMapRegion(s, r, contents)
    case FaultNew(p, isWrite, t) => CanFaultNew(c, s, p, t)
    case FaultUpgrade(p, t) => CanFaultUpgrade(c, s, p, t)
    case FaultSpurious(p, isWrite) => CanFaultSpurious(c, s, p, isWrite)
    case Fill(f, t) => CanFill(s, f, t)
    case Evict(e, t) => CanEvict(s, e, t)
    case Manage(m) => CanManage(c, s, m)
    case FlushBy(f) => CanFlush(s, f)
    case UnmapBy(u) => CanUnmap(s, u)
  }

  function Do(c: Config, s: State, l: Label): State
    requires Can(c, s, l)
  {
    match l
    case AppWrite(p, v) => DoAppWrite(s, p, v)
    case MapRegion(r, contents) => DoMapRegion(c, s, r, contents)
    case FaultNew(p, isWrite, t) => DoFaultNew(c, s, p, isWrite, t)
    case FaultUpgrade(p, t) => DoFaultUpgrade(c, s, p, t)
    case FaultSpurious(p, isWrite) => s
    case Fill(f, t) => DoFill(s, f, t)
    case Evict(e, t) => DoEvict(s, e, t)
    case Manage(m) => DoManage(c, s, m)
    case FlushBy(f) => DoFlush(s, f)
    case UnmapBy(u) => DoUnmap(s, u)
  }

  // ----- runs -----

  predicate Init(c: Config, s: State) {
    && |s.b.desc| == c.size
    && (forall d :: 0 <= d < c.size ==> s.b.desc[d].state == FREE && !s.b.desc[d].deferred)
    && s.b.free == seq(c.size, i => i)
    && s.b.busy == [] && s.b.present == map[] && s.b.active == {} && !s.b.failed
    && s.fills == map[] && s.evicts == map[] && s.hand == [] && !s.managing && s.thresholds == 0
    && s.unmap == NoUnmap && s.flush == NoFlush && s.open == {}
    && s.mem == map[] && s.store.Keys == c.regionOf.Keys && s.logical == s.store && !s.kfailed
  }

  predicate Next(c: Config, s: State, l: Label, s': State) {
    Can(c, s, l) && s' == Do(c, s, l)
  }

  /** Names a position of a run; the steps of a run are looked up only where it is mentioned. */
  predicate StepNo(i: int) { true }

  predicate IsRun(c: Config, ss: seq<State>, ls: seq<Label>) {
    && |ss| == |ls| + 1
    && Init(c, ss[0])
    && forall i {:trigger StepNo(i)} :: 0 <= i < |ls| ==> Next(c, ss[i], ls[i], ss[i + 1])
  }

  lemma StepAt(c: Config, ss: seq<State>, ls: seq<Label>, i: nat)
    requires IsRun(c, ss, ls) && i < |ls|
    ensures Next(c, ss[i], ls[i], ss[i + 1])
  {
    assert StepNo(i);
  }
}
