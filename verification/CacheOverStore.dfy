/** The page cache over the sparse store: a region whose store is a sparse store.  Every load
    and every write-back of a page of that region is a call of the store, so what the cache
    promises about its store becomes a promise about the files. */
module CacheOverStore {
  import opened Options
  import opened PageBuffer
  import opened UmapProtocol
  import opened ProtocolInvariant
  import opened ProtocolRuns
  import opened DrainCondition
  import opened FlushCondition
  import opened DivMod
  import S = SparseStores
  import R = SparseStoreRuns

  type Pages = map<Page, Bytes>

  /** The region, the address it starts at, its size, and the page size. */
  datatype Layout = Layout(region: Region, start: Page, size: nat, pageSize: nat)

  predicate Ours(c: Config, y: Layout, p: Page) { InRegion(c, y.region, p) }

  /** The offset of a page in the store. */
  function Off(y: Layout, p: Page): nat { if p < y.start then 0 else p - y.start }

  /** The region is divided into pages. */
  ghost predicate Paged(c: Config, y: Layout) {
    y.pageSize > 0 && forall p :: Ours(c, y, p) ==>
      y.start <= p && p + y.pageSize <= y.start + y.size && (p - y.start) % y.pageSize == 0
  }

  /** The region is no larger than the store. */
  ghost predicate HasRoom(c: Config, y: Layout, st: S.Store) {
    R.Ready(st, y.pageSize) && !st.readOnly && Paged(c, y) && y.size <= st.fileSize * st.numFiles
  }

  /** So every page has a place in the store. */
  lemma PlaceInRange(c: Config, y: Layout, st: S.Store, p: Page)
    requires HasRoom(c, y, st) && Ours(c, y, p)
    ensures y.start <= p && R.InRange(st, y.pageSize, R.ReadPage(Off(y, p)))
  {
    InsideStore(Off(y, p), st.fileSize, st.numFiles);
  }

  lemma InsideStore(off: nat, fileSize: nat, numFiles: nat)
    requires fileSize > 0 && off < fileSize * numFiles
    ensures off / fileSize < numFiles
  {
    assert off == fileSize * (off / fileSize) + off % fileSize;
    MulLess(fileSize, off / fileSize, numFiles);
  }

  /** The store call that a step makes; mapping the region opens the store for writing. */
  function Call(c: Config, y: Layout, s: State, l: Label): Option<R.Op> {
    match l
    case MapRegion(r, _) => if r == y.region then Some(R.Reopen(false)) else None
    case Fill(FillLoad, t) => LoadCall(c, y, s, t)
    case Evict(EvictWrite, t) => WriteCall(c, y, s, t)
    case _ => None
  }

  function LoadCall(c: Config, y: Layout, s: State, t: nat): Option<R.Op> {
    if ValidFill(s, t) && Ours(c, y, PageOf(s, s.fills[t].d)) then Some(R.ReadPage(Off(y, PageOf(s, s.fills[t].d))))
    else None
  }

  function WriteCall(c: Config, y: Layout, s: State, t: nat): Option<R.Op> {
    if ValidEvict(s, t) && Ours(c, y, PageOf(s, s.evicts[t].d)) && PageOf(s, s.evicts[t].d) in s.mem
    then Some(R.WritePage(Off(y, PageOf(s, s.evicts[t].d)), s.mem[PageOf(s, s.evicts[t].d)].data))
    else None
  }

  /** The files change as the call says. */
  ghost predicate Follows(y: Layout, call: Option<R.Op>, st: S.Store, st': S.Store) {
    match call
    case None => st' == st
    case Some(op) => R.Ready(st, y.pageSize) && R.InRange(st, y.pageSize, op) ==> st' == R.Step(st, y.pageSize, op)
  }

  ghost predicate InFiles(y: Layout, st: S.Store, p: Page, data: Bytes) {
    st.fileSize > 0 && |data| == y.pageSize && R.PageIs(st, Off(y, p), data)
  }

  /** The files hold the page, and its file is there unless the page is as it was at first. */
  ghost predicate Stored(y: Layout, first: Pages, st: S.Store, p: Page, data: Bytes) {
    && InFiles(y, st, p, data)
    && (S.Backed(st, Off(y, p), y.pageSize) || (p in first && first[p] == data))
  }

  /** A write leaves a page its size, and a mapping starts from what the files hold. */
  ghost predicate Proper(c: Config, y: Layout, st: S.Store, l: Label) {
    match l
    case AppWrite(p, v) => Ours(c, y, p) ==> |v| == y.pageSize
    case MapRegion(r, contents) =>
      r == y.region ==> forall p :: Ours(c, y, p) && p in contents ==> InFiles(y, st, p, contents[p])
    case _ => true
  }

  ghost predicate Sized(c: Config, y: Layout, pages: Pages) {
    forall p :: Ours(c, y, p) && p in pages ==> |pages[p]| == y.pageSize
  }

  ghost predicate AllStored(c: Config, y: Layout, first: Pages, store: Pages, st: S.Store) {
    forall p :: Ours(c, y, p) && p in store ==> Stored(y, first, st, p, store[p])
  }

  /** The store copy of every page of the region is what the files hold. */
  ghost predicate Coupled(c: Config, y: Layout, first: Pages, s: State, st: S.Store) {
    HasRoom(c, y, st) && AllStored(c, y, first, s.store, st) && Sized(c, y, s.logical)
  }

  /** A run of the cache together with the files below it. */
  ghost predicate JointRun(c: Config, y: Layout, ss: seq<State>, ls: seq<Label>, sts: seq<S.Store>) {
    && IsRun(c, ss, ls) && |sts| == |ss| && Starts(c, y, ss[0], sts[0])
    && forall k :: 0 <= k < |ls| ==> FollowsAt(c, y, ss, ls, sts, k)
  }

  ghost predicate FollowsAt(c: Config, y: Layout, ss: seq<State>, ls: seq<Label>, sts: seq<S.Store>, k: nat)
    requires k < |ls| && |ss| == |sts| == |ls| + 1
  {
    Proper(c, y, sts[k], ls[k]) && Follows(y, Call(c, y, ss[k], ls[k]), sts[k], sts[k + 1])
  }

  ghost predicate Starts(c: Config, y: Layout, s: State, st: S.Store) {
    && HasRoom(c, y, st)
    && forall p :: Ours(c, y, p) ==> p in s.store && InFiles(y, st, p, s.store[p])
  }

  // ----- the files under one call -----

  lemma RoomStays(c: Config, y: Layout, st: S.Store, op: R.Op)
    requires HasRoom(c, y, st) && R.InRange(st, y.pageSize, op) && op != R.Reopen(true)
    ensures HasRoom(c, y, R.Step(st, y.pageSize, op))
  {
    R.StepKeeps(st, y.pageSize, op);
  }

  /** A call that does not write the page leaves it in place. */
  lemma PageStays(c: Config, y: Layout, first: Pages, st: S.Store, op: R.Op, p: Page, data: Bytes)
    requires HasRoom(c, y, st) && R.InRange(st, y.pageSize, op) && Ours(c, y, p) && Stored(y, first, st, p, data)
    requires op.WritePage? ==> op.off != Off(y, p)
    ensures Stored(y, first, R.Step(st, y.pageSize, op), p, data)
  {
    PlaceInRange(c, y, st, p);
    R.StepKeeps(st, y.pageSize, op);
    R.StepLeaves(st, y.pageSize, op, Off(y, p), data);
    BackedStays(st, y.pageSize, op, Off(y, p));
  }

  lemma BackedStays(st: S.Store, pageSize: nat, op: R.Op, off: nat)
    requires R.Ready(st, pageSize) && R.InRange(st, pageSize, op)
    ensures R.Step(st, pageSize, op).fileSize == st.fileSize
    ensures S.Backed(st, off, pageSize) ==> S.Backed(R.Step(st, pageSize, op), off, pageSize)
  {
    R.StepKeeps(st, pageSize, op);
    R.StepGrows(st, pageSize, op, off / st.fileSize);
  }

  lemma PageWritten(c: Config, y: Layout, first: Pages, st: S.Store, p: Page, data: Bytes)
    requires HasRoom(c, y, st) && Ours(c, y, p) && |data| == y.pageSize
    ensures R.InRange(st, y.pageSize, R.WritePage(Off(y, p), data))
    ensures Stored(y, first, R.Step(st, y.pageSize, R.WritePage(Off(y, p), data)), p, data)
  {
    PlaceInRange(c, y, st, p);
    R.StepKeeps(st, y.pageSize, R.WritePage(Off(y, p), data));
    R.WriteTakesEffect(st, y.pageSize, Off(y, p), data);
  }

  lemma StoreKept(c: Config, y: Layout, first: Pages, store: Pages, st: S.Store, op: R.Op)
    requires HasRoom(c, y, st) && AllStored(c, y, first, store, st) && R.InRange(st, y.pageSize, op) && !op.WritePage?
    ensures AllStored(c, y, first, store, R.Step(st, y.pageSize, op))
  {
    forall p | Ours(c, y, p) && p in store ensures Stored(y, first, R.Step(st, y.pageSize, op), p, store[p]) {
      PageStays(c, y, first, st, op, p, store[p]);
    }
  }

  lemma StoreWritten(c: Config, y: Layout, first: Pages, store: Pages, st: S.Store, q: Page, data: Bytes)
    requires HasRoom(c, y, st) && AllStored(c, y, first, store, st) && Ours(c, y, q) && |data| == y.pageSize
    ensures R.InRange(st, y.pageSize, R.WritePage(Off(y, q), data))
    ensures AllStored(c, y, first, store[q := data], R.Step(st, y.pageSize, R.WritePage(Off(y, q), data)))
  {
    PageWritten(c, y, first, st, q, data);
    var op := R.WritePage(Off(y, q), data);
    forall p | Ours(c, y, p) && p in store && p != q ensures Stored(y, first, R.Step(st, y.pageSize, op), p, store[p]) {
      PlaceInRange(c, y, st, p);
      PlaceInRange(c, y, st, q);
      PageStays(c, y, first, st, op, p, store[p]);
    }
  }

  // ----- the store copies under one step -----

  predicate ChangesStore(l: Label) { l.MapRegion? || (l.Evict? && l.evict == EvictWrite) }

  lemma EvictKeepsStore(s: State, e: EvictStep, t: nat)
    requires CanEvict(s, e, t) && e != EvictWrite
    ensures DoEvict(s, e, t).store == s.store
  {
    match e
    case EvictProtect => assert DoEvictProtect(s, t).store == s.store;
    case EvictClear => assert DoEvictClear(s, t).store == s.store;
    case EvictDrop => assert DoEvictDrop(s, t).store == s.store;
    case _ =>
  }

  lemma FillKeepsStore(s: State, f: FillStep, t: nat)
    requires CanFill(s, f, t)
    ensures DoFill(s, f, t).store == s.store
  {
  }

  lemma ManageKeepsStore(c: Config, s: State, m: ManagerStep)
    requires CanManage(c, s, m)
    ensures DoManage(c, s, m).store == s.store
  {
  }

  lemma FlushKeepsStore(s: State, f: FlushStep)
    requires CanFlush(s, f)
    ensures DoFlush(s, f).store == s.store
  {
    if f.FlushScan? {
      var scanned := s.(flush := s.flush.(next := s.flush.next + 1));
      assert scanned.store == s.store;
    }
  }

  lemma UnmapKeepsStore(s: State, u: UnmapStep)
    requires CanUnmap(s, u)
    ensures DoUnmap(s, u).store == s.store
  {
  }

  lemma StoreStays(c: Config, s: State, l: Label)
    requires Can(c, s, l) && !ChangesStore(l)
    ensures Do(c, s, l).store == s.store
  {
    match l
    case Fill(f, t) => FillKeepsStore(s, f, t);
    case Evict(e, t) => EvictKeepsStore(s, e, t);
    case Manage(m) => ManageKeepsStore(c, s, m);
    case FlushBy(f) => FlushKeepsStore(s, f);
    case UnmapBy(u) => UnmapKeepsStore(s, u);
    case _ =>
  }

  // ----- the coupling under one step -----

  lemma SizesKept(c: Config, y: Layout, s: State, st: S.Store, l: Label)
    requires Can(c, s, l) && Sized(c, y, s.logical) && Proper(c, y, st, l)
    ensures Sized(c, y, Do(c, s, l).logical)
  {
    LogicalStep(c, s, l);
  }

  lemma LoadKeeps(c: Config, y: Layout, first: Pages, store: Pages, s: State, t: nat, st: S.Store, st': S.Store)
    requires HasRoom(c, y, st) && AllStored(c, y, first, store, st) && Follows(y, LoadCall(c, y, s, t), st, st')
    ensures HasRoom(c, y, st') && AllStored(c, y, first, store, st')
  {
    if LoadCall(c, y, s, t).Some? {
      var op := R.ReadPage(Off(y, PageOf(s, s.fills[t].d)));
      PlaceInRange(c, y, st, PageOf(s, s.fills[t].d));
      RoomStays(c, y, st, op);
      StoreKept(c, y, first, store, st, op);
    }
  }

  lemma WriteKeeps(c: Config, y: Layout, first: Pages, s: State, t: nat, st: S.Store, st': S.Store)
    requires MirrorI(c, s) && Coupled(c, y, first, s, st) && ValidEvict(s, t)
    requires Follows(y, WriteCall(c, y, s, t), st, st')
    ensures HasRoom(c, y, st') && AllStored(c, y, first, DoEvictWrite(s, t).store, st')
  {
    var p := PageOf(s, s.evicts[t].d);
    if Ours(c, y, p) && p in s.mem {
      StoreWritten(c, y, first, s.store, st, p, s.mem[p].data);
      RoomStays(c, y, st, R.WritePage(Off(y, p), s.mem[p].data));
    }
  }

  /** The files determine the page, so mapping the region again changes no store copy. */
  lemma SameInFiles(y: Layout, st: S.Store, p: Page, a: Bytes, b: Bytes)
    requires InFiles(y, st, p, a) && InFiles(y, st, p, b)
    ensures a == b
  {
    forall k | 0 <= k < |a| ensures a[k] == b[k] {
      assert S.ByteAt(st.files, st.fileSize, Off(y, p) + k) == a[k];
    }
  }

  lemma MapKeeps(c: Config, y: Layout, first: Pages, s: State, r: Region, contents: Pages, st: S.Store,
                 st': S.Store)
    requires Coupled(c, y, first, s, st) && CanMapRegion(s, r, contents) && Proper(c, y, st, MapRegion(r, contents))
    requires Follows(y, Call(c, y, s, MapRegion(r, contents)), st, st')
    ensures HasRoom(c, y, st') && AllStored(c, y, first, DoMapRegion(c, s, r, contents).store, st')
  {
    var store' := DoMapRegion(c, s, r, contents).store;
    forall p | Ours(c, y, p) && p in store' ensures store'[p] == s.store[p] {
      if r == y.region {
        SameInFiles(y, st, p, contents[p], s.store[p]);
      }
    }
    if r == y.region {
      RoomStays(c, y, st, R.Reopen(false));
      StoreKept(c, y, first, store', st, R.Reopen(false));
    }
  }

  /** Every step keeps the files equal to the store copies. */
  lemma CoupledStep(c: Config, y: Layout, first: Pages, s: State, l: Label, st: S.Store, st': S.Store)
    requires MirrorI(c, s) && Can(c, s, l) && Coupled(c, y, first, s, st) && Proper(c, y, st, l)
    requires Follows(y, Call(c, y, s, l), st, st')
    ensures Coupled(c, y, first, Do(c, s, l), st')
  {
    SizesKept(c, y, s, st, l);
    if l.MapRegion? {
      MapKeeps(c, y, first, s, l.r, l.contents, st, st');
    } else if l.Evict? && l.evict == EvictWrite {
      WriteKeeps(c, y, first, s, l.t, st, st');
    } else {
      StoreStays(c, s, l);
      if l.Fill? && l.fill == FillLoad {
        LoadKeeps(c, y, first, s.store, s, l.t, st, st');
      }
    }
  }

  // ----- over every run -----

  lemma CoupledAt(c: Config, y: Layout, ss: seq<State>, ls: seq<Label>, k: nat, st: S.Store, st': S.Store)
    requires IsRun(c, ss, ls) && k < |ls| && Coupled(c, y, ss[0].store, ss[k], st) && Proper(c, y, st, ls[k])
    requires Follows(y, Call(c, y, ss[k], ls[k]), st, st')
    ensures Coupled(c, y, ss[0].store, ss[k + 1], st')
  {
    RunKeeps(c, ss, ls, k);
    StepAt(c, ss, ls, k);
    CoupledStep(c, y, ss[0].store, ss[k], ls[k], st, st');
  }

  lemma {:induction false} RunCoupled(c: Config, y: Layout, ss: seq<State>, ls: seq<Label>, sts: seq<S.Store>, k: nat)
    requires JointRun(c, y, ss, ls, sts) && k < |ss|
    ensures Coupled(c, y, ss[0].store, ss[k], sts[k])
  {
    if k > 0 {
      RunCoupled(c, y, ss, ls, sts, k - 1);
      assert FollowsAt(c, y, ss, ls, sts, k - 1);
      CoupledAt(c, y, ss, ls, k - 1, sts[k - 1], sts[k]);
    }
  }

  /** In every state of every run the flat byte `k` places into a page is byte `k` of the store copy
      that the protocol speaks of: the page lies in the store where it lies in the region. */
  lemma FilesAreStore(c: Config, y: Layout, ss: seq<State>, ls: seq<Label>, sts: seq<S.Store>, i: nat, p: Page, k: nat)
    requires JointRun(c, y, ss, ls, sts) && i < |ss| && Ours(c, y, p) && k < y.pageSize
    ensures y.start <= p && sts[i].fileSize > 0 && p in ss[i].store && |ss[i].store[p]| == y.pageSize
    ensures S.ByteAt(sts[i].files, sts[i].fileSize, p - y.start + k) == ss[i].store[p][k]
  {
    RunCoupled(c, y, ss, ls, sts, i);
    RunKeeps(c, ss, ls, i);
  }

  // ----- no run is left out -----

  /** The same condition on a run of the cache alone: a mapping starts from the store copies. */
  ghost predicate ProperAlone(c: Config, y: Layout, s: State, l: Label) {
    match l
    case AppWrite(p, v) => Ours(c, y, p) ==> |v| == y.pageSize
    case MapRegion(r, contents) =>
      r == y.region ==> forall p :: Ours(c, y, p) && p in contents ==> p in s.store && contents[p] == s.store[p]
    case _ => true
  }

  ghost predicate AllProper(c: Config, y: Layout, ss: seq<State>, ls: seq<Label>) {
    |ss| == |ls| + 1 && forall i :: 0 <= i < |ls| ==> ProperAlone(c, y, ss[i], ls[i])
  }

  ghost function NextFiles(y: Layout, call: Option<R.Op>, st: S.Store): S.Store {
    match call
    case None => st
    case Some(op) => if R.Ready(st, y.pageSize) && R.InRange(st, y.pageSize, op) then R.Step(st, y.pageSize, op) else st
  }

  ghost function FilesBelow(c: Config, y: Layout, ss: seq<State>, ls: seq<Label>, st: S.Store, k: nat): S.Store
    requires k < |ss| == |ls| + 1
  {
    if k == 0 then st else NextFiles(y, Call(c, y, ss[k - 1], ls[k - 1]), FilesBelow(c, y, ss, ls, st, k - 1))
  }

  lemma {:induction false} FilesBelowCoupled(c: Config, y: Layout, ss: seq<State>, ls: seq<Label>, st: S.Store, k: nat)
    requires IsRun(c, ss, ls) && k < |ss| && Starts(c, y, ss[0], st) && AllProper(c, y, ss, ls)
    ensures Coupled(c, y, ss[0].store, ss[k], FilesBelow(c, y, ss, ls, st, k))
  {
    if k > 0 {
      FilesBelowCoupled(c, y, ss, ls, st, k - 1);
      NextCoupled(c, y, ss, ls, FilesBelow(c, y, ss, ls, st, k - 1), k - 1);
    }
  }

  lemma NextCoupled(c: Config, y: Layout, ss: seq<State>, ls: seq<Label>, st: S.Store, k: nat)
    requires IsRun(c, ss, ls) && AllProper(c, y, ss, ls) && k < |ls| && Coupled(c, y, ss[0].store, ss[k], st)
    ensures Coupled(c, y, ss[0].store, ss[k + 1], NextFiles(y, Call(c, y, ss[k], ls[k]), st))
  {
    StaysProper(c, y, ss, ls, st, k);
    NextFollows(y, Call(c, y, ss[k], ls[k]), st);
    CoupledAt(c, y, ss, ls, k, st, NextFiles(y, Call(c, y, ss[k], ls[k]), st));
  }

  lemma NextFollows(y: Layout, call: Option<R.Op>, st: S.Store)
    ensures Follows(y, call, st, NextFiles(y, call, st))
  {
  }

  lemma StaysProper(c: Config, y: Layout, ss: seq<State>, ls: seq<Label>, st: S.Store, k: nat)
    requires AllProper(c, y, ss, ls) && k < |ls| && Coupled(c, y, ss[0].store, ss[k], st)
    ensures Proper(c, y, st, ls[k])
  {
    assert ProperAlone(c, y, ss[k], ls[k]);
  }

  lemma FollowsBelow(c: Config, y: Layout, ss: seq<State>, ls: seq<Label>, st: S.Store, k: nat)
    requires IsRun(c, ss, ls) && k < |ls| && Starts(c, y, ss[0], st) && AllProper(c, y, ss, ls)
    ensures var st1, st2 := FilesBelow(c, y, ss, ls, st, k), FilesBelow(c, y, ss, ls, st, k + 1);
            Proper(c, y, st1, ls[k]) && Follows(y, Call(c, y, ss[k], ls[k]), st1, st2)
  {
    FilesBelowCoupled(c, y, ss, ls, st, k);
    StaysProper(c, y, ss, ls, FilesBelow(c, y, ss, ls, st, k), k);
  }

  /** Below every run of the cache whose writes keep the page size and whose mappings of the
      region start from its store copies there are files that follow it. */
  lemma EveryRunHasFiles(c: Config, y: Layout, ss: seq<State>, ls: seq<Label>, st: S.Store) returns (sts: seq<S.Store>)
    requires IsRun(c, ss, ls) && Starts(c, y, ss[0], st) && AllProper(c, y, ss, ls)
    ensures JointRun(c, y, ss, ls, sts) && sts[0] == st
  {
    sts := seq(|ss|, (k: nat) requires k < |ss| => FilesBelow(c, y, ss, ls, st, k));
    forall k | 0 <= k < |ls| ensures FollowsAt(c, y, ss, ls, sts, k) {
      FollowsBelow(c, y, ss, ls, st, k);
    }
  }

  // ----- what a reopened store reads -----

  /** After closing and reopening, a read of the page at `off` is complete iff the store is writable
      or the page's file is there already, and a complete read returns `data`.  It is complete in
      either mode if the page is not as it was `before`. */
  ghost predicate ReadsBack(y: Layout, st: S.Store, off: nat, readOnly: bool, before: Bytes, data: Bytes) {
    && R.Ready(st, y.pageSize)
    && var out := S.ReadResult(R.Step(st, y.pageSize, R.Reopen(readOnly)), off, y.pageSize);
    && (|out| == y.pageSize <==> !readOnly || S.Backed(st, off, y.pageSize))
    && (|out| == y.pageSize ==> out == data)
    && (data != before ==> |out| == y.pageSize)
  }

  lemma ReadOfFiles(c: Config, y: Layout, first: Pages, st: S.Store, p: Page, data: Bytes, readOnly: bool)
    requires HasRoom(c, y, st) && Ours(c, y, p) && Stored(y, first, st, p, data) && p in first
    ensures y.start <= p && ReadsBack(y, st, p - y.start, readOnly, first[p], data)
  {
    PlaceInRange(c, y, st, p);
    R.ReadOfPage(R.Step(st, y.pageSize, R.Reopen(readOnly)), y.pageSize, Off(y, p), data);
  }

  /** The read call of a fill is made where the page lies in the region, returns in full, and returns
      the store copy that the protocol's load step takes. */
  lemma LoadIsRead(c: Config, y: Layout, ss: seq<State>, ls: seq<Label>, sts: seq<S.Store>, k: nat, t: nat, p: Page)
    requires JointRun(c, y, ss, ls, sts) && k < |ls| && ls[k] == Fill(FillLoad, t)
    requires ValidFill(ss[k], t) && p == PageOf(ss[k], ss[k].fills[t].d) && Ours(c, y, p)
    ensures y.start <= p && sts[k].fileSize > 0 && t in ss[k + 1].fills
    ensures Call(c, y, ss[k], ls[k]) == Some(R.ReadPage(p - y.start))
    ensures ss[k + 1].fills[t].phase == FCopy(S.ReadResult(sts[k], p - y.start, y.pageSize))
  {
    RunCoupled(c, y, ss, ls, sts, k);
    StepAt(c, ss, ls, k);
    PlaceInRange(c, y, sts[k], p);
    R.ReadOfPage(sts[k], y.pageSize, Off(y, p), ss[k].store[p]);
  }

  /** The write call of an eviction is made there too, with what the page holds. */
  lemma EvictionIsWrite(c: Config, y: Layout, ss: seq<State>, ls: seq<Label>, sts: seq<S.Store>, k: nat, t: nat,
                        p: Page)
    requires JointRun(c, y, ss, ls, sts) && k < |ls| && ls[k] == Evict(EvictWrite, t)
    requires ValidEvict(ss[k], t) && p == PageOf(ss[k], ss[k].evicts[t].d) && Ours(c, y, p)
    ensures y.start <= p && p in ss[k].mem
    ensures Call(c, y, ss[k], ls[k]) == Some(R.WritePage(p - y.start, ss[k].mem[p].data))
  {
    RunCoupled(c, y, ss, ls, sts, k);
    RunParts(c, ss, ls, k);
    PlaceInRange(c, y, sts[k], p);
  }

  lemma StoreReadsBack(c: Config, y: Layout, ss: seq<State>, ls: seq<Label>, sts: seq<S.Store>, i: nat, p: Page,
                       readOnly: bool)
    requires JointRun(c, y, ss, ls, sts) && i < |ss| && Ours(c, y, p) && p in ss[i].store
    ensures y.start <= p && p in ss[0].store
    ensures ReadsBack(y, sts[i], p - y.start, readOnly, ss[0].store[p], ss[i].store[p])
  {
    RunCoupled(c, y, ss, ls, sts, i);
    ReadOfFiles(c, y, ss[0].store, sts[i], p, ss[i].store[p], readOnly);
  }

  /** When the unmapping loop of the region ends, a reopened store reads back, at the offset the page
      has in the region, what the application wrote last. */
  lemma UnmapReachesFiles(c: Config, y: Layout, ss: seq<State>, ls: seq<Label>, sts: seq<S.Store>, i: nat, p: Page,
                          readOnly: bool)
    requires JointRun(c, y, ss, ls, sts) && i < |ss| && CanUnmapEnd(ss[i]) && ss[i].unmap.r == y.region && Ours(c, y, p)
    ensures y.start <= p && p in ss[0].store && p in Flat(c, ss[0].store, ls[..i])
    ensures ReadsBack(y, sts[i], p - y.start, readOnly, ss[0].store[p], Flat(c, ss[0].store, ls[..i])[p])
  {
    UnmapDurability(c, ss, ls, i, p);
    StoreReadsBack(c, y, ss, ls, sts, i, p, readOnly);
  }

  /** The same when the last unmap has drained the buffer, if it did not begin at risk. */
  lemma DrainReachesFiles(c: Config, y: Layout, ss: seq<State>, ls: seq<Label>, sts: seq<S.Store>, j: nat, i: nat,
                          p: Page, readOnly: bool)
    requires JointRun(c, y, ss, ls, sts) && Ours(c, y, p)
    requires IsDrain(c, ss, ls, j, i) && !AtRisk(c, ss[j]) && Drained(ss[i])
    ensures y.start <= p && p in ss[0].store && p in Flat(c, ss[0].store, ls[..i])
    ensures ReadsBack(y, sts[i], p - y.start, readOnly, ss[0].store[p], Flat(c, ss[0].store, ls[..i])[p])
  {
    SafeDrainIsDurable(c, ss, ls, j, i);
    Transparency(c, ss, ls, i, p);
    StoreReadsBack(c, y, ss, ls, sts, i, p, readOnly);
  }

  /** The same when a flush returns: for the pages dirty in the busy deque when it took the lock,
      and for every page if the evict manager held no dirty page then. */
  lemma FlushReachesFiles(c: Config, y: Layout, ss: seq<State>, ls: seq<Label>, sts: seq<S.Store>, j: nat, i: nat,
                          p: Page, readOnly: bool)
    requires JointRun(c, y, ss, ls, sts) && IsFlush(c, ss, ls, j, i) && Ours(c, y, p)
    requires HandClean(ss[j]) || exists d :: d in DirtyBusy(ss[j]) && d < |ss[j].b.desc| && ss[j].b.desc[d].page == p
    ensures y.start <= p && p in ss[0].store && p in Flat(c, ss[0].store, ls[..i])
    ensures ReadsBack(y, sts[i], p - y.start, readOnly, ss[0].store[p], Flat(c, ss[0].store, ls[..i])[p])
  {
    FlushExact(c, ss, ls, j, i);
    Transparency(c, ss, ls, i, p);
    StoreReadsBack(c, y, ss, ls, sts, i, p, readOnly);
  }
}
