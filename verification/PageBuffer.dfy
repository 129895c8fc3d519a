/** The page buffer: descriptors, the free list, the busy deque, the present-page
    index and the active sets of the regions, with the operations that run under
    the buffer lock.  The operations are functions on a value of type `Buf`; the
    class in BufferClass.dfy implements them in place. */
module PageBuffer {
  type Page = int
  type Region = int

  const NULL_PAGE: Page := 0
  const MAX_EVICTED: nat := 32

  datatype DState = FREE | FILLING | PRESENT | UPDATING | LEAVING

  datatype Desc = Desc(page: Page, region: Region, state: DState,
                       dirty: bool, deferred: bool, dataPresent: bool)

  /** `busy[0]` is the newest page and the last element the oldest.  `failed` records
      an attempted state transition that the guards of the descriptor reject. */
  datatype Buf = Buf(desc: seq<Desc>, free: seq<nat>, busy: seq<nat>,
                     present: map<Page, nat>, active: set<(Region, nat)>, failed: bool)

  /** The five guarded transitions. */
  predicate Legal(from: DState, to: DState) {
    match to
    case FREE => from == LEAVING
    case FILLING => from == FREE
    case PRESENT => from == FILLING || from == UPDATING
    case UPDATING => from == PRESENT
    case LEAVING => from == PRESENT
  }

  function SetState(b: Buf, d: nat, to: DState): Buf
    requires d < |b.desc|
  {
    if Legal(b.desc[d].state, to)
    then b.(desc := b.desc[d := b.desc[d].(state := to)])
    else b.(failed := true)
  }

  function MarkPresent(b: Buf, d: nat): Buf
    requires d < |b.desc|
  {
    SetState(b, d, PRESENT)
  }

  /** Erase the page from both indexes, free the descriptor and, unless it is
      deferred, put it back on the free list. */
  function MarkFree(b: Buf, d: nat): Buf
    requires d < |b.desc|
  {
    var pd := b.desc[d];
    var erased := b.(active := b.active - {(pd.region, d)}, present := b.present - {pd.page});
    var freed := SetState(erased, d, FREE);
    var released := if pd.deferred then freed else freed.(free := freed.free + [d]);
    released.(desc := released.desc[d := released.desc[d].(page := NULL_PAGE)])
  }

  /** Take the last free descriptor for a page and enter it in the busy deque. */
  function TakeDescriptor(b: Buf, p: Page, r: Region): (b': Buf)
    requires b.free != []
    requires b.free[|b.free| - 1] < |b.desc|
    ensures |b'.desc| == |b.desc|
  {
    var d := b.free[|b.free| - 1];
    var named := b.(free := b.free[..|b.free| - 1],
                    desc := b.desc[d := b.desc[d].(page := p, region := r, dirty := false, deferred := false)]);
    var filling := SetState(named, d, FILLING);
    filling.(busy := [d] + filling.busy)
  }

  /** A fault on a page that is not in the buffer: the new descriptor enters both
      indexes. */
  function NewPage(b: Buf, p: Page, r: Region, isWrite: bool): Buf
    requires b.free != []
    requires b.free[|b.free| - 1] < |b.desc|
  {
    var d := b.free[|b.free| - 1];
    var taken := TakeDescriptor(b, p, r);
    taken.(active := taken.active + {(r, d)}, present := taken.present[p := d],
           desc := taken.desc[d := taken.desc[d].(dataPresent := false, dirty := isWrite)])
  }

  /** A write to a clean page that is in the buffer. */
  function UpgradePage(b: Buf, d: nat): Buf
    requires d < |b.desc|
  {
    SetState(b.(desc := b.desc[d := b.desc[d].(dirty := true)]), d, UPDATING)
  }

  ghost predicate NoDup(q: seq<nat>) {
    forall i, j :: 0 <= i < j < |q| ==> q[i] != q[j]
  }

  // ----- eviction -----

  predicate Evictable(desc: seq<Desc>, d: nat) {
    d < |desc| && !desc[d].deferred && desc[d].state == PRESENT
  }

  datatype Split = Split(kept: seq<nat>, pending: seq<nat>, evicted: seq<nat>)

  /** Scan from the oldest end until `quota` pages have been chosen. */
  function ScanOldest(desc: seq<Desc>, busy: seq<nat>, quota: nat): Split
    decreases |busy|
  {
    if busy == [] || quota == 0 then Split(busy, [], [])
    else
      var d := busy[|busy| - 1];
      if Evictable(desc, d) then
        var rest := ScanOldest(desc, busy[..|busy| - 1], quota - 1);
        rest.(evicted := [d] + rest.evicted)
      else
        var rest := ScanOldest(desc, busy[..|busy| - 1], quota);
        rest.(pending := [d] + rest.pending)
  }

  function Depart(desc: seq<Desc>, gone: seq<nat>): (r: seq<Desc>)
    ensures |r| == |desc|
  {
    seq(|desc|, i requires 0 <= i < |desc| =>
      if i in gone then desc[i].(state := LEAVING) else desc[i])
  }

  function EvictOldestPages(b: Buf): Buf {
    var s := ScanOldest(b.desc, b.busy, MAX_EVICTED);
    b.(desc := Depart(b.desc, s.evicted), busy := s.kept + s.pending)
  }

  /** The oldest page is deferred and already flushed: only its descriptor is released. */
  function ReleaseOldest(b: Buf): Buf
    requires b.busy != []
  {
    b.(busy := b.busy[..|b.busy| - 1], free := b.free + [b.busy[|b.busy| - 1]])
  }

  function EvictOldest(b: Buf): Buf
    requires b.busy != [] && b.busy[|b.busy| - 1] < |b.desc|
  {
    SetState(b.(busy := b.busy[..|b.busy| - 1]), b.busy[|b.busy| - 1], LEAVING)
  }

  /** Take a descriptor out of its region's active set; it is deferred unless it is
      already leaving. */
  function PickActive(b: Buf, r: Region, d: nat): Buf
    requires d < |b.desc|
  {
    var pd := b.desc[d];
    b.(active := b.active - {(r, d)},
       desc := b.desc[d := pd.(deferred := pd.state != LEAVING)])
  }
}
