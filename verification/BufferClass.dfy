/** The buffer as an object.  Each method is one section of code that runs under the
    buffer lock; where the code would wait on a condition the method returns what it
    waits for.  The abstract value `View()` moves exactly as the functions of
    PageBuffer say, and those are the functions the protocol steps are built from. */
module BufferClass {
  import opened PageBuffer

  datatype Event = Blocked | Spurious | Work(d: nat, kick: bool)
  datatype Oldest = Nothing | AwaitState(d: nat, state: DState) | Evicted(d: nat)

  predicate InRange(q: seq<nat>, n: nat) { forall i :: 0 <= i < |q| ==> q[i] < n }

  /** What taking the oldest page comes to: released descriptors are skipped over. */
  ghost function TakeOldest(b: Buf): (Buf, Oldest)
    requires InRange(b.busy, |b.desc|)
    decreases |b.busy|
  {
    if b.busy == [] then (b, Nothing)
    else
      var d := b.busy[|b.busy| - 1];
      if b.desc[d].deferred then
        if b.desc[d].state == FREE then TakeOldest(ReleaseOldest(b)) else (b, AwaitState(d, FREE))
      else if b.desc[d].state == PRESENT then (EvictOldest(b), Evicted(d))
      else (b, AwaitState(d, PRESENT))
  }

  predicate WellFormed(b: Buf) {
    && InRange(b.free, |b.desc|)
    && InRange(b.busy, |b.desc|)
    && forall p :: p in b.present ==> b.present[p] < |b.desc|
  }

  /** What a fault comes to. */
  ghost function Faulted(b: Buf, p: Page, isWrite: bool, r: Region, high: nat): (Buf, Event)
    requires WellFormed(b)
  {
    if p in b.present then
      var d := b.present[p];
      if b.desc[d].state != PRESENT then (b, Blocked)
      else if isWrite && !b.desc[d].dirty then (UpgradePage(b, d), Work(d, |b.busy| == high))
      else (b, Spurious)
    else if b.free == [] then (b, Blocked)
    else (NewPage(b, p, r, isWrite), Work(b.free[|b.free| - 1], |b.busy| + 1 == high))
  }

  /** The dirty pages of a deque, newest first. */
  ghost function DirtyPages(desc: seq<Desc>, busy: seq<nat>): seq<nat>
    requires InRange(busy, |desc|)
  {
    if busy == [] then []
    else
      var d := busy[|busy| - 1];
      DirtyPages(desc, busy[..|busy| - 1]) + if desc[d].dirty then [d] else []
  }

  /** What has been set aside so far followed by the rest of a scan. */
  ghost function Resume(rest: Split, pending: seq<nat>, evicted: seq<nat>): Split {
    Split(rest.kept, pending + rest.pending, evicted + rest.evicted)
  }

  /** The scan has set aside `pending` and `evicted` and has `busy` still before it. */
  ghost predicate Scanning(desc: seq<Desc>, all: seq<nat>, busy: seq<nat>, pending: seq<nat>, evicted: seq<nat>) {
    && |evicted| <= MAX_EVICTED
    && NoDup(busy)
    && (forall d :: d in evicted ==> d !in busy)
    && ScanOldest(desc, all, MAX_EVICTED) == Resume(ScanOldest(desc, busy, MAX_EVICTED - |evicted|), pending, evicted)
  }

  lemma ScanStep(desc: seq<Desc>, all: seq<nat>, busy: seq<nat>, pending: seq<nat>, evicted: seq<nat>)
    requires Scanning(desc, all, busy, pending, evicted) && busy != [] && |evicted| < MAX_EVICTED
    ensures var d, older := busy[|busy| - 1], busy[..|busy| - 1];
            if Evictable(desc, d) then Scanning(desc, all, older, pending, evicted + [d])
            else Scanning(desc, all, older, pending + [d], evicted)
  {
    var d, older := busy[|busy| - 1], busy[..|busy| - 1];
    var quota := MAX_EVICTED - |evicted|;
    var rest := ScanOldest(desc, older, if Evictable(desc, d) then quota - 1 else quota);
    assert evicted + ([d] + rest.evicted) == (evicted + [d]) + rest.evicted;
    assert pending + ([d] + rest.pending) == (pending + [d]) + rest.pending;
    assert busy == older + [d] && d !in older;
    if Evictable(desc, d) {
      assert MAX_EVICTED - |evicted + [d]| == quota - 1;
    }
  }

  lemma DepartMore(desc: seq<Desc>, gone: seq<nat>, d: nat)
    requires d < |desc| && d !in gone
    ensures Depart(desc, gone)[d] == desc[d]
    ensures Depart(desc, gone + [d]) == Depart(desc, gone)[d := desc[d].(state := LEAVING)]
  {
  }

  class Buffer {
    var pds: array<Desc>
    var free: seq<nat>
    var busy: seq<nat>
    var present: map<Page, nat>
    var active: set<(Region, nat)>
    var failed: bool
    const low: nat
    const high: nat

    ghost function View(): Buf
      reads this, pds
    {
      Buf(pds[..], free, busy, present, active, failed)
    }

    /** Every index held by the lists is a descriptor of the array. */
    ghost predicate Valid()
      reads this, pds
    {
      WellFormed(View())
    }

    constructor (size: nat, low: nat, high: nat)
      ensures Valid() && fresh(pds) && pds.Length == size
      ensures this.low == low && this.high == high
      ensures forall d :: 0 <= d < size ==> pds[d].state == FREE && !pds[d].deferred
      ensures View() == Buf(pds[..], seq(size, i => i), [], map[], {}, false)
    {
      pds := new Desc[size](i => Desc(NULL_PAGE, 0, FREE, false, false, false));
      free := seq(size, i => i);
      busy, present, active, failed := [], map[], {}, false;
      this.low, this.high := low, high;
    }

    method SetDescriptorState(d: nat, to: DState)
      requires Valid() && d < pds.Length
      modifies this`failed, pds
      ensures Valid() && View() == SetState(old(View()), d, to)
    {
      if Legal(pds[d].state, to) {
        pds[d] := pds[d].(state := to);
      } else {
        failed := true;
      }
    }

    method MarkPageAsPresent(d: nat)
      requires Valid() && d < pds.Length
      modifies this`failed, pds
      ensures Valid() && View() == MarkPresent(old(View()), d)
    {
      SetDescriptorState(d, PRESENT);
    }

    method MarkPageAsFree(d: nat)
      requires Valid() && d < pds.Length
      modifies this`free, this`present, this`active, this`failed, pds
      ensures Valid() && View() == MarkFree(old(View()), d)
    {
      active := active - {(pds[d].region, d)};
      present := present - {pds[d].page};
      SetDescriptorState(d, FREE);
      if !pds[d].deferred {
        free := free + [d];
      }
      pds[d] := pds[d].(page := NULL_PAGE);
    }

    method GetPageDescriptor(p: Page, r: Region) returns (d: nat)
      requires Valid() && free != []
      modifies this`free, this`busy, this`failed, pds
      ensures Valid() && d == old(free[|free| - 1]) && d < pds.Length
      ensures View() == TakeDescriptor(old(View()), p, r)
    {
      d := free[|free| - 1];
      free := free[..|free| - 1];
      pds[d] := pds[d].(page := p, region := r, dirty := false, deferred := false);
      SetDescriptorState(d, FILLING);
      busy := [d] + busy;
    }

    /** One fault.  The event handler waits while the page is on its way in or out, and
        for a free descriptor; otherwise it either sends work or finds the fault spurious. */
    method ProcessPageEvent(p: Page, isWrite: bool, r: Region) returns (e: Event)
      requires Valid()
      modifies this`free, this`busy, this`present, this`active, this`failed, pds
      ensures Valid()
      ensures (View(), e) == Faulted(old(View()), p, isWrite, r, high)
    {
      var d: nat;
      if p in present {
        d := present[p];
        if pds[d].state != PRESENT {
          return Blocked;
        }
        if !isWrite || pds[d].dirty {
          return Spurious;
        }
        pds[d] := pds[d].(dirty := true);
        SetDescriptorState(d, UPDATING);
      } else {
        if free == [] {
          return Blocked;
        }
        d := GetPageDescriptor(p, r);
        active := active + {(r, d)};
        present := present[p := d];
        pds[d] := pds[d].(dataPresent := false, dirty := isWrite);
      }
      return Work(d, |busy| == high);
    }

    /** Take the oldest page, releasing deferred descriptors on the way. */
    method EvictOldestPage() returns (o: Oldest)
      requires Valid()
      modifies this`free, this`busy, this`failed, pds
      ensures Valid()
      ensures (View(), o) == TakeOldest(old(View()))
    {
      while busy != []
        invariant Valid()
        invariant TakeOldest(View()) == TakeOldest(old(View()))
        decreases |busy|
      {
        var d := busy[|busy| - 1];
        if pds[d].deferred {
          if pds[d].state != FREE {
            return AwaitState(d, FREE);
          }
          busy := busy[..|busy| - 1];
          free := free + [d];
        } else {
          if pds[d].state != PRESENT {
            return AwaitState(d, PRESENT);
          }
          busy := busy[..|busy| - 1];
          SetDescriptorState(d, LEAVING);
          return Evicted(d);
        }
      }
      return Nothing;
    }

    /** Pop the oldest page; if it may be evicted it starts to leave, otherwise it is set
        aside. */
    method ScanOne(evicted: seq<nat>, pending: seq<nat>, ghost desc: seq<Desc>)
      returns (evicted': seq<nat>, pending': seq<nat>)
      requires Valid() && busy != [] && InRange(pending, pds.Length)
      requires |desc| == pds.Length && pds[..] == Depart(desc, evicted) && busy[|busy| - 1] !in evicted
      modifies this`busy, pds
      ensures Valid() && busy == old(busy[..|busy| - 1])
      ensures pds[..] == Depart(desc, evicted') && InRange(pending', pds.Length)
      ensures var d := old(busy[|busy| - 1]);
              if Evictable(desc, d) then evicted' == evicted + [d] && pending' == pending
              else evicted' == evicted && pending' == pending + [d]
    {
      var d := busy[|busy| - 1];
      DepartMore(desc, evicted, d);
      assert pds[d] == desc[d];
      if !pds[d].deferred && pds[d].state == PRESENT {
        pds[d] := pds[d].(state := LEAVING);
        evicted', pending' := evicted + [d], pending;
      } else {
        evicted', pending' := evicted, pending + [d];
      }
      busy := busy[..|busy| - 1];
    }

    /** The first loop of the batch eviction: scan from the oldest end. */
    method ScanBusy() returns (evicted: seq<nat>, pending: seq<nat>)
      requires Valid()
      requires NoDup(busy)
      modifies this`busy, pds
      ensures Valid() && InRange(pending, pds.Length)
      ensures pds[..] == Depart(old(pds[..]), evicted)
      ensures Split(busy, pending, evicted) == ScanOldest(old(pds[..]), old(busy), MAX_EVICTED)
    {
      evicted, pending := [], [];
      ghost var desc, all := pds[..], busy;
      while busy != [] && |evicted| < MAX_EVICTED
        invariant pds.Length == |desc| && Valid() && InRange(pending, pds.Length)
        invariant pds[..] == Depart(desc, evicted)
        invariant Scanning(desc, all, busy, pending, evicted)
        decreases |busy|
      {
        ScanStep(desc, all, busy, pending, evicted);
        assert busy[|busy| - 1] in busy;
        evicted, pending := ScanOne(evicted, pending, desc);
      }
    }

    /** Batch eviction: the scan, then a second loop that puts the skipped pages back. */
    method EvictOldestBatch() returns (evicted: seq<nat>)
      requires Valid()
      requires NoDup(busy)
      modifies this`busy, pds
      ensures Valid()
      ensures View() == EvictOldestPages(old(View()))
      ensures evicted == ScanOldest(old(pds[..]), old(busy), MAX_EVICTED).evicted
    {
      var pending: seq<nat>;
      evicted, pending := ScanBusy();
      Requeue(pending);
    }

    /** One pass of the evict manager's loop: stop at the low-water mark or take a batch. */
    method ManagerPass() returns (done: bool, evicted: seq<nat>)
      requires Valid() && NoDup(busy)
      modifies this`busy, pds
      ensures Valid() && (done <==> old(|busy|) <= low)
      ensures done ==> View() == old(View()) && evicted == []
      ensures !done ==> View() == EvictOldestPages(old(View()))
      ensures !done ==> evicted == ScanOldest(old(pds[..]), old(busy), MAX_EVICTED).evicted
    {
      done := LowThresholdReached();
      evicted := [];
      if !done {
        evicted := EvictOldestBatch();
      }
    }

    method Requeue(pending: seq<nat>)
      requires Valid() && InRange(pending, pds.Length)
      modifies this`busy
      ensures Valid() && busy == old(busy) + pending
    {
      var k := 0;
      while k < |pending|
        invariant k <= |pending|
        invariant busy == old(busy) + pending[..k] && Valid()
      {
        assert pending[..k + 1] == pending[..k] + [pending[k]];
        busy := busy + [pending[k]];
        k := k + 1;
      }
      assert pending[..k] == pending;
    }

    /** What a flush schedules: the dirty pages of the deque, newest first. */
    method DirtyBusyPages() returns (items: seq<nat>)
      requires Valid()
      ensures items == DirtyPages(pds[..], busy)
    {
      items := [];
      var i := 0;
      while i < |busy|
        invariant i <= |busy|
        invariant items == DirtyPages(pds[..], busy[..i])
      {
        assert busy[..i + 1][..i] == busy[..i];
        if pds[busy[i]].dirty {
          items := items + [busy[i]];
        }
        i := i + 1;
      }
      assert busy[..i] == busy;
    }

    method LowThresholdReached() returns (reached: bool)
      ensures reached <==> |View().busy| <= low
    {
      reached := |busy| <= low;
    }
  }
}
