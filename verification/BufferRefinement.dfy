/** The buffer object takes exactly the steps of the protocol: what a method of the
    object does to its abstract value is what the step does to the buffer, and a method
    reports that it waits exactly when no step is enabled. */
module BufferRefinement {
  import opened PageBuffer
  import opened BufferClass
  import opened UmapProtocol
  import opened ProtocolInvariant
  import opened ProtocolFrames
  import opened ProtocolSteps

  lemma IndexesInRange(c: Config, s: State)
    requires ListsI(c, s) && IndexI(c, s)
    ensures WellFormed(s.b)
  {
    forall i | 0 <= i < |s.b.free| ensures s.b.free[i] < |s.b.desc| { assert s.b.free[i] in s.b.free; }
    forall i | 0 <= i < |s.b.busy| ensures s.b.busy[i] < |s.b.desc| { assert s.b.busy[i] in s.b.busy; }
  }

  /** The descriptor freed last is the first to be used again. */
  lemma FreedIsReusedFirst(b: Buf, d: nat, p: Page, r: Region, w: bool)
    requires d < |b.desc| && b.desc[d].state == LEAVING && !b.desc[d].deferred
    ensures var freed := MarkFree(b, d);
            && freed.free != [] && freed.free[|freed.free| - 1] < |freed.desc|
            && var b' := NewPage(freed, p, r, w);
               p in b'.present && b'.present[p] == d && b'.busy == [d] + b.busy && b'.free == b.free
  {
    MarkFreeIs(b, d);
    NewPageIs(MarkFree(b, d), p, r, w);
  }

  /** A fault on a page in the buffer: an upgrade, a spurious fault, or a wait. */
  lemma ResidentFaultIsStep(c: Config, s: State, p: Page, w: bool, t: nat)
    requires WellFormed(s.b) && LockFree(s) && Accessible(c, s, p) && t !in s.fills && p in s.b.present
    ensures var (b', e) := Faulted(s.b, p, w, c.regionOf[p], c.high);
            match e
            case Blocked => b' == s.b && !CanFaultUpgrade(c, s, p, t) && !CanFaultSpurious(c, s, p, w)
            case Spurious => b' == s.b && CanFaultSpurious(c, s, p, w)
            case Work(d, kick) =>
              && CanFaultUpgrade(c, s, p, t) && b' == DoFaultUpgrade(c, s, p, t).b
              && DoFaultUpgrade(c, s, p, t).fills == s.fills[t := FillJob(d, FQueued)]
              && DoFaultUpgrade(c, s, p, t).thresholds == s.thresholds + if kick then 1 else 0
  {
  }

  /** A fault on a page that is not in the buffer: a new page, or a wait. */
  lemma MissingFaultIsStep(c: Config, s: State, p: Page, w: bool, t: nat)
    requires WellFormed(s.b) && LockFree(s) && Accessible(c, s, p) && t !in s.fills && p !in s.b.present
    ensures var (b', e) := Faulted(s.b, p, w, c.regionOf[p], c.high);
            match e
            case Blocked => b' == s.b && !CanFaultNew(c, s, p, t)
            case Spurious => false
            case Work(d, kick) =>
              && CanFaultNew(c, s, p, t) && b' == DoFaultNew(c, s, p, w, t).b
              && DoFaultNew(c, s, p, w, t).fills == s.fills[t := FillJob(d, FQueued)]
              && DoFaultNew(c, s, p, w, t).thresholds == s.thresholds + if kick then 1 else 0
  {
    if s.b.free != [] {
      NewPageBusy(s.b, p, c.regionOf[p], w);
    }
  }

  lemma NewPageBusy(b: Buf, p: Page, r: Region, w: bool)
    requires b.free != [] && b.free[|b.free| - 1] < |b.desc|
    ensures |NewPage(b, p, r, w).busy| == |b.busy| + 1
  {
  }

  /** `s1` comes from `s` by `k` release steps in a row. */
  predicate Releases(s: State, k: nat, s1: State)
    decreases k
  {
    if k == 0 then s1 == s
    else CanDrainRelease(s) && Releases(s.(b := ReleaseOldest(s.b)), k - 1, s1)
  }

  /** Taking the oldest page: a number of release steps and then one eviction step, or a
      wait with no step enabled, or an empty deque. */
  lemma {:induction false} OldestIsSteps(s: State) returns (k: nat, s1: State)
    requires InRange(s.b.busy, |s.b.desc|) && s.unmap.Drain?
    ensures Releases(s, k, s1)
    ensures var (b', o) := TakeOldest(s.b);
            match o
            case Nothing => b' == s1.b && s1.b.busy == []
            case AwaitState(d, st) => b' == s1.b && !CanDrainRelease(s1) && !CanDrainOldest(s1)
            case Evicted(d) =>
              CanDrainOldest(s1) && b' == DoDrainOldest(s1).b && DoDrainOldest(s1).unmap == Dispatch(s.unmap.r, d)
    decreases |s.b.busy|
  {
    if CanDrainRelease(s) {
      k, s1 := OldestIsSteps(s.(b := ReleaseOldest(s.b)));
      k := k + 1;
    } else {
      k, s1 := 0, s;
    }
  }

  /** Marking a filled page present is the last step of its fill: it never fails, it settles
      the page, and it changes nothing else in the buffer. */
  lemma PresentIsStep(c: Config, s: State, t: nat)
    requires FillsI(s) && CanFill(s, FillFinish, t)
    ensures var d, b' := s.fills[t].d, MarkPresent(s.b, s.fills[t].d);
            && b' == DoFill(s, FillFinish, t).b && b'.failed == s.b.failed
            && b' == s.b.(desc := s.b.desc[d := s.b.desc[d].(state := PRESENT)])
  {
    assert FillOk(s.b.desc[s.fills[t].d], s.fills[t].phase, s.mem, s.store);
  }

  /** A pass of the manager's loop is its resting step or its batch step, whichever is enabled. */
  lemma ManagerPassIsStep(c: Config, s: State)
    requires s.managing && s.hand == [] && LockFree(s)
    ensures |s.b.busy| <= c.low <==> CanManage(c, s, ManagerRest)
    ensures |s.b.busy| > c.low <==> CanManage(c, s, ManagerBatch)
    ensures |s.b.busy| > c.low ==>
              && DoManage(c, s, ManagerBatch).b == EvictOldestPages(s.b)
              && DoManage(c, s, ManagerBatch).hand == ScanOldest(s.b.desc, s.b.busy, MAX_EVICTED).evicted
  {
  }

  // ----- the items of a flush -----

  /** The listing holds exactly the dirty pages of the deque. */
  lemma {:induction false} DirtyPagesMembers(desc: seq<Desc>, busy: seq<nat>)
    requires InRange(busy, |desc|)
    ensures forall d :: d in DirtyPages(desc, busy) <==> d in busy && desc[d].dirty
  {
    if busy != [] {
      var front := busy[..|busy| - 1];
      DirtyPagesMembers(desc, front);
      assert busy == front + [busy[|busy| - 1]];
    }
  }

  lemma {:induction false} DirtyPagesFirst(desc: seq<Desc>, busy: seq<nat>)
    requires InRange(busy, |desc|) && busy != []
    ensures InRange(busy[1..], |desc|)
    ensures DirtyPages(desc, busy) == (if desc[busy[0]].dirty then [busy[0]] else []) + DirtyPages(desc, busy[1..])
    decreases |busy|
  {
    var front, d := busy[..|busy| - 1], busy[|busy| - 1];
    assert busy == front + [d];
    DirtyPagesSnoc(desc, front, d);
    if front != [] {
      DirtyPagesFirst(desc, front);
      assert busy[1..] == front[1..] + [d];
      DirtyPagesSnoc(desc, front[1..], d);
    }
  }

  lemma DirtyPagesSnoc(desc: seq<Desc>, q: seq<nat>, d: nat)
    requires InRange(q, |desc|) && d < |desc|
    ensures InRange(q + [d], |desc|)
    ensures DirtyPages(desc, q + [d]) == DirtyPages(desc, q) + if desc[d].dirty then [d] else []
  {
    assert (q + [d])[..|q|] == q;
  }

  /** A scan from where it stands to the end of the deque, with a ticket for each position. */
  ghost predicate CanScan(s: State, ts: seq<nat>) {
    && s.flush.Flushing? && s.flush.next + |ts| == |s.b.busy| && InRange(s.b.busy, |s.b.desc|)
    && NoDup(ts) && forall k :: 0 <= k < |ts| ==> ts[k] !in s.evicts
  }

  ghost function ScanTo(s: State, ts: seq<nat>): State
    requires CanScan(s, ts)
    decreases |ts|
  {
    if ts == [] then s
    else
      ScanStepOk(s, ts);
      ScanTo(DoFlushScan(s, ts[0]), ts[1..])
  }

  lemma ScanStepOk(s: State, ts: seq<nat>)
    requires CanScan(s, ts) && ts != []
    ensures CanFlushScan(s, ts[0]) && CanScan(DoFlushScan(s, ts[0]), ts[1..])
  {
    assert ts[0] !in s.evicts;
    FlushScanIs(s, ts[0]);
    var s1, rest := DoFlushScan(s, ts[0]), ts[1..];
    assert forall t :: t in s1.evicts ==> t in s.evicts || t == ts[0];
    forall k | 0 <= k < |rest| ensures rest[k] !in s1.evicts {
      assert rest[k] == ts[k + 1];
    }
    assert NoDup(rest);
  }

  /** The tickets that go to dirty pages, in order. */
  function Tickets(desc: seq<Desc>, q: seq<nat>, ts: seq<nat>): seq<nat>
    requires |q| == |ts| && InRange(q, |desc|)
  {
    if q == [] then [] else (if desc[q[0]].dirty then [ts[0]] else []) + Tickets(desc, q[1..], ts[1..])
  }

  /** The table has gained one FLUSH item per page, under the given tickets and in this order. */
  ghost predicate Gained(was: map<nat, EvictJob>, now: map<nat, EvictJob>, tickets: seq<nat>, pages: seq<nat>) {
    && |tickets| == |pages|
    && (forall t :: t in now <==> t in was || t in tickets)
    && (forall t :: t in was ==> t in now && now[t] == was[t])
    && (forall k :: 0 <= k < |pages| ==> tickets[k] in now && now[tickets[k]] == EvictJob(pages[k], FLUSH, EQueued))
  }

  lemma GainedMore(was: map<nat, EvictJob>, now: map<nat, EvictJob>, t: nat, d: nat, tickets: seq<nat>, pages: seq<nat>)
    requires t !in was && Gained(was[t := EvictJob(d, FLUSH, EQueued)], now, tickets, pages)
    ensures Gained(was, now, [t] + tickets, [d] + pages)
  {
    var was' := was[t := EvictJob(d, FLUSH, EQueued)];
    assert t in was' && forall v :: v in was ==> v in was' && was'[v] == was[v];
  }

  /** The scan of the protocol creates one FLUSH item for each page that the method lists, in
      the order in which it lists them, and no other. */
  lemma {:induction false} FlushItemsAreDirtyPages(s: State, ts: seq<nat>)
    requires CanScan(s, ts)
    ensures var q := s.b.busy[s.flush.next..];
            && InRange(q, |s.b.desc|)
            && Gained(s.evicts, ScanTo(s, ts).evicts, Tickets(s.b.desc, q, ts), DirtyPages(s.b.desc, q))
    decreases |ts|
  {
    var q := s.b.busy[s.flush.next..];
    if ts == [] {
      assert q == [];
    } else {
      var s1 := ScanOnce(s, ts, q);
      FlushItemsAreDirtyPages(s1, ts[1..]);
      DirtyPagesFirst(s.b.desc, q);
      ItemsSoFar(s, s1, ScanTo(s1, ts[1..]).evicts, q, ts);
    }
  }

  lemma ScanOnce(s: State, ts: seq<nat>, q: seq<nat>) returns (s1: State)
    requires CanScan(s, ts) && ts != [] && q == s.b.busy[s.flush.next..]
    ensures CanScan(s1, ts[1..]) && ScanTo(s, ts) == ScanTo(s1, ts[1..]) && ts[0] !in s.evicts
    ensures s1.b == s.b && s1.b.busy[s1.flush.next..] == q[1..] && |q| == |ts| && InRange(q, |s.b.desc|)
    ensures s1.evicts == if s.b.desc[q[0]].dirty then s.evicts[ts[0] := EvictJob(q[0], FLUSH, EQueued)] else s.evicts
  {
    ScanStepOk(s, ts);
    FlushScanIs(s, ts[0]);
    s1 := DoFlushScan(s, ts[0]);
    assert q[0] == s.b.busy[s.flush.next];
  }

  lemma ItemsSoFar(s: State, s1: State, now: map<nat, EvictJob>, q: seq<nat>, ts: seq<nat>)
    requires |q| == |ts| && q != [] && InRange(q, |s.b.desc|) && InRange(q[1..], |s.b.desc|) && ts[0] !in s.evicts
    requires DirtyPages(s.b.desc, q) == (if s.b.desc[q[0]].dirty then [q[0]] else []) + DirtyPages(s.b.desc, q[1..])
    requires s1.evicts == if s.b.desc[q[0]].dirty then s.evicts[ts[0] := EvictJob(q[0], FLUSH, EQueued)] else s.evicts
    requires Gained(s1.evicts, now, Tickets(s.b.desc, q[1..], ts[1..]), DirtyPages(s.b.desc, q[1..]))
    ensures Gained(s.evicts, now, Tickets(s.b.desc, q, ts), DirtyPages(s.b.desc, q))
  {
    if s.b.desc[q[0]].dirty {
      GainedMore(s.evicts, now, ts[0], q[0], Tickets(s.b.desc, q[1..], ts[1..]), DirtyPages(s.b.desc, q[1..]));
    }
  }
}
