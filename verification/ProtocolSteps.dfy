/** Every step of the protocol keeps the invariant. */
module ProtocolSteps {
  import opened PageBuffer
  import opened UmapProtocol
  import opened ProtocolInvariant
  import opened ProtocolFrames
  import opened BatchEviction

  // ----- batch eviction -----

  lemma NoDupCount(q: seq<nat>, x: nat)
    requires NoDup(q)
    ensures multiset(q)[x] <= 1
  {
    if q != [] {
      NoDupCount(q[1..], x);
      assert q == [q[0]] + q[1..];
      assert q[0] !in q[1..];
    }
  }

  lemma CountNoDup(q: seq<nat>)
    requires forall x :: multiset(q)[x] <= 1
    ensures NoDup(q)
  {
    forall i, j | 0 <= i < j < |q| ensures q[i] != q[j] {
      assert q == q[..i] + [q[i]] + q[i + 1..j] + [q[j]] + q[j + 1..];
      assert multiset(q)[q[i]] >= multiset([q[i]])[q[i]] + multiset([q[j]])[q[i]];
    }
  }

  /** The scan splits the deque: nothing is lost and nothing is invented. */
  lemma ScanSplits(desc: seq<Desc>, busy: seq<nat>, quota: nat, busy': seq<nat>, gone: seq<nat>)
    requires NoDup(busy)
    requires busy' == ScanOldest(desc, busy, quota).kept + ScanOldest(desc, busy, quota).pending
    requires gone == ScanOldest(desc, busy, quota).evicted
    ensures NoDup(busy') && NoDup(gone)
    ensures forall d :: d in busy' ==> d in busy && d !in gone
    ensures forall d :: d in busy ==> d in busy' || d in gone
    ensures forall d :: d in gone ==> d in busy && Evictable(desc, d)
  {
    BatchConserves(desc, busy, quota);
    forall x: nat ensures multiset(busy')[x] + multiset(gone)[x] <= 1 {
      NoDupCount(busy, x);
    }
    CountNoDup(busy');
    CountNoDup(gone);
    forall d | d in busy' ensures d in busy && d !in gone {
      assert d in multiset(busy') && d in multiset(busy);
      assert multiset(gone)[d] == 0;
    }
    forall d | d in busy ensures d in busy' || d in gone {
      assert d in multiset(busy);
    }
    forall d | d in gone ensures d in busy {
      assert d in multiset(gone) && d in multiset(busy);
    }
  }

  lemma BatchLists(c: Config, s: State, busy': seq<nat>, gone: seq<nat>)
    requires ListsI(c, s) && NoDup(busy')
    requires forall d :: d in busy' ==> d in s.b.busy && d !in gone
    requires forall d :: d in s.b.busy ==> d in busy' || d in gone
    requires forall d :: d in gone ==> Evictable(s.b.desc, d)
    ensures Lists(Depart(s.b.desc, gone), s.b.free, busy')
  {
  }

  lemma BatchIndexes(c: Config, s: State, gone: seq<nat>)
    requires IndexI(c, s) && ActiveI(s) && FillsI(s) && CleanI(s)
    requires forall d :: d in gone ==> Evictable(s.b.desc, d)
    ensures var desc' := Depart(s.b.desc, gone);
            && Index(c.regionOf, desc', s.b.present) && Active(desc', s.b.active, s.unmap, s.open)
            && Fills(desc', s.fills, s.mem, s.store) && Clean(desc', s.mem, s.store)
  {
    FillFrame(s.b.desc, Depart(s.b.desc, gone), s.fills, s.mem, s.mem, s.store, s.store);
    BatchClean(s, gone);
    BatchActive(c, s, gone);
  }

  lemma BatchActive(c: Config, s: State, gone: seq<nat>)
    requires IndexI(c, s) && ActiveI(s) && forall d :: d in gone ==> Evictable(s.b.desc, d)
    ensures Index(c.regionOf, Depart(s.b.desc, gone), s.b.present)
    ensures Active(Depart(s.b.desc, gone), s.b.active, s.unmap, s.open)
  {
  }

  lemma BatchClean(s: State, gone: seq<nat>)
    requires CleanI(s) && forall d :: d in gone ==> Evictable(s.b.desc, d)
    ensures Clean(Depart(s.b.desc, gone), s.mem, s.store)
  {
  }

  lemma BatchEvicts(s: State, gone: seq<nat>)
    requires EvictsI(s) && CleanI(s) && s.hand == [] && LockFree(s) && NoDup(gone)
    requires forall d :: d in gone ==> Evictable(s.b.desc, d)
    ensures Evicts(Depart(s.b.desc, gone), s.evicts, gone, s.unmap, s.flush, s.mem, s.store)
  {
    var desc' := Depart(s.b.desc, gone);
    assert forall d: nat :: Held(gone, s.unmap, d) <==> d in gone || Held([], s.unmap, d);
    assert EvictItems(desc', s.evicts, s.unmap, s.flush, s.mem, s.store);
    assert Owned(desc', s.evicts, gone, s.unmap);
  }

  lemma BatchKeeps(c: Config, s: State)
    requires Inv(c, s) && CanBatch(c, s)
    ensures Inv(c, DoBatch(s))
  {
    var split := ScanOldest(s.b.desc, s.b.busy, MAX_EVICTED);
    var busy' := split.kept + split.pending;
    ScanSplits(s.b.desc, s.b.busy, MAX_EVICTED, busy', split.evicted);
    BatchLists(c, s, busy', split.evicted);
    BatchIndexes(c, s, split.evicted);
    BatchEvicts(s, split.evicted);
    BatchConserves(s.b.desc, s.b.busy, MAX_EVICTED);
    assert |s.b.busy| == |multiset(s.b.busy)|;
  }

  // ----- acting on one page leaves the others' work alone -----

  lemma FillsAside(c: Config, s: State, s': State, d: nat)
    requires IndexI(c, s) && FillsI(s) && s'.fills == s.fills
    requires d < |s.b.desc| && OnlyAt(s.b.desc, s'.b.desc, d) && s.b.desc[d].state != FREE
    requires !BeingFilled(s.b.desc[d]) && !BeingFilled(s'.b.desc[d])
    requires AgreeOff(s.mem, s'.mem, s.b.desc[d].page) && AgreeOff(s.store, s'.store, s.b.desc[d].page)
    ensures FillsI(s')
  {
    IndexAlone(c, s, d);
    FillFrame(s.b.desc, s'.b.desc, s.fills, s.mem, s'.mem, s.store, s'.store);
  }

  lemma EvictsAside(c: Config, s: State, s': State, d: nat)
    requires IndexI(c, s) && EvictsI(s) && s'.evicts == s.evicts && s'.store == s.store
    requires s'.hand == s.hand && s'.unmap == s.unmap && s'.flush == s.flush
    requires d < |s.b.desc| && OnlyAt(s.b.desc, s'.b.desc, d)
    requires BeingFilled(s.b.desc[d]) && s'.b.desc[d].state != LEAVING
    requires AgreeOff(s.mem, s'.mem, s.b.desc[d].page)
    ensures EvictsI(s')
  {
    IndexAlone(c, s, d);
    EvictFrame(s.b.desc, s'.b.desc, s.evicts, s.hand, s.unmap, s.flush, s.mem, s'.mem, s.store, d);
  }

  // ----- the application -----

  /** An unprotected accessible page has a dirty descriptor. */
  lemma UnprotectedIsDirty(c: Config, s: State, p: Page)
    requires IndexI(c, s) && MirrorI(c, s) && CleanI(s) && CanAppWrite(c, s, p)
    ensures p in s.b.present && s.b.present[p] < |s.b.desc| && s.b.desc[s.b.present[p]].dirty
  {
  }

  lemma AppWriteKeeps(c: Config, s: State, p: Page, v: Bytes)
    requires Inv(c, s) && CanAppWrite(c, s, p)
    ensures Inv(c, DoAppWrite(s, p, v))
  {
    UnprotectedIsDirty(c, s, p);
    var s' := DoAppWrite(s, p, v);
    FillFrame(s.b.desc, s.b.desc, s.fills, s.mem, s'.mem, s.store, s.store);
    AppWriteEvicts(c, s, p, v);
    AppWriteData(c, s, p, v);
  }

  lemma AppWriteEvicts(c: Config, s: State, p: Page, v: Bytes)
    requires EvictsI(s) && CanAppWrite(c, s, p)
    ensures EvictsI(DoAppWrite(s, p, v))
  {
  }

  lemma AppWriteData(c: Config, s: State, p: Page, v: Bytes)
    requires IndexI(c, s) && MirrorI(c, s) && CleanI(s) && CanAppWrite(c, s, p)
    ensures MirrorI(c, DoAppWrite(s, p, v)) && CleanI(DoAppWrite(s, p, v))
  {
    UnprotectedIsDirty(c, s, p);
  }

  /** No descriptor in use belongs to a region that is not open. */
  lemma ClosedIsUnused(c: Config, s: State, r: Region, d: nat)
    requires IndexI(c, s) && ActiveI(s) && s.unmap.NoUnmap? && r !in s.open
    requires d < |s.b.desc| && s.b.desc[d].state != FREE
    ensures !InRegion(c, r, s.b.desc[d].page)
  {
  }

  lemma MapRegionWork(c: Config, s: State, r: Region, k: map<Page, Bytes>)
    requires IndexI(c, s) && ActiveI(s) && FillsI(s) && EvictsI(s) && CanMapRegion(s, r, k)
    ensures FillsI(DoMapRegion(c, s, r, k)) && EvictsI(DoMapRegion(c, s, r, k))
  {
    var s' := DoMapRegion(c, s, r, k);
    forall d: nat | d < |s.b.desc| && s.b.desc[d].state != FREE
      ensures var p := s.b.desc[d].page;
              (p in s.mem <==> p in s'.mem) && (p in s.mem ==> s'.mem[p] == s.mem[p])
              && (p in s.store ==> p in s'.store && s'.store[p] == s.store[p])
    {
      ClosedIsUnused(c, s, r, d);
    }
    FillFrame(s.b.desc, s.b.desc, s.fills, s.mem, s'.mem, s.store, s'.store);
  }

  lemma MapRegionData(c: Config, s: State, r: Region, k: map<Page, Bytes>)
    requires IndexI(c, s) && ActiveI(s) && MirrorI(c, s) && CleanI(s) && CanMapRegion(s, r, k)
    ensures MirrorI(c, DoMapRegion(c, s, r, k)) && CleanI(DoMapRegion(c, s, r, k))
  {
    MapRegionClean(c, s, r, k);
    MapRegionMirror(c, s, r, k);
  }

  lemma MapRegionClean(c: Config, s: State, r: Region, k: map<Page, Bytes>)
    requires IndexI(c, s) && ActiveI(s) && CleanI(s) && CanMapRegion(s, r, k)
    ensures CleanI(DoMapRegion(c, s, r, k))
  {
    forall d: nat | d < |s.b.desc| && s.b.desc[d].state != FREE ensures !InRegion(c, r, s.b.desc[d].page) {
      ClosedIsUnused(c, s, r, d);
    }
  }

  lemma MapRegionMirror(c: Config, s: State, r: Region, k: map<Page, Bytes>)
    requires MirrorI(c, s) && CanMapRegion(s, r, k)
    ensures MirrorI(c, DoMapRegion(c, s, r, k))
  {
  }

  lemma MapRegionKeeps(c: Config, s: State, r: Region, k: map<Page, Bytes>)
    requires Inv(c, s) && CanMapRegion(s, r, k)
    ensures Inv(c, DoMapRegion(c, s, r, k))
  {
    MapRegionWork(c, s, r, k);
    MapRegionData(c, s, r, k);
  }

  // ----- the fault handler -----

  lemma FaultNewParts(c: Config, s: State, p: Page, w: bool, t: nat)
    requires ListsI(c, s) && IndexI(c, s) && ActiveI(s) && CanFaultNew(c, s, p, t)
    ensures var s' := DoFaultNew(c, s, p, w, t);
            ListsI(c, s') && IndexI(c, s') && ActiveI(s') && s'.b.failed == s.b.failed
  {
    var d, pd := s.b.free[|s.b.free| - 1], Desc(p, c.regionOf[p], FILLING, w, false, false);
    ListsNewPage(s.b.desc, s.b.free, s.b.busy, pd);
    NewPageIs(s.b, p, c.regionOf[p], w);
    FaultNewIndexes(c, s, p, d, pd);
  }

  lemma FaultNewIndexes(c: Config, s: State, p: Page, d: nat, pd: Desc)
    requires IndexI(c, s) && ActiveI(s) && Accessible(c, s, p) && p !in s.b.present
    requires d < |s.b.desc| && s.b.desc[d].state == FREE
    requires pd.page == p && pd.region == c.regionOf[p] && pd.state == FILLING && !pd.deferred
    ensures Index(c.regionOf, s.b.desc[d := pd], s.b.present[p := d])
    ensures Active(s.b.desc[d := pd], s.b.active + {(pd.region, d)}, s.unmap, s.open)
  {
  }

  lemma FaultNewWork(c: Config, s: State, p: Page, w: bool, t: nat)
    requires ListsI(c, s) && FillsI(s) && EvictsI(s) && MirrorI(c, s) && CanFaultNew(c, s, p, t)
    ensures FillsI(DoFaultNew(c, s, p, w, t)) && EvictsI(DoFaultNew(c, s, p, w, t))
  {
    var d, pd := s.b.free[|s.b.free| - 1], Desc(p, c.regionOf[p], FILLING, w, false, false);
    assert d in s.b.free;
    NewPageIs(s.b, p, c.regionOf[p], w);
    FaultNewFills(c, s, p, d, pd, t);
    FaultNewEvicts(s, d, pd);
  }

  lemma FaultNewFills(c: Config, s: State, p: Page, d: nat, pd: Desc, t: nat)
    requires FillsI(s) && MirrorI(c, s) && Accessible(c, s, p) && p !in s.b.present && t !in s.fills
    requires d < |s.b.desc| && s.b.desc[d].state == FREE && pd.state == FILLING && pd.page == p && !pd.dataPresent
    ensures Fills(s.b.desc[d := pd], s.fills[t := FillJob(d, FQueued)], s.mem, s.store)
  {
    assert p !in s.mem;
    FillAdd(s.b.desc, s.b.desc[d := pd], s.fills, s.mem, s.store, t, d);
  }

  lemma FaultNewMirror(c: Config, s: State, p: Page, w: bool, t: nat)
    requires ListsI(c, s) && MirrorI(c, s) && CanFaultNew(c, s, p, t)
    ensures MirrorI(c, DoFaultNew(c, s, p, w, t))
  {
    assert s.b.free[|s.b.free| - 1] in s.b.free;
    NewPageIs(s.b, p, c.regionOf[p], w);
  }

  lemma FaultNewClean(c: Config, s: State, p: Page, w: bool, t: nat)
    requires ListsI(c, s) && MirrorI(c, s) && CleanI(s) && CanFaultNew(c, s, p, t)
    ensures CleanI(DoFaultNew(c, s, p, w, t))
  {
    var d, pd := s.b.free[|s.b.free| - 1], Desc(p, c.regionOf[p], FILLING, w, false, false);
    assert d in s.b.free;
    NewPageIs(s.b, p, c.regionOf[p], w);
    assert pd.page !in s.mem;
    CleanElsewhere(s.b.desc, DoFaultNew(c, s, p, w, t).b.desc, d, s.mem, s.store);
  }

  lemma CleanElsewhere(desc: seq<Desc>, desc': seq<Desc>, d: nat, mem: map<Page, Frame>, store: map<Page, Bytes>)
    requires Clean(desc, mem, store) && |desc'| == |desc| && d < |desc|
    requires forall e :: 0 <= e < |desc| && e != d ==> desc'[e] == desc[e]
    requires desc'[d].state == FILLING && desc'[d].page !in mem
    ensures Clean(desc', mem, store)
  {
  }

  lemma FaultNewEvicts(s: State, d: nat, pd: Desc)
    requires EvictsI(s) && d < |s.b.desc| && s.b.desc[d].state == FREE && pd.state == FILLING
    ensures Evicts(s.b.desc[d := pd], s.evicts, s.hand, s.unmap, s.flush, s.mem, s.store)
  {
    assert forall t :: t in s.evicts ==> s.evicts[t].d != d;
  }

  lemma FaultNewKeeps(c: Config, s: State, p: Page, w: bool, t: nat)
    requires Inv(c, s) && CanFaultNew(c, s, p, t)
    ensures Inv(c, DoFaultNew(c, s, p, w, t))
  {
    FaultNewParts(c, s, p, w, t);
    FaultNewWork(c, s, p, w, t);
    FaultNewMirror(c, s, p, w, t);
    FaultNewClean(c, s, p, w, t);
    NewPageIs(s.b, p, c.regionOf[p], w);
  }

  lemma FaultUpgradeKeeps(c: Config, s: State, p: Page, t: nat)
    requires Inv(c, s) && CanFaultUpgrade(c, s, p, t)
    ensures Inv(c, DoFaultUpgrade(c, s, p, t))
  {
    FaultUpgradeShape(c, s, p, t);
    FaultUpgradeWork(c, s, p, t);
    FaultUpgradeClean(c, s, p, t);
    UpgradePageIs(s.b, s.b.present[p]);
  }

  lemma FaultUpgradeShape(c: Config, s: State, p: Page, t: nat)
    requires ListsI(c, s) && IndexI(c, s) && ActiveI(s) && CanFaultUpgrade(c, s, p, t)
    ensures var s' := DoFaultUpgrade(c, s, p, t); ListsI(c, s') && IndexI(c, s') && ActiveI(s')
  {
    FaultUpgradeIs(c, s, p, t);
    SameShapeKeeps(c, s, DoFaultUpgrade(c, s, p, t));
  }

  lemma FaultUpgradeIs(c: Config, s: State, p: Page, t: nat)
    requires CanFaultUpgrade(c, s, p, t)
    ensures var s', d := DoFaultUpgrade(c, s, p, t), s.b.present[p];
            && s'.b == s.b.(desc := s.b.desc[d := s.b.desc[d].(dirty := true, state := UPDATING)])
            && s'.unmap == s.unmap && s'.open == s.open
  {
    var d := s.b.present[p];
    UpgradePageIs(s.b, d);
    var raised := s.(b := UpgradePage(s.b, d), fills := s.fills[t := FillJob(d, FQueued)]);
    assert raised.unmap == s.unmap && raised.open == s.open;
  }

  lemma FaultUpgradeWork(c: Config, s: State, p: Page, t: nat)
    requires IndexI(c, s) && FillsI(s) && EvictsI(s) && CleanI(s) && CanFaultUpgrade(c, s, p, t)
    ensures var s' := DoFaultUpgrade(c, s, p, t); FillsI(s') && EvictsI(s')
  {
    var d := s.b.present[p];
    UpgradePageIs(s.b, d);
    UpgradeParts(c, s, d, t);
  }

  lemma UpgradeParts(c: Config, s: State, d: nat, t: nat)
    requires IndexI(c, s) && FillsI(s) && EvictsI(s) && CleanI(s) && LockFree(s) && t !in s.fills
    requires d < |s.b.desc| && s.b.desc[d].state == PRESENT
    ensures var desc' := s.b.desc[d := s.b.desc[d].(dirty := true, state := UPDATING)];
            && Fills(desc', s.fills[t := FillJob(d, FQueued)], s.mem, s.store)
            && Evicts(desc', s.evicts, s.hand, s.unmap, s.flush, s.mem, s.store)
  {
    var desc' := s.b.desc[d := s.b.desc[d].(dirty := true, state := UPDATING)];
    IndexAlone(c, s, d);
    FillAdd(s.b.desc, desc', s.fills, s.mem, s.store, t, d);
    EvictFrame(s.b.desc, desc', s.evicts, s.hand, s.unmap, s.flush, s.mem, s.mem, s.store, d);
  }

  lemma FaultUpgradeClean(c: Config, s: State, p: Page, t: nat)
    requires CleanI(s) && CanFaultUpgrade(c, s, p, t)
    ensures CleanI(DoFaultUpgrade(c, s, p, t))
  {
    UpgradePageIs(s.b, s.b.present[p]);
  }

  // ----- fill workers -----

  lemma FillPlain(c: Config, s: State, t: nat)
    requires IndexI(c, s) && FillsI(s) && ValidFill(s, t)
    ensures BeingFilled(s.b.desc[s.fills[t].d]) && Alone(s.b.desc, s.fills[t].d)
    ensures FillOk(s.b.desc[s.fills[t].d], s.fills[t].phase, s.mem, s.store)
  {
  }

  /** A fill worker moves its item on to the next phase. */
  lemma FillAdvance(c: Config, s: State, s': State, t: nat)
    requires IndexI(c, s) && FillsI(s) && EvictsI(s) && ValidFill(s, t)
    requires t in s'.fills && s'.fills == s.fills[t := s.fills[t].(phase := s'.fills[t].phase)]
    requires s'.evicts == s.evicts && s'.store == s.store
    requires s'.hand == s.hand && s'.unmap == s.unmap && s'.flush == s.flush
    requires OnlyAt(s.b.desc, s'.b.desc, s.fills[t].d) && AgreeOff(s.mem, s'.mem, s.b.desc[s.fills[t].d].page)
    requires FillOk(s'.b.desc[s.fills[t].d], s'.fills[t].phase, s'.mem, s.store)
    ensures FillsI(s') && EvictsI(s')
  {
    FillPlain(c, s, t);
    FillMove(s.b.desc, s'.b.desc, s.fills, s.mem, s'.mem, s.store, t, s'.fills[t].phase);
    EvictsAside(c, s, s', s.fills[t].d);
  }

  lemma FillStartKeeps(c: Config, s: State, t: nat)
    requires Inv(c, s) && CanFill(s, FillStart, t)
    ensures Inv(c, DoFill(s, FillStart, t))
  {
    FillPlain(c, s, t);
    FillAdvance(c, s, DoFill(s, FillStart, t), t);
  }

  lemma FillLoadKeeps(c: Config, s: State, t: nat)
    requires Inv(c, s) && CanFill(s, FillLoad, t)
    ensures Inv(c, DoFill(s, FillLoad, t))
  {
    FillPlain(c, s, t);
    FillAdvance(c, s, DoFill(s, FillLoad, t), t);
  }

  lemma FillLiftKeeps(c: Config, s: State, t: nat)
    requires Inv(c, s) && CanFill(s, FillLift, t)
    ensures Inv(c, DoFill(s, FillLift, t))
  {
    FillPlain(c, s, t);
    FillAdvance(c, s, DoFillLift(s, t), t);
    FillLiftData(c, s, t);
  }

  lemma FillLiftData(c: Config, s: State, t: nat)
    requires IndexI(c, s) && FillsI(s) && MirrorI(c, s) && CleanI(s) && CanFill(s, FillLift, t)
    ensures MirrorI(c, DoFillLift(s, t)) && CleanI(DoFillLift(s, t))
  {
    FillPlain(c, s, t);
  }

  lemma FillCopyKeeps(c: Config, s: State, t: nat)
    requires Inv(c, s) && CanFill(s, FillCopy, t)
    ensures Inv(c, DoFill(s, FillCopy, t))
  {
    var s' := DoFillCopy(s, t);
    FillCopyWork(c, s, t);
    FillCopyTouches(c, s, t);
    SameShapeKeeps(c, s, s');
    FillCopyData(c, s, t);
    FillCopyFlush(s, t);
  }

  lemma FillCopyWork(c: Config, s: State, t: nat)
    requires IndexI(c, s) && FillsI(s) && EvictsI(s) && CanFill(s, FillCopy, t)
    ensures var s' := DoFillCopy(s, t); FillsI(s') && EvictsI(s') && s'.kfailed == s.kfailed
  {
    FillPlain(c, s, t);
    FillCopyTouches(c, s, t);
    FillAdvance(c, s, DoFillCopy(s, t), t);
  }

  lemma FillCopyFlush(s: State, t: nat)
    requires FlushI(s) && ValidFill(s, t) && s.fills[t].phase.FCopy?
    ensures FlushI(DoFillCopy(s, t))
  {
    FlushFrame(s.b.desc, DoFillCopy(s, t).b.desc, s.b.busy, s.evicts, s.unmap, s.flush);
  }

  lemma FillCopyTouches(c: Config, s: State, t: nat)
    requires ValidFill(s, t) && s.fills[t].phase.FCopy?
    ensures var s', d := DoFillCopy(s, t), s.fills[t].d;
            && OnlyAt(s.b.desc, s'.b.desc, d) && AgreeOff(s.mem, s'.mem, s.b.desc[d].page)
            && s'.b == s.b.(desc := s'.b.desc) && SameShape(s.b.desc, s'.b.desc)
  {
  }

  lemma FillCopyData(c: Config, s: State, t: nat)
    requires IndexI(c, s) && FillsI(s) && MirrorI(c, s) && CleanI(s) && CanFill(s, FillCopy, t)
    ensures MirrorI(c, DoFillCopy(s, t)) && CleanI(DoFillCopy(s, t))
  {
    FillPlain(c, s, t);
  }

  lemma FlushFrame(desc: seq<Desc>, desc': seq<Desc>, busy: seq<nat>, evicts: map<nat, EvictJob>, u: Unmap, f: Flush)
    requires FlushOk(desc, busy, evicts, u, f) && |desc'| == |desc|
    requires forall d :: 0 <= d < |desc| ==> desc'[d].state == desc[d].state && (desc'[d].dirty ==> desc[d].dirty)
    ensures FlushOk(desc', busy, evicts, u, f)
  {
  }

  lemma FillFinishWork(c: Config, s: State, t: nat)
    requires IndexI(c, s) && FillsI(s) && EvictsI(s) && CleanI(s) && CanFill(s, FillFinish, t)
    ensures var s' := DoFill(s, FillFinish, t);
            && FillsI(s') && EvictsI(s') && CleanI(s')
            && s'.b == s.b.(desc := s'.b.desc) && SameShape(s.b.desc, s'.b.desc)
  {
    FillPlain(c, s, t);
    var s', d := DoFill(s, FillFinish, t), s.fills[t].d;
    FillGone(s.b.desc, s'.b.desc, s.fills, s.mem, s.store, t);
    EvictsAside(c, s, s', d);
  }

  lemma FillFinishKeeps(c: Config, s: State, t: nat)
    requires Inv(c, s) && CanFill(s, FillFinish, t)
    ensures Inv(c, DoFill(s, FillFinish, t))
  {
    FillFinishWork(c, s, t);
    SameShapeKeeps(c, s, DoFill(s, FillFinish, t));
  }

  // ----- evict workers -----

  lemma EvictPlain(c: Config, s: State, t: nat)
    requires IndexI(c, s) && EvictsI(s) && ValidEvict(s, t)
    ensures var d := s.evicts[t].d;
            && Alone(s.b.desc, d) && s.b.desc[d].state != FREE && !BeingFilled(s.b.desc[d])
            && EvictOk(s.b.desc[d], s.evicts[t], s.mem, s.store, s.unmap, s.flush)
  {
  }

  /** An evict worker moves its item on to the next phase. */
  lemma EvictAdvance(c: Config, s: State, s': State, t: nat)
    requires IndexI(c, s) && FillsI(s) && EvictsI(s) && ValidEvict(s, t)
    requires t in s'.evicts && s'.evicts == s.evicts[t := s.evicts[t].(phase := s'.evicts[t].phase)]
    requires s'.fills == s.fills && s'.hand == s.hand && s'.unmap == s.unmap && s'.flush == s.flush
    requires OnlyAt(s.b.desc, s'.b.desc, s.evicts[t].d)
    requires s'.b.desc[s.evicts[t].d].state == s.b.desc[s.evicts[t].d].state
    requires AgreeOff(s.mem, s'.mem, s.b.desc[s.evicts[t].d].page)
    requires AgreeOff(s.store, s'.store, s.b.desc[s.evicts[t].d].page)
    requires EvictOk(s'.b.desc[s.evicts[t].d], s'.evicts[t], s'.mem, s'.store, s.unmap, s.flush)
    ensures FillsI(s') && EvictsI(s')
  {
    EvictPlain(c, s, t);
    EvictMove(s.b.desc, s'.b.desc, s.evicts, s.hand, s.unmap, s.flush, s.mem, s'.mem, s.store, s'.store,
              t, s'.evicts[t].phase);
    FillsAside(c, s, s', s.evicts[t].d);
  }

  /** The flush bookkeeping only asks which descriptors have an item. */
  lemma FlushMove(s: State, t: nat, phase: EvictPhase)
    requires FlushI(s) && t in s.evicts
    ensures FlushI(EvictTo(s, t, phase))
  {
    if s.flush.Flushing? {
      var evicts' := EvictTo(s, t, phase).evicts;
      forall d | d in s.flush.entry && HasEvict(s.evicts, d) ensures HasEvict(evicts', d) {
        var v :| v in s.evicts && s.evicts[v].d == d;
        assert v in evicts' && evicts'[v].d == d;
      }
    }
  }

  lemma EvictStartKeeps(c: Config, s: State, t: nat)
    requires Inv(c, s) && CanEvict(s, EvictStart, t)
    ensures Inv(c, DoEvict(s, EvictStart, t))
  {
    EvictPlain(c, s, t);
    var s' := DoEvict(s, EvictStart, t);
    EvictAdvance(c, s, s', t);
    FlushMove(s, t, s'.evicts[t].phase);
  }

  lemma EvictProtectKeeps(c: Config, s: State, t: nat)
    requires Inv(c, s) && CanEvict(s, EvictProtect, t)
    ensures Inv(c, DoEvict(s, EvictProtect, t))
  {
    EvictPlain(c, s, t);
    EvictAdvance(c, s, DoEvictProtect(s, t), t);
    FlushMove(s, t, EWrite);
    EvictProtectData(c, s, t);
  }

  lemma EvictProtectData(c: Config, s: State, t: nat)
    requires IndexI(c, s) && EvictsI(s) && MirrorI(c, s) && CleanI(s) && CanEvict(s, EvictProtect, t)
    ensures MirrorI(c, DoEvictProtect(s, t)) && CleanI(DoEvictProtect(s, t))
  {
    EvictPlain(c, s, t);
  }

  lemma EvictWriteKeeps(c: Config, s: State, t: nat)
    requires Inv(c, s) && CanEvict(s, EvictWrite, t)
    ensures Inv(c, DoEvict(s, EvictWrite, t))
  {
    EvictWriteData(c, s, t);
    FlushMove(s, t, EClear);
  }

  lemma EvictWriteData(c: Config, s: State, t: nat)
    requires IndexI(c, s) && FillsI(s) && EvictsI(s) && MirrorI(c, s) && CleanI(s) && CanEvict(s, EvictWrite, t)
    ensures var s' := DoEvictWrite(s, t);
            FillsI(s') && EvictsI(s') && MirrorI(c, s') && CleanI(s') && s'.kfailed == s.kfailed
  {
    EvictWriteWork(c, s, t);
    EvictWriteStore(c, s, t);
  }

  lemma EvictWriteWork(c: Config, s: State, t: nat)
    requires IndexI(c, s) && FillsI(s) && EvictsI(s) && MirrorI(c, s) && CanEvict(s, EvictWrite, t)
    ensures var s' := DoEvictWrite(s, t); FillsI(s') && EvictsI(s') && s'.kfailed == s.kfailed
  {
    EvictPlain(c, s, t);
    EvictAdvance(c, s, DoEvictWrite(s, t), t);
  }

  lemma EvictWriteStore(c: Config, s: State, t: nat)
    requires IndexI(c, s) && EvictsI(s) && MirrorI(c, s) && CleanI(s) && CanEvict(s, EvictWrite, t)
    ensures MirrorI(c, DoEvictWrite(s, t)) && CleanI(DoEvictWrite(s, t))
  {
    EvictPlain(c, s, t);
  }

  lemma EvictClearKeeps(c: Config, s: State, t: nat)
    requires Inv(c, s) && CanEvict(s, EvictClear, t)
    ensures Inv(c, DoEvict(s, EvictClear, t))
  {
    SameShapeKeeps(c, s, DoEvictClear(s, t));
    EvictClearFlush(s, t);
    EvictClearData(c, s, t);
  }

  lemma EvictClearFlush(s: State, t: nat)
    requires EvictsI(s) && FlushI(s) && CanEvict(s, EvictClear, t)
    ensures FlushI(DoEvictClear(s, t))
  {
    FlushMove(s, t, EDrop);
    var s1 := EvictTo(s, t, EDrop);
    FlushFrame(s1.b.desc, DoEvictClear(s, t).b.desc, s1.b.busy, s1.evicts, s1.unmap, s1.flush);
  }

  lemma EvictClearData(c: Config, s: State, t: nat)
    requires IndexI(c, s) && FillsI(s) && EvictsI(s) && CleanI(s) && CanEvict(s, EvictClear, t)
    ensures FillsI(DoEvictClear(s, t)) && EvictsI(DoEvictClear(s, t)) && CleanI(DoEvictClear(s, t))
  {
    EvictPlain(c, s, t);
    EvictAdvance(c, s, DoEvictClear(s, t), t);
  }

  lemma EvictDropKeeps(c: Config, s: State, t: nat)
    requires Inv(c, s) && CanEvict(s, EvictDrop, t)
    ensures Inv(c, DoEvict(s, EvictDrop, t))
  {
    EvictPlain(c, s, t);
    if s.evicts[t].kind == FLUSH {
      EvictGone(s.b.desc, s.b.desc, s.evicts, s.hand, s.unmap, s.flush, s.mem, s.store, t);
      FlushGone(s, t);
    } else {
      EvictDropWork(c, s, t);
      FlushMove(s, t, EFree);
      EvictDropData(c, s, t);
    }
  }

  lemma EvictDropWork(c: Config, s: State, t: nat)
    requires IndexI(c, s) && FillsI(s) && EvictsI(s) && CanEvict(s, EvictDrop, t) && s.evicts[t].kind != FLUSH
    ensures FillsI(DoEvictDrop(s, t)) && EvictsI(DoEvictDrop(s, t))
  {
    EvictPlain(c, s, t);
    EvictAdvance(c, s, DoEvictDrop(s, t), t);
  }

  lemma FlushGone(s: State, t: nat)
    requires FlushI(s) && t in s.evicts && s.evicts[t].d < |s.b.desc| && !s.b.desc[s.evicts[t].d].dirty
    ensures FlushI(s.(evicts := s.evicts - {t}))
  {
    if s.flush.Flushing? {
      forall d | d in s.flush.entry && d < |s.b.desc| && s.b.desc[d].dirty && HasEvict(s.evicts, d)
        ensures HasEvict(s.evicts - {t}, d)
      {
        var v :| v in s.evicts && s.evicts[v].d == d;
        assert v in s.evicts - {t};
      }
    }
  }

  lemma EvictDropData(c: Config, s: State, t: nat)
    requires IndexI(c, s) && EvictsI(s) && MirrorI(c, s) && CleanI(s) && CanEvict(s, EvictDrop, t)
    ensures MirrorI(c, DoEvictDrop(s, t)) && CleanI(DoEvictDrop(s, t))
  {
    EvictPlain(c, s, t);
    var p := PageOf(s, s.evicts[t].d);
    assert p in s.mem && s.store[p] == s.logical[p];
    if s.evicts[t].kind == EVICT {
      DropData(c, s, s.evicts[t].d);
    }
  }

  lemma DropData(c: Config, s: State, d: nat)
    requires IndexI(c, s) && MirrorI(c, s) && CleanI(s)
    requires d < |s.b.desc| && s.b.desc[d].state == LEAVING && !s.b.desc[d].dirty && s.b.desc[d].page in s.mem
    ensures var s' := s.(mem := s.mem - {s.b.desc[d].page}); MirrorI(c, s') && CleanI(s')
  {
  }

  // ----- freeing a descriptor -----

  lemma MarkFreeParts(c: Config, s: State, s': State, d: nat)
    requires ListsI(c, s) && IndexI(c, s) && ActiveI(s) && d < |s.b.desc| && s.b.desc[d].state == LEAVING
    requires s'.b == MarkFree(s.b, d) && s'.open == s.open
    requires s'.unmap == s.unmap || (s.unmap.Dispatch? && s'.unmap == Drain(s.unmap.r))
    ensures ListsI(c, s') && IndexI(c, s') && ActiveI(s') && s'.b.failed == s.b.failed
  {
    MarkFreeIs(s.b, d);
    ListsMarkFree(s.b.desc, s.b.free, s.b.busy, d);
    MarkFreeIndexes(c, s, s', d);
  }

  lemma MarkFreeIndexes(c: Config, s: State, s': State, d: nat)
    requires IndexI(c, s) && ActiveI(s) && d < |s.b.desc| && s.b.desc[d].state == LEAVING
    requires s'.open == s.open && (s'.unmap == s.unmap || (s.unmap.Dispatch? && s'.unmap == Drain(s.unmap.r)))
    requires s'.b.desc == s.b.desc[d := s.b.desc[d].(state := FREE, page := NULL_PAGE)]
    requires s'.b.present == s.b.present - {s.b.desc[d].page}
    requires s'.b.active == s.b.active - {(s.b.desc[d].region, d)}
    ensures IndexI(c, s') && ActiveI(s')
  {
  }

  /** The page of a clean leaving descriptor agrees with its store copy, mapped or not. */
  lemma MarkFreeData(c: Config, s: State, d: nat)
    requires IndexI(c, s) && MirrorI(c, s) && CleanI(s) && d < |s.b.desc| && s.b.desc[d].state == LEAVING
    requires !s.b.desc[d].dirty && (s.b.desc[d].page in s.mem ==> s.open == {})
    ensures MirrorI(c, s.(b := MarkFree(s.b, d))) && CleanI(s.(b := MarkFree(s.b, d)))
  {
    MarkFreeIs(s.b, d);
  }

  lemma EvictFinishWork(c: Config, s: State, t: nat)
    requires IndexI(c, s) && FillsI(s) && EvictsI(s) && CanEvict(s, EvictFinish, t)
    ensures FillsI(DoEvict(s, EvictFinish, t)) && EvictsI(DoEvict(s, EvictFinish, t))
  {
    EvictPlain(c, s, t);
    var s', d := DoEvict(s, EvictFinish, t), s.evicts[t].d;
    MarkFreeIs(s.b, d);
    assert OnlyAt(s.b.desc, s'.b.desc, d);
    EvictGone(s.b.desc, s'.b.desc, s.evicts, s.hand, s.unmap, s.flush, s.mem, s.store, t);
    FillsAside(c, s, s', d);
  }

  lemma EvictFinishKeeps(c: Config, s: State, t: nat)
    requires Inv(c, s) && CanEvict(s, EvictFinish, t)
    ensures Inv(c, DoEvict(s, EvictFinish, t))
  {
    EvictPlain(c, s, t);
    EvictFinishWork(c, s, t);
    MarkFreeParts(c, s, DoEvict(s, EvictFinish, t), s.evicts[t].d);
    MarkFreeData(c, s, s.evicts[t].d);
  }

  // ----- sending, flushing -----

  lemma SendKeeps(c: Config, s: State, t: nat)
    requires Inv(c, s) && CanSend(s, t)
    ensures Inv(c, DoSend(s, t))
  {
    var s', d := DoSend(s, t), s.hand[0];
    assert s.hand == [d] + s'.hand;
    assert Held(s.hand, s.unmap, d);
    EvictAdd(s.b.desc, s.b.desc, s.evicts, s.hand, s'.hand, s.unmap, s.unmap, s.flush, s.flush, s.mem, s.store,
             t, EvictJob(d, EVICT, EQueued));
    FlushAdd(s, t, EvictJob(d, EVICT, EQueued));
  }

  lemma FlushAdd(s: State, t: nat, j: EvictJob)
    requires FlushI(s) && t !in s.evicts && j.kind != FLUSH
    ensures FlushI(s.(evicts := s.evicts[t := j]))
  {
    if s.flush.Flushing? {
      var evicts' := s.evicts[t := j];
      forall d | d in s.flush.entry && HasEvict(s.evicts, d) ensures HasEvict(evicts', d) {
        var v :| v in s.evicts && s.evicts[v].d == d;
        assert v in evicts' && evicts'[v].d == d;
      }
    }
  }

  lemma FlushBeginKeeps(c: Config, s: State)
    requires Inv(c, s) && CanFlushBegin(s)
    ensures Inv(c, s.(flush := Flushing(0, DirtyBusy(s))))
  {
    assert s.b.busy[0..] == s.b.busy;
  }

  lemma FlushScanFlush(c: Config, s: State, t: nat)
    requires FlushI(s) && CanFlushScan(s, t)
    ensures FlushI(DoFlushScan(s, t))
  {
    FlushScanIs(s, t);
    FlushScanPending(s, t);
    FlushScanSeen(s, t);
  }

  /** What the scan of one position does, field by field. */
  lemma FlushScanIs(s: State, t: nat)
    requires CanFlushScan(s, t)
    ensures var s', d := DoFlushScan(s, t), s.b.busy[s.flush.next];
            && s'.flush == Flushing(s.flush.next + 1, s.flush.entry)
            && s'.evicts == (if s.b.desc[d].dirty then s.evicts[t := EvictJob(d, FLUSH, EQueued)] else s.evicts)
            && s' == s.(flush := s'.flush, evicts := s'.evicts)
  {
    var scanned := s.(flush := s.flush.(next := s.flush.next + 1));
    assert scanned.b == s.b && scanned.evicts == s.evicts;
  }

  lemma FlushScanSeen(s: State, t: nat)
    requires FlushI(s) && CanFlushScan(s, t)
    ensures var s' := DoFlushScan(s, t);
            s'.flush.next <= |s.b.busy| && FlushSeen(s.b.busy, s'.flush.next, s'.evicts)
  {
    FlushScanIs(s, t);
    var n := s.flush.next;
    assert s.b.busy[..n + 1] == s.b.busy[..n] + [s.b.busy[n]];
  }

  lemma FlushScanPending(s: State, t: nat)
    requires FlushI(s) && CanFlushScan(s, t)
    ensures var s' := DoFlushScan(s, t);
            && s'.flush.next <= |s.b.busy|
            && FlushPending(s.b.desc, s.b.busy, s'.flush.next, s'.flush.entry, s'.evicts)
  {
    FlushScanIs(s, t);
    var s', n := DoFlushScan(s, t), s.flush.next;
    assert s.b.busy[n..] == [s.b.busy[n]] + s.b.busy[n + 1..];
    forall d | d in s.flush.entry && d < |s.b.desc| && s.b.desc[d].dirty && d !in s.b.busy[n + 1..]
      ensures HasEvict(s'.evicts, d)
    {
      if d == s.b.busy[n] {
        assert s'.evicts[t].d == d;
      } else {
        var v :| v in s.evicts && s.evicts[v].d == d;
        assert v in s'.evicts && s'.evicts[v].d == d;
      }
    }
  }

  lemma FlushScanKeeps(c: Config, s: State, t: nat)
    requires Inv(c, s) && CanFlushScan(s, t)
    ensures Inv(c, DoFlushScan(s, t))
  {
    FlushScanFlush(c, s, t);
    FlushScanIs(s, t);
    FlushScanWork(c, s, t);
  }

  lemma FlushScanWork(c: Config, s: State, t: nat)
    requires ListsI(c, s) && EvictsI(s) && FlushI(s) && CleanI(s) && CanFlushScan(s, t)
    ensures EvictsI(DoFlushScan(s, t))
  {
    FlushScanIs(s, t);
    var s', d := DoFlushScan(s, t), s.b.busy[s.flush.next];
    if s.b.desc[d].dirty {
      FlushFresh(c, s);
      EvictAdd(s.b.desc, s.b.desc, s.evicts, s.hand, s.hand, s.unmap, s.unmap, s.flush, s'.flush, s.mem, s.store,
               t, EvictJob(d, FLUSH, EQueued));
    }
  }

  /** The descriptor the flush scan is about to visit has no evict item yet. */
  lemma FlushFresh(c: Config, s: State)
    requires ListsI(c, s) && EvictsI(s) && FlushI(s) && CleanI(s) && s.flush.Flushing? && s.flush.next < |s.b.busy|
    requires s.b.busy[s.flush.next] < |s.b.desc| && s.b.desc[s.b.busy[s.flush.next]].dirty
    ensures var d := s.b.busy[s.flush.next];
            && s.b.desc[d].state == PRESENT && s.b.desc[d].page in s.mem && !Held(s.hand, s.unmap, d)
            && forall v :: v in s.evicts ==> s.evicts[v].d != d
  {
    var d := s.b.busy[s.flush.next];
    assert d in s.b.busy && d in s.flush.entry;
    assert d !in s.b.busy[..s.flush.next];
  }

  // ----- unmapping -----

  lemma SingletonOpen(open: set<Region>, r: Region)
    requires r in open && |open| <= 1
    ensures open == {r}
  {
    assert open == {r} + (open - {r}) && |open| == 1 + |open - {r}|;
  }

  lemma UnmapBeginKeeps(c: Config, s: State, r: Region)
    requires Inv(c, s) && CanUnmapBegin(s, r)
    ensures Inv(c, DoUnmapBegin(s, r))
  {
    if |s.open| <= 1 {
      SingletonOpen(s.open, r);
    }
    UnmapMoveKeeps(s, DoUnmapBegin(s, r).unmap);
  }

  /** Moving the unmapping thread between states that hold no descriptor. */
  lemma UnmapMoveKeeps(s: State, u': Unmap)
    requires EvictsI(s) && !s.unmap.Dispatch? && !u'.Dispatch? && (s.unmap.Drain? ==> u'.Drain? || s.evicts == map[])
    ensures EvictsI(s.(unmap := u'))
  {
    var s' := s.(unmap := u');
    assert forall d: nat :: Held(s.hand, u', d) <==> Held(s.hand, s.unmap, d);
    assert EvictItems(s'.b.desc, s'.evicts, s'.unmap, s'.flush, s'.mem, s'.store);
  }

  lemma PickKeeps(c: Config, s: State, d: nat)
    requires Inv(c, s) && CanPick(s, d)
    ensures Inv(c, DoPick(s, d))
  {
    PickShape(c, s, d);
    PickWork(c, s, d);
  }

  lemma PickShape(c: Config, s: State, d: nat)
    requires ListsI(c, s) && IndexI(c, s) && ActiveI(s) && CanPick(s, d)
    ensures ListsI(c, DoPick(s, d)) && IndexI(c, DoPick(s, d)) && ActiveI(DoPick(s, d))
  {
    assert !s.b.desc[d].deferred && s.b.desc[d].state != FREE;
  }

  lemma PickWork(c: Config, s: State, d: nat)
    requires ActiveI(s) && FillsI(s) && EvictsI(s) && CanPick(s, d)
    ensures FillsI(DoPick(s, d)) && EvictsI(DoPick(s, d))
  {
    var s' := DoPick(s, d);
    assert !s.b.desc[d].deferred && s.b.desc[d].state != FREE;
    DeferKeeps(s, s'.b.desc, d);
    UnmapMoveKeeps(s.(b := s'.b), s'.unmap);
  }

  /** Only the lists look at the deferred flag, apart from the hands. */
  lemma DeferKeeps(s: State, desc': seq<Desc>, d: nat)
    requires FillsI(s) && EvictsI(s) && d < |s.b.desc| && OnlyAt(s.b.desc, desc', d)
    requires desc'[d] == s.b.desc[d] || (desc'[d] == s.b.desc[d].(deferred := true) && s.b.desc[d].state != LEAVING)
    ensures FillsI(s.(b := s.b.(desc := desc'))) && EvictsI(s.(b := s.b.(desc := desc')))
  {
    DeferFills(s, desc', d);
    DeferEvicts(s, desc', d);
  }

  lemma DeferFills(s: State, desc': seq<Desc>, d: nat)
    requires FillsI(s) && d < |s.b.desc| && OnlyAt(s.b.desc, desc', d)
    requires desc'[d] == s.b.desc[d] || desc'[d] == s.b.desc[d].(deferred := true)
    ensures Fills(desc', s.fills, s.mem, s.store)
  {
  }

  lemma DeferEvicts(s: State, desc': seq<Desc>, d: nat)
    requires EvictsI(s) && d < |s.b.desc| && OnlyAt(s.b.desc, desc', d)
    requires desc'[d] == s.b.desc[d] || (desc'[d] == s.b.desc[d].(deferred := true) && s.b.desc[d].state != LEAVING)
    ensures Evicts(desc', s.evicts, s.hand, s.unmap, s.flush, s.mem, s.store)
  {
    assert EvictItems(desc', s.evicts, s.unmap, s.flush, s.mem, s.store);
    assert Hands(desc', s.evicts, s.hand, s.unmap, s.mem);
  }

  lemma LeaveShape(c: Config, s: State, t: nat)
    requires ListsI(c, s) && IndexI(c, s) && ActiveI(s) && CanLeave(s, t)
    ensures ListsI(c, DoLeave(s, t)) && IndexI(c, DoLeave(s, t)) && ActiveI(DoLeave(s, t))
  {
    var d := s.unmap.d;
    var desc' := s.b.desc[d := s.b.desc[d].(state := LEAVING)];
    assert s.b.desc[d].deferred && DoLeave(s, t).b == s.b.(desc := desc');
    LeaveLists(s.b.desc, s.b.free, s.b.busy, d);
    LeaveIndexes(c, s, d);
  }

  lemma LeaveLists(desc: seq<Desc>, free: seq<nat>, busy: seq<nat>, d: nat)
    requires Lists(desc, free, busy) && d < |desc| && desc[d].state == PRESENT && desc[d].deferred
    ensures Lists(desc[d := desc[d].(state := LEAVING)], free, busy)
  {
  }

  lemma LeaveIndexes(c: Config, s: State, d: nat)
    requires IndexI(c, s) && ActiveI(s) && s.unmap.AwaitPresent? && d == s.unmap.d
    requires d < |s.b.desc| && s.b.desc[d].state == PRESENT
    ensures var desc' := s.b.desc[d := s.b.desc[d].(state := LEAVING)];
            && Index(c.regionOf, desc', s.b.present)
            && Active(desc', s.b.active, AwaitFree(s.unmap.r, d), s.open)
  {
  }

  lemma LeaveKeeps(c: Config, s: State, t: nat)
    requires Inv(c, s) && CanLeave(s, t)
    ensures Inv(c, DoLeave(s, t))
  {
    LeaveIs(s, t);
    LeaveShape(c, s, t);
    LeaveWork(c, s, t);
    LeaveClean(s, t);
  }

  lemma LeaveIs(s: State, t: nat)
    requires CanLeave(s, t)
    ensures var s', d := DoLeave(s, t), s.unmap.d;
            && s'.b == s.b.(desc := s.b.desc[d := s.b.desc[d].(state := LEAVING)])
            && s' == s.(b := s'.b, unmap := AwaitFree(s.unmap.r, d), evicts := s'.evicts)
  {
  }

  lemma LeaveClean(s: State, t: nat)
    requires CleanI(s) && CanLeave(s, t)
    ensures CleanI(DoLeave(s, t))
  {
    LeaveIs(s, t);
  }

  lemma LeaveWork(c: Config, s: State, t: nat)
    requires IndexI(c, s) && ActiveI(s) && FillsI(s) && EvictsI(s) && FlushI(s) && CleanI(s) && CanLeave(s, t)
    ensures FillsI(DoLeave(s, t)) && EvictsI(DoLeave(s, t))
  {
    var s', d := DoLeave(s, t), s.unmap.d;
    FillsAside(c, s, s', d);
    assert forall v :: v in s.evicts ==> s.evicts[v].d != d;
    EvictAdd(s.b.desc, s'.b.desc, s.evicts, s.hand, s.hand, s.unmap, s'.unmap, s.flush, s.flush, s.mem, s.store,
             t, EvictJob(d, EVICT, EQueued));
  }

  lemma FreedKeeps(c: Config, s: State)
    requires Inv(c, s) && CanFreed(s)
    ensures Inv(c, s.(unmap := Scan(s.unmap.r)))
  {
    UnmapMoveKeeps(s, Scan(s.unmap.r));
  }

  lemma UnmapEndKeeps(c: Config, s: State)
    requires Inv(c, s) && CanUnmapEnd(s)
    ensures Inv(c, s.(unmap := NoUnmap))
  {
    UnmapMoveKeeps(s, NoUnmap);
  }

  lemma DrainReleaseKeeps(c: Config, s: State)
    requires Inv(c, s) && CanDrainRelease(s)
    ensures Inv(c, s.(b := ReleaseOldest(s.b)))
  {
    ListsRelease(s.b.desc, s.b.free, s.b.busy);
  }

  lemma DrainOldestKeeps(c: Config, s: State)
    requires Inv(c, s) && CanDrainOldest(s)
    ensures Inv(c, DoDrainOldest(s))
  {
    DrainOldestIs(s);
    ListsEvictOldest(s.b.desc, s.b.free, s.b.busy);
    FillsAside(c, s, DoDrainOldest(s), s.b.busy[|s.b.busy| - 1]);
    DrainOldestIndexes(c, s);
    DrainOldestEvicts(s);
  }

  lemma DrainOldestIs(s: State)
    requires CanDrainOldest(s)
    ensures var s', d := DoDrainOldest(s), s.b.busy[|s.b.busy| - 1];
            && s'.b == s.b.(busy := s.b.busy[..|s.b.busy| - 1], desc := s.b.desc[d := s.b.desc[d].(state := LEAVING)])
            && s' == s.(b := s'.b, unmap := Dispatch(s.unmap.r, d))
  {
  }

  lemma DrainOldestIndexes(c: Config, s: State)
    requires IndexI(c, s) && ActiveI(s) && CanDrainOldest(s)
    ensures IndexI(c, DoDrainOldest(s)) && ActiveI(DoDrainOldest(s))
  {
  }

  lemma DrainOldestEvicts(s: State)
    requires EvictsI(s) && CleanI(s) && LockFree(s) && CanDrainOldest(s)
    ensures EvictsI(DoDrainOldest(s))
  {
    var s', d := DoDrainOldest(s), s.b.busy[|s.b.busy| - 1];
    assert forall i: nat :: Held(s.hand, s'.unmap, i) <==> Held(s.hand, s.unmap, i) || i == d;
    assert forall v :: v in s.evicts ==> s.evicts[v].d != d;
    assert EvictItems(s'.b.desc, s'.evicts, s'.unmap, s'.flush, s'.mem, s'.store);
    assert Hands(s'.b.desc, s'.evicts, s'.hand, s'.unmap, s'.mem);
  }

  lemma DrainSendKeeps(c: Config, s: State, t: nat)
    requires Inv(c, s) && CanDrainSend(s, t)
    ensures Inv(c, DoDrainSend(s, t))
  {
    var s', d := DoDrainSend(s, t), s.unmap.d;
    assert Held(s.hand, s.unmap, d);
    EvictAdd(s.b.desc, s.b.desc, s.evicts, s.hand, s.hand, s.unmap, s'.unmap, s.flush, s.flush, s.mem, s.store,
             t, EvictJob(d, FAST_EVICT, EQueued));
  }

  lemma DrainFreeEvicts(s: State)
    requires EvictsI(s) && CanDrainFree(s)
    requires s.b.desc[s.unmap.d].state == LEAVING
    ensures EvictsI(DoDrainFree(s))
  {
    var s', d := DoDrainFree(s), s.unmap.d;
    MarkFreeIs(s.b, d);
    assert Held(s.hand, s.unmap, d);
    assert forall i: nat :: Held(s.hand, s'.unmap, i) <==> Held(s.hand, s.unmap, i) && i != d;
    assert EvictItems(s'.b.desc, s'.evicts, s'.unmap, s'.flush, s'.mem, s'.store);
    assert Owned(s'.b.desc, s'.evicts, s'.hand, s'.unmap);
  }

  lemma DrainFreeKeeps(c: Config, s: State)
    requires Inv(c, s) && CanDrainFree(s)
    ensures Inv(c, DoDrainFree(s))
  {
    var s', d := DoDrainFree(s), s.unmap.d;
    assert Held(s.hand, s.unmap, d);
    MarkFreeIs(s.b, d);
    MarkFreeParts(c, s, s', d);
    MarkFreeData(c, s, d);
    DrainFreeEvicts(s);
    FillsAside(c, s, s', d);
  }

  lemma DrainEndKeeps(c: Config, s: State)
    requires Inv(c, s) && CanDrainEnd(s)
    ensures Inv(c, s.(unmap := NoUnmap))
  {
    UnmapMoveKeeps(s, NoUnmap);
    AllFree(c, s);
  }

  lemma AllFree(c: Config, s: State)
    requires ListsI(c, s) && ActiveI(s) && EvictsI(s) && CanDrainEnd(s)
    ensures forall d :: 0 <= d < |s.b.desc| ==> s.b.desc[d].state == FREE
  {
    forall d | 0 <= d < |s.b.desc| ensures s.b.desc[d].state == FREE {
      assert d !in s.b.busy && !Held(s.hand, s.unmap, d) && !HasEvict(s.evicts, d);
    }
  }

  // ----- every step -----

  lemma StepKeeps(c: Config, s: State, l: Label)
    requires Inv(c, s) && Can(c, s, l)
    ensures Inv(c, Do(c, s, l))
  {
    match l
    case AppWrite(p, v) => AppWriteKeeps(c, s, p, v);
    case MapRegion(r, contents) => MapRegionKeeps(c, s, r, contents);
    case FaultNew(p, isWrite, t) => FaultNewKeeps(c, s, p, isWrite, t);
    case FaultUpgrade(p, t) => FaultUpgradeKeeps(c, s, p, t);
    case FaultSpurious(p, isWrite) =>
    case Fill(f, t) => FillKeeps(c, s, f, t);
    case Evict(e, t) => EvictKeeps(c, s, e, t);
    case Manage(m) => ManageKeeps(c, s, m);
    case FlushBy(f) => FlushKeeps(c, s, f);
    case UnmapBy(u) => UnmapKeeps(c, s, u);
  }

  lemma ManageKeeps(c: Config, s: State, m: ManagerStep)
    requires Inv(c, s) && CanManage(c, s, m)
    ensures Inv(c, DoManage(c, s, m))
  {
    match m
    case ManagerWake =>
    case ManagerRest =>
    case ManagerBatch => BatchKeeps(c, s);
    case ManagerSend(t) => SendKeeps(c, s, t);
  }

  lemma FlushKeeps(c: Config, s: State, f: FlushStep)
    requires Inv(c, s) && CanFlush(s, f)
    ensures Inv(c, DoFlush(s, f))
  {
    match f
    case FlushBegin => FlushBeginKeeps(c, s);
    case FlushScan(t) => FlushScanKeeps(c, s, t);
    case FlushEnd =>
  }

  lemma UnmapKeeps(c: Config, s: State, u: UnmapStep)
    requires Inv(c, s) && CanUnmap(s, u)
    ensures Inv(c, DoUnmap(s, u))
  {
    match u
    case UnmapBegin(r) => UnmapBeginKeeps(c, s, r);
    case UnmapPick(d) => PickKeeps(c, s, d);
    case UnmapLeave(t) => LeaveKeeps(c, s, t);
    case UnmapFreed => FreedKeeps(c, s);
    case UnmapEnd => UnmapEndKeeps(c, s);
    case DrainRelease => DrainReleaseKeeps(c, s);
    case DrainOldest => DrainOldestKeeps(c, s);
    case DrainSend(t) => DrainSendKeeps(c, s, t);
    case DrainFree => DrainFreeKeeps(c, s);
    case DrainEnd => DrainEndKeeps(c, s);
  }

  lemma FillKeeps(c: Config, s: State, f: FillStep, t: nat)
    requires Inv(c, s) && CanFill(s, f, t)
    ensures Inv(c, DoFill(s, f, t))
  {
    match f
    case FillStart => FillStartKeeps(c, s, t);
    case FillLift => FillLiftKeeps(c, s, t);
    case FillLoad => FillLoadKeeps(c, s, t);
    case FillCopy => FillCopyKeeps(c, s, t);
    case FillFinish => FillFinishKeeps(c, s, t);
  }

  lemma EvictKeeps(c: Config, s: State, e: EvictStep, t: nat)
    requires Inv(c, s) && CanEvict(s, e, t)
    ensures Inv(c, DoEvict(s, e, t))
  {
    match e
    case EvictStart => EvictStartKeeps(c, s, t);
    case EvictProtect => EvictProtectKeeps(c, s, t);
    case EvictWrite => EvictWriteKeeps(c, s, t);
    case EvictClear => EvictClearKeeps(c, s, t);
    case EvictDrop => EvictDropKeeps(c, s, t);
    case EvictFinish => EvictFinishKeeps(c, s, t);
  }
}
