/** Write protection is lifted when it has to be: a page that the buffer takes to be dirty can be
    written, so a write fault is never answered without effect. */
module Writability {
  import opened PageBuffer
  import opened UmapProtocol
  import opened ProtocolInvariant
  import opened ProtocolFrames
  import opened ProtocolSteps
  import opened ProtocolRuns
  import opened BatchEviction
  import opened LifeCycle

  /** A flush has protected the page and has not cleared its dirty flag yet. */
  ghost predicate BeingFlushed(evicts: map<nat, EvictJob>, d: nat) {
    exists t :: t in evicts && evicts[t].d == d && evicts[t].kind == FLUSH
                && (evicts[t].phase == EWrite || evicts[t].phase == EClear)
  }

  predicate CanBeWritten(mem: map<Page, Frame>, p: Page) { p in mem ==> !mem[p].wp }

  /** For a descriptor, and for a fill item that has nothing left to do but to mark the page PRESENT. */
  ghost predicate PresentOk(pd: Desc, evicts: map<nat, EvictJob>, d: nat, mem: map<Page, Frame>) {
    pd.state == PRESENT && pd.dirty && !BeingFlushed(evicts, d) ==> CanBeWritten(mem, pd.page)
  }

  predicate DoneOk(pd: Desc, phase: FillPhase, mem: map<Page, Frame>) {
    phase == FDone && pd.dirty ==> CanBeWritten(mem, pd.page)
  }

  ghost predicate Raised(desc: seq<Desc>, fills: map<nat, FillJob>, evicts: map<nat, EvictJob>,
                         mem: map<Page, Frame>) {
    && (forall d :: 0 <= d < |desc| ==> PresentOk(desc[d], evicts, d, mem))
    && (forall t :: t in fills && fills[t].d < |desc| ==> DoneOk(desc[fills[t].d], fills[t].phase, mem))
  }

  ghost predicate RaisedI(s: State) { Raised(s.b.desc, s.fills, s.evicts, s.mem) }

  // ----- one step about one descriptor -----

  ghost predicate FillsInUse(desc: seq<Desc>, fills: map<nat, FillJob>) {
    forall t :: t in fills ==> fills[t].d < |desc| && desc[fills[t].d].state != FREE
  }

  ghost predicate OthersFill(fills: map<nat, FillJob>, fills': map<nat, FillJob>, d: nat) {
    forall t :: t in fills' && fills'[t].d != d ==> t in fills && fills[t] == fills'[t]
  }

  ghost predicate OthersFlush(evicts: map<nat, EvictJob>, evicts': map<nat, EvictJob>, d: nat) {
    forall i: nat :: i != d && BeingFlushed(evicts, i) ==> BeingFlushed(evicts', i)
  }

  ghost predicate HereOk(desc: seq<Desc>, fills: map<nat, FillJob>, evicts: map<nat, EvictJob>, mem: map<Page, Frame>,
                         d: nat) {
    d < |desc| && PresentOk(desc[d], evicts, d, mem)
    && forall t :: t in fills && fills[t].d == d ==> DoneOk(desc[d], fills[t].phase, mem)
  }

  lemma RaisedMove(desc: seq<Desc>, desc': seq<Desc>, fills: map<nat, FillJob>, fills': map<nat, FillJob>,
                   evicts: map<nat, EvictJob>, evicts': map<nat, EvictJob>, mem: map<Page, Frame>,
                   mem': map<Page, Frame>, d: nat)
    requires Raised(desc, fills, evicts, mem) && FillsInUse(desc, fills)
    requires OnlyAt(desc, desc', d) && d < |desc|
    requires mem' == mem || (Alone(desc, d) && AgreeOff(mem, mem', desc[d].page))
    requires OthersFill(fills, fills', d) && OthersFlush(evicts, evicts', d)
    requires HereOk(desc', fills', evicts', mem', d)
    ensures Raised(desc', fills', evicts', mem')
  {
    forall i | 0 <= i < |desc'| ensures PresentOk(desc'[i], evicts', i, mem') {
      if i != d {
        assert PresentOk(desc[i], evicts, i, mem);
      }
    }
    forall t | t in fills' && fills'[t].d < |desc'| ensures DoneOk(desc'[fills'[t].d], fills'[t].phase, mem') {
      if fills'[t].d != d {
        assert DoneOk(desc[fills[t].d], fills[t].phase, mem);
      }
    }
  }

  lemma InUse(s: State)
    requires FillsI(s)
    ensures FillsInUse(s.b.desc, s.fills)
  {
    forall t | t in s.fills ensures s.fills[t].d < |s.b.desc| && s.b.desc[s.fills[t].d].state != FREE {
      assert FillOk(s.b.desc[s.fills[t].d], s.fills[t].phase, s.mem, s.store);
    }
  }

  /** An item that is added or changed, for descriptor `d`, says nothing of the others. */
  lemma FlushElsewhere(evicts: map<nat, EvictJob>, t: nat, j: EvictJob)
    requires t in evicts ==> evicts[t].d == j.d
    ensures OthersFlush(evicts, evicts[t := j], j.d)
  {
    forall i: nat | i != j.d && BeingFlushed(evicts, i) ensures BeingFlushed(evicts[t := j], i) {
      var u :| u in evicts && evicts[u].d == i && evicts[u].kind == FLUSH
               && (evicts[u].phase == EWrite || evicts[u].phase == EClear);
      assert u in evicts[t := j] && evicts[t := j][u] == evicts[u];
    }
  }

  lemma FlushGone(evicts: map<nat, EvictJob>, t: nat)
    requires t in evicts
    ensures OthersFlush(evicts, evicts - {t}, evicts[t].d)
  {
    forall i: nat | i != evicts[t].d && BeingFlushed(evicts, i) ensures BeingFlushed(evicts - {t}, i) {
      var u :| u in evicts && evicts[u].d == i && evicts[u].kind == FLUSH
               && (evicts[u].phase == EWrite || evicts[u].phase == EClear);
      assert u in evicts - {t} && (evicts - {t})[u] == evicts[u];
    }
  }

  // ----- the application, the regions and the fault handler -----

  lemma AppWriteRaises(s: State, p: Page, v: Bytes)
    requires RaisedI(s)
    ensures RaisedI(DoAppWrite(s, p, v))
  {
  }

  lemma MapRaises(c: Config, s: State, r: Region, contents: map<Page, Bytes>)
    requires RaisedI(s) && CanMapRegion(s, r, contents)
    ensures RaisedI(DoMapRegion(c, s, r, contents))
  {
    var s' := DoMapRegion(c, s, r, contents);
    forall p | p in s'.mem ensures p in s.mem && s'.mem[p] == s.mem[p] {
    }
  }

  /** A fault changes the buffer, the fill items and the manager's calls. */
  lemma FaultNewIs(c: Config, s: State, p: Page, isWrite: bool, t: nat)
    requires CanFaultNew(c, s, p, t)
    ensures var s' := DoFaultNew(c, s, p, isWrite, t);
            s' == s.(b := NewPage(s.b, p, c.regionOf[p], isWrite),
                     fills := s.fills[t := FillJob(s.b.free[|s.b.free| - 1], FQueued)], thresholds := s'.thresholds)
  {
  }

  lemma FaultNewRaises(c: Config, s: State, p: Page, isWrite: bool, t: nat)
    requires RaisedI(s) && FillsI(s) && ListsI(c, s) && CanFaultNew(c, s, p, t)
    ensures RaisedI(DoFaultNew(c, s, p, isWrite, t))
  {
    var d := s.b.free[|s.b.free| - 1];
    assert d in s.b.free;
    FaultNewIs(c, s, p, isWrite, t);
    NewPageIs(s.b, p, c.regionOf[p], isWrite);
    InUse(s);
    NewFill(s.b.desc, s.fills, s.evicts, s.mem, d, Desc(p, c.regionOf[p], FILLING, isWrite, false, false), t);
  }

  /** A descriptor that had no fill item gets one and is not PRESENT. */
  lemma NewFill(desc: seq<Desc>, fills: map<nat, FillJob>, evicts: map<nat, EvictJob>, mem: map<Page, Frame>, d: nat,
                pd: Desc, t: nat)
    requires Raised(desc, fills, evicts, mem) && FillsInUse(desc, fills) && t !in fills && d < |desc|
    requires (forall u :: u in fills ==> fills[u].d != d) && pd.state != PRESENT
    ensures Raised(desc[d := pd], fills[t := FillJob(d, FQueued)], evicts, mem)
  {
    RaisedMove(desc, desc[d := pd], fills, fills[t := FillJob(d, FQueued)], evicts, evicts, mem, mem, d);
  }

  lemma UpgradeIs(c: Config, s: State, p: Page, t: nat)
    requires CanFaultUpgrade(c, s, p, t)
    ensures var s', d := DoFaultUpgrade(c, s, p, t), s.b.present[p];
            s' == s.(b := UpgradePage(s.b, d), fills := s.fills[t := FillJob(d, FQueued)], thresholds := s'.thresholds)
  {
  }

  lemma UpgradeRaises(c: Config, s: State, p: Page, t: nat)
    requires RaisedI(s) && FillsI(s) && CanFaultUpgrade(c, s, p, t)
    ensures RaisedI(DoFaultUpgrade(c, s, p, t))
  {
    var d := s.b.present[p];
    UpgradeIs(c, s, p, t);
    UpgradePageIs(s.b, d);
    InUse(s);
    NoFillHere(s, d);
    NewFill(s.b.desc, s.fills, s.evicts, s.mem, d, s.b.desc[d].(dirty := true, state := UPDATING), t);
  }

  /** A descriptor that is PRESENT or LEAVING has no fill item. */
  lemma NoFillHere(s: State, d: nat)
    requires FillsI(s) && d < |s.b.desc| && !BeingFilled(s.b.desc[d])
    ensures forall t :: t in s.fills ==> s.fills[t].d != d
  {
    forall t | t in s.fills ensures s.fills[t].d != d {
      assert FillOk(s.b.desc[s.fills[t].d], s.fills[t].phase, s.mem, s.store);
    }
  }

  // ----- fill workers -----

  lemma FillRaises(c: Config, s: State, f: FillStep, t: nat)
    requires RaisedI(s) && IndexI(c, s) && FillsI(s) && CanFill(s, f, t)
    ensures RaisedI(DoFill(s, f, t))
  {
    var s', d := DoFill(s, f, t), s.fills[t].d;
    InUse(s);
    IndexAlone(c, s, d);
    assert FillOk(s.b.desc[d], s.fills[t].phase, s.mem, s.store);
    FillHere(s, f, t);
    RaisedMove(s.b.desc, s'.b.desc, s.fills, s'.fills, s.evicts, s'.evicts, s.mem, s'.mem, d);
  }

  lemma FillHere(s: State, f: FillStep, t: nat)
    requires RaisedI(s) && FillsI(s) && CanFill(s, f, t)
    ensures var s', d := DoFill(s, f, t), s.fills[t].d;
            && OnlyAt(s.b.desc, s'.b.desc, d) && AgreeOff(s.mem, s'.mem, s.b.desc[d].page) && s'.evicts == s.evicts
            && OthersFill(s.fills, s'.fills, d) && HereOk(s'.b.desc, s'.fills, s'.evicts, s'.mem, d)
  {
    var s', d := DoFill(s, f, t), s.fills[t].d;
    assert FillOk(s.b.desc[d], s.fills[t].phase, s.mem, s.store);
    assert DoneOk(s.b.desc[d], s.fills[t].phase, s.mem);
  }

  // ----- evict workers -----

  lemma EvictRaises(c: Config, s: State, e: EvictStep, t: nat)
    requires RaisedI(s) && IndexI(c, s) && FillsI(s) && EvictsI(s) && CanEvict(s, e, t)
    ensures RaisedI(DoEvict(s, e, t))
  {
    var s', d := DoEvict(s, e, t), s.evicts[t].d;
    InUse(s);
    IndexAlone(c, s, d);
    NoFillHere(s, d);
    EvictHere(s, e, t);
    RaisedMove(s.b.desc, s'.b.desc, s.fills, s'.fills, s.evicts, s'.evicts, s.mem, s'.mem, d);
  }

  ghost predicate EvictLocal(s: State, s': State, d: nat) {
    && d < |s.b.desc| && OnlyAt(s.b.desc, s'.b.desc, d) && AgreeOff(s.mem, s'.mem, s.b.desc[d].page)
    && s'.fills == s.fills && OthersFlush(s.evicts, s'.evicts, d) && HereOk(s'.b.desc, s'.fills, s'.evicts, s'.mem, d)
  }

  lemma EvictHere(s: State, e: EvictStep, t: nat)
    requires RaisedI(s) && EvictsI(s) && CanEvict(s, e, t)
    requires forall u :: u in s.fills ==> s.fills[u].d != s.evicts[t].d
    ensures EvictLocal(s, DoEvict(s, e, t), s.evicts[t].d)
  {
    match e
    case EvictStart => StartHere(s, t);
    case EvictProtect => ProtectHere(s, t);
    case EvictWrite => WriteHere(s, t);
    case EvictClear => ClearHere(s, t);
    case EvictDrop => DropHere(s, t);
    case EvictFinish => FinishHere(s, t);
  }

  /** The item moves on and the page stays as it is. */
  lemma StartHere(s: State, t: nat)
    requires RaisedI(s) && EvictsI(s) && CanEvict(s, EvictStart, t)
    requires forall u :: u in s.fills ==> s.fills[u].d != s.evicts[t].d
    ensures EvictLocal(s, DoEvict(s, EvictStart, t), s.evicts[t].d)
  {
    var s', d := DoEvict(s, EvictStart, t), s.evicts[t].d;
    FlushElsewhere(s.evicts, t, s'.evicts[t]);
    assert PresentOk(s.b.desc[d], s.evicts, d, s.mem);
    assert !BeingFlushed(s.evicts, d);
  }

  lemma ProtectHere(s: State, t: nat)
    requires EvictsI(s) && CanEvict(s, EvictProtect, t)
    requires forall u :: u in s.fills ==> s.fills[u].d != s.evicts[t].d
    ensures EvictLocal(s, DoEvict(s, EvictProtect, t), s.evicts[t].d)
  {
    var s', d := DoEvictProtect(s, t), s.evicts[t].d;
    FlushElsewhere(s.evicts, t, s'.evicts[t]);
    assert s'.evicts[t].d == d && s'.evicts[t].phase == EWrite && s'.evicts[t].kind == s.evicts[t].kind;
    if s.evicts[t].kind == FLUSH {
      assert BeingFlushed(s'.evicts, d);
    }
  }

  lemma WriteHere(s: State, t: nat)
    requires EvictsI(s) && CanEvict(s, EvictWrite, t)
    requires forall u :: u in s.fills ==> s.fills[u].d != s.evicts[t].d
    ensures EvictLocal(s, DoEvict(s, EvictWrite, t), s.evicts[t].d)
  {
    var s', d := DoEvictWrite(s, t), s.evicts[t].d;
    FlushElsewhere(s.evicts, t, s'.evicts[t]);
    assert s'.evicts[t].d == d && s'.evicts[t].phase == EClear && s'.evicts[t].kind == s.evicts[t].kind;
    if s.evicts[t].kind == FLUSH {
      assert BeingFlushed(s'.evicts, d);
    }
  }

  lemma ClearHere(s: State, t: nat)
    requires CanEvict(s, EvictClear, t)
    requires forall u :: u in s.fills ==> s.fills[u].d != s.evicts[t].d
    ensures EvictLocal(s, DoEvict(s, EvictClear, t), s.evicts[t].d)
  {
    var s' := DoEvictClear(s, t);
    FlushElsewhere(s.evicts, t, s'.evicts[t]);
    assert !s'.b.desc[s.evicts[t].d].dirty;
  }

  lemma DropHere(s: State, t: nat)
    requires EvictsI(s) && CanEvict(s, EvictDrop, t)
    requires forall u :: u in s.fills ==> s.fills[u].d != s.evicts[t].d
    ensures EvictLocal(s, DoEvict(s, EvictDrop, t), s.evicts[t].d)
  {
    assert !s.b.desc[s.evicts[t].d].dirty;
    if s.evicts[t].kind == FLUSH {
      FlushGone(s.evicts, t);
      FlushDropIs(s, t);
    } else {
      FlushElsewhere(s.evicts, t, s.evicts[t].(phase := EFree));
      OtherDropIs(s, t);
    }
  }

  lemma FlushDropIs(s: State, t: nat)
    requires ValidEvict(s, t) && s.evicts[t].kind == FLUSH
    ensures DoEvictDrop(s, t) == s.(evicts := s.evicts - {t})
  {
  }

  lemma OtherDropIs(s: State, t: nat)
    requires ValidEvict(s, t) && s.evicts[t].kind != FLUSH
    ensures var s' := DoEvictDrop(s, t);
            && s' == s.(evicts := s.evicts[t := s.evicts[t].(phase := EFree)], mem := s'.mem)
            && AgreeOff(s.mem, s'.mem, PageOf(s, s.evicts[t].d))
  {
  }

  lemma FinishHere(s: State, t: nat)
    requires EvictsI(s) && CanEvict(s, EvictFinish, t)
    requires forall u :: u in s.fills ==> s.fills[u].d != s.evicts[t].d
    ensures EvictLocal(s, DoEvict(s, EvictFinish, t), s.evicts[t].d)
  {
    MarkFreeIs(s.b, s.evicts[t].d);
    FlushGone(s.evicts, t);
  }

  // ----- the evict manager, the flushing and the unmapping thread -----

  /** Descriptors only stop being PRESENT, and no flush item is lost. */
  lemma RaisedLess(s: State, s': State)
    requires RaisedI(s) && s'.fills == s.fills && s'.mem == s.mem && |s'.b.desc| == |s.b.desc|
    requires forall d :: 0 <= d < |s.b.desc| ==>
               && s'.b.desc[d].dirty == s.b.desc[d].dirty
               && (s'.b.desc[d].state == PRESENT ==> s.b.desc[d].state == PRESENT)
               && (s'.b.desc[d].page == s.b.desc[d].page || s'.b.desc[d].state == FREE)
    requires forall t :: t in s.fills && s.fills[t].d < |s.b.desc| ==> s'.b.desc[s.fills[t].d] == s.b.desc[s.fills[t].d]
    requires forall d: nat :: BeingFlushed(s.evicts, d) ==> BeingFlushed(s'.evicts, d)
    ensures RaisedI(s')
  {
    forall d | 0 <= d < |s'.b.desc| ensures PresentOk(s'.b.desc[d], s'.evicts, d, s'.mem) {
      assert PresentOk(s.b.desc[d], s.evicts, d, s.mem);
    }
  }

  lemma FreshItem(evicts: map<nat, EvictJob>, t: nat, j: EvictJob)
    requires t !in evicts
    ensures forall d: nat :: BeingFlushed(evicts, d) ==> BeingFlushed(evicts[t := j], d)
  {
    forall d: nat | BeingFlushed(evicts, d) ensures BeingFlushed(evicts[t := j], d) {
      var u :| u in evicts && evicts[u].d == d && evicts[u].kind == FLUSH
               && (evicts[u].phase == EWrite || evicts[u].phase == EClear);
      assert u in evicts[t := j] && evicts[t := j][u] == evicts[u];
    }
  }

  lemma ManageRaises(c: Config, s: State, m: ManagerStep)
    requires RaisedI(s) && FillsI(s) && CanManage(c, s, m)
    ensures RaisedI(DoManage(c, s, m))
  {
    match m
    case ManagerBatch => BatchRaises(s);
    case ManagerSend(t) =>
      FreshItem(s.evicts, t, EvictJob(s.hand[0], EVICT, EQueued));
      RaisedLess(s, DoSend(s, t));
    case _ => RaisedLess(s, DoManage(c, s, m));
  }

  lemma BatchRaises(s: State)
    requires RaisedI(s) && FillsI(s)
    ensures RaisedI(DoBatch(s))
  {
    var s' := DoBatch(s);
    BatchConserves(s.b.desc, s.b.busy, MAX_EVICTED);
    forall t | t in s.fills && s.fills[t].d < |s.b.desc| ensures s'.b.desc[s.fills[t].d] == s.b.desc[s.fills[t].d] {
      assert FillOk(s.b.desc[s.fills[t].d], s.fills[t].phase, s.mem, s.store);
    }
    RaisedLess(s, s');
  }

  lemma FlushRaises(s: State, f: FlushStep)
    requires RaisedI(s) && CanFlush(s, f)
    ensures RaisedI(DoFlush(s, f))
  {
    match f
    case FlushScan(t) =>
      FlushScanIs(s, t);
      FreshItem(s.evicts, t, EvictJob(s.b.busy[s.flush.next], FLUSH, EQueued));
      RaisedLess(s, DoFlushScan(s, t));
    case _ => RaisedLess(s, DoFlush(s, f));
  }

  lemma UnmapRaises(c: Config, s: State, u: UnmapStep)
    requires Inv(c, s) && RaisedI(s) && CanUnmap(s, u)
    ensures RaisedI(DoUnmap(s, u))
  {
    match u
    case UnmapPick(d) => PickRaises(s, d);
    case UnmapLeave(t) => LeaveRaises(s, t);
    case DrainOldest => DrainOldestRaises(s);
    case DrainSend(t) => DrainSendRaises(s, t);
    case DrainFree => DrainFreeRaises(s);
    case _ => QuietUnmap(s, u);
  }

  /** The other steps change lists, regions and the loop's own state. */
  lemma QuietUnmap(s: State, u: UnmapStep)
    requires CanUnmap(s, u)
    requires !u.UnmapPick? && !u.UnmapLeave? && !u.DrainOldest? && !u.DrainSend? && !u.DrainFree?
    ensures var s' := DoUnmap(s, u);
            s'.b.desc == s.b.desc && s'.fills == s.fills && s'.evicts == s.evicts && s'.mem == s.mem
  {
  }

  lemma PickRaises(s: State, d: nat)
    requires RaisedI(s) && FillsI(s) && CanPick(s, d)
    ensures RaisedI(DoPick(s, d))
  {
    var s' := DoPick(s, d);
    assert s'.b.desc == s.b.desc[d := s.b.desc[d].(deferred := s.b.desc[d].state != LEAVING)];
    assert s'.fills == s.fills && s'.evicts == s.evicts && s'.mem == s.mem;
    forall i | 0 <= i < |s.b.desc| ensures PresentOk(s'.b.desc[i], s.evicts, i, s.mem) {
      assert PresentOk(s.b.desc[i], s.evicts, i, s.mem);
    }
    forall t | t in s.fills ensures DoneOk(s'.b.desc[s.fills[t].d], s.fills[t].phase, s.mem) {
      assert DoneOk(s.b.desc[s.fills[t].d], s.fills[t].phase, s.mem);
    }
  }

  lemma LeaveRaises(s: State, t: nat)
    requires RaisedI(s) && FillsI(s) && CanLeave(s, t)
    ensures RaisedI(DoLeave(s, t))
  {
    LeaveIs(s, t);
    NoFillHere(s, s.unmap.d);
    FreshItem(s.evicts, t, EvictJob(s.unmap.d, EVICT, EQueued));
    RaisedLess(s, DoLeave(s, t));
  }

  lemma DrainOldestRaises(s: State)
    requires RaisedI(s) && FillsI(s) && CanDrainOldest(s)
    ensures RaisedI(DoDrainOldest(s))
  {
    DrainOldestIs(s);
    NoFillHere(s, s.b.busy[|s.b.busy| - 1]);
    RaisedLess(s, DoDrainOldest(s));
  }

  lemma DrainSendRaises(s: State, t: nat)
    requires RaisedI(s) && CanDrainSend(s, t)
    ensures RaisedI(DoDrainSend(s, t))
  {
    FreshItem(s.evicts, t, EvictJob(s.unmap.d, FAST_EVICT, EQueued));
    RaisedLess(s, DoDrainSend(s, t));
  }

  lemma DrainFreeRaises(s: State)
    requires RaisedI(s) && FillsI(s) && EvictsI(s) && CanDrainFree(s)
    ensures RaisedI(DoDrainFree(s))
  {
    assert Held(s.hand, s.unmap, s.unmap.d);
    MarkFreeIs(s.b, s.unmap.d);
    NoFillHere(s, s.unmap.d);
    RaisedLess(s, DoDrainFree(s));
  }

  // ----- every step of every run -----

  lemma StepRaises(c: Config, s: State, l: Label)
    requires Inv(c, s) && RaisedI(s) && Can(c, s, l)
    ensures RaisedI(Do(c, s, l))
  {
    match l
    case AppWrite(p, v) => AppWriteRaises(s, p, v);
    case MapRegion(r, contents) => MapRaises(c, s, r, contents);
    case FaultNew(p, isWrite, t) => FaultNewRaises(c, s, p, isWrite, t);
    case FaultUpgrade(p, t) => UpgradeRaises(c, s, p, t);
    case FaultSpurious(_, _) =>
    case Fill(f, t) => FillRaises(c, s, f, t);
    case Evict(e, t) => EvictRaises(c, s, e, t);
    case Manage(m) => ManageRaises(c, s, m);
    case FlushBy(f) => FlushRaises(s, f);
    case UnmapBy(u) => UnmapRaises(c, s, u);
  }

  lemma {:induction false} RunRaises(c: Config, ss: seq<State>, ls: seq<Label>, i: nat)
    requires IsRun(c, ss, ls) && i < |ss|
    ensures RaisedI(ss[i])
  {
    if i > 0 {
      RunRaises(c, ss, ls, i - 1);
      RunKeeps(c, ss, ls, i - 1);
      StepAt(c, ss, ls, i - 1);
      StepRaises(c, ss[i - 1], ls[i - 1]);
    }
  }

  /** In every state of every run a PRESENT page is mapped, and it can be written iff it is dirty and
      no flush is between protecting it and clearing its dirty flag. */
  lemma WritableIffDirty(c: Config, ss: seq<State>, ls: seq<Label>, i: nat, d: nat)
    requires IsRun(c, ss, ls) && i < |ss| && d < |ss[i].b.desc| && ss[i].b.desc[d].state == PRESENT
    ensures ss[i].b.desc[d].page in ss[i].mem
    ensures !ss[i].mem[ss[i].b.desc[d].page].wp <==> ss[i].b.desc[d].dirty && !BeingFlushed(ss[i].evicts, d)
  {
    RunKeeps(c, ss, ls, i);
    RunRaises(c, ss, ls, i);
    var s := ss[i];
    assert PresentOk(s.b.desc[d], s.evicts, d, s.mem);
    assert CleanOk(s.b.desc[d], s.mem, s.store);
    if BeingFlushed(s.evicts, d) {
      var t :| t in s.evicts && s.evicts[t].d == d && s.evicts[t].kind == FLUSH
               && (s.evicts[t].phase == EWrite || s.evicts[t].phase == EClear);
      assert EvictOk(s.b.desc[d], s.evicts[t], s.mem, s.store, s.unmap, s.flush);
    }
  }

  // ----- only what the application means to write is dirty -----

  /** A write fault on the page. */
  predicate WriteFault(l: Label, p: Page) {
    (l.FaultNew? && l.p == p && l.isWrite) || (l.FaultUpgrade? && l.p == p)
  }

  ghost predicate NotDirtier(pd: Desc, pd': Desc) {
    pd'.state != FREE && pd'.dirty ==> pd.state != FREE && pd.dirty && pd.page == pd'.page
  }

  /** A step makes a descriptor in use dirty only if it is a write fault on its page. */
  lemma DirtyStep(c: Config, s: State, l: Label, d: nat)
    requires Inv(c, s) && Can(c, s, l) && d < |s.b.desc|
    ensures |Do(c, s, l).b.desc| == |s.b.desc|
    ensures NotDirtier(s.b.desc[d], Do(c, s, l).b.desc[d]) || WriteFault(l, Do(c, s, l).b.desc[d].page)
  {
    match l
    case FaultNew(p, isWrite, t) => FaultNewDirty(c, s, p, isWrite, t, d);
    case FaultUpgrade(p, t) => UpgradeDirty(c, s, p, t, d);
    case Fill(f, t) => FillDirty(s, f, t, d);
    case Evict(e, t) => EvictDirty(s, e, t, d);
    case Manage(m) => ManageDirty(c, s, m, d);
    case UnmapBy(u) => UnmapDirty(c, s, u, d);
    case _ => OthersStay(c, s, l);
  }

  lemma FaultNewDirty(c: Config, s: State, p: Page, isWrite: bool, t: nat, d: nat)
    requires ListsI(c, s) && CanFaultNew(c, s, p, t) && d < |s.b.desc|
    ensures var s' := DoFaultNew(c, s, p, isWrite, t);
            && |s'.b.desc| == |s.b.desc|
            && (NotDirtier(s.b.desc[d], s'.b.desc[d]) || (isWrite && s'.b.desc[d].page == p))
  {
    FaultNewIs(c, s, p, isWrite, t);
    assert s.b.free[|s.b.free| - 1] in s.b.free;
    NewPageIs(s.b, p, c.regionOf[p], isWrite);
  }

  lemma UpgradeDirty(c: Config, s: State, p: Page, t: nat, d: nat)
    requires IndexI(c, s) && CanFaultUpgrade(c, s, p, t) && d < |s.b.desc|
    ensures var s' := DoFaultUpgrade(c, s, p, t);
            && |s'.b.desc| == |s.b.desc|
            && (NotDirtier(s.b.desc[d], s'.b.desc[d]) || s'.b.desc[d].page == p)
  {
    UpgradeIs(c, s, p, t);
    UpgradePageIs(s.b, s.b.present[p]);
  }

  lemma FillDirty(s: State, f: FillStep, t: nat, d: nat)
    requires CanFill(s, f, t) && FillsI(s) && d < |s.b.desc|
    ensures |DoFill(s, f, t).b.desc| == |s.b.desc| && NotDirtier(s.b.desc[d], DoFill(s, f, t).b.desc[d])
  {
    assert FillOk(s.b.desc[s.fills[t].d], s.fills[t].phase, s.mem, s.store);
  }

  lemma EvictDirty(s: State, e: EvictStep, t: nat, d: nat)
    requires CanEvict(s, e, t) && EvictsI(s) && d < |s.b.desc|
    ensures |DoEvict(s, e, t).b.desc| == |s.b.desc| && NotDirtier(s.b.desc[d], DoEvict(s, e, t).b.desc[d])
  {
    if e == EvictFinish {
      MarkFreeIs(s.b, s.evicts[t].d);
    }
  }

  lemma ManageDirty(c: Config, s: State, m: ManagerStep, d: nat)
    requires CanManage(c, s, m) && d < |s.b.desc|
    ensures |DoManage(c, s, m).b.desc| == |s.b.desc| && NotDirtier(s.b.desc[d], DoManage(c, s, m).b.desc[d])
  {
    BatchConserves(s.b.desc, s.b.busy, MAX_EVICTED);
  }

  lemma UnmapDirty(c: Config, s: State, u: UnmapStep, d: nat)
    requires CanUnmap(s, u) && EvictsI(s) && d < |s.b.desc|
    ensures |DoUnmap(s, u).b.desc| == |s.b.desc| && NotDirtier(s.b.desc[d], DoUnmap(s, u).b.desc[d])
  {
    match u
    case UnmapPick(e) => PickDirty(s, e, d);
    case UnmapLeave(t) => LeaveIs(s, t);
    case DrainOldest => DrainOldestIs(s);
    case DrainSend(t) =>
    case DrainFree =>
      assert Held(s.hand, s.unmap, s.unmap.d);
      MarkFreeIs(s.b, s.unmap.d);
    case _ => QuietUnmap(s, u);
  }

  lemma PickDirty(s: State, e: nat, d: nat)
    requires CanPick(s, e) && d < |s.b.desc|
    ensures |DoPick(s, e).b.desc| == |s.b.desc| && NotDirtier(s.b.desc[d], DoPick(s, e).b.desc[d])
  {
  }

  /** In every run a dirty page has had a write fault: what the application only reads is never
      written to a store. */
  lemma {:induction false} DirtyNeedsWriteFault(c: Config, ss: seq<State>, ls: seq<Label>, i: nat, d: nat)
    returns (k: nat)
    requires IsRun(c, ss, ls) && i < |ss| && d < |ss[i].b.desc|
    requires ss[i].b.desc[d].state != FREE && ss[i].b.desc[d].dirty
    ensures k < i && WriteFault(ls[k], ss[i].b.desc[d].page)
    decreases i
  {
    if i > 0 {
      DirtyBefore(c, ss, ls, i - 1, d);
      if WriteFault(ls[i - 1], ss[i].b.desc[d].page) {
        k := i - 1;
      } else {
        k := DirtyNeedsWriteFault(c, ss, ls, i - 1, d);
      }
    }
  }

  lemma DirtyBefore(c: Config, ss: seq<State>, ls: seq<Label>, i: nat, d: nat)
    requires IsRun(c, ss, ls) && i < |ls| && d < |ss[i + 1].b.desc|
    ensures d < |ss[i].b.desc|
    ensures NotDirtier(ss[i].b.desc[d], ss[i + 1].b.desc[d]) || WriteFault(ls[i], ss[i + 1].b.desc[d].page)
  {
    RunKeeps(c, ss, ls, i);
    RunKeeps(c, ss, ls, i + 1);
    StepAt(c, ss, ls, i);
    DirtyStep(c, ss[i], ls[i], d);
  }

  // ----- a write fault leads to a page that can be written -----

  /** With the lock free a page the handler takes to be dirty can be written at once, so a write fault
      that it leaves alone was not needed. */
  lemma SpuriousCanWrite(c: Config, ss: seq<State>, ls: seq<Label>, i: nat, p: Page)
    requires IsRun(c, ss, ls) && i < |ss| && CanFaultSpurious(c, ss[i], p, true)
    ensures CanAppWrite(c, ss[i], p)
  {
    var s, d := ss[i], ss[i].b.present[p];
    RunKeeps(c, ss, ls, i);
    WritableIffDirty(c, ss, ls, i, d);
    NoneFlushed(c, s, d);
  }

  lemma NoneFlushed(c: Config, s: State, d: nat)
    requires EvictsI(s) && LockFree(s)
    ensures !BeingFlushed(s.evicts, d)
  {
    forall t | t in s.evicts ensures s.evicts[t].kind != FLUSH {
      assert EvictOk(s.b.desc[s.evicts[t].d], s.evicts[t], s.mem, s.store, s.unmap, s.flush);
    }
  }

  /** Item `t` serves a write to the page. */
  ghost predicate Serves(c: Config, s: State, p: Page, t: nat, phase: FillPhase) {
    && LockFree(s) && Accessible(c, s, p) && p in s.b.present && s.b.present[p] < |s.b.desc|
    && t in s.fills && s.fills[t] == FillJob(s.b.present[p], phase)
    && s.b.desc[s.b.present[p]].page == p && s.b.desc[s.b.present[p]].dirty
    && BeingFilled(s.b.desc[s.b.present[p]])
  }

  lemma FinishServes(c: Config, s: State, p: Page, t: nat)
    requires Serves(c, s, p, t, FDone)
    ensures CanFill(s, FillFinish, t) && CanFaultSpurious(c, DoFill(s, FillFinish, t), p, true)
  {
  }

  lemma LiftServes(c: Config, s: State, p: Page, t: nat)
    requires Serves(c, s, p, t, FQueued) && s.b.desc[s.b.present[p]].dataPresent
    ensures CanFill(s, FillStart, t)
    ensures var s1 := DoFill(s, FillStart, t);
            CanFill(s1, FillLift, t) && Serves(c, DoFill(s1, FillLift, t), p, t, FDone)
  {
  }

  lemma UpgradeServes(c: Config, s: State, p: Page, t: nat)
    requires Inv(c, s) && CanFaultUpgrade(c, s, p, t)
    ensures var s1 := DoFaultUpgrade(c, s, p, t);
            Serves(c, s1, p, t, FQueued) && s1.b.desc[s1.b.present[p]].dataPresent
  {
    UpgradeIs(c, s, p, t);
    UpgradePageIs(s.b, s.b.present[p]);
  }

  /** Each stage as a longer run. */
  lemma AfterUpgrade(c: Config, ss: seq<State>, ls: seq<Label>, p: Page, t: nat) returns (ss': seq<State>)
    requires IsRun(c, ss, ls) && CanFaultUpgrade(c, ss[|ls|], p, t)
    ensures IsRun(c, ss', ls + [FaultUpgrade(p, t)]) && ss <= ss'
    ensures var s := ss'[|ls| + 1]; Serves(c, s, p, t, FQueued) && s.b.desc[s.b.present[p]].dataPresent
  {
    RunKeeps(c, ss, ls, |ls|);
    UpgradeServes(c, ss[|ls|], p, t);
    ss' := ss + [DoFaultUpgrade(c, ss[|ls|], p, t)];
    OneMore(c, ss, ls, FaultUpgrade(p, t), ss'[|ls| + 1]);
  }

  lemma AfterLift(c: Config, ss: seq<State>, ls: seq<Label>, p: Page, t: nat) returns (ss': seq<State>)
    requires IsRun(c, ss, ls)
    requires var s := ss[|ls|]; Serves(c, s, p, t, FQueued) && s.b.desc[s.b.present[p]].dataPresent
    ensures IsRun(c, ss', ls + [Fill(FillStart, t)] + [Fill(FillLift, t)]) && ss <= ss'
    ensures Serves(c, ss'[|ls| + 2], p, t, FDone)
  {
    var s := ss[|ls|];
    LiftServes(c, s, p, t);
    var s1 := DoFill(s, FillStart, t);
    var s2 := DoFill(s1, FillLift, t);
    OneMore(c, ss, ls, Fill(FillStart, t), s1);
    OneMore(c, ss + [s1], ls + [Fill(FillStart, t)], Fill(FillLift, t), s2);
    ss' := ss + [s1] + [s2];
  }

  lemma AfterFinish(c: Config, ss: seq<State>, ls: seq<Label>, p: Page, t: nat) returns (ss': seq<State>)
    requires IsRun(c, ss, ls) && Serves(c, ss[|ls|], p, t, FDone)
    ensures IsRun(c, ss', ls + [Fill(FillFinish, t)]) && ss <= ss' && CanAppWrite(c, ss'[|ls| + 1], p)
  {
    FinishServes(c, ss[|ls|], p, t);
    ss' := ss + [DoFill(ss[|ls|], FillFinish, t)];
    OneMore(c, ss, ls, Fill(FillFinish, t), ss'[|ls| + 1]);
    SpuriousCanWrite(c, ss', ls + [Fill(FillFinish, t)], |ls| + 1, p);
  }

  /** From any clean PRESENT page of an open region, with the lock free, the fault and its fill item
      lead to a state in which the page can be written. */
  lemma UpgradeReachesWrite(c: Config, ss: seq<State>, ls: seq<Label>, p: Page, t: nat) returns (ss': seq<State>)
    requires IsRun(c, ss, ls) && CanFaultUpgrade(c, ss[|ls|], p, t)
    ensures IsRun(c, ss', ls + [FaultUpgrade(p, t)] + [Fill(FillStart, t)] + [Fill(FillLift, t)]
                          + [Fill(FillFinish, t)])
    ensures ss <= ss' && CanAppWrite(c, ss'[|ls| + 4], p)
  {
    ss' := AfterUpgrade(c, ss, ls, p, t);
    ss' := AfterLift(c, ss', ls + [FaultUpgrade(p, t)], p, t);
    ss' := AfterFinish(c, ss', ls + [FaultUpgrade(p, t)] + [Fill(FillStart, t)] + [Fill(FillLift, t)], p, t);
  }

  // ----- the same for a page that is not in the buffer -----

  lemma NewServes(c: Config, s: State, p: Page, t: nat)
    requires Inv(c, s) && CanFaultNew(c, s, p, t)
    ensures var s1 := DoFaultNew(c, s, p, true, t);
            Serves(c, s1, p, t, FQueued) && !s1.b.desc[s1.b.present[p]].dataPresent && p in s1.store
  {
    var d := s.b.free[|s.b.free| - 1];
    assert d in s.b.free;
    FaultNewIs(c, s, p, true, t);
    NewPageIs(s.b, p, c.regionOf[p], true);
  }

  lemma AfterNew(c: Config, ss: seq<State>, ls: seq<Label>, p: Page, t: nat) returns (ss': seq<State>)
    requires IsRun(c, ss, ls) && CanFaultNew(c, ss[|ls|], p, t)
    ensures IsRun(c, ss', ls + [FaultNew(p, true, t)]) && ss <= ss'
    ensures var s := ss'[|ls| + 1];
            Serves(c, s, p, t, FQueued) && !s.b.desc[s.b.present[p]].dataPresent && p in s.store
  {
    RunKeeps(c, ss, ls, |ls|);
    NewServes(c, ss[|ls|], p, t);
    ss' := ss + [DoFaultNew(c, ss[|ls|], p, true, t)];
    OneMore(c, ss, ls, FaultNew(p, true, t), ss'[|ls| + 1]);
  }

  predicate Loading(s: State, p: Page) {
    p in s.store && p in s.b.present && s.b.present[p] < |s.b.desc| && !s.b.desc[s.b.present[p]].dataPresent
  }

  lemma StartLoads(c: Config, s: State, p: Page, t: nat)
    requires Serves(c, s, p, t, FQueued) && Loading(s, p)
    ensures CanFill(s, FillStart, t)
    ensures Serves(c, DoFill(s, FillStart, t), p, t, FLoad) && Loading(DoFill(s, FillStart, t), p)
  {
  }

  lemma CopyServes(c: Config, s: State, p: Page, t: nat)
    requires Serves(c, s, p, t, FLoad) && Loading(s, p)
    ensures CanFill(s, FillLoad, t)
    ensures var s1 := DoFill(s, FillLoad, t);
            CanFill(s1, FillCopy, t) && Serves(c, DoFill(s1, FillCopy, t), p, t, FDone)
  {
  }

  lemma AfterCopy(c: Config, ss: seq<State>, ls: seq<Label>, p: Page, t: nat) returns (ss': seq<State>)
    requires IsRun(c, ss, ls) && Serves(c, ss[|ls|], p, t, FLoad) && Loading(ss[|ls|], p)
    ensures IsRun(c, ss', ls + [Fill(FillLoad, t)] + [Fill(FillCopy, t)]) && ss <= ss'
    ensures Serves(c, ss'[|ls| + 2], p, t, FDone)
  {
    var s := ss[|ls|];
    CopyServes(c, s, p, t);
    var s1 := DoFill(s, FillLoad, t);
    var s2 := DoFill(s1, FillCopy, t);
    OneMore(c, ss, ls, Fill(FillLoad, t), s1);
    OneMore(c, ss + [s1], ls + [Fill(FillLoad, t)], Fill(FillCopy, t), s2);
    ss' := ss + [s1] + [s2];
  }

  lemma AfterStart(c: Config, ss: seq<State>, ls: seq<Label>, p: Page, t: nat) returns (ss': seq<State>)
    requires IsRun(c, ss, ls) && Serves(c, ss[|ls|], p, t, FQueued) && Loading(ss[|ls|], p)
    ensures IsRun(c, ss', ls + [Fill(FillStart, t)]) && ss <= ss'
    ensures Serves(c, ss'[|ls| + 1], p, t, FLoad) && Loading(ss'[|ls| + 1], p)
  {
    StartLoads(c, ss[|ls|], p, t);
    ss' := ss + [DoFill(ss[|ls|], FillStart, t)];
    OneMore(c, ss, ls, Fill(FillStart, t), ss'[|ls| + 1]);
  }

  /** From any state in which a write fault on a page that is not in the buffer is taken, the fault and
      its fill item lead to a state in which the page can be written. */
  lemma NewPageReachesWrite(c: Config, ss: seq<State>, ls: seq<Label>, p: Page, t: nat) returns (ss': seq<State>)
    requires IsRun(c, ss, ls) && CanFaultNew(c, ss[|ls|], p, t)
    ensures IsRun(c, ss', ls + [FaultNew(p, true, t)] + [Fill(FillStart, t)] + [Fill(FillLoad, t)] + [Fill(FillCopy, t)]
                          + [Fill(FillFinish, t)])
    ensures ss <= ss' && CanAppWrite(c, ss'[|ls| + 5], p)
  {
    ss' := AfterNew(c, ss, ls, p, t);
    ss' := AfterStart(c, ss', ls + [FaultNew(p, true, t)], p, t);
    ss' := AfterCopy(c, ss', ls + [FaultNew(p, true, t)] + [Fill(FillStart, t)], p, t);
    ss' := AfterFinish(c, ss', ls + [FaultNew(p, true, t)] + [Fill(FillStart, t)] + [Fill(FillLoad, t)]
                             + [Fill(FillCopy, t)], p, t);
  }
}
