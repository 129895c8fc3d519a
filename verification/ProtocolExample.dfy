/** Concrete runs: a flush and a drain that meet a page in the evict manager's hand. */
module ProtocolExample {
  import opened PageBuffer
  import opened UmapProtocol
  import opened ProtocolRuns

  const CONFIG := Config(1, 0, 1, map[4096 := 7])
  const OLD: Bytes := [0]
  const NEW: Bytes := [1]

  /** The state of the example in which one page of one region is in the buffer. */
  function OnePage(pd: Desc, fills: map<nat, FillJob>, managing: bool, thresholds: nat,
                   mem: map<Page, Frame>, logical: Bytes): State {
    State(Buf([pd], [], [0], map[4096 := 0], {(7, 0)}, false), fills, map[], [], managing, thresholds,
          NoUnmap, NoFlush, {7}, mem, map[4096 := OLD], map[4096 := logical], false)
  }

  function Empty(open: set<Region>): State {
    State(Buf([Desc(NULL_PAGE, 0, FREE, false, false, false)], [0], [], map[], {}, false), map[], map[], [], false, 0,
          NoUnmap, NoFlush, open, map[], map[4096 := OLD], map[4096 := OLD], false)
  }

  function Page0(state: DState, data: bool): Desc { Desc(4096, 7, state, true, false, data) }

  /** The page is in the manager's hand and the flush, finding the deque empty, is done. */
  function Missed(flush: Flush): State {
    State(Buf([Page0(LEAVING, true)], [], [], map[4096 := 0], {(7, 0)}, false), map[], map[], [0], true, 0,
          NoUnmap, flush, {7}, map[4096 := Frame(NEW, false)], map[4096 := OLD], map[4096 := NEW], false)
  }

  lemma FirstSteps()
    ensures Init(CONFIG, Empty({}))
    ensures Next(CONFIG, Empty({}), MapRegion(7, map[4096 := OLD]), Empty({7}))
    ensures CanFlushEnd(Missed(Flushing(0, {}))) && !Durable(Missed(Flushing(0, {})), 4096)
  {
    assert DoMapRegion(CONFIG, Empty({}), 7, map[4096 := OLD]) == Empty({7});
    assert OLD[0] != NEW[0];
  }

  lemma FaultStep()
    ensures Next(CONFIG, Empty({7}), FaultNew(4096, true, 0),
                 OnePage(Page0(FILLING, false), map[0 := FillJob(0, FQueued)], false, 1, map[], OLD))
  {
    assert DoFaultNew(CONFIG, Empty({7}), 4096, true, 0)
        == OnePage(Page0(FILLING, false), map[0 := FillJob(0, FQueued)], false, 1, map[], OLD);
  }

  lemma LoadSteps()
    ensures Next(CONFIG, OnePage(Page0(FILLING, false), map[0 := FillJob(0, FQueued)], false, 1, map[], OLD),
                 Fill(FillStart, 0),
                 OnePage(Page0(FILLING, false), map[0 := FillJob(0, FLoad)], false, 1, map[], OLD))
    ensures Next(CONFIG, OnePage(Page0(FILLING, false), map[0 := FillJob(0, FLoad)], false, 1, map[], OLD),
                 Fill(FillLoad, 0),
                 OnePage(Page0(FILLING, false), map[0 := FillJob(0, FCopy(OLD))], false, 1, map[], OLD))
  {
  }

  lemma CopySteps()
    ensures Next(CONFIG, OnePage(Page0(FILLING, false), map[0 := FillJob(0, FCopy(OLD))], false, 1, map[], OLD),
                 Fill(FillCopy, 0),
                 OnePage(Page0(FILLING, true), map[0 := FillJob(0, FDone)], false, 1,
                         map[4096 := Frame(OLD, false)], OLD))
    ensures Next(CONFIG, OnePage(Page0(FILLING, true), map[0 := FillJob(0, FDone)], false, 1,
                                 map[4096 := Frame(OLD, false)], OLD),
                 Fill(FillFinish, 0),
                 OnePage(Page0(PRESENT, true), map[], false, 1, map[4096 := Frame(OLD, false)], OLD))
  {
  }

  lemma WriteStep()
    ensures Next(CONFIG, OnePage(Page0(PRESENT, true), map[], false, 1, map[4096 := Frame(OLD, false)], OLD),
                 AppWrite(4096, NEW),
                 OnePage(Page0(PRESENT, true), map[], false, 1, map[4096 := Frame(NEW, false)], NEW))
  {
  }

  lemma EvictSteps()
    ensures Next(CONFIG, OnePage(Page0(PRESENT, true), map[], false, 1, map[4096 := Frame(NEW, false)], NEW),
                 Manage(ManagerWake),
                 OnePage(Page0(PRESENT, true), map[], true, 0, map[4096 := Frame(NEW, false)], NEW))
    ensures Next(CONFIG, OnePage(Page0(PRESENT, true), map[], true, 0, map[4096 := Frame(NEW, false)], NEW),
                 Manage(ManagerBatch), Missed(NoFlush))
    ensures Next(CONFIG, Missed(NoFlush), FlushBy(FlushBegin), Missed(Flushing(0, {})))
  {
    var desc := [Page0(PRESENT, true)];
    assert ScanOldest(desc, [], MAX_EVICTED - 1) == Split([], [], []);
    assert ScanOldest(desc, [0], MAX_EVICTED) == Split([], [], [0]);
    assert Depart(desc, [0]) == [Page0(LEAVING, true)];
    assert DirtyBusy(Missed(NoFlush)) == {};
  }

  /** A run to the state in which the one page is present, written and dirty, and the evict
      manager has been called. */
  lemma WrittenPage() returns (ss: seq<State>, ls: seq<Label>)
    ensures IsRun(CONFIG, ss, ls)
    ensures ss[|ls|] == OnePage(Page0(PRESENT, true), map[], false, 1, map[4096 := Frame(NEW, false)], NEW)
  {
    var frame := map[4096 := Frame(OLD, false)];
    ls := [MapRegion(7, map[4096 := OLD]), FaultNew(4096, true, 0), Fill(FillStart, 0), Fill(FillLoad, 0),
           Fill(FillCopy, 0), Fill(FillFinish, 0), AppWrite(4096, NEW)];
    ss := [Empty({}), Empty({7}),
           OnePage(Page0(FILLING, false), map[0 := FillJob(0, FQueued)], false, 1, map[], OLD),
           OnePage(Page0(FILLING, false), map[0 := FillJob(0, FLoad)], false, 1, map[], OLD),
           OnePage(Page0(FILLING, false), map[0 := FillJob(0, FCopy(OLD))], false, 1, map[], OLD),
           OnePage(Page0(FILLING, true), map[0 := FillJob(0, FDone)], false, 1, frame, OLD),
           OnePage(Page0(PRESENT, true), map[], false, 1, frame, OLD),
           OnePage(Page0(PRESENT, true), map[], false, 1, map[4096 := Frame(NEW, false)], NEW)];
    FirstSteps();
    FaultStep();
    LoadSteps();
    CopySteps();
    WriteStep();
  }

  lemma ThreeMore(ss: seq<State>, ls: seq<Label>, l1: Label, s1: State, l2: Label, s2: State, l3: Label, s3: State)
    requires IsRun(CONFIG, ss, ls) && Next(CONFIG, ss[|ls|], l1, s1)
    requires Next(CONFIG, s1, l2, s2) && Next(CONFIG, s2, l3, s3)
    ensures IsRun(CONFIG, ss + [s1] + [s2] + [s3], ls + [l1] + [l2] + [l3])
  {
    OneMore(CONFIG, ss, ls, l1, s1);
    OneMore(CONFIG, ss + [s1], ls + [l1], l2, s2);
    OneMore(CONFIG, ss + [s1] + [s2], ls + [l1] + [l2], l3, s3);
  }

  /** A run that ends with a flush about to return while the application's last write is
      not in the store: the only dirty page is in the evict manager's hand. */
  lemma FlushCanMissAHeldPage() returns (ss: seq<State>, ls: seq<Label>)
    ensures IsRun(CONFIG, ss, ls) && |ls| > 0
    ensures CanFlushEnd(ss[|ls|]) && ss[|ls|].hand == [0] && !Durable(ss[|ls|], 4096)
  {
    ss, ls := WrittenPage();
    FirstSteps();
    EvictSteps();
    var s1 := OnePage(Page0(PRESENT, true), map[], true, 0, map[4096 := Frame(NEW, false)], NEW);
    ThreeMore(ss, ls, Manage(ManagerWake), s1, Manage(ManagerBatch), Missed(NoFlush),
              FlushBy(FlushBegin), Missed(Flushing(0, {})));
    ss := ss + [s1] + [Missed(NoFlush)] + [Missed(Flushing(0, {}))];
    ls := ls + [Manage(ManagerWake)] + [Manage(ManagerBatch)] + [FlushBy(FlushBegin)];
  }

  // ----- the same for draining -----

  /** The last region is being unmapped while the one page is still in the buffer. */
  function Unmapping(managing: bool, thresholds: nat): State {
    OnePage(Page0(PRESENT, true), map[], managing, thresholds, map[4096 := Frame(NEW, false)], NEW)
      .(open := {}, unmap := Drain(7))
  }

  /** The page is in the manager's hand and the loop, finding the deque empty, is done. */
  function Drained0(): State { Missed(NoFlush).(open := {}, unmap := Drain(7)) }

  lemma DrainSteps()
    ensures Next(CONFIG, OnePage(Page0(PRESENT, true), map[], false, 1, map[4096 := Frame(NEW, false)], NEW),
                 UnmapBy(UnmapBegin(7)), Unmapping(false, 1))
    ensures Next(CONFIG, Unmapping(false, 1), Manage(ManagerWake), Unmapping(true, 0))
    ensures Next(CONFIG, Unmapping(true, 0), Manage(ManagerBatch), Drained0())
  {
    assert {7} - {7} == {};
    var desc := [Page0(PRESENT, true)];
    assert ScanOldest(desc, [], MAX_EVICTED - 1) == Split([], [], []);
    assert ScanOldest(desc, [0], MAX_EVICTED) == Split([], [], [0]);
    assert Depart(desc, [0]) == [Page0(LEAVING, true)];
  }

  /** A run in which draining is over while the manager holds the last page: the present map is
      not empty and the application's last write is not in the store. */
  lemma DrainCanMissAHeldPage() returns (ss: seq<State>, ls: seq<Label>)
    ensures IsRun(CONFIG, ss, ls) && |ls| > 0
    ensures var s := ss[|ls|]; Drained(s) && s.hand == [0] && s.b.present != map[] && !Durable(s, 4096)
  {
    ss, ls := WrittenPage();
    DrainSteps();
    ThreeMore(ss, ls, UnmapBy(UnmapBegin(7)), Unmapping(false, 1), Manage(ManagerWake), Unmapping(true, 0),
              Manage(ManagerBatch), Drained0());
    ss := ss + [Unmapping(false, 1)] + [Unmapping(true, 0)] + [Drained0()];
    ls := ls + [UnmapBy(UnmapBegin(7))] + [Manage(ManagerWake)] + [Manage(ManagerBatch)];
    assert 4096 in Drained0().b.present && OLD[0] != NEW[0];
  }
}
