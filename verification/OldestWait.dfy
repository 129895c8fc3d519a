/** Taking the oldest page in two parts.  The code waits for the descriptor at the back of the
    deque and, when the wait is over, pops whatever is at the back then. */
module OldestWait {
  import opened PageBuffer
  import opened UmapProtocol
  import opened ProtocolInvariant
  import opened ProtocolSteps
  import opened DrainCondition

  predicate Back(b: Buf, d: nat) { b.busy != [] && b.busy[|b.busy| - 1] == d }

  /** The second part: pop the back and mark the descriptor that was waited for. */
  function PopWaited(b: Buf, d: nat): Buf
    requires b.busy != [] && d < |b.desc|
  {
    SetState(b.(busy := b.busy[..|b.busy| - 1]), d, LEAVING)
  }

  /** It is the eviction of the oldest page iff the descriptor is still at the back. */
  lemma PopIsEviction(b: Buf, d: nat)
    requires b.busy != [] && b.busy[|b.busy| - 1] < |b.desc| && d < |b.desc| && b.desc[d].state == PRESENT
    ensures PopWaited(b, d) == EvictOldest(b) <==> Back(b, d)
  {
    if !Back(b, d) {
      assert PopWaited(b, d).desc[d].state == LEAVING;
      assert EvictOldest(b).desc[d].state == PRESENT;
    }
  }

  // ----- what can happen during the wait -----

  lemma {:induction false} FirstPending(desc: seq<Desc>, busy: seq<nat>, quota: nat)
    requires busy != [] && quota > 0
    ensures var d, s := busy[|busy| - 1], ScanOldest(desc, busy, quota);
            if Evictable(desc, d) then s.evicted != [] && s.evicted[0] == d else s.pending != [] && s.pending[0] == d
  {
  }

  /** A batch leaves the descriptor at the back iff it is the only one that the batch scanned
      and did not take: the others are put back behind it. */
  lemma BatchMovesBack(b: Buf, d: nat)
    requires NoDup(b.busy) && Back(b, d)
    ensures Back(EvictOldestPages(b), d) <==> ScanOldest(b.desc, b.busy, MAX_EVICTED).pending == [d]
  {
    var s := ScanOldest(b.desc, b.busy, MAX_EVICTED);
    var busy' := s.kept + s.pending;
    FirstPending(b.desc, b.busy, MAX_EVICTED);
    ScanSplits(b.desc, b.busy, MAX_EVICTED, busy', s.evicted);
    if Evictable(b.desc, d) {
      assert d in s.evicted;
      assert busy' != [] ==> busy'[|busy'| - 1] in busy';
    } else {
      assert busy'[|s.kept|] == d;
      assert busy'[|busy'| - 1] == s.pending[|s.pending| - 1];
    }
  }

  /** No other step moves the back while the unmapping thread waits. */
  lemma BackStays(c: Config, s: State, l: Label, d: nat)
    requires ActiveI(s) && FlushI(s) && Draining(s) && Back(s.b, d) && Can(c, s, l)
    requires !l.UnmapBy? && l != Manage(ManagerBatch)
    ensures Back(Do(c, s, l).b, d) && Draining(Do(c, s, l))
  {
    match l
    case Fill(f, t) => FillKeepsBusy(s, f, t);
    case Evict(e, t) => EvictKeepsBusy(s, e, t);
    case Manage(m) => ManageKeepsBusy(c, s, m);
    case _ => Excluded(c, s, l);
  }

  lemma FillKeepsBusy(s: State, f: FillStep, t: nat)
    requires CanFill(s, f, t)
    ensures DoFill(s, f, t).b.busy == s.b.busy && DoFill(s, f, t).unmap == s.unmap
  {
  }

  lemma EvictKeepsBusy(s: State, e: EvictStep, t: nat)
    requires CanEvict(s, e, t)
    ensures DoEvict(s, e, t).b.busy == s.b.busy && DoEvict(s, e, t).unmap == s.unmap
  {
    if e == EvictFinish {
      assert MarkFree(s.b, s.evicts[t].d).busy == s.b.busy;
    }
  }

  lemma ManageKeepsBusy(c: Config, s: State, m: ManagerStep)
    requires CanManage(c, s, m) && !m.ManagerBatch?
    ensures DoManage(c, s, m).b.busy == s.b.busy && DoManage(c, s, m).unmap == s.unmap
  {
  }

  /** Two pages under fill: a batch takes neither and swaps them, so the pop takes the other. */
  lemma PopCanTakeAnother()
    ensures var pd := Desc(4096, 7, FILLING, false, false, false);
            var b := Buf([pd, pd.(page := 8192)], [], [0, 1], map[4096 := 0, 8192 := 1], {(7, 0), (7, 1)}, false);
            Back(b, 1) && Back(EvictOldestPages(b), 0)
  {
    var pd := Desc(4096, 7, FILLING, false, false, false);
    var desc := [pd, pd.(page := 8192)];
    assert ScanOldest(desc, [], MAX_EVICTED) == Split([], [], []);
    assert [0, 1][..1] == [0] && [0][..0] == [];
    assert ScanOldest(desc, [0], MAX_EVICTED) == Split([], [0], []);
    assert ScanOldest(desc, [0, 1], MAX_EVICTED) == Split([], [1, 0], []);
  }
}
