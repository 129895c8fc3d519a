/** The deque is in order of time: when the batches so far have skipped at most one page each, it lists
    the descriptors from the one that entered last to the one that entered first. */
module EntryOrder {
  import opened PageBuffer
  import opened UmapProtocol
  import opened ProtocolInvariant
  import opened ProtocolFrames
  import opened ProtocolSteps
  import opened ProtocolRuns
  import opened BatchEviction
  import opened OldestWait

  /** The position of the run at which the descriptor last entered the deque. */
  function Entry(ss: seq<State>, i: nat, d: nat): int {
    if i == 0 || i >= |ss| then -1
    else if d in ss[i].b.busy && d !in ss[i - 1].b.busy then i
    else Entry(ss, i - 1, d)
  }

  lemma {:induction false} EntryBefore(ss: seq<State>, i: nat, d: nat)
    ensures Entry(ss, i, d) <= i
  {
    if i > 0 && i < |ss| {
      EntryBefore(ss, i - 1, d);
    }
  }

  ghost predicate Falling(q: seq<nat>, e: nat -> int) { forall a, b :: 0 <= a < b < |q| ==> e(q[a]) > e(q[b]) }
  ghost predicate Rising(q: seq<nat>, e: nat -> int) { forall a, b :: 0 <= a < b < |q| ==> e(q[a]) < e(q[b]) }

  ghost predicate InOrder(ss: seq<State>, i: nat)
    requires i < |ss|
  {
    Falling(ss[i].b.busy, (d: nat) => Entry(ss, i, d))
  }

  /** What the batch of a state scans and does not take. */
  function SkippedBy(s: State): seq<nat> { ScanOldest(s.b.desc, s.b.busy, MAX_EVICTED).pending }

  // ----- what a step does to the deque -----

  ghost predicate BusyMoves(s: State, s': State) {
    || s'.b.busy == s.b.busy
    || (s.b.busy != [] && s'.b.busy == s.b.busy[..|s.b.busy| - 1])
    || (s'.b.busy != [] && s'.b.busy[0] !in s.b.busy && s'.b.busy == [s'.b.busy[0]] + s.b.busy)
  }

  /** Only a batch does anything else than enter a descriptor at the front or take the oldest away. */
  lemma BusyStep(c: Config, s: State, l: Label)
    requires ListsI(c, s) && Can(c, s, l) && l != Manage(ManagerBatch)
    ensures BusyMoves(s, Do(c, s, l))
  {
    match l
    case AppWrite(p, v) => assert DoAppWrite(s, p, v).b == s.b;
    case MapRegion(r, contents) => assert DoMapRegion(c, s, r, contents).b == s.b;
    case FaultNew(p, isWrite, t) => NewBusy(c, s, p, isWrite, t);
    case FaultUpgrade(p, t) => FaultUpgradeIs(c, s, p, t);
    case FaultSpurious(_, _) =>
    case Fill(f, t) => FillKeepsBusy(s, f, t);
    case Evict(e, t) => EvictKeepsBusy(s, e, t);
    case Manage(m) => ManageKeepsBusy(c, s, m);
    case FlushBy(f) => FlushKeepsBusy(s, f);
    case UnmapBy(u) => UnmapBusy(s, u);
  }

  lemma NewBusy(c: Config, s: State, p: Page, isWrite: bool, t: nat)
    requires ListsI(c, s) && CanFaultNew(c, s, p, t)
    ensures BusyMoves(s, DoFaultNew(c, s, p, isWrite, t))
  {
    var d := s.b.free[|s.b.free| - 1];
    assert d in s.b.free;
    NewPageIs(s.b, p, c.regionOf[p], isWrite);
    assert DoFaultNew(c, s, p, isWrite, t).b == NewPage(s.b, p, c.regionOf[p], isWrite);
  }

  lemma FlushKeepsBusy(s: State, f: FlushStep)
    requires CanFlush(s, f)
    ensures DoFlush(s, f).b == s.b
  {
    if f.FlushScan? {
      FlushScanIs(s, f.t);
    }
  }

  lemma UnmapBusy(s: State, u: UnmapStep)
    requires CanUnmap(s, u)
    ensures BusyMoves(s, DoUnmap(s, u))
  {
    match u
    case UnmapPick(d) => assert DoPick(s, d).b.busy == s.b.busy;
    case UnmapLeave(t) => LeaveIs(s, t);
    case DrainOldest => DrainOldestIs(s);
    case DrainFree => assert MarkFree(s.b, s.unmap.d).busy == s.b.busy;
    case _ =>
  }

  // ----- steps that are not batches keep the order -----

  lemma StepKeepsOrder(c: Config, ss: seq<State>, ls: seq<Label>, i: nat)
    requires IsRun(c, ss, ls) && i < |ls| && ls[i] != Manage(ManagerBatch) && InOrder(ss, i)
    ensures InOrder(ss, i + 1)
  {
    RunKeeps(c, ss, ls, i);
    StepAt(c, ss, ls, i);
    BusyStep(c, ss[i], ls[i]);
    MovesKeepOrder(ss, i);
  }

  lemma MovesKeepOrder(ss: seq<State>, i: nat)
    requires i + 1 < |ss| && BusyMoves(ss[i], ss[i + 1]) && InOrder(ss, i)
    ensures InOrder(ss, i + 1)
  {
    var q, q' := ss[i].b.busy, ss[i + 1].b.busy;
    forall d | d in q && d in q' ensures Entry(ss, i + 1, d) == Entry(ss, i, d) && Entry(ss, i, d) <= i {
      EntryBefore(ss, i, d);
    }
    if q' == q || (q != [] && q' == q[..|q| - 1]) {
      forall a | 0 <= a < |q'| ensures q'[a] == q[a] && q'[a] in q {
      }
    } else {
      EnteredInFront(ss, i);
    }
  }

  lemma EnteredInFront(ss: seq<State>, i: nat)
    requires i + 1 < |ss| && InOrder(ss, i)
    requires var q, q' := ss[i].b.busy, ss[i + 1].b.busy; q' != [] && q'[0] !in q && q' == [q'[0]] + q
    requires forall d :: d in ss[i].b.busy ==> Entry(ss, i + 1, d) == Entry(ss, i, d) <= i
    ensures InOrder(ss, i + 1)
  {
    var q, q' := ss[i].b.busy, ss[i + 1].b.busy;
    forall a, b | 0 <= a < b < |q'| ensures Entry(ss, i + 1, q'[a]) > Entry(ss, i + 1, q'[b]) {
      assert q'[b] == q[b - 1];
      if a > 0 {
        assert q'[a] == q[a - 1];
      }
    }
  }

  // ----- batches -----

  /** What is skipped goes back in the opposite order. */
  lemma {:induction false} SkippedRises(desc: seq<Desc>, q: seq<nat>, e: nat -> int)
    requires Falling(q, e)
    ensures Rising(Skipped(desc, q), e) && forall d :: d in Skipped(desc, q) ==> d in q && !Evictable(desc, d)
  {
    if q != [] {
      var front := q[..|q| - 1];
      SkippedRises(desc, front, e);
      forall d | d in Skipped(desc, front) ensures e(q[|q| - 1]) < e(d) {
        var a :| 0 <= a < |front| && front[a] == d;
        assert q[a] == d;
      }
    }
  }

  /** A batch keeps the order iff it skips at most one page. */
  lemma BatchKeepsOrder(c: Config, ss: seq<State>, ls: seq<Label>, i: nat)
    requires IsRun(c, ss, ls) && i < |ls| && ls[i] == Manage(ManagerBatch) && InOrder(ss, i)
    ensures InOrder(ss, i + 1) <==> |SkippedBy(ss[i])| <= 1
  {
    StepAt(c, ss, ls, i);
    var s := ss[i];
    var k := BatchTakesOldest(s.b.desc, s.b.busy, MAX_EVICTED);
    BatchOrder(ss, i, k);
  }

  lemma BatchOrder(ss: seq<State>, i: nat, k: nat)
    requires i + 1 < |ss| && InOrder(ss, i) && k <= |ss[i].b.busy|
    requires SkippedBy(ss[i]) == Skipped(ss[i].b.desc, ss[i].b.busy[k..])
    requires ss[i + 1].b.busy == ss[i].b.busy[..k] + SkippedBy(ss[i])
    ensures InOrder(ss, i + 1) <==> |SkippedBy(ss[i])| <= 1
  {
    var q, q', p := ss[i].b.busy, ss[i + 1].b.busy, SkippedBy(ss[i]);
    var e, e' := (d: nat) => Entry(ss, i, d), (d: nat) => Entry(ss, i + 1, d);
    SkippedRises(ss[i].b.desc, q[k..], e);
    KeptThenSkipped(q, k, p, e);
    forall d | d in q' ensures e'(d) == e(d) {
      assert d in q;
    }
    SameOrder(q', e, e');
  }

  lemma SameOrder(q: seq<nat>, e: nat -> int, e': nat -> int)
    requires forall d :: d in q ==> e'(d) == e(d)
    ensures Falling(q, e) <==> Falling(q, e')
  {
  }

  /** The front of a falling deque followed by a rising part of its rest. */
  lemma KeptThenSkipped(q: seq<nat>, k: nat, p: seq<nat>, e: nat -> int)
    requires Falling(q, e) && k <= |q| && Rising(p, e) && forall d :: d in p ==> d in q[k..]
    ensures Falling(q[..k] + p, e) <==> |p| <= 1
  {
    var q' := q[..k] + p;
    if |p| > 1 {
      assert q'[k] == p[0] && q'[k + 1] == p[1];
    } else {
      forall a, b | 0 <= a < b < |q'| ensures e(q'[a]) > e(q'[b]) {
        if b == k {
          OlderBehind(q, k, e, q'[b], q'[a]);
        }
      }
    }
  }

  lemma OlderBehind(q: seq<nat>, k: nat, e: nat -> int, d: nat, x: nat)
    requires Falling(q, e) && k <= |q| && d in q[k..] && x in q[..k]
    ensures e(d) < e(x)
  {
    var a :| 0 <= a < k && q[a] == x;
    var b :| k <= b < |q| && q[b] == d;
  }

  ghost predicate BatchesSkipAtMostOne(ss: seq<State>, ls: seq<Label>, i: nat) {
    |ss| == |ls| + 1 && i <= |ls| &&
    forall k :: 0 <= k < i && ls[k] == Manage(ManagerBatch) ==> |SkippedBy(ss[k])| <= 1
  }

  /** Over every run in which each batch so far has skipped at most one page, the deque is in order of
      entry, the last to enter first. */
  lemma {:induction false} DequeIsInOrder(c: Config, ss: seq<State>, ls: seq<Label>, i: nat)
    requires IsRun(c, ss, ls) && BatchesSkipAtMostOne(ss, ls, i)
    ensures InOrder(ss, i)
    decreases i
  {
    if i > 0 {
      DequeIsInOrder(c, ss, ls, i - 1);
      if ls[i - 1] == Manage(ManagerBatch) {
        BatchKeepsOrder(c, ss, ls, i - 1);
      } else {
        StepKeepsOrder(c, ss, ls, i - 1);
      }
    }
  }

  /** Then a batch takes the oldest in time: whatever it takes entered before every page that may go and
      that it leaves. */
  lemma BatchIsOldestInTime(c: Config, ss: seq<State>, ls: seq<Label>, i: nat, d: nat, x: nat)
    requires IsRun(c, ss, ls) && i < |ls| && ls[i] == Manage(ManagerBatch) && BatchesSkipAtMostOne(ss, ls, i)
    requires d in ss[i + 1].hand && x in ss[i + 1].b.busy && Evictable(ss[i].b.desc, x)
    ensures Entry(ss, i, d) < Entry(ss, i, x)
  {
    DequeIsInOrder(c, ss, ls, i);
    StepAt(c, ss, ls, i);
    var s := ss[i];
    var k := BatchTakesOldest(s.b.desc, s.b.busy, MAX_EVICTED);
    var q, e := s.b.busy, (d: nat) => Entry(ss, i, d);
    CandidatesAreMembers(s.b.desc, q[k..]);
    LeftIsKept(s.b.desc, q, k, e, x);
    OlderBehind(q, k, e, d, x);
  }

  lemma LeftIsKept(desc: seq<Desc>, q: seq<nat>, k: nat, e: nat -> int, x: nat)
    requires Falling(q, e) && k <= |q| && x in q[..k] + Skipped(desc, q[k..]) && Evictable(desc, x)
    ensures x in q[..k]
  {
    SkippedRises(desc, q[k..], e);
  }

  lemma {:induction false} CandidatesAreMembers(desc: seq<Desc>, q: seq<nat>)
    ensures forall d :: d in Candidates(desc, q) ==> d in q
  {
    if q != [] {
      CandidatesAreMembers(desc, q[..|q| - 1]);
    }
  }

  /** And the draining thread takes the page that entered first. */
  lemma OldestIsFirst(c: Config, ss: seq<State>, ls: seq<Label>, i: nat, x: nat)
    requires IsRun(c, ss, ls) && i < |ls| && ls[i] == UnmapBy(DrainOldest) && BatchesSkipAtMostOne(ss, ls, i)
    requires x in ss[i + 1].b.busy
    ensures ss[i + 1].unmap.Dispatch? && Entry(ss, i, ss[i + 1].unmap.d) < Entry(ss, i, x)
  {
    DequeIsInOrder(c, ss, ls, i);
    StepAt(c, ss, ls, i);
    DrainOldestIs(ss[i]);
    var q := ss[i].b.busy;
    var a :| 0 <= a < |q| - 1 && q[a] == x;
  }
}
