/** When draining the buffer leaves it empty, said of the moment at which the last region's
    unmap begins: an exact condition, with a way to fail for every state that violates it. */
module DrainCondition {
  import opened PageBuffer
  import opened UmapProtocol
  import opened ProtocolInvariant
  import opened ProtocolSteps
  import opened ProtocolRuns
  import opened BatchEviction

  /** The evict manager holds pages, or can still come to hold some: it is at work or has been
      called, more than the low-water number of descriptors is busy, and one of them has a page
      to evict. */
  predicate AtRisk(c: Config, s: State) {
    || s.hand != []
    || ((s.managing || s.thresholds > 0) && |s.b.busy| > c.low && SomeResident(s.b))
  }

  predicate SomeResident(b: Buf) { exists d :: d in b.busy && d < |b.desc| && Resident(b.desc[d]) }

  predicate Draining(s: State) { s.unmap.Drain? || s.unmap.Dispatch? }

  // ----- a state that is not at risk stays so -----

  /** Nothing new to evict and no new call of the manager. */
  ghost predicate NoWorse(s: State, s': State) {
    && s'.hand == s.hand && (s'.managing || s'.thresholds > 0 ==> s.managing || s.thresholds > 0)
    && |s'.b.busy| <= |s.b.busy| && |s'.b.desc| == |s.b.desc|
    && (forall d :: d in s'.b.busy ==> d in s.b.busy)
    && (forall d :: d in s'.b.busy && d < |s.b.desc| && Resident(s'.b.desc[d]) ==> Resident(s.b.desc[d]))
  }

  lemma NoWorseIsSafe(c: Config, s: State, s': State)
    requires !AtRisk(c, s) && NoWorse(s, s')
    ensures !AtRisk(c, s')
  {
  }

  lemma FillNoWorse(s: State, f: FillStep, t: nat)
    requires FillsI(s) && CanFill(s, f, t)
    ensures NoWorse(s, DoFill(s, f, t)) && DoFill(s, f, t).unmap == s.unmap
  {
    assert FillOk(s.b.desc[s.fills[t].d], s.fills[t].phase, s.mem, s.store);
    match f
    case FillCopy => CopyNoWorse(s, t);
    case FillFinish => FinishNoWorse(s, t);
    case _ =>
  }

  lemma CopyNoWorse(s: State, t: nat)
    requires CanFill(s, FillCopy, t)
    ensures NoWorse(s, DoFillCopy(s, t)) && DoFillCopy(s, t).unmap == s.unmap
  {
  }

  lemma FinishNoWorse(s: State, t: nat)
    requires CanFill(s, FillFinish, t) && BeingFilled(s.b.desc[s.fills[t].d])
    ensures NoWorse(s, DoFill(s, FillFinish, t)) && DoFill(s, FillFinish, t).unmap == s.unmap
  {
  }

  lemma EvictNoWorse(s: State, e: EvictStep, t: nat)
    requires EvictsI(s) && CanEvict(s, e, t)
    ensures NoWorse(s, DoEvict(s, e, t)) && DoEvict(s, e, t).unmap == s.unmap
  {
    match e
    case EvictFinish =>
      assert EvictOk(s.b.desc[s.evicts[t].d], s.evicts[t], s.mem, s.store, s.unmap, s.flush);
      FreeNoWorse(s.b, s.evicts[t].d);
    case EvictClear => ClearNoWorse(s, t);
    case _ => QuietNoWorse(s, e, t);
  }

  lemma ClearNoWorse(s: State, t: nat)
    requires ValidEvict(s, t)
    ensures NoWorse(s, DoEvictClear(s, t)) && DoEvictClear(s, t).unmap == s.unmap
  {
  }

  lemma QuietNoWorse(s: State, e: EvictStep, t: nat)
    requires CanEvict(s, e, t) && e != EvictFinish && e != EvictClear
    ensures NoWorse(s, DoEvict(s, e, t)) && DoEvict(s, e, t).unmap == s.unmap
  {
    var moved := EvictTo(s, t, NextPhase(s, e, t));
    assert moved.b == s.b && moved.hand == s.hand && moved.unmap == s.unmap;
    assert DoEvict(s, e, t).b == s.b;
  }

  function NextPhase(s: State, e: EvictStep, t: nat): EvictPhase
    requires CanEvict(s, e, t) && e != EvictFinish && e != EvictClear
  {
    match e
    case EvictStart => if s.b.desc[s.evicts[t].d].dirty then EProtect else EDrop
    case EvictProtect => EWrite
    case EvictWrite => EClear
    case EvictDrop => EFree
  }

  lemma FreeNoWorse(b: Buf, d: nat)
    requires d < |b.desc| && b.desc[d].state == LEAVING
    ensures var b' := MarkFree(b, d);
            && b'.busy == b.busy && |b'.desc| == |b.desc|
            && forall e :: 0 <= e < |b.desc| && Resident(b'.desc[e]) ==> Resident(b.desc[e])
  {
  }

  /** A batch takes something only from resident pages. */
  lemma TakenIsResident(b: Buf)
    ensures ScanOldest(b.desc, b.busy, MAX_EVICTED).evicted != [] ==> SomeResident(b)
  {
    BatchConserves(b.desc, b.busy, MAX_EVICTED);
    var evicted := ScanOldest(b.desc, b.busy, MAX_EVICTED).evicted;
    if evicted != [] {
      assert evicted[0] in multiset(evicted) && evicted[0] in multiset(b.busy);
      assert evicted[0] in b.busy && Evictable(b.desc, evicted[0]);
    }
  }

  lemma EmptyBatch(s: State)
    requires ScanOldest(s.b.desc, s.b.busy, MAX_EVICTED).evicted == [] && s.hand == []
    ensures NoWorse(s, DoBatch(s))
  {
    BatchConserves(s.b.desc, s.b.busy, MAX_EVICTED);
    var busy' := DoBatch(s).b.busy;
    assert multiset(busy') == multiset(s.b.busy);
    assert |multiset(busy')| == |busy'| && |multiset(s.b.busy)| == |s.b.busy|;
    forall d | d in busy' ensures d in s.b.busy {
      assert d in multiset(busy');
    }
  }

  /** The manager's own steps. */
  lemma ManageSafe(c: Config, s: State, m: ManagerStep)
    requires !AtRisk(c, s) && CanManage(c, s, m)
    ensures !AtRisk(c, DoManage(c, s, m)) && DoManage(c, s, m).unmap == s.unmap
  {
    if m.ManagerBatch? {
      TakenIsResident(s.b);
      EmptyBatch(s);
      NoWorseIsSafe(c, s, DoBatch(s));
    }
  }

  lemma UnmapNoWorse(s: State, u: UnmapStep)
    requires Draining(s) && EvictsI(s) && CanUnmap(s, u) && u != DrainEnd
    ensures NoWorse(s, DoUnmap(s, u)) && Draining(DoUnmap(s, u))
  {
    match u
    case DrainRelease =>
    case DrainOldest =>
    case DrainSend(t) =>
    case DrainFree =>
      assert Held(s.hand, s.unmap, s.unmap.d);
      FreeNoWorse(s.b, s.unmap.d);
    case _ =>
  }

  /** While the buffer is drained no page is accessible and no flush is under way. */
  lemma SafeStays(c: Config, s: State, l: Label)
    requires ListsI(c, s) && FillsI(s) && EvictsI(s) && ActiveI(s) && FlushI(s) && Draining(s) && !AtRisk(c, s)
    requires Can(c, s, l) && l != UnmapBy(DrainEnd)
    ensures !AtRisk(c, Do(c, s, l)) && Draining(Do(c, s, l))
  {
    match l
    case Fill(f, t) =>
      FillNoWorse(s, f, t);
      NoWorseIsSafe(c, s, DoFill(s, f, t));
    case Evict(e, t) =>
      EvictNoWorse(s, e, t);
      NoWorseIsSafe(c, s, DoEvict(s, e, t));
    case Manage(m) => ManageSafe(c, s, m);
    case UnmapBy(u) =>
      UnmapNoWorse(s, u);
      NoWorseIsSafe(c, s, DoUnmap(s, u));
    case _ => Excluded(c, s, l);
  }

  lemma Excluded(c: Config, s: State, l: Label)
    requires ActiveI(s) && FlushI(s) && Draining(s)
    requires l.AppWrite? || l.MapRegion? || l.FaultNew? || l.FaultUpgrade? || l.FaultSpurious? || l.FlushBy?
    ensures !Can(c, s, l)
  {
  }

  // ----- and the drain then empties the buffer -----

  /** The unmap of the last region begins at `j` and has not ended before `i`. */
  predicate IsDrain(c: Config, ss: seq<State>, ls: seq<Label>, j: nat, i: nat) {
    && IsRun(c, ss, ls) && j < i < |ss| && ls[j].UnmapBy? && ls[j].unmap.UnmapBegin? && |ss[j].open| <= 1
    && forall k :: j < k < i ==> ls[k] != UnmapBy(DrainEnd)
  }

  lemma BeginsDrain(c: Config, s: State, r: Region)
    requires CanUnmapBegin(s, r) && |s.open| <= 1
    ensures Draining(DoUnmapBegin(s, r)) && (AtRisk(c, DoUnmapBegin(s, r)) <==> AtRisk(c, s))
  {
  }

  lemma SafeStep(c: Config, ss: seq<State>, ls: seq<Label>, k: nat)
    requires IsRun(c, ss, ls) && k < |ls| && Draining(ss[k]) && !AtRisk(c, ss[k]) && ls[k] != UnmapBy(DrainEnd)
    ensures Draining(ss[k + 1]) && !AtRisk(c, ss[k + 1])
  {
    RunParts(c, ss, ls, k);
    SafeStays(c, ss[k], ls[k]);
  }

  lemma FirstStep(c: Config, ss: seq<State>, ls: seq<Label>, j: nat)
    requires IsRun(c, ss, ls) && j < |ls| && ls[j].UnmapBy? && ls[j].unmap.UnmapBegin? && |ss[j].open| <= 1
    ensures Draining(ss[j + 1]) && (AtRisk(c, ss[j + 1]) <==> AtRisk(c, ss[j]))
  {
    StepAt(c, ss, ls, j);
    BeginsDrain(c, ss[j], ls[j].unmap.r);
  }

  lemma {:induction false} SafeDrain(c: Config, ss: seq<State>, ls: seq<Label>, j: nat, i: nat)
    requires IsDrain(c, ss, ls, j, i) && !AtRisk(c, ss[j])
    ensures !AtRisk(c, ss[i]) && Draining(ss[i])
    decreases i
  {
    if i == j + 1 {
      FirstStep(c, ss, ls, j);
    } else {
      SafeDrain(c, ss, ls, j, i - 1);
      SafeStep(c, ss, ls, i - 1);
    }
  }

  /** If the unmap begins in a state that is not at risk, then whenever the code's loop and
      its wait are over, the present map is empty and the store holds the flat memory. */
  lemma SafeDrainIsDurable(c: Config, ss: seq<State>, ls: seq<Label>, j: nat, i: nat)
    requires IsDrain(c, ss, ls, j, i) && !AtRisk(c, ss[j]) && Drained(ss[i])
    ensures ss[i].hand == [] && ss[i].b.present == map[] && |ss[i].b.free| == c.size
    ensures ss[i].store == Flat(c, ss[0].store, ls[..i])
  {
    SafeDrain(c, ss, ls, j, i);
    DrainDurability(c, ss, ls, i);
  }
}
