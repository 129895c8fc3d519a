/** When a flush makes everything durable, said of the moment at which it takes the lock. */
module FlushCondition {
  import opened PageBuffer
  import opened UmapProtocol
  import opened ProtocolInvariant
  import opened ProtocolSteps
  import opened ProtocolRuns

  /** All evict items belong to the flush. */
  predicate OnlyFlushItems(s: State) { forall t :: t in s.evicts ==> s.evicts[t].kind == FLUSH }

  /** The evict manager holds no dirty page. */
  predicate HandClean(s: State) { forall d :: d in s.hand && d < |s.b.desc| ==> !s.b.desc[d].dirty }

  // ----- an eviction in flight outlives the flush -----

  /** What a step does to the table of evict items while the lock is held. */
  lemma EvictTable(s: State, e: EvictStep, t: nat)
    requires s.flush.Flushing? && CanEvict(s, e, t)
    ensures var s' := DoEvict(s, e, t);
            if e == EvictDrop && s.evicts[t].kind == FLUSH then s'.evicts == s.evicts - {t}
            else t in s'.evicts && s'.evicts == s.evicts[t := s'.evicts[t]] && s'.evicts[t].kind == s.evicts[t].kind
  {
    match e
    case EvictProtect => ProtectTable(s, t);
    case EvictWrite => WriteTable(s, t);
    case EvictClear => ClearTable(s, t);
    case _ =>
  }

  lemma ProtectTable(s: State, t: nat)
    requires ValidEvict(s, t)
    ensures DoEvictProtect(s, t).evicts == s.evicts[t := s.evicts[t].(phase := EWrite)]
  {
  }

  lemma WriteTable(s: State, t: nat)
    requires ValidEvict(s, t)
    ensures DoEvictWrite(s, t).evicts == s.evicts[t := s.evicts[t].(phase := EClear)]
  {
  }

  lemma ClearTable(s: State, t: nat)
    requires ValidEvict(s, t)
    ensures DoEvictClear(s, t).evicts == s.evicts[t := s.evicts[t].(phase := EDrop)]
  {
  }

  lemma OthersTable(c: Config, s: State, l: Label)
    requires FlushI(s) && s.flush.Flushing? && Can(c, s, l) && !l.Evict?
    ensures forall v :: v in s.evicts ==> v in Do(c, s, l).evicts && Do(c, s, l).evicts[v] == s.evicts[v]
  {
    match l
    case Fill(f, t) => FillKeepsItems(s, f, t);
    case Manage(m) => ManageTable(c, s, m);
    case FlushBy(f) => FlushTable(s, f);
    case AppWrite(p, w) =>
    case _ => LockedOut(c, s, l);
  }

  lemma ManageTable(c: Config, s: State, m: ManagerStep)
    requires CanManage(c, s, m)
    ensures var s' := DoManage(c, s, m); forall v :: v in s.evicts ==> v in s'.evicts && s'.evicts[v] == s.evicts[v]
  {
  }

  lemma FlushTable(s: State, f: FlushStep)
    requires CanFlush(s, f)
    ensures var s' := DoFlush(s, f); forall v :: v in s.evicts ==> v in s'.evicts && s'.evicts[v] == s.evicts[v]
  {
    if f.FlushScan? {
      FlushScanIs(s, f.t);
    }
  }

  /** While the lock is held an eviction cannot finish. */
  lemma EvictionStays(c: Config, s: State, l: Label, v: nat)
    requires FlushI(s) && s.flush.Flushing? && Can(c, s, l) && v in s.evicts && s.evicts[v].kind != FLUSH
    ensures v in Do(c, s, l).evicts && Do(c, s, l).evicts[v].kind != FLUSH
  {
    if l.Evict? {
      EvictTable(s, l.evict, l.t);
    } else {
      OthersTable(c, s, l);
    }
  }

  lemma NoEvictionBefore(c: Config, s: State, l: Label)
    requires FlushI(s) && s.flush.Flushing? && Can(c, s, l) && OnlyFlushItems(Do(c, s, l))
    ensures OnlyFlushItems(s)
  {
    forall v | v in s.evicts ensures s.evicts[v].kind == FLUSH {
      if s.evicts[v].kind != FLUSH {
        EvictionStays(c, s, l, v);
      }
    }
  }

  lemma FillKeepsItems(s: State, f: FillStep, t: nat)
    requires CanFill(s, f, t)
    ensures DoFill(s, f, t).evicts == s.evicts && DoFill(s, f, t).hand == s.hand
  {
  }

  // ----- so the manager's hand does not change -----

  ghost predicate SameHand(s: State, s': State) {
    && s'.hand == s.hand && |s'.b.desc| == |s.b.desc|
    && forall d :: d in s.hand && d < |s.b.desc| ==> s'.b.desc[d].dirty == s.b.desc[d].dirty
  }

  lemma FillKeepsHand(s: State, f: FillStep, t: nat)
    requires s.flush.Flushing? && CanFill(s, f, t)
    ensures SameHand(s, DoFill(s, f, t))
  {
  }

  lemma EvictKeepsHand(s: State, e: EvictStep, t: nat)
    requires EvictsI(s) && s.flush.Flushing? && CanEvict(s, e, t)
    ensures SameHand(s, DoEvict(s, e, t))
  {
    assert !Held(s.hand, s.unmap, s.evicts[t].d);
  }

  lemma ManageKeepsHand(c: Config, s: State, m: ManagerStep)
    requires s.flush.Flushing? && CanManage(c, s, m)
    ensures if m.ManagerSend? then !OnlyFlushItems(DoManage(c, s, m)) else SameHand(s, DoManage(c, s, m))
  {
    if m.ManagerSend? {
      assert DoSend(s, m.t).evicts[m.t].kind == EVICT;
    }
  }

  lemma HandStays(c: Config, s: State, l: Label)
    requires FlushI(s) && EvictsI(s) && s.flush.Flushing? && Can(c, s, l) && l != FlushBy(FlushEnd)
    requires OnlyFlushItems(Do(c, s, l))
    ensures SameHand(s, Do(c, s, l))
  {
    match l
    case Fill(f, t) => FillKeepsHand(s, f, t);
    case Evict(e, t) => EvictKeepsHand(s, e, t);
    case Manage(m) => ManageKeepsHand(c, s, m);
    case _ => OthersKeepHand(c, s, l);
  }

  lemma OthersKeepHand(c: Config, s: State, l: Label)
    requires FlushI(s) && s.flush.Flushing? && Can(c, s, l) && !l.Fill? && !l.Evict? && !l.Manage?
    ensures SameHand(s, Do(c, s, l))
  {
    match l
    case AppWrite(p, w) => assert SameHand(s, DoAppWrite(s, p, w));
    case FlushBy(f) => FlushKeepsHand(s, f);
    case _ => LockedOut(c, s, l);
  }

  lemma FlushKeepsHand(s: State, f: FlushStep)
    requires CanFlush(s, f)
    ensures SameHand(s, DoFlush(s, f))
  {
    if f.FlushScan? {
      FlushScanIs(s, f.t);
    }
  }

  // ----- from the end of the flush back to its beginning -----

  /** A flush that takes the lock at `j` and releases it at `i`. */
  predicate IsFlush(c: Config, ss: seq<State>, ls: seq<Label>, j: nat, i: nat) {
    && IsRun(c, ss, ls) && j < i < |ls| && ls[j] == FlushBy(FlushBegin) && ls[i] == FlushBy(FlushEnd)
    && forall k :: j < k < i ==> ls[k] != FlushBy(FlushEnd)
  }

  lemma {:induction false} OnlyFlushItemsAt(c: Config, ss: seq<State>, ls: seq<Label>, j: nat, i: nat, k: nat)
    requires IsFlush(c, ss, ls, j, i) && j < k <= i
    ensures ss[k].flush.Flushing? && OnlyFlushItems(ss[k])
    decreases i - k
  {
    FlushingStretch(c, ss, ls, j, k);
    if k < i {
      OnlyFlushItemsAt(c, ss, ls, j, i, k + 1);
      BeforeStep(c, ss, ls, k);
    } else {
      BeforeEnd(c, ss, ls, i);
    }
  }

  lemma BeforeEnd(c: Config, ss: seq<State>, ls: seq<Label>, i: nat)
    requires IsRun(c, ss, ls) && i < |ls| && ls[i] == FlushBy(FlushEnd)
    ensures OnlyFlushItems(ss[i])
  {
    StepAt(c, ss, ls, i);
  }

  lemma BeforeStep(c: Config, ss: seq<State>, ls: seq<Label>, k: nat)
    requires IsRun(c, ss, ls) && k < |ls| && ss[k].flush.Flushing? && OnlyFlushItems(ss[k + 1])
    ensures OnlyFlushItems(ss[k])
  {
    RunParts(c, ss, ls, k);
    NoEvictionBefore(c, ss[k], ls[k]);
  }

  /** A flush that returns began with no eviction in flight. */
  lemma NothingInFlight(c: Config, ss: seq<State>, ls: seq<Label>, j: nat, i: nat)
    requires IsFlush(c, ss, ls, j, i)
    ensures ss[j].evicts == map[]
  {
    RunParts(c, ss, ls, j);
    OnlyFlushItemsAt(c, ss, ls, j, i, j + 1);
    assert ss[j + 1].evicts == ss[j].evicts && ss[j].flush == NoFlush;
    assert forall t :: t !in ss[j].evicts;
  }

  lemma {:induction false} HandIsKept(c: Config, ss: seq<State>, ls: seq<Label>, j: nat, i: nat, k: nat)
    requires IsFlush(c, ss, ls, j, i) && j < k <= i
    ensures SameHand(ss[j], ss[k])
    decreases k
  {
    if k > j + 1 {
      HandIsKept(c, ss, ls, j, i, k - 1);
      HandStep(c, ss, ls, j, i, k - 1);
      SameHandJoin(ss[j], ss[k - 1], ss[k]);
    } else {
      BeginKeepsHand(c, ss, ls, j);
    }
  }

  lemma SameHandJoin(a: State, b: State, c: State)
    requires SameHand(a, b) && SameHand(b, c)
    ensures SameHand(a, c)
  {
  }

  lemma BeginKeepsHand(c: Config, ss: seq<State>, ls: seq<Label>, j: nat)
    requires IsRun(c, ss, ls) && j < |ls| && ls[j] == FlushBy(FlushBegin)
    ensures SameHand(ss[j], ss[j + 1])
  {
    RunParts(c, ss, ls, j);
  }

  lemma HandStep(c: Config, ss: seq<State>, ls: seq<Label>, j: nat, i: nat, k: nat)
    requires IsFlush(c, ss, ls, j, i) && j < k < i
    ensures SameHand(ss[k], ss[k + 1])
  {
    OnlyFlushItemsAt(c, ss, ls, j, i, k);
    OnlyFlushItemsAt(c, ss, ls, j, i, k + 1);
    HandAt(c, ss, ls, k);
  }

  lemma HandAt(c: Config, ss: seq<State>, ls: seq<Label>, k: nat)
    requires IsRun(c, ss, ls) && k < |ls| && ls[k] != FlushBy(FlushEnd)
    requires ss[k].flush.Flushing? && OnlyFlushItems(ss[k + 1])
    ensures SameHand(ss[k], ss[k + 1])
  {
    RunParts(c, ss, ls, k);
    HandStays(c, ss[k], ls[k]);
  }

  /** The page that `d` had at `j` is clean and protected at `i`, and its store copy is what the
      application wrote last. */
  ghost predicate Flushed(c: Config, ss: seq<State>, ls: seq<Label>, j: nat, i: nat, d: nat)
    requires IsRun(c, ss, ls) && j < |ss| && i < |ss|
  {
    && d < |ss[j].b.desc| && d < |ss[i].b.desc| && !ss[i].b.desc[d].dirty
    && var p := ss[j].b.desc[d].page;
    && ss[i].b.desc[d].page == p && p in ss[i].mem && ss[i].mem[p].wp
    && p in ss[i].store && p in Flat(c, ss[0].store, ls[..i]) && ss[i].store[p] == Flat(c, ss[0].store, ls[..i])[p]
  }

  /** What a flush that returns has done, said of the moment at which it takes the lock.  Every
      page dirty in the busy deque then is flushed.  The whole buffer is clean iff the evict
      manager holds no dirty page then, and in that case the store agrees with the application
      on every page. */
  lemma FlushExact(c: Config, ss: seq<State>, ls: seq<Label>, j: nat, i: nat)
    requires IsFlush(c, ss, ls, j, i)
    ensures forall d :: d in DirtyBusy(ss[j]) ==> Flushed(c, ss, ls, j, i, d)
    ensures AllClean(ss[i]) <==> HandClean(ss[j])
    ensures HandClean(ss[j]) ==> ss[i].store == Flat(c, ss[0].store, ls[..i])
  {
    forall d | d in DirtyBusy(ss[j]) ensures Flushed(c, ss, ls, j, i, d) {
      FlushDurability(c, ss, ls, j, i, d);
    }
    FlushCleans(c, ss, ls, j, i);
  }

  lemma FlushCleans(c: Config, ss: seq<State>, ls: seq<Label>, j: nat, i: nat)
    requires IsFlush(c, ss, ls, j, i)
    ensures AllClean(ss[i]) <==> HandClean(ss[j])
    ensures HandClean(ss[j]) ==> ss[i].store == Flat(c, ss[0].store, ls[..i])
  {
    HandIsKept(c, ss, ls, j, i, i);
    RunKeeps(c, ss, ls, i);
    RunParts(c, ss, ls, i);
    FlushIsDurable(c, ss[i]);
    assert HandClean(ss[i]) <==> HandClean(ss[j]);
    if HandClean(ss[j]) {
      LogicalIsFlat(c, ss, ls, i);
      AllDurable(c, ss[i]);
    }
  }

  lemma AllDurable(c: Config, s: State)
    requires MirrorI(c, s) && forall p :: p in c.regionOf ==> Durable(s, p)
    ensures s.store == s.logical
  {
    forall p | p in s.store ensures p in s.logical && s.store[p] == s.logical[p] {
      assert Durable(s, p);
    }
  }
}
