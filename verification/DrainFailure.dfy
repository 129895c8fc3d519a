/** From every state at risk the drain can go wrong: a schedule is constructed in which the
    evict manager takes pages and keeps them while everything else runs to its end. */
module DrainFailure {
  import opened PageBuffer
  import opened UmapProtocol
  import opened ProtocolInvariant
  import opened ProtocolSteps
  import opened ProtocolRuns
  import opened BatchEviction
  import opened DrainCondition
  import opened Reachability

  // ----- continuing a run -----

  ghost function Steps(c: Config): iset<(State, State)> { iset x, y | Linked(c, x, y) :: (x, y) }

  ghost predicate Linked(c: Config, x: State, y: State) { exists l: Label :: Next(c, x, l, y) }

  /** A chain of steps continues a run. */
  lemma {:induction false} Extend(c: Config, ss: seq<State>, ls: seq<Label>, path: seq<State>)
    returns (ss': seq<State>, ls': seq<Label>)
    requires IsRun(c, ss, ls) && Chain(Steps(c), path) && path[0] == ss[|ls|]
    ensures IsRun(c, ss', ls') && ss' == ss + path[1..] && ls <= ls'
    decreases |path|
  {
    if |path| == 1 {
      ss', ls' := ss, ls;
    } else {
      assert (path[0], path[0 + 1]) in Steps(c);
      var l: Label :| Next(c, path[0], l, path[1]);
      OneMore(c, ss, ls, l, path[1]);
      TailChain(Steps(c), path);
      ss', ls' := Extend(c, ss + [path[1]], ls + [l], path[1..]);
    }
  }

  lemma TailChain<S(!new)>(step: iset<(S, S)>, path: seq<S>)
    requires Chain(step, path) && |path| > 1
    ensures Chain(step, path[1..])
  {
    forall i | 0 <= i < |path| - 2 ensures (path[1..][i], path[1..][i + 1]) in step {
      assert (path[i + 1], path[i + 1 + 1]) in step;
    }
  }

  /** What the workers leave alone. */
  predicate Beside(s: State, s': State) {
    && s'.b.busy == s.b.busy && s'.hand == s.hand && s'.unmap == s.unmap && s'.flush == s.flush
    && s'.managing == s.managing && s'.thresholds == s.thresholds
  }

  // ----- a fill runs to its end -----

  function NextFill(phase: FillPhase): FillStep {
    match phase
    case FQueued => FillStart
    case FLift => FillLift
    case FLoad => FillLoad
    case FCopy(_) => FillCopy
    case FDone => FillFinish
  }

  function FillRank(phase: FillPhase): nat {
    match phase
    case FQueued => 4
    case FLoad => 3
    case FLift => 2
    case FCopy(_) => 2
    case FDone => 1
  }

  lemma FillEnabled(c: Config, s: State, t: nat)
    requires IndexI(c, s) && FillsI(s) && MirrorI(c, s) && t in s.fills && LockFree(s)
    ensures CanFill(s, NextFill(s.fills[t].phase), t)
  {
    assert FillOk(s.b.desc[s.fills[t].d], s.fills[t].phase, s.mem, s.store);
  }

  /** The fill item `t` has gone one phase further or has ended. */
  predicate FillMoved(s: State, t: nat, s': State)
    requires t in s.fills
  {
    && Beside(s, s') && s'.evicts == s.evicts && |s'.b.desc| == |s.b.desc|
    && if t in s'.fills
       then s'.fills == s.fills[t := s'.fills[t]] && s'.fills[t].d == s.fills[t].d
            && FillRank(s'.fills[t].phase) < FillRank(s.fills[t].phase)
       else s'.fills == s.fills - {t} && s.fills[t].d < |s'.b.desc| && s'.b.desc[s.fills[t].d].state == PRESENT
  }

  lemma FillMoves(s: State, t: nat)
    requires ValidFill(s, t) && CanFill(s, NextFill(s.fills[t].phase), t)
    requires FillOk(s.b.desc[s.fills[t].d], s.fills[t].phase, s.mem, s.store)
    ensures FillMoved(s, t, DoFill(s, NextFill(s.fills[t].phase), t))
  {
    match s.fills[t].phase
    case FDone => FinishMoves(s, t);
    case FCopy(_) => CopyMoves(s, t);
    case _ =>
  }

  lemma FinishMoves(s: State, t: nat)
    requires CanFill(s, FillFinish, t) && FillOk(s.b.desc[s.fills[t].d], FDone, s.mem, s.store)
    ensures FillMoved(s, t, DoFill(s, FillFinish, t))
  {
  }

  lemma CopyMoves(s: State, t: nat)
    requires CanFill(s, FillCopy, t)
    ensures FillMoved(s, t, DoFillCopy(s, t))
  {
  }

  // ----- an eviction runs to its end -----

  function NextEvict(phase: EvictPhase): EvictStep {
    match phase
    case EQueued => EvictStart
    case EProtect => EvictProtect
    case EWrite => EvictWrite
    case EClear => EvictClear
    case EDrop => EvictDrop
    case EFree => EvictFinish
  }

  function EvictRank(phase: EvictPhase): nat {
    match phase
    case EQueued => 6
    case EProtect => 5
    case EWrite => 4
    case EClear => 3
    case EDrop => 2
    case EFree => 1
  }

  /** The evict item `t` has gone one phase further or has ended. */
  predicate EvictMoved(s: State, t: nat, s': State)
    requires t in s.evicts
  {
    && Beside(s, s') && s'.fills == s.fills
    && if t in s'.evicts
       then s'.evicts == s.evicts[t := s'.evicts[t]] && EvictRank(s'.evicts[t].phase) < EvictRank(s.evicts[t].phase)
       else s'.evicts == s.evicts - {t}
  }

  lemma EvictMoves(s: State, t: nat)
    requires ValidEvict(s, t) && LockFree(s) && s.evicts[t].kind != FLUSH
    requires CanEvict(s, NextEvict(s.evicts[t].phase), t)
    ensures EvictMoved(s, t, DoEvict(s, NextEvict(s.evicts[t].phase), t))
  {
    match s.evicts[t].phase
    case EFree => FreeMoves(s, t);
    case EProtect => ProtectMoves(s, t);
    case EWrite => WriteMoves(s, t);
    case EClear => ClearMoves(s, t);
    case EDrop =>
    case EQueued =>
  }

  lemma ProtectMoves(s: State, t: nat)
    requires ValidEvict(s, t) && s.evicts[t].phase == EProtect
    ensures EvictMoved(s, t, DoEvictProtect(s, t))
  {
  }

  lemma WriteMoves(s: State, t: nat)
    requires ValidEvict(s, t) && s.evicts[t].phase == EWrite
    ensures EvictMoved(s, t, DoEvictWrite(s, t))
  {
  }

  lemma ClearMoves(s: State, t: nat)
    requires ValidEvict(s, t) && s.evicts[t].phase == EClear
    ensures EvictMoved(s, t, DoEvictClear(s, t))
  {
  }

  lemma FreeMoves(s: State, t: nat)
    requires CanEvict(s, EvictFinish, t)
    ensures EvictMoved(s, t, DoEvict(s, EvictFinish, t))
  {
    assert MarkFree(s.b, s.evicts[t].d).busy == s.b.busy;
  }

  // ----- everything but the manager runs to its end -----

  ghost function FillRanks(s: State): map<nat, nat> { map t | t in s.fills :: FillRank(s.fills[t].phase) }
  ghost function EvictRanks(s: State): map<nat, nat> { map t | t in s.evicts :: EvictRank(s.evicts[t].phase) }

  /** What is left to do without the manager. */
  ghost function Rank(s: State): nat {
    40 * |s.b.busy| + (if s.unmap.Dispatch? then 20 else 0) + Total(FillRanks(s)) + Total(EvictRanks(s))
  }

  lemma FillLowers(s: State, t: nat, s': State)
    requires t in s.fills && FillMoved(s, t, s')
    ensures Total(FillRanks(s')) < Total(FillRanks(s)) && EvictRanks(s') == EvictRanks(s)
  {
    var m := FillRanks(s);
    TotalWithout(m, t);
    if t in s'.fills {
      TotalUpdate(m, t, FillRank(s'.fills[t].phase));
      assert FillRanks(s') == m[t := FillRank(s'.fills[t].phase)];
    } else {
      assert FillRanks(s') == m - {t};
    }
  }

  lemma EvictLowers(s: State, t: nat, s': State)
    requires t in s.evicts && EvictMoved(s, t, s')
    ensures Total(EvictRanks(s')) < Total(EvictRanks(s)) && FillRanks(s') == FillRanks(s)
  {
    var m := EvictRanks(s);
    TotalWithout(m, t);
    if t in s'.evicts {
      TotalUpdate(m, t, EvictRank(s'.evicts[t].phase));
      assert EvictRanks(s') == m[t := EvictRank(s'.evicts[t].phase)];
    } else {
      assert EvictRanks(s') == m - {t};
    }
  }

  /** One step towards the end that leaves the manager's hand alone. */
  ghost predicate Nearer(c: Config, s: State, s': State) {
    Linked(c, s, s') && Inv(c, s') && Draining(s') && s'.hand == s.hand && Rank(s') < Rank(s)
  }

  lemma DispatchGoesOn(c: Config, s: State) returns (s': State)
    requires Inv(c, s) && s.unmap.Dispatch?
    ensures Nearer(c, s, s')
  {
    var d := s.unmap.d;
    assert Held(s.hand, s.unmap, d);
    if s.b.desc[d].dirty {
      var t := Unused(s.evicts.Keys);
      SendLowers(s, t);
      s' := StepOf(c, s, UnmapBy(DrainSend(t)));
    } else {
      FreeLowers(s);
      s' := StepOf(c, s, UnmapBy(DrainFree));
    }
  }

  lemma StepOf(c: Config, s: State, l: Label) returns (s': State)
    requires Inv(c, s) && Can(c, s, l)
    ensures s' == Do(c, s, l) && Linked(c, s, s') && Inv(c, s')
  {
    s' := Do(c, s, l);
    assert Next(c, s, l, s');
    StepKeeps(c, s, l);
  }

  lemma SendLowers(s: State, t: nat)
    requires CanDrainSend(s, t)
    ensures var s' := DoDrainSend(s, t); Draining(s') && s'.hand == s.hand && Rank(s') < Rank(s)
  {
    var s' := DoDrainSend(s, t);
    assert EvictRanks(s') == EvictRanks(s)[t := 6];
    TotalAdd(EvictRanks(s), t, 6);
    assert FillRanks(s') == FillRanks(s);
  }

  lemma FreeLowers(s: State)
    requires CanDrainFree(s)
    ensures var s' := DoDrainFree(s); Draining(s') && s'.hand == s.hand && Rank(s') < Rank(s)
  {
    var s' := DoDrainFree(s);
    assert MarkFree(s.b, s.unmap.d).busy == s.b.busy;
    assert FillRanks(s') == FillRanks(s) && EvictRanks(s') == EvictRanks(s);
  }

  lemma OldestLowers(s: State)
    requires CanDrainOldest(s)
    ensures var s' := DoDrainOldest(s); Draining(s') && s'.hand == s.hand && Rank(s') < Rank(s)
  {
    var s' := DoDrainOldest(s);
    assert FillRanks(s') == FillRanks(s) && EvictRanks(s') == EvictRanks(s);
  }

  lemma ReleaseLowers(s: State)
    requires CanDrainRelease(s)
    ensures var s' := s.(b := ReleaseOldest(s.b)); Draining(s') && s'.hand == s.hand && Rank(s') < Rank(s)
  {
    var s' := s.(b := ReleaseOldest(s.b));
    assert FillRanks(s') == FillRanks(s) && EvictRanks(s') == EvictRanks(s);
  }

  /** With the workers idle the oldest descriptor is ready to be taken or released. */
  lemma OldestIsReady(c: Config, s: State)
    requires ListsI(c, s) && ActiveI(s) && FillsI(s) && EvictsI(s) && s.unmap.Drain?
    requires s.fills == map[] && s.evicts == map[] && s.b.busy != []
    ensures CanDrainRelease(s) || CanDrainOldest(s)
  {
    var d := s.b.busy[|s.b.busy| - 1];
    assert d in s.b.busy && !HasFill(s.fills, d) && !HasEvict(s.evicts, d);
    assert s.b.desc[d].deferred ==> !Held(s.hand, s.unmap, d);
  }

  /** Nearer to the end, apart from what is the same for every step. */
  ghost predicate Closer(s: State, s': State) { Draining(s') && s'.hand == s.hand && Rank(s') < Rank(s) }

  lemma FillCloser(s: State, t: nat)
    requires ValidFill(s, t) && CanFill(s, NextFill(s.fills[t].phase), t) && Draining(s)
    requires FillOk(s.b.desc[s.fills[t].d], s.fills[t].phase, s.mem, s.store)
    ensures Closer(s, DoFill(s, NextFill(s.fills[t].phase), t))
  {
    FillMoves(s, t);
    FillLowers(s, t, DoFill(s, NextFill(s.fills[t].phase), t));
  }

  lemma FillGoesOn(c: Config, s: State, t: nat) returns (s': State)
    requires Inv(c, s) && Draining(s) && t in s.fills
    ensures Nearer(c, s, s') && SamePlace(s, s')
  {
    FillEnabled(c, s, t);
    assert FillOk(s.b.desc[s.fills[t].d], s.fills[t].phase, s.mem, s.store);
    FillCloser(s, t);
    FillKeepsResident(s, t);
    s' := StepOf(c, s, Fill(NextFill(s.fills[t].phase), t));
  }

  lemma EvictCloser(s: State, t: nat)
    requires EvictsI(s) && LockFree(s) && Draining(s) && t in s.evicts
    ensures CanEvict(s, NextEvict(s.evicts[t].phase), t) && Closer(s, DoEvict(s, NextEvict(s.evicts[t].phase), t))
  {
    assert EvictOk(s.b.desc[s.evicts[t].d], s.evicts[t], s.mem, s.store, s.unmap, s.flush);
    EvictMoves(s, t);
    EvictLowers(s, t, DoEvict(s, NextEvict(s.evicts[t].phase), t));
  }

  lemma EvictGoesOn(c: Config, s: State, t: nat) returns (s': State)
    requires Inv(c, s) && Draining(s) && t in s.evicts
    ensures Nearer(c, s, s')
  {
    EvictCloser(s, t);
    s' := StepOf(c, s, Evict(NextEvict(s.evicts[t].phase), t));
  }

  lemma QueueGoesOn(c: Config, s: State) returns (s': State)
    requires Inv(c, s) && s.unmap.Drain? && s.fills == map[] && s.evicts == map[] && s.b.busy != []
    ensures Nearer(c, s, s')
  {
    OldestIsReady(c, s);
    if CanDrainRelease(s) {
      ReleaseLowers(s);
      s' := StepOf(c, s, UnmapBy(DrainRelease));
    } else {
      OldestLowers(s);
      s' := StepOf(c, s, UnmapBy(DrainOldest));
    }
  }

  lemma DrainGoesOn(c: Config, s: State) returns (s': State)
    requires Inv(c, s) && Draining(s) && !Drained(s)
    ensures Nearer(c, s, s')
  {
    if s.unmap.Dispatch? {
      s' := DispatchGoesOn(c, s);
    } else if t :| t in s.fills {
      s' := FillGoesOn(c, s, t);
    } else if t :| t in s.evicts {
      s' := EvictGoesOn(c, s, t);
    } else {
      s' := QueueGoesOn(c, s);
    }
  }

  // ----- the schedule -----

  ghost function Holding(c: Config, hand: seq<nat>): iset<State> {
    iset s | Inv(c, s) && Draining(s) && s.hand == hand
  }

  ghost function DrainedStates(): iset<State> { iset s: State | Drained(s) }

  ghost function Ranker(): State -> nat { (s: State) => Rank(s) }

  /** A chain of steps from `s` to `x`, all inside the drain. */
  ghost predicate Way(c: Config, s: State, path: seq<State>, x: State) {
    && Chain(Steps(c), path) && path[0] == s && path[|path| - 1] == x
    && forall i :: 0 <= i < |path| ==> Draining(path[i])
  }

  lemma WayJoin(c: Config, s: State, a: seq<State>, y: State, b: seq<State>, x: State) returns (path: seq<State>)
    requires Way(c, s, a, y) && Way(c, y, b, x)
    ensures Way(c, s, path, x)
  {
    ChainJoin(Steps(c), a, b);
    path := a + b[1..];
  }

  lemma DrainEnds(c: Config, s: State) returns (path: seq<State>, x: State)
    requires Inv(c, s) && Draining(s)
    ensures Way(c, s, path, x) && Inv(c, x) && Drained(x) && x.hand == s.hand
  {
    var good, goal := Holding(c, s.hand), DrainedStates();
    forall z | z in good && z !in goal
      ensures exists y :: (z, y) in Steps(c) && y in good && Ranker()(y) < Ranker()(z)
    {
      var y := DrainGoesOn(c, z);
      assert (z, y) in Steps(c) && y in good && Ranker()(y) < Ranker()(z);
    }
    path := Exhaust(Steps(c), good, goal, Ranker(), s);
    x := path[|path| - 1];
  }

  /** First let the fills finish, so that the resident pages are PRESENT. */
  ghost predicate SamePlace(s: State, s': State) {
    && s'.b.busy == s.b.busy && s'.hand == s.hand && s'.managing == s.managing && s'.thresholds == s.thresholds
    && |s'.b.desc| == |s.b.desc| && forall d :: 0 <= d < |s.b.desc| && Resident(s.b.desc[d]) ==> Resident(s'.b.desc[d])
  }

  ghost function Filling(c: Config, s: State): iset<State> {
    iset x | Inv(c, x) && Draining(x) && SamePlace(s, x)
  }

  ghost function FilledStates(): iset<State> { iset s: State | s.fills == map[] }

  lemma FillKeepsResident(s: State, t: nat)
    requires ValidFill(s, t) && CanFill(s, NextFill(s.fills[t].phase), t)
    requires FillOk(s.b.desc[s.fills[t].d], s.fills[t].phase, s.mem, s.store)
    ensures SamePlace(s, DoFill(s, NextFill(s.fills[t].phase), t))
  {
    match s.fills[t].phase
    case FDone => FinishKeepsResident(s, t);
    case FCopy(_) => CopyKeepsResident(s, t);
    case _ =>
  }

  lemma FinishKeepsResident(s: State, t: nat)
    requires CanFill(s, FillFinish, t)
    ensures SamePlace(s, DoFill(s, FillFinish, t))
  {
  }

  lemma CopyKeepsResident(s: State, t: nat)
    requires CanFill(s, FillCopy, t)
    ensures SamePlace(s, DoFillCopy(s, t))
  {
  }

  lemma FillsEnd(c: Config, s: State) returns (path: seq<State>, x: State)
    requires Inv(c, s) && Draining(s)
    ensures Way(c, s, path, x) && Inv(c, x) && SamePlace(s, x) && x.fills == map[]
  {
    var good, goal := Filling(c, s), FilledStates();
    forall z | z in good && z !in goal
      ensures exists y :: (z, y) in Steps(c) && y in good && Ranker()(y) < Ranker()(z)
    {
      var t :| t in z.fills;
      var y := FillGoesOn(c, z, t);
      assert (z, y) in Steps(c) && y in good && Ranker()(y) < Ranker()(z);
    }
    path := Exhaust(Steps(c), good, goal, Ranker(), s);
    x := path[|path| - 1];
  }

  // ----- the manager takes pages -----

  lemma {:induction false} TakesSomething(desc: seq<Desc>, busy: seq<nat>, quota: nat, d: nat)
    requires d in busy && Evictable(desc, d) && quota > 0
    ensures ScanOldest(desc, busy, quota).evicted != []
    decreases |busy|
  {
    var last, older := busy[|busy| - 1], busy[..|busy| - 1];
    if !Evictable(desc, last) {
      assert busy == older + [last] && d in older;
      TakesSomething(desc, older, quota, d);
    }
  }

  /** Without fills under way a resident page may be taken. */
  lemma ResidentIsEvictable(s: State, d: nat)
    requires ActiveI(s) && FillsI(s) && Draining(s) && s.fills == map[]
    requires d < |s.b.desc| && Resident(s.b.desc[d])
    ensures Evictable(s.b.desc, d)
  {
    assert !HasFill(s.fills, d);
  }

  lemma WakeIfNeeded(c: Config, s: State) returns (path: seq<State>, x: State)
    requires Inv(c, s) && Draining(s) && (s.managing || s.thresholds > 0)
    ensures Way(c, s, path, x) && Inv(c, x) && x.managing && x.hand == s.hand && x.b == s.b && x.fills == s.fills
  {
    if s.managing {
      path, x := [s], s;
    } else {
      x := StepOf(c, s, Manage(ManagerWake));
      path := WayStep(c, s, x);
    }
  }

  lemma BatchHolds(c: Config, s: State)
    requires ActiveI(s) && FillsI(s) && Draining(s) && s.fills == map[] && SomeResident(s.b)
    ensures DoBatch(s).hand != [] && Draining(DoBatch(s))
  {
    var d :| d in s.b.busy && d < |s.b.desc| && Resident(s.b.desc[d]);
    ResidentIsEvictable(s, d);
    TakesSomething(s.b.desc, s.b.busy, MAX_EVICTED, d);
  }

  lemma ManagerTakes(c: Config, s: State) returns (path: seq<State>, x: State)
    requires Inv(c, s) && Draining(s) && s.managing && s.hand == [] && s.fills == map[]
    requires |s.b.busy| > c.low && SomeResident(s.b)
    ensures Way(c, s, path, x) && Inv(c, x) && x.hand != []
  {
    BatchHolds(c, s);
    x := StepOf(c, s, Manage(ManagerBatch));
    path := WayStep(c, s, x);
  }

  lemma WayStep(c: Config, s: State, x: State) returns (path: seq<State>)
    requires Linked(c, s, x) && Draining(s) && Draining(x)
    ensures Way(c, s, path, x)
  {
    path := [s, x];
    assert (path[0], path[1]) in Steps(c);
  }

  lemma HoldsAfterFills(c: Config, s: State) returns (path: seq<State>, x: State)
    requires Inv(c, s) && Draining(s) && s.hand == [] && s.fills == map[] && (s.managing || s.thresholds > 0)
    requires |s.b.busy| > c.low && SomeResident(s.b)
    ensures Way(c, s, path, x) && Inv(c, x) && x.hand != []
  {
    var a, y := WakeIfNeeded(c, s);
    var b;
    b, x := ManagerTakes(c, y);
    path := WayJoin(c, s, a, y, b, x);
  }

  lemma ResidentStays(s: State, x: State)
    requires SamePlace(s, x) && SomeResident(s.b)
    ensures SomeResident(x.b)
  {
    var d :| d in s.b.busy && d < |s.b.desc| && Resident(s.b.desc[d]);
    assert d in x.b.busy && Resident(x.b.desc[d]);
  }

  /** From a state at risk the manager can come to hold pages. */
  lemma ComesToHold(c: Config, s: State) returns (path: seq<State>, x: State)
    requires Inv(c, s) && Draining(s) && AtRisk(c, s)
    ensures Way(c, s, path, x) && Inv(c, x) && x.hand != []
  {
    if s.hand != [] {
      path, x := [s], s;
    } else {
      var a, y := FillsEnd(c, s);
      ResidentStays(s, y);
      var b;
      b, x := HoldsAfterFills(c, y);
      path := WayJoin(c, s, a, y, b, x);
    }
  }

  lemma RiskIsReal(c: Config, s: State) returns (path: seq<State>, x: State)
    requires Inv(c, s) && Draining(s) && AtRisk(c, s)
    ensures Way(c, s, path, x) && Inv(c, x) && Drained(x) && x.hand != []
  {
    var a, y := ComesToHold(c, s);
    var b;
    b, x := DrainEnds(c, y);
    path := WayJoin(c, s, a, y, b, x);
  }

  // ----- the exact condition -----

  /** The run ends with the step that begins to unmap the last region. */
  predicate BeginsLast(c: Config, ss: seq<State>, ls: seq<Label>) {
    && IsRun(c, ss, ls) && |ls| > 0 && ls[|ls| - 1].UnmapBy? && ls[|ls| - 1].unmap.UnmapBegin?
    && |ss[|ls| - 1].open| <= 1
  }

  /** A longer run whose additional states all belong to the drain. */
  ghost predicate DrainsOn(c: Config, ss: seq<State>, ls: seq<Label>, ss': seq<State>, ls': seq<Label>) {
    IsRun(c, ss', ls') && ss <= ss' && ls <= ls' && forall k :: |ls| <= k < |ss'| ==> Draining(ss'[k])
  }

  /** Some continuation gets to the end of the code's loop and wait with pages still present. */
  ghost predicate CanMiss(c: Config, ss: seq<State>, ls: seq<Label>) {
    exists ss': seq<State>, ls': seq<Label> ::
      DrainsOn(c, ss, ls, ss', ls') && Drained(ss'[|ls'|]) && ss'[|ls'|].b.present != map[]
  }

  lemma DrainEndLeaves(c: Config, s: State, l: Label, s': State)
    requires Next(c, s, l, s') && Draining(s')
    ensures l != UnmapBy(DrainEnd)
  {
  }

  lemma SafeCannotMiss(c: Config, ss: seq<State>, ls: seq<Label>, ss': seq<State>, ls': seq<Label>)
    requires BeginsLast(c, ss, ls) && !AtRisk(c, ss[|ls| - 1]) && DrainsOn(c, ss, ls, ss', ls') && Drained(ss'[|ls'|])
    ensures ss'[|ls'|].b.present == map[]
  {
    var j := |ls| - 1;
    assert ss'[j] == ss[j] && ls'[j] == ls[j];
    forall k | j < k < |ls'| ensures ls'[k] != UnmapBy(DrainEnd) {
      StepAt(c, ss', ls', k);
      DrainEndLeaves(c, ss'[k], ls'[k], ss'[k + 1]);
    }
    SafeDrainIsDurable(c, ss', ls', j, |ls'|);
  }

  lemma RiskCanMiss(c: Config, ss: seq<State>, ls: seq<Label>)
    requires BeginsLast(c, ss, ls) && AtRisk(c, ss[|ls| - 1])
    ensures CanMiss(c, ss, ls)
  {
    FirstStep(c, ss, ls, |ls| - 1);
    RunKeeps(c, ss, ls, |ls|);
    var path, x := RiskIsReal(c, ss[|ls|]);
    PresentWhileHeld(c, x);
    WayIsMiss(c, ss, ls, path, x);
  }

  lemma WayIsMiss(c: Config, ss: seq<State>, ls: seq<Label>, path: seq<State>, x: State)
    requires IsRun(c, ss, ls) && Way(c, ss[|ls|], path, x) && Drained(x) && x.b.present != map[]
    ensures CanMiss(c, ss, ls)
  {
    var ss', ls' := Extend(c, ss, ls, path);
    WayDrainsOn(c, ss, ls, path, ss', ls');
    assert ss'[|ls'|] == x;
  }

  lemma WayDrainsOn(c: Config, ss: seq<State>, ls: seq<Label>, path: seq<State>, ss': seq<State>, ls': seq<Label>)
    requires |path| > 0 && IsRun(c, ss', ls') && ss' == ss + path[1..] && ls <= ls' && |ss| == |ls| + 1
    requires path[0] == ss[|ls|] && forall i :: 0 <= i < |path| ==> Draining(path[i])
    ensures DrainsOn(c, ss, ls, ss', ls')
  {
    forall k | |ls| <= k < |ss'| ensures Draining(ss'[k]) {
      assert ss'[k] == path[k - |ls|];
    }
  }

  lemma PresentWhileHeld(c: Config, s: State)
    requires Inv(c, s) && s.hand != []
    ensures s.b.present != map[]
  {
    HeldIsPresent(c, s);
  }

  /** Draining can end with pages still present iff the unmap begins in a state at risk: the
      evict manager holds pages, or it is at work or has been called while more than the
      low-water number of descriptors is busy and one of them has a page. */
  lemma DrainExact(c: Config, ss: seq<State>, ls: seq<Label>)
    requires BeginsLast(c, ss, ls)
    ensures CanMiss(c, ss, ls) <==> AtRisk(c, ss[|ls| - 1])
  {
    if AtRisk(c, ss[|ls| - 1]) {
      RiskCanMiss(c, ss, ls);
    } else {
      forall ss': seq<State>, ls': seq<Label> | DrainsOn(c, ss, ls, ss', ls') && Drained(ss'[|ls'|])
        ensures ss'[|ls'|].b.present == map[]
      {
        SafeCannotMiss(c, ss, ls, ss', ls');
      }
    }
  }
}
