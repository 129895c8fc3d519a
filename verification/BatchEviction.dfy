/** Which pages a batch eviction takes, and when its loop stays inside the deque. */
module BatchEviction {
  import opened PageBuffer

  /** The pages that may go, oldest first. */
  function Candidates(desc: seq<Desc>, busy: seq<nat>): seq<nat> {
    if busy == [] then []
    else
      var older := Candidates(desc, busy[..|busy| - 1]);
      if Evictable(desc, busy[|busy| - 1]) then [busy[|busy| - 1]] + older else older
  }

  /** The pages that may not go, oldest first. */
  function Skipped(desc: seq<Desc>, busy: seq<nat>): seq<nat> {
    if busy == [] then []
    else
      var older := Skipped(desc, busy[..|busy| - 1]);
      if Evictable(desc, busy[|busy| - 1]) then older else [busy[|busy| - 1]] + older
  }

  /** A batch is exactly the oldest candidates, oldest first, as many as the quota
      allows; the newest part of the deque is untouched and what was scanned and not
      taken is put back oldest first behind it. */
  lemma {:induction false} BatchTakesOldest(desc: seq<Desc>, busy: seq<nat>, quota: nat) returns (k: nat)
    ensures k <= |busy|
    ensures var s, all := ScanOldest(desc, busy, quota), Candidates(desc, busy);
            && s.evicted == all[..if |all| < quota then |all| else quota]
            && s.kept == busy[..k]
            && s.pending == Skipped(desc, busy[k..])
            && s.evicted == Candidates(desc, busy[k..])
            && (k == 0 || |s.evicted| == quota)
    decreases |busy|
  {
    if busy == [] || quota == 0 {
      k := |busy|;
      assert busy[k..] == [];
    } else {
      var d, older := busy[|busy| - 1], busy[..|busy| - 1];
      k := BatchTakesOldest(desc, older, if Evictable(desc, d) then quota - 1 else quota);
      assert busy[k..][..|busy[k..]| - 1] == older[k..];
      assert busy[..k] == older[..k];
    }
  }

  /** Nothing is lost or made up: what was busy is still busy or has been taken, and only
      candidates are taken. */
  lemma {:induction false} BatchConserves(desc: seq<Desc>, busy: seq<nat>, quota: nat)
    ensures var s := ScanOldest(desc, busy, quota);
            multiset(busy) == multiset(s.kept + s.pending) + multiset(s.evicted)
    ensures forall d :: d in ScanOldest(desc, busy, quota).evicted ==> Evictable(desc, d)
    decreases |busy|
  {
    if busy != [] && quota > 0 {
      var d, older := busy[|busy| - 1], busy[..|busy| - 1];
      var quota' := if Evictable(desc, d) then quota - 1 else quota;
      BatchConserves(desc, older, quota');
      SplitMore(older, d, ScanOldest(desc, older, quota'));
      assert busy == older + [d];
    }
  }

  /** Putting one more descriptor on either side of a split. */
  lemma SplitMore(older: seq<nat>, d: nat, s: Split)
    requires multiset(older) == multiset(s.kept + s.pending) + multiset(s.evicted)
    ensures multiset(older + [d]) == multiset(s.kept + s.pending) + multiset([d] + s.evicted)
    ensures multiset(older + [d]) == multiset(s.kept + ([d] + s.pending)) + multiset(s.evicted)
  {
    assert s.kept + ([d] + s.pending) == s.kept + [d] + s.pending;
  }

  /** A batch takes every candidate if there are no more than 32, and 32 otherwise. */
  lemma BatchSize(desc: seq<Desc>, busy: seq<nat>)
    ensures var evicted, all := ScanOldest(desc, busy, MAX_EVICTED).evicted, |Candidates(desc, busy)|;
            |evicted| == if all <= 32 then all else 32
  {
    var k := BatchTakesOldest(desc, busy, MAX_EVICTED);
  }

  // ----- the loop as written, with its unsigned index -----

  const WRAP: nat := 0x1_0000_0000_0000_0000

  /** The loop runs while fewer than 32 pages have been taken; its index is unsigned, so
      the test that it is not negative never fails and stepping below zero wraps. */
  predicate ScanInBounds(desc: seq<Desc>, busy: seq<nat>, i: nat, taken: nat)
    requires |busy| < WRAP && i < WRAP && taken <= MAX_EVICTED
    decreases if i < |busy| then i + 1 else 0
  {
    if taken == MAX_EVICTED then true
    else if i >= |busy| then false
    else
      var taken' := if Evictable(desc, busy[i]) then taken + 1 else taken;
      ScanInBounds(desc, busy, if i == 0 then WRAP - 1 else i - 1, taken')
  }

  lemma {:induction false} ScanInBoundsFrom(desc: seq<Desc>, busy: seq<nat>, i: nat, taken: nat)
    requires i < |busy| < WRAP && taken <= MAX_EVICTED
    ensures ScanInBounds(desc, busy, i, taken) <==> taken + |Candidates(desc, busy[..i + 1])| >= MAX_EVICTED
    decreases i
  {
    var upTo := busy[..i + 1];
    assert upTo[..|upTo| - 1] == busy[..i];
    if taken < MAX_EVICTED {
      var taken' := if Evictable(desc, busy[i]) then taken + 1 else taken;
      if i > 0 {
        ScanInBoundsFrom(desc, busy, i - 1, taken');
      } else {
        assert Candidates(desc, busy[..0]) == [];
      }
    }
  }

  /** The batch scan of a non-empty deque stays inside the deque exactly when at least 32 of
      its pages may be evicted. */
  lemma LiteralScanCondition(desc: seq<Desc>, busy: seq<nat>)
    requires 0 < |busy| < WRAP
    ensures ScanInBounds(desc, busy, |busy| - 1, 0) <==> |Candidates(desc, busy)| >= 32
  {
    ScanInBoundsFrom(desc, busy, |busy| - 1, 0);
    assert busy[..|busy|] == busy;
  }

  /** One resident page is enough to leave the deque. */
  lemma LiteralScanCanOverrun()
    ensures var desc := [Desc(4096, 0, PRESENT, false, false, true)];
            !ScanInBounds(desc, [0], 0, 0)
  {
    var desc := [Desc(4096, 0, PRESENT, false, false, true)];
    LiteralScanCondition(desc, [0]);
    assert |Candidates(desc, [0])| <= 1;
  }
}
