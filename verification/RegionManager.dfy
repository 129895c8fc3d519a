/** The table of mapped regions: ordered by start address, with the last hit remembered. */
module Regions {
  import opened Options

  datatype Region = Region(start: nat, size: nat) {
    function End(): nat { start + size }
    predicate Contains(v: nat) { start <= v < End() }
  }

  /** In address order, not empty, not overlapping. */
  predicate Ordered(rs: seq<Region>) {
    && (forall i :: 0 <= i < |rs| ==> rs[i].size > 0)
    && (forall i, j :: 0 <= i < j < |rs| ==> rs[i].End() <= rs[j].start)
  }

  predicate Apart(a: Region, b: Region) { a.End() <= b.start || b.End() <= a.start }

  /** Any listing of non-overlapping regions, in any order. */
  predicate Disjoint(rs: seq<Region>) {
    forall i, j :: 0 <= i < j < |rs| ==> Apart(rs[i], rs[j])
  }

  /** The reference lookup: go through a list of regions from the front. */
  function Scan(rs: seq<Region>, v: nat): Option<Region> {
    if rs == [] then None
    else if rs[0].Contains(v) then Some(rs[0])
    else Scan(rs[1..], v)
  }

  lemma {:induction false} ScanMeaning(rs: seq<Region>, v: nat)
    ensures Scan(rs, v).Some? ==> Scan(rs, v).value in rs && Scan(rs, v).value.Contains(v)
    ensures Scan(rs, v) == None ==> forall r :: r in rs ==> !r.Contains(v)
  {
    if rs != [] {
      ScanMeaning(rs[1..], v);
    }
  }

  /** What a lookup is to answer: the region from whose first address up to whose last the
      address lies, and nothing iff there is none. */
  ghost predicate Holder(rs: seq<Region>, v: nat, answer: Option<Region>) {
    && (forall r :: answer == Some(r) <==> r in rs && r.start <= v < r.start + r.size)
    && (answer == None <==> forall r :: r in rs ==> v < r.start || r.start + r.size <= v)
  }

  lemma ScanIsHolder(rs: seq<Region>, v: nat)
    requires Disjoint(rs)
    ensures Holder(rs, v, Scan(rs, v))
  {
    ScanMeaning(rs, v);
    forall r | r in rs && r.start <= v < r.start + r.size ensures Scan(rs, v) == Some(r) {
      var k :| 0 <= k < |rs| && rs[k] == r;
      ScanFinds(rs, v, k);
    }
  }

  /** Regions are apart iff no address is in both. */
  lemma ApartMeaning(a: Region, b: Region)
    requires a.size > 0 && b.size > 0
    ensures Apart(a, b) <==> forall v: nat :: !InBoth(a, b, v)
  {
    if !Apart(a, b) {
      assert InBoth(a, b, if a.start < b.start then b.start else a.start);
    }
  }

  predicate InBoth(a: Region, b: Region, v: nat) {
    a.start <= v < a.start + a.size && b.start <= v < b.start + b.size
  }

  /** On non-overlapping regions the answer is the one region that contains the address ... */
  lemma ScanFinds(rs: seq<Region>, v: nat, k: nat)
    requires Disjoint(rs) && k < |rs| && rs[k].Contains(v)
    ensures Scan(rs, v) == Some(rs[k])
  {
    ScanMeaning(rs, v);
    assert rs[k] in rs;
    var j :| 0 <= j < |rs| && rs[j] == Scan(rs, v).value;
  }

  /** ... so the order of the list does not matter. */
  lemma ScanOrder(a: seq<Region>, b: seq<Region>, v: nat)
    requires Disjoint(a) && Disjoint(b) && (forall r :: r in a <==> r in b)
    ensures Scan(a, v) == Scan(b, v)
  {
    ScanMeaning(a, v);
    ScanMeaning(b, v);
    if Scan(a, v).Some? {
      assert Scan(a, v).value in b;
      var k :| 0 <= k < |b| && b[k] == Scan(a, v).value;
      ScanFinds(b, v, k);
    }
  }

  /** In an ordered table only the last region that starts at or before the address can
      contain it. */
  lemma OnlyPredecessor(rs: seq<Region>, v: nat, n: nat, k: nat)
    requires Ordered(rs) && n <= |rs| && k < |rs|
    requires (forall i :: 0 <= i < n ==> rs[i].start <= v) && (forall i :: n <= i < |rs| ==> v < rs[i].start)
    ensures rs[k].Contains(v) ==> k == n - 1
  {
    if k < n - 1 {
      assert rs[k].End() <= rs[n - 1].start;
    }
  }

  class RegionManager {
    var regions: seq<Region>
    /** The position of the last hit; at the end of the table when there is none. */
    var last: nat
    /** Whether the paging engine (buffer, fault handler, workers) is up. */
    var engineUp: bool

    ghost predicate Valid()
      reads this
    {
      Ordered(regions) && last <= |regions| && (engineUp <==> regions != [])
    }

    constructor ()
      ensures Valid() && regions == []
    {
      regions, last, engineUp := [], 0, false;
    }

    /** The first position whose region starts after `v`. */
    method UpperBound(v: nat) returns (n: nat)
      requires Valid()
      ensures n <= |regions|
      ensures forall i :: 0 <= i < n ==> regions[i].start <= v
      ensures forall i :: n <= i < |regions| ==> v < regions[i].start
    {
      var hi := |regions|;
      n := 0;
      while n < hi
        invariant n <= hi <= |regions|
        invariant forall i :: 0 <= i < n ==> regions[i].start <= v
        invariant forall i :: hi <= i < |regions| ==> v < regions[i].start
      {
        var mid := (n + hi) / 2;
        if regions[mid].start <= v {
          StartsGrow(regions, mid);
          n := mid + 1;
        } else {
          StartsGrow(regions, mid);
          hi := mid;
        }
      }
    }

    /** The mapped address range is new, so it overlaps no region. */
    method AddRegion(start: nat, size: nat)
      requires Valid() && size > 0 && forall r :: r in regions ==> Apart(r, Region(start, size))
      modifies this
      ensures Valid() && engineUp
      ensures forall r :: r in regions <==> r in old(regions) || r == Region(start, size)
      ensures last == |regions|
    {
      var n := UpperBound(start);
      var added := Region(start, size);
      InsertOrdered(regions, n, added);
      engineUp := true;
      regions := regions[..n] + [added] + regions[n..];
      last := |regions|;
    }

    /** Removing an address that starts no region is an error and changes nothing. */
    method RemoveRegion(start: nat) returns (ok: bool)
      requires Valid()
      modifies this
      ensures Valid()
      ensures ok <==> exists r :: r in old(regions) && r.start == start
      ensures !ok ==> regions == old(regions) && last == old(last)
      ensures ok ==> forall r :: r in regions <==> r in old(regions) && r.start != start
      ensures ok ==> last == |regions|
    {
      var n := UpperBound(start);
      if n == 0 || regions[n - 1].start != start {
        StartsDiffer(regions, n, start);
        return false;
      }
      assert regions[n - 1] in regions;
      RemoveOrdered(regions, n - 1);
      regions := regions[..n - 1] + regions[n..];
      last := |regions|;
      engineUp := regions != [];
      ok := true;
    }

    /** The lookup.  Whatever the remembered position, the answer is that of the reference
        scan; the table itself is not changed. */
    method ContainingRegion(v: nat) returns (r: Option<Region>)
      requires Valid()
      modifies this`last
      ensures Valid() && r == Scan(regions, v)
      ensures Holder(regions, v, r)
    {
      OrderedIsDisjoint(regions);
      ScanIsHolder(regions, v);
      if last != |regions| && regions[last].Contains(v) {
        ScanFinds(regions, v, last);
        return Some(regions[last]);
      }
      var n := UpperBound(v);
      if n != 0 && regions[n - 1].Contains(v) {
        ScanFinds(regions, v, n - 1);
        last := n - 1;
        return Some(regions[n - 1]);
      }
      ScanMisses(regions, v, n);
      return None;
    }
  }

  lemma StartsGrow(rs: seq<Region>, m: nat)
    requires Ordered(rs) && m < |rs|
    ensures forall i :: 0 <= i < m ==> rs[i].start < rs[m].start
    ensures forall i :: m < i < |rs| ==> rs[m].start < rs[i].start
  {
    forall i | 0 <= i < m ensures rs[i].start < rs[m].start {
      assert rs[i].End() <= rs[m].start;
    }
    forall i | m < i < |rs| ensures rs[m].start < rs[i].start {
      assert rs[m].End() <= rs[i].start;
    }
  }

  lemma StartsDiffer(rs: seq<Region>, n: nat, s: nat)
    requires Ordered(rs) && n <= |rs| && (n == 0 || rs[n - 1].start != s)
    requires (forall i :: 0 <= i < n ==> rs[i].start <= s) && (forall i :: n <= i < |rs| ==> s < rs[i].start)
    ensures forall i :: 0 <= i < |rs| ==> rs[i].start != s
  {
    if n > 0 {
      StartsGrow(rs, n - 1);
    }
  }

  lemma OrderedIsDisjoint(rs: seq<Region>)
    requires Ordered(rs)
    ensures Disjoint(rs)
  {
  }

  lemma InsertOrdered(rs: seq<Region>, n: nat, r: Region)
    requires Ordered(rs) && n <= |rs| && r.size > 0 && forall x :: x in rs ==> Apart(x, r)
    requires forall i :: 0 <= i < n ==> rs[i].start <= r.start
    requires forall i :: n <= i < |rs| ==> r.start < rs[i].start
    ensures Ordered(rs[..n] + [r] + rs[n..])
    ensures forall x :: x in rs[..n] + [r] + rs[n..] <==> x in rs || x == r
  {
    InsertPlace(rs, n, r);
    InsertSorted(rs, n, r);
    InsertMembers(rs, n, r);
  }

  lemma InsertSorted(rs: seq<Region>, n: nat, r: Region)
    requires Ordered(rs) && n <= |rs| && r.size > 0
    requires forall i :: 0 <= i < n ==> rs[i].End() <= r.start
    requires forall i :: n <= i < |rs| ==> r.End() <= rs[i].start
    ensures Ordered(rs[..n] + [r] + rs[n..])
  {
    var out := rs[..n] + [r] + rs[n..];
    forall i | 0 <= i < |out| ensures out[i] == if i < n then rs[i] else if i == n then r else rs[i - 1] {
    }
  }

  lemma InsertMembers(rs: seq<Region>, n: nat, r: Region)
    requires n <= |rs|
    ensures forall x :: x in rs[..n] + [r] + rs[n..] <==> x in rs || x == r
  {
    assert rs == rs[..n] + rs[n..];
  }

  lemma InsertPlace(rs: seq<Region>, n: nat, r: Region)
    requires Ordered(rs) && n <= |rs| && r.size > 0 && forall x :: x in rs ==> Apart(x, r)
    requires forall i :: 0 <= i < n ==> rs[i].start <= r.start
    requires forall i :: n <= i < |rs| ==> r.start < rs[i].start
    ensures forall i :: 0 <= i < n ==> rs[i].End() <= r.start
    ensures forall i :: n <= i < |rs| ==> r.End() <= rs[i].start
  {
    forall i | 0 <= i < |rs| ensures Apart(rs[i], r) {
      assert rs[i] in rs;
    }
  }

  lemma RemoveOrdered(rs: seq<Region>, n: nat)
    requires Ordered(rs) && n < |rs|
    ensures Ordered(rs[..n] + rs[n + 1..])
    ensures forall x :: x in rs[..n] + rs[n + 1..] <==> x in rs && x.start != rs[n].start
  {
    var out := rs[..n] + rs[n + 1..];
    assert forall i :: 0 <= i < |out| ==> out[i] == rs[if i < n then i else i + 1];
    RemoveMembers(rs, n);
  }

  lemma RemoveMembers(rs: seq<Region>, n: nat)
    requires Ordered(rs) && n < |rs|
    ensures forall x :: x in rs[..n] + rs[n + 1..] <==> x in rs && x.start != rs[n].start
  {
    StartsGrow(rs, n);
    assert rs == rs[..n] + [rs[n]] + rs[n + 1..];
    assert forall x :: x in rs <==> x in rs[..n] || x == rs[n] || x in rs[n + 1..];
    assert rs[n] !in rs[..n] && rs[n] !in rs[n + 1..];
  }

  lemma ScanMisses(rs: seq<Region>, v: nat, n: nat)
    requires Ordered(rs) && n <= |rs| && (n == 0 || !rs[n - 1].Contains(v))
    requires (forall i :: 0 <= i < n ==> rs[i].start <= v) && (forall i :: n <= i < |rs| ==> v < rs[i].start)
    ensures Scan(rs, v) == None
  {
    ScanMeaning(rs, v);
    forall r | r in rs ensures !r.Contains(v) {
      var k :| 0 <= k < |rs| && rs[k] == r;
      OnlyPredecessor(rs, v, n, k);
    }
  }

  // ----- histories -----

  datatype Op = Add(start: nat, size: nat) | Remove(from: nat) | Lookup(v: nat)

  function Without(rs: seq<Region>, start: nat): seq<Region> {
    if rs == [] then []
    else (if rs[0].start == start then [] else [rs[0]]) + Without(rs[1..], start)
  }

  /** The reference: a plain list in order of insertion. */
  function After(list: seq<Region>, op: Op): seq<Region> {
    match op
    case Add(start, size) => list + [Region(start, size)]
    case Remove(start) => Without(list, start)
    case Lookup(_) => list
  }

  /** The answers to the lookups of a history, by linear scan of the list. */
  function Answers(list: seq<Region>, ops: seq<Op>): seq<Option<Region>>
    decreases |ops|
  {
    if ops == [] then []
    else Answer(list, ops[0]) + Answers(After(list, ops[0]), ops[1..])
  }

  /** Each region is mapped where no other region is. */
  predicate Placeable(list: seq<Region>, ops: seq<Op>)
    decreases |ops|
  {
    ops == [] ||
    (Allowed(list, ops[0]) && Placeable(After(list, ops[0]), ops[1..]))
  }

  lemma {:induction false} WithoutMembers(rs: seq<Region>, start: nat)
    ensures forall r :: r in Without(rs, start) <==> r in rs && r.start != start
  {
    if rs != [] {
      WithoutMembers(rs[1..], start);
    }
  }

  lemma {:induction false} WithoutDisjoint(rs: seq<Region>, start: nat)
    requires Disjoint(rs)
    ensures Disjoint(Without(rs, start))
  {
    if rs != [] {
      var rest := rs[1..];
      assert forall i, j :: 0 <= i < j < |rest| ==> rest[i] == rs[i + 1] && rest[j] == rs[j + 1];
      WithoutDisjoint(rest, start);
      WithoutMembers(rest, start);
      forall r | r in rest ensures Apart(rs[0], r) {
        var k :| 0 <= k < |rest| && rest[k] == r;
        assert rs[k + 1] == r;
      }
    }
  }

  /** The table object and the plain list are about the same regions. */
  ghost predicate Mirrors(table: seq<Region>, list: seq<Region>) {
    Disjoint(list) && forall r :: r in table <==> r in list
  }

  predicate Allowed(list: seq<Region>, op: Op) {
    op.Add? ==> op.size > 0 && forall r :: r in list ==> Apart(r, Region(op.start, op.size))
  }

  function Answer(list: seq<Region>, op: Op): seq<Option<Region>> { if op.Lookup? then [Scan(list, op.v)] else [] }

  method Apply(rm: RegionManager, op: Op, ghost list: seq<Region>) returns (answer: seq<Option<Region>>)
    requires rm.Valid() && Mirrors(rm.regions, list) && Allowed(list, op)
    modifies rm
    ensures rm.Valid() && Mirrors(rm.regions, After(list, op)) && answer == Answer(list, op)
  {
    answer := [];
    match op {
      case Add(start, size) =>
        rm.AddRegion(start, size);
      case Remove(start) =>
        WithoutMembers(list, start);
        WithoutDisjoint(list, start);
        var ok := rm.RemoveRegion(start);
      case Lookup(v) =>
        OrderedIsDisjoint(rm.regions);
        ScanOrder(rm.regions, list, v);
        var r := rm.ContainingRegion(v);
        answer := [r];
    }
  }

  // ----- what the answers mean -----

  /** After the first `n` operations the region is mapped: it has been added and not removed since. */
  ghost predicate Mapped(ops: seq<Op>, n: nat, r: Region)
    requires n <= |ops|
  {
    exists j :: 0 <= j < n && ops[j] == Add(r.start, r.size) && NotRemoved(ops, j, n, r.start)
  }

  ghost predicate NotRemoved(ops: seq<Op>, j: nat, n: nat, start: nat)
    requires n <= |ops|
  {
    forall k :: j < k < n ==> ops[k] != Remove(start)
  }

  /** The answer to a lookup is the region then mapped at the address, by its own bounds. */
  ghost predicate AnswerIs(ops: seq<Op>, n: nat, v: nat, answer: Option<Region>)
    requires n <= |ops|
  {
    && (forall r :: answer == Some(r) <==> Mapped(ops, n, r) && r.start <= v < r.start + r.size)
    && (answer == None <==> forall r :: Mapped(ops, n, r) ==> v < r.start || r.start + r.size <= v)
  }

  /** The number of lookups among the first `n` operations. */
  function Lookups(ops: seq<Op>, n: nat): nat
    requires n <= |ops|
  {
    if n == 0 then 0 else Lookups(ops, n - 1) + if ops[n - 1].Lookup? then 1 else 0
  }

  ghost predicate AllAnswered(ops: seq<Op>, n: nat, answers: seq<Option<Region>>)
    requires n <= |ops|
  {
    && |answers| == Lookups(ops, n)
    && forall i :: 0 <= i < n && ops[i].Lookup? ==>
         Lookups(ops, i) < |answers| && AnswerIs(ops, i, ops[i].v, answers[Lookups(ops, i)])
  }

  ghost predicate Lists(ops: seq<Op>, n: nat, list: seq<Region>)
    requires n <= |ops|
  {
    forall r :: r in list <==> Mapped(ops, n, r)
  }

  lemma ListsMore(ops: seq<Op>, n: nat, list: seq<Region>)
    requires n < |ops| && Lists(ops, n, list)
    ensures Lists(ops, n + 1, After(list, ops[n]))
  {
    var op := ops[n];
    forall r ensures r in After(list, op) <==> Mapped(ops, n + 1, r) {
      MappedMore(ops, n, r);
      if op.Remove? {
        WithoutMembers(list, op.from);
      }
    }
  }

  lemma MappedMore(ops: seq<Op>, n: nat, r: Region)
    requires n < |ops|
    ensures Mapped(ops, n + 1, r)
       <==> ops[n] == Add(r.start, r.size) || (Mapped(ops, n, r) && ops[n] != Remove(r.start))
  {
    if ops[n] == Add(r.start, r.size) {
      assert NotRemoved(ops, n, n + 1, r.start);
    } else if Mapped(ops, n + 1, r) {
      var j :| 0 <= j < n + 1 && ops[j] == Add(r.start, r.size) && NotRemoved(ops, j, n + 1, r.start);
      assert NotRemoved(ops, j, n, r.start);
    } else if Mapped(ops, n, r) {
      var j :| 0 <= j < n && ops[j] == Add(r.start, r.size) && NotRemoved(ops, j, n, r.start);
      assert !NotRemoved(ops, j, n + 1, r.start);
    }
  }

  lemma {:induction false} LookupsGrow(ops: seq<Op>, i: nat, n: nat)
    requires i < n <= |ops| && ops[i].Lookup?
    ensures Lookups(ops, i) < Lookups(ops, n)
    decreases n
  {
    if i < n - 1 {
      LookupsGrow(ops, i, n - 1);
    }
  }

  lemma AnsweredMore(ops: seq<Op>, n: nat, list: seq<Region>, answers: seq<Option<Region>>)
    requires n < |ops| && Disjoint(list) && Lists(ops, n, list) && AllAnswered(ops, n, answers)
    ensures AllAnswered(ops, n + 1, answers + Answer(list, ops[n]))
  {
    var more := answers + Answer(list, ops[n]);
    forall i | 0 <= i < n + 1 && ops[i].Lookup?
      ensures Lookups(ops, i) < |more| && AnswerIs(ops, i, ops[i].v, more[Lookups(ops, i)])
    {
      if i < n {
        LookupsGrow(ops, i, n);
      } else {
        ScanIsHolder(list, ops[n].v);
      }
    }
  }

  ghost predicate Replayed(ops: seq<Op>, n: nat, list: seq<Region>, answers: seq<Option<Region>>)
    requires n <= |ops|
  {
    Lists(ops, n, list) && AllAnswered(ops, n, answers)
  }

  lemma ReplayedMore(ops: seq<Op>, n: nat, list: seq<Region>, answers: seq<Option<Region>>)
    requires n < |ops| && Disjoint(list) && Replayed(ops, n, list, answers)
    ensures Replayed(ops, n + 1, After(list, ops[n]), answers + Answer(list, ops[n]))
  {
    ListsMore(ops, n, list);
    AnsweredMore(ops, n, list, answers);
  }

  lemma AfterDisjoint(list: seq<Region>, op: Op)
    requires Disjoint(list) && Allowed(list, op)
    ensures Disjoint(After(list, op))
  {
    if op.Remove? {
      WithoutDisjoint(list, op.from);
    }
  }

  lemma {:induction false} AnsweredFrom(ops: seq<Op>, n: nat, list: seq<Region>, answers: seq<Option<Region>>)
    requires n <= |ops| && Disjoint(list) && Placeable(list, ops[n..]) && Replayed(ops, n, list, answers)
    ensures AllAnswered(ops, |ops|, answers + Answers(list, ops[n..]))
    decreases |ops| - n
  {
    if n < |ops| {
      HistoryStep(list, ops, n);
      AfterDisjoint(list, ops[n]);
      ReplayedMore(ops, n, list, answers);
      AnsweredFrom(ops, n + 1, After(list, ops[n]), answers + Answer(list, ops[n]));
      Regroup(answers, Answer(list, ops[n]), Answers(After(list, ops[n]), ops[n + 1..]));
    } else {
      assert answers + [] == answers;
    }
  }

  lemma Regroup(a: seq<Option<Region>>, b: seq<Option<Region>>, c: seq<Option<Region>>)
    ensures a + (b + c) == a + b + c
  {
  }

  lemma AnswersMeaning(ops: seq<Op>)
    requires Placeable([], ops)
    ensures AllAnswered(ops, |ops|, Answers([], ops))
  {
    assert ops[0..] == ops;
    AnsweredFrom(ops, 0, [], []);
    assert [] + Answers([], ops) == Answers([], ops);
  }

  /** Over any history of mappings, unmappings and lookups the cached predecessor search gives
      the answers of the linear scan: each is the region mapped then at the address. */
  method Replay(ops: seq<Op>) returns (answers: seq<Option<Region>>)
    requires Placeable([], ops)
    ensures answers == Answers([], ops)
    ensures AllAnswered(ops, |ops|, answers)
  {
    answers := RunHistory(ops);
    AnswersMeaning(ops);
  }

  method RunHistory(ops: seq<Op>) returns (answers: seq<Option<Region>>)
    requires Placeable([], ops)
    ensures answers == Answers([], ops)
  {
    var rm := new RegionManager();
    answers := [];
    ghost var list: seq<Region> := [];
    assert ops[0..] == ops;
    for i := 0 to |ops|
      invariant rm.Valid() && Mirrors(rm.regions, list) && Placeable(list, ops[i..])
      invariant answers + Answers(list, ops[i..]) == Answers([], ops)
    {
      HistoryStep(list, ops, i);
      var answer := Apply(rm, ops[i], list);
      Regroup(answers, answer, Answers(After(list, ops[i]), ops[i + 1..]));
      answers := answers + answer;
      list := After(list, ops[i]);
    }
    assert answers + [] == answers;
  }

  lemma HistoryStep(list: seq<Region>, ops: seq<Op>, i: nat)
    requires i < |ops| && Placeable(list, ops[i..])
    ensures Allowed(list, ops[i]) && Placeable(After(list, ops[i]), ops[i + 1..])
    ensures Answers(list, ops[i..]) == Answer(list, ops[i]) + Answers(After(list, ops[i]), ops[i + 1..])
  {
    assert ops[i..][0] == ops[i] && ops[i..][1..] == ops[i + 1..];
  }
}
