/** One batch of page-fault events: align to umap pages, sort, and process each page once. */
module FaultBatch {
  import opened Bits
  import opened DivMod

  /** WRITE is bit 0 and WP (write to a protected page) is bit 1. */
  type Flags = x: int | 0 <= x < 4
  datatype Event = Event(addr: nat, flags: Flags)

  const WORD: nat := 0x1_0000_0000_0000_0000

  /** `addr & ~(pageSize - 1)` on 64 bits. */
  function Masked(addr: nat, pageSize: nat): nat
    requires pageSize <= WORD
  {
    And(addr, WORD - pageSize)
  }

  /** The start of the page that holds the address. */
  function Align(addr: nat, pageSize: nat): nat
    requires pageSize > 0
  {
    addr - addr % pageSize
  }

  /** For a page size that is a power of two the mask rounds down to the page. */
  lemma MaskIsAlign(addr: nat, k: nat)
    requires k <= 64 && addr < WORD
    ensures Pow2(k) <= WORD && Masked(addr, Pow2(k)) == Align(addr, Pow2(k))
  {
    var w := WordWidth();
    MaskClearsLow(addr, k, w, WORD);
  }

  lemma WordWidth() returns (w: nat)
    ensures w >= 64 && Pow2(w) == WORD
  {
    w := 64;
    Pow2Of64();
  }

  lemma MaskClearsLow(addr: nat, k: nat, w: nat, word: nat)
    requires k <= w && addr < word && word == Pow2(w)
    ensures Pow2(k) <= word && And(addr, word - Pow2(k)) == addr - addr % Pow2(k)
  {
    AndHigh(addr, k, w);
    LowIsMod(addr, k);
  }

  function AlignedEvent(e: Event, pageSize: nat): Event
    requires pageSize > 0
  {
    Event(Align(e.addr, pageSize), e.flags)
  }

  /** The first loop, in place; the page size is 2^k. */
  method AlignEvents(events: array<Event>, pageSize: nat, ghost k: nat)
    requires k <= 64 && pageSize == Pow2(k)
    requires forall i :: 0 <= i < events.Length ==> events[i].addr < WORD
    modifies events
    ensures IsAligned(events[..], old(events[..]), pageSize)
  {
    Pow2Of64();
    PowGrows(k, 64);
    for i := 0 to events.Length
      invariant forall j :: 0 <= j < i ==> events[j] == AlignedEvent(old(events[j]), pageSize)
      invariant forall j :: i <= j < events.Length ==> events[j] == old(events[j])
    {
      MaskIsAlign(events[i].addr, k);
      events[i] := Event(Masked(events[i].addr, pageSize), events[i].flags);
    }
  }

  /** The comparison of the sort: by address, then by flags downwards. */
  predicate Less(a: Event, b: Event) {
    if a.addr == b.addr then a.flags > b.flags else a.addr < b.addr
  }

  predicate Sorted(es: seq<Event>) {
    forall i, j :: 0 <= i < j < |es| ==> !Less(es[j], es[i])
  }

  datatype Call = Call(addr: nat, write: bool)

  /** The test the code makes: by operator precedence, `flags & ((WP | WRITE) != 0)`. */
  predicate TestsAsWrite(flags: Flags) { flags % 2 == 1 }

  /** The call is made for the event with the largest flags of its page. */
  ghost predicate FromTop(es: seq<Event>, c: Call) {
    exists j :: 0 <= j < |es| && es[j].addr == c.addr && c.write == TestsAsWrite(es[j].flags)
                && forall m :: 0 <= m < |es| && es[m].addr == c.addr ==> es[m].flags <= es[j].flags
  }

  lemma FirstIsTop(es: seq<Event>, i: nat)
    requires Sorted(es) && i < |es| && (i == 0 || es[i - 1].addr != es[i].addr)
    ensures forall m :: 0 <= m < |es| && es[m].addr == es[i].addr ==> es[m].flags <= es[i].flags
  {
    forall m | 0 <= m < |es| ensures es[m].addr == es[i].addr ==> es[m].flags <= es[i].flags {
      if m < i {
        assert !Less(es[i], es[i - 1]) && (m == i - 1 || !Less(es[i - 1], es[m]));
      } else if m > i {
        assert !Less(es[m], es[i]);
      }
    }
  }

  /** The loop over the sorted events. */
  method ProcessSorted(es: seq<Event>) returns (calls: seq<Call>)
    requires Sorted(es)
    ensures forall a, b :: 0 <= a < b < |calls| ==> calls[a].addr < calls[b].addr
    ensures forall k :: 0 <= k < |calls| ==> calls[k].addr != 0 && FromTop(es, calls[k])
    ensures forall i :: 0 <= i < |es| && es[i].addr != 0 ==> Called(calls, es[i].addr)
  {
    calls := [];
    var lastAddr := 0;
    for i := 0 to |es|
      invariant lastAddr == if i == 0 then 0 else es[i - 1].addr
      invariant forall a, b :: 0 <= a < b < |calls| ==> calls[a].addr < calls[b].addr
      invariant forall k :: 0 <= k < |calls| ==> 0 < calls[k].addr <= lastAddr && FromTop(es, calls[k])
      invariant forall j :: 0 <= j < i && es[j].addr != 0 ==> Called(calls, es[j].addr)
    {
      if es[i].addr == lastAddr {
        continue;
      }
      FirstIsTop(es, i);
      assert i > 0 ==> !Less(es[i], es[i - 1]);
      lastAddr := es[i].addr;
      ghost var before := calls;
      calls := calls + [Call(lastAddr, TestsAsWrite(es[i].flags))];
      assert FromTop(es, calls[|calls| - 1]);
      forall j | 0 <= j < i + 1 && es[j].addr != 0 ensures Called(calls, es[j].addr) {
        if j < i {
          var k :| 0 <= k < |before| && before[k].addr == es[j].addr;
          assert calls[k].addr == es[j].addr;
        } else {
          assert calls[|calls| - 1].addr == es[j].addr;
        }
      }
    }
  }

  // ----- the whole batch -----

  ghost predicate IsAligned(es: seq<Event>, raw: seq<Event>, pageSize: nat)
    requires pageSize > 0
  {
    |es| == |raw| && forall i :: 0 <= i < |es| ==> es[i] == AlignedEvent(raw[i], pageSize)
  }

  /** Some raw event falls in the page with these flags. */
  predicate InPage(raw: seq<Event>, pageSize: nat, page: nat, flags: Flags)
    requires pageSize > 0
  {
    exists i :: 0 <= i < |raw| && Align(raw[i].addr, pageSize) == page && raw[i].flags == flags
  }

  predicate PageTouched(raw: seq<Event>, pageSize: nat, page: nat)
    requires pageSize > 0
  {
    || InPage(raw, pageSize, page, 0) || InPage(raw, pageSize, page, 1)
    || InPage(raw, pageSize, page, 2) || InPage(raw, pageSize, page, 3)
  }

  /** The fault was a write: some event carries WRITE or WP. */
  predicate IsWrite(raw: seq<Event>, pageSize: nat, page: nat)
    requires pageSize > 0
  {
    InPage(raw, pageSize, page, 1) || InPage(raw, pageSize, page, 2) || InPage(raw, pageSize, page, 3)
  }

  /** A page reported with WP alone is also reported with both bits. */
  predicate WpCarriesWrite(raw: seq<Event>, pageSize: nat, page: nat)
    requires pageSize > 0
  {
    InPage(raw, pageSize, page, 2) ==> InPage(raw, pageSize, page, 3)
  }

  /** The sorted events are the aligned raw events. */
  lemma SortedMember(es: seq<Event>, aligned: seq<Event>, raw: seq<Event>, pageSize: nat, page: nat, flags: Flags)
    requires pageSize > 0 && IsAligned(aligned, raw, pageSize) && multiset(es) == multiset(aligned)
    ensures InPage(raw, pageSize, page, flags) <==> Event(page, flags) in es
  {
    var e := Event(page, flags);
    assert e in es <==> e in multiset(es);
    assert e in aligned <==> e in multiset(aligned);
    if InPage(raw, pageSize, page, flags) {
      var i :| 0 <= i < |raw| && Align(raw[i].addr, pageSize) == page && raw[i].flags == flags;
      assert aligned[i] == e;
    }
    if e in aligned {
      var i :| 0 <= i < |aligned| && aligned[i] == e;
      assert Align(raw[i].addr, pageSize) == page && raw[i].flags == flags;
    }
  }

  /** The event with the largest flags decides: 3 if there is one, else 2, else 1, else 0. */
  lemma TopDecides(es: seq<Event>, c: Call)
    requires FromTop(es, c)
    ensures c.write <==> Event(c.addr, 3) in es || (Event(c.addr, 1) in es && Event(c.addr, 2) !in es)
    ensures Event(c.addr, 0) in es || Event(c.addr, 1) in es || Event(c.addr, 2) in es || Event(c.addr, 3) in es
  {
    var j :| 0 <= j < |es| && es[j].addr == c.addr && c.write == TestsAsWrite(es[j].flags)
             && forall m :: 0 <= m < |es| && es[m].addr == c.addr ==> es[m].flags <= es[j].flags;
    assert es[j] == Event(c.addr, es[j].flags);
    forall f: Flags | Event(c.addr, f) in es ensures f <= es[j].flags {
      var m :| 0 <= m < |es| && es[m] == Event(c.addr, f);
    }
  }

  /** The effect of the library sort: the array becomes `es`, a sorted arrangement of itself. */
  method SortEvents(events: array<Event>, es: seq<Event>)
    requires multiset(es) == multiset(events[..])
    modifies events
    ensures events[..] == es
  {
    assert |multiset(es)| == |es| && |multiset(events[..])| == |events[..]|;
    for i := 0 to events.Length
      invariant forall j :: 0 <= j < i ==> events[j] == es[j]
    {
      events[i] := es[i];
    }
  }

  /** What the calls for a batch must be: every touched page but the one at address zero, once
      and ascending; and each is processed as a write exactly when it is one, iff a WP report
      of the page comes with a report that has both bits. */
  ghost predicate RightCalls(raw: seq<Event>, pageSize: nat, calls: seq<Call>)
    requires pageSize > 0
  {
    && (forall a, b :: 0 <= a < b < |calls| ==> calls[a].addr < calls[b].addr)
    && (forall k :: 0 <= k < |calls| ==> calls[k].addr != 0 && PageTouched(raw, pageSize, calls[k].addr))
    && (forall i :: 0 <= i < |raw| && Align(raw[i].addr, pageSize) != 0 ==>
          Called(calls, Align(raw[i].addr, pageSize)))
    && (forall k :: 0 <= k < |calls| ==>
          RightWrite(raw, pageSize, calls[k]))
  }

  /** The write flag of the call is right iff the WP reports carry the WRITE bit as well. */
  predicate RightWrite(raw: seq<Event>, pageSize: nat, c: Call)
    requires pageSize > 0
  {
    (c.write <==> IsWrite(raw, pageSize, c.addr)) <==> WpCarriesWrite(raw, pageSize, c.addr)
  }

  predicate Called(calls: seq<Call>, page: nat) { exists k :: 0 <= k < |calls| && calls[k].addr == page }

  /** A batch of raw events, from the mask to the calls; `es` is what the library sort makes of
      the aligned events. */
  method ProcessBatch(events: array<Event>, pageSize: nat, ghost k: nat, es: seq<Event>) returns (calls: seq<Call>)
    requires k <= 64 && pageSize == Pow2(k)
    requires forall i :: 0 <= i < events.Length ==> events[i].addr < WORD
    requires Sorted(es) && multiset(es) == multiset(AlignedAll(events[..], pageSize))
    modifies events
    ensures RightCalls(old(events[..]), pageSize, calls)
  {
    ghost var raw := events[..];
    AlignEvents(events, pageSize, k);
    ghost var aligned := events[..];
    assert aligned == AlignedAll(raw, pageSize);
    SortEvents(events, es);
    calls := ProcessSorted(events[..]);
    CallsAreRight(es, aligned, raw, pageSize, calls);
  }

  function AlignedAll(raw: seq<Event>, pageSize: nat): seq<Event>
    requires pageSize > 0
  {
    seq(|raw|, i requires 0 <= i < |raw| => AlignedEvent(raw[i], pageSize))
  }

  lemma CallsAreRight(es: seq<Event>, aligned: seq<Event>, raw: seq<Event>, pageSize: nat, calls: seq<Call>)
    requires pageSize > 0 && IsAligned(aligned, raw, pageSize) && multiset(es) == multiset(aligned)
    requires forall a, b :: 0 <= a < b < |calls| ==> calls[a].addr < calls[b].addr
    requires forall k :: 0 <= k < |calls| ==> calls[k].addr != 0 && FromTop(es, calls[k])
    requires forall i :: 0 <= i < |es| && es[i].addr != 0 ==> Called(calls, es[i].addr)
    ensures RightCalls(raw, pageSize, calls)
  {
    forall k | 0 <= k < |calls|
      ensures PageTouched(raw, pageSize, calls[k].addr)
      ensures RightWrite(raw, pageSize, calls[k])
    {
      CallMeaning(es, aligned, raw, pageSize, calls[k]);
    }
    forall i | 0 <= i < |raw| && Align(raw[i].addr, pageSize) != 0 ensures Called(calls, Align(raw[i].addr, pageSize)) {
      var page := Align(raw[i].addr, pageSize);
      SortedMember(es, aligned, raw, pageSize, page, raw[i].flags);
      var m :| 0 <= m < |es| && es[m] == Event(page, raw[i].flags);
      assert es[m].addr == page;
    }
  }

  lemma CallMeaning(es: seq<Event>, aligned: seq<Event>, raw: seq<Event>, pageSize: nat, c: Call)
    requires pageSize > 0 && IsAligned(aligned, raw, pageSize) && multiset(es) == multiset(aligned) && FromTop(es, c)
    ensures PageTouched(raw, pageSize, c.addr)
    ensures RightWrite(raw, pageSize, c)
  {
    TopDecides(es, c);
    SortedMember(es, aligned, raw, pageSize, c.addr, 0);
    SortedMember(es, aligned, raw, pageSize, c.addr, 1);
    SortedMember(es, aligned, raw, pageSize, c.addr, 2);
    SortedMember(es, aligned, raw, pageSize, c.addr, 3);
  }

  /** The exception is real: a batch of one event with WP alone makes one call, as a read. */
  method WpAloneIsMissed(page: nat, k: nat) returns (calls: seq<Call>)
    requires 0 < page < WORD && k <= 64 && page % Pow2(k) == 0
    ensures calls == [Call(page, false)]
  {
    var events := new Event[1](_ => Event(page, 2));
    var es := [Event(page, 2)];
    ghost var raw := events[..];
    assert raw == es && AlignedAll(raw, Pow2(k)) == es;
    calls := ProcessBatch(events, Pow2(k), k, es);
    OnlyPage(raw, Pow2(k), page, calls);
  }

  lemma OnlyPage(raw: seq<Event>, pageSize: nat, page: nat, calls: seq<Call>)
    requires pageSize > 0 && raw == [Event(page, 2)] && Align(page, pageSize) == page != 0
    requires RightCalls(raw, pageSize, calls)
    ensures calls == [Call(page, false)]
  {
    assert Align(raw[0].addr, pageSize) == page && raw[0].flags == 2;
    assert InPage(raw, pageSize, page, 2) && !InPage(raw, pageSize, page, 3);
    assert Called(calls, page);
    forall k | 0 <= k < |calls| ensures calls[k] == Call(page, false) {
      assert PageTouched(raw, pageSize, calls[k].addr);
    }
    assert 1 < |calls| ==> calls[0].addr < calls[1].addr;
  }

  /** Alignment gives the page that holds the address. */
  lemma AlignMeaning(addr: nat, pageSize: nat)
    requires pageSize > 0
    ensures Align(addr, pageSize) <= addr < Align(addr, pageSize) + pageSize && Align(addr, pageSize) % pageSize == 0
  {
    var q := addr / pageSize;
    assert addr == pageSize * q + addr % pageSize;
    assert Align(addr, pageSize) == pageSize * q;
    MultipleMod(q, pageSize);
  }
}
