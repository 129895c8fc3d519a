/** What one step does to the parts of the invariant it does not aim at, and the
    buffer operations in closed form. */
module ProtocolFrames {
  import opened PageBuffer
  import opened UmapProtocol
  import opened ProtocolInvariant

  predicate OnlyAt(desc: seq<Desc>, desc': seq<Desc>, d: nat) {
    |desc'| == |desc| && forall i :: 0 <= i < |desc| && i != d ==> desc'[i] == desc[i]
  }

  ghost predicate AgreeOff<V>(m: map<Page, V>, m': map<Page, V>, p: Page) {
    forall q :: q != p ==> (q in m <==> q in m') && (q in m ==> m'[q] == m[q])
  }

  /** No other descriptor in use holds this one's page. */
  ghost predicate Alone(desc: seq<Desc>, d: nat) {
    d < |desc| && forall i :: 0 <= i < |desc| && i != d && desc[i].state != FREE ==> desc[i].page != desc[d].page
  }

  /** Nothing that the lists and indexes look at has changed. */
  ghost predicate SameShape(desc: seq<Desc>, desc': seq<Desc>) {
    && |desc'| == |desc|
    && forall i :: 0 <= i < |desc| ==>
         && desc'[i].page == desc[i].page && desc'[i].region == desc[i].region
         && desc'[i].deferred == desc[i].deferred
         && (desc'[i].state == FREE <==> desc[i].state == FREE)
         && (desc'[i].state == LEAVING <==> desc[i].state == LEAVING)
  }

  lemma SameShapeKeeps(c: Config, s: State, s': State)
    requires ListsI(c, s) && IndexI(c, s) && ActiveI(s)
    requires SameShape(s.b.desc, s'.b.desc) && s'.b == s.b.(desc := s'.b.desc)
    requires s'.unmap == s.unmap && s'.open == s.open
    ensures ListsI(c, s') && IndexI(c, s') && ActiveI(s')
  {
  }

  lemma FillMove(desc: seq<Desc>, desc': seq<Desc>, fills: map<nat, FillJob>, mem: map<Page, Frame>,
                 mem': map<Page, Frame>, store: map<Page, Bytes>, t: nat, phase: FillPhase)
    requires Fills(desc, fills, mem, store) && t in fills
    requires OnlyAt(desc, desc', fills[t].d) && Alone(desc, fills[t].d)
    requires AgreeOff(mem, mem', desc[fills[t].d].page)
    requires FillOk(desc'[fills[t].d], phase, mem', store)
    ensures Fills(desc', fills[t := fills[t].(phase := phase)], mem', store)
  {
    var fills' := fills[t := fills[t].(phase := phase)];
    forall u | u in fills' ensures fills'[u].d < |desc'| && FillOk(desc'[fills'[u].d], fills'[u].phase, mem', store) {
      if u != t {
        OtherFill(desc, desc', fills, mem, mem', store, t, u);
      }
    }
    FillsCovered(desc, desc', fills, fills', t);
  }

  lemma OtherFill(desc: seq<Desc>, desc': seq<Desc>, fills: map<nat, FillJob>, mem: map<Page, Frame>,
                  mem': map<Page, Frame>, store: map<Page, Bytes>, t: nat, u: nat)
    requires Fills(desc, fills, mem, store) && t in fills && u in fills && u != t
    requires OnlyAt(desc, desc', fills[t].d) && Alone(desc, fills[t].d)
    requires AgreeOff(mem, mem', desc[fills[t].d].page)
    ensures fills[u].d < |desc'| && FillOk(desc'[fills[u].d], fills[u].phase, mem', store)
  {
    assert fills[u].d != fills[t].d;
    assert FillOk(desc[fills[u].d], fills[u].phase, mem, store);
  }

  lemma FillsCovered(desc: seq<Desc>, desc': seq<Desc>, fills: map<nat, FillJob>, fills': map<nat, FillJob>, t: nat)
    requires t in fills && OnlyAt(desc, desc', fills[t].d)
    requires fills'.Keys == fills.Keys && forall u :: u in fills ==> fills'[u].d == fills[u].d
    requires forall d :: 0 <= d < |desc| && BeingFilled(desc[d]) ==> HasFill(fills, d)
    ensures forall d :: 0 <= d < |desc'| && BeingFilled(desc'[d]) ==> HasFill(fills', d)
  {
    forall d | 0 <= d < |desc'| && BeingFilled(desc'[d]) ensures HasFill(fills', d) {
      if d == fills[t].d {
        assert fills'[t].d == d;
      } else {
        var u :| u in fills && fills[u].d == d;
        assert u in fills' && fills'[u].d == d;
      }
    }
  }

  lemma FillAdd(desc: seq<Desc>, desc': seq<Desc>, fills: map<nat, FillJob>, mem: map<Page, Frame>,
                store: map<Page, Bytes>, t: nat, d: nat)
    requires Fills(desc, fills, mem, store) && t !in fills && d < |desc|
    requires OnlyAt(desc, desc', d) && !BeingFilled(desc[d]) && FillOk(desc'[d], FQueued, mem, store)
    ensures Fills(desc', fills[t := FillJob(d, FQueued)], mem, store)
  {
    var fills' := fills[t := FillJob(d, FQueued)];
    forall i | 0 <= i < |desc'| && BeingFilled(desc'[i]) ensures HasFill(fills', i) {
      if i == d {
        assert fills'[t].d == d;
      } else {
        var u :| u in fills && fills[u].d == i;
        assert u in fills' && fills'[u].d == i;
      }
    }
  }

  lemma FillGone(desc: seq<Desc>, desc': seq<Desc>, fills: map<nat, FillJob>, mem: map<Page, Frame>,
                 store: map<Page, Bytes>, t: nat)
    requires Fills(desc, fills, mem, store) && t in fills
    requires OnlyAt(desc, desc', fills[t].d) && !BeingFilled(desc'[fills[t].d])
    ensures Fills(desc', fills - {t}, mem, store)
  {
    forall i | 0 <= i < |desc'| && BeingFilled(desc'[i]) ensures HasFill(fills - {t}, i) {
      var u :| u in fills && fills[u].d == i;
      assert u in fills - {t};
    }
  }

  /** A step that touches no descriptor under fill leaves the fill items alone. */
  lemma FillFrame(desc: seq<Desc>, desc': seq<Desc>, fills: map<nat, FillJob>, mem: map<Page, Frame>,
                  mem': map<Page, Frame>, store: map<Page, Bytes>, store': map<Page, Bytes>)
    requires Fills(desc, fills, mem, store) && |desc'| == |desc|
    requires forall d :: 0 <= d < |desc| && (BeingFilled(desc[d]) || BeingFilled(desc'[d])) ==>
               && desc'[d] == desc[d]
               && (desc[d].page in mem <==> desc[d].page in mem')
               && (desc[d].page in store ==> desc[d].page in store' && store'[desc[d].page] == store[desc[d].page])
    ensures Fills(desc', fills, mem', store')
  {
  }

  lemma EvictOkElsewhere(pd: Desc, j: EvictJob, mem: map<Page, Frame>, mem': map<Page, Frame>, store: map<Page, Bytes>,
                         store': map<Page, Bytes>, u: Unmap, f: Flush, p: Page)
    requires EvictOk(pd, j, mem, store, u, f) && pd.page != p && AgreeOff(mem, mem', p) && AgreeOff(store, store', p)
    ensures EvictOk(pd, j, mem', store', u, f)
  {
  }

  lemma EvictItemsMove(desc: seq<Desc>, desc': seq<Desc>, evicts: map<nat, EvictJob>, u: Unmap, f: Flush,
                       mem: map<Page, Frame>, mem': map<Page, Frame>, store: map<Page, Bytes>, store': map<Page, Bytes>,
                       t: nat, phase: EvictPhase)
    requires EvictItems(desc, evicts, u, f, mem, store) && t in evicts
    requires OnlyAt(desc, desc', evicts[t].d) && Alone(desc, evicts[t].d)
    requires AgreeOff(mem, mem', desc[evicts[t].d].page) && AgreeOff(store, store', desc[evicts[t].d].page)
    requires EvictOk(desc'[evicts[t].d], evicts[t].(phase := phase), mem', store', u, f)
    ensures EvictItems(desc', evicts[t := evicts[t].(phase := phase)], u, f, mem', store')
  {
    forall v | v in evicts && v != t
      ensures evicts[v].d < |desc'| && EvictOk(desc'[evicts[v].d], evicts[v], mem', store', u, f)
    {
      OtherItem(desc, desc', evicts, u, f, mem, mem', store, store', t, v);
    }
    ItemsJoin(desc', evicts, u, f, mem', store', t, evicts[t].(phase := phase));
  }

  lemma ItemsJoin(desc: seq<Desc>, evicts: map<nat, EvictJob>, u: Unmap, f: Flush, mem: map<Page, Frame>,
                  store: map<Page, Bytes>, t: nat, j: EvictJob)
    requires t in evicts && j.d == evicts[t].d < |desc| && EvictOk(desc[j.d], j, mem, store, u, f)
    requires forall v :: v in evicts && v != t ==>
               evicts[v].d < |desc| && EvictOk(desc[evicts[v].d], evicts[v], mem, store, u, f)
    requires forall a, b :: a in evicts && b in evicts && evicts[a].d == evicts[b].d ==> a == b
    ensures EvictItems(desc, evicts[t := j], u, f, mem, store)
  {
    StillDistinct(evicts, evicts[t := j]);
  }

  lemma StillDistinct(evicts: map<nat, EvictJob>, evicts': map<nat, EvictJob>)
    requires evicts'.Keys == evicts.Keys && forall v :: v in evicts ==> evicts'[v].d == evicts[v].d
    requires forall t, v :: t in evicts && v in evicts && evicts[t].d == evicts[v].d ==> t == v
    ensures forall t, v :: t in evicts' && v in evicts' && evicts'[t].d == evicts'[v].d ==> t == v
  {
  }

  lemma OtherItem(desc: seq<Desc>, desc': seq<Desc>, evicts: map<nat, EvictJob>, u: Unmap, f: Flush,
                  mem: map<Page, Frame>, mem': map<Page, Frame>, store: map<Page, Bytes>, store': map<Page, Bytes>,
                  t: nat, v: nat)
    requires EvictItems(desc, evicts, u, f, mem, store) && t in evicts && v in evicts && v != t
    requires OnlyAt(desc, desc', evicts[t].d) && Alone(desc, evicts[t].d)
    requires AgreeOff(mem, mem', desc[evicts[t].d].page) && AgreeOff(store, store', desc[evicts[t].d].page)
    ensures evicts[v].d < |desc'| && EvictOk(desc'[evicts[v].d], evicts[v], mem', store', u, f)
  {
    EvictOkElsewhere(desc[evicts[v].d], evicts[v], mem, mem', store, store', u, f, desc[evicts[t].d].page);
  }

  lemma EvictMove(desc: seq<Desc>, desc': seq<Desc>, evicts: map<nat, EvictJob>, hand: seq<nat>, u: Unmap, f: Flush,
                  mem: map<Page, Frame>, mem': map<Page, Frame>, store: map<Page, Bytes>, store': map<Page, Bytes>,
                  t: nat, phase: EvictPhase)
    requires Evicts(desc, evicts, hand, u, f, mem, store) && t in evicts
    requires OnlyAt(desc, desc', evicts[t].d) && desc'[evicts[t].d].state == desc[evicts[t].d].state
    requires Alone(desc, evicts[t].d)
    requires AgreeOff(mem, mem', desc[evicts[t].d].page) && AgreeOff(store, store', desc[evicts[t].d].page)
    requires EvictOk(desc'[evicts[t].d], evicts[t].(phase := phase), mem', store', u, f)
    ensures Evicts(desc', evicts[t := evicts[t].(phase := phase)], hand, u, f, mem', store')
  {
    EvictItemsMove(desc, desc', evicts, u, f, mem, mem', store, store', t, phase);
    HandsMove(desc, desc', evicts, hand, u, mem, mem', t, phase);
    OwnedMove(desc, desc', evicts, hand, u, t, phase);
  }

  lemma HandsMove(desc: seq<Desc>, desc': seq<Desc>, evicts: map<nat, EvictJob>, hand: seq<nat>, u: Unmap,
                  mem: map<Page, Frame>, mem': map<Page, Frame>, t: nat, phase: EvictPhase)
    requires Hands(desc, evicts, hand, u, mem) && t in evicts
    requires OnlyAt(desc, desc', evicts[t].d) && Alone(desc, evicts[t].d) && AgreeOff(mem, mem', desc[evicts[t].d].page)
    ensures Hands(desc', evicts[t := evicts[t].(phase := phase)], hand, u, mem')
  {
  }

  lemma OwnedMove(desc: seq<Desc>, desc': seq<Desc>, evicts: map<nat, EvictJob>, hand: seq<nat>, u: Unmap,
                  t: nat, phase: EvictPhase)
    requires Owned(desc, evicts, hand, u) && t in evicts && evicts[t].d < |desc|
    requires OnlyAt(desc, desc', evicts[t].d) && desc'[evicts[t].d].state == desc[evicts[t].d].state
    ensures Owned(desc', evicts[t := evicts[t].(phase := phase)], hand, u)
  {
    var evicts' := evicts[t := evicts[t].(phase := phase)];
    forall d | 0 <= d < |desc'| && desc'[d].state == LEAVING && !Held(hand, u, d) ensures HasEvict(evicts', d) {
      var v :| v in evicts && evicts[v].d == d;
      assert v in evicts' && evicts'[v].d == d;
    }
  }

  lemma EvictItemsAdd(desc: seq<Desc>, desc': seq<Desc>, evicts: map<nat, EvictJob>, u: Unmap, u': Unmap,
                      f: Flush, f': Flush, mem: map<Page, Frame>, store: map<Page, Bytes>, t: nat, j: EvictJob)
    requires EvictItems(desc, evicts, u, f, mem, store) && t !in evicts && j.d < |desc|
    requires OnlyAt(desc, desc', j.d) && EvictOk(desc'[j.d], j, mem, store, u', f')
    requires forall v :: v in evicts ==> evicts[v].d != j.d
    requires (u.Drain? || u.Dispatch? ==> u'.Drain? || u'.Dispatch?) && (f.Flushing? ==> f'.Flushing?)
    ensures EvictItems(desc', evicts[t := j], u', f', mem, store)
  {
  }

  lemma OwnedAdd(desc: seq<Desc>, desc': seq<Desc>, evicts: map<nat, EvictJob>, hand: seq<nat>, hand': seq<nat>,
                 u: Unmap, u': Unmap, t: nat, j: EvictJob)
    requires Owned(desc, evicts, hand, u) && t !in evicts && j.d < |desc| && OnlyAt(desc, desc', j.d)
    requires forall d: nat :: Held(hand', u', d) <==> Held(hand, u, d) && d != j.d
    ensures Owned(desc', evicts[t := j], hand', u')
  {
    var evicts' := evicts[t := j];
    forall d | 0 <= d < |desc'| && desc'[d].state == LEAVING && !Held(hand', u', d) ensures HasEvict(evicts', d) {
      if d == j.d {
        assert evicts'[t].d == d;
      } else {
        var v :| v in evicts && evicts[v].d == d;
        assert v in evicts' && evicts'[v].d == d;
      }
    }
  }

  lemma EvictAdd(desc: seq<Desc>, desc': seq<Desc>, evicts: map<nat, EvictJob>, hand: seq<nat>, hand': seq<nat>,
                 u: Unmap, u': Unmap, f: Flush, f': Flush, mem: map<Page, Frame>, store: map<Page, Bytes>,
                 t: nat, j: EvictJob)
    requires Evicts(desc, evicts, hand, u, f, mem, store) && t !in evicts && j.d < |desc|
    requires OnlyAt(desc, desc', j.d) && EvictOk(desc'[j.d], j, mem, store, u', f')
    requires forall v :: v in evicts ==> evicts[v].d != j.d
    requires NoDup(hand') && (u'.Dispatch? ==> u'.d !in hand')
    requires forall d: nat :: Held(hand', u', d) <==> Held(hand, u, d) && d != j.d
    requires (u.Drain? || u.Dispatch? ==> u'.Drain? || u'.Dispatch?) && (f.Flushing? ==> f'.Flushing?)
    ensures Evicts(desc', evicts[t := j], hand', u', f', mem, store)
  {
    EvictItemsAdd(desc, desc', evicts, u, u', f, f', mem, store, t, j);
    OwnedAdd(desc, desc', evicts, hand, hand', u, u', t, j);
    assert Hands(desc', evicts[t := j], hand', u', mem);
  }

  lemma EvictGone(desc: seq<Desc>, desc': seq<Desc>, evicts: map<nat, EvictJob>, hand: seq<nat>, u: Unmap, f: Flush,
                  mem: map<Page, Frame>, store: map<Page, Bytes>, t: nat)
    requires Evicts(desc, evicts, hand, u, f, mem, store) && t in evicts
    requires OnlyAt(desc, desc', evicts[t].d) && desc'[evicts[t].d].state != LEAVING
    ensures Evicts(desc', evicts - {t}, hand, u, f, mem, store)
  {
    forall d | 0 <= d < |desc'| && desc'[d].state == LEAVING && !Held(hand, u, d) ensures HasEvict(evicts - {t}, d) {
      var v :| v in evicts && evicts[v].d == d;
      assert v in evicts - {t};
    }
  }

  /** A step that touches neither a leaving descriptor nor one with an evict item. */
  lemma EvictFrame(desc: seq<Desc>, desc': seq<Desc>, evicts: map<nat, EvictJob>, hand: seq<nat>, u: Unmap, f: Flush,
                   mem: map<Page, Frame>, mem': map<Page, Frame>, store: map<Page, Bytes>, d: nat)
    requires Evicts(desc, evicts, hand, u, f, mem, store)
    requires OnlyAt(desc, desc', d) && Alone(desc, d) && AgreeOff(mem, mem', desc[d].page)
    requires desc[d].state != LEAVING && desc'[d].state != LEAVING
    requires forall t :: t in evicts ==> evicts[t].d != d
    ensures Evicts(desc', evicts, hand, u, f, mem', store)
  {
  }

  // ----- the buffer operations in closed form -----

  lemma NewPageIs(b: Buf, p: Page, r: Region, w: bool)
    requires b.free != [] && b.free[|b.free| - 1] < |b.desc| && b.desc[b.free[|b.free| - 1]].state == FREE
    ensures var d := b.free[|b.free| - 1];
            NewPage(b, p, r, w) == Buf(b.desc[d := Desc(p, r, FILLING, w, false, false)], b.free[..|b.free| - 1],
                                       [d] + b.busy, b.present[p := d], b.active + {(r, d)}, b.failed)
  {
    var d := b.free[|b.free| - 1];
    assert NewPage(b, p, r, w).desc == b.desc[d := Desc(p, r, FILLING, w, false, false)];
  }

  lemma MarkFreeIs(b: Buf, d: nat)
    requires d < |b.desc| && b.desc[d].state == LEAVING
    ensures var pd := b.desc[d];
            MarkFree(b, d) == Buf(b.desc[d := pd.(state := FREE, page := NULL_PAGE)],
                                  if pd.deferred then b.free else b.free + [d], b.busy,
                                  b.present - {pd.page}, b.active - {(pd.region, d)}, b.failed)
  {
    assert MarkFree(b, d).desc == b.desc[d := b.desc[d].(state := FREE, page := NULL_PAGE)];
  }

  lemma UpgradePageIs(b: Buf, d: nat)
    requires d < |b.desc| && b.desc[d].state == PRESENT
    ensures UpgradePage(b, d) == b.(desc := b.desc[d := b.desc[d].(dirty := true, state := UPDATING)])
  {
    assert UpgradePage(b, d).desc == b.desc[d := b.desc[d].(dirty := true, state := UPDATING)];
  }

  lemma IndexAlone(c: Config, s: State, d: nat)
    requires IndexI(c, s) && d < |s.b.desc| && s.b.desc[d].state != FREE
    ensures Alone(s.b.desc, d)
  {
  }

  lemma NoDupAppend(q: seq<nat>, d: nat)
    requires NoDup(q)
    ensures d !in q ==> NoDup(q + [d])
    ensures forall i :: i in q + [d] <==> i in q || i == d
  {
    assert forall i :: 0 <= i < |q| ==> q[i] in q;
  }

  lemma NoDupPrepend(q: seq<nat>, d: nat)
    requires NoDup(q)
    ensures d !in q ==> NoDup([d] + q)
    ensures forall i :: i in [d] + q <==> i in q || i == d
  {
    assert forall i :: 0 <= i < |q| ==> q[i] in q;
  }

  // ----- lists and indexes under the operations that move a descriptor -----

  lemma ListsNewPage(desc: seq<Desc>, free: seq<nat>, busy: seq<nat>, pd: Desc)
    requires Lists(desc, free, busy) && free != [] && Resident(pd)
    ensures var d := free[|free| - 1];
            d < |desc| && desc[d].state == FREE && Lists(desc[d := pd], free[..|free| - 1], [d] + busy)
  {
    var d := free[|free| - 1];
    assert d in free;
    var free' := free[..|free| - 1];
    DropOldest(free, free');
    NoDupPrepend(busy, d);
    assert Lists(desc[d := pd], free', [d] + busy);
  }

  lemma ListsMarkFree(desc: seq<Desc>, free: seq<nat>, busy: seq<nat>, d: nat)
    requires Lists(desc, free, busy) && d < |desc| && desc[d].state == LEAVING
    ensures var pd := desc[d].(state := FREE, page := NULL_PAGE);
            Lists(desc[d := pd], if pd.deferred then free else free + [d], busy)
  {
    var desc' := desc[d := desc[d].(state := FREE, page := NULL_PAGE)];
    NoDupAppend(free, d);
    if desc[d].deferred {
      assert Lists(desc', free, busy);
    } else {
      var free' := free + [d];
      assert forall i :: 0 <= i < |desc'| && desc'[i].state == FREE ==> (i in free' <==> i !in busy);
      assert Lists(desc', free', busy);
    }
  }

  lemma DropOldest(q: seq<nat>, q': seq<nat>)
    requires NoDup(q) && q != [] && q' == q[..|q| - 1]
    ensures NoDup(q')
    ensures forall i :: i in q' ==> i in q && i != q[|q| - 1]
    ensures forall i :: i in q && i != q[|q| - 1] ==> i in q'
  {
    assert q == q' + [q[|q| - 1]];
  }

  lemma ListsRelease(desc: seq<Desc>, free: seq<nat>, busy: seq<nat>)
    requires Lists(desc, free, busy) && busy != []
    requires busy[|busy| - 1] < |desc| && desc[busy[|busy| - 1]].state == FREE
    ensures Lists(desc, free + [busy[|busy| - 1]], busy[..|busy| - 1])
  {
    var d, free', busy' := busy[|busy| - 1], free + [busy[|busy| - 1]], busy[..|busy| - 1];
    DropOldest(busy, busy');
    assert d in busy;
    NoDupAppend(free, d);
    assert Lists(desc, free', busy');
  }

  lemma ListsEvictOldest(desc: seq<Desc>, free: seq<nat>, busy: seq<nat>)
    requires Lists(desc, free, busy) && busy != []
    requires busy[|busy| - 1] < |desc| && !desc[busy[|busy| - 1]].deferred && desc[busy[|busy| - 1]].state == PRESENT
    ensures var d := busy[|busy| - 1];
            Lists(desc[d := desc[d].(state := LEAVING)], free, busy[..|busy| - 1])
  {
    var d, busy' := busy[|busy| - 1], busy[..|busy| - 1];
    DropOldest(busy, busy');
    assert busy[|busy| - 1] in busy;
    assert Lists(desc[d := desc[d].(state := LEAVING)], free, busy');
  }
}
