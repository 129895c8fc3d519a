/** When the evict manager is called, and how long it goes on. */
module Watermarks {
  import opened PageBuffer
  import opened UmapProtocol
  import opened ProtocolFrames
  import opened Writability

  /** A fault that enters a page calls the manager iff the deque then has exactly the high-water
      number of descriptors. */
  lemma NewPageCalls(c: Config, s: State, p: Page, w: bool, t: nat)
    requires CanFaultNew(c, s, p, t) && s.b.desc[s.b.free[|s.b.free| - 1]].state == FREE
    ensures var s' := DoFaultNew(c, s, p, w, t);
            |s'.b.busy| == |s.b.busy| + 1 && s'.thresholds == s.thresholds + if |s'.b.busy| == c.high then 1 else 0
  {
    NewPageIs(s.b, p, c.regionOf[p], w);
    assert DoFaultNew(c, s, p, w, t).b == NewPage(s.b, p, c.regionOf[p], w);
  }

  /** What the manager can do next is determined: send what it holds; else, while more than the
      low-water number of descriptors is busy, take a batch; else rest.  A call wakes it. */
  lemma ManagerGoesOn(c: Config, s: State, t: nat)
    requires LockFree(s) && t !in s.evicts
    ensures CanManage(c, s, ManagerSend(t)) <==> s.managing && s.hand != []
    ensures CanManage(c, s, ManagerBatch) <==> s.managing && s.hand == [] && |s.b.busy| > c.low
    ensures CanManage(c, s, ManagerRest) <==> s.managing && s.hand == [] && |s.b.busy| <= c.low
    ensures CanManage(c, s, ManagerWake) <==> !s.managing && s.thresholds > 0
  {
  }
}
