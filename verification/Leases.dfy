/**
 Sticky ownership and lease exclusion: over a row's whole life every delivery and every accepted
 report belongs to one agent, and two deliveries that no report and no re-dispatch separates are more
 than the lease apart.
 */
module Leases {
  import opened Basics
  import opened Backoff
  import opened Rows

  /** The two kinds of statement that clear a lease. */
  predicate Releases(e: Entry) { e.Applied? || e.Redispatched? }

  predicate NoRelease(h: seq<Entry>, lo: nat, hi: nat)
    requires lo <= hi <= |h|
  {
    forall k :: lo <= k < hi ==> !Releases(h[k])
  }

  /** The lease column as the history alone determines it. */
  function LeaseOf(h: seq<Entry>): Option<Time>
    decreases |h|
  {
    if h == [] then None
    else
      var e := h[|h| - 1];
      if e.Delivered? then Some(e.at + e.ttl)
      else if Releases(e) then None
      else LeaseOf(h[..|h| - 1])
  }

  predicate PositiveTtls(h: seq<Entry>) {
    forall i :: 0 <= i < |h| && h[i].Delivered? ==> h[i].ttl > 0
  }

  /** Deliveries with no release between them are further apart than the earlier one's lease. */
  predicate Spaced(h: seq<Entry>) {
    forall i, j :: 0 <= i < j < |h| && h[i].Delivered? && h[j].Delivered? && NoRelease(h, i + 1, j)
      ==> h[j].at > h[i].at + h[i].ttl
  }

  /** Whoever was ever handed the row, or reported on it, is its owner now. */
  predicate OneOwner(c: Cell) {
    && (forall i :: 0 <= i < |c.hist| && (c.hist[i].Delivered? || c.hist[i].Applied?)
          ==> c.row.agent == Some(c.hist[i].agent))
    && (forall q :: q in c.pending ==> c.row.agent == Some(c.pending[q].agent))
  }

  predicate LeaseInv(c: Cell) {
    && c.row.leasedUntil == LeaseOf(c.hist)
    && PositiveTtls(c.hist)
    && Spaced(c.hist)
    && OneOwner(c)
  }

  /** A delivery no release has followed is still covered by the lease column. */
  lemma {:induction false} LeaseCovers(h: seq<Entry>, i: nat)
    requires PositiveTtls(h) && Spaced(h)
    requires i < |h| && h[i].Delivered? && NoRelease(h, i + 1, |h|)
    ensures LeaseOf(h).Some? && LeaseOf(h).value >= h[i].at + h[i].ttl
    decreases |h|
  {
    var n := |h| - 1;
    if i < n {
      if h[n].Delivered? {
        assert NoRelease(h, i + 1, n);
      } else {
        assert !Releases(h[n]);
        LeaseCovers(h[..n], i);
      }
    }
  }

  lemma DeliveryKeepsSpacing(c: Cell, t: Time, a: AgentId, ttl: int)
    requires LeaseInv(c) && Claimable(c.row, a, t)
    ensures Spaced(CellStep(c, t, Deliver(a, ttl)).hist)
  {
    var h := c.hist;
    var h' := CellStep(c, t, Deliver(a, ttl)).hist;
    forall i, j | 0 <= i < j < |h'| && h'[i].Delivered? && h'[j].Delivered? && NoRelease(h', i + 1, j)
      ensures h'[j].at > h'[i].at + h'[i].ttl
    {
      assert forall k :: i + 1 <= k < j ==> h'[k] == h[k];
      if j == |h| {
        assert NoRelease(h, i + 1, |h|);
        LeaseCovers(h, i);
      } else {
        assert NoRelease(h, i + 1, j);
      }
    }
  }

  lemma OtherStepKeepsSpacing(c: Cell, t: Time, e: CellEvent)
    requires Spaced(c.hist) && !e.Deliver?
    ensures Spaced(CellStep(c, t, e).hist)
  {
    var h := c.hist;
    var h' := CellStep(c, t, e).hist;
    forall i, j | 0 <= i < j < |h'| && h'[i].Delivered? && h'[j].Delivered? && NoRelease(h', i + 1, j)
      ensures h'[j].at > h'[i].at + h'[i].ttl
    {
      assert forall k :: i + 1 <= k < j ==> h'[k] == h[k];
      assert NoRelease(h, i + 1, j);
    }
  }

  /** What one more entry does to the lease the history determines. */
  lemma LeaseAfter(h: seq<Entry>, e: Entry)
    ensures LeaseOf(h + [e]) == if e.Delivered? then Some(e.at + e.ttl) else if Releases(e) then None else LeaseOf(h)
  {
    assert (h + [e])[..|h|] == h;
  }

  lemma LeaseFollows(c: Cell, t: Time, e: CellEvent)
    requires c.row.leasedUntil == LeaseOf(c.hist) && PositiveTtls(c.hist)
    ensures var c' := CellStep(c, t, e); c'.row.leasedUntil == LeaseOf(c'.hist) && PositiveTtls(c'.hist)
  {
    var c' := CellStep(c, t, e);
    HistGrows(c, t, e);
    if c'.hist != c.hist {
      LeaseAfter(c.hist, c'.hist[|c.hist|]);
      assert c'.hist == c.hist + [c'.hist[|c.hist|]];
    }
  }

  lemma StepKeepsOneOwner(c: Cell, t: Time, e: CellEvent)
    requires OneOwner(c) && Enabled(c, t, e)
    ensures OneOwner(CellStep(c, t, e))
  {
  }

  lemma StepKeepsLeaseInv(c: Cell, t: Time, e: CellEvent)
    requires LeaseInv(c) && Enabled(c, t, e)
    ensures LeaseInv(CellStep(c, t, e))
  {
    LeaseFollows(c, t, e);
    StepKeepsOneOwner(c, t, e);
    if e.Deliver? {
      DeliveryKeepsSpacing(c, t, e.agent, e.ttl);
    } else {
      OtherStepKeepsSpacing(c, t, e);
    }
  }

  /**
   Lease exclusion, for every run of a row from its insertion, whatever spec updates, deletes, flags
   and status writes intervene.
   */
  lemma {:induction false} LeaseExclusion(name: string, tier: string, spec: string, t0: Time, es: seq<Timed>)
    requires ValidRun(NewCell(name, tier, spec, t0), es)
    ensures LeaseInv(RunCell(NewCell(name, tier, spec, t0), es))
    decreases |es|
  {
    if es != [] {
      var n := |es| - 1;
      LeaseExclusion(name, tier, spec, t0, es[..n]);
      StepKeepsLeaseInv(RunCell(NewCell(name, tier, spec, t0), es[..n]), es[n].t, es[n].e);
    }
  }

  /** Once a row has an owner, no statement of any kind gives it another. */
  lemma {:induction false} OwnerNeverChanges(c: Cell, es: seq<Timed>)
    requires ValidRun(c, es) && c.row.agent.Some?
    ensures RunCell(c, es).row.agent == c.row.agent
    decreases |es|
  {
    if es != [] {
      OwnerNeverChanges(c, es[..|es| - 1]);
    }
  }

  // ---- the same over events ----------------------------------------------------------------------

  /** The statements that may clear a lease. */
  predicate MayRelease(e: CellEvent) { e.WriteReport? || e.Redispatch? }

  predicate NoneReleases(es: seq<Timed>) { forall i :: 0 <= i < |es| ==> !MayRelease(es[i].e) }

  predicate LeasedPast(r: Row, u: Time) { r.leasedUntil.Some? && r.leasedUntil.value >= u }

  /** A lease outlasts anything but a report and a re-dispatch, further deliveries included. */
  lemma {:induction false} LeaseOutlasts(c: Cell, es: seq<Timed>, u: Time)
    requires ValidRun(c, es) && NoneReleases(es) && LeasedPast(c.row, u)
    ensures LeasedPast(RunCell(c, es).row, u)
    decreases |es|
  {
    if es != [] {
      LeaseOutlasts(c, es[..|es| - 1], u);
    }
  }

  /**
   Lease exclusion in the caller's terms.  After a delivery that asked for a lease of `ttl`, whatever
   happens to the row short of a report's write and a re-dispatch, the next delivery to anyone comes more
   than `ttl` later, or more than sixty seconds if `ttl` was not positive.
   */
  lemma DeliveriesAreSpaced(c: Cell, first: Timed, es: seq<Timed>, second: Timed)
    requires first.e.Deliver? && second.e.Deliver? && Enabled(c, first.t, first.e)
    requires var d := CellStep(c, first.t, first.e);
      ValidRun(d, es) && NoneReleases(es) && Enabled(RunCell(d, es), second.t, second.e)
    ensures second.t > first.t + (if first.e.ttl > 0 then first.e.ttl else 60 * SECOND)
  {
    var asked := if first.e.ttl > 0 then first.e.ttl else 60 * SECOND;
    LeaseOutlasts(CellStep(c, first.t, first.e), es, first.t + asked);
  }
}
