/**
 The health column.  Core never makes a health up: what a row shows was reported by its owner, or is
 the "unknown" of a flagged host, or is nothing; and it follows the reports exactly as long as none of
 them was read before a health that was written in between.
 */
module Observations {
  import opened Basics
  import opened Rows
  import Leases

  // ---- where a health comes from -----------------------------------------------------------------

  /** The health a recorded report carried, if any. */
  function Carried(report: Report): Option<Health> {
    if report.status.Some? then report.status.value.health else None
  }

  predicate WasReported(h: seq<Entry>, v: Health) {
    exists i :: 0 <= i < |h| && h[i].Applied? && Carried(h[i].report) == Some(v)
  }

  predicate WasFlagged(h: seq<Entry>) { exists i :: 0 <= i < |h| && h[i].Flagged? }

  predicate Accounted(h: seq<Entry>, v: Health) {
    v.Unreported? || (v.Unknown? && WasFlagged(h)) || WasReported(h, v)
  }

  predicate HealthInv(c: Cell) {
    Accounted(c.hist, c.row.health) && forall q :: q in c.pending ==> Accounted(c.hist, c.pending[q].snapshot.health)
  }

  lemma AccountedGrows(h: seq<Entry>, h': seq<Entry>, v: Health)
    requires h <= h' && Accounted(h, v)
    ensures Accounted(h', v)
  {
    if WasReported(h, v) {
      var i :| 0 <= i < |h| && h[i].Applied? && Carried(h[i].report) == Some(v);
      assert h'[i] == h[i];
    } else if WasFlagged(h) {
      var i :| 0 <= i < |h| && h[i].Flagged?;
      assert h'[i] == h[i];
    }
  }

  lemma StepKeepsHealthInv(c: Cell, t: Time, e: CellEvent)
    requires HealthInv(c) && Enabled(c, t, e)
    ensures HealthInv(CellStep(c, t, e))
  {
    var c' := CellStep(c, t, e);
    HistGrows(c, t, e);
    AccountedGrows(c.hist, c'.hist, c.row.health);
    forall q | q in c.pending
      ensures Accounted(c'.hist, c.pending[q].snapshot.health)
    {
      AccountedGrows(c.hist, c'.hist, c.pending[q].snapshot.health);
    }
    if c'.hist != c.hist {
      assert c'.hist[|c.hist|] in c'.hist;
    }
  }

  lemma {:induction false} HealthInvHolds(name: string, tier: string, spec: string, t0: Time, es: seq<Timed>)
    requires ValidRun(NewCell(name, tier, spec, t0), es)
    ensures HealthInv(RunCell(NewCell(name, tier, spec, t0), es))
    decreases |es|
  {
    if es != [] {
      var n := |es| - 1;
      HealthInvHolds(name, tier, spec, t0, es[..n]);
      StepKeepsHealthInv(RunCell(NewCell(name, tier, spec, t0), es[..n]), es[n].t, es[n].e);
    }
  }

  predicate ReportedByOwner(c: Cell, v: Health) {
    exists i :: 0 <= i < |c.hist| && c.hist[i].Applied? && Carried(c.hist[i].report) == Some(v)
      && c.row.agent == Some(c.hist[i].agent)
  }

  /** In every run, overlapping reports included, a row's health is its owner's word, a flag's "unknown", or none. */
  lemma HealthIsObserved(name: string, tier: string, spec: string, t0: Time, es: seq<Timed>)
    requires ValidRun(NewCell(name, tier, spec, t0), es)
    ensures var c := RunCell(NewCell(name, tier, spec, t0), es);
      c.row.health.Unreported? || (c.row.health.Unknown? && WasFlagged(c.hist)) || ReportedByOwner(c, c.row.health)
  {
    HealthInvHolds(name, tier, spec, t0, es);
    Leases.LeaseExclusion(name, tier, spec, t0, es);
    var c := RunCell(NewCell(name, tier, spec, t0), es);
    if WasReported(c.hist, c.row.health) {
      var i :| 0 <= i < |c.hist| && c.hist[i].Applied? && Carried(c.hist[i].report) == Some(c.row.health);
      assert c.row.agent == Some(c.hist[i].agent);
    }
  }

  // ---- when it follows the reports ---------------------------------------------------------------

  /**
   The health the history calls for: the last one reported while the row kept running, "unknown" once
   flagged, and none as soon as a report says anything but "running" without one.
   */
  function HealthOf(h: seq<Entry>): Health
    decreases |h|
  {
    if h == [] then Unreported
    else
      var e, before := h[|h| - 1], HealthOf(h[..|h| - 1]);
      if e.Flagged? then Unknown
      else if !e.Applied? then before
      else if Carried(e.report).Some? then Carried(e.report).value
      else if e.report.state.Running? then before
      else Unreported
  }

  predicate Follows(c: Cell) { c.row.health == HealthOf(c.hist) }

  /** A bare "running" report about to write back a health that is no longer the row's. */
  predicate Reverts(c: Cell, e: CellEvent) {
    && e.WriteReport? && e.req in c.pending && Live(c.row)
    && Carried(c.pending[e.req].report).None? && c.pending[e.req].report.state.Running?
    && c.pending[e.req].snapshot.health != c.row.health
  }

  lemma StepFollowsIff(c: Cell, t: Time, e: CellEvent)
    requires Follows(c) && Enabled(c, t, e)
    ensures Follows(CellStep(c, t, e)) <==> !Reverts(c, e)
  {
    var c' := CellStep(c, t, e);
    HistGrows(c, t, e);
    if c'.hist != c.hist {
      assert c'.hist[..|c.hist|] == c.hist;
    }
  }

  predicate AlwaysFollows(c: Cell, es: seq<Timed>)
    decreases |es|
  {
    Follows(RunCell(c, es)) && (es == [] || AlwaysFollows(c, es[..|es| - 1]))
  }

  predicate NeverReverts(c: Cell, es: seq<Timed>)
    decreases |es|
  {
    es == [] ||
    (var n := |es| - 1;
     NeverReverts(c, es[..n]) && !Reverts(RunCell(c, es[..n]), es[n].e))
  }

  /** A row's health follows its history throughout a run if and only if no stale "running" report reverts it. */
  lemma {:induction false} HealthFollowsIff(name: string, tier: string, spec: string, t0: Time, es: seq<Timed>)
    requires ValidRun(NewCell(name, tier, spec, t0), es)
    ensures AlwaysFollows(NewCell(name, tier, spec, t0), es) <==> NeverReverts(NewCell(name, tier, spec, t0), es)
    decreases |es|
  {
    var c := NewCell(name, tier, spec, t0);
    if es != [] {
      var n := |es| - 1;
      HealthFollowsIff(name, tier, spec, t0, es[..n]);
      if AlwaysFollows(c, es[..n]) {
        StepFollowsIff(RunCell(c, es[..n]), es[n].t, es[n].e);
      }
    }
  }

  /** One does: read before the host is flagged and written after, it clears the "unknown" of the flag. */
  lemma StaleReportClearsUnknown() returns (c: Cell, es: seq<Timed>)
    ensures c == NewCell("db", "", "v1", 0) && ValidRun(c, es) && |es| == 4
    ensures RunCell(c, es[..3]).row.health.Unknown? && RunCell(c, es).row.health.Unreported?
    ensures RunCell(c, es[..3]).row.status.hostUnreachable && !RunCell(c, es).row.status.hostUnreachable
  {
    var flagged := FlaggedInFlight();
    c := NewCell("db", "", "v1", 0);
    var e3 := At(4, WriteReport(0, 4));
    RunExtends(c, flagged, e3);
    es := flagged + [e3];
    assert es[..3] == flagged;
  }

  /** The first three events: a bare "running" was read, and the host has been flagged since. */
  lemma FlaggedInFlight() returns (es: seq<Timed>)
    ensures |es| == 3 && ValidRun(NewCell("db", "", "v1", 0), es)
    ensures var d := RunCell(NewCell("db", "", "v1", 0), es);
      && Live(d.row) && d.row.health.Unknown? && 0 in d.pending && d.pending[0].readAt == 2
      && d.pending[0].report == Report(Running, None, 1) && d.pending[0].snapshot.health.Unreported?
      && d.row.status.hostUnreachable && !d.pending[0].snapshot.status.hostUnreachable
  {
    var c := NewCell("db", "", "v1", 0);
    var e0 := At(1, Deliver(7, 0));
    var e1 := At(2, ReadForReport(0, 7, Report(Running, None, 1), 0));
    var e2 := At(3, FlagUnreachable);
    var c1 := CellStep(c, e0.t, e0.e);
    var c2 := CellStep(c1, e1.t, e1.e);
    RunReaches(c, [], c, e0);
    RunReaches(c, [] + [e0], c1, e1);
    RunReaches(c, [] + [e0] + [e1], c2, e2);
    es := [] + [e0] + [e1] + [e2];
  }

  // ---- the status document -----------------------------------------------------------------------

  /** The document the history calls for: the last one reported or written, flagged since or not. */
  function DocumentOf(h: seq<Entry>): Status
    decreases |h|
  {
    if h == [] then Status(false, "")
    else
      var e, before := h[|h| - 1], DocumentOf(h[..|h| - 1]);
      match e
      case Applied(_, _, _, report, _, _) => if report.status.Some? then report.status.value.status else before
      case Flagged(_) => Status(true, before.body)
      case StatusSet(_, status, _) => status
      case _ => before
  }

  predicate DocumentFollows(c: Cell) { c.row.status == DocumentOf(c.hist) }

  /** A report without a document about to write back one that is no longer the row's. */
  predicate RevertsDocument(c: Cell, e: CellEvent) {
    && e.WriteReport? && e.req in c.pending && Live(c.row)
    && c.pending[e.req].report.status.None? && c.pending[e.req].snapshot.status != c.row.status
  }

  lemma DocumentStepIff(c: Cell, t: Time, e: CellEvent)
    requires DocumentFollows(c) && Enabled(c, t, e)
    ensures DocumentFollows(CellStep(c, t, e)) <==> !RevertsDocument(c, e)
  {
    var c' := CellStep(c, t, e);
    HistGrows(c, t, e);
    if c'.hist != c.hist {
      assert c'.hist[..|c.hist|] == c.hist;
    }
  }

  predicate DocumentAlwaysFollows(c: Cell, es: seq<Timed>)
    decreases |es|
  {
    DocumentFollows(RunCell(c, es)) && (es == [] || DocumentAlwaysFollows(c, es[..|es| - 1]))
  }

  predicate NeverRevertsDocument(c: Cell, es: seq<Timed>)
    decreases |es|
  {
    es == [] ||
    (var n := |es| - 1;
     NeverRevertsDocument(c, es[..n]) && !RevertsDocument(RunCell(c, es[..n]), es[n].e))
  }

  /**
   The document stored is the last one an agent reported or anybody wrote, with the flag if the host was
   flagged since, throughout a run if and only if no report without one writes a stale one back.
   */
  lemma {:induction false} DocumentFollowsIff(name: string, tier: string, spec: string, t0: Time, es: seq<Timed>)
    requires ValidRun(NewCell(name, tier, spec, t0), es)
    ensures DocumentAlwaysFollows(NewCell(name, tier, spec, t0), es) <==> NeverRevertsDocument(NewCell(name, tier, spec, t0), es)
    decreases |es|
  {
    var c := NewCell(name, tier, spec, t0);
    if es != [] {
      var n := |es| - 1;
      DocumentFollowsIff(name, tier, spec, t0, es[..n]);
      if DocumentAlwaysFollows(c, es[..n]) {
        DocumentStepIff(RunCell(c, es[..n]), es[n].t, es[n].e);
      }
    }
  }

  /** The flag statement takes exactly the live rows that do not carry the flag yet, in whatever state they are. */
  lemma FlagTakesIff(c: Cell, t: Time)
    ensures var d := CellStep(c, t, FlagUnreachable);
      if c.row.deletedAt == None && !c.row.status.hostUnreachable
      then d.hist == c.hist + [Flagged(t)] && d.row.status.hostUnreachable && d.row.health == Unknown && d.row.state == c.row.state
      else d == c
  {
  }
}
