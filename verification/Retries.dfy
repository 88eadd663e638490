/**
 Bounded retry with exponential backoff: no delivery comes before the backoff of the failure it
 follows; the attempt counter counts failures exactly when every report is written at the count it
 read; and a parked row is handed out again exactly when one read with attempts to spare is written.
 */
module Retries {
  import opened Basics
  import opened Backoff
  import opened Rows

  // ---- backoff -----------------------------------------------------------------------------------

  /** The statements that write the backoff column. */
  predicate Rearms(e: Entry) { e.Applied? || e.SpecSet? || e.Redispatched? }

  predicate NoRearm(h: seq<Entry>, lo: nat, hi: nat)
    requires lo <= hi <= |h|
  {
    forall k :: lo <= k < hi ==> !Rearms(h[k])
  }

  /** The backoff column as the history alone determines it. */
  function NextOf(h: seq<Entry>): Option<Time>
    decreases |h|
  {
    if h == [] then None
    else
      var e := h[|h| - 1];
      if e.Applied? then e.params.nextAttemptAt
      else if Rearms(e) then None
      else NextOf(h[..|h| - 1])
  }

  /** A failure that leaves the row retryable. */
  predicate RetryableFailure(e: Entry) { e.Applied? && e.report.state.Failed? && !e.params.state.Failed? }

  predicate FailuresSetBackoff(h: seq<Entry>) {
    forall i :: 0 <= i < |h| && RetryableFailure(h[i]) ==>
      h[i].params.nextAttemptAt == Some(h[i].clock + NextBackoff(h[i].params.attempts))
  }

  /** A delivery that follows a failure waits out that failure's delay. */
  predicate BackoffRespected(h: seq<Entry>) {
    forall i, j :: 0 <= i < j < |h| && RetryableFailure(h[i]) && h[j].Delivered? && NoRearm(h, i + 1, j)
      ==> h[j].at >= h[i].clock + NextBackoff(h[i].params.attempts)
  }

  predicate BackoffInv(c: Cell) {
    && c.row.nextAttemptAt == NextOf(c.hist)
    && FailuresSetBackoff(c.hist)
    && BackoffRespected(c.hist)
  }

  lemma {:induction false} BackoffStays(h: seq<Entry>, i: nat)
    requires i < |h| && h[i].Applied? && NoRearm(h, i + 1, |h|)
    ensures NextOf(h) == h[i].params.nextAttemptAt
    decreases |h|
  {
    var n := |h| - 1;
    if i < n {
      assert !Rearms(h[n]);
      BackoffStays(h[..n], i);
    }
  }

  lemma StepKeepsBackoffRespected(c: Cell, t: Time, e: CellEvent)
    requires BackoffInv(c) && Enabled(c, t, e)
    ensures BackoffRespected(CellStep(c, t, e).hist)
  {
    var h := c.hist;
    var h' := CellStep(c, t, e).hist;
    forall i, j | 0 <= i < j < |h'| && RetryableFailure(h'[i]) && h'[j].Delivered? && NoRearm(h', i + 1, j)
      ensures h'[j].at >= h'[i].clock + NextBackoff(h'[i].params.attempts)
    {
      assert forall k :: i + 1 <= k < j ==> h'[k] == h[k];
      assert NoRearm(h, i + 1, j);
      if j == |h| {
        BackoffStays(h, i);
      }
    }
  }

  /** What one more entry does to the backoff the history determines. */
  lemma NextAfter(h: seq<Entry>, e: Entry)
    ensures NextOf(h + [e]) == if e.Applied? then e.params.nextAttemptAt else if Rearms(e) then None else NextOf(h)
  {
    assert (h + [e])[..|h|] == h;
  }

  lemma BackoffFollows(c: Cell, t: Time, e: CellEvent)
    requires c.row.nextAttemptAt == NextOf(c.hist)
    ensures CellStep(c, t, e).row.nextAttemptAt == NextOf(CellStep(c, t, e).hist)
  {
    var c' := CellStep(c, t, e);
    EntryTells(c, t, e);
    if c'.hist != c.hist {
      NextAfter(c.hist, c'.hist[|c.hist|]);
    }
  }

  /** The entry a statement leaves, if it leaves one, says what it did to the backoff. */
  lemma EntryTells(c: Cell, t: Time, e: CellEvent)
    ensures var c' := CellStep(c, t, e);
      if c'.hist == c.hist then c'.row.nextAttemptAt == c.row.nextAttemptAt
      else
        && |c'.hist| == |c.hist| + 1 && c'.hist == c.hist + [c'.hist[|c.hist|]]
        && var x := c'.hist[|c.hist|];
        c'.row.nextAttemptAt == if x.Applied? then x.params.nextAttemptAt else if Rearms(x) then None else c.row.nextAttemptAt
  {
  }

  lemma FailuresStillSetBackoff(c: Cell, t: Time, e: CellEvent)
    requires FailuresSetBackoff(c.hist)
    ensures FailuresSetBackoff(CellStep(c, t, e).hist)
  {
  }

  lemma StepKeepsBackoffInv(c: Cell, t: Time, e: CellEvent)
    requires BackoffInv(c) && Enabled(c, t, e)
    ensures BackoffInv(CellStep(c, t, e))
  {
    BackoffFollows(c, t, e);
    FailuresStillSetBackoff(c, t, e);
    StepKeepsBackoffRespected(c, t, e);
  }

  /** For every run of a row from its insertion, every delivery respects the backoff before it. */
  lemma {:induction false} BackoffHolds(name: string, tier: string, spec: string, t0: Time, es: seq<Timed>)
    requires ValidRun(NewCell(name, tier, spec, t0), es)
    ensures BackoffInv(RunCell(NewCell(name, tier, spec, t0), es))
    decreases |es|
  {
    if es != [] {
      var n := |es| - 1;
      BackoffHolds(name, tier, spec, t0, es[..n]);
      StepKeepsBackoffInv(RunCell(NewCell(name, tier, spec, t0), es[..n]), es[n].t, es[n].e);
    }
  }

  // ---- failure segments --------------------------------------------------------------------------

  /** What a row sees between two re-arming statements while it keeps failing. */
  predicate SegmentEvent(e: CellEvent, budget: int) {
    match e
    case Deliver(_, _) => true
    case FlagUnreachable => true
    case ReadForReport(_, _, report, b) => report.state.Failed? && b == budget
    case WriteReport(_, _) => true
    case _ => false
  }

  /** Whatever reports are in flight are failed ones; a segment may well begin with some. */
  predicate FailuresInFlight(c: Cell, budget: int) {
    forall q :: q in c.pending ==> c.pending[q].report.state.Failed? && c.pending[q].budget == budget
  }

  predicate Segment(c: Cell, es: seq<Timed>, budget: int) {
    && FailuresInFlight(c, budget)
    && ValidRun(c, es)
    && (forall i :: 0 <= i < |es| ==> SegmentEvent(es[i].e, budget))
  }

  /** How often the attempts column was written. */
  function Writes(h: seq<Entry>): nat
    decreases |h|
  {
    if h == [] then 0
    else Writes(h[..|h| - 1]) + (if Rearms(h[|h| - 1]) then 1 else 0)
  }

  lemma AppendCounts(h: seq<Entry>, e: Entry)
    ensures Writes(h + [e]) == Writes(h) + (if Rearms(e) then 1 else 0)
  {
    assert (h + [e])[..|h|] == h;
  }

  /** The failures recorded since `c0`: inside a segment nothing but a failed report writes the column. */
  function FailuresSince(c0: Cell, c: Cell): int { Writes(c.hist) - Writes(c0.hist) }

  lemma WriteInSegment(c: Cell, t: Time, e: CellEvent, budget: int)
    requires Enabled(c, t, e) && e.WriteReport? && c.pending[e.req].report.state.Failed? && c.pending[e.req].budget == budget && Live(c.row)
    ensures var c' := CellStep(c, t, e);
      && Live(c'.row) && Writes(c'.hist) == Writes(c.hist) + 1
      && c'.row.attempts == c.pending[e.req].snapshot.attempts + 1
      && (c'.row.state.Failed? <==> c'.row.attempts >= EffectiveBudget(budget))
  {
    var c' := CellStep(c, t, e);
    AppendCounts(c.hist, c'.hist[|c.hist|]);
    assert c'.hist == c.hist + [c'.hist[|c.hist|]];
  }

  lemma OtherInSegment(c: Cell, t: Time, e: CellEvent, budget: int)
    requires Enabled(c, t, e) && SegmentEvent(e, budget) && !e.WriteReport?
    ensures var c' := CellStep(c, t, e);
      c'.row.deletedAt == c.row.deletedAt && Writes(c'.hist) == Writes(c.hist) && c'.row.attempts == c.row.attempts && c'.row.state == c.row.state
  {
    var x := OtherEntry(c, t, e, budget);
    if CellStep(c, t, e).hist != c.hist {
      AppendCounts(c.hist, x);
    }
  }

  lemma OtherEntry(c: Cell, t: Time, e: CellEvent, budget: int) returns (x: Entry)
    requires Enabled(c, t, e) && SegmentEvent(e, budget) && !e.WriteReport?
    ensures CellStep(c, t, e).hist == c.hist || (CellStep(c, t, e).hist == c.hist + [x] && !Rearms(x))
  {
    var h := CellStep(c, t, e).hist;
    x := if |h| > |c.hist| then h[|c.hist|] else Flagged(t);
  }

  lemma SegmentCounts(c: Cell, t: Time, e: CellEvent, budget: int)
    requires Enabled(c, t, e) && SegmentEvent(e, budget) && FailuresInFlight(c, budget) && Live(c.row)
    ensures var c' := CellStep(c, t, e);
      && FailuresInFlight(c', budget) && Live(c'.row)
      && Writes(c'.hist) == Writes(c.hist) + (if e.WriteReport? then 1 else 0)
      && c'.row.attempts == (if e.WriteReport? then c.pending[e.req].snapshot.attempts + 1 else c.row.attempts)
      && (e.WriteReport? ==> (c'.row.state.Failed? <==> c'.row.attempts >= EffectiveBudget(budget)))
      && (!e.WriteReport? ==> c'.row.state == c.row.state)
  {
    if e.WriteReport? {
      WriteInSegment(c, t, e, budget);
    } else {
      OtherInSegment(c, t, e, budget);
    }
  }

  lemma {:induction false} SegmentStays(c: Cell, es: seq<Timed>, budget: int)
    requires Segment(c, es, budget) && Live(c.row)
    ensures var d := RunCell(c, es);
      && FailuresInFlight(d, budget) && Live(d.row) && FailuresSince(c, d) >= 0
      && (FailuresSince(c, d) > 0 ==> (d.row.state.Failed? <==> d.row.attempts >= EffectiveBudget(budget)))
    decreases |es|
  {
    if es != [] {
      var n := |es| - 1;
      assert Segment(c, es[..n], budget);
      SegmentStays(c, es[..n], budget);
      SegmentCounts(RunCell(c, es[..n]), es[n].t, es[n].e, budget);
    }
  }

  // ---- when the counter counts -------------------------------------------------------------------

  /** The counter has advanced by one for each failure. */
  predicate Counts(c0: Cell, c: Cell) { c.row.attempts == c0.row.attempts + FailuresSince(c0, c) }

  predicate AlwaysCounts(c: Cell, es: seq<Timed>)
    decreases |es|
  {
    Counts(c, RunCell(c, es)) && (es == [] || AlwaysCounts(c, es[..|es| - 1]))
  }

  /** A report about to be written read the count that is still the row's. */
  predicate Current(c: Cell, e: CellEvent) {
    e.WriteReport? && e.req in c.pending ==> c.pending[e.req].snapshot.attempts == c.row.attempts
  }

  predicate AlwaysCurrent(c: Cell, es: seq<Timed>)
    decreases |es|
  {
    es == [] ||
    (var n := |es| - 1;
     AlwaysCurrent(c, es[..n]) && Current(RunCell(c, es[..n]), es[n].e))
  }

  /**
   In every failure segment, whatever was in flight when it began, the counter counts the failures
   throughout if and only if every report was written at the count it had read; and past the first
   failure the row is parked exactly at its budget.
   */
  lemma {:induction false} AttemptsCountFailures(c: Cell, es: seq<Timed>, budget: int)
    requires Segment(c, es, budget) && Live(c.row)
    ensures AlwaysCounts(c, es) <==> AlwaysCurrent(c, es)
    ensures var d := RunCell(c, es);
      FailuresSince(c, d) > 0 ==> (d.row.state.Failed? <==> d.row.attempts >= EffectiveBudget(budget))
    decreases |es|
  {
    SegmentStays(c, es, budget);
    if es != [] {
      var n := |es| - 1;
      assert Segment(c, es[..n], budget);
      AttemptsCountFailures(c, es[..n], budget);
      SegmentStays(c, es[..n], budget);
      SegmentCounts(RunCell(c, es[..n]), es[n].t, es[n].e, budget);
    }
  }

  /** The counter has not run ahead of the failures. */
  predicate Bounded(c0: Cell, c: Cell) { c.row.attempts <= c0.row.attempts + FailuresSince(c0, c) }

  predicate NeverExceeds(c: Cell, es: seq<Timed>)
    decreases |es|
  {
    Bounded(c, RunCell(c, es)) && (es == [] || NeverExceeds(c, es[..|es| - 1]))
  }

  /** A report about to be written had read more attempts than the segment accounts for. */
  predicate Overcounts(c0: Cell, c: Cell, e: CellEvent) {
    e.WriteReport? && e.req in c.pending && c.pending[e.req].snapshot.attempts > c0.row.attempts + FailuresSince(c0, c)
  }

  predicate NeverOvercounts(c: Cell, es: seq<Timed>)
    decreases |es|
  {
    es == [] ||
    (var n := |es| - 1;
     NeverOvercounts(c, es[..n]) && !Overcounts(c, RunCell(c, es[..n]), es[n].e))
  }

  /** Every report in flight was in flight when the segment began, or read no more than it accounts for. */
  predicate OnlyEarlierReads(c0: Cell, c: Cell) {
    forall q :: q in c.pending ==>
      (q in c0.pending && c.pending[q] == c0.pending[q])
      || c.pending[q].snapshot.attempts <= c0.row.attempts + FailuresSince(c0, c)
  }

  /**
   The counter runs ahead of the failures if and only if a report is written that had read more than
   the segment accounts for, and until then only a report read before the segment began can have.
   */
  lemma {:induction false} CounterBoundedIff(c: Cell, es: seq<Timed>, budget: int)
    requires Segment(c, es, budget) && Live(c.row)
    ensures NeverExceeds(c, es) <==> NeverOvercounts(c, es)
    ensures NeverExceeds(c, es) ==> OnlyEarlierReads(c, RunCell(c, es))
    decreases |es|
  {
    if es != [] {
      var n := |es| - 1;
      assert Segment(c, es[..n], budget);
      CounterBoundedIff(c, es[..n], budget);
      SegmentStays(c, es[..n], budget);
      SegmentCounts(RunCell(c, es[..n]), es[n].t, es[n].e, budget);
    }
  }

  /** With nothing in flight when it begins, a segment never counts more than its failures. */
  lemma {:induction false} CleanStartNeverExceeds(c: Cell, es: seq<Timed>, budget: int)
    requires Segment(c, es, budget) && Live(c.row) && c.pending == map[]
    ensures NeverExceeds(c, es)
    decreases |es|
  {
    if es != [] {
      var n := |es| - 1;
      assert Segment(c, es[..n], budget);
      CleanStartNeverExceeds(c, es[..n], budget);
      CounterBoundedIff(c, es[..n], budget);
      CounterBoundedIff(c, es, budget);
    }
  }

  /**
   A re-arm with a report in flight.  Budget two: a report of one earlier failure is read, the spec is
   updated, and the report is written.  One failure into the new segment the counter reads two, and the
   row is parked with a spec that nobody was ever handed.
   */
  lemma RearmedMidReport() returns (before: seq<Timed>, e: Timed)
    ensures var c := RunCell(NewCell("db", "", "v1", 0), before);
      && ValidRun(NewCell("db", "", "v1", 0), before) && |before| == 5 && before[4].e == SetSpec("v2", "") && Segment(c, [e], 2)
      && var d := CellStep(c, e.t, e.e);
      && RunCell(c, [e]) == d && FailuresSince(c, d) == 1 && d.row.attempts == c.row.attempts + 2
      && d.row.state.Failed? && d.row.spec == "v2" && d.row.observed < d.row.generation
      && (forall i :: 0 <= i < |d.hist| && d.hist[i].Delivered? ==> d.hist[i].spec == "v1")
  {
    before := UpdatedMidReport();
    var c := RunCell(NewCell("db", "", "v1", 0), before);
    e := At(7, WriteReport(1, 7));
    RunExtends(c, [], e);
    assert [] + [e] == [e];
    SegmentCounts(c, e.t, e.e, 2);
  }

  lemma UpdatedMidReport() returns (es: seq<Timed>)
    ensures |es| == 5 && ValidRun(NewCell("db", "", "v1", 0), es) && es[4].e == SetSpec("v2", "")
    ensures var c := RunCell(NewCell("db", "", "v1", 0), es);
      && Live(c.row) && c.row.attempts == 0 && c.row.spec == "v2" && c.row.observed == 0 && c.row.generation == 2
      && c.pending.Keys == {1} && c.pending[1].snapshot.attempts == 1 && c.pending[1].readAt == 5
      && c.row.agent == Some(7) && c.pending[1].readPos <= |c.hist| && c.pending[1].report == Report(Failed, None, 1) && c.pending[1].budget == 2
      && (forall i :: 0 <= i < |c.hist| && c.hist[i].Delivered? ==> c.hist[i].spec == "v1")
  {
    var c := NewCell("db", "", "v1", 0);
    var once := FailedOnce();
    var d := RunCell(c, once);
    var e3 := At(5, ReadForReport(1, 7, Report(Failed, None, 1), 2));
    var e4 := At(6, SetSpec("v2", ""));
    RunReaches(c, once, d, e3);
    RunReaches(c, once + [e3], CellStep(d, e3.t, e3.e), e4);
    es := once + [e3] + [e4];
  }

  lemma FailedOnce() returns (es: seq<Timed>)
    ensures |es| == 3 && ValidRun(NewCell("db", "", "v1", 0), es)
    ensures var c := RunCell(NewCell("db", "", "v1", 0), es);
      && Live(c.row) && c.row.attempts == 1 && c.row.observed == 0 && c.row.generation == 1 && c.row.agent == Some(7)
      && c.pending == map[] && (forall i :: 0 <= i < |c.hist| && c.hist[i].Delivered? ==> c.hist[i].spec == "v1")
  {
    var c := NewCell("db", "", "v1", 0);
    var e0 := At(1, Deliver(7, 0));
    var e1 := At(2, ReadForReport(0, 7, Report(Failed, None, 1), 2));
    var e2 := At(3, WriteReport(0, 3));
    var c1 := CellStep(c, e0.t, e0.e);
    var c2 := CellStep(c1, e1.t, e1.e);
    RunReaches(c, [], c, e0);
    RunReaches(c, [] + [e0], c1, e1);
    RunReaches(c, [] + [e0] + [e1], c2, e2);
    es := [] + [e0] + [e1] + [e2];
  }

  // ---- overlaps ----------------------------------------------------------------------------------

  /** Nothing has written the attempts column since this report was read. */
  predicate Fresh(c: Cell, p: InFlight) { p.readPos <= |c.hist| && Writes(c.hist[..p.readPos]) == Writes(c.hist) }

  /** Each report is written with the attempts column untouched since it was read. */
  predicate Serial(c: Cell, es: seq<Timed>)
    decreases |es|
  {
    es == [] ||
    (var n := |es| - 1;
     var d := RunCell(c, es[..n]);
     Serial(c, es[..n]) && (es[n].e.WriteReport? && es[n].e.req in d.pending ==> Fresh(d, d.pending[es[n].e.req])))
  }

  predicate FreshReadCurrent(c: Cell, p: InFlight) {
    p.readPos <= |c.hist| && (Fresh(c, p) ==> p.snapshot.attempts == c.row.attempts)
  }

  lemma StepKeepsFreshCurrent(c: Cell, t: Time, e: CellEvent, p: InFlight)
    requires FreshReadCurrent(c, p)
    ensures FreshReadCurrent(CellStep(c, t, e), p)
  {
    var c' := CellStep(c, t, e);
    HistGrows(c, t, e);
    if c'.hist != c.hist {
      AppendCounts(c.hist, c'.hist[|c.hist|]);
      assert c'.hist == c.hist + [c'.hist[|c.hist|]];
    }
    assert c'.hist[..p.readPos] == c.hist[..p.readPos];
    WritesMonotone(c.hist, p.readPos);
  }

  /** What was read inside a segment: no more than it accounted for then, and the row's own count if nothing changed it. */
  predicate ReadInside(c0: Cell, c: Cell, p: InFlight) {
    && |c0.hist| <= p.readPos && FreshReadCurrent(c, p)
    && p.snapshot.attempts <= c0.row.attempts + Writes(c.hist[..p.readPos]) - Writes(c0.hist)
  }

  predicate AllReadInside(c0: Cell, c: Cell) {
    |c0.hist| <= |c.hist| && Bounded(c0, c) && forall q :: q in c.pending ==> ReadInside(c0, c, c.pending[q])
  }

  lemma ReadInsideStays(c0: Cell, c: Cell, t: Time, e: CellEvent, q: nat)
    requires AllReadInside(c0, c) && q in CellStep(c, t, e).pending
    ensures ReadInside(c0, CellStep(c, t, e), CellStep(c, t, e).pending[q])
  {
    var c' := CellStep(c, t, e);
    HistGrows(c, t, e);
    var p := c'.pending[q];
    if q in c.pending && p == c.pending[q] {
      assert ReadInside(c0, c, p);
      StepKeepsFreshCurrent(c, t, e, p);
      assert c'.hist[..p.readPos] == c.hist[..p.readPos];
    } else {
      assert c.hist[..|c.hist|] == c.hist && c'.hist[..p.readPos] == c.hist;
    }
  }

  /** A fresh report keeps a segment counting or behind as it was; a stale one leaves it behind. */
  lemma SerialStep(c0: Cell, c: Cell, t: Time, e: CellEvent, budget: int)
    requires AllReadInside(c0, c) && Enabled(c, t, e) && SegmentEvent(e, budget) && FailuresInFlight(c, budget) && Live(c.row)
    ensures var c' := CellStep(c, t, e);
      && Bounded(c0, c')
      && (Counts(c0, c') <==> Counts(c0, c) && (e.WriteReport? ==> Fresh(c, c.pending[e.req])))
  {
    SegmentCounts(c, t, e, budget);
    if e.WriteReport? {
      assert ReadInside(c0, c, c.pending[e.req]);
      WritesMonotone(c.hist, c.pending[e.req].readPos);
    }
  }

  /**
   With nothing in flight when it begins, a segment's counter equals its failures, at the end or
   throughout, if and only if reports do not overlap.
   */
  lemma {:induction false} CountsIffSerial(c: Cell, es: seq<Timed>, budget: int)
    requires Segment(c, es, budget) && Live(c.row) && c.pending == map[]
    ensures Counts(c, RunCell(c, es)) <==> Serial(c, es)
    ensures AlwaysCounts(c, es) <==> Serial(c, es)
    ensures AllReadInside(c, RunCell(c, es))
    decreases |es|
  {
    if es != [] {
      var n := |es| - 1;
      var d := RunCell(c, es[..n]);
      assert Segment(c, es[..n], budget);
      CountsIffSerial(c, es[..n], budget);
      SegmentStays(c, es[..n], budget);
      SerialStep(c, d, es[n].t, es[n].e, budget);
      HistGrows(d, es[n].t, es[n].e);
      forall q | q in CellStep(d, es[n].t, es[n].e).pending
        ensures ReadInside(c, CellStep(d, es[n].t, es[n].e), CellStep(d, es[n].t, es[n].e).pending[q])
      {
        ReadInsideStays(c, d, es[n].t, es[n].e, q);
      }
    }
  }

  predicate FreshReadsCurrent(c: Cell) { forall q :: q in c.pending ==> FreshReadCurrent(c, c.pending[q]) }

  /** In every run, a report is current if nothing wrote the attempts column since it was read. */
  lemma {:induction false} FreshIsCurrent(name: string, tier: string, spec: string, t0: Time, es: seq<Timed>)
    requires ValidRun(NewCell(name, tier, spec, t0), es)
    ensures FreshReadsCurrent(RunCell(NewCell(name, tier, spec, t0), es))
    decreases |es|
  {
    if es != [] {
      var n := |es| - 1;
      FreshIsCurrent(name, tier, spec, t0, es[..n]);
      AllFreshStayCurrent(RunCell(NewCell(name, tier, spec, t0), es[..n]), es[n].t, es[n].e);
    }
  }

  lemma AllFreshStayCurrent(c: Cell, t: Time, e: CellEvent)
    requires FreshReadsCurrent(c)
    ensures FreshReadsCurrent(CellStep(c, t, e))
  {
    var c' := CellStep(c, t, e);
    forall q | q in c'.pending
      ensures FreshReadCurrent(c', c'.pending[q])
    {
      if q in c.pending && c'.pending[q] == c.pending[q] {
        StepKeepsFreshCurrent(c, t, e, c.pending[q]);
      }
    }
  }

  /** With a report in flight when it begins this is only sufficient: a stale report can write the right count by luck. */
  lemma StaleButCurrent() returns (before: seq<Timed>, es: seq<Timed>)
    ensures var c := RunCell(NewCell("db", "", "v1", 0), before);
      && ValidRun(NewCell("db", "", "v1", 0), before) && Segment(c, es, 2) && Live(c.row)
      && !Serial(c, es) && AlwaysCurrent(c, es)
  {
    before := UpdatedMidReport();
    var c := RunCell(NewCell("db", "", "v1", 0), before);
    es := StaleTail(c);
  }

  lemma StaleTail(c: Cell) returns (es: seq<Timed>)
    requires Live(c.row) && c.row.attempts == 0 && c.pending.Keys == {1} && c.row.agent == Some(7)
    requires c.pending[1].snapshot.attempts == 1 && c.pending[1].readAt == 5
    requires c.pending[1].report == Report(Failed, None, 1) && c.pending[1].budget == 2 && c.pending[1].readPos <= |c.hist|
    ensures Segment(c, es, 2) && !Serial(c, es) && AlwaysCurrent(c, es)
  {
    var inside := FreshFailure(c);
    var d := RunCell(c, inside);
    var e2 := At(10, WriteReport(1, 10));
    RunReaches(c, inside, d, e2);
    OneMore(c, inside, e2);
    es := inside + [e2];
  }

  /** A failed report read and written inside the segment, while the other one waits. */
  lemma FreshFailure(c: Cell) returns (es: seq<Timed>)
    requires Live(c.row) && c.row.attempts == 0 && c.pending.Keys == {1} && c.row.agent == Some(7)
    requires c.pending[1].report == Report(Failed, None, 1) && c.pending[1].budget == 2 && c.pending[1].readPos <= |c.hist|
    ensures Segment(c, es, 2) && AlwaysCurrent(c, es)
    ensures var d := RunCell(c, es);
      && 1 in d.pending && d.pending[1] == c.pending[1] && d.row.attempts == 1 && !Fresh(d, d.pending[1])
  {
    var e0 := At(8, ReadForReport(2, 7, Report(Failed, None, 1), 2));
    var e1 := At(9, WriteReport(2, 9));
    var c1 := CellStep(c, e0.t, e0.e);
    var c2 := CellStep(c1, e1.t, e1.e);
    RunReaches(c, [], c, e0);
    RunReaches(c, [] + [e0], c1, e1);
    OneMore(c, [], e0);
    OneMore(c, [] + [e0], e1);
    es := [] + [e0] + [e1];
    StaleSinceWrite(c, c2, c.pending[1]);
  }

  /** A report read before a write has gone stale. */
  lemma StaleSinceWrite(c: Cell, d: Cell, p: InFlight)
    requires p.readPos <= |c.hist| && |d.hist| == |c.hist| + 1 && d.hist[..|c.hist|] == c.hist && d.hist[|c.hist|].Applied?
    ensures !Fresh(d, p)
  {
    AppendCounts(c.hist, d.hist[|c.hist|]);
    assert d.hist == c.hist + [d.hist[|c.hist|]];
    assert d.hist[..p.readPos] == c.hist[..p.readPos];
    WritesMonotone(c.hist, p.readPos);
  }

  lemma OneMore(c: Cell, es: seq<Timed>, x: Timed)
    ensures AlwaysCurrent(c, es + [x]) <==> AlwaysCurrent(c, es) && Current(RunCell(c, es), x.e)
    ensures x.e.WriteReport? && x.e.req in RunCell(c, es).pending && !Fresh(RunCell(c, es), RunCell(c, es).pending[x.e.req]) ==>
      !Serial(c, es + [x])
  {
    assert (es + [x])[..|es|] == es;
  }

  lemma {:induction false} WritesMonotone(h: seq<Entry>, r: nat)
    requires r <= |h|
    ensures Writes(h[..r]) <= Writes(h)
    decreases |h|
  {
    if r == |h| {
      assert h[..r] == h;
    } else {
      assert h[..|h| - 1][..r] == h[..r];
      WritesMonotone(h[..|h| - 1], r);
    }
  }

  // ---- parking -----------------------------------------------------------------------------------

  predicate NoDeliveryFrom(h: seq<Entry>, lo: nat) {
    forall i :: lo <= i < |h| ==> !h[i].Delivered?
  }

  /**
   The exact step.  Inside a segment a parked row leaves the parked state if and only if a report is
   written that was read with attempts to spare.
   */
  lemma UnparksIff(c: Cell, budget: int, t: Time, e: CellEvent)
    requires Enabled(c, t, e) && SegmentEvent(e, budget) && Live(c.row) && c.row.state.Failed? && FailuresInFlight(c, budget)
    ensures !CellStep(c, t, e).row.state.Failed? <==> Unparks(c, e, budget)
  {
  }

  predicate Unparks(c: Cell, e: CellEvent, budget: int) {
    e.WriteReport? && e.req in c.pending && c.pending[e.req].snapshot.attempts + 1 < EffectiveBudget(budget)
  }

  /** The row is parked after `m` events and after every later one. */
  predicate AlwaysParked(c: Cell, es: seq<Timed>, m: nat)
    requires m <= |es|
    decreases |es|
  {
    RunCell(c, es).row.state.Failed? && (m == |es| || AlwaysParked(c, es[..|es| - 1], m))
  }

  /** No event from `m` on unparks. */
  predicate NeverUnparks(c: Cell, es: seq<Timed>, budget: int, m: nat)
    requires m <= |es|
    decreases |es|
  {
    m == |es| ||
    (var n := |es| - 1;
     NeverUnparks(c, es[..n], budget, m) && !Unparks(RunCell(c, es[..n]), es[n].e, budget))
  }

  /**
   Parking is final exactly when nothing unparks.  In any failure segment, whatever was in flight when
   it began, a row parked after `m` events is parked from then on if and only if no later report is
   written that was read with attempts to spare; and while it is parked it is not delivered.
   */
  lemma {:induction false} ParkedForGoodIff(c: Cell, es: seq<Timed>, budget: int, m: nat)
    requires Segment(c, es, budget) && Live(c.row) && m <= |es| && RunCell(c, es[..m]).row.state.Failed?
    ensures AlwaysParked(c, es, m) <==> NeverUnparks(c, es, budget, m)
    ensures AlwaysParked(c, es, m) ==>
      RunCell(c, es[..m]).hist <= RunCell(c, es).hist && NoDeliveryFrom(RunCell(c, es).hist, |RunCell(c, es[..m]).hist|)
    decreases |es|
  {
    if m == |es| {
      assert es[..m] == es;
    } else {
      var n := |es| - 1;
      assert Segment(c, es[..n], budget) && es[..n][..m] == es[..m];
      ParkedForGoodIff(c, es[..n], budget, m);
      if AlwaysParked(c, es[..n], m) {
        SegmentStays(c, es[..n], budget);
        UnparksIff(RunCell(c, es[..n]), budget, es[n].t, es[n].e);
        ParkedIsNotDelivered(RunCell(c, es[..n]), es[n].t, es[n].e);
      }
    }
  }

  lemma ParkedIsNotDelivered(c: Cell, t: Time, e: CellEvent)
    requires Enabled(c, t, e) && c.row.state.Failed?
    ensures c.hist <= CellStep(c, t, e).hist && NoDeliveryFrom(CellStep(c, t, e).hist, |c.hist|)
  {
  }

  /** A report written at the count it read does not unpark a row that has used its budget up. */
  lemma {:induction false} CurrentNeverUnparks(c: Cell, es: seq<Timed>, budget: int, m: nat)
    requires Segment(c, es, budget) && AlwaysCurrent(c, es) && Live(c.row) && m <= |es|
    requires RunCell(c, es[..m]).row.attempts >= EffectiveBudget(budget)
    ensures NeverUnparks(c, es, budget, m) && RunCell(c, es).row.attempts >= RunCell(c, es[..m]).row.attempts
    decreases |es|
  {
    if m == |es| {
      assert es[..m] == es;
    } else {
      var n := |es| - 1;
      assert Segment(c, es[..n], budget) && es[..n][..m] == es[..m];
      CurrentNeverUnparks(c, es[..n], budget, m);
      SegmentStays(c, es[..n], budget);
      SegmentCounts(RunCell(c, es[..n]), es[n].t, es[n].e, budget);
    }
  }

  /** A row parked at its budget in a segment whose reports are all current stays parked and is never delivered again. */
  lemma ParkedStaysParked(c: Cell, es: seq<Timed>, budget: int, m: nat)
    requires Segment(c, es, budget) && AlwaysCurrent(c, es) && Live(c.row) && m <= |es|
    requires var p := RunCell(c, es[..m]); FailuresSince(c, p) > 0 && p.row.attempts >= EffectiveBudget(budget)
    ensures var p, d := RunCell(c, es[..m]), RunCell(c, es);
      && d.row.state.Failed? && d.row.attempts >= p.row.attempts
      && p.hist <= d.hist && NoDeliveryFrom(d.hist, |p.hist|)
  {
    PrefixIsValid(c, es, m);
    SegmentStays(c, es[..m], budget);
    CurrentNeverUnparks(c, es, budget, m);
    ParkedForGoodIff(c, es, budget, m);
  }

  lemma {:induction false} PrefixIsValid(c: Cell, es: seq<Timed>, m: nat)
    requires ValidRun(c, es) && m <= |es|
    ensures ValidRun(c, es[..m])
    decreases |es|
  {
    if m == |es| {
      assert es[..m] == es;
    } else {
      assert es[..|es| - 1][..m] == es[..m];
      PrefixIsValid(c, es[..|es| - 1], m);
    }
  }

  /** Retries are bounded: while such a row is retryable, its failures number fewer than the budget. */
  lemma RetryableMeansUnderBudget(c: Cell, es: seq<Timed>, budget: int)
    requires Segment(c, es, budget) && AlwaysCurrent(c, es) && Live(c.row)
    requires FailuresSince(c, RunCell(c, es)) > 0 && !RunCell(c, es).row.state.Failed?
    ensures c.row.attempts + FailuresSince(c, RunCell(c, es)) < EffectiveBudget(budget)
  {
    AttemptsCountFailures(c, es, budget);
  }

  /**
   Without that condition parking is not final.  Three failed reports with a budget of two: the second
   is read before the third parks the row and written after it, and the row is handed out again.
   */
  lemma OverlapUnparks() returns (c: Cell, es: seq<Timed>)
    ensures c == CellStep(NewCell("db", "", "v1", 0), 1, Deliver(7, 0)) && Segment(c, es, 2) && c.pending == map[]
    ensures |es| == 7 && !AlwaysCurrent(c, es) && !Serial(c, es)
    ensures RunCell(c, es[..5]).row.state.Failed? && RunCell(c, es[..5]).row.attempts == 2
    ensures es[6].e.Deliver?
  {
    var parked := OverlapParks();
    c, es := parked.0, parked.1;
    var e5 := At(7, WriteReport(1, 7));
    var e6 := At(7 + RETRY_BASE, Deliver(7, 0));
    assert Pow2(0) == 1;
    RunExtends(c, es, e5);
    assert RunCell(c, es + [e5]).row.nextAttemptAt == Some(7 + RETRY_BASE);
    RunExtends(c, es + [e5], e6);
    assert (es + [e5] + [e6])[..6] == es + [e5] && (es + [e5])[..5] == es && (es + [e5] + [e6])[..5] == es;
    assert !AlwaysCurrent(c, es + [e5]);
    es := es + [e5] + [e6];
    AttemptsCountFailures(c, es, 2);
    CountsIffSerial(c, es, 2);
  }

  /** The first five events: the row is parked while an earlier read of it is still to be written. */
  lemma OverlapParks() returns (r: (Cell, seq<Timed>))
    ensures r.0 == CellStep(NewCell("db", "", "v1", 0), 1, Deliver(7, 0)) && |r.1| == 5 && Segment(r.0, r.1, 2)
    ensures var d := RunCell(r.0, r.1);
      && d.row.state.Failed? && d.row.attempts == 2 && Live(d.row) && d.row.agent == Some(7) && d.row.generation == 1 && d.row.observed == 0
      && 1 in d.pending && d.pending[1].snapshot.attempts == 0 && d.pending[1].snapshot.state.Pending?
      && d.pending[1].report == Report(Failed, None, 1) && d.pending[1].budget == 2 && d.pending[1].readAt == 3
  {
    var c := CellStep(NewCell("db", "", "v1", 0), 1, Deliver(7, 0));
    var failed := Report(Failed, None, 1);
    var e0 := At(2, ReadForReport(0, 7, failed, 2));
    var e1 := At(3, ReadForReport(1, 7, failed, 2));
    var e2 := At(4, WriteReport(0, 4));
    var e3 := At(5, ReadForReport(2, 7, failed, 2));
    var e4 := At(6, WriteReport(2, 6));
    RunExtends(c, [], e0);
    RunExtends(c, [] + [e0], e1);
    RunExtends(c, [] + [e0] + [e1], e2);
    RunExtends(c, [] + [e0] + [e1] + [e2], e3);
    RunExtends(c, [] + [e0] + [e1] + [e2] + [e3], e4);
    r := (c, [] + [e0] + [e1] + [e2] + [e3] + [e4]);
  }

  // ---- everything that revives a parked row ------------------------------------------------------

  /** A report whose write leaves the row in some state other than parked. */
  predicate LeavesUnparked(p: InFlight) {
    match p.report.state
    case Failed => p.snapshot.attempts + 1 < EffectiveBudget(p.budget)
    case Blank => !p.snapshot.state.Failed?
    case _ => true
  }

  /** A parked row is revived by a spec update, a delete, a re-dispatch, a status write or a report, and by nothing else. */
  lemma RevivesIff(c: Cell, t: Time, e: CellEvent)
    requires Enabled(c, t, e) && Live(c.row) && c.row.state.Failed?
    ensures !CellStep(c, t, e).row.state.Failed? <==>
      || e.SetSpec? || e.MarkDeleting? || e.Redispatch? || (e.SetStatus? && !e.state.Failed?)
      || (e.WriteReport? && LeavesUnparked(c.pending[e.req]))
  {
  }
}
