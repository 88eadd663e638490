/**
 Teardown.  When a row is stamped deleted, and by whose word: exactly when a removal read in a teardown
 is written; only after a delete request if agents keep to their vocabulary; and against the operator's
 last word exactly when a report carries a teardown over a later update.  A stamped row never changes
 again, and a host-unreachable record is written once per episode.
 */
module Teardown {
  import opened Basics
  import opened Rows

  /** Agents speak of what they observe; "deleting" is Core's own word. */
  predicate AgentVocabulary(es: seq<Timed>) {
    forall i :: 0 <= i < |es| && es[i].e.ReadForReport? ==> !es[i].e.report.state.Deleting?
  }

  predicate DeleteWasRequested(h: seq<Entry>) {
    exists i :: 0 <= i < |h| && h[i].DeleteRequested?
  }

  /** Everything that looks like a teardown, on the row or in flight, traces back to a delete request. */
  predicate TeardownInv(c: Cell) {
    !DeleteWasRequested(c.hist) ==>
      && Live(c.row) && !c.row.state.Deleting?
      && (forall q :: q in c.pending ==>
            !c.pending[q].snapshot.state.Deleting? && !c.pending[q].report.state.Deleting?)
  }

  lemma RequestPersists(h: seq<Entry>, h': seq<Entry>)
    requires h <= h' && DeleteWasRequested(h)
    ensures DeleteWasRequested(h')
  {
    var i :| 0 <= i < |h| && h[i].DeleteRequested?;
    assert h'[i] == h[i];
  }

  lemma StepKeepsTeardownInv(c: Cell, t: Time, e: CellEvent)
    requires TeardownInv(c) && Enabled(c, t, e) && !e.SetStatus?
    requires e.ReadForReport? ==> !e.report.state.Deleting?
    ensures TeardownInv(CellStep(c, t, e))
  {
    var c' := CellStep(c, t, e);
    HistGrows(c, t, e);
    if DeleteWasRequested(c.hist) {
      RequestPersists(c.hist, c'.hist);
    } else if e.MarkDeleting? {
      assert c'.hist[|c.hist|].DeleteRequested?;
    }
  }

  /**
   A row is stamped deleted only after a delete request, on every run in which agents keep to their
   vocabulary and nobody writes the status columns directly.
   */
  lemma {:induction false} DeletedOnlyOnRequest(name: string, tier: string, spec: string, t0: Time, es: seq<Timed>)
    requires ValidRun(NewCell(name, tier, spec, t0), es)
    requires AgentVocabulary(es) && NoStatusWrites(es)
    ensures var c := RunCell(NewCell(name, tier, spec, t0), es);
      TeardownInv(c) && (!Live(c.row) ==> DeleteWasRequested(c.hist))
    decreases |es|
  {
    if es != [] {
      var n := |es| - 1;
      DeletedOnlyOnRequest(name, tier, spec, t0, es[..n]);
      StepKeepsTeardownInv(RunCell(NewCell(name, tier, spec, t0), es[..n]), es[n].t, es[n].e);
    }
  }

  /**
   The vocabulary is not decoration: an agent that reports "deleting" and then "removed" finishes a
   delete nobody requested.
   */
  lemma ReportedDeletingFinalizes() returns (c: Cell, es: seq<Timed>)
    ensures c == NewCell("db", "", "v1", 0) && ValidRun(c, es) && NoStatusWrites(es)
    ensures !Live(RunCell(c, es).row) && !DeleteWasRequested(RunCell(c, es).hist)
  {
    c := NewCell("db", "", "v1", 0);
    var e0 := At(1, Deliver(7, 0));
    var e1 := At(2, ReadForReport(0, 7, Report(Deleting, None, 1), 0));
    var e2 := At(3, WriteReport(0, 3));
    var e3 := At(4, ReadForReport(1, 7, Report(Removed, None, 1), 0));
    var e4 := At(5, WriteReport(1, 5));
    RunExtends(c, [], e0);
    RunExtends(c, [] + [e0], e1);
    RunExtends(c, [] + [e0] + [e1], e2);
    RunExtends(c, [] + [e0] + [e1] + [e2], e3);
    RunExtends(c, [] + [e0] + [e1] + [e2] + [e3], e4);
    es := [] + [e0] + [e1] + [e2] + [e3] + [e4];
  }

  // ---- exactly when a row is stamped -------------------------------------------------------------

  /**
   The exact step: a report's write stamps a live row if and only if it says "removed" of a row that
   was tearing down when it was read, whatever the row has become since.
   */
  lemma FinalizesIff(c: Cell, t: Time, e: CellEvent)
    requires Enabled(c, t, e) && Live(c.row)
    ensures !Live(CellStep(c, t, e).row) <==>
      e.WriteReport? && c.pending[e.req].report.state.Removed? && c.pending[e.req].snapshot.state.Deleting?
  {
  }

  /** The statements that write the state column, and the state column as the history alone determines it. */
  predicate WritesState(e: Entry) { !e.Delivered? && !e.Flagged? }

  function Written(e: Entry): State
    requires WritesState(e)
  {
    match e
    case Applied(_, _, _, _, params, _) => params.state
    case DeleteRequested(_) => Deleting
    case StatusSet(_, _, state) => state
    case _ => Pending
  }

  function StateOf(h: seq<Entry>): State
    decreases |h|
  {
    if h == [] then Pending
    else if WritesState(h[|h| - 1]) then Written(h[|h| - 1])
    else StateOf(h[..|h| - 1])
  }

  /** Entry `i` is a report of removal, read while the row was tearing down. */
  predicate FinishesTeardown(h: seq<Entry>, i: int) {
    && 0 <= i < |h| && h[i].Applied? && h[i].readPos <= |h|
    && h[i].report.state.Removed? && StateOf(h[..h[i].readPos]).Deleting?
  }

  /** What a recorded report wrote follows from what it read. */
  predicate ReadsBack(h: seq<Entry>, i: nat)
    requires i < |h|
  {
    h[i].Applied? ==>
      && h[i].readPos <= i
      && (h[i].params.finalize <==> h[i].report.state.Removed? && StateOf(h[..h[i].readPos]).Deleting?)
      && (h[i].params.state.Deleting? ==> h[i].report.state.Deleting? || StateOf(h[..h[i].readPos]).Deleting?)
  }

  predicate Stamps(e: Entry) { e.Applied? && e.params.finalize }

  predicate WasStamped(h: seq<Entry>) { exists i :: 0 <= i < |h| && Stamps(h[i]) }

  predicate PendingReadsBack(h: seq<Entry>, p: InFlight) {
    p.readPos <= |h| && p.snapshot.state == StateOf(h[..p.readPos])
  }

  predicate StampInv(c: Cell) {
    && c.row.state == StateOf(c.hist)
    && (!Live(c.row) <==> WasStamped(c.hist))
    && (forall i :: 0 <= i < |c.hist| ==> ReadsBack(c.hist, i))
    && (forall q :: q in c.pending ==> PendingReadsBack(c.hist, c.pending[q]))
  }

  lemma StateFollows(c: Cell, t: Time, e: CellEvent)
    requires c.row.state == StateOf(c.hist)
    ensures CellStep(c, t, e).row.state == StateOf(CellStep(c, t, e).hist)
  {
    var h, h' := c.hist, CellStep(c, t, e).hist;
    HistGrows(c, t, e);
    if h' != h {
      assert h'[..|h|] == h;
    }
  }

  lemma StampFollows(c: Cell, t: Time, e: CellEvent)
    requires (!Live(c.row) <==> WasStamped(c.hist)) && Enabled(c, t, e)
    ensures !Live(CellStep(c, t, e).row) <==> WasStamped(CellStep(c, t, e).hist)
  {
    var h, h' := c.hist, CellStep(c, t, e).hist;
    HistGrows(c, t, e);
    assert forall i :: 0 <= i < |h| ==> h'[i] == h[i];
    if h' != h {
      assert Stamps(h'[|h|]) <==> !Live(CellStep(c, t, e).row);
    }
  }

  lemma ReadsBackStays(c: Cell, t: Time, e: CellEvent, i: nat)
    requires StampInv(c) && Enabled(c, t, e) && i < |CellStep(c, t, e).hist|
    ensures ReadsBack(CellStep(c, t, e).hist, i)
  {
    var h, h' := c.hist, CellStep(c, t, e).hist;
    HistGrows(c, t, e);
    if i < |h| {
      assert ReadsBack(h, i) && h'[i] == h[i];
      assert h[i].Applied? ==> h'[..h[i].readPos] == h[..h[i].readPos];
    } else if e.WriteReport? {
      assert PendingReadsBack(h, c.pending[e.req]);
      assert h'[..h'[i].readPos] == h[..h'[i].readPos];
    }
  }

  lemma PendingReadsBackStays(c: Cell, t: Time, e: CellEvent, q: nat)
    requires StampInv(c) && q in CellStep(c, t, e).pending
    ensures PendingReadsBack(CellStep(c, t, e).hist, CellStep(c, t, e).pending[q])
  {
    var c' := CellStep(c, t, e);
    HistGrows(c, t, e);
    var r := c'.pending[q].readPos;
    assert q in c.pending && c'.pending[q] == c.pending[q] ==> PendingReadsBack(c.hist, c.pending[q]);
    assert c'.hist[..r] == c.hist[..r];
    assert c.hist[..|c.hist|] == c.hist;
  }

  lemma StepKeepsStampInv(c: Cell, t: Time, e: CellEvent)
    requires StampInv(c) && Enabled(c, t, e)
    ensures StampInv(CellStep(c, t, e))
  {
    var c' := CellStep(c, t, e);
    StateFollows(c, t, e);
    StampFollows(c, t, e);
    forall i | 0 <= i < |c'.hist|
      ensures ReadsBack(c'.hist, i)
    {
      ReadsBackStays(c, t, e, i);
    }
    forall q | q in c'.pending
      ensures PendingReadsBack(c'.hist, c'.pending[q])
    {
      PendingReadsBackStays(c, t, e, q);
    }
  }

  lemma {:induction false} StampInvHolds(name: string, tier: string, spec: string, t0: Time, es: seq<Timed>)
    requires ValidRun(NewCell(name, tier, spec, t0), es)
    ensures StampInv(RunCell(NewCell(name, tier, spec, t0), es))
    decreases |es|
  {
    if es != [] {
      var n := |es| - 1;
      StampInvHolds(name, tier, spec, t0, es[..n]);
      StepKeepsStampInv(RunCell(NewCell(name, tier, spec, t0), es[..n]), es[n].t, es[n].e);
    }
  }

  /** What can put a row into teardown in the first place. */
  predicate Origin(e: Entry) {
    e.DeleteRequested? || (e.Applied? && e.report.state.Deleting?) || (e.StatusSet? && e.state.Deleting?)
  }

  predicate HasOrigin(h: seq<Entry>) { exists i :: 0 <= i < |h| && Origin(h[i]) }

  /** A teardown kept up by failed or silent reports still goes back to one of those. */
  lemma {:induction false} TeardownHasOrigin(h: seq<Entry>, n: nat)
    requires n <= |h| && (forall i :: 0 <= i < |h| ==> ReadsBack(h, i)) && StateOf(h[..n]).Deleting?
    ensures HasOrigin(h)
    decreases n
  {
    assert n > 0 ==> h[..n][..n - 1] == h[..n - 1];
    var e := h[n - 1];
    if !WritesState(e) {
      TeardownHasOrigin(h, n - 1);
    } else if !Origin(e) {
      assert ReadsBack(h, n - 1);
      TeardownHasOrigin(h, e.readPos);
    }
  }

  /**
   The exact run.  On every run whatever, a row is stamped if and only if some report of its removal was
   read while it was tearing down; and a row stamped without a delete request was put into teardown by
   an agent's own "deleting" or by a direct status write.
   */
  lemma StampedIff(name: string, tier: string, spec: string, t0: Time, es: seq<Timed>)
    requires ValidRun(NewCell(name, tier, spec, t0), es)
    ensures var c := RunCell(NewCell(name, tier, spec, t0), es);
      && (!Live(c.row) <==> exists i :: FinishesTeardown(c.hist, i))
      && (!Live(c.row) && !DeleteWasRequested(c.hist) ==>
            exists i :: 0 <= i < |c.hist| && Origin(c.hist[i]) && !c.hist[i].DeleteRequested?)
  {
    StampInvHolds(name, tier, spec, t0, es);
    var c := RunCell(NewCell(name, tier, spec, t0), es);
    assert forall i :: 0 <= i < |c.hist| ==> (Stamps(c.hist[i]) <==> FinishesTeardown(c.hist, i)) by {
      forall i | 0 <= i < |c.hist|
        ensures Stamps(c.hist[i]) <==> FinishesTeardown(c.hist, i)
      {
        assert ReadsBack(c.hist, i);
      }
    }
    if !Live(c.row) {
      var i :| 0 <= i < |c.hist| && Stamps(c.hist[i]);
      assert FinishesTeardown(c.hist, i);
      TeardownHasOrigin(c.hist, c.hist[i].readPos);
      var k :| 0 <= k < |c.hist| && Origin(c.hist[k]);
    }
  }

  // ---- whether anybody still wants it ------------------------------------------------------------

  /** What an operator last asked for. */
  datatype Word = Silence | Keep | Remove

  /** The operator's last word from position `r` on: an update asks to keep the row, a delete to remove it. */
  function LastWord(h: seq<Entry>, r: nat): Word
    decreases |h|
  {
    if |h| <= r then Silence
    else
      match h[|h| - 1]
      case SpecSet(_) => Keep
      case DeleteRequested(_) => Remove
      case _ => LastWord(h[..|h| - 1], r)
  }

  lemma {:induction false} LastWordSplits(h: seq<Entry>, r: nat)
    requires r <= |h|
    ensures LastWord(h, 0) == if LastWord(h, r).Silence? then LastWord(h[..r], 0) else LastWord(h, r)
    decreases |h|
  {
    if r == |h| {
      assert h[..r] == h;
    } else if !h[|h| - 1].SpecSet? && !h[|h| - 1].DeleteRequested? {
      assert h[..|h| - 1][..r] == h[..r];
      LastWordSplits(h[..|h| - 1], r);
    }
  }

  lemma LastWordAfter(h: seq<Entry>, e: Entry)
    ensures LastWord(h + [e], 0) == if e.SpecSet? then Keep else if e.DeleteRequested? then Remove else LastWord(h, 0)
  {
    assert (h + [e])[..|h|] == h;
  }

  /** Nobody was ever handed any other spec. */
  predicate OnlyHanded(h: seq<Entry>, spec: string) {
    forall i :: 0 <= i < |h| && h[i].Delivered? ==> h[i].spec == spec
  }

  /** A row that is tearing down, or is stamped, was last asked to go. */
  predicate Wanted(c: Cell) { c.row.state.Deleting? || !Live(c.row) ==> LastWord(c.hist, 0).Remove? }

  /** Reports in flight that read a teardown read one that was wanted then. */
  predicate WantedWhenRead(c: Cell, p: InFlight) {
    && p.readPos <= |c.hist| && !p.report.state.Deleting?
    && (p.snapshot.state.Deleting? ==> LastWord(c.hist[..p.readPos], 0).Remove?)
  }

  predicate AllWantedWhenRead(c: Cell) { forall q :: q in c.pending ==> WantedWhenRead(c, c.pending[q]) }

  /** The report keeps up or finishes a teardown it read: it says "removed", says nothing, or failed with attempts to spare. */
  predicate Carries(p: InFlight) {
    && p.snapshot.state.Deleting?
    && (|| p.report.state.Removed? || p.report.state.Blank?
        || (p.report.state.Failed? && p.snapshot.attempts + 1 < EffectiveBudget(p.budget)))
  }

  /** A report about to carry a teardown over a spec update that nobody has since taken back. */
  predicate CarriesOver(c: Cell, e: CellEvent) {
    && e.WriteReport? && e.req in c.pending && Live(c.row)
    && Carries(c.pending[e.req]) && LastWord(c.hist, c.pending[e.req].readPos).Keep?
  }

  /** What the row and its stamp become under one statement of the agents' and operators' own. */
  predicate Plain(e: CellEvent) { !e.SetStatus? && (e.ReadForReport? ==> !e.report.state.Deleting?) }

  lemma WriteWantedIff(c: Cell, t: Time, e: CellEvent)
    requires Wanted(c) && AllWantedWhenRead(c) && Enabled(c, t, e) && e.WriteReport?
    ensures Wanted(CellStep(c, t, e)) <==> !CarriesOver(c, e)
  {
    var p, c' := c.pending[e.req], CellStep(c, t, e);
    assert WantedWhenRead(c, p);
    LastWordSplits(c.hist, p.readPos);
    if Live(c.row) {
      LastWordAfter(c.hist, c'.hist[|c.hist|]);
      assert c'.hist == c.hist + [c'.hist[|c.hist|]];
      assert c'.row.state.Deleting? || !Live(c'.row) <==> Carries(p);
    }
  }

  lemma OtherKeepsWanted(c: Cell, t: Time, e: CellEvent)
    requires Wanted(c) && Enabled(c, t, e) && Plain(e) && !e.WriteReport?
    ensures Wanted(CellStep(c, t, e))
  {
    var c' := CellStep(c, t, e);
    if c'.hist != c.hist {
      LastWordAfter(c.hist, c'.hist[|c.hist|]);
      assert c'.hist == c.hist + [c'.hist[|c.hist|]];
    }
  }

  lemma ReadsStayWanted(c: Cell, t: Time, e: CellEvent)
    requires Wanted(c) && AllWantedWhenRead(c) && Plain(e)
    ensures AllWantedWhenRead(CellStep(c, t, e))
  {
    var c' := CellStep(c, t, e);
    HistGrows(c, t, e);
    forall q | q in c'.pending
      ensures WantedWhenRead(c', c'.pending[q])
    {
      var r := c'.pending[q].readPos;
      assert q in c.pending && c'.pending[q] == c.pending[q] ==> WantedWhenRead(c, c.pending[q]);
      assert c.hist[..|c.hist|] == c.hist;
      assert c'.hist[..r] == c.hist[..r];
    }
  }

  predicate AlwaysWanted(c: Cell, es: seq<Timed>)
    decreases |es|
  {
    Wanted(RunCell(c, es)) && (es == [] || AlwaysWanted(c, es[..|es| - 1]))
  }

  predicate NeverCarriesOver(c: Cell, es: seq<Timed>)
    decreases |es|
  {
    es == [] ||
    (var n := |es| - 1;
     NeverCarriesOver(c, es[..n]) && !CarriesOver(RunCell(c, es[..n]), es[n].e))
  }

  /**
   Operator intent, exactly.  With agents that keep to their vocabulary and no direct status writes, a
   row is tearing down or stamped only while the operator's last word on it is the delete, throughout a
   run, if and only if no report that read a teardown carries it over a later spec update, be it the
   removal itself or an earlier failed or silent one.
   */
  lemma {:induction false} TeardownWantedIff(name: string, tier: string, spec: string, t0: Time, es: seq<Timed>)
    requires ValidRun(NewCell(name, tier, spec, t0), es) && AgentVocabulary(es) && NoStatusWrites(es)
    ensures AlwaysWanted(NewCell(name, tier, spec, t0), es) <==> NeverCarriesOver(NewCell(name, tier, spec, t0), es)
    ensures AlwaysWanted(NewCell(name, tier, spec, t0), es) ==> AllWantedWhenRead(RunCell(NewCell(name, tier, spec, t0), es))
    decreases |es|
  {
    var c := NewCell(name, tier, spec, t0);
    if es != [] {
      var n := |es| - 1;
      TeardownWantedIff(name, tier, spec, t0, es[..n]);
      if AlwaysWanted(c, es[..n]) {
        var d := RunCell(c, es[..n]);
        assert Plain(es[n].e);
        ReadsStayWanted(d, es[n].t, es[n].e);
        if es[n].e.WriteReport? {
          WriteWantedIff(d, es[n].t, es[n].e);
        } else {
          OtherKeepsWanted(d, es[n].t, es[n].e);
        }
      }
    }
  }

  /**
   The removal itself: the operator revives the row with a new spec between a removal report's read and
   its write, and the write stamps it.
   */
  lemma StaleRemovalStamps() returns (c: Cell, es: seq<Timed>)
    ensures c == NewCell("db", "", "v1", 0) && ValidRun(c, es) && AgentVocabulary(es) && NoStatusWrites(es) && |es| == 5
    ensures var d := RunCell(c, es[..4]).row; Live(d) && d.state.Pending? && d.spec == "v2" && d.observed < d.generation
    ensures !Live(RunCell(c, es).row)
  {
    var revived := RevivedInFlight(Report(Removed, None, 1));
    c := NewCell("db", "", "v1", 0);
    var e4 := At(5, WriteReport(0, 5));
    RunExtends(c, revived, e4);
    es := revived + [e4];
    assert es[..4] == revived;
  }

  /** The first four events: a report was read in the teardown, and the row has been given a new spec since. */
  lemma RevivedInFlight(report: Report) returns (es: seq<Timed>)
    requires !report.state.Deleting?
    ensures |es| == 4 && AgentVocabulary(es) && NoStatusWrites(es) && ValidRun(NewCell("db", "", "v1", 0), es)
    ensures es[3].e == SetSpec("v2", "")
    ensures var d := RunCell(NewCell("db", "", "v1", 0), es);
      && Live(d.row) && d.row.state.Pending? && d.row.spec == "v2" && d.row.observed < d.row.generation && d.row.agent == Some(7)
      && d.pending.Keys == {0} && d.pending[0].readAt == 3 && d.pending[0].report == report && d.pending[0].budget == 10
      && d.pending[0].snapshot.state.Deleting? && d.pending[0].snapshot.attempts == 0
      && LastWord(d.hist, 0).Keep? && OnlyHanded(d.hist, "v1")
  {
    var c := NewCell("db", "", "v1", 0);
    var e0 := At(1, Deliver(7, 0));
    var e1 := At(2, MarkDeleting);
    var e2 := At(3, ReadForReport(0, 7, report, 10));
    var e3 := At(4, SetSpec("v2", ""));
    var c1 := CellStep(c, e0.t, e0.e);
    var c2 := CellStep(c1, e1.t, e1.e);
    var c3 := CellStep(c2, e2.t, e2.e);
    RunReaches(c, [], c, e0);
    RunReaches(c, [] + [e0], c1, e1);
    RunReaches(c, [] + [e0] + [e1], c2, e2);
    RunReaches(c, [] + [e0] + [e1] + [e2], c3, e3);
    es := [] + [e0] + [e1] + [e2] + [e3];
  }

  /**
   An earlier one: a failed report read in the teardown is written after the operator revives the row,
   puts "deleting" back, and the agent then removes it, with the update never handed to anyone.
   */
  lemma StaleFailureRevivesTeardown() returns (c: Cell, es: seq<Timed>)
    ensures c == NewCell("db", "", "v1", 0) && ValidRun(c, es) && AgentVocabulary(es) && NoStatusWrites(es) && |es| == 7
    ensures es[3].e == SetSpec("v2", "") && RunCell(c, es[..6]).row.state.Deleting?
    ensures var d := RunCell(c, es);
      && !Live(d.row) && d.row.spec == "v2" && LastWord(d.hist, 0).Keep?
      && OnlyHanded(d.hist, "v1")
  {
    c := NewCell("db", "", "v1", 0);
    var back := TeardownPutBack();
    var d := RunCell(c, back);
    var e5 := At(6, ReadForReport(1, 7, Report(Removed, None, 1), 10));
    var e6 := At(7, WriteReport(1, 7));
    var d' := RemovalStamps(d, e5, e6);
    RunReaches(c, back, d, e5);
    var reading := back + [e5];
    RunReaches(c, reading, d', e6);
    es := reading + [e6];
    assert es[..6] == reading;
    PlainExtends(back, e5);
    PlainExtends(reading, e6);
  }

  lemma PlainExtends(es: seq<Timed>, x: Timed)
    requires AgentVocabulary(es) && NoStatusWrites(es) && Plain(x.e)
    ensures AgentVocabulary(es + [x]) && NoStatusWrites(es + [x])
  {
  }

  /** A removal read and written in one go stamps a row that is tearing down. */
  lemma RemovalStamps(d: Cell, e5: Timed, e6: Timed) returns (d': Cell)
    requires Live(d.row) && d.row.state.Deleting? && d.row.agent == Some(7) && d.pending == map[]
    requires e5 == At(6, ReadForReport(1, 7, Report(Removed, None, 1), 10)) && e6 == At(7, WriteReport(1, 7))
    ensures d' == CellStep(d, e5.t, e5.e) && Enabled(d, e5.t, e5.e) && Enabled(d', e6.t, e6.e) && d'.row.state.Deleting?
    ensures var d2 := CellStep(d', e6.t, e6.e);
      && !Live(d2.row) && d2.row.spec == d.row.spec && LastWord(d2.hist, 0) == LastWord(d.hist, 0)
      && (OnlyHanded(d.hist, "v1") ==> OnlyHanded(d2.hist, "v1"))
  {
    d' := CellStep(d, e5.t, e5.e);
    var d2 := CellStep(d', e6.t, e6.e);
    LastWordAfter(d.hist, d2.hist[|d.hist|]);
    assert d2.hist == d.hist + [d2.hist[|d.hist|]];
  }

  lemma TeardownPutBack() returns (es: seq<Timed>)
    ensures |es| == 5 && AgentVocabulary(es) && NoStatusWrites(es) && ValidRun(NewCell("db", "", "v1", 0), es)
    ensures es[3].e == SetSpec("v2", "")
    ensures var d := RunCell(NewCell("db", "", "v1", 0), es);
      && Live(d.row) && d.row.state.Deleting? && d.row.spec == "v2" && d.row.agent == Some(7) && d.pending == map[]
      && LastWord(d.hist, 0).Keep? && OnlyHanded(d.hist, "v1")
  {
    var c := NewCell("db", "", "v1", 0);
    var revived := RevivedInFlight(Report(Failed, None, 1));
    var d := RunCell(c, revived);
    var e4 := At(5, WriteReport(0, 5));
    RunReaches(c, revived, d, e4);
    es := revived + [e4];
    var d' := CellStep(d, e4.t, e4.e);
    LastWordAfter(d.hist, d'.hist[|d.hist|]);
    assert d'.hist == d.hist + [d'.hist[|d.hist|]];
  }

  /** A stamped row is the same after any run whatever. */
  lemma {:induction false} StampedForever(c: Cell, es: seq<Timed>)
    requires ValidRun(c, es) && !Live(c.row)
    ensures RunCell(c, es).row == c.row && RunCell(c, es).hist == c.hist
    decreases |es|
  {
    if es != [] {
      var n := |es| - 1;
      StampedForever(c, es[..n]);
      StampedRowIsFrozen(RunCell(c, es[..n]), es[n].t, es[n].e);
    }
  }

  /** The statements the supervisor issues. */
  predicate SupervisorEvent(e: CellEvent) { e.Redispatch? || e.FlagUnreachable? }

  // ---- host-unreachable episodes -----------------------------------------------------------------

  /** The writes that left a status document without the flag. */
  predicate ReplacesStatus(e: Entry) {
    (e.Applied? && !e.params.status.hostUnreachable) || (e.StatusSet? && !e.status.hostUnreachable)
  }

  predicate ReplacedBetween(h: seq<Entry>, lo: int, hi: int) {
    exists k :: 0 <= lo < k < hi <= |h| && ReplacesStatus(h[k])
  }

  predicate OncePerEpisode(h: seq<Entry>) {
    forall i, j :: 0 <= i < j < |h| && h[i].Flagged? && h[j].Flagged? ==> ReplacedBetween(h, i, j)
  }

  predicate FlagInv(c: Cell) {
    && OncePerEpisode(c.hist)
    && (forall i :: 0 <= i < |c.hist| && c.hist[i].Flagged? && !ReplacedBetween(c.hist, i, |c.hist|)
          ==> c.row.status.hostUnreachable)
  }

  lemma ReplacementPersists(h: seq<Entry>, h': seq<Entry>, lo: int, hi: int)
    requires h <= h' && ReplacedBetween(h, lo, hi)
    ensures ReplacedBetween(h', lo, hi) && ReplacedBetween(h', lo, |h'|)
  {
    var k :| 0 <= lo < k < hi <= |h| && ReplacesStatus(h[k]);
    assert h'[k] == h[k];
  }

  lemma StepKeepsFlagInv(c: Cell, t: Time, e: CellEvent)
    requires FlagInv(c) && Enabled(c, t, e)
    ensures FlagInv(CellStep(c, t, e))
  {
    var h, c' := c.hist, CellStep(c, t, e);
    var h' := c'.hist;
    HistGrows(c, t, e);
    forall i, j | 0 <= i < j < |h'| && h'[i].Flagged? && h'[j].Flagged?
      ensures ReplacedBetween(h', i, j)
    {
      assert h'[i] == h[i];
      if j < |h| {
        assert h'[j] == h[j];
        ReplacementPersists(h, h', i, j);
      } else {
        assert ReplacedBetween(h, i, |h|);
        ReplacementPersists(h, h', i, |h|);
      }
    }
    forall i | 0 <= i < |h'| && h'[i].Flagged? && !ReplacedBetween(h', i, |h'|)
      ensures c'.row.status.hostUnreachable
    {
      if i < |h| {
        assert h'[i] == h[i];
        if ReplacedBetween(h, i, |h|) {
          ReplacementPersists(h, h', i, |h|);
        }
        assert |h'| == |h| || !ReplacesStatus(h'[|h|]);
      }
    }
  }

  /** Between two host-unreachable records for one row something replaced its status document by one without the flag. */
  lemma {:induction false} FlaggedOncePerEpisode(name: string, tier: string, spec: string, t0: Time, es: seq<Timed>)
    requires ValidRun(NewCell(name, tier, spec, t0), es)
    ensures FlagInv(RunCell(NewCell(name, tier, spec, t0), es))
    decreases |es|
  {
    if es != [] {
      var n := |es| - 1;
      FlaggedOncePerEpisode(name, tier, spec, t0, es[..n]);
      StepKeepsFlagInv(RunCell(NewCell(name, tier, spec, t0), es[..n]), es[n].t, es[n].e);
    }
  }
}
