/**
 What a re-arm is owed.  A spec update or a re-dispatch puts a row back into the feed; it stays there
 until it is handed out exactly as long as no report parks or stamps it first.
 */
module Feed {
  import opened Basics
  import opened Rows
  import opened Convergence
  import Retries

  /** Out of sync, not parked, not stamped: the feed holds the row, now or once lease and backoff run out. */
  predicate Owed(r: Row) { Live(r) && !r.state.Failed? && r.observed < r.generation }

  /** Why a row is in the feed at all: it is out of sync, being torn down, or retrying. */
  datatype Reason = OutOfSync | TearingDown | Retrying

  predicate Calls(r: Row, why: Reason) {
    match why
    case OutOfSync => r.observed < r.generation
    case TearingDown => r.state == Deleting
    case Retrying => r.state == Error
  }

  /**
   An agent may claim a row if and only if something calls for it, it is neither parked nor stamped, it
   is the agent's or nobody's, and its lease and its backoff have run out.
   */
  lemma FedIff(r: Row, a: AgentId, t: Time)
    ensures Claimable(r, a, t) <==>
      && (exists why :: Calls(r, why)) && r.state != Failed && r.deletedAt == None
      && (r.agent == Some(a) || r.agent == None)
      && (r.leasedUntil == None || r.leasedUntil.value < t) && (r.nextAttemptAt == None || r.nextAttemptAt.value <= t)
  {
    assert Calls(r, OutOfSync) <==> r.observed < r.generation;
    assert Calls(r, TearingDown) <==> r.state == Deleting;
    assert Calls(r, Retrying) <==> r.state == Error;
  }

  /** A new row is owed from the start, and anybody may claim it at once. */
  lemma NewIsOwed(name: string, tier: string, spec: string, t0: Time, a: AgentId, t: Time)
    ensures var c := NewCell(name, tier, spec, t0);
      Owed(c.row) && NotYetHanded(c) && ConvergenceInv(c) && Claimable(c.row, a, t) && c.row.spec == spec
  {
  }

  lemma OwedIsFed(r: Row, a: AgentId, t: Time)
    requires Owed(r) && (r.agent == Some(a) || r.agent.None?)
    requires (r.leasedUntil.Some? ==> r.leasedUntil.value < t) && (r.nextAttemptAt.Some? ==> r.nextAttemptAt.value <= t)
    ensures Claimable(r, a, t)
  {
  }

  /** The row's revision has not been handed to anyone yet. */
  predicate NotYetHanded(c: Cell) { forall i :: 0 <= i < |c.hist| && c.hist[i].Delivered? ==> c.hist[i].gen < c.row.generation }

  predicate ReArms(c: Cell, e: CellEvent) { Live(c.row) && (e.SetSpec? || (e.Redispatch? && Redispatchable(c.row))) }

  lemma ReArmOwes(c: Cell, t: Time, e: CellEvent)
    requires ConvergenceInv(c) && ReArms(c, e)
    ensures var c' := CellStep(c, t, e);
      && Owed(c'.row) && NotYetHanded(c')
      && c'.row.attempts == 0 && c'.row.nextAttemptAt == None && c'.row.state == Pending && c'.row.agent == c.row.agent
      && (e.SetSpec? ==> c'.row.spec == e.spec && c'.row.tier == e.tier && c'.row.leasedUntil == c.row.leasedUntil)
      && (e.Redispatch? ==> c'.row.spec == c.row.spec && c'.row.leasedUntil == None)
  {
  }

  /** A write that takes the row out of the feed: it parks it, by failing or by saying nothing of a parked row, or stamps it. */
  predicate Drops(c: Cell, e: CellEvent) {
    && Live(c.row)
    && (|| (e.SetStatus? && e.state.Failed?)
        || (&& e.WriteReport? && e.req in c.pending
            && (|| !Retries.LeavesUnparked(c.pending[e.req])
                || (c.pending[e.req].report.state.Removed? && c.pending[e.req].snapshot.state.Deleting?))))
  }

  lemma OwedStepIff(c: Cell, t: Time, e: CellEvent)
    requires ConvergenceInv(c) && Owed(c.row) && NotYetHanded(c) && Enabled(c, t, e) && HonestEvent(c, e) && !e.Deliver?
    ensures Owed(CellStep(c, t, e).row) <==> !Drops(c, e)
    ensures NotYetHanded(CellStep(c, t, e))
  {
    if e.WriteReport? {
      var p := c.pending[e.req];
      assert p.snapshot.generation <= c.row.generation;
      assert !p.report.state.Failed? && p.report.observed > 0 ==> WasHanded(c.hist, p.agent, p.report.observed);
    }
  }

  predicate NoDeliveries(es: seq<Timed>) { forall i :: 0 <= i < |es| ==> !es[i].e.Deliver? }

  predicate AlwaysOwed(c: Cell, es: seq<Timed>)
    decreases |es|
  {
    Owed(RunCell(c, es).row) && (es == [] || AlwaysOwed(c, es[..|es| - 1]))
  }

  predicate NeverDrops(c: Cell, es: seq<Timed>)
    decreases |es|
  {
    es == [] ||
    (var n := |es| - 1;
     NeverDrops(c, es[..n]) && !Drops(RunCell(c, es[..n]), es[n].e))
  }

  lemma {:induction false} OwedIff(c: Cell, es: seq<Timed>)
    requires ConvergenceInv(c) && Owed(c.row) && NotYetHanded(c) && ValidRun(c, es) && HonestRun(c, es) && NoDeliveries(es)
    ensures AlwaysOwed(c, es) <==> NeverDrops(c, es)
    ensures AlwaysOwed(c, es) ==> ConvergenceInv(RunCell(c, es)) && NotYetHanded(RunCell(c, es))
    decreases |es|
  {
    if es != [] {
      var n := |es| - 1;
      OwedIff(c, es[..n]);
      if AlwaysOwed(c, es[..n]) {
        OwedStepIff(RunCell(c, es[..n]), es[n].t, es[n].e);
        StepKeepsConvergence(RunCell(c, es[..n]), es[n].t, es[n].e);
      }
    }
  }

  /**
   From any row reached by honest claims, a spec update or a re-dispatch keeps the row in the feed until
   it is delivered, deletes and further updates included, if and only if no write parks or stamps it:
   no report that failed at its budget, none silent of a row it read parked, no removal of a teardown it
   read, and no direct write of "failed".
   */
  lemma ReArmedUntilDelivered(name: string, tier: string, spec: string, t0: Time, past: seq<Timed>, x: Timed, es: seq<Timed>)
    requires var c := NewCell(name, tier, spec, t0);
      && ValidRun(c, past) && HonestRun(c, past) && ReArms(RunCell(c, past), x.e)
      && var d := CellStep(RunCell(c, past), x.t, x.e); ValidRun(d, es) && HonestRun(d, es) && NoDeliveries(es)
    ensures var d := CellStep(RunCell(NewCell(name, tier, spec, t0), past), x.t, x.e);
      AlwaysOwed(d, es) <==> NeverDrops(d, es)
  {
    ConvergenceHolds(name, tier, spec, t0, past);
    var c := RunCell(NewCell(name, tier, spec, t0), past);
    ReArmOwes(c, x.t, x.e);
    StepKeepsConvergence(c, x.t, x.e);
    OwedIff(CellStep(c, x.t, x.e), es);
  }

  // ---- what a report settles ---------------------------------------------------------------------

  /**
   A "running" report takes: the row is running, observed at what the report claims or later, with its
   whole budget again and no lease or backoff.  If it answers for the row's own revision, nobody is handed
   the row until it is re-armed, deleted or reported on again.
   */
  lemma {:induction false} RunningSettles(c: Cell, x: Timed, es: seq<Timed>)
    requires Enabled(c, x.t, x.e) && x.e.WriteReport? && Live(c.row) && c.pending[x.e.req].report.state == Running
    requires var d := CellStep(c, x.t, x.e); ValidRun(d, es) && forall i :: 0 <= i < |es| ==> Leaves(es[i].e)
    ensures var report, d := c.pending[x.e.req].report, CellStep(c, x.t, x.e);
      && d.row.state == Running && d.row.attempts == 0 && d.row.nextAttemptAt == None && d.row.leasedUntil == None
      && d.row.observed >= report.observed && d.row.observed >= c.row.observed
      && (report.observed >= c.row.generation ==> NoDeliveries(es) && Settled(RunCell(d, es).row))
    decreases |es|
  {
    if es != [] {
      var n := |es| - 1;
      RunningSettles(c, x, es[..n]);
    }
  }

  /** Running and in sync: nothing calls for the row. */
  predicate Settled(r: Row) { Live(r) && r.state == Running && r.observed >= r.generation }

  /** The statements that are neither a re-arm, a delete, a report's write nor a direct status write. */
  predicate Leaves(e: CellEvent) { e.Deliver? || e.ReadForReport? || e.FlagUnreachable? }

  /**
   What a written report leaves: the state it names, or the one it read when it names none; progress
   that never goes back and covers what it claims; the retry state it read unless it settles or fails;
   and the deletion stamp, with the teardown's revision answered, exactly when it ends a teardown.
   */
  lemma ReportIsTaken(c: Cell, t: Time, e: CellEvent)
    requires Enabled(c, t, e) && e.WriteReport? && Live(c.row)
    ensures var report, read, r := c.pending[e.req].report, c.pending[e.req].snapshot, CellStep(c, t, e).row;
      var ends := report.state.Removed? && read.state.Deleting?;
      && (!report.state.Failed? && !report.state.Blank? ==> r.state == report.state)
      && (report.state.Blank? ==> r.state == read.state)
      && r.observed >= c.row.observed && (!report.state.Failed? && !ends ==> r.observed >= report.observed)
      && (!report.state.Running? && !report.state.Failed? ==> r.attempts == read.attempts && r.nextAttemptAt == read.nextAttemptAt)
      && (ends ==> r.observed >= read.generation) && r.deletedAt == (if ends then Some(t) else None)
      && r.spec == c.row.spec && r.generation == c.row.generation && r.agent == c.row.agent
  {
  }

  /** With a budget of one, a failure of the old spec, read before an update and written after, parks the new one undelivered. */
  lemma OldFailureParksUpdate() returns (es: seq<Timed>)
    ensures var c := NewCell("db", "", "v1", 0);
      && |es| == 4 && ValidRun(c, es) && HonestRun(c, es) && es[2].e == SetSpec("v2", "")
      && var d := RunCell(c, es);
      && Live(d.row) && d.row.state.Failed? && d.row.spec == "v2" && NotYetHanded(d)
      && (forall a, t :: !Claimable(d.row, a, t))
  {
    var c := NewCell("db", "", "v1", 0);
    var e0 := At(1, Deliver(7, 0));
    var e1 := At(2, ReadForReport(0, 7, Report(Failed, None, 1), 1));
    var e2 := At(3, SetSpec("v2", ""));
    var e3 := At(4, WriteReport(0, 4));
    var c1 := CellStep(c, e0.t, e0.e);
    var c2 := CellStep(c1, e1.t, e1.e);
    var c3 := CellStep(c2, e2.t, e2.e);
    RunReaches(c, [], c, e0);
    RunReaches(c, [] + [e0], c1, e1);
    RunReaches(c, [] + [e0] + [e1], c2, e2);
    RunReaches(c, [] + [e0] + [e1] + [e2], c3, e3);
    es := [] + [e0] + [e1] + [e2] + [e3];
    HonestExtends(c, [], e0);
    HonestExtends(c, [] + [e0], e1);
    HonestExtends(c, [] + [e0] + [e1], e2);
    HonestExtends(c, [] + [e0] + [e1] + [e2], e3);
  }

  lemma HonestExtends(c: Cell, es: seq<Timed>, x: Timed)
    requires HonestRun(c, es) && HonestEvent(RunCell(c, es), x.e)
    ensures HonestRun(c, es + [x])
  {
    assert (es + [x])[..|es|] == es;
  }
}
