/**
 Convergence means what it says.  Generations only move forward, an agent that answers for the
 generations it was handed never gets ahead of the spec, and a live row counts as converged only when
 its owner was handed the current spec and then answered for it without failing.
 */
module Convergence {
  import opened Basics
  import opened Rows
  import opened Leases

  predicate WasHanded(h: seq<Entry>, a: AgentId, gen: int) {
    exists i :: 0 <= i < |h| && h[i].Delivered? && h[i].agent == a && h[i].gen == gen
  }

  /**
   The contract: a report that can advance convergence names a generation the agent was handed, and a
   direct status write claims nothing that was not answered for.
   */
  predicate HonestEvent(c: Cell, e: CellEvent) {
    && ((e.ReadForReport? && !e.report.state.Failed? && e.report.observed > 0) ==>
          WasHanded(c.hist, e.agent, e.report.observed))
    && (e.SetStatus? && Live(c.row) ==> Answered(c, e.observed))
  }

  predicate Answered(c: Cell, observed: int) {
    0 <= observed <= c.row.generation && (observed > 0 ==> HandedThenAnswered(c, observed))
  }

  predicate HonestRun(c: Cell, es: seq<Timed>)
    decreases |es|
  {
    es == [] ||
    (var n := |es| - 1;
     HonestRun(c, es[..n]) && HonestEvent(RunCell(c, es[..n]), es[n].e))
  }

  /** Entry `j` answers for generation `gen` without failing and without finishing a teardown. */
  predicate Answers(e: Entry, gen: int) {
    e.Applied? && !e.report.state.Failed? && !e.params.finalize && e.report.observed == gen
  }

  /** Some delivery of `gen` to the owner is followed by the owner's answer for it. */
  predicate HandedThenAnswered(c: Cell, gen: int) {
    exists i, j :: 0 <= i < j < |c.hist|
      && c.hist[i].Delivered? && c.hist[i].gen == gen && c.row.agent == Some(c.hist[i].agent)
      && Answers(c.hist[j], gen) && c.hist[j].agent == c.hist[i].agent
  }

  /** No delivery is of a later revision than the row's, and one of the row's revision carried its spec. */
  predicate DeliveriesCurrent(c: Cell) {
    forall i :: 0 <= i < |c.hist| && c.hist[i].Delivered?
      ==> 1 <= c.hist[i].gen <= c.row.generation
          && (c.hist[i].gen == c.row.generation ==> c.hist[i].spec == c.row.spec)
  }

  predicate PendingHonest(c: Cell) {
    forall q :: q in c.pending ==>
      var p := c.pending[q];
      && p.snapshot.generation <= c.row.generation
      && (!p.report.state.Failed? && p.report.observed > 0 ==> WasHanded(c.hist, p.agent, p.report.observed))
  }

  predicate ConvergenceInv(c: Cell) {
    && OneOwner(c)
    && DeliveriesCurrent(c)
    && PendingHonest(c)
    && 0 <= c.row.observed <= c.row.generation
    && 1 <= c.row.generation
    && (Live(c.row) && c.row.observed > 0 ==> HandedThenAnswered(c, c.row.observed))
  }

  lemma HandedGrows(h: seq<Entry>, h': seq<Entry>, a: AgentId, gen: int)
    requires h <= h' && WasHanded(h, a, gen)
    ensures WasHanded(h', a, gen)
  {
    var i :| 0 <= i < |h| && h[i].Delivered? && h[i].agent == a && h[i].gen == gen;
    assert h'[i] == h[i];
  }

  lemma AnsweredGrows(c: Cell, c': Cell, gen: int)
    requires c.hist <= c'.hist && HandedThenAnswered(c, gen)
    requires c'.row.agent == c.row.agent
    ensures HandedThenAnswered(c', gen)
  {
    var i, j :| 0 <= i < j < |c.hist|
      && c.hist[i].Delivered? && c.hist[i].gen == gen && c.row.agent == Some(c.hist[i].agent)
      && Answers(c.hist[j], gen) && c.hist[j].agent == c.hist[i].agent;
    assert c'.hist[i] == c.hist[i] && c'.hist[j] == c.hist[j];
  }

  lemma PendingStaysHonest(c: Cell, t: Time, e: CellEvent)
    requires ConvergenceInv(c) && Enabled(c, t, e) && (e.ReadForReport? ==> HonestEvent(c, e))
    ensures PendingHonest(CellStep(c, t, e))
  {
    var c' := CellStep(c, t, e);
    HistGrows(c, t, e);
    forall q | q in c'.pending
      ensures var p := c'.pending[q];
        && p.snapshot.generation <= c'.row.generation
        && (!p.report.state.Failed? && p.report.observed > 0 ==> WasHanded(c'.hist, p.agent, p.report.observed))
    {
      var p := c'.pending[q];
      if !p.report.state.Failed? && p.report.observed > 0 {
        HandedGrows(c.hist, c'.hist, p.agent, p.report.observed);
      }
    }
  }

  /** A write that moves `observed` forward on a live row is an answer to a recorded delivery. */
  lemma WriteAnswers(c: Cell, t: Time, e: CellEvent)
    requires ConvergenceInv(c) && Enabled(c, t, e) && e.WriteReport?
    ensures var c' := CellStep(c, t, e);
      && c.row.observed <= c'.row.observed <= c'.row.generation
      && (Live(c'.row) && c'.row.observed > 0 ==> HandedThenAnswered(c', c'.row.observed))
  {
    var p := c.pending[e.req];
    var c' := CellStep(c, t, e);
    if Live(c.row) {
      var params := ParamsFor(p.snapshot, p.report, p.budget, e.clock);
      if params.observed > c.row.observed && !params.finalize {
        assert !p.report.state.Failed? && params.observed == p.report.observed;
        var i :| 0 <= i < |c.hist| && c.hist[i].Delivered? && c.hist[i].agent == p.agent
          && c.hist[i].gen == p.report.observed;
        var j := |c.hist|;
        assert c'.hist[i] == c.hist[i];
        assert Answers(c'.hist[j], p.report.observed);
      } else if Live(c'.row) && c.row.observed > 0 {
        AnsweredGrows(c, c', c.row.observed);
      }
    }
  }

  lemma StepKeepsConvergence(c: Cell, t: Time, e: CellEvent)
    requires ConvergenceInv(c) && Enabled(c, t, e) && HonestEvent(c, e)
    ensures ConvergenceInv(CellStep(c, t, e))
  {
    if e.SetStatus? {
      if Live(c.row) {
        StatusWriteKeepsIff(c, t, e.status, e.state, e.observed);
      }
    } else {
      OtherStepKeepsConvergence(c, t, e);
    }
  }

  lemma OtherStepKeepsConvergence(c: Cell, t: Time, e: CellEvent)
    requires ConvergenceInv(c) && Enabled(c, t, e) && HonestEvent(c, e) && !e.SetStatus?
    ensures ConvergenceInv(CellStep(c, t, e))
  {
    var c' := CellStep(c, t, e);
    PendingStaysHonest(c, t, e);
    StepKeepsOneOwner(c, t, e);
    DeliveriesStayCurrent(c, t, e);
    HistGrows(c, t, e);
    if e.WriteReport? {
      WriteAnswers(c, t, e);
    } else {
      ProgressStands(c, t, e);
      if Live(c'.row) && c'.row.observed > 0 {
        AnsweredGrows(c, c', c.row.observed);
      }
    }
  }

  lemma DeliveriesStayCurrent(c: Cell, t: Time, e: CellEvent)
    requires DeliveriesCurrent(c) && 1 <= c.row.generation
    ensures DeliveriesCurrent(CellStep(c, t, e))
  {
  }

  /** No other statement touches `observed`, lowers the generation or unbinds an owner who answered. */
  lemma ProgressStands(c: Cell, t: Time, e: CellEvent)
    requires ConvergenceInv(c) && Enabled(c, t, e) && !e.SetStatus? && !e.WriteReport?
    ensures var c' := CellStep(c, t, e);
      && c'.row.observed == c.row.observed && c'.row.generation >= c.row.generation
      && (Live(c'.row) ==> Live(c.row)) && (c.row.agent.Some? ==> c'.row.agent == c.row.agent)
  {
  }

  lemma {:induction false} ConvergenceHolds(name: string, tier: string, spec: string, t0: Time, es: seq<Timed>)
    requires var c := NewCell(name, tier, spec, t0); ValidRun(c, es) && HonestRun(c, es)
    ensures ConvergenceInv(RunCell(NewCell(name, tier, spec, t0), es))
    decreases |es|
  {
    if es != [] {
      var n := |es| - 1;
      ConvergenceHolds(name, tier, spec, t0, es[..n]);
      StepKeepsConvergence(RunCell(NewCell(name, tier, spec, t0), es[..n]), es[n].t, es[n].e);
    }
  }

  /** What the operator last asked for: the spec and tier of the last update that found the row live, else the first ones. */
  function Ordered(c: Cell, es: seq<Timed>): (string, string)
    decreases |es|
  {
    if es == [] then (c.row.spec, c.row.tier)
    else
      var n := |es| - 1;
      match es[n].e
      case SetSpec(spec, tier) => if Live(RunCell(c, es[..n]).row) then (spec, tier) else Ordered(c, es[..n])
      case _ => Ordered(c, es[..n])
  }

  /** In every run the row carries what the operator last asked for. */
  lemma {:induction false} RowIsAsOrdered(c: Cell, es: seq<Timed>)
    ensures (RunCell(c, es).row.spec, RunCell(c, es).row.tier) == Ordered(c, es)
    decreases |es|
  {
    if es != [] {
      RowIsAsOrdered(c, es[..|es| - 1]);
    }
  }

  /** How many events of the run re-arm the row: an update that finds it live, a re-dispatch that finds it not being torn down either. */
  function ReArms(c: Cell, es: seq<Timed>): nat
    decreases |es|
  {
    if es == [] then 0
    else
      var n := |es| - 1;
      var r := RunCell(c, es[..n]).row;
      ReArms(c, es[..n]) +
      (if Live(r) && (es[n].e.SetSpec? || (es[n].e.Redispatch? && r.state != Deleting)) then 1 else 0)
  }

  /** The generation counts exactly the re-arms: nothing else asks an agent to do a row's work again. */
  lemma {:induction false} GenerationCountsReArms(c: Cell, es: seq<Timed>)
    ensures RunCell(c, es).row.generation == c.row.generation + ReArms(c, es)
    decreases |es|
  {
    if es != [] {
      GenerationCountsReArms(c, es[..|es| - 1]);
    }
  }

  /** The owner was handed exactly this spec at the row's own revision, and later answered for it. */
  predicate SpecAnswered(c: Cell, spec: string) {
    exists i, j :: 0 <= i < j < |c.hist|
      && c.hist[i].Delivered? && c.hist[i].gen == c.row.generation && c.hist[i].spec == spec
      && c.row.agent == Some(c.hist[i].agent)
      && Answers(c.hist[j], c.row.generation) && c.hist[j].agent == c.hist[i].agent
  }

  /** The no-lost-update theorem: converged means the owner was handed, and answered for, what the operator last asked for. */
  lemma NoLostSpecUpdate(name: string, tier: string, spec: string, t0: Time, es: seq<Timed>)
    requires var c := NewCell(name, tier, spec, t0); ValidRun(c, es) && HonestRun(c, es)
    ensures var c := RunCell(NewCell(name, tier, spec, t0), es);
      && c.row.observed <= c.row.generation
      && (Live(c.row) && c.row.observed == c.row.generation ==> SpecAnswered(c, Ordered(NewCell(name, tier, spec, t0), es).0))
  {
    ConvergenceHolds(name, tier, spec, t0, es);
    RowIsAsOrdered(NewCell(name, tier, spec, t0), es);
    var c := RunCell(NewCell(name, tier, spec, t0), es);
    if Live(c.row) && c.row.observed == c.row.generation {
      var i, j :| 0 <= i < j < |c.hist|
        && c.hist[i].Delivered? && c.hist[i].gen == c.row.generation && c.row.agent == Some(c.hist[i].agent)
        && Answers(c.hist[j], c.row.generation) && c.hist[j].agent == c.hist[i].agent;
      assert c.hist[i].spec == c.row.spec;
    }
  }

  /**
   The bound is exactly as strong as the agents' honesty: a report write keeps the row from running
   ahead of its spec if and only if the generation it carries is not beyond the row's.
   */
  lemma WriteKeepsBoundIff(r: Row, t: Time, p: ReportParams)
    requires r.observed <= r.generation
    ensures ApplyParams(r, t, p).observed <= ApplyParams(r, t, p).generation <==> p.observed <= r.generation
  {
  }

  /**
   The unguarded status write keeps the invariant exactly when the generation it claims is one the
   row's owner was handed and answered for.
   */
  lemma StatusWriteKeepsIff(c: Cell, t: Time, status: Status, state: State, observed: int)
    requires ConvergenceInv(c) && Live(c.row)
    ensures ConvergenceInv(CellStep(c, t, SetStatus(status, state, observed))) <==> Answered(c, observed)
  {
    var c' := CellStep(c, t, SetStatus(status, state, observed));
    assert c'.hist[..|c.hist|] == c.hist;
    if 0 < observed && HandedThenAnswered(c, observed) {
      AnsweredGrows(c, c', observed);
    }
    if 0 < observed && HandedThenAnswered(c', observed) {
      var i, j :| 0 <= i < j < |c'.hist|
        && c'.hist[i].Delivered? && c'.hist[i].gen == observed && c'.row.agent == Some(c'.hist[i].agent)
        && Answers(c'.hist[j], observed) && c'.hist[j].agent == c'.hist[i].agent;
      assert j < |c.hist| && c.hist[i] == c'.hist[i] && c.hist[j] == c'.hist[j];
    }
    StatusWriteKeepsRest(c, t, status, state, observed);
  }

  lemma StatusWriteKeepsRest(c: Cell, t: Time, status: Status, state: State, observed: int)
    requires ConvergenceInv(c) && Live(c.row)
    ensures var c' := CellStep(c, t, SetStatus(status, state, observed));
      OneOwner(c') && DeliveriesCurrent(c') && PendingHonest(c') && 1 <= c'.row.generation
  {
    StepKeepsOneOwner(c, t, SetStatus(status, state, observed));
    PendingStaysHonest(c, t, SetStatus(status, state, observed));
  }

  /** One such write on a new row: it counts as converged, and nobody was ever handed its spec. */
  lemma StatusWriteLosesUpdate() returns (c: Cell, es: seq<Timed>)
    ensures c == NewCell("db", "", "v1", 0) && ValidRun(c, es)
    ensures |es| == 1 && es[0].e.SetStatus? && es[0].e.observed > 0
    ensures var d := RunCell(c, es); Live(d.row) && d.row.observed == d.row.generation && !SpecAnswered(d, "v1")
  {
    c := NewCell("db", "", "v1", 0);
    var e := At(1, SetStatus(Status(false, ""), Running, 1));
    RunExtends(c, [], e);
    es := [] + [e];
    assert es[..0] == [];
    assert RunCell(c, es).hist == [StatusSet(1, Status(false, ""), Running)];
  }

  /** It can also move progress backwards, which no report can: a claim of 1 on a row that converged at 2. */
  lemma StatusWriteCanRewind() returns (c: Cell, es: seq<Timed>)
    ensures c == NewCell("db", "", "v1", 0) && ValidRun(c, es)
    ensures |es| == 5 && es[4].e.SetStatus? && es[4].e.observed > 0
    ensures RunCell(c, es[..4]).row.observed == 2 && RunCell(c, es).row.observed == 1
  {
    var reported := ConvergedTwice();
    c := NewCell("db", "", "v1", 0);
    var e4 := At(5, SetStatus(Status(false, ""), Running, 1));
    RunExtends(c, reported, e4);
    es := reported + [e4];
    assert es[..4] == reported;
  }

  /** A row updated, delivered at its second generation and reported running. */
  lemma ConvergedTwice() returns (es: seq<Timed>)
    ensures var c := NewCell("db", "", "v1", 0);
      |es| == 4 && ValidRun(c, es) && RunCell(c, es).row.observed == 2 && Live(RunCell(c, es).row)
  {
    var c := NewCell("db", "", "v1", 0);
    var e0 := At(1, SetSpec("v2", ""));
    var e1 := At(2, Deliver(7, 0));
    var e2 := At(3, ReadForReport(0, 7, Report(Running, None, 2), 0));
    var e3 := At(4, WriteReport(0, 4));
    RunExtends(c, [], e0);
    RunExtends(c, [] + [e0], e1);
    RunExtends(c, [] + [e0] + [e1], e2);
    RunExtends(c, [] + [e0] + [e1] + [e2], e3);
    es := [] + [e0] + [e1] + [e2] + [e3];
  }
}
