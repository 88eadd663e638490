/**
 One row of the `resources` table and the statements that change it.

 A `Cell` is a row together with what is in flight on it: a status report is a read followed by a
 separate write, so the reports that have been read and not yet written are part of the state.
 `hist` records, oldest first, every statement that changed the row; it is auxiliary and no
 statement reads it.
 */
module Rows {
  import opened Basics
  import opened Backoff

  type Time = int
  type AgentId = nat

  /** The lifecycle column.  `Other` is any text outside the named values, `Blank` the empty one. */
  datatype State = Pending | Running | Error | Failed | Deleting | Removed | Blank | Other(text: string)

  datatype Health = Unreported | Healthy | Unhealthy | Unknown | OtherHealth(text: string)

  /** The observed-status document: the one key supervision reads, and the rest of it. */
  datatype Status = Status(hostUnreachable: bool, body: string)

  datatype Row = Row(
    name: string,
    tier: string,
    agent: Option<AgentId>,
    state: State,
    health: Health,
    spec: string,
    status: Status,
    generation: int,
    observed: int,
    leasedUntil: Option<Time>,
    attempts: int,
    nextAttemptAt: Option<Time>,
    updatedAt: Time,
    deletedAt: Option<Time>)

  /** The column defaults of a row that was just inserted. */
  function NewRow(name: string, tier: string, spec: string, t: Time): Row {
    Row(name, tier, None, Pending, Unreported, spec, Status(false, ""), 1, 0, None, 0, None, t, None)
  }

  predicate Live(r: Row) { r.deletedAt.None? }

  /** The work feed's condition without the caller: out of sync, tearing down or retrying; not parked, leased or backing off. */
  predicate InFeed(r: Row, now: Time) {
    && (r.observed < r.generation || r.state.Deleting? || r.state.Error?)
    && !r.state.Failed?
    && Live(r)
    && (r.leasedUntil.None? || r.leasedUntil.value < now)
    && (r.nextAttemptAt.None? || r.nextAttemptAt.value <= now)
  }

  /** The claim statement's condition for agent `a`. */
  predicate Claimable(r: Row, a: AgentId, now: Time) {
    InFeed(r, now) && (r.agent == Some(a) || r.agent.None?)
  }

  // ---- agent reports -----------------------------------------------------------------------------

  datatype Observation = Observation(status: Status, health: Option<Health>)

  /** One report: `status` is absent when the agent sent none. */
  datatype Report = Report(state: State, status: Option<Observation>, observed: int)

  datatype ReportParams = ReportParams(
    status: Status,
    state: State,
    observed: int,
    attempts: int,
    nextAttemptAt: Option<Time>,
    health: Health,
    finalize: bool)

  function EffectiveBudget(budget: int): (r: int)
    ensures r >= 1 && (budget >= 1 ==> r == budget) && (budget < 1 ==> r == 10)
  {
    if budget < 1 then 10 else budget
  }

  function EffectiveTtl(ttl: int): (r: int)
    ensures r > 0 && (ttl > 0 ==> r == ttl) && (ttl <= 0 ==> r == 60 * SECOND)
  {
    if ttl <= 0 then 60 * SECOND else ttl
  }

  function ResolveHealth(current: Health, report: Report): Health {
    if report.status.Some? && report.status.value.health.Some? then report.status.value.health.value
    else if report.state.Running? then current
    else Unreported
  }

  /** What one report writes, computed from the row as it was read and the process clock. */
  function ParamsFor(cur: Row, report: Report, budget: int, clock: Time): ReportParams {
    var status := if report.status.Some? then report.status.value.status else cur.status;
    var health := ResolveHealth(cur.health, report);
    var base := ReportParams(status, cur.state, report.observed, cur.attempts, cur.nextAttemptAt, health, false);
    match report.state
    case Running => base.(state := Running, attempts := 0, nextAttemptAt := None)
    case Failed =>
      var attempts := cur.attempts + 1;
      if attempts >= EffectiveBudget(budget) then
        base.(state := Failed, attempts := attempts, observed := 0, nextAttemptAt := None)
      else
        base.(state := if cur.state.Deleting? then Deleting else Error, attempts := attempts, observed := 0,
              nextAttemptAt := Some(clock + NextBackoff(attempts)))
    case Removed =>
      if cur.state.Deleting? then base.(state := Removed, finalize := true, observed := cur.generation)
      else base.(state := Removed)
    case Blank => base
    case other => base.(state := other)
  }

  // ---- the cell machine --------------------------------------------------------------------------

  datatype InFlight = InFlight(
    snapshot: Row,
    agent: AgentId,
    report: Report,
    budget: int,
    readAt: Time,
    readPos: nat)

  datatype Entry =
    | Delivered(at: Time, agent: AgentId, gen: int, spec: string, ttl: int)
    | Applied(at: Time, clock: Time, agent: AgentId, report: Report, params: ReportParams, readPos: nat)
    | Redispatched(at: Time)
    | SpecSet(at: Time)
    | DeleteRequested(at: Time)
    | Flagged(at: Time)
    | StatusSet(at: Time, status: Status, state: State)

  datatype Cell = Cell(row: Row, pending: map<nat, InFlight>, hist: seq<Entry>)

  function NewCell(name: string, tier: string, spec: string, t: Time): Cell {
    Cell(NewRow(name, tier, spec, t), map[], [])
  }

  datatype CellEvent =
    | Deliver(agent: AgentId, ttl: int)
    | ReadForReport(req: nat, agent: AgentId, report: Report, budget: int)
    | WriteReport(req: nat, clock: Time)
    | SetSpec(spec: string, tier: string)
    | MarkDeleting
    | Redispatch
    | FlagUnreachable
    | SetStatus(status: Status, state: State, observed: int)

  /** A report is read only by the row's owner; any other caller is refused and nothing changes. */
  predicate MayReport(r: Row, a: AgentId) { Live(r) && r.agent == Some(a) }

  /** Which events can happen at time `t`: a delivery needs the claim condition, a write its read. */
  predicate Enabled(c: Cell, t: Time, e: CellEvent) {
    match e
    case Deliver(a, ttl) => Claimable(c.row, a, t)
    case ReadForReport(req, a, report, budget) => req !in c.pending
    case WriteReport(req, clock) => req in c.pending && c.pending[req].readAt <= clock <= t
    case _ => true
  }

  function DeliverRow(r: Row, t: Time, a: AgentId, ttl: int): Row {
    r.(agent := Some(a), leasedUntil := Some(t + EffectiveTtl(ttl)), updatedAt := t)
  }

  function ApplyParams(r: Row, t: Time, p: ReportParams): Row {
    r.(status := p.status, state := p.state,
       observed := if p.observed > r.observed then p.observed else r.observed,
       attempts := p.attempts, nextAttemptAt := p.nextAttemptAt, health := p.health,
       leasedUntil := None, deletedAt := if p.finalize then Some(t) else r.deletedAt, updatedAt := t)
  }

  function RedispatchRow(r: Row, t: Time): Row {
    r.(generation := r.generation + 1, state := Pending, leasedUntil := None, attempts := 0,
       nextAttemptAt := None, updatedAt := t)
  }

  function FlagRow(r: Row, t: Time): Row {
    r.(status := r.status.(hostUnreachable := true), health := Unknown, updatedAt := t)
  }

  function SetSpecRow(r: Row, t: Time, spec: string, tier: string): Row {
    r.(spec := spec, tier := tier, generation := r.generation + 1, state := Pending, attempts := 0,
       nextAttemptAt := None, updatedAt := t)
  }

  predicate Redispatchable(r: Row) { Live(r) && !r.state.Deleting? }

  predicate Flaggable(r: Row) { Live(r) && !r.status.hostUnreachable }

  /** One statement on one row. */
  function CellStep(c: Cell, t: Time, e: CellEvent): Cell {
    var r := c.row;
    match e
    case Deliver(a, ttl) =>
      c.(row := DeliverRow(r, t, a, ttl),
         hist := c.hist + [Delivered(t, a, r.generation, r.spec, EffectiveTtl(ttl))])
    case ReadForReport(req, a, report, budget) =>
      if MayReport(r, a) then
        c.(pending := c.pending[req := InFlight(r, a, report, budget, t, |c.hist|)])
      else c
    case WriteReport(req, clock) =>
      if req !in c.pending then c
      else
        var p := c.pending[req];
        var params := ParamsFor(p.snapshot, p.report, p.budget, clock);
        var done := c.(pending := c.pending - {req});
        if !Live(r) then done
        else done.(row := ApplyParams(r, t, params),
                   hist := c.hist + [Applied(t, clock, p.agent, p.report, params, p.readPos)])
    case SetSpec(spec, tier) =>
      if !Live(r) then c
      else c.(row := SetSpecRow(r, t, spec, tier), hist := c.hist + [SpecSet(t)])
    case MarkDeleting =>
      if !Live(r) then c
      else c.(row := r.(state := Deleting, updatedAt := t), hist := c.hist + [DeleteRequested(t)])
    case Redispatch =>
      if !Redispatchable(r) then c
      else c.(row := RedispatchRow(r, t), hist := c.hist + [Redispatched(t)])
    case FlagUnreachable =>
      if !Flaggable(r) then c
      else c.(row := FlagRow(r, t), hist := c.hist + [Flagged(t)])
    case SetStatus(status, state, observed) =>
      if !Live(r) then c
      else c.(row := r.(status := status, state := state, observed := observed, updatedAt := t),
              hist := c.hist + [StatusSet(t, status, state)])
  }

  // ---- runs of one cell --------------------------------------------------------------------------

  datatype Timed = At(t: Time, e: CellEvent)

  /** The cell after a run. */
  function RunCell(c: Cell, es: seq<Timed>): Cell
    decreases |es|
  {
    if es == [] then c
    else
      var last := es[|es| - 1];
      CellStep(RunCell(c, es[..|es| - 1]), last.t, last.e)
  }

  /** Every event of the run was enabled when it happened. */
  predicate ValidRun(c: Cell, es: seq<Timed>)
    decreases |es|
  {
    es == [] ||
    (var n := |es| - 1;
     ValidRun(c, es[..n]) && Enabled(RunCell(c, es[..n]), es[n].t, es[n].e))
  }

  /** One more event at the end of a run. */
  lemma RunExtends(c: Cell, es: seq<Timed>, x: Timed)
    requires ValidRun(c, es) && Enabled(RunCell(c, es), x.t, x.e)
    ensures ValidRun(c, es + [x])
    ensures RunCell(c, es + [x]) == CellStep(RunCell(c, es), x.t, x.e)
  {
    assert (es + [x])[..|es|] == es;
  }

  /** The same with the cell reached so far at hand. */
  lemma RunReaches(c: Cell, es: seq<Timed>, d: Cell, x: Timed)
    requires ValidRun(c, es) && RunCell(c, es) == d && Enabled(d, x.t, x.e)
    ensures ValidRun(c, es + [x]) && RunCell(c, es + [x]) == CellStep(d, x.t, x.e)
  {
    RunExtends(c, es, x);
  }

  predicate NoStatusWrites(es: seq<Timed>) {
    forall i :: 0 <= i < |es| ==> !es[i].e.SetStatus?
  }

  /** History only grows, and a stamped row is frozen: no later statement changes it. */
  lemma StampedRowIsFrozen(c: Cell, t: Time, e: CellEvent)
    requires Enabled(c, t, e)
    requires !Live(c.row)
    ensures CellStep(c, t, e).row == c.row
    ensures CellStep(c, t, e).hist == c.hist
  {
  }

  lemma HistGrows(c: Cell, t: Time, e: CellEvent)
    ensures c.hist <= CellStep(c, t, e).hist
    ensures |CellStep(c, t, e).hist| <= |c.hist| + 1
  {
  }
}
