/**
 Keep-alive composed with the dispatch protocol: one fault-free pass leaves no supervised service
 parked, and a pass interleaved with anything at all neither undoes an operator nor breaks a row.
 */
module KeepAliveProofs {
  import opened Basics
  import opened Rows
  import opened Table
  import opened Supervision
  import Teardown
  import Leases
  import opened Escalation

  /** No storage error, and nobody else touches the table during the pass. */
  predicate Quiet(turns: seq<Turn>) {
    forall i :: 0 <= i < |turns| ==> turns[i].before == [] && !turns[i].failed
  }

  /** Freshly re-dispatched: out of sync, unleased, no backoff, same owner. */
  predicate ReArmed(r: Row, owner: Option<AgentId>) {
    && Live(r) && r.state.Pending? && r.observed < r.generation
    && r.leasedUntil.None? && r.nextAttemptAt.None? && r.attempts == 0 && r.agent == owner
  }

  /** The claim statement takes the row at once, and at any later time, for whoever may hold it. */
  ghost predicate ClaimableByOwner(r: Row) {
    forall a: AgentId, t: Time :: r.agent == Some(a) || r.agent.None? ==> Claimable(r, a, t)
  }

  /** Re-dispatching feeds a row exactly when its agent had not run ahead of the spec. */
  lemma RedispatchFeedsIff(r: Row, t: Time)
    requires Redispatchable(r)
    ensures ReArmed(RedispatchRow(r, t), r.agent) <==> r.observed <= r.generation
    ensures r.observed > r.generation ==> forall a, t' :: !Claimable(RedispatchRow(r, t), a, t')
  {
  }

  /** An agent that claims a generation it was never handed gets the row there: no re-dispatch feeds it. */
  lemma AheadIsNeverFed() returns (es: seq<Timed>)
    ensures var c := NewCell("system-db", "system", "v1", 0);
      && |es| == 3 && ValidRun(c, es)
      && var r := RunCell(c, es).row;
      && Redispatchable(r) && r.observed > r.generation && (forall t, a, t' :: !Claimable(RedispatchRow(r, t), a, t'))
  {
    var c := NewCell("system-db", "system", "v1", 0);
    var e0 := At(1, Deliver(7, 0));
    var e1 := At(2, ReadForReport(0, 7, Report(Running, None, 5), 0));
    var e2 := At(3, WriteReport(0, 3));
    var c1 := CellStep(c, e0.t, e0.e);
    var c2 := CellStep(c1, e1.t, e1.e);
    RunReaches(c, [], c, e0);
    RunReaches(c, [] + [e0], c1, e1);
    RunReaches(c, [] + [e0] + [e1], c2, e2);
    es := [] + [e0] + [e1] + [e2];
  }

  /** The row as the pass read it, or re-armed since. */
  predicate AsReadOrReArmed(table: System, inst: Instance) {
    inst.id in table.rows &&
    (table.rows[inst.id].row == inst.row || ReArmed(table.rows[inst.id].row, inst.row.agent))
  }

  predicate ReArmedIn(table: System, inst: Instance) {
    inst.id in table.rows && ReArmed(table.rows[inst.id].row, inst.row.agent)
  }

  lemma VisitKeeps(s: PassState, registration: string, instances: seq<Instance>, inputs: Inputs, turn: Turn, inst: Instance)
    requires turn.before == [] && Live(inst.row) && inst.row.observed <= inst.row.generation
    requires AsReadOrReArmed(s.table, inst)
    ensures AsReadOrReArmed(Visit(s, registration, instances, inputs, turn).table, inst)
    ensures ReArmedIn(s.table, inst) ==> ReArmedIn(Visit(s, registration, instances, inputs, turn).table, inst)
  {
  }

  /** The turn of an instance that needs it re-arms its row. */
  lemma VisitReArms(s: PassState, registration: string, instances: seq<Instance>, inputs: Inputs, turn: Turn, inst: Instance)
    requires turn.before == [] && !turn.failed && Live(inst.row) && inst.row.observed <= inst.row.generation
    requires AsReadOrReArmed(s.table, inst)
    requires ServiceName(registration) != "" && Supervises(inputs.tiers, ServiceName(registration))
    requires ByName(instances, InstanceName(ServiceName(registration))) == Some(inst)
    requires !inst.row.state.Deleting? && !OnOfflineHost(inst.row, inputs.offline)
    requires NeedsRedispatch(inst.row, turn.at, inputs.options.staleAfter)
    ensures ReArmedIn(Visit(s, registration, instances, inputs, turn).table, inst)
  {
  }

  lemma {:induction false} WalkKeeps(s: PassState, instances: seq<Instance>, inputs: Inputs, turns: seq<Turn>, i: nat, inst: Instance)
    requires i <= |inputs.registrations| == |turns| && Quiet(turns)
    requires Live(inst.row) && inst.row.observed <= inst.row.generation && AsReadOrReArmed(s.table, inst)
    ensures AsReadOrReArmed(KeepAliveUpTo(s, instances, inputs, turns, i).table, inst)
  {
    if i > 0 {
      WalkKeeps(s, instances, inputs, turns, i - 1, inst);
      VisitKeeps(KeepAliveUpTo(s, instances, inputs, turns, i - 1), inputs.registrations[i - 1], instances, inputs, turns[i - 1], inst);
    }
  }

  predicate Supervised(instances: seq<Instance>, inputs: Inputs, i: nat, inst: Instance)
    requires i < |inputs.registrations|
  {
    var name := ServiceName(inputs.registrations[i]);
    && name != "" && Supervises(inputs.tiers, name)
    && ByName(instances, InstanceName(name)) == Some(inst)
    && !inst.row.state.Deleting? && !OnOfflineHost(inst.row, inputs.offline)
  }

  lemma {:induction false} WalkReArms(s: PassState, instances: seq<Instance>, inputs: Inputs, turns: seq<Turn>, i: nat, n: nat, inst: Instance)
    requires i < n <= |inputs.registrations| == |turns| && Quiet(turns)
    requires Live(inst.row) && inst.row.observed <= inst.row.generation && AsReadOrReArmed(s.table, inst)
    requires Supervised(instances, inputs, i, inst)
    requires NeedsRedispatch(inst.row, turns[i].at, inputs.options.staleAfter)
    ensures ReArmedIn(KeepAliveUpTo(s, instances, inputs, turns, n).table, inst)
    decreases n
  {
    WalkKeeps(s, instances, inputs, turns, n - 1, inst);
    var d := KeepAliveUpTo(s, instances, inputs, turns, n - 1);
    if i == n - 1 {
      VisitReArms(d, inputs.registrations[i], instances, inputs, turns[i], inst);
    } else {
      WalkReArms(s, instances, inputs, turns, i, n - 1, inst);
      VisitKeeps(d, inputs.registrations[n - 1], instances, inputs, turns[n - 1], inst);
    }
  }

  /** Flagging touches only rows on offline hosts. */
  lemma {:induction false} FlaggingLeaves(s: PassState, instances: seq<Instance>, inputs: Inputs, turns: seq<Turn>, i: nat, inst: Instance)
    requires i <= |instances| == |turns| && Quiet(turns)
    requires forall k :: 0 <= k < |instances| && instances[k].id == inst.id ==> instances[k] == inst
    requires !OnOfflineHost(inst.row, inputs.offline) && inst.id in s.table.rows
    ensures var t := FlagUpTo(s, instances, inputs, turns, i).table;
      inst.id in t.rows && t.rows[inst.id] == s.table.rows[inst.id]
  {
    if i > 0 {
      FlaggingLeaves(s, instances, inputs, turns, i - 1, inst);
    }
  }

  /** The list is the table's own: each instance as its row is, no row twice. */
  predicate Lists(table: System, instances: seq<Instance>) {
    && (forall k :: 0 <= k < |instances| ==>
          var inst := instances[k];
          inst.id in table.rows && table.rows[inst.id].row == inst.row && Live(inst.row) && inst.row.tier == "system")
    && (forall k, m :: 0 <= k < m < |instances| ==> instances[k].id != instances[m].id)
  }

  lemma {:induction false} ByNameIsListed(instances: seq<Instance>, name: string) returns (m: nat)
    requires ByName(instances, name).Some?
    ensures m < |instances| && ByName(instances, name) == Some(instances[m]) && instances[m].row.name == name
    ensures forall k :: m < k < |instances| ==> instances[k].row.name != name
    decreases |instances|
  {
    var n := |instances| - 1;
    if instances[n].row.name == name {
      m := n;
    } else {
      m := ByNameIsListed(instances[..n], name);
    }
  }

  predicate Serving(r: Row) {
    r.state.Running? && r.observed >= r.generation && !r.health.Unhealthy? && !r.health.Unknown?
  }

  /** Out of sync for no longer than the stale window: the ordinary feed still owns it. */
  predicate InWindow(r: Row, now: Time, staleAfter: int) {
    r.observed < r.generation && now - r.updatedAt <= staleAfter && !r.state.Failed? && !r.health.Unhealthy? && !r.health.Unknown?
  }

  /** Standing down means one of two things, and only the first of them is "running". */
  lemma StandingDownMeans(r: Row, now: Time, staleAfter: int)
    ensures !NeedsRedispatch(r, now, staleAfter) <==> Serving(r) || InWindow(r, now, staleAfter)
  {
  }

  /**
   After one fault-free pass that nobody disturbs, every supervised instance that has not run ahead of
   its spec, is not being torn down and whose host is not offline is serving, or is out of sync inside
   the stale window, or can be claimed by its owner at once.  None is left parked.
   */
  lemma KeepAliveReArms(s: PassState, p: Pass, i: nat, inst: Instance)
    requires WellShaped(p) && !p.listFailed && !p.registryFailed && Quiet(p.flagTurns) && Quiet(p.turns)
    requires Lists(s.table, p.instances)
    requires inst.row.observed <= inst.row.generation
    requires i < |p.inputs.registrations| && Supervised(p.instances, p.inputs, i, inst)
    ensures inst.id in Tick(s, p).table.rows
    ensures var r := Tick(s, p).table.rows[inst.id].row;
      && !r.state.Failed?
      && (ClaimableByOwner(r)
          || (r == inst.row && (Serving(r) || InWindow(r, p.turns[i].at, p.inputs.options.staleAfter))))
  {
    var m := ByNameIsListed(p.instances, InstanceName(ServiceName(p.inputs.registrations[i])));
    assert inst == p.instances[m];
    var stale := p.inputs.options.staleAfter;
    FlaggingLeaves(Swept(s, p), p.instances, p.inputs, p.flagTurns, |p.flagTurns|, inst);
    var f := FlagUpTo(Swept(s, p), p.instances, p.inputs, p.flagTurns, |p.flagTurns|);
    WalkKeeps(f, p.instances, p.inputs, p.turns, |p.turns|, inst);
    StandingDownMeans(inst.row, p.turns[i].at, stale);
    if NeedsRedispatch(inst.row, p.turns[i].at, stale) {
      WalkReArms(f, p.instances, p.inputs, p.turns, i, |p.turns|, inst);
    }
  }

  /**
   Names decide: of two system instances with the same name, in different projects say, only the last
   one listed is kept alive.  The other is left exactly as it was, parked or not.
   */
  lemma {:induction false} ShadowedInstanceIsIgnored(s: PassState, instances: seq<Instance>, inputs: Inputs, turns: seq<Turn>, i: nat, k: nat, j: nat)
    requires i <= |inputs.registrations| == |turns| && Quiet(turns) && Lists(s.table, instances)
    requires k < j < |instances| && instances[k].row.name == instances[j].row.name
    ensures var t := KeepAliveUpTo(s, instances, inputs, turns, i).table;
      instances[k].id in t.rows && t.rows[instances[k].id] == s.table.rows[instances[k].id]
  {
    if i > 0 {
      ShadowedInstanceIsIgnored(s, instances, inputs, turns, i - 1, k, j);
      var name := InstanceName(ServiceName(inputs.registrations[i - 1]));
      if ByName(instances, name).Some? {
        var m := ByNameIsListed(instances, name);
        assert m != k;
        assert instances[m].id != instances[k].id;
      }
    }
  }

  // ---- any interleaving --------------------------------------------------------------------------

  /** Two tables agree on what operators decided: teardown, deletion, owner, spec. */
  predicate SameIntent(a: System, b: System) {
    a.rows.Keys == b.rows.Keys &&
    forall id :: id in a.rows ==>
      var r, r' := a.rows[id].row, b.rows[id].row;
      && (r.state.Deleting? <==> r'.state.Deleting?)
      && r.deletedAt == r'.deletedAt && r.agent == r'.agent && r.spec == r'.spec
  }

  lemma StatementKeepsIntent(s: System, t: Time, id: Id, e: CellEvent)
    requires id in s.rows && Teardown.SupervisorEvent(e)
    ensures SameIntent(s, Step(s, t, OnRow(id, e)))
  {
  }

  /** The re-dispatch a keep-alive turn issues, if it issues one. */
  function Issued(s: PassState, registration: string, instances: seq<Instance>, inputs: Inputs, turn: Turn): Option<Id> {
    var name := ServiceName(registration);
    if name == "" || !Supervises(inputs.tiers, name) then None
    else
      match ByName(instances, InstanceName(name))
      case None => None
      case Some(inst) =>
        if inst.row.state.Deleting? || OnOfflineHost(inst.row, inputs.offline)
           || !NeedsRedispatch(inst.row, turn.at, inputs.options.staleAfter)
           || !RedispatchTakes(RunTable(s.table, turn.before), inst.id, turn.failed) then None
        else Some(inst.id)
  }

  /** That is all a turn does to the table, after what the others did before it. */
  lemma VisitIssues(s: PassState, registration: string, instances: seq<Instance>, inputs: Inputs, turn: Turn)
    ensures var mid := RunTable(s.table, turn.before);
      match Issued(s, registration, instances, inputs, turn)
      case None => Visit(s, registration, instances, inputs, turn).table == mid
      case Some(id) => id in mid.rows && Visit(s, registration, instances, inputs, turn).table == Step(mid, turn.at, OnRow(id, Redispatch))
  {
  }

  /**
   Whatever other callers did just before, a turn's own statement undoes no delete, revives no
   finished row and reassigns nothing.
   */
  lemma SupervisionNeverUndoes(s: PassState, registration: string, instances: seq<Instance>, inputs: Inputs, turn: Turn)
    ensures SameIntent(RunTable(s.table, turn.before), Visit(s, registration, instances, inputs, turn).table)
  {
    VisitIssues(s, registration, instances, inputs, turn);
    var issued := Issued(s, registration, instances, inputs, turn);
    if issued.Some? {
      StatementKeepsIntent(RunTable(s.table, turn.before), turn.at, issued.value, Redispatch);
    }
  }

  /** Nor does flagging a stranded instance. */
  lemma FlaggingNeverUndoes(s: PassState, inst: Instance, inputs: Inputs, turn: Turn)
    ensures SameIntent(RunTable(s.table, turn.before), FlagOne(s, inst, inputs, turn).table)
  {
    var mid := RunTable(s.table, turn.before);
    if FlagOne(s, inst, inputs, turn).table != mid {
      StatementKeepsIntent(mid, turn.at, inst.id, FlagUnreachable);
    }
  }

  /** A host-unreachable record is written exactly when the row's own history gains the flag. */
  lemma RecordIffFlagged(s: PassState, inst: Instance, inputs: Inputs, turn: Turn)
    ensures var mid, s' := RunTable(s.table, turn.before), FlagOne(s, inst, inputs, turn);
      s'.memory.journal == s.memory.journal + [Emitted(HostUnreachable(inst.id))]
      <==> inst.id in mid.rows && s'.table.rows[inst.id].hist == mid.rows[inst.id].hist + [Flagged(turn.at)]
  {
    var mid, s' := RunTable(s.table, turn.before), FlagOne(s, inst, inputs, turn);
    assert s.memory.journal + [] == s.memory.journal;
    assert |s.memory.journal + [Emitted(HostUnreachable(inst.id))]| == |s.memory.journal| + 1;
  }

  // ---- a pass is a stretch of a run --------------------------------------------------------------

  function VisitRun(s: PassState, registration: string, instances: seq<Instance>, inputs: Inputs, turn: Turn): seq<Stamped> {
    var issued := Issued(s, registration, instances, inputs, turn);
    turn.before + (if issued.Some? then [Stamped(turn.at, OnRow(issued.value, Redispatch))] else [])
  }

  function KeepAliveRun(s: PassState, instances: seq<Instance>, inputs: Inputs, turns: seq<Turn>, i: nat): seq<Stamped>
    requires i <= |inputs.registrations| == |turns|
  {
    if i == 0 then []
    else
      KeepAliveRun(s, instances, inputs, turns, i - 1)
      + VisitRun(KeepAliveUpTo(s, instances, inputs, turns, i - 1), inputs.registrations[i - 1], instances, inputs, turns[i - 1])
  }

  function FlagRun(s: PassState, inst: Instance, inputs: Inputs, turn: Turn): seq<Stamped> {
    turn.before +
    (if inst.row.state.Deleting? || !OnOfflineHost(inst.row, inputs.offline)
        || turn.failed || inst.id !in RunTable(s.table, turn.before).rows then []
     else [Stamped(turn.at, OnRow(inst.id, FlagUnreachable))])
  }

  function FlaggingRun(s: PassState, instances: seq<Instance>, inputs: Inputs, turns: seq<Turn>, i: nat): seq<Stamped>
    requires i <= |instances| == |turns|
  {
    if i == 0 then []
    else
      FlaggingRun(s, instances, inputs, turns, i - 1)
      + FlagRun(FlagUpTo(s, instances, inputs, turns, i - 1), instances[i - 1], inputs, turns[i - 1])
  }

  /** Every statement of a pass, the supervisor's and everybody else's, in order. */
  function TickRun(s: PassState, p: Pass): seq<Stamped>
    requires WellShaped(p)
  {
    if p.listFailed then []
    else
      var flagged := FlagUpTo(Swept(s, p), p.instances, p.inputs, p.flagTurns, |p.flagTurns|);
      FlaggingRun(Swept(s, p), p.instances, p.inputs, p.flagTurns, |p.flagTurns|)
      + (if p.registryFailed then [] else KeepAliveRun(flagged, p.instances, p.inputs, p.turns, |p.turns|))
  }

  /** `es` takes the table from `a` to `b`, one possible statement after another. */
  predicate Leads(a: System, es: seq<Stamped>, b: System) { ValidTable(a, es) && RunTable(a, es) == b }

  lemma LeadsOn(a: System, es: seq<Stamped>, b: System, fs: seq<Stamped>, c: System)
    requires Leads(a, es, b) && Leads(b, fs, c)
    ensures Leads(a, es + fs, c)
  {
    TableConcat(a, es, fs);
  }

  lemma VisitIsARun(s: PassState, registration: string, instances: seq<Instance>, inputs: Inputs, turn: Turn)
    requires TurnCan(s.table, turn)
    ensures Leads(s.table, VisitRun(s, registration, instances, inputs, turn), Visit(s, registration, instances, inputs, turn).table)
  {
    VisitIssues(s, registration, instances, inputs, turn);
    var issued := Issued(s, registration, instances, inputs, turn);
    if issued.Some? {
      TableExtends(s.table, turn.before, Stamped(turn.at, OnRow(issued.value, Redispatch)));
    } else {
      assert turn.before + [] == turn.before;
    }
  }

  lemma FlagIsARun(s: PassState, inst: Instance, inputs: Inputs, turn: Turn)
    requires TurnCan(s.table, turn)
    ensures Leads(s.table, FlagRun(s, inst, inputs, turn), FlagOne(s, inst, inputs, turn).table)
  {
    if FlagRun(s, inst, inputs, turn) == turn.before + [Stamped(turn.at, OnRow(inst.id, FlagUnreachable))] {
      assert |FlagRun(s, inst, inputs, turn)| == |turn.before| + 1;
      TableExtends(s.table, turn.before, Stamped(turn.at, OnRow(inst.id, FlagUnreachable)));
    } else {
      assert turn.before + [] == turn.before;
    }
  }

  lemma {:induction false} KeepAliveIsARun(s: PassState, instances: seq<Instance>, inputs: Inputs, turns: seq<Turn>, i: nat)
    requires i <= |inputs.registrations| == |turns| && KeepAliveCan(s, instances, inputs, turns, i)
    ensures Leads(s.table, KeepAliveRun(s, instances, inputs, turns, i), KeepAliveUpTo(s, instances, inputs, turns, i).table)
  {
    if i > 0 {
      KeepAliveIsARun(s, instances, inputs, turns, i - 1);
      var d := KeepAliveUpTo(s, instances, inputs, turns, i - 1);
      var registration, turn := inputs.registrations[i - 1], turns[i - 1];
      VisitIsARun(d, registration, instances, inputs, turn);
      LeadsOn(s.table, KeepAliveRun(s, instances, inputs, turns, i - 1), d.table,
              VisitRun(d, registration, instances, inputs, turn), Visit(d, registration, instances, inputs, turn).table);
    }
  }

  lemma {:induction false} FlaggingIsARun(s: PassState, instances: seq<Instance>, inputs: Inputs, turns: seq<Turn>, i: nat)
    requires i <= |instances| == |turns| && FlagCan(s, instances, inputs, turns, i)
    ensures Leads(s.table, FlaggingRun(s, instances, inputs, turns, i), FlagUpTo(s, instances, inputs, turns, i).table)
  {
    if i > 0 {
      FlaggingIsARun(s, instances, inputs, turns, i - 1);
      var d := FlagUpTo(s, instances, inputs, turns, i - 1);
      FlagIsARun(d, instances[i - 1], inputs, turns[i - 1]);
      LeadsOn(s.table, FlaggingRun(s, instances, inputs, turns, i - 1), d.table,
              FlagRun(d, instances[i - 1], inputs, turns[i - 1]), FlagOne(d, instances[i - 1], inputs, turns[i - 1]).table);
    }
  }

  /**
   A whole pass, interleaved with any valid statements of anyone, is itself a valid run of the table, so
   whatever holds of all runs holds across it.
   */
  lemma TickIsARun(s: PassState, p: Pass)
    requires WellShaped(p) && TickCan(s, p)
    ensures Leads(s.table, TickRun(s, p), Tick(s, p).table)
  {
    if !p.listFailed {
      var w := Swept(s, p);
      FlaggingIsARun(w, p.instances, p.inputs, p.flagTurns, |p.flagTurns|);
      var f := FlagUpTo(w, p.instances, p.inputs, p.flagTurns, |p.flagTurns|);
      var flags := FlaggingRun(w, p.instances, p.inputs, p.flagTurns, |p.flagTurns|);
      if p.registryFailed {
        assert flags + [] == flags;
      } else {
        KeepAliveIsARun(f, p.instances, p.inputs, p.turns, |p.turns|);
        LeadsOn(s.table, flags, f.table, KeepAliveRun(f, p.instances, p.inputs, p.turns, |p.turns|),
                KeepAliveUpTo(f, p.instances, p.inputs, p.turns, |p.turns|).table);
      }
    }
  }

  predicate TicksCan(s: PassState, ps: seq<Pass>)
    requires forall i :: 0 <= i < |ps| ==> WellShaped(ps[i])
    decreases |ps|
  {
    ps == [] || (TicksCan(s, ps[..|ps| - 1]) && TickCan(Ticks(s, ps[..|ps| - 1]), ps[|ps| - 1]))
  }

  function TicksRun(s: PassState, ps: seq<Pass>): seq<Stamped>
    requires forall i :: 0 <= i < |ps| ==> WellShaped(ps[i])
    decreases |ps|
  {
    if ps == [] then []
    else TicksRun(s, ps[..|ps| - 1]) + TickRun(Ticks(s, ps[..|ps| - 1]), ps[|ps| - 1])
  }

  lemma {:induction false} TicksAreARun(s: PassState, ps: seq<Pass>)
    requires (forall i :: 0 <= i < |ps| ==> WellShaped(ps[i])) && TicksCan(s, ps)
    ensures Leads(s.table, TicksRun(s, ps), Ticks(s, ps).table)
    decreases |ps|
  {
    if ps != [] {
      var n := |ps| - 1;
      TicksAreARun(s, ps[..n]);
      var d := Ticks(s, ps[..n]);
      TickIsARun(d, ps[n]);
      LeadsOn(s.table, TicksRun(s, ps[..n]), d.table, TickRun(d, ps[n]), Tick(d, ps[n]).table);
    }
  }

  /**
   After any number of passes from any reachable table the table is reachable, every row keeps its
   lease, backoff, flag, stamp and health guarantees, and no row counts as converged on a spec nobody
   answered for if agents and direct status writes were honest.
   */
  lemma TicksKeepRowsSafe(past: seq<Stamped>, memory: Memory, ps: seq<Pass>)
    requires ValidTable(EMPTY, past) && forall i :: 0 <= i < |ps| ==> WellShaped(ps[i])
    requires TicksCan(PassState(RunTable(EMPTY, past), memory), ps)
    ensures var s := PassState(RunTable(EMPTY, past), memory);
      var es := past + TicksRun(s, ps);
      && Leads(EMPTY, es, Ticks(s, ps).table)
      && AllSafe(Ticks(s, ps).table)
      && (HonestTable(EMPTY, es) ==> ProgressAnswered(Ticks(s, ps).table))
  {
    var s := PassState(RunTable(EMPTY, past), memory);
    var es := past + TicksRun(s, ps);
    TicksAreARun(s, ps);
    LeadsOn(EMPTY, past, s.table, TicksRun(s, ps), Ticks(s, ps).table);
    EveryRowIsSafe(es);
    if HonestTable(EMPTY, es) {
      EveryRowConverges(es);
    }
  }

  // ---- re-arming amid others ---------------------------------------------------------------------

  /**
   One turn, whatever others did before it: an instance that was read as needing it is re-armed if and
   only if its row by then is live, not tearing down and not ahead of its spec; its owner is who it was.
   */
  lemma TurnReArmsIff(s: PassState, instances: seq<Instance>, inputs: Inputs, i: nat, turn: Turn, inst: Instance)
    requires i < |inputs.registrations| && Supervised(instances, inputs, i, inst)
    requires NeedsRedispatch(inst.row, turn.at, inputs.options.staleAfter) && !turn.failed
    requires ValidTable(s.table, turn.before) && inst.id in s.table.rows
    ensures var mid, after := RunTable(s.table, turn.before), Visit(s, inputs.registrations[i], instances, inputs, turn).table;
      && inst.id in mid.rows && inst.id in after.rows
      && var r := mid.rows[inst.id].row;
      && (ReArmed(after.rows[inst.id].row, r.agent) <==> Redispatchable(r) && r.observed <= r.generation)
      && (s.table.rows[inst.id].row.agent.Some? ==> r.agent == s.table.rows[inst.id].row.agent)
  {
    OwnerOutlasts(s.table, turn.before, inst.id);
    VisitIssues(s, inputs.registrations[i], instances, inputs, turn);
  }

  lemma OwnerOutlasts(t: System, es: seq<Stamped>, id: Id)
    requires ValidTable(t, es) && id in t.rows
    ensures id in RunTable(t, es).rows
    ensures t.rows[id].row.agent.Some? ==> RunTable(t, es).rows[id].row.agent == t.rows[id].row.agent
  {
    RowsEvolveAlone(t, es, id);
    if t.rows[id].row.agent.Some? {
      Leases.OwnerNeverChanges(t.rows[id], RowRun(es, id));
    }
  }

  /** The same for any turn of a pass interleaved with anything, right after that turn. */
  lemma PassReArmsIff(s: PassState, instances: seq<Instance>, inputs: Inputs, turns: seq<Turn>, i: nat, inst: Instance)
    requires |inputs.registrations| == |turns| && KeepAliveCan(s, instances, inputs, turns, |turns|)
    requires i < |turns| && Supervised(instances, inputs, i, inst) && inst.id in s.table.rows
    requires NeedsRedispatch(inst.row, turns[i].at, inputs.options.staleAfter) && !turns[i].failed
    ensures var mid := RunTable(KeepAliveUpTo(s, instances, inputs, turns, i).table, turns[i].before);
      var after := KeepAliveUpTo(s, instances, inputs, turns, i + 1).table;
      && inst.id in mid.rows && inst.id in after.rows
      && var r := mid.rows[inst.id].row;
      (ReArmed(after.rows[inst.id].row, r.agent) <==> Redispatchable(r) && r.observed <= r.generation)
  {
    RowIsStillThere(s, instances, inputs, turns, i, inst.id);
    TurnComes(s, instances, inputs, turns, i);
    TurnReArmsIff(KeepAliveUpTo(s, instances, inputs, turns, i), instances, inputs, i, turns[i], inst);
  }

  lemma RowIsStillThere(s: PassState, instances: seq<Instance>, inputs: Inputs, turns: seq<Turn>, i: nat, id: Id)
    requires i <= |inputs.registrations| == |turns| && KeepAliveCan(s, instances, inputs, turns, |turns|) && id in s.table.rows
    ensures id in KeepAliveUpTo(s, instances, inputs, turns, i).table.rows
  {
    KeepAliveCanPrefix(s, instances, inputs, turns, i, |turns|);
    KeepAliveIsARun(s, instances, inputs, turns, i);
    RowsEvolveAlone(s.table, KeepAliveRun(s, instances, inputs, turns, i), id);
  }
}
