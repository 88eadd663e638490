/**
 A silent agent is never escalated.  Every re-dispatch stamps the row, so the next pass inside the
 stale window stands down and clears the count: over any sequence of passes that come no further apart
 than the window, a service whose agent never answers is re-dispatched for ever and no record says so.
 */
module Silence {
  import opened Basics
  import opened Rows
  import opened Table
  import opened Supervision
  import opened Escalation
  import opened Accounts
  import opened KeepAliveProofs

  // ---- a row nobody answers for ------------------------------------------------------------------

  /** Out of sync, never reported on and with no bad health. */
  predicate Waiting(r: Row) {
    Live(r) && r.state.Pending? && r.observed < r.generation && !r.health.Unhealthy? && !r.health.Unknown?
  }

  /** The row may be handed out, read, updated and re-dispatched; it is not reported on, flagged, deleted or overwritten. */
  predicate SilentEvent(e: CellEvent) { e.Deliver? || e.ReadForReport? || e.SetSpec? || e.Redispatch? }

  predicate SilentFor(es: seq<Stamped>, id: Id) {
    forall k :: 0 <= k < |es| && Project(es[k].ev, id).Some? ==> SilentEvent(Project(es[k].ev, id).value)
  }

  /** The row waits, was not touched before `since`, and its clock is behind the table's. */
  predicate Waits(t: System, id: Id, name: string, since: Time) {
    && id in t.rows && Waiting(t.rows[id].row) && t.rows[id].row.name == name
    && since <= t.rows[id].row.updatedAt <= t.now
  }

  lemma {:induction false} WaitsThrough(t: System, es: seq<Stamped>, id: Id, name: string, since: Time)
    requires Waits(t, id, name, since) && ValidTable(t, es) && SilentFor(es, id)
    ensures Waits(RunTable(t, es), id, name, since)
    decreases |es|
  {
    if es != [] {
      var n := |es| - 1;
      WaitsThrough(t, es[..n], id, name, since);
      var d := RunTable(t, es[..n]);
      if Project(es[n].ev, id).Some? {
        assert SilentEvent(Project(es[n].ev, id).value);
      }
    }
  }

  predicate AllSilent(turns: seq<Turn>, id: Id) { forall j :: 0 <= j < |turns| ==> SilentFor(turns[j].before, id) }

  lemma SilentConcat(es: seq<Stamped>, fs: seq<Stamped>, id: Id)
    requires SilentFor(es, id) && SilentFor(fs, id)
    ensures SilentFor(es + fs, id)
  {
  }

  // ---- one pass ----------------------------------------------------------------------------------

  /** The row waits; at most one re-dispatch is on its account, and if one is the row was not touched before `v`. */
  predicate Watching(s: PassState, key: string, id: Id, v: Time) {
    var ep := EpisodeOf(s.memory, key);
    && !ep.escalated && ep.redispatches <= 1
    && id in s.table.rows && Waits(s.table, id, InstanceName(key), s.table.rows[id].row.updatedAt)
    && (ep.redispatches == 1 ==> v <= s.table.rows[id].row.updatedAt)
  }

  /** What a silent pass looks like from row `id`, whose service is registration `i`. */
  predicate Overlooks(s: PassState, p: Pass, key: string, id: Id, i: nat) {
    && WellShaped(p) && TickCan(s, p) && !p.listFailed && !p.registryFailed && p.inputs.options.escalateAfter >= 1
    && id in s.table.rows && Lists(s.table, p.instances) && i < |p.inputs.registrations|
    && Supervised(p.instances, p.inputs, i, Instance(id, s.table.rows[id].row)) && ServiceName(p.inputs.registrations[i]) == key
    && OthersOnly(p.inputs, 0, i, key) && OthersOnly(p.inputs, i + 1, |p.inputs.registrations|, key)
    && AllSilent(p.flagTurns, id) && AllSilent(p.turns, id)
  }

  lemma {:induction false} FlaggingIsSilent(s: PassState, instances: seq<Instance>, inputs: Inputs, turns: seq<Turn>, n: nat, id: Id)
    requires n <= |instances| == |turns| && AllSilent(turns, id)
    requires forall j :: 0 <= j < |instances| && instances[j].id == id ==> !OnOfflineHost(instances[j].row, inputs.offline)
    ensures SilentFor(FlaggingRun(s, instances, inputs, turns, n), id)
  {
    if n > 0 {
      FlaggingIsSilent(s, instances, inputs, turns, n - 1, id);
      SilentConcat(FlaggingRun(s, instances, inputs, turns, n - 1),
                   FlagRun(FlagUpTo(s, instances, inputs, turns, n - 1), instances[n - 1], inputs, turns[n - 1]), id);
    }
  }

  lemma VisitIsSilent(s: PassState, registration: string, instances: seq<Instance>, inputs: Inputs, turn: Turn, id: Id)
    requires SilentFor(turn.before, id)
    ensures SilentFor(VisitRun(s, registration, instances, inputs, turn), id)
  {
  }

  lemma VisitWaits(s: PassState, registration: string, instances: seq<Instance>, inputs: Inputs, turn: Turn, id: Id, name: string, since: Time)
    requires TurnCan(s.table, turn) && SilentFor(turn.before, id) && Waits(s.table, id, name, since)
    ensures Waits(Visit(s, registration, instances, inputs, turn).table, id, name, since)
  {
    VisitIsARun(s, registration, instances, inputs, turn);
    VisitIsSilent(s, registration, instances, inputs, turn, id);
    WaitsThrough(s.table, VisitRun(s, registration, instances, inputs, turn), id, name, since);
  }

  /** The service's own turn: with one re-dispatch on account it stands down, with none it may re-dispatch. */
  lemma OwnVisit(s: PassState, registration: string, instances: seq<Instance>, inputs: Inputs, turn: Turn, inst: Instance, key: string, v: Time)
    requires key == ServiceName(registration) != "" && Supervises(inputs.tiers, key) && ByName(instances, InstanceName(key)) == Some(inst)
    requires Waiting(inst.row) && !OnOfflineHost(inst.row, inputs.offline) && inputs.options.escalateAfter >= 1
    requires TurnCan(s.table, turn) && SilentFor(turn.before, inst.id) && Waits(s.table, inst.id, InstanceName(key), inst.row.updatedAt)
    requires var ep := EpisodeOf(s.memory, key);
      !ep.escalated && ep.redispatches <= 1 && (ep.redispatches == 1 ==> v <= inst.row.updatedAt)
    requires turn.at - v <= inputs.options.staleAfter
    ensures var s' := Visit(s, registration, instances, inputs, turn);
      Watching(s', key, inst.id, turn.at) && Escalations(s'.memory.journal, key) == Escalations(s.memory.journal, key)
  {
    VisitWaits(s, registration, instances, inputs, turn, inst.id, InstanceName(key), inst.row.updatedAt);
    var m := AfterFound(s.memory, key);
    OwnMemory(m, key, inputs.options.escalateAfter);
    var mid := s.(table := RunTable(s.table, turn.before));
    var s' := Attend(mid, key, inst, inputs, turn);
    assert Visit(s, registration, instances, inputs, turn) == s';
    if !NeedsRedispatch(inst.row, turn.at, inputs.options.staleAfter) {
      assert s'.memory == AfterRecovery(m, key);
    } else {
      assert EpisodeOf(m, key).redispatches == 0;
      WaitsThrough(s.table, turn.before, inst.id, InstanceName(key), inst.row.updatedAt);
      OwnRedispatch(mid.(memory := m), key, inst.id, turn, inputs.options.escalateAfter);
    }
  }

  lemma OwnRedispatch(s: PassState, key: string, id: Id, turn: Turn, escalateAfter: int)
    requires id in s.table.rows && Waiting(s.table.rows[id].row)
    ensures var s' := RedispatchOne(s, key, id, turn, escalateAfter);
      && id in s'.table.rows
      && (s' == s || (s'.table.rows[id].row.updatedAt == turn.at && s'.memory == AfterRedispatch(s.memory, key, escalateAfter)))
  {
  }

  lemma OwnMemory(m: Memory, key: string, escalateAfter: int)
    requires escalateAfter >= 1 && !EpisodeOf(m, key).escalated
    ensures var r := AfterRecovery(m, key);
      EpisodeOf(r, key).redispatches == 0 && !EpisodeOf(r, key).escalated && Escalations(r.journal, key) == Escalations(m.journal, key)
    ensures EpisodeOf(m, key).redispatches == 0 ==>
      var r := AfterRedispatch(m, key, escalateAfter);
      EpisodeOf(r, key).redispatches == 1 && !EpisodeOf(r, key).escalated && Escalations(r.journal, key) == Escalations(m.journal, key)
  {
    var j := m.journal;
    Appended(j, Reset(key), key);
    Appended(j, Retried(key), key);
    assert j + [Reset(key)] + [] == j + [Reset(key)] && j + [Retried(key)] + [] == j + [Retried(key)];
  }

  /** Any stretch of the walk leaves the row waiting, not touched before `since`. */
  lemma {:induction false} WalkWaits(s: PassState, instances: seq<Instance>, inputs: Inputs, turns: seq<Turn>, m: nat, n: nat, id: Id, name: string, since: Time)
    requires m <= n <= |inputs.registrations| == |turns| && KeepAliveCan(s, instances, inputs, turns, |turns|)
    requires Waits(KeepAliveUpTo(s, instances, inputs, turns, m).table, id, name, since) && AllSilent(turns, id)
    ensures Waits(KeepAliveUpTo(s, instances, inputs, turns, n).table, id, name, since)
    decreases n
  {
    if m < n {
      WalkWaits(s, instances, inputs, turns, m, n - 1, id, name, since);
      TurnComes(s, instances, inputs, turns, n - 1);
      VisitWaits(KeepAliveUpTo(s, instances, inputs, turns, n - 1), inputs.registrations[n - 1], instances, inputs, turns[n - 1], id, name, since);
    }
  }

  lemma FlagPhase(s: PassState, p: Pass, key: string, id: Id, i: nat)
    requires Overlooks(s, p, key, id, i) && Waits(s.table, id, InstanceName(key), s.table.rows[id].row.updatedAt)
    ensures var f := FlagUpTo(Swept(s, p), p.instances, p.inputs, p.flagTurns, |p.flagTurns|);
      Waits(f.table, id, InstanceName(key), s.table.rows[id].row.updatedAt) && KeySame(s.memory, f.memory, key)
  {
    var w, row := Swept(s, p), s.table.rows[id].row;
    HostsAreSame(s, p, key);
    assert forall j :: 0 <= j < |p.instances| && p.instances[j].id == id ==> p.instances[j].row == row;
    FlaggingIsARun(w, p.instances, p.inputs, p.flagTurns, |p.flagTurns|);
    FlaggingIsSilent(w, p.instances, p.inputs, p.flagTurns, |p.flagTurns|, id);
    WaitsThrough(s.table, FlaggingRun(w, p.instances, p.inputs, p.flagTurns, |p.flagTurns|), id, InstanceName(key), row.updatedAt);
  }

  /** The state the keep-alive walk starts from. */
  function Flagged(s: PassState, p: Pass): PassState
    requires WellShaped(p)
  {
    FlagUpTo(Swept(s, p), p.instances, p.inputs, p.flagTurns, |p.flagTurns|)
  }

  /** The state after the first `k` registrations of a pass. */
  function WalkTo(s: PassState, p: Pass, k: nat): PassState
    requires WellShaped(p) && k <= |p.turns|
  {
    KeepAliveUpTo(Flagged(s, p), p.instances, p.inputs, p.turns, k)
  }

  /** Up to the service's own turn. */
  lemma BeforeOwnTurn(s: PassState, p: Pass, key: string, id: Id, i: nat)
    requires Overlooks(s, p, key, id, i) && Waits(s.table, id, InstanceName(key), s.table.rows[id].row.updatedAt)
    ensures var d := WalkTo(s, p, i);
      && Waits(d.table, id, InstanceName(key), s.table.rows[id].row.updatedAt) && KeySame(s.memory, d.memory, key)
      && TurnCan(d.table, p.turns[i])
  {
    var f := Flagged(s, p);
    FlagPhase(s, p, key, id, i);
    WalkWaits(f, p.instances, p.inputs, p.turns, 0, i, id, InstanceName(key), s.table.rows[id].row.updatedAt);
    WalkIsSame(f, p.instances, p.inputs, p.turns, 0, i, key);
    TurnComes(f, p.instances, p.inputs, p.turns, i);
  }

  /** Through it. */
  lemma ThroughOwnTurn(s: PassState, p: Pass, key: string, id: Id, i: nat, v: Time)
    requires Overlooks(s, p, key, id, i) && Watching(s, key, id, v) && p.turns[i].at - v <= p.inputs.options.staleAfter
    ensures var e := WalkTo(s, p, i + 1);
      Watching(e, key, id, p.turns[i].at) && Escalations(e.memory.journal, key) == Escalations(s.memory.journal, key)
  {
    BeforeOwnTurn(s, p, key, id, i);
    SameCounts(s.memory, WalkTo(s, p, i).memory, key);
    OwnVisit(WalkTo(s, p, i), p.inputs.registrations[i], p.instances, p.inputs, p.turns[i], Instance(id, s.table.rows[id].row), key, v);
  }

  /** And after it. */
  lemma AfterOwnTurn(s: PassState, p: Pass, key: string, id: Id, i: nat, v: Time)
    requires Overlooks(s, p, key, id, i) && Watching(WalkTo(s, p, i + 1), key, id, v)
    ensures var e, e' := WalkTo(s, p, i + 1), WalkTo(s, p, |p.turns|);
      Watching(e', key, id, v) && Escalations(e'.memory.journal, key) == Escalations(e.memory.journal, key)
  {
    var e, n := WalkTo(s, p, i + 1), |p.turns|;
    WalkWaits(Flagged(s, p), p.instances, p.inputs, p.turns, i + 1, n, id, InstanceName(key), e.table.rows[id].row.updatedAt);
    WalkIsSame(Flagged(s, p), p.instances, p.inputs, p.turns, i + 1, n, key);
    StillWatching(e, WalkTo(s, p, n), key, id, v);
  }

  /** A watch outlasts whatever leaves the row waiting and books nothing for the key. */
  lemma StillWatching(s: PassState, s': PassState, key: string, id: Id, v: Time)
    requires Watching(s, key, id, v) && KeySame(s.memory, s'.memory, key)
    requires Waits(s'.table, id, InstanceName(key), s.table.rows[id].row.updatedAt)
    ensures Watching(s', key, id, v) && Escalations(s'.memory.journal, key) == Escalations(s.memory.journal, key)
  {
    SameCounts(s.memory, s'.memory, key);
  }

  /** One silent pass no further from the last visit than the stale window writes no escalation and keeps the watch. */
  lemma SilentPass(s: PassState, p: Pass, key: string, id: Id, i: nat, v: Time)
    requires Overlooks(s, p, key, id, i) && Watching(s, key, id, v) && p.turns[i].at - v <= p.inputs.options.staleAfter
    ensures Watching(Tick(s, p), key, id, p.turns[i].at)
    ensures Escalations(Tick(s, p).memory.journal, key) == Escalations(s.memory.journal, key)
  {
    ThroughOwnTurn(s, p, key, id, i, v);
    AfterOwnTurn(s, p, key, id, i, p.turns[i].at);
    KeyIsLive(p.inputs, i, |p.turns|);
    var m := WalkTo(s, p, |p.turns|).memory;
    PruningIsSame(m, LiveKeys(p.inputs), key);
    SameCounts(m, AfterPrune(m, LiveKeys(p.inputs)), key);
  }

  // ---- any number of passes ----------------------------------------------------------------------

  /** Every pass overlooks the row, and none visits it later than the stale window after the one before. */
  predicate AllOverlook(s: PassState, ps: seq<Pass>, visits: seq<nat>, key: string, id: Id, v: Time)
    requires |visits| == |ps| && forall k :: 0 <= k < |ps| ==> WellShaped(ps[k]) && visits[k] < |ps[k].turns|
    decreases |ps|
  {
    ps == [] ||
    (var n := |ps| - 1;
     && AllOverlook(s, ps[..n], visits[..n], key, id, v)
     && Overlooks(Ticks(s, ps[..n]), ps[n], key, id, visits[n])
     && ps[n].turns[visits[n]].at - LastVisit(ps[..n], visits[..n], v) <= ps[n].inputs.options.staleAfter)
  }

  function LastVisit(ps: seq<Pass>, visits: seq<nat>, v: Time): Time
    requires |visits| == |ps| && forall k :: 0 <= k < |ps| ==> visits[k] < |ps[k].turns|
  {
    if ps == [] then v else ps[|ps| - 1].turns[visits[|ps| - 1]].at
  }

  /**
   However many passes go by, each within the stale window of the last, a service whose agent never
   answers is never escalated.
   */
  lemma {:induction false} SilentAgentIsNeverEscalated(s: PassState, ps: seq<Pass>, visits: seq<nat>, key: string, id: Id, v: Time)
    requires |visits| == |ps| && forall k :: 0 <= k < |ps| ==> WellShaped(ps[k]) && visits[k] < |ps[k].turns|
    requires Watching(s, key, id, v) && AllOverlook(s, ps, visits, key, id, v)
    ensures Watching(Ticks(s, ps), key, id, LastVisit(ps, visits, v))
    ensures Escalations(Ticks(s, ps).memory.journal, key) == Escalations(s.memory.journal, key)
    decreases |ps|
  {
    if ps != [] {
      var n := |ps| - 1;
      SilentAgentIsNeverEscalated(s, ps[..n], visits[..n], key, id, v);
      SilentPass(Ticks(s, ps[..n]), ps[n], key, id, visits[n], LastVisit(ps[..n], visits[..n], v));
    }
  }
}
