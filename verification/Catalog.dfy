/**
 Which services keep-alive looks after, said from the catalog and the registry alone: a registered
 service is kept running unless the catalog declares it app tier or it is part of the substrate the
 control plane itself stands on.
 */
module Catalog {
  import opened Basics
  import opened Rows
  import opened Table
  import opened Text
  import opened Supervision
  import opened Escalation
  import opened Accounts
  import opened KeepAliveProofs

  /** Declared system tier, or unknown to the catalog; never one of the four the control plane stands on. */
  predicate MustRun(tiers: map<string, bool>, name: string) {
    && name != "core" && name != "agent" && name != "docker" && name != "runtime"
    && (name in tiers ==> tiers[name])
  }

  /** Instance `k` is the last one listed for the service. */
  predicate IsInstanceOf(instances: seq<Instance>, k: nat, name: string) {
    && k < |instances| && instances[k].row.name == "system-" + name
    && forall m :: k < m < |instances| ==> instances[m].row.name != "system-" + name
  }

  lemma {:induction false} LastIsByName(instances: seq<Instance>, k: nat, name: string)
    requires IsInstanceOf(instances, k, name)
    ensures ByName(instances, "system-" + name) == Some(instances[k])
    decreases |instances|
  {
    var n := |instances| - 1;
    if k < n {
      assert instances[n].row.name != "system-" + name;
      LastIsByName(instances[..n], k, name);
    }
  }

  /** Something is wrong with the row: bad health, failed, parked although in sync, or out of sync for too long. */
  predicate InTrouble(r: Row, now: Time, staleAfter: int) {
    || r.health.Unhealthy? || r.health.Unknown? || r.state.Failed?
    || (r.observed >= r.generation && !r.state.Running?)
    || (r.observed < r.generation && now - r.updatedAt > staleAfter)
  }

  /**
   A registered service that must run, whatever the spelling of its registration: a quiet pass that
   finds its instance in trouble leaves it pending, one generation on or more, with a full budget and
   free to be claimed by its owner; one that finds it well leaves it well.
   */
  lemma ServiceIsKeptRunning(s: PassState, p: Pass, i: nat, k: nat, name: string)
    requires WellShaped(p) && !p.listFailed && !p.registryFailed && Quiet(p.flagTurns) && Quiet(p.turns)
    requires Lists(s.table, p.instances)
    requires i < |p.inputs.registrations| && Lower(Trim(p.inputs.registrations[i])) == name && name != ""
    requires MustRun(p.inputs.tiers, name) && IsInstanceOf(p.instances, k, name)
    requires !p.instances[k].row.state.Deleting? && p.instances[k].row.observed <= p.instances[k].row.generation
    requires p.instances[k].row.agent.Some? ==> p.instances[k].row.agent.value !in p.inputs.offline
    ensures var inst := p.instances[k];
      && inst.id in Tick(s, p).table.rows
      && var r := Tick(s, p).table.rows[inst.id].row;
      && (InTrouble(inst.row, p.turns[i].at, p.inputs.options.staleAfter) ==> ReArmed(r, inst.row.agent) && ClaimableByOwner(r))
      && (r == inst.row || ReArmed(r, inst.row.agent))
  {
    var inst := p.instances[k];
    LastIsByName(p.instances, k, name);
    FlaggingLeaves(Swept(s, p), p.instances, p.inputs, p.flagTurns, |p.flagTurns|, inst);
    var f := FlagUpTo(Swept(s, p), p.instances, p.inputs, p.flagTurns, |p.flagTurns|);
    WalkKeeps(f, p.instances, p.inputs, p.turns, |p.turns|, inst);
    if InTrouble(inst.row, p.turns[i].at, p.inputs.options.staleAfter) {
      WalkReArms(f, p.instances, p.inputs, p.turns, i, |p.turns|, inst);
    }
  }

  // ---- left alone --------------------------------------------------------------------------------

  lemma UnsupervisedVisitIsSame(s: PassState, registration: string, instances: seq<Instance>, inputs: Inputs, turn: Turn, name: string)
    requires !MustRun(inputs.tiers, name)
    ensures KeySame(s.memory, Visit(s, registration, instances, inputs, turn).memory, name)
  {
    if ServiceName(registration) != name {
      OtherVisitIsSame(s, registration, instances, inputs, turn, name);
    }
  }

  lemma {:induction false} UnsupervisedWalkIsSame(s: PassState, instances: seq<Instance>, inputs: Inputs, turns: seq<Turn>, n: nat, name: string)
    requires n <= |inputs.registrations| == |turns| && !MustRun(inputs.tiers, name)
    ensures KeySame(s.memory, KeepAliveUpTo(s, instances, inputs, turns, n).memory, name)
    ensures name !in LiveUpTo(inputs, n)
  {
    if n > 0 {
      UnsupervisedWalkIsSame(s, instances, inputs, turns, n - 1, name);
      var d := KeepAliveUpTo(s, instances, inputs, turns, n - 1);
      UnsupervisedVisitIsSame(d, inputs.registrations[n - 1], instances, inputs, turns[n - 1], name);
      SameThen(s.memory, d.memory, Visit(d, inputs.registrations[n - 1], instances, inputs, turns[n - 1]).memory, name);
    }
  }

  /**
   A service declared app tier, and each of the four of the substrate: no pass, whatever runs beside
   it, writes a record or a count about it, and a pass that reaches its end keeps no episode for it.
   */
  lemma NothingIsBookedForOthers(s: PassState, p: Pass, name: string)
    requires WellShaped(p) && !MustRun(p.inputs.tiers, name)
    ensures SilentAbout(s.memory.journal, Tick(s, p).memory.journal, name)
    ensures p.listFailed || p.registryFailed ==> EpisodeOf(Tick(s, p).memory, name) == EpisodeOf(s.memory, name)
    ensures !p.listFailed && !p.registryFailed ==> name !in Tick(s, p).memory.episodes
  {
    HostsAreSame(s, p, name);
    if !p.listFailed && !p.registryFailed {
      var f := FlagUpTo(Swept(s, p), p.instances, p.inputs, p.flagTurns, |p.flagTurns|);
      UnsupervisedWalkIsSame(f, p.instances, p.inputs, p.turns, |p.turns|, name);
      SameThen(s.memory, f.memory, KeepAliveUpTo(f, p.instances, p.inputs, p.turns, |p.turns|).memory, name);
    }
  }

  /** Keep-alive has no business with the instance: its service need not run, it is going away, or its host is offline. */
  predicate Spared(inputs: Inputs, inst: Instance, name: string) {
    || inst.row.state.Deleting? || (inst.row.agent.Some? && inst.row.agent.value in inputs.offline)
    || (inst.row.name == "system-" + name && !MustRun(inputs.tiers, name))
  }

  lemma VisitSpares(s: PassState, registration: string, instances: seq<Instance>, inputs: Inputs, turn: Turn, k: nat, name: string)
    requires turn.before == [] && k < |instances| && Spared(inputs, instances[k], name) && instances[k].id in s.table.rows
    requires forall m :: 0 <= m < |instances| && instances[m].id == instances[k].id ==> m == k
    ensures var t := Visit(s, registration, instances, inputs, turn).table;
      instances[k].id in t.rows && t.rows[instances[k].id] == s.table.rows[instances[k].id]
  {
    var service := ServiceName(registration);
    if ByName(instances, InstanceName(service)).Some? {
      var m := ByNameIsListed(instances, InstanceName(service));
      if m == k {
        assert InstanceName(service)[|"system-"|..] == service && ("system-" + name)[|"system-"|..] == name;
      }
    }
  }

  lemma {:induction false} WalkSpares(s: PassState, instances: seq<Instance>, inputs: Inputs, turns: seq<Turn>, n: nat, k: nat, name: string)
    requires n <= |inputs.registrations| == |turns| && Quiet(turns)
    requires k < |instances| && Spared(inputs, instances[k], name) && instances[k].id in s.table.rows
    requires forall m :: 0 <= m < |instances| && instances[m].id == instances[k].id ==> m == k
    ensures var t := KeepAliveUpTo(s, instances, inputs, turns, n).table;
      instances[k].id in t.rows && t.rows[instances[k].id] == s.table.rows[instances[k].id]
  {
    if n > 0 {
      WalkSpares(s, instances, inputs, turns, n - 1, k, name);
      VisitSpares(KeepAliveUpTo(s, instances, inputs, turns, n - 1), inputs.registrations[n - 1], instances, inputs, turns[n - 1], k, name);
    }
  }

  /**
   The instance of such a service, on a host that is not offline, is left exactly as it was by a quiet
   pass, however bad its health; so is any instance being torn down.
   */
  lemma RowIsLeftAlone(s: PassState, p: Pass, k: nat, name: string)
    requires WellShaped(p) && Quiet(p.flagTurns) && Quiet(p.turns) && Lists(s.table, p.instances)
    requires k < |p.instances|
    requires p.instances[k].row.state.Deleting?
      || (p.instances[k].row.name == "system-" + name && !MustRun(p.inputs.tiers, name)
          && (p.instances[k].row.agent.Some? ==> p.instances[k].row.agent.value !in p.inputs.offline))
    ensures var id := p.instances[k].id;
      id in Tick(s, p).table.rows && Tick(s, p).table.rows[id] == s.table.rows[id]
  {
    FlaggingSpares(Swept(s, p), p.instances, p.inputs, p.flagTurns, |p.flagTurns|, k);
    if !p.listFailed && !p.registryFailed {
      var f := FlagUpTo(Swept(s, p), p.instances, p.inputs, p.flagTurns, |p.flagTurns|);
      WalkSpares(f, p.instances, p.inputs, p.turns, |p.turns|, k, name);
    }
  }

  lemma {:induction false} FlaggingSpares(s: PassState, instances: seq<Instance>, inputs: Inputs, turns: seq<Turn>, i: nat, k: nat)
    requires i <= |instances| == |turns| && Quiet(turns) && k < |instances| && instances[k].id in s.table.rows
    requires forall m :: 0 <= m < |instances| && instances[m].id == instances[k].id ==> m == k
    requires i <= k || instances[k].row.state.Deleting? || (instances[k].row.agent.Some? ==> instances[k].row.agent.value !in inputs.offline)
    ensures var t := FlagUpTo(s, instances, inputs, turns, i).table;
      instances[k].id in t.rows && t.rows[instances[k].id] == s.table.rows[instances[k].id]
  {
    if i > 0 {
      FlaggingSpares(s, instances, inputs, turns, i - 1, k);
    }
  }

  // ---- torn down ---------------------------------------------------------------------------------

  lemma TornDownVisit(s: PassState, registration: string, instances: seq<Instance>, inputs: Inputs, turn: Turn, k: nat, name: string)
    requires IsInstanceOf(instances, k, name) && instances[k].row.state == Deleting
    requires name != "" && MustRun(inputs.tiers, name)
    requires Lower(Trim(registration)) == name || EpisodeOf(s.memory, name) == NO_EPISODE
    ensures EpisodeOf(Visit(s, registration, instances, inputs, turn).memory, name) == NO_EPISODE
  {
    LastIsByName(instances, k, name);
    if Lower(Trim(registration)) != name {
      OtherVisitIsSame(s, registration, instances, inputs, turn, name);
    }
  }

  lemma {:induction false} TornDownWalk(s: PassState, instances: seq<Instance>, inputs: Inputs, turns: seq<Turn>, i: nat, n: nat, k: nat, name: string)
    requires i < n <= |inputs.registrations| == |turns| && Lower(Trim(inputs.registrations[i])) == name && name != ""
    requires MustRun(inputs.tiers, name) && IsInstanceOf(instances, k, name) && instances[k].row.state == Deleting
    ensures EpisodeOf(KeepAliveUpTo(s, instances, inputs, turns, n).memory, name) == NO_EPISODE
    decreases n
  {
    if i < n - 1 {
      TornDownWalk(s, instances, inputs, turns, i, n - 1, k, name);
    }
    TornDownVisit(KeepAliveUpTo(s, instances, inputs, turns, n - 1), inputs.registrations[n - 1], instances, inputs, turns[n - 1], k, name);
  }

  /** A pass that sees a service's instance being torn down forgets its episode, so a later instance starts afresh. */
  lemma TornDownIsForgotten(s: PassState, p: Pass, i: nat, k: nat, name: string)
    requires WellShaped(p) && !p.listFailed && !p.registryFailed
    requires i < |p.inputs.registrations| && Lower(Trim(p.inputs.registrations[i])) == name && name != ""
    requires MustRun(p.inputs.tiers, name) && IsInstanceOf(p.instances, k, name) && p.instances[k].row.state == Deleting
    ensures EpisodeOf(Tick(s, p).memory, name) == Episode(false, 0, false)
  {
    var f := FlagUpTo(Swept(s, p), p.instances, p.inputs, p.flagTurns, |p.flagTurns|);
    TornDownWalk(f, p.instances, p.inputs, p.turns, i, |p.turns|, k, name);
  }

  // ---- stranded ----------------------------------------------------------------------------------

  lemma {:induction false} FlaggingFlags(s: PassState, instances: seq<Instance>, inputs: Inputs, turns: seq<Turn>, i: nat, k: nat)
    requires k < i <= |instances| == |turns| && Quiet(turns) && instances[k].id in s.table.rows
    requires forall m :: 0 <= m < |instances| && instances[m].id == instances[k].id ==> m == k
    requires !instances[k].row.state.Deleting? && instances[k].row.agent.Some? && instances[k].row.agent.value in inputs.offline
    ensures var t := FlagUpTo(s, instances, inputs, turns, i).table;
      instances[k].id in t.rows && t.rows[instances[k].id] == CellStep(s.table.rows[instances[k].id], turns[k].at, FlagUnreachable)
    decreases i
  {
    if k == i - 1 {
      FlaggingSpares(s, instances, inputs, turns, i - 1, k);
    } else {
      FlaggingFlags(s, instances, inputs, turns, i - 1, k);
    }
  }

  /**
   Every listed instance on an offline host and not being torn down ends a quiet pass flagged; one newly
   flagged has unknown health.  Nothing else about it changes: it is not re-dispatched and keeps its owner.
   */
  lemma StrandedAreFlagged(s: PassState, p: Pass, k: nat)
    requires WellShaped(p) && !p.listFailed && Quiet(p.flagTurns) && Quiet(p.turns) && Lists(s.table, p.instances)
    requires k < |p.instances| && !p.instances[k].row.state.Deleting?
    requires p.instances[k].row.agent.Some? && p.instances[k].row.agent.value in p.inputs.offline
    ensures p.instances[k].id in Tick(s, p).table.rows
    ensures var before, r := p.instances[k].row, Tick(s, p).table.rows[p.instances[k].id].row;
      && r.status.hostUnreachable && (!before.status.hostUnreachable ==> r.health.Unknown?)
      && (before.status.hostUnreachable ==> r == before)
      && r.state == before.state && r.generation == before.generation && r.observed == before.observed && r.agent == before.agent
      && r.spec == before.spec && r.leasedUntil == before.leasedUntil && r.attempts == before.attempts
  {
    FlaggingFlags(Swept(s, p), p.instances, p.inputs, p.flagTurns, |p.flagTurns|, k);
    if !p.registryFailed {
      var f := FlagUpTo(Swept(s, p), p.instances, p.inputs, p.flagTurns, |p.flagTurns|);
      WalkSpares(f, p.instances, p.inputs, p.turns, |p.turns|, k, "");
    }
  }
}
