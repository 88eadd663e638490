/**
 The availability loop: sweep agent liveness, flag system workloads stranded on offline hosts, keep
 system services alive.  A pass reads a snapshot and then issues its statements one by one, so each
 turn of a loop carries the other callers' statements that ran before it, the time it happens, and
 whether its own statement met a storage error.
 */
module Supervision {
  import opened Basics
  import opened Backoff
  import opened Rows
  import opened Table
  import opened Text
  import Agents

  datatype Options = Options(interval: int, offlineAfter: int, staleAfter: int, escalateAfter: int)

  /** Non-positive settings fall back to the documented defaults. */
  function WithDefaults(o: Options): (r: Options)
    ensures r.interval > 0 && r.offlineAfter > 0 && r.staleAfter > 0 && r.escalateAfter >= 1
    ensures (o.interval > 0 ==> r.interval == o.interval) && (o.offlineAfter > 0 ==> r.offlineAfter == o.offlineAfter)
    ensures (o.staleAfter > 0 ==> r.staleAfter == o.staleAfter) && (o.escalateAfter >= 1 ==> r.escalateAfter == o.escalateAfter)
    ensures (o.interval <= 0 ==> r.interval == 15_000_000_000) && (o.offlineAfter <= 0 ==> r.offlineAfter == 90_000_000_000)
    ensures (o.staleAfter <= 0 ==> r.staleAfter == 300_000_000_000) && (o.escalateAfter < 1 ==> r.escalateAfter == 5)
  {
    Options(if o.interval <= 0 then 15 * SECOND else o.interval,
            if o.offlineAfter <= 0 then 90 * SECOND else o.offlineAfter,
            if o.staleAfter <= 0 then 300 * SECOND else o.staleAfter,
            if o.escalateAfter < 1 then 5 else o.escalateAfter)
  }

  // ---- episodes ----------------------------------------------------------------------------------

  datatype Episode = Episode(missing: bool, redispatches: nat, escalated: bool)

  const NO_EPISODE: Episode := Episode(false, 0, false)

  datatype Record =
    | AgentOffline(agent: AgentId)
    | HostUnreachable(id: Id)
    | InstanceMissing(key: string)
    | Escalated(key: string)
    | Recovered(key: string)

  /** What happened to the episodes, oldest first: the records attempted and the bookkeeping between them. */
  datatype Note =
    | Retried(key: string)
    | Reset(key: string)
    | Dropped(key: string)
    | Pruned(live: set<string>)
    | Emitted(record: Record)

  datatype Memory = Memory(episodes: map<string, Episode>, journal: seq<Note>)

  function EpisodeOf(m: Memory, key: string): Episode {
    if key in m.episodes then m.episodes[key] else NO_EPISODE
  }

  function AfterRedispatch(m: Memory, key: string, escalateAfter: int): Memory {
    var ep := EpisodeOf(m, key);
    var count := ep.redispatches + 1;
    var escalate := count > escalateAfter && !ep.escalated;
    Memory(m.episodes[key := ep.(redispatches := count, escalated := ep.escalated || escalate)],
           m.journal + [Retried(key)] + (if escalate then [Emitted(Escalated(key))] else []))
  }

  function AfterRecovery(m: Memory, key: string): Memory {
    if key !in m.episodes then m
    else
      var ep := m.episodes[key];
      Memory(m.episodes[key := ep.(redispatches := 0, escalated := false)],
             m.journal + [Reset(key)] + (if ep.escalated then [Emitted(Recovered(key))] else []))
  }

  function AfterMissing(m: Memory, key: string): Memory {
    var ep := EpisodeOf(m, key);
    Memory(m.episodes[key := ep.(missing := true)],
           m.journal + (if ep.missing then [] else [Emitted(InstanceMissing(key))]))
  }

  function AfterFound(m: Memory, key: string): Memory {
    if key in m.episodes then m.(episodes := m.episodes[key := m.episodes[key].(missing := false)]) else m
  }

  function AfterForget(m: Memory, key: string): Memory {
    Memory(m.episodes - {key}, m.journal + [Dropped(key)])
  }

  function AfterPrune(m: Memory, live: set<string>): Memory {
    Memory(map k | k in m.episodes && k in live :: m.episodes[k], m.journal + [Pruned(live)])
  }

  // ---- decisions ---------------------------------------------------------------------------------

  datatype Instance = Instance(id: Id, row: Row)

  predicate Converged(r: Row) { r.observed >= r.generation }

  /** Whether, and it does not matter why, an instance needs re-dispatching. */
  predicate NeedsRedispatch(r: Row, now: Time, staleAfter: int) {
    if r.health.Unhealthy? || r.health.Unknown? || r.state.Failed? then true
    else if r.state.Running? && Converged(r) then false
    else if Converged(r) then true
    else now - r.updatedAt > staleAfter
  }

  predicate Supervises(tiers: map<string, bool>, name: string) {
    if name == "core" || name == "agent" || name == "docker" || name == "runtime" then false
    else if name in tiers then tiers[name]
    else true
  }

  function ServiceName(registration: string): string { Lower(Trim(registration)) }

  function InstanceName(service: string): string { "system-" + service }

  /** The instance keep-alive looks at for a name: the last one listed. */
  function ByName(instances: seq<Instance>, name: string): Option<Instance>
    decreases |instances|
  {
    if instances == [] then None
    else
      var last := instances[|instances| - 1];
      if last.row.name == name then Some(last) else ByName(instances[..|instances| - 1], name)
  }

  // ---- one pass ----------------------------------------------------------------------------------

  datatype Turn = Turn(before: seq<Stamped>, at: Time, failed: bool)

  /** What a pass read before its loops: the offline hosts, the registry, the catalog's tiers. */
  datatype Inputs = Inputs(
    options: Options,
    tiers: map<string, bool>,
    offline: set<AgentId>,
    registrations: seq<string>)

  datatype PassState = PassState(table: System, memory: Memory)

  predicate OnOfflineHost(r: Row, offline: set<AgentId>) { r.agent.Some? && r.agent.value in offline }

  /** The re-dispatch statement met no error and matched a row. */
  predicate RedispatchTakes(table: System, id: Id, failed: bool) {
    !failed && id in table.rows && Redispatchable(table.rows[id].row)
  }

  function RedispatchOne(s: PassState, key: string, id: Id, turn: Turn, escalateAfter: int): PassState {
    if RedispatchTakes(s.table, id, turn.failed) then
      PassState(Step(s.table, turn.at, OnRow(id, Redispatch)), AfterRedispatch(s.memory, key, escalateAfter))
    else s
  }

  /** Keep-alive's decision for one supervised instance. */
  function Attend(s: PassState, key: string, inst: Instance, inputs: Inputs, turn: Turn): PassState {
    var found := s.(memory := AfterFound(s.memory, key));
    if inst.row.state.Deleting? then found.(memory := AfterForget(found.memory, key))
    else if OnOfflineHost(inst.row, inputs.offline) then found
    else if !NeedsRedispatch(inst.row, turn.at, inputs.options.staleAfter) then
      found.(memory := AfterRecovery(found.memory, key))
    else RedispatchOne(found, key, inst.id, turn, inputs.options.escalateAfter)
  }

  /** Keep-alive's turn for one registration. */
  function Visit(s: PassState, registration: string, instances: seq<Instance>, inputs: Inputs, turn: Turn): PassState {
    var s' := s.(table := RunTable(s.table, turn.before));
    var name := ServiceName(registration);
    if name == "" || !Supervises(inputs.tiers, name) then s'
    else
      match ByName(instances, InstanceName(name))
      case None => s'.(memory := AfterMissing(s'.memory, name))
      case Some(inst) => Attend(s', name, inst, inputs, turn)
  }

  function KeepAliveUpTo(s: PassState, instances: seq<Instance>, inputs: Inputs, turns: seq<Turn>, i: nat): PassState
    requires i <= |inputs.registrations| == |turns|
  {
    if i == 0 then s
    else Visit(KeepAliveUpTo(s, instances, inputs, turns, i - 1), inputs.registrations[i - 1], instances, inputs, turns[i - 1])
  }

  /** The episode keys a pass keeps. */
  function LiveUpTo(inputs: Inputs, i: nat): set<string>
    requires i <= |inputs.registrations|
  {
    if i == 0 then {}
    else
      var name := ServiceName(inputs.registrations[i - 1]);
      LiveUpTo(inputs, i - 1) + (if name != "" && Supervises(inputs.tiers, name) then {name} else {})
  }

  function LiveKeys(inputs: Inputs): set<string> { LiveUpTo(inputs, |inputs.registrations|) }

  function KeepAlive(s: PassState, instances: seq<Instance>, inputs: Inputs, turns: seq<Turn>): PassState
    requires |inputs.registrations| == |turns|
  {
    var done := KeepAliveUpTo(s, instances, inputs, turns, |turns|);
    done.(memory := AfterPrune(done.memory, LiveKeys(inputs)))
  }

  /** One stranded instance: the flag statement runs, and a record follows only if it matched. */
  function FlagOne(s: PassState, inst: Instance, inputs: Inputs, turn: Turn): PassState {
    var s' := s.(table := RunTable(s.table, turn.before));
    if inst.row.state.Deleting? || !OnOfflineHost(inst.row, inputs.offline)
       || turn.failed || inst.id !in s'.table.rows then s'
    else
      var flagged := Flaggable(s'.table.rows[inst.id].row);
      PassState(Step(s'.table, turn.at, OnRow(inst.id, FlagUnreachable)),
                s'.memory.(journal := s'.memory.journal + (if flagged then [Emitted(HostUnreachable(inst.id))] else [])))
  }

  function FlagUpTo(s: PassState, instances: seq<Instance>, inputs: Inputs, turns: seq<Turn>, i: nat): PassState
    requires i <= |instances| == |turns|
  {
    if i == 0 then s
    else FlagOne(FlagUpTo(s, instances, inputs, turns, i - 1), instances[i - 1], inputs, turns[i - 1])
  }

  /** A turn is possible: the other callers' statements could run, and time has moved on since. */
  predicate TurnCan(table: System, turn: Turn) {
    ValidTable(table, turn.before) && RunTable(table, turn.before).now < turn.at
  }

  predicate KeepAliveCan(s: PassState, instances: seq<Instance>, inputs: Inputs, turns: seq<Turn>, i: nat)
    requires i <= |inputs.registrations| == |turns|
  {
    i == 0 ||
    (&& KeepAliveCan(s, instances, inputs, turns, i - 1)
     && TurnCan(KeepAliveUpTo(s, instances, inputs, turns, i - 1).table, turns[i - 1]))
  }

  predicate FlagCan(s: PassState, instances: seq<Instance>, inputs: Inputs, turns: seq<Turn>, i: nat)
    requires i <= |instances| == |turns|
  {
    i == 0 ||
    (&& FlagCan(s, instances, inputs, turns, i - 1)
     && TurnCan(FlagUpTo(s, instances, inputs, turns, i - 1).table, turns[i - 1]))
  }

  lemma {:induction false} KeepAliveCanPrefix(s: PassState, instances: seq<Instance>, inputs: Inputs, turns: seq<Turn>, i: nat, n: nat)
    requires i <= n <= |inputs.registrations| == |turns|
    requires KeepAliveCan(s, instances, inputs, turns, n)
    ensures KeepAliveCan(s, instances, inputs, turns, i)
    decreases n
  {
    if i < n {
      KeepAliveCanPrefix(s, instances, inputs, turns, i, n - 1);
    }
  }

  /** Each turn of a possible pass is possible when it comes. */
  lemma TurnComes(s: PassState, instances: seq<Instance>, inputs: Inputs, turns: seq<Turn>, i: nat)
    requires i < |inputs.registrations| == |turns| && KeepAliveCan(s, instances, inputs, turns, |turns|)
    ensures TurnCan(KeepAliveUpTo(s, instances, inputs, turns, i).table, turns[i])
  {
    KeepAliveCanPrefix(s, instances, inputs, turns, i + 1, |turns|);
  }

  lemma {:induction false} FlagCanPrefix(s: PassState, instances: seq<Instance>, inputs: Inputs, turns: seq<Turn>, i: nat, n: nat)
    requires i <= n <= |instances| == |turns|
    requires FlagCan(s, instances, inputs, turns, n)
    ensures FlagCan(s, instances, inputs, turns, i)
    decreases n
  {
    if i < n {
      FlagCanPrefix(s, instances, inputs, turns, i, n - 1);
    }
  }

  /** The offline records of a sweep, one per agent it moved, in the order the database returned them. */
  function Announced(m: Memory, moved: seq<AgentId>): Memory {
    m.(journal := m.journal + seq(|moved|, i requires 0 <= i < |moved| => Emitted(AgentOffline(moved[i]))))
  }

  /** One supervision pass: what its sweep moved, what its reads returned or that they failed, and its turns. */
  datatype Pass = Pass(
    moved: seq<AgentId>,
    listFailed: bool,
    registryFailed: bool,
    instances: seq<Instance>,
    inputs: Inputs,
    flagTurns: seq<Turn>,
    turns: seq<Turn>)

  predicate WellShaped(p: Pass) {
    |p.flagTurns| == |p.instances| && |p.turns| == |p.inputs.registrations|
  }

  function Swept(s: PassState, p: Pass): PassState { s.(memory := Announced(s.memory, p.moved)) }

  function Tick(s: PassState, p: Pass): PassState
    requires WellShaped(p)
  {
    var swept := Swept(s, p);
    if p.listFailed then swept
    else
      var flagged := FlagUpTo(swept, p.instances, p.inputs, p.flagTurns, |p.flagTurns|);
      if p.registryFailed then flagged else KeepAlive(flagged, p.instances, p.inputs, p.turns)
  }

  predicate TickCan(s: PassState, p: Pass)
    requires WellShaped(p)
  {
    p.listFailed ||
    (&& FlagCan(Swept(s, p), p.instances, p.inputs, p.flagTurns, |p.flagTurns|)
     && (p.registryFailed
         || KeepAliveCan(FlagUpTo(Swept(s, p), p.instances, p.inputs, p.flagTurns, |p.flagTurns|), p.instances, p.inputs, p.turns, |p.turns|)))
  }

  // ---- the loop in place -------------------------------------------------------------------------

  class Supervisor {
    const table: ResourceTable
    var episodes: map<string, Episode>
    var journal: seq<Note>

    constructor (table: ResourceTable)
      ensures this.table == table && Mem() == Memory(map[], [])
    {
      this.table := table;
      episodes, journal := map[], [];
    }

    ghost function Mem(): Memory
      reads this
    {
      Memory(episodes, journal)
    }

    ghost function Whole(): PassState
      reads this, table
    {
      PassState(table.Contents(), Mem())
    }

    method Emit(r: Record)
      modifies this
      ensures episodes == old(episodes) && journal == old(journal) + [Emitted(r)]
    {
      journal := journal + [Emitted(r)];
    }

    method DoRedispatch(key: string, inst: Instance, turn: Turn, escalateAfter: int)
      requires table.now < turn.at
      modifies this, table
      ensures Whole() == RedispatchOne(old(Whole()), key, inst.id, turn, escalateAfter)
    {
      if turn.failed || inst.id !in table.rows || table.rows[inst.id].row.state.Deleting? {
        return;
      }
      if !Live(table.rows[inst.id].row) {
        return;
      }
      var changed := table.Execute(turn.at, inst.id, Redispatch);
      var ep := if key in episodes then episodes[key] else NO_EPISODE;
      var count := ep.redispatches + 1;
      var escalate := count > escalateAfter && !ep.escalated;
      episodes := episodes[key := ep.(redispatches := count, escalated := ep.escalated || escalate)];
      journal := journal + [Retried(key)];
      if escalate {
        Emit(Escalated(key));
      }
    }

    method NoteRecovered(key: string)
      modifies this
      ensures Mem() == AfterRecovery(old(Mem()), key)
    {
      if key in episodes {
        var ep := episodes[key];
        episodes := episodes[key := ep.(redispatches := 0, escalated := false)];
        journal := journal + [Reset(key)];
        if ep.escalated {
          Emit(Recovered(key));
        }
      }
    }

    method ReportMissingInstance(key: string)
      modifies this
      ensures Mem() == AfterMissing(old(Mem()), key)
    {
      var ep := if key in episodes then episodes[key] else NO_EPISODE;
      var first := !ep.missing;
      episodes := episodes[key := ep.(missing := true)];
      if first {
        Emit(InstanceMissing(key));
      }
    }

    method ClearMissing(key: string)
      modifies this
      ensures Mem() == AfterFound(old(Mem()), key)
    {
      if key in episodes {
        episodes := episodes[key := episodes[key].(missing := false)];
      }
    }

    method Forget(key: string)
      modifies this
      ensures Mem() == AfterForget(old(Mem()), key)
    {
      episodes, journal := episodes - {key}, journal + [Dropped(key)];
    }

    method Prune(live: set<string>)
      modifies this
      ensures Mem() == AfterPrune(old(Mem()), live)
    {
      episodes := map k | k in episodes && k in live :: episodes[k];
      journal := journal + [Pruned(live)];
    }

    /** Builds the name index in list order, so a later instance of the same name replaces an earlier one. */
    method IndexByName(instances: seq<Instance>) returns (index: map<string, Instance>)
      ensures forall name :: name in index <==> ByName(instances, name).Some?
      ensures forall name :: name in index ==> ByName(instances, name) == Some(index[name])
    {
      index := map[];
      for i := 0 to |instances|
        invariant forall name :: name in index <==> ByName(instances[..i], name).Some?
        invariant forall name :: name in index ==> ByName(instances[..i], name) == Some(index[name])
      {
        assert instances[..i + 1][..i] == instances[..i];
        index := index[instances[i].row.name := instances[i]];
      }
      assert instances[..|instances|] == instances;
    }

    method AttendTo(key: string, inst: Instance, inputs: Inputs, turn: Turn)
      requires table.now < turn.at
      modifies this, table
      ensures Whole() == Attend(old(Whole()), key, inst, inputs, turn)
    {
      ClearMissing(key);
      if inst.row.state.Deleting? {
        Forget(key);
      } else if inst.row.agent.Some? && inst.row.agent.value in inputs.offline {
        return;
      } else if !NeedsRedispatch(inst.row, turn.at, inputs.options.staleAfter) {
        NoteRecovered(key);
      } else {
        DoRedispatch(key, inst, turn, inputs.options.escalateAfter);
      }
    }

    /** One registration's turn, with the name index at hand. */
    method VisitService(registration: string, index: map<string, Instance>, ghost instances: seq<Instance>, inputs: Inputs, turn: Turn)
      requires TurnCan(table.Contents(), turn)
      requires forall name :: name in index <==> ByName(instances, name).Some?
      requires forall name :: name in index ==> ByName(instances, name) == Some(index[name])
      modifies this, table
      ensures Whole() == Visit(old(Whole()), registration, instances, inputs, turn)
    {
      table.Interfere(turn.before);
      var name := ServiceName(registration);
      if name == "" || !Supervises(inputs.tiers, name) {
        return;
      }
      if InstanceName(name) in index {
        AttendTo(name, index[InstanceName(name)], inputs, turn);
      } else {
        ReportMissingInstance(name);
      }
    }

    method KeepSystemServicesAlive(instances: seq<Instance>, inputs: Inputs, turns: seq<Turn>)
      requires |inputs.registrations| == |turns|
      requires KeepAliveCan(Whole(), instances, inputs, turns, |turns|)
      modifies this, table
      ensures Whole() == KeepAlive(old(Whole()), instances, inputs, turns)
    {
      ghost var s := Whole();
      var index := IndexByName(instances);
      var live := {};
      for i := 0 to |inputs.registrations|
        invariant Whole() == KeepAliveUpTo(s, instances, inputs, turns, i)
        invariant live == LiveUpTo(inputs, i)
      {
        TurnComes(s, instances, inputs, turns, i);
        VisitService(inputs.registrations[i], index, instances, inputs, turns[i]);
        var name := ServiceName(inputs.registrations[i]);
        if name != "" && Supervises(inputs.tiers, name) {
          live := live + {name};
        }
      }
      Prune(live);
    }

    method FlagInstance(inst: Instance, inputs: Inputs, turn: Turn)
      requires TurnCan(table.Contents(), turn)
      modifies this, table
      ensures Whole() == FlagOne(old(Whole()), inst, inputs, turn)
    {
      table.Interfere(turn.before);
      if inst.row.state.Deleting? || !OnOfflineHost(inst.row, inputs.offline) {
        return;
      }
      if turn.failed || inst.id !in table.rows {
        return;
      }
      var flagged := table.Execute(turn.at, inst.id, FlagUnreachable);
      if flagged {
        Emit(HostUnreachable(inst.id));
      }
    }

    method FlagStranded(instances: seq<Instance>, inputs: Inputs, turns: seq<Turn>)
      requires |instances| == |turns|
      requires FlagCan(Whole(), instances, inputs, turns, |turns|)
      modifies this, table
      ensures Whole() == FlagUpTo(old(Whole()), instances, inputs, turns, |turns|)
    {
      for i := 0 to |instances|
        invariant Whole() == FlagUpTo(old(Whole()), instances, inputs, turns, i)
      {
        FlagCanPrefix(old(Whole()), instances, inputs, turns, i + 1, |turns|);
        FlagInstance(instances[i], inputs, turns[i]);
      }
    }

    /**
     Marks silent agents offline, writes one record for each row the statement returned, and yields the
     standing offline set; a failed read yields the empty one.
     */
    method SweepAgents(agents: Agents.AgentTable, t: Time, threshold: int, sweepFailed: bool, listFailed: bool, returned: seq<AgentId>)
      returns (offline: set<AgentId>)
      requires threshold > 0 && Returns(returned, agents.agents, t, threshold, sweepFailed)
      modifies this, agents
      ensures Mem() == Announced(old(Mem()), returned)
      ensures agents.agents == AfterSweep(old(agents.agents), t, threshold, sweepFailed)
      ensures offline == if listFailed then {} else OfflineIn(agents.agents)
    {
      if !sweepFailed {
        var swept := agents.SweepOffline(t, threshold);
      }
      for i := 0 to |returned|
        invariant agents.agents == AfterSweep(old(agents.agents), t, threshold, sweepFailed)
        invariant Mem() == Announced(old(Mem()), returned[..i])
      {
        Emit(AgentOffline(returned[i]));
        AnnouncedOneMore(old(Mem()), returned, i);
      }
      assert returned[..|returned|] == returned;
      offline := {};
      if !listFailed {
        offline := agents.ListOffline();
      }
    }

    /** A whole pass: the sweep, then stranded instances, then keep-alive, each over what the reads returned. */
    method RunPass(agents: Agents.AgentTable, t: Time, p: Pass, sweepFailed: bool, offlineFailed: bool)
      requires WellShaped(p) && TickCan(Whole(), p) && p.inputs.options.offlineAfter > 0
      requires Returns(p.moved, agents.agents, t, p.inputs.options.offlineAfter, sweepFailed)
      requires p.inputs.offline ==
        if offlineFailed then {} else OfflineIn(AfterSweep(agents.agents, t, p.inputs.options.offlineAfter, sweepFailed))
      modifies this, table, agents
      ensures Whole() == Tick(old(Whole()), p)
      ensures agents.agents == AfterSweep(old(agents.agents), t, p.inputs.options.offlineAfter, sweepFailed)
    {
      var offline := SweepAgents(agents, t, p.inputs.options.offlineAfter, sweepFailed, offlineFailed, p.moved);
      assert offline == p.inputs.offline;
      if p.listFailed {
        return;
      }
      FlagStranded(p.instances, p.inputs, p.flagTurns);
      if !p.registryFailed {
        KeepSystemServicesAlive(p.instances, p.inputs, p.turns);
      }
    }
  }

  function AfterSweep(agents: map<AgentId, Agents.AgentCell>, t: Time, threshold: int, failed: bool): map<AgentId, Agents.AgentCell> {
    if failed then agents else map id | id in agents :: Agents.AgentStep(agents[id], t, Agents.Sweep(threshold))
  }

  function OfflineIn(agents: map<AgentId, Agents.AgentCell>): set<AgentId> {
    set id | id in agents && Agents.AgentLive(agents[id].row) && agents[id].row.status.Offline?
  }

  /** The rows a sweep returns: each agent it moves once, in some order; none if it fails. */
  predicate Returns(returned: seq<AgentId>, agents: map<AgentId, Agents.AgentCell>, t: Time, threshold: int, failed: bool) {
    && (forall i, j :: 0 <= i < j < |returned| ==> returned[i] != returned[j])
    && (forall id :: id in returned ==> id in agents && !failed)
    && (forall id :: id in agents ==>
          (id in returned <==> |AfterSweep(agents, t, threshold, failed)[id].hist| > |agents[id].hist|))
  }

  lemma AnnouncedOneMore(m: Memory, moved: seq<AgentId>, i: nat)
    requires i < |moved|
    ensures Announced(m, moved[..i + 1]).journal == Announced(m, moved[..i]).journal + [Emitted(AgentOffline(moved[i]))]
  {
  }
}
