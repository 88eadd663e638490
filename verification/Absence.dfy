/**
 One record per absence: over any passes of one process, a service's missing instance is recorded when
 it is first found missing, and again only after it was found, forgotten or no longer supervised.
 */
module Absence {
  import opened Basics
  import opened Rows
  import opened Table
  import opened Text
  import opened Supervision
  import opened Escalation
  import opened Accounts
  import opened Catalog

  /** What a pass learns about a service. */
  datatype Sight = Blind | Unwatched | Present | Missing

  predicate Registered(inputs: Inputs, i: nat, name: string)
    requires i <= |inputs.registrations|
  {
    exists j :: 0 <= j < i && Lower(Trim(inputs.registrations[j])) == name
  }

  predicate Listed(instances: seq<Instance>, name: string) {
    exists k :: 0 <= k < |instances| && instances[k].row.name == "system-" + name
  }

  /** Nothing when a read failed; otherwise whether the service is to be watched, and whether it has an instance. */
  function SightOf(p: Pass, name: string): Sight {
    if p.listFailed || p.registryFailed then Blind
    else if name == "" || !MustRun(p.inputs.tiers, name) || !Registered(p.inputs, |p.inputs.registrations|, name) then Unwatched
    else if Listed(p.instances, name) then Present
    else Missing
  }

  /** How many absences the sightings show, and whether one is going on at the end. */
  function Onsets(sights: seq<Sight>, missing: bool): (nat, bool)
    decreases |sights|
  {
    if sights == [] then (0, missing)
    else
      var n := |sights| - 1;
      var (count, before) := Onsets(sights[..n], missing);
      match sights[n]
      case Blind => (count, before)
      case Unwatched => (count, false)
      case Present => (count, false)
      case Missing => (if before then count else count + 1, true)
  }

  // ---- one turn ----------------------------------------------------------------------------------

  lemma {:induction false} ListedIff(instances: seq<Instance>, name: string)
    ensures Listed(instances, name) <==> ByName(instances, "system-" + name).Some?
    decreases |instances|
  {
    if instances != [] {
      var n := |instances| - 1;
      ListedIff(instances[..n], name);
      if Listed(instances, name) && instances[n].row.name != "system-" + name {
        var k :| 0 <= k < |instances| && instances[k].row.name == "system-" + name;
        assert instances[..n][k].row.name == "system-" + name;
      }
    }
  }

  /** No record of an absence is written, and none is on the account afterwards. */
  predicate SeenBy(m: Memory, m': Memory, name: string) {
    Absences(m'.journal, name) == Absences(m.journal, name) && !EpisodeOf(m', name).missing
  }

  /** What the account says after a stretch of the walk that may have come by the service. */
  predicate Recorded(m: Memory, m': Memory, name: string, met: bool, listed: bool) {
    if !met then KeySame(m, m', name)
    else if listed then SeenBy(m, m', name)
    else
      && EpisodeOf(m', name).missing
      && Absences(m'.journal, name) == Absences(m.journal, name) + (if EpisodeOf(m, name).missing then 0 else 1)
  }

  lemma AttendSees(s: PassState, name: string, inst: Instance, inputs: Inputs, turn: Turn)
    ensures SeenBy(s.memory, Attend(s, name, inst, inputs, turn).memory, name)
  {
    var extra := AttendWrites(s, name, inst, inputs, turn);
    CountAppend(s.memory.journal, extra, Emitted(InstanceMissing(name)));
    var m' := AttendMemory(s, name, inst, inputs, turn);
  }

  /** The service's own turn: a missing instance is recorded unless it already was. */
  lemma OwnTurn(s: PassState, registration: string, instances: seq<Instance>, inputs: Inputs, turn: Turn, name: string)
    requires Lower(Trim(registration)) == name && name != "" && MustRun(inputs.tiers, name)
    ensures Recorded(s.memory, Visit(s, registration, instances, inputs, turn).memory, name, true, Listed(instances, name))
  {
    ListedIff(instances, name);
    if Listed(instances, name) {
      AttendSees(s.(table := RunTable(s.table, turn.before)), name, ByName(instances, "system-" + name).value, inputs, turn);
    } else {
      OwnAbsence(s.memory, name);
    }
  }

  lemma OwnAbsence(m: Memory, name: string)
    ensures Recorded(m, AfterMissing(m, name), name, true, false)
  {
    var j := m.journal;
    if EpisodeOf(m, name).missing {
      assert AfterMissing(m, name).journal == j;
    } else {
      assert (j + [Emitted(InstanceMissing(name))])[..|j|] == j;
    }
  }

  // ---- one pass ----------------------------------------------------------------------------------

  lemma RecordedThen(m: Memory, m1: Memory, m2: Memory, name: string, met: bool, listed: bool)
    requires Recorded(m, m1, name, met, listed)
    ensures KeySame(m1, m2, name) ==> Recorded(m, m2, name, met, listed)
    ensures Recorded(m1, m2, name, true, listed) ==> Recorded(m, m2, name, true, listed)
  {
    if !met {
      SameCounts(m, m1, name);
    }
    if KeySame(m1, m2, name) {
      SameCounts(m1, m2, name);
      if !met {
        SameThen(m, m1, m2, name);
      }
    }
  }

  lemma VisitRecords(m: Memory, s: PassState, registration: string, instances: seq<Instance>, inputs: Inputs, turn: Turn, name: string, met: bool)
    requires name != "" && MustRun(inputs.tiers, name) && Recorded(m, s.memory, name, met, Listed(instances, name))
    ensures Recorded(m, Visit(s, registration, instances, inputs, turn).memory, name,
                     met || Lower(Trim(registration)) == name, Listed(instances, name))
  {
    RecordedThen(m, s.memory, Visit(s, registration, instances, inputs, turn).memory, name, met, Listed(instances, name));
    if Lower(Trim(registration)) == name {
      OwnTurn(s, registration, instances, inputs, turn, name);
    } else {
      OtherVisitIsSame(s, registration, instances, inputs, turn, name);
    }
  }

  lemma OneMoreRegistered(inputs: Inputs, i: nat, name: string)
    requires i < |inputs.registrations|
    ensures Registered(inputs, i + 1, name) <==> Registered(inputs, i, name) || Lower(Trim(inputs.registrations[i])) == name
  {
  }

  lemma {:induction false} WalkRecords(s: PassState, instances: seq<Instance>, inputs: Inputs, turns: seq<Turn>, n: nat, name: string)
    requires n <= |inputs.registrations| == |turns| && name != "" && MustRun(inputs.tiers, name)
    ensures Recorded(s.memory, KeepAliveUpTo(s, instances, inputs, turns, n).memory, name, Registered(inputs, n, name), Listed(instances, name))
  {
    if n > 0 {
      var i := n - 1;
      WalkRecords(s, instances, inputs, turns, i, name);
      OneMoreRegistered(inputs, i, name);
      VisitRecords(s.memory, KeepAliveUpTo(s, instances, inputs, turns, i), inputs.registrations[i], instances, inputs, turns[i], name,
                   Registered(inputs, i, name));
    }
  }

  lemma {:induction false} UnregisteredIsNotLive(inputs: Inputs, n: nat, name: string)
    requires n <= |inputs.registrations| && !Registered(inputs, n, name)
    ensures name !in LiveUpTo(inputs, n) && OthersOnly(inputs, 0, n, name)
  {
    if n > 0 {
      UnregisteredIsNotLive(inputs, n - 1, name);
    }
  }

  lemma NamelessVisit(s: PassState, registration: string, instances: seq<Instance>, inputs: Inputs, turn: Turn)
    ensures KeySame(s.memory, Visit(s, registration, instances, inputs, turn).memory, "")
  {
    if ServiceName(registration) != "" {
      OtherVisitIsSame(s, registration, instances, inputs, turn, "");
    }
  }

  /** The walk keeps no nameless episode and books nothing for one. */
  lemma {:induction false} NamelessIsSame(s: PassState, instances: seq<Instance>, inputs: Inputs, turns: seq<Turn>, n: nat)
    requires n <= |inputs.registrations| == |turns|
    ensures "" !in LiveUpTo(inputs, n) && KeySame(s.memory, KeepAliveUpTo(s, instances, inputs, turns, n).memory, "")
  {
    if n > 0 {
      NamelessIsSame(s, instances, inputs, turns, n - 1);
      var d := KeepAliveUpTo(s, instances, inputs, turns, n - 1);
      NamelessVisit(d, inputs.registrations[n - 1], instances, inputs, turns[n - 1]);
      SameThen(s.memory, d.memory, Visit(d, inputs.registrations[n - 1], instances, inputs, turns[n - 1]).memory, "");
    }
  }

  /** What the walk of a complete pass does to a service that is not to be watched. */
  lemma UnwatchedIsSame(s: PassState, p: Pass, name: string)
    requires WellShaped(p) && SightOf(p, name).Unwatched?
    ensures KeySame(s.memory, KeepAliveUpTo(s, p.instances, p.inputs, p.turns, |p.turns|).memory, name) && name !in LiveKeys(p.inputs)
  {
    if name == "" {
      NamelessIsSame(s, p.instances, p.inputs, p.turns, |p.turns|);
    } else if !MustRun(p.inputs.tiers, name) {
      UnsupervisedWalkIsSame(s, p.instances, p.inputs, p.turns, |p.turns|, name);
    } else {
      UnregisteredIsNotLive(p.inputs, |p.turns|, name);
      WalkIsSame(s, p.instances, p.inputs, p.turns, 0, |p.turns|, name);
    }
  }

  /** The account after a pass with this sight of the service. */
  predicate Sighted(m: Memory, m': Memory, name: string, sight: Sight) {
    var was, now := EpisodeOf(m, name).missing, EpisodeOf(m', name).missing;
    && Absences(m'.journal, name) == Absences(m.journal, name) + (if sight.Missing? && !was then 1 else 0)
    && (now <==> sight.Missing? || (sight.Blind? && was))
  }

  lemma PruneSights(m: Memory, m': Memory, live: set<string>, name: string, sight: Sight)
    requires name !in live ==> KeySame(m, m', name) && sight.Unwatched?
    requires name in live ==> Sighted(m, m', name, sight)
    ensures Sighted(m, AfterPrune(m', live), name, sight)
  {
    CountOther(m'.journal, Pruned(live), Emitted(InstanceMissing(name)));
    if name !in live {
      SameCounts(m, m', name);
    }
  }

  lemma WalkSights(s: PassState, p: Pass, name: string)
    requires WellShaped(p) && !SightOf(p, name).Blind?
    ensures Sighted(s.memory, KeepAlive(s, p.instances, p.inputs, p.turns).memory, name, SightOf(p, name))
  {
    var d := KeepAliveUpTo(s, p.instances, p.inputs, p.turns, |p.turns|);
    if SightOf(p, name).Unwatched? {
      UnwatchedIsSame(s, p, name);
    } else {
      WalkRecords(s, p.instances, p.inputs, p.turns, |p.turns|, name);
      var i :| 0 <= i < |p.inputs.registrations| && Lower(Trim(p.inputs.registrations[i])) == name;
      KeyIsLive(p.inputs, i, |p.turns|);
    }
    PruneSights(s.memory, d.memory, LiveKeys(p.inputs), name, SightOf(p, name));
  }

  /** One pass, whatever runs beside it, writes the record exactly when the absence is new. */
  lemma PassSights(s: PassState, p: Pass, name: string)
    requires WellShaped(p)
    ensures Sighted(s.memory, Tick(s, p).memory, name, SightOf(p, name))
  {
    HostsAreSame(s, p, name);
    var f := FlagUpTo(Swept(s, p), p.instances, p.inputs, p.flagTurns, |p.flagTurns|);
    SameCounts(s.memory, f.memory, name);
    SameCounts(s.memory, Swept(s, p).memory, name);
    if !SightOf(p, name).Blind? {
      WalkSights(f, p, name);
    }
  }

  // ---- any number of passes ----------------------------------------------------------------------

  function SightsOf(ps: seq<Pass>, name: string): (r: seq<Sight>)
    ensures |r| == |ps|
  {
    seq(|ps|, i requires 0 <= i < |ps| => SightOf(ps[i], name))
  }

  lemma OneMoreSight(sights: seq<Sight>, m: Memory, m': Memory, name: string)
    requires sights != [] && Sighted(m, m', name, sights[|sights| - 1])
    requires Onsets(sights[..|sights| - 1], false) == (Absences(m.journal, name), EpisodeOf(m, name).missing)
    ensures Onsets(sights, false) == (Absences(m'.journal, name), EpisodeOf(m', name).missing)
  {
  }

  /**
   A process writes exactly as many missing-instance records for a service as there are absences in
   what its passes saw, and remembers an absence exactly while one is going on.
   */
  lemma {:induction false} OneRecordPerAbsence(table: Table.System, ps: seq<Pass>, name: string)
    requires forall i :: 0 <= i < |ps| ==> WellShaped(ps[i])
    ensures var m := Ticks(PassState(table, Memory(map[], [])), ps).memory;
      Onsets(SightsOf(ps, name), false) == (Absences(m.journal, name), EpisodeOf(m, name).missing)
    decreases |ps|
  {
    if ps != [] {
      var n := |ps| - 1;
      OneRecordPerAbsence(table, ps[..n], name);
      var s, sights := Ticks(PassState(table, Memory(map[], [])), ps[..n]), SightsOf(ps, name);
      assert sights[..n] == SightsOf(ps[..n], name);
      PassSights(s, ps[n], name);
      OneMoreSight(sights, s.memory, Tick(s, ps[n]).memory, name);
    }
  }
}
