/**
 The account of one key: its episode and the notes about it.  Whatever a pass does for other services,
 for hosts and for agents leaves a key's account as it was.
 */
module Accounts {
  import opened Basics
  import opened Rows
  import opened Table
  import opened Supervision
  import opened Escalation

  predicate About(n: Note, key: string) {
    match n
    case Retried(k) => k == key
    case Reset(k) => k == key
    case Dropped(k) => k == key
    case Pruned(_) => false
    case Emitted(InstanceMissing(k)) => k == key
    case Emitted(Escalated(k)) => k == key
    case Emitted(Recovered(k)) => k == key
    case Emitted(_) => false
  }

  /** The journal only grew, and by nothing about `key`. */
  predicate SilentAbout(j: seq<Note>, j': seq<Note>, key: string) {
    j <= j' && forall i :: |j| <= i < |j'| ==> !About(j'[i], key)
  }

  /** Nothing was booked for `key`. */
  predicate KeySame(m: Memory, m': Memory, key: string) {
    EpisodeOf(m', key) == EpisodeOf(m, key) && SilentAbout(m.journal, m'.journal, key)
  }

  lemma SameThen(a: Memory, b: Memory, c: Memory, key: string)
    requires KeySame(a, b, key) && KeySame(b, c, key)
    ensures KeySame(a, c, key)
  {
    forall i | |a.journal| <= i < |c.journal|
      ensures !About(c.journal[i], key)
    {
      if i < |b.journal| {
        assert c.journal[i] == b.journal[i];
      }
    }
  }

  lemma {:induction false} CountAppend(j: seq<Note>, extra: seq<Note>, note: Note)
    requires note !in extra
    ensures Count(j + extra, note) == Count(j, note)
    decreases |extra|
  {
    if extra == [] {
      assert j + extra == j;
    } else {
      var n := |extra| - 1;
      CountAppend(j, extra[..n], note);
      CountOther(j + extra[..n], extra[n], note);
      assert j + extra[..n] + [extra[n]] == j + extra;
    }
  }

  lemma CountOther(j: seq<Note>, n: Note, note: Note)
    requires n != note
    ensures Count(j + [n], note) == Count(j, note)
  {
    assert (j + [n])[..|j|] == j;
  }

  /** How often the key's instance was recorded as missing. */
  function Absences(j: seq<Note>, key: string): nat { Count(j, Emitted(InstanceMissing(key))) }

  lemma SameCount(j: seq<Note>, j': seq<Note>, key: string, note: Note)
    requires SilentAbout(j, j', key) && About(note, key)
    ensures Count(j', note) == Count(j, note)
  {
    var extra := j'[|j|..];
    assert j' == j + extra;
    assert forall i :: 0 <= i < |extra| ==> extra[i] == j'[|j| + i];
    CountAppend(j, extra, note);
  }

  lemma SameCounts(m: Memory, m': Memory, key: string)
    requires KeySame(m, m', key)
    ensures Escalations(m'.journal, key) == Escalations(m.journal, key) && Absences(m'.journal, key) == Absences(m.journal, key)
  {
    SameCount(m.journal, m'.journal, key, Emitted(Escalated(key)));
    SameCount(m.journal, m'.journal, key, Emitted(InstanceMissing(key)));
  }

  lemma OtherKeyIsSame(m: Memory, k: string, escalateAfter: int, key: string)
    requires k != key
    ensures KeySame(m, AfterRedispatch(m, k, escalateAfter), key)
    ensures KeySame(m, AfterRecovery(m, k), key)
  {
  }

  lemma OtherAbsenceIsSame(m: Memory, k: string, key: string)
    requires k != key
    ensures KeySame(m, AfterMissing(m, k), key) && KeySame(m, AfterFound(m, k), key) && KeySame(m, AfterForget(m, k), key)
  {
  }

  lemma OtherVisitIsSame(s: PassState, registration: string, instances: seq<Instance>, inputs: Inputs, turn: Turn, key: string)
    requires ServiceName(registration) != key
    ensures KeySame(s.memory, Visit(s, registration, instances, inputs, turn).memory, key)
  {
    var k, n := ServiceName(registration), inputs.options.escalateAfter;
    OtherAbsenceIsSame(s.memory, k, key);
    var m := AfterFound(s.memory, k);
    OtherAbsenceIsSame(m, k, key);
    OtherKeyIsSame(m, k, n, key);
    match ByName(instances, InstanceName(k))
    case None =>
    case Some(inst) =>
      var m' := AttendMemory(s.(table := RunTable(s.table, turn.before)), k, inst, inputs, turn);
      if m' != m {
        SameThen(s.memory, m, m', key);
      }
  }

  lemma FlagIsSame(s: PassState, inst: Instance, inputs: Inputs, turn: Turn, key: string)
    ensures KeySame(s.memory, FlagOne(s, inst, inputs, turn).memory, key)
  {
  }

  lemma {:induction false} FlaggingIsSame(s: PassState, instances: seq<Instance>, inputs: Inputs, turns: seq<Turn>, i: nat, key: string)
    requires i <= |instances| == |turns|
    ensures KeySame(s.memory, FlagUpTo(s, instances, inputs, turns, i).memory, key)
  {
    if i > 0 {
      FlaggingIsSame(s, instances, inputs, turns, i - 1, key);
      var d := FlagUpTo(s, instances, inputs, turns, i - 1);
      FlagIsSame(d, instances[i - 1], inputs, turns[i - 1], key);
      SameThen(s.memory, d.memory, FlagOne(d, instances[i - 1], inputs, turns[i - 1]).memory, key);
    }
  }

  lemma AnnouncingIsSame(m: Memory, moved: seq<AgentId>, key: string)
    ensures KeySame(m, Announced(m, moved), key)
  {
  }

  /** The sweep and the flagging of a pass book nothing for any service. */
  lemma HostsAreSame(s: PassState, p: Pass, key: string)
    requires WellShaped(p)
    ensures KeySame(s.memory, FlagUpTo(Swept(s, p), p.instances, p.inputs, p.flagTurns, |p.flagTurns|).memory, key)
    ensures KeySame(s.memory, Swept(s, p).memory, key)
  {
    AnnouncingIsSame(s.memory, p.moved, key);
    var f := FlagUpTo(Swept(s, p), p.instances, p.inputs, p.flagTurns, |p.flagTurns|);
    FlaggingIsSame(Swept(s, p), p.instances, p.inputs, p.flagTurns, |p.flagTurns|, key);
    SameThen(s.memory, Swept(s, p).memory, f.memory, key);
  }

  lemma PruningIsSame(m: Memory, live: set<string>, key: string)
    requires key in live
    ensures KeySame(m, AfterPrune(m, live), key)
  {
  }

  /** No registration from `lo` to `hi` is the service's own. */
  predicate OthersOnly(inputs: Inputs, lo: nat, hi: nat, key: string)
    requires hi <= |inputs.registrations|
  {
    forall j :: lo <= j < hi ==> ServiceName(inputs.registrations[j]) != key
  }

  /** A stretch of the walk over other services books nothing for this one. */
  lemma {:induction false} WalkIsSame(s: PassState, instances: seq<Instance>, inputs: Inputs, turns: seq<Turn>, m: nat, n: nat, key: string)
    requires m <= n <= |inputs.registrations| == |turns| && OthersOnly(inputs, m, n, key)
    ensures KeySame(KeepAliveUpTo(s, instances, inputs, turns, m).memory, KeepAliveUpTo(s, instances, inputs, turns, n).memory, key)
    decreases n
  {
    if m < n {
      WalkIsSame(s, instances, inputs, turns, m, n - 1, key);
      var b, d := KeepAliveUpTo(s, instances, inputs, turns, m), KeepAliveUpTo(s, instances, inputs, turns, n - 1);
      OtherVisitIsSame(d, inputs.registrations[n - 1], instances, inputs, turns[n - 1], key);
      SameThen(b.memory, d.memory, Visit(d, inputs.registrations[n - 1], instances, inputs, turns[n - 1]).memory, key);
    }
  }

  lemma {:induction false} KeyIsLive(inputs: Inputs, i: nat, n: nat)
    requires i < n <= |inputs.registrations|
    requires ServiceName(inputs.registrations[i]) != "" && Supervises(inputs.tiers, ServiceName(inputs.registrations[i]))
    ensures ServiceName(inputs.registrations[i]) in LiveUpTo(inputs, n)
    decreases n
  {
    if i < n - 1 {
      KeyIsLive(inputs, i, n - 1);
    }
  }

  // ---- agents that went offline ------------------------------------------------------------------

  /** The journal only got longer, and not by an offline record. */
  ghost predicate Writes(m: Memory, m': Memory, extra: seq<Note>) {
    m'.journal == m.journal + extra && forall a :: Emitted(AgentOffline(a)) !in extra
  }

  lemma VisitWrites(s: PassState, registration: string, instances: seq<Instance>, inputs: Inputs, turn: Turn) returns (extra: seq<Note>)
    ensures Writes(s.memory, Visit(s, registration, instances, inputs, turn).memory, extra)
  {
    var key := ServiceName(registration);
    extra := [];
    if key != "" && Supervises(inputs.tiers, key) {
      match ByName(instances, InstanceName(key))
      case None => extra := if EpisodeOf(s.memory, key).missing then [] else [Emitted(InstanceMissing(key))];
      case Some(inst) => extra := AttendWrites(s.(table := RunTable(s.table, turn.before)), key, inst, inputs, turn);
    }
  }

  lemma AttendWrites(s: PassState, key: string, inst: Instance, inputs: Inputs, turn: Turn) returns (extra: seq<Note>)
    ensures Writes(s.memory, Attend(s, key, inst, inputs, turn).memory, extra) && Emitted(InstanceMissing(key)) !in extra
  {
    var m := AfterFound(s.memory, key);
    var m' := AttendMemory(s, key, inst, inputs, turn);
    extra := m'.journal[|m.journal|..];
  }

  lemma {:induction false} WalkWrites(s: PassState, instances: seq<Instance>, inputs: Inputs, turns: seq<Turn>, n: nat, a: AgentId)
    requires n <= |inputs.registrations| == |turns|
    ensures Count(KeepAliveUpTo(s, instances, inputs, turns, n).memory.journal, Emitted(AgentOffline(a))) == Count(s.memory.journal, Emitted(AgentOffline(a)))
  {
    if n > 0 {
      WalkWrites(s, instances, inputs, turns, n - 1, a);
      var d := KeepAliveUpTo(s, instances, inputs, turns, n - 1);
      var extra := VisitWrites(d, inputs.registrations[n - 1], instances, inputs, turns[n - 1]);
      CountAppend(d.memory.journal, extra, Emitted(AgentOffline(a)));
    }
  }

  lemma {:induction false} FlaggingWrites(s: PassState, instances: seq<Instance>, inputs: Inputs, turns: seq<Turn>, n: nat, a: AgentId)
    requires n <= |instances| == |turns|
    ensures Count(FlagUpTo(s, instances, inputs, turns, n).memory.journal, Emitted(AgentOffline(a))) == Count(s.memory.journal, Emitted(AgentOffline(a)))
  {
    if n > 0 {
      FlaggingWrites(s, instances, inputs, turns, n - 1, a);
      var d := FlagUpTo(s, instances, inputs, turns, n - 1);
      var d' := FlagOne(d, instances[n - 1], inputs, turns[n - 1]);
      var extra := d'.memory.journal[|d.memory.journal|..];
      assert d'.memory.journal == d.memory.journal + extra;
      CountAppend(d.memory.journal, extra, Emitted(AgentOffline(a)));
    }
  }

  lemma {:induction false} AnnouncedCount(m: Memory, moved: seq<AgentId>, i: nat, a: AgentId)
    requires i <= |moved|
    ensures Count(Announced(m, moved[..i]).journal, Emitted(AgentOffline(a))) == Count(m.journal, Emitted(AgentOffline(a))) + multiset(moved[..i])[a]
  {
    if i == 0 {
      assert Announced(m, moved[..0]) == m;
    } else {
      AnnouncedCount(m, moved, i - 1, a);
      AnnouncedOneMore(m, moved, i - 1);
      CountOne(Announced(m, moved[..i - 1]).journal, moved[i - 1], a);
      assert moved[..i] == moved[..i - 1] + [moved[i - 1]];
    }
  }

  lemma CountOne(j: seq<Note>, b: AgentId, a: AgentId)
    ensures Count(j + [Emitted(AgentOffline(b))], Emitted(AgentOffline(a))) == Count(j, Emitted(AgentOffline(a))) + (if a == b then 1 else 0)
  {
    assert (j + [Emitted(AgentOffline(b))])[..|j|] == j;
  }

  /** Whatever else of a pass fails, each agent its sweep moved is recorded as offline once, and no other is. */
  lemma SweptAreRecorded(s: PassState, p: Pass, a: AgentId)
    requires WellShaped(p)
    ensures Count(Tick(s, p).memory.journal, Emitted(AgentOffline(a))) == Count(s.memory.journal, Emitted(AgentOffline(a))) + multiset(p.moved)[a]
  {
    AnnouncedCount(s.memory, p.moved, |p.moved|, a);
    assert p.moved[..|p.moved|] == p.moved;
    var f := FlagUpTo(Swept(s, p), p.instances, p.inputs, p.flagTurns, |p.flagTurns|);
    FlaggingWrites(Swept(s, p), p.instances, p.inputs, p.flagTurns, |p.flagTurns|, a);
    if !p.listFailed && !p.registryFailed {
      WalkWrites(f, p.instances, p.inputs, p.turns, |p.turns|, a);
      CountAppend(KeepAliveUpTo(f, p.instances, p.inputs, p.turns, |p.turns|).memory.journal, [Pruned(LiveKeys(p.inputs))], Emitted(AgentOffline(a)));
    }
  }
}
