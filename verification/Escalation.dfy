/**
 Escalation accounting: over every sequence of supervision passes, an episode counts the successful
 re-dispatches since it was last reset or dropped, escalates exactly once when they exceed the
 threshold, and never reports more recoveries than escalations.
 */
module Escalation {
  import opened Basics
  import opened Supervision
  import opened Rows
  import Table

  /** The notes that end a stretch of re-dispatches for `key`. */
  predicate Clears(n: Note, key: string) {
    || (n.Reset? && n.key == key)
    || (n.Dropped? && n.key == key)
    || (n.Pruned? && key !in n.live)
  }

  /** How often `note` occurs since the last note that cleared `key`. */
  function SinceCleared(j: seq<Note>, key: string, note: Note): nat
    decreases |j|
  {
    if j == [] then 0
    else
      var n := |j| - 1;
      if Clears(j[n], key) then 0
      else SinceCleared(j[..n], key, note) + (if j[n] == note then 1 else 0)
  }

  function Retries(j: seq<Note>, key: string): nat { SinceCleared(j, key, Retried(key)) }

  function Count(j: seq<Note>, note: Note): nat
    decreases |j|
  {
    if j == [] then 0
    else Count(j[..|j| - 1], note) + (if j[|j| - 1] == note then 1 else 0)
  }

  function Escalations(j: seq<Note>, key: string): nat { Count(j, Emitted(Escalated(key))) }

  function Recoveries(j: seq<Note>, key: string): nat { Count(j, Emitted(Recovered(key))) }

  /** In every prefix of the journal the recoveries do not outnumber the escalations. */
  predicate NeverOverRecovered(j: seq<Note>, key: string) {
    forall k :: 0 <= k <= |j| ==> Recoveries(j[..k], key) <= Escalations(j[..k], key)
  }

  predicate Balanced(m: Memory, key: string, escalateAfter: int) {
    var ep := EpisodeOf(m, key);
    && ep.redispatches == Retries(m.journal, key)
    && (ep.escalated <==> ep.redispatches > escalateAfter)
    && SinceCleared(m.journal, key, Emitted(Escalated(key))) == (if ep.escalated then 1 else 0)
    && Recoveries(m.journal, key) + (if ep.escalated then 1 else 0) <= Escalations(m.journal, key)
    && NeverOverRecovered(m.journal, key)
  }

  /** What one more note does to the count of another. */
  lemma Counted(j: seq<Note>, n: Note, key: string, note: Note)
    ensures Count(j + [n], note) == Count(j, note) + (if n == note then 1 else 0)
    ensures SinceCleared(j + [n], key, note)
            == (if Clears(n, key) then 0 else SinceCleared(j, key, note) + (if n == note then 1 else 0))
  {
    assert (j + [n])[..|j|] == j;
  }

  /** What one more note does to the counts kept for `key`. */
  lemma Appended(j: seq<Note>, n: Note, key: string)
    ensures Retries(j + [n], key) == (if Clears(n, key) then 0 else Retries(j, key) + (if n == Retried(key) then 1 else 0))
    ensures SinceCleared(j + [n], key, Emitted(Escalated(key)))
            == (if Clears(n, key) then 0
                else SinceCleared(j, key, Emitted(Escalated(key))) + (if n == Emitted(Escalated(key)) then 1 else 0))
    ensures Escalations(j + [n], key) == Escalations(j, key) + (if n == Emitted(Escalated(key)) then 1 else 0)
    ensures Recoveries(j + [n], key) == Recoveries(j, key) + (if n == Emitted(Recovered(key)) then 1 else 0)
    ensures NeverOverRecovered(j, key) && Recoveries(j + [n], key) <= Escalations(j + [n], key)
            ==> NeverOverRecovered(j + [n], key)
  {
    Counted(j, n, key, Retried(key));
    Counted(j, n, key, Emitted(Escalated(key)));
    Counted(j, n, key, Emitted(Recovered(key)));
    if NeverOverRecovered(j, key) && Recoveries(j + [n], key) <= Escalations(j + [n], key) {
      StillNeverOver(j, n, key);
    }
  }

  lemma StillNeverOver(j: seq<Note>, n: Note, key: string)
    requires NeverOverRecovered(j, key) && Recoveries(j + [n], key) <= Escalations(j + [n], key)
    ensures NeverOverRecovered(j + [n], key)
  {
    forall k | 0 <= k <= |j + [n]|
      ensures Recoveries((j + [n])[..k], key) <= Escalations((j + [n])[..k], key)
    {
      if k <= |j| {
        assert (j + [n])[..k] == j[..k];
      } else {
        assert (j + [n])[..k] == j + [n];
      }
    }
  }

  /** A record that is neither an escalation nor a recovery leaves the accounts as they were. */
  lemma OtherRecordBalances(m: Memory, r: Record, key: string, escalateAfter: int)
    requires Balanced(m, key, escalateAfter) && !r.Escalated? && !r.Recovered?
    ensures Balanced(m.(journal := m.journal + [Emitted(r)]), key, escalateAfter)
  {
    Appended(m.journal, Emitted(r), key);
  }

  lemma RedispatchBalances(m: Memory, k: string, key: string, escalateAfter: int)
    requires Balanced(m, key, escalateAfter) && escalateAfter >= 1
    ensures Balanced(AfterRedispatch(m, k, escalateAfter), key, escalateAfter)
  {
    var j := m.journal + [Retried(k)];
    Appended(m.journal, Retried(k), key);
    Appended(j, Emitted(Escalated(k)), key);
    assert j + [] == j;
  }

  lemma RecoveryBalances(m: Memory, k: string, key: string, escalateAfter: int)
    requires Balanced(m, key, escalateAfter) && escalateAfter >= 1
    ensures Balanced(AfterRecovery(m, k), key, escalateAfter)
  {
    var j := m.journal + [Reset(k)];
    Appended(m.journal, Reset(k), key);
    Appended(j, Emitted(Recovered(k)), key);
    assert j + [] == j;
  }

  lemma MissingBalances(m: Memory, k: string, key: string, escalateAfter: int)
    requires Balanced(m, key, escalateAfter)
    ensures Balanced(AfterMissing(m, k), key, escalateAfter)
  {
    OtherRecordBalances(m, InstanceMissing(k), key, escalateAfter);
    assert m.journal + [] == m.journal;
  }

  lemma FoundBalances(m: Memory, k: string, key: string, escalateAfter: int)
    requires Balanced(m, key, escalateAfter)
    ensures Balanced(AfterFound(m, k), key, escalateAfter)
  {
  }

  lemma DropBalances(m: Memory, k: string, live: set<string>, key: string, escalateAfter: int)
    requires Balanced(m, key, escalateAfter) && escalateAfter >= 1
    ensures Balanced(AfterForget(m, k), key, escalateAfter)
    ensures Balanced(AfterPrune(m, live), key, escalateAfter)
  {
    Appended(m.journal, Dropped(k), key);
    Appended(m.journal, Pruned(live), key);
  }

  lemma AttendBalances(s: PassState, k: string, inst: Instance, inputs: Inputs, turn: Turn, key: string)
    requires Balanced(s.memory, key, inputs.options.escalateAfter) && inputs.options.escalateAfter >= 1
    ensures Balanced(Attend(s, k, inst, inputs, turn).memory, key, inputs.options.escalateAfter)
  {
    var n := inputs.options.escalateAfter;
    FoundBalances(s.memory, k, key, n);
    var m := AfterFound(s.memory, k);
    var m' := AttendMemory(s, k, inst, inputs, turn);
    if m' == AfterForget(m, k) {
      DropBalances(m, k, {}, key, n);
    } else if m' == AfterRecovery(m, k) {
      RecoveryBalances(m, k, key, n);
    } else if m' == AfterRedispatch(m, k, n) {
      RedispatchBalances(m, k, key, n);
    }
  }

  lemma AttendMemory(s: PassState, k: string, inst: Instance, inputs: Inputs, turn: Turn) returns (m: Memory)
    ensures m == Attend(s, k, inst, inputs, turn).memory
    ensures var found := AfterFound(s.memory, k);
      || m == found || m == AfterForget(found, k) || m == AfterRecovery(found, k)
      || m == AfterRedispatch(found, k, inputs.options.escalateAfter)
  {
    m := Attend(s, k, inst, inputs, turn).memory;
  }

  lemma {:induction false} KeepAliveBalances(s: PassState, instances: seq<Instance>, inputs: Inputs, turns: seq<Turn>, i: nat, key: string)
    requires i <= |inputs.registrations| == |turns|
    requires Balanced(s.memory, key, inputs.options.escalateAfter) && inputs.options.escalateAfter >= 1
    ensures Balanced(KeepAliveUpTo(s, instances, inputs, turns, i).memory, key, inputs.options.escalateAfter)
  {
    if i > 0 {
      KeepAliveBalances(s, instances, inputs, turns, i - 1, key);
      var d := KeepAliveUpTo(s, instances, inputs, turns, i - 1);
      var name := ServiceName(inputs.registrations[i - 1]);
      MissingBalances(d.memory, name, key, inputs.options.escalateAfter);
      match ByName(instances, InstanceName(name))
      case None =>
      case Some(inst) =>
        var d' := d.(table := Table.RunTable(d.table, turns[i - 1].before));
        AttendBalances(d', name, inst, inputs, turns[i - 1], key);
    }
  }

  lemma {:induction false} FlaggingBalances(s: PassState, instances: seq<Instance>, inputs: Inputs, turns: seq<Turn>, i: nat, key: string, escalateAfter: int)
    requires i <= |instances| == |turns|
    requires Balanced(s.memory, key, escalateAfter)
    ensures Balanced(FlagUpTo(s, instances, inputs, turns, i).memory, key, escalateAfter)
  {
    if i > 0 {
      FlaggingBalances(s, instances, inputs, turns, i - 1, key, escalateAfter);
      var m := FlagUpTo(s, instances, inputs, turns, i - 1).memory;
      OtherRecordBalances(m, HostUnreachable(instances[i - 1].id), key, escalateAfter);
      assert m.journal + [] == m.journal;
    }
  }

  lemma {:induction false} AnnouncingBalances(m: Memory, moved: seq<AgentId>, i: nat, key: string, escalateAfter: int)
    requires i <= |moved| && Balanced(m, key, escalateAfter)
    ensures Balanced(Announced(m, moved[..i]), key, escalateAfter)
  {
    if i == 0 {
      assert Announced(m, moved[..0]) == m;
    } else {
      AnnouncingBalances(m, moved, i - 1, key, escalateAfter);
      AnnouncedOneMore(m, moved, i - 1);
      OtherRecordBalances(Announced(m, moved[..i - 1]), AgentOffline(moved[i - 1]), key, escalateAfter);
    }
  }

  lemma TickBalances(s: PassState, p: Pass, key: string)
    requires WellShaped(p) && p.inputs.options.escalateAfter >= 1
    requires Balanced(s.memory, key, p.inputs.options.escalateAfter)
    ensures Balanced(Tick(s, p).memory, key, p.inputs.options.escalateAfter)
  {
    var n := p.inputs.options.escalateAfter;
    AnnouncingBalances(s.memory, p.moved, |p.moved|, key, n);
    assert p.moved[..|p.moved|] == p.moved;
    FlaggingBalances(Swept(s, p), p.instances, p.inputs, p.flagTurns, |p.flagTurns|, key, n);
    var f := FlagUpTo(Swept(s, p), p.instances, p.inputs, p.flagTurns, |p.flagTurns|);
    KeepAliveBalances(f, p.instances, p.inputs, p.turns, |p.turns|, key);
    DropBalances(KeepAliveUpTo(f, p.instances, p.inputs, p.turns, |p.turns|).memory, "", LiveKeys(p.inputs), key, n);
  }

  function Ticks(s: PassState, ps: seq<Pass>): PassState
    requires forall i :: 0 <= i < |ps| ==> WellShaped(ps[i])
    decreases |ps|
  {
    if ps == [] then s else Tick(Ticks(s, ps[..|ps| - 1]), ps[|ps| - 1])
  }

  /** The accounting holds for every key after every sequence of passes of one process. */
  lemma {:induction false} EscalationAccounting(table: Table.System, ps: seq<Pass>, key: string, options: Options)
    requires forall i :: 0 <= i < |ps| ==> WellShaped(ps[i]) && ps[i].inputs.options == WithDefaults(options)
    ensures Balanced(Ticks(PassState(table, Memory(map[], [])), ps).memory, key, WithDefaults(options).escalateAfter)
    decreases |ps|
  {
    if ps != [] {
      var n := |ps| - 1;
      EscalationAccounting(table, ps[..n], key, options);
      TickBalances(Ticks(PassState(table, Memory(map[], [])), ps[..n]), ps[n], key);
    }
  }
}
