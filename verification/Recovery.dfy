/**
 What escalation and recovery records mean.  A recovery is recorded for an escalated service that
 supervision stands down on, running or not; an escalation takes more re-dispatches in a row than the
 threshold, which a silent agent under frequent passes never gets.
 */
module Recovery {
  import opened Basics
  import opened Rows
  import opened Table
  import opened Supervision
  import opened Escalation
  import opened KeepAliveProofs
  import Text

  // ---- exactly when a record is written ----------------------------------------------------------

  /** Keep-alive has this instance to look after: it is not being torn down and its host is not offline. */
  predicate Attended(inst: Instance, inputs: Inputs) { !inst.row.state.Deleting? && !OnOfflineHost(inst.row, inputs.offline) }

  /**
   A turn records a recovery if and only if the episode is escalated and the instance, attended to, is
   serving or merely inside its stale window.
   */
  lemma RecoveredIff(s: PassState, key: string, inst: Instance, inputs: Inputs, turn: Turn)
    ensures Attend(s, key, inst, inputs, turn).memory.journal == s.memory.journal + [Reset(key), Emitted(Recovered(key))]
      <==> EpisodeOf(s.memory, key).escalated && Attended(inst, inputs)
           && (Serving(inst.row) || InWindow(inst.row, turn.at, inputs.options.staleAfter))
  {
    var j, j' := s.memory.journal, Attend(s, key, inst, inputs, turn).memory.journal;
    var goal := j + [Reset(key), Emitted(Recovered(key))];
    StandingDownMeans(inst.row, turn.at, inputs.options.staleAfter);
    assert goal == j + [Reset(key)] + [Emitted(Recovered(key))];
    assert |goal| == |j| + 2 && goal[|j|] == Reset(key);
    assert j + [] == j;
    if |j'| > |j| {
      assert j'[|j|] in {Dropped(key), Retried(key), Reset(key)};
    }
  }

  /**
   A turn records an escalation if and only if it re-dispatches, and as many re-dispatches as the
   threshold have gone before it since the episode was last reset or dropped.
   */
  lemma EscalatedIff(s: PassState, key: string, inst: Instance, inputs: Inputs, turn: Turn)
    requires Balanced(s.memory, key, inputs.options.escalateAfter)
    ensures Attend(s, key, inst, inputs, turn).memory.journal == s.memory.journal + [Retried(key), Emitted(Escalated(key))]
      <==> && Attended(inst, inputs) && NeedsRedispatch(inst.row, turn.at, inputs.options.staleAfter)
           && RedispatchTakes(s.table, inst.id, turn.failed)
           && Escalation.Retries(s.memory.journal, key) == inputs.options.escalateAfter
  {
    var j, j' := s.memory.journal, Attend(s, key, inst, inputs, turn).memory.journal;
    var goal := j + [Retried(key), Emitted(Escalated(key))];
    assert goal == j + [Retried(key)] + [Emitted(Escalated(key))];
    assert |goal| == |j| + 2 && goal[|j|] == Retried(key);
    assert j + [] == j && j + [Retried(key)] + [] == j + [Retried(key)];
    if |j'| > |j| {
      assert j'[|j|] in {Dropped(key), Retried(key), Reset(key)};
    }
  }

  // ---- a recovery of a service that never ran ----------------------------------------------------

  const SOLO: Inputs := Inputs(Options(1, 1, 10, 1), map[], {}, ["db"])

  /** An undisturbed pass over one service, "db", whose instance is row 0. */
  function Solo(row: Row, at: Time): Pass {
    Pass([], false, false, [Instance(0, row)], SOLO, [Turn([], at, false)], [Turn([], at, false)])
  }

  lemma SoloName()
    ensures ServiceName("db") == "db" && InstanceName("db") == "system-db" && Supervises(SOLO.tiers, "db") && LiveKeys(SOLO) == {"db"}
  {
    assert Text.Trim("db") == "db";
    assert Text.Lower("db") == "db";
    assert LiveUpTo(SOLO, 1) == LiveUpTo(SOLO, 0) + {"db"};
  }

  lemma QuietFlag(s: PassState, inst: Instance, inputs: Inputs, turn: Turn)
    requires turn.before == [] && !OnOfflineHost(inst.row, inputs.offline)
    ensures FlagOne(s, inst, inputs, turn) == s
  {
    assert s == PassState(s.table, s.memory);
  }

  lemma SoloTick(s: PassState, row: Row, at: Time)
    requires s.table.now < at && row.name == "system-db"
    ensures WellShaped(Solo(row, at)) && TickCan(s, Solo(row, at))
    ensures var a := Attend(s, "db", Instance(0, row), SOLO, Turn([], at, false));
      Tick(s, Solo(row, at)) == a.(memory := AfterPrune(a.memory, {"db"}))
  {
    SoloName();
    var p, inst, turn := Solo(row, at), Instance(0, row), Turn([], at, false);
    assert Swept(s, p) == s by {
      assert s.memory.journal + [] == s.memory.journal;
    }
    assert SOLO.offline == {} && !OnOfflineHost(row, SOLO.offline);
    assert RunTable(s.table, turn.before) == s.table;
    QuietFlag(s, inst, SOLO, turn);
    assert FlagUpTo(s, p.instances, SOLO, p.flagTurns, 1) == FlagOne(FlagUpTo(s, p.instances, SOLO, p.flagTurns, 0), inst, SOLO, turn);
    assert ByName([inst], "system-db") == Some(inst);
    assert KeepAliveUpTo(s, p.instances, SOLO, p.turns, 0) == s;
    assert KeepAliveUpTo(s, p.instances, SOLO, p.turns, 1) == Visit(s, "db", p.instances, SOLO, turn);
    assert ValidTable(s.table, turn.before) && TurnCan(s.table, turn) && p.turns[0] == turn && p.flagTurns[0] == turn;
    assert KeepAliveCan(s, p.instances, SOLO, p.turns, 0) && FlagCan(s, p.instances, SOLO, p.flagTurns, 0);
    assert KeepAliveCan(s, p.instances, SOLO, p.turns, 1) && FlagCan(s, p.instances, SOLO, p.flagTurns, 1);
  }

  /** Row 0 and the episode of "db" before a pass. */
  predicate Stands(s: PassState, now: Time, row: Row, ep: Episode, recoveries: nat) {
    && s.table.now == now && s.table.rows.Keys == {0} && s.table.rows[0].row == row
    && EpisodeOf(s.memory, "db") == ep && Recoveries(s.memory.journal, "db") == recoveries
  }

  predicate Silent(row: Row, updated: Time) {
    && Live(row) && row.name == "system-db" && row.state.Pending? && row.observed < row.generation && row.agent.None?
    && row.health.Unreported? && row.updatedAt == updated
  }

  lemma SoloRetries(s: PassState, now: Time, row: Row, updated: Time, count: nat, at: Time)
    requires Stands(s, now, row, Episode(false, count, count > 1), 0) && Silent(row, updated) && now < at && at - updated > 10
    ensures exists row' :: Silent(row', at) && Stands(Tick(s, Solo(row, at)), at, row', Episode(false, count + 1, count + 1 > 1), 0)
  {
    SoloTick(s, row, at);
    var a := Attend(s, "db", Instance(0, row), SOLO, Turn([], at, false));
    var m := AfterFound(s.memory, "db");
    assert a == PassState(Step(s.table, at, OnRow(0, Redispatch)), AfterRedispatch(m, "db", 1));
    RetriedOnce(m, count);
    var row' := RedispatchRow(row, at);
    assert a.table.rows[0].row == row';
    assert Silent(row', at) && Stands(Tick(s, Solo(row, at)), at, row', Episode(false, count + 1, count + 1 > 1), 0);
  }

  /** What a re-dispatch of "db" and the pruning after it do to its episode and records. */
  lemma RetriedOnce(m: Memory, count: nat)
    requires EpisodeOf(m, "db") == Episode(false, count, count > 1) && Recoveries(m.journal, "db") == 0
    ensures var m' := AfterPrune(AfterRedispatch(m, "db", 1), {"db"});
      EpisodeOf(m', "db") == Episode(false, count + 1, count + 1 > 1) && Recoveries(m'.journal, "db") == 0
  {
    var j := m.journal;
    Appended(j, Retried("db"), "db");
    Appended(j + [Retried("db")], Emitted(Escalated("db")), "db");
    assert j + [Retried("db")] + [] == j + [Retried("db")];
    Appended(AfterRedispatch(m, "db", 1).journal, Pruned({"db"}), "db");
  }

  lemma SoloRecovers(s: PassState, now: Time, row: Row, count: nat, at: Time)
    requires Stands(s, now, row, Episode(false, count, true), 0) && Silent(row, now) && now < at <= now + 10
    ensures var s' := Tick(s, Solo(row, at)); s'.table == s.table && Recoveries(s'.memory.journal, "db") == 1
  {
    SoloTick(s, row, at);
    var m := AfterFound(s.memory, "db");
    assert Attend(s, "db", Instance(0, row), SOLO, Turn([], at, false)) == s.(memory := AfterRecovery(m, "db"));
    Appended(m.journal, Reset("db"), "db");
    Appended(m.journal + [Reset("db")], Emitted(Recovered("db")), "db");
    Appended(AfterRecovery(m, "db").journal, Pruned({"db"}), "db");
  }

  /**
   Three passes over a service that never starts: re-dispatched, re-dispatched and escalated, and then,
   five units later, recorded as recovered, because it has just been re-dispatched.
   */
  lemma RecoveredWhileDown(s: PassState, row: Row) returns (rows: seq<Row>)
    requires Stands(s, 1, row, NO_EPISODE, 0) && Silent(row, 1)
    ensures |rows| == 3 && rows[0] == row
    ensures var s1 := Tick(s, Solo(rows[0], 20));
      var s2 := Tick(s1, Solo(rows[1], 40));
      var s3 := Tick(s2, Solo(rows[2], 45));
      && TickCan(s, Solo(rows[0], 20)) && TickCan(s1, Solo(rows[1], 40)) && TickCan(s2, Solo(rows[2], 45))
      && s1.table.rows.Keys == s2.table.rows.Keys == s3.table.rows.Keys == {0}
      && s1.table.rows[0].row == rows[1] && s2.table.rows[0].row == rows[2]
      && Recoveries(s3.memory.journal, "db") == 1 && !s3.table.rows[0].row.state.Running?
  {
    SoloRetries(s, 1, row, 1, 0, 20);
    var s1 := Tick(s, Solo(row, 20));
    var row1 :| Silent(row1, 20) && Stands(s1, 20, row1, Episode(false, 1, false), 0);
    SoloRetries(s1, 20, row1, 20, 1, 40);
    var s2 := Tick(s1, Solo(row1, 40));
    var row2 :| Silent(row2, 40) && Stands(s2, 40, row2, Episode(false, 2, true), 0);
    rows := [row, row1, row2];
    SoloRecovers(s2, 40, row2, 2, 45);
    SoloTick(s, row, 20);
    SoloTick(s1, row1, 40);
    SoloTick(s2, row2, 45);
  }

  /** Such a start is a table with one new system resource in it. */
  lemma FreshService()
    ensures var s := PassState(RunTable(EMPTY, [Stamped(1, Create(0, "system-db", "system", "v1"))]), Memory(map[], []));
      Stands(s, 1, NewRow("system-db", "system", "v1", 1), NO_EPISODE, 0) && Silent(NewRow("system-db", "system", "v1", 1), 1)
  {
    var x := Stamped(1, Create(0, "system-db", "system", "v1"));
    assert [x][..0] == [];
    assert RunTable(EMPTY, [x]) == Step(EMPTY, 1, x.ev);
  }
}
