/**
 The `resources` table: statements by different callers interleave in one serial order on one strictly
 advancing clock.  `ResourceTable` performs them in place; `Step` says what each does to the table.
 */
module Table {
  import opened Basics
  import opened Backoff
  import opened Rows
  import Leases
  import Convergence
  import Retries
  import Teardown
  import Observations

  type Id = nat

  datatype System = System(now: Time, rows: map<Id, Cell>)

  datatype Event =
    | Create(id: Id, name: string, tier: string, spec: string)
    | ClaimWork(agent: AgentId, ttl: int, limit: int, picked: set<Id>)
    | OnRow(id: Id, e: CellEvent)

  /** A pull of fewer than one or more than a hundred items gets the default of twenty. */
  function FeedLimit(limit: int): (r: nat)
    ensures 1 <= r <= 100 && (1 <= limit <= 100 ==> r == limit) && (limit < 1 || limit > 100 ==> r == 20)
  {
    if limit < 1 || limit > 100 then 20 else limit
  }

  function ClaimableSet(rows: map<Id, Cell>, a: AgentId, t: Time): set<Id> {
    set id | id in rows && Claimable(rows[id].row, a, t)
  }

  /** A pull takes as many claimable rows as the limit allows, oldest first; ties fall either way. */
  predicate ValidPick(rows: map<Id, Cell>, t: Time, a: AgentId, limit: int, picked: set<Id>) {
    var all := ClaimableSet(rows, a, t);
    && picked <= all
    && |picked| == (if |all| <= FeedLimit(limit) then |all| else FeedLimit(limit))
    && (forall p, q :: p in picked && q in all - picked ==> rows[p].row.updatedAt <= rows[q].row.updatedAt)
  }

  predicate CanHappen(s: System, t: Time, ev: Event) {
    && s.now < t
    && match ev
       case Create(id, _, _, _) => id !in s.rows
       case ClaimWork(a, ttl, limit, picked) => ValidPick(s.rows, t, a, limit, picked)
       case OnRow(id, e) => id in s.rows && !e.Deliver? && Enabled(s.rows[id], t, e)
  }

  /** What an event is to one row: nothing, or one statement on it. */
  function Project(ev: Event, id: Id): Option<CellEvent> {
    match ev
    case Create(_, _, _, _) => None
    case ClaimWork(a, ttl, limit, picked) => if id in picked then Some(Deliver(a, ttl)) else None
    case OnRow(i, e) => if i == id then Some(e) else None
  }

  function CellAfter(c: Cell, id: Id, t: Time, ev: Event): Cell {
    match Project(ev, id)
    case None => c
    case Some(e) => CellStep(c, t, e)
  }

  function Step(s: System, t: Time, ev: Event): System {
    var moved := map id | id in s.rows :: CellAfter(s.rows[id], id, t, ev);
    System(t, if ev.Create? && ev.id !in s.rows then moved[ev.id := NewCell(ev.name, ev.tier, ev.spec, t)]
              else moved)
  }

  // ---- runs --------------------------------------------------------------------------------------

  datatype Stamped = Stamped(t: Time, ev: Event)

  function RunTable(s: System, es: seq<Stamped>): System
    decreases |es|
  {
    if es == [] then s
    else
      var n := |es| - 1;
      Step(RunTable(s, es[..n]), es[n].t, es[n].ev)
  }

  predicate ValidTable(s: System, es: seq<Stamped>)
    decreases |es|
  {
    es == [] ||
    (var n := |es| - 1;
     ValidTable(s, es[..n]) && CanHappen(RunTable(s, es[..n]), es[n].t, es[n].ev))
  }

  /** A statement moves its own row and no other; a pull hands out the rows it picked and no other; an insert adds one row. */
  lemma EventHitsItsRows(s: System, t: Time, ev: Event, id: Id)
    requires CanHappen(s, t, ev)
    ensures id in s.rows ==> id in Step(s, t, ev).rows
    ensures id in s.rows && ev.OnRow? ==> Step(s, t, ev).rows[id] == (if ev.id == id then CellStep(s.rows[id], t, ev.e) else s.rows[id])
    ensures id in s.rows && ev.ClaimWork? ==>
      Step(s, t, ev).rows[id] == (if id in ev.picked then CellStep(s.rows[id], t, Deliver(ev.agent, ev.ttl)) else s.rows[id])
    ensures id in s.rows && ev.Create? ==> Step(s, t, ev).rows[id] == s.rows[id]
    ensures id !in s.rows ==> (id in Step(s, t, ev).rows <==> ev.Create? && ev.id == id)
    ensures id !in s.rows && id in Step(s, t, ev).rows ==> Step(s, t, ev).rows[id] == NewCell(ev.name, ev.tier, ev.spec, t)
  {
  }

  lemma TableExtends(s: System, es: seq<Stamped>, x: Stamped)
    requires ValidTable(s, es) && CanHappen(RunTable(s, es), x.t, x.ev)
    ensures ValidTable(s, es + [x])
    ensures RunTable(s, es + [x]) == Step(RunTable(s, es), x.t, x.ev)
  {
    assert (es + [x])[..|es|] == es;
  }

  lemma {:induction false} TableConcat(s: System, es: seq<Stamped>, fs: seq<Stamped>)
    ensures RunTable(s, es + fs) == RunTable(RunTable(s, es), fs)
    ensures ValidTable(s, es + fs) <==> ValidTable(s, es) && ValidTable(RunTable(s, es), fs)
    decreases |fs|
  {
    if fs == [] {
      assert es + fs == es;
    } else {
      var n := |fs| - 1;
      TableConcat(s, es, fs[..n]);
      assert (es + fs)[..|es| + n] == es + fs[..n];
    }
  }

  /** A row's own share of a table run. */
  function RowRun(es: seq<Stamped>, id: Id): seq<Timed>
    decreases |es|
  {
    if es == [] then []
    else
      var n := |es| - 1;
      match Project(es[n].ev, id)
      case None => RowRun(es[..n], id)
      case Some(e) => RowRun(es[..n], id) + [At(es[n].t, e)]
  }

  /**
   Rows evolve independently: what a table run does to a row is the run of its own share of it, and
   that share is a valid run of the row.  Everything proved of all runs of one row holds in the table.
   */
  lemma {:induction false} RowsEvolveAlone(s: System, es: seq<Stamped>, id: Id)
    requires ValidTable(s, es) && id in s.rows
    ensures id in RunTable(s, es).rows
    ensures RunTable(s, es).rows[id] == RunCell(s.rows[id], RowRun(es, id))
    ensures ValidRun(s.rows[id], RowRun(es, id))
    decreases |es|
  {
    if es != [] {
      var n := |es| - 1;
      RowsEvolveAlone(s, es[..n], id);
      if Project(es[n].ev, id).Some? {
        RunExtends(s.rows[id], RowRun(es[..n], id), At(es[n].t, Project(es[n].ev, id).value));
      }
    }
  }

  // ---- every row of every reachable table --------------------------------------------------------

  const EMPTY: System := System(0, map[])

  /** The guarantees that need no assumption about callers. */
  predicate RowSafe(c: Cell) {
    && Leases.LeaseInv(c) && Retries.BackoffInv(c)
    && Teardown.FlagInv(c) && Teardown.StampInv(c) && Observations.HealthInv(c)
  }

  /** Agents, and whoever writes the status columns directly, answer only for what was handed out. */
  predicate HonestTable(s: System, es: seq<Stamped>)
    decreases |es|
  {
    es == [] ||
    (var n := |es| - 1;
     var d := RunTable(s, es[..n]);
     && HonestTable(s, es[..n])
     && (es[n].ev.OnRow? && es[n].ev.id in d.rows ==> Convergence.HonestEvent(d.rows[es[n].ev.id], es[n].ev.e)))
  }

  predicate AllSafe(s: System) { forall id :: id in s.rows ==> RowSafe(s.rows[id]) }

  predicate ProgressAnswered(s: System) { forall id :: id in s.rows ==> Convergence.ConvergenceInv(s.rows[id]) }

  lemma RowStaysSafe(c: Cell, t: Time, e: CellEvent)
    requires RowSafe(c) && Enabled(c, t, e)
    ensures RowSafe(CellStep(c, t, e))
  {
    Leases.StepKeepsLeaseInv(c, t, e);
    Retries.StepKeepsBackoffInv(c, t, e);
    Teardown.StepKeepsFlagInv(c, t, e);
    Teardown.StepKeepsStampInv(c, t, e);
    Observations.StepKeepsHealthInv(c, t, e);
  }

  lemma StepKeepsSafe(s: System, t: Time, ev: Event)
    requires AllSafe(s) && CanHappen(s, t, ev)
    ensures AllSafe(Step(s, t, ev))
  {
    var s' := Step(s, t, ev);
    forall id | id in s'.rows
      ensures RowSafe(s'.rows[id])
    {
      if id in s.rows {
        var c := s.rows[id];
        assert RowSafe(c);
        if Project(ev, id).Some? {
          RowStaysSafe(c, t, Project(ev, id).value);
        }
      }
    }
  }

  lemma StepKeepsProgressAnswered(s: System, t: Time, ev: Event)
    requires ProgressAnswered(s) && CanHappen(s, t, ev)
    requires ev.OnRow? ==> Convergence.HonestEvent(s.rows[ev.id], ev.e)
    ensures ProgressAnswered(Step(s, t, ev))
  {
    var s' := Step(s, t, ev);
    forall id | id in s'.rows
      ensures Convergence.ConvergenceInv(s'.rows[id])
    {
      if id in s.rows {
        assert Convergence.ConvergenceInv(s.rows[id]);
        if Project(ev, id).Some? {
          Convergence.StepKeepsConvergence(s.rows[id], t, Project(ev, id).value);
        }
      }
    }
  }

  /** On every reachable table every row is leased, delayed, flagged, stamped and given a health as the protocol promises. */
  lemma {:induction false} EveryRowIsSafe(es: seq<Stamped>)
    requires ValidTable(EMPTY, es)
    ensures AllSafe(RunTable(EMPTY, es))
    decreases |es|
  {
    if es != [] {
      var n := |es| - 1;
      EveryRowIsSafe(es[..n]);
      StepKeepsSafe(RunTable(EMPTY, es[..n]), es[n].t, es[n].ev);
    }
  }

  /** On every table reachable with honest claims no row counts as converged on a spec nobody answered for. */
  lemma {:induction false} EveryRowConverges(es: seq<Stamped>)
    requires ValidTable(EMPTY, es) && HonestTable(EMPTY, es)
    ensures ProgressAnswered(RunTable(EMPTY, es))
    decreases |es|
  {
    if es != [] {
      var n := |es| - 1;
      EveryRowConverges(es[..n]);
      StepKeepsProgressAnswered(RunTable(EMPTY, es[..n]), es[n].t, es[n].ev);
    }
  }

  // ---- the table in place ------------------------------------------------------------------------

  lemma {:induction false} OldestExists(rows: map<Id, Cell>, ids: set<Id>) returns (best: Id)
    requires ids != {} && (forall id :: id in ids ==> id in rows)
    ensures best in ids && forall id :: id in ids ==> rows[best].row.updatedAt <= rows[id].row.updatedAt
    decreases ids
  {
    best :| best in ids;
    if ids != {best} {
      var other := OldestExists(rows, ids - {best});
      if rows[other].row.updatedAt < rows[best].row.updatedAt {
        best := other;
      }
      assert ids == ids - {best} + {best};
    }
  }

  predicate OldestFirst(rows: map<Id, Cell>, picked: set<Id>, rest: set<Id>) {
    forall p, q :: p in picked && q in rest && p in rows && q in rows ==>
      rows[p].row.updatedAt <= rows[q].row.updatedAt
  }

  lemma TakeKeepsOrder(rows: map<Id, Cell>, picked: set<Id>, rest: set<Id>, best: Id)
    requires OldestFirst(rows, picked, rest) && best in rest && (forall id :: id in rest ==> id in rows)
    requires forall id :: id in rest ==> rows[best].row.updatedAt <= rows[id].row.updatedAt
    ensures OldestFirst(rows, picked + {best}, rest - {best})
  {
  }

  /** The claim's subselect: claimable rows, oldest first, up to the limit. */
  method PickOldest(rows: map<Id, Cell>, t: Time, agent: AgentId, limit: int) returns (picked: set<Id>)
    ensures ValidPick(rows, t, agent, limit, picked)
  {
    var all := set id | id in rows && Claimable(rows[id].row, agent, t);
    picked := {};
    var rest := all;
    while |picked| < FeedLimit(limit) && rest != {}
      invariant picked + rest == all && picked !! rest
      invariant |picked| <= FeedLimit(limit)
      invariant OldestFirst(rows, picked, rest)
      decreases rest
    {
      ghost var oldest := OldestExists(rows, rest);
      var best :| best in rest && forall id :: id in rest ==> rows[best].row.updatedAt <= rows[id].row.updatedAt;
      TakeKeepsOrder(rows, picked, rest, best);
      picked, rest := picked + {best}, rest - {best};
    }
    assert all == ClaimableSet(rows, agent, t) && all - picked == rest;
    assert |all| == |picked| + |rest|;
  }

  class ResourceTable {
    var now: Time
    var rows: map<Id, Cell>

    ghost function Contents(): System
      reads this
    {
      System(now, rows)
    }

    constructor ()
      ensures Contents() == EMPTY
    {
      now, rows := 0, map[];
    }

    method CreateResource(t: Time, id: Id, name: string, tier: string, spec: string)
      requires CanHappen(Contents(), t, Create(id, name, tier, spec))
      modifies this
      ensures Contents() == Step(old(Contents()), t, Create(id, name, tier, spec))
    {
      now, rows := t, rows[id := NewCell(name, tier, spec, t)];
    }

    method ClaimAgentWork(t: Time, agent: AgentId, ttl: int, limit: int) returns (picked: set<Id>)
      requires now < t
      modifies this
      ensures CanHappen(old(Contents()), t, ClaimWork(agent, ttl, limit, picked))
      ensures Contents() == Step(old(Contents()), t, ClaimWork(agent, ttl, limit, picked))
      ensures forall id :: id in picked ==> id in rows && rows[id].row.agent == Some(agent)
      ensures forall id :: id in picked ==> rows[id].row.leasedUntil == Some(t + (if ttl > 0 then ttl else 60 * SECOND))
    {
      picked := PickOldest(rows, t, agent, limit);
      now, rows := t, map id | id in rows :: if id in picked then CellStep(rows[id], t, Deliver(agent, ttl)) else rows[id];
      assert rows == Step(old(Contents()), t, ClaimWork(agent, ttl, limit, picked)).rows;
    }

    /** Any single-row statement.  A caller learns whether it changed a row, as `RETURNING` tells it. */
    method Execute(t: Time, id: Id, e: CellEvent) returns (changed: bool)
      requires CanHappen(Contents(), t, OnRow(id, e))
      modifies this
      ensures Contents() == Step(old(Contents()), t, OnRow(id, e))
      ensures changed <==> rows[id].row != old(rows[id].row) || rows[id].hist != old(rows[id].hist)
    {
      var c := rows[id];
      var c' := CellStep(c, t, e);
      changed := c'.row != c.row || c'.hist != c.hist;
      now, rows := t, rows[id := c'];
    }

    /** Other callers' statements, in the order the database ran them. */
    method Interfere(es: seq<Stamped>)
      requires ValidTable(Contents(), es)
      modifies this
      ensures Contents() == RunTable(old(Contents()), es)
    {
      ghost var s := Contents();
      for i := 0 to |es|
        invariant Contents() == RunTable(s, es[..i])
      {
        assert es[..i + 1][..i] == es[..i];
        TableConcat(s, es[..i + 1], es[i + 1..]);
        assert es[..i + 1] + es[i + 1..] == es;
        now, rows := es[i].t, Step(System(now, rows), es[i].t, es[i].ev).rows;
      }
      assert es[..|es|] == es;
    }
  }
}
