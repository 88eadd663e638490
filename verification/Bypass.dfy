/**
 Bounded bypass: the feed is ordered by `updated_at` and every statement that touches a row moves it to
 the back, so a claimable row can be passed over only by the rows that are ahead of it now.
 */
module Bypass {
  import opened Basics
  import opened Rows
  import opened Table
  import Leases

  /** The live rows ahead of `r`, or level with it, in the feed order. */
  function Ahead(s: System, r: Id): set<Id>
    requires r in s.rows
  {
    set id | id in s.rows && id != r && Live(s.rows[id].row) && s.rows[id].row.updatedAt <= s.rows[r].row.updatedAt
  }

  predicate ClockAhead(s: System) {
    forall id :: id in s.rows ==> s.rows[id].row.updatedAt <= s.now
  }

  /** A statement that changes a row stamps it with the current time. */
  lemma ChangeStamps(c: Cell, t: Time, e: CellEvent)
    requires CellStep(c, t, e).row != c.row
    ensures CellStep(c, t, e).row.updatedAt == t
  {
  }

  lemma StepKeepsClockAhead(s: System, t: Time, ev: Event)
    requires ClockAhead(s) && CanHappen(s, t, ev)
    ensures ClockAhead(Step(s, t, ev))
  {
    forall id | id in s.rows && Project(ev, id).Some?
      ensures CellAfter(s.rows[id], id, t, ev).row.updatedAt <= t
    {
      assert s.rows[id].row.updatedAt <= s.now;
    }
  }

  lemma {:induction false} ClockIsAhead(es: seq<Stamped>)
    requires ValidTable(EMPTY, es)
    ensures ClockAhead(RunTable(EMPTY, es))
    decreases |es|
  {
    if es != [] {
      var n := |es| - 1;
      ClockIsAhead(es[..n]);
      StepKeepsClockAhead(RunTable(EMPTY, es[..n]), es[n].t, es[n].ev);
    }
  }

  /** Nothing overtakes an untouched row. */
  lemma NothingOvertakes(s: System, t: Time, ev: Event, r: Id)
    requires ClockAhead(s) && CanHappen(s, t, ev) && r in s.rows
    requires Step(s, t, ev).rows[r].row == s.rows[r].row
    ensures Ahead(Step(s, t, ev), r) <= Ahead(s, r)
  {
    var s' := Step(s, t, ev);
    assert s.rows[r].row.updatedAt <= s.now < t;
    forall id | id in Ahead(s', r)
      ensures id in Ahead(s, r)
    {
      if id in s.rows && Project(ev, id).Some? && s'.rows[id].row != s.rows[id].row {
        ChangeStamps(s.rows[id], t, Project(ev, id).value);
      }
    }
  }

  lemma SubsetSize<T>(a: set<T>, b: set<T>)
    requires a <= b
    ensures |a| <= |b|
  {
    assert b == a + (b - a);
    assert |b| == |a| + |b - a|;
  }

  /** A pull that passes a claimable row over takes a full limit's worth of rows from ahead of it. */
  lemma MissedPullAdvances(s: System, t: Time, a: AgentId, ttl: int, limit: int, picked: set<Id>, r: Id)
    requires ClockAhead(s) && CanHappen(s, t, ClaimWork(a, ttl, limit, picked)) && r in s.rows
    requires Claimable(s.rows[r].row, a, t) && r !in picked
    ensures var s' := Step(s, t, ClaimWork(a, ttl, limit, picked));
      |Ahead(s', r)| + FeedLimit(limit) <= |Ahead(s, r)|
  {
    var ev := ClaimWork(a, ttl, limit, picked);
    var s' := Step(s, t, ev);
    var all := ClaimableSet(s.rows, a, t);
    assert r in all - picked;
    SubsetSize(picked + {r}, all);
    assert |picked| == FeedLimit(limit);
    assert picked <= Ahead(s, r);
    NothingOvertakes(s, t, ev, r);
    assert s.rows[r].row.updatedAt <= s.now;
    assert picked !! Ahead(s', r);
    SubsetSize(picked + Ahead(s', r), Ahead(s, r));
    assert |picked + Ahead(s', r)| == |picked| + |Ahead(s', r)|;
  }

  /** The items agent `a` could have been handed over a run. */
  function Capacity(es: seq<Stamped>, a: AgentId): nat
    decreases |es|
  {
    if es == [] then 0
    else
      var n := |es| - 1;
      Capacity(es[..n], a)
      + (if es[n].ev.ClaimWork? && es[n].ev.agent == a then FeedLimit(es[n].ev.limit) else 0)
  }

  /** No event of the run is a statement on row `r`. */
  predicate Untouched(es: seq<Stamped>, r: Id) {
    forall i :: 0 <= i < |es| ==> Project(es[i].ev, r).None?
  }

  lemma ClaimableStays(row: Row, a: AgentId, t: Time, t': Time)
    requires Claimable(row, a, t) && t <= t'
    ensures Claimable(row, a, t')
  {
  }

  /** While a claimable row goes untouched, its agent's pulls use up the rows ahead of it, item by item. */
  lemma {:induction false} PullsConsumeRank(s: System, es: seq<Stamped>, r: Id, a: AgentId)
    requires ClockAhead(s) && ValidTable(s, es) && r in s.rows
    requires Claimable(s.rows[r].row, a, s.now) && Untouched(es, r)
    ensures var s' := RunTable(s, es);
      && ClockAhead(s') && s.now <= s'.now
      && r in s'.rows && s'.rows[r] == s.rows[r]
      && Capacity(es, a) + |Ahead(s', r)| <= |Ahead(s, r)|
    decreases |es|
  {
    if es != [] {
      var n := |es| - 1;
      PullsConsumeRank(s, es[..n], r, a);
      var d := RunTable(s, es[..n]);
      var t, ev := es[n].t, es[n].ev;
      StepKeepsClockAhead(d, t, ev);
      NothingOvertakes(d, t, ev, r);
      SubsetSize(Ahead(Step(d, t, ev), r), Ahead(d, r));
      if ev.ClaimWork? && ev.agent == a {
        ClaimableStays(s.rows[r].row, a, s.now, t);
        MissedPullAdvances(d, t, a, ev.ttl, ev.limit, ev.picked, r);
      }
    }
  }

  predicate OnlyClaimed(es: seq<Stamped>, r: Id) {
    forall i :: 0 <= i < |es| ==> !(es[i].ev.OnRow? && es[i].ev.id == r)
  }

  /** A pull that takes an owned row is its owner's. */
  lemma OwnedRowGoesToItsOwner(s: System, es: seq<Stamped>, r: Id, i: nat)
    requires ValidTable(s, es) && r in s.rows && s.rows[r].row.agent.Some?
    requires i < |es| && es[i].ev.ClaimWork? && r in es[i].ev.picked
    ensures s.rows[r].row.agent == Some(es[i].ev.agent)
  {
    assert es[..i + 1] + es[i + 1..] == es;
    TableConcat(s, es[..i + 1], es[i + 1..]);
    assert es[..i + 1][..i] == es[..i];
    RowsEvolveAlone(s, es[..i], r);
    Leases.OwnerNeverChanges(s.rows[r], RowRun(es[..i], r));
    assert r in ClaimableSet(RunTable(s, es[..i]).rows, es[i].ev.agent, es[i].t);
  }

  /**
   Bounded bypass.  From any reachable table, once the pulls of agent `a` offer room for more items than
   there are rows ahead of its claimable row `r`, the row has been handed out, and to `a` if `a` owned it.
   */
  lemma BoundedBypass(past: seq<Stamped>, es: seq<Stamped>, r: Id, a: AgentId) returns (i: nat)
    requires ValidTable(EMPTY, past)
    requires var s := RunTable(EMPTY, past);
      && ValidTable(s, es) && r in s.rows && Claimable(s.rows[r].row, a, s.now)
      && Capacity(es, a) > |Ahead(s, r)|
    requires OnlyClaimed(es, r)
    ensures i < |es| && es[i].ev.ClaimWork? && r in es[i].ev.picked
    ensures RunTable(EMPTY, past).rows[r].row.agent == Some(a) ==> es[i].ev.agent == a
  {
    var s := RunTable(EMPTY, past);
    ClockIsAhead(past);
    if Untouched(es, r) {
      PullsConsumeRank(s, es, r, a);
      assert false;
    }
    i :| 0 <= i < |es| && Project(es[i].ev, r).Some?;
    if s.rows[r].row.agent == Some(a) {
      OwnedRowGoesToItsOwner(s, es, r, i);
    }
  }

  function Pulls(es: seq<Stamped>, a: AgentId): nat
    decreases |es|
  {
    if es == [] then 0
    else Pulls(es[..|es| - 1], a) + (if es[|es| - 1].ev.ClaimWork? && es[|es| - 1].ev.agent == a then 1 else 0)
  }

  /** Agent `a` always pulls with the same limit. */
  predicate SteadyLimit(es: seq<Stamped>, a: AgentId, limit: nat) {
    forall i :: 0 <= i < |es| && es[i].ev.ClaimWork? && es[i].ev.agent == a ==> FeedLimit(es[i].ev.limit) == limit
  }

  lemma {:induction false} SteadyCapacity(es: seq<Stamped>, a: AgentId, limit: nat)
    requires SteadyLimit(es, a, limit)
    ensures Capacity(es, a) == Pulls(es, a) * limit
    decreases |es|
  {
    if es != [] {
      SteadyCapacity(es[..|es| - 1], a, limit);
    }
  }

  /** In pulls: with `m` rows ahead, `m / limit + 1` pulls of `limit` items each always reach the row. */
  lemma HandedWithin(past: seq<Stamped>, es: seq<Stamped>, r: Id, a: AgentId, limit: nat) returns (i: nat)
    requires ValidTable(EMPTY, past) && SteadyLimit(es, a, limit) && 1 <= limit
    requires var s := RunTable(EMPTY, past);
      && ValidTable(s, es) && r in s.rows && Claimable(s.rows[r].row, a, s.now)
      && Pulls(es, a) >= |Ahead(s, r)| / limit + 1
    requires OnlyClaimed(es, r)
    ensures i < |es| && es[i].ev.ClaimWork? && r in es[i].ev.picked
    ensures RunTable(EMPTY, past).rows[r].row.agent == Some(a) ==> es[i].ev.agent == a
  {
    var m := |Ahead(RunTable(EMPTY, past), r)|;
    SteadyCapacity(es, a, limit);
    PullsCover(m, limit, Pulls(es, a));
    i := BoundedBypass(past, es, r, a);
  }

  lemma PullsCover(m: nat, limit: nat, pulls: nat)
    requires 1 <= limit && pulls >= m / limit + 1
    ensures pulls * limit > m
  {
    assert pulls * limit >= (m / limit + 1) * limit;
    assert m == (m / limit) * limit + m % limit;
  }
}
