/**
 The agent gateway with identity binding enforced, end to end.  A call is first authorized against the
 agents table; the status reports it carries are then read and written against the resources table,
 while binds, sweeps, claims and every other statement go on around it.
 */
module Gateway {
  import opened Basics
  import opened Rows
  import opened Table
  import opened Agents

  /** A call that passed the identity check, and a report whose write took effect. */
  datatype Session = Session(agent: AgentId, subject: string)

  datatype Accepted = Accepted(id: Id, writer: Session)

  datatype World = World(
    agents: map<AgentId, AgentCell>,
    table: System,
    sessions: map<nat, Session>,
    reports: map<(Id, nat), Session>,
    accepted: seq<Accepted>)

  datatype GatewayEvent =
    | Enlist(agent: AgentId, tokenHash: string)
    | OnAgent(agent: AgentId, ae: AgentEvent)
    | OnTable(ev: Event)
    | Authorize(session: nat, agent: AgentId, subject: string)
    | BeginReport(session: nat, id: Id, req: nat, report: Report, budget: int)
    | EndReport(id: Id, req: nat, clock: Time)

  predicate IsReportEvent(ev: Event) { ev.OnRow? && (ev.e.ReadForReport? || ev.e.WriteReport?) }

  predicate MayAct(w: World, agent: AgentId, subject: string) {
    && agent in w.agents && AgentLive(w.agents[agent].row)
    && subject != "" && w.agents[agent].row.bound == subject
  }

  /** Which table event, if any, a gateway event performs. */
  function TableEventOf(w: World, g: GatewayEvent): Option<Event> {
    match g
    case OnTable(ev) => Some(ev)
    case BeginReport(session, id, req, report, budget) =>
      if session in w.sessions then Some(OnRow(id, ReadForReport(req, w.sessions[session].agent, report, budget)))
      else None
    case EndReport(id, req, clock) => Some(OnRow(id, WriteReport(req, clock)))
    case _ => None
  }

  predicate GatewayCan(w: World, t: Time, g: GatewayEvent) {
    && (TableEventOf(w, g).Some? ==> CanHappen(w.table, t, TableEventOf(w, g).value))
    && match g
       case Enlist(agent, _) => agent !in w.agents
       case OnAgent(agent, ae) => agent in w.agents
       case OnTable(ev) => !IsReportEvent(ev)
       case Authorize(_, agent, subject) => MayAct(w, agent, subject)
       case BeginReport(session, _, _, _, _) => session in w.sessions
       case EndReport(id, req, _) => (id, req) in w.reports
  }

  function GatewayStep(w: World, t: Time, g: GatewayEvent): World {
    match g
    case Enlist(agent, hash) => w.(agents := w.agents[agent := NewAgent(t, hash)])
    case OnAgent(agent, ae) =>
      if agent in w.agents then w.(agents := w.agents[agent := AgentStep(w.agents[agent], t, ae)]) else w
    case OnTable(ev) => w.(table := Step(w.table, t, ev))
    case Authorize(session, agent, subject) => w.(sessions := w.sessions[session := Session(agent, subject)])
    case BeginReport(session, id, req, report, budget) =>
      if TableEventOf(w, g).None? || id !in w.table.rows then w
      else
        var table := Step(w.table, t, TableEventOf(w, g).value);
        if req in table.rows[id].pending then
          w.(table := table, reports := w.reports[(id, req) := w.sessions[session]])
        else w.(table := table)
    case EndReport(id, req, clock) =>
      if id !in w.table.rows || (id, req) !in w.reports then w
      else
        var table := Step(w.table, t, OnRow(id, WriteReport(req, clock)));
        var applied := |table.rows[id].hist| > |w.table.rows[id].hist|;
        w.(table := table, reports := w.reports - {(id, req)},
           accepted := if applied then w.accepted + [Accepted(id, w.reports[(id, req)])] else w.accepted)
  }

  datatype TimedGateway = AtGateway(t: Time, g: GatewayEvent)

  const NOTHING: World := World(map[], EMPTY, map[], map[], [])

  function RunGateway(es: seq<TimedGateway>): World
    decreases |es|
  {
    if es == [] then NOTHING
    else
      var n := |es| - 1;
      GatewayStep(RunGateway(es[..n]), es[n].t, es[n].g)
  }

  predicate ValidGateway(es: seq<TimedGateway>)
    decreases |es|
  {
    es == [] ||
    (var n := |es| - 1;
     ValidGateway(es[..n]) && GatewayCan(RunGateway(es[..n]), es[n].t, es[n].g))
  }

  /** The session speaks for an agent row that is bound to its subject. */
  predicate Backed(w: World, s: Session) {
    s.agent in w.agents && s.subject != "" && w.agents[s.agent].row.bound == s.subject
  }

  /** The row is owned by the session's agent. */
  predicate OwnedBy(w: World, id: Id, s: Session) {
    id in w.table.rows && w.table.rows[id].row.agent == Some(s.agent)
  }

  predicate PendingTracked(w: World) {
    forall id, q :: id in w.table.rows && q in w.table.rows[id].pending ==>
      (id, q) in w.reports && w.reports[(id, q)].agent == w.table.rows[id].pending[q].agent
  }

  predicate SessionsBacked(w: World) { forall s :: s in w.sessions ==> Backed(w, w.sessions[s]) }

  predicate ReportsOwned(w: World) {
    forall k :: k in w.reports ==> Backed(w, w.reports[k]) && OwnedBy(w, k.0, w.reports[k])
  }

  predicate AcceptedOwned(w: World) {
    forall i :: 0 <= i < |w.accepted| ==>
      Backed(w, w.accepted[i].writer) && OwnedBy(w, w.accepted[i].id, w.accepted[i].writer)
  }

  predicate WriterInv(w: World) {
    SessionsBacked(w) && ReportsOwned(w) && PendingTracked(w) && AcceptedOwned(w)
  }

  lemma BackingPersists(w: World, t: Time, g: GatewayEvent, s: Session)
    requires GatewayCan(w, t, g) && Backed(w, s)
    ensures Backed(GatewayStep(w, t, g), s)
  {
  }

  lemma OwnershipPersists(w: World, t: Time, g: GatewayEvent, id: Id, s: Session)
    requires GatewayCan(w, t, g) && OwnedBy(w, id, s)
    ensures OwnedBy(GatewayStep(w, t, g), id, s)
  {
    if TableEventOf(w, g).Some? && Project(TableEventOf(w, g).value, id).Some? {
      assert Enabled(w.table.rows[id], t, Project(TableEventOf(w, g).value, id).value);
    }
  }

  predicate TrackedAt(w: World, id: Id, q: nat) {
    id in w.table.rows && q in w.table.rows[id].pending ==>
      (id, q) in w.reports && w.reports[(id, q)].agent == w.table.rows[id].pending[q].agent
  }

  lemma StaysTrackedAt(w: World, t: Time, g: GatewayEvent, id: Id, q: nat)
    requires GatewayCan(w, t, g) && TrackedAt(w, id, q)
    ensures TrackedAt(GatewayStep(w, t, g), id, q)
  {
  }

  lemma PendingStaysTracked(w: World, t: Time, g: GatewayEvent)
    requires GatewayCan(w, t, g) && PendingTracked(w)
    ensures PendingTracked(GatewayStep(w, t, g))
  {
    var w' := GatewayStep(w, t, g);
    forall id, q | id in w'.table.rows && q in w'.table.rows[id].pending
      ensures (id, q) in w'.reports && w'.reports[(id, q)].agent == w'.table.rows[id].pending[q].agent
    {
      assert TrackedAt(w, id, q);
      StaysTrackedAt(w, t, g, id, q);
    }
  }

  lemma SessionsStayBacked(w: World, t: Time, g: GatewayEvent)
    requires SessionsBacked(w) && GatewayCan(w, t, g)
    ensures SessionsBacked(GatewayStep(w, t, g))
  {
    var w' := GatewayStep(w, t, g);
    forall s | s in w'.sessions
      ensures Backed(w', w'.sessions[s])
    {
      if s in w.sessions {
        BackingPersists(w, t, g, w.sessions[s]);
      }
    }
  }

  lemma ReportsStayOwned(w: World, t: Time, g: GatewayEvent)
    requires SessionsBacked(w) && ReportsOwned(w) && GatewayCan(w, t, g)
    ensures ReportsOwned(GatewayStep(w, t, g))
  {
    var w' := GatewayStep(w, t, g);
    forall k | k in w'.reports
      ensures Backed(w', w'.reports[k]) && OwnedBy(w', k.0, w'.reports[k])
    {
      if k in w.reports && w'.reports[k] == w.reports[k] {
        BackingPersists(w, t, g, w.reports[k]);
        OwnershipPersists(w, t, g, k.0, w.reports[k]);
      } else {
        BackingPersists(w, t, g, w.sessions[g.session]);
        assert g.req !in w.table.rows[g.id].pending;
      }
    }
  }

  lemma AcceptedStayOwned(w: World, t: Time, g: GatewayEvent)
    requires ReportsOwned(w) && AcceptedOwned(w) && GatewayCan(w, t, g)
    ensures AcceptedOwned(GatewayStep(w, t, g))
  {
    var w' := GatewayStep(w, t, g);
    forall i | 0 <= i < |w'.accepted|
      ensures Backed(w', w'.accepted[i].writer) && OwnedBy(w', w'.accepted[i].id, w'.accepted[i].writer)
    {
      if i < |w.accepted| {
        BackingPersists(w, t, g, w.accepted[i].writer);
        OwnershipPersists(w, t, g, w.accepted[i].id, w.accepted[i].writer);
      } else {
        BackingPersists(w, t, g, w.reports[(g.id, g.req)]);
        OwnershipPersists(w, t, g, g.id, w.reports[(g.id, g.req)]);
      }
    }
  }

  lemma StepKeepsWriterInv(w: World, t: Time, g: GatewayEvent)
    requires WriterInv(w) && GatewayCan(w, t, g)
    ensures WriterInv(GatewayStep(w, t, g))
  {
    SessionsStayBacked(w, t, g);
    ReportsStayOwned(w, t, g);
    PendingStaysTracked(w, t, g);
    AcceptedStayOwned(w, t, g);
  }

  lemma {:induction false} WriterInvHolds(es: seq<TimedGateway>)
    requires ValidGateway(es)
    ensures WriterInv(RunGateway(es))
    decreases |es|
  {
    if es != [] {
      var n := |es| - 1;
      WriterInvHolds(es[..n]);
      StepKeepsWriterInv(RunGateway(es[..n]), es[n].t, es[n].g);
    }
  }

  /**
   What the gateway lets through: a report is begun if and only if its session's agent owns the live row,
   and a begun report is accepted, under its session, if and only if the row is still live when written.
   */
  lemma AcceptedIff(w: World, t: Time, g: GatewayEvent)
    requires GatewayCan(w, t, g) && PendingTracked(w)
    ensures g.BeginReport? ==>
      var r := w.table.rows[g.id].row;
      (g.req in GatewayStep(w, t, g).table.rows[g.id].pending <==> r.deletedAt == None && r.agent == Some(w.sessions[g.session].agent))
    ensures g.EndReport? ==>
      GatewayStep(w, t, g).accepted ==
        if w.table.rows[g.id].row.deletedAt == None then w.accepted + [Accepted(g.id, w.reports[(g.id, g.req)])] else w.accepted
    ensures !g.EndReport? ==> GatewayStep(w, t, g).accepted == w.accepted
  {
  }

  /** The table events of a run, in order. */
  function TableRun(es: seq<TimedGateway>): seq<Stamped>
    decreases |es|
  {
    if es == [] then []
    else
      var n := |es| - 1;
      match TableEventOf(RunGateway(es[..n]), es[n].g)
      case None => TableRun(es[..n])
      case Some(ev) => TableRun(es[..n]) + [Stamped(es[n].t, ev)]
  }

  lemma StepMovesTable(w: World, t: Time, g: GatewayEvent)
    requires GatewayCan(w, t, g)
    ensures GatewayStep(w, t, g).table == (match TableEventOf(w, g) case None => w.table case Some(ev) => Step(w.table, t, ev))
    ensures g.Authorize? ==> GatewayStep(w, t, g).sessions == w.sessions[g.session := Session(g.agent, g.subject)]
    ensures !g.Authorize? ==> GatewayStep(w, t, g).sessions == w.sessions
  {
  }

  /** What the gateway does to resources is a run of the resources table, so all that holds of every such run holds behind it. */
  lemma {:induction false} TableIsARun(es: seq<TimedGateway>)
    requires ValidGateway(es)
    ensures ValidTable(EMPTY, TableRun(es)) && RunGateway(es).table == RunTable(EMPTY, TableRun(es))
    decreases |es|
  {
    if es != [] {
      var n := |es| - 1;
      TableIsARun(es[..n]);
      var w := RunGateway(es[..n]);
      StepMovesTable(w, es[n].t, es[n].g);
      match TableEventOf(w, es[n].g)
      case None =>
      case Some(ev) => TableExtends(EMPTY, TableRun(es[..n]), Stamped(es[n].t, ev));
    }
  }

  lemma DeletedStaysDeleted(w: World, t: Time, g: GatewayEvent, agent: AgentId)
    requires GatewayCan(w, t, g) && agent in w.agents && w.agents[agent].row.deletedAt != None
    ensures var w' := GatewayStep(w, t, g); agent in w'.agents && w'.agents[agent].row.deletedAt != None
  {
  }

  lemma {:induction false} DeletedFor(es: seq<TimedGateway>, i: nat, agent: AgentId)
    requires ValidGateway(es) && i < |es| && es[i].g == OnAgent(agent, SoftDelete)
    ensures agent in RunGateway(es).agents && RunGateway(es).agents[agent].row.deletedAt != None
    decreases |es|
  {
    var n := |es| - 1;
    if i < n {
      DeletedFor(es[..n], i, agent);
      DeletedStaysDeleted(RunGateway(es[..n]), es[n].t, es[n].g, agent);
    }
  }

  lemma {:induction false} ValidPrefix(es: seq<TimedGateway>, n: nat)
    requires ValidGateway(es) && n <= |es|
    ensures ValidGateway(es[..n])
    decreases |es|
  {
    if n < |es| {
      ValidPrefix(es[..|es| - 1], n);
      assert es[..|es| - 1][..n] == es[..n];
    } else {
      assert es[..n] == es;
    }
  }

  /** A call is let in only as an agent that is registered, not deleted, and bound to the caller's own non-empty subject. */
  lemma LetInOnlyAsBound(es: seq<TimedGateway>, j: nat)
    requires ValidGateway(es) && j < |es| && es[j].g.Authorize?
    ensures es[j].g.agent in RunGateway(es[..j]).agents
    ensures var r := RunGateway(es[..j]).agents[es[j].g.agent].row;
      r.deletedAt == None && r.bound == es[j].g.subject && es[j].g.subject != ""
    ensures forall i :: 0 <= i < j ==> es[i].g != OnAgent(es[j].g.agent, SoftDelete)
  {
    ValidPrefix(es, j + 1);
    assert es[..j + 1][..j] == es[..j];
    forall i | 0 <= i < j
      ensures es[i].g != OnAgent(es[j].g.agent, SoftDelete)
    {
      if es[i].g == OnAgent(es[j].g.agent, SoftDelete) {
        DeletedFor(es[..j], i, es[j].g.agent);
      }
    }
  }

  /**
   Single writer, end to end: over a resource's whole life every accepted status report came from one
   agent row and one token subject.
   */
  lemma SingleWriter(es: seq<TimedGateway>, i: nat, j: nat)
    requires ValidGateway(es)
    requires i < |RunGateway(es).accepted| && j < |RunGateway(es).accepted|
    requires RunGateway(es).accepted[i].id == RunGateway(es).accepted[j].id
    ensures RunGateway(es).accepted[i].writer == RunGateway(es).accepted[j].writer
  {
    WriterInvHolds(es);
  }
}
