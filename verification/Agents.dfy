/**
 The `agents` table: identity binding, liveness and one-time enrollment.  As for resources, an agent's
 row is kept with what is in flight on it (enrollments whose token was checked and not yet consumed)
 and the auxiliary history of statements that changed it.
 */
module Agents {
  import opened Basics

  type Time = int
  type AgentId = nat

  datatype AgentStatus = PendingAgent | Online | Offline | OtherStatus(text: string)

  /** `bound` is the token subject the agent is pinned to, empty until its first Register. */
  datatype AgentRow = AgentRow(
    status: AgentStatus,
    lastSeen: Option<Time>,
    bound: string,
    tokenHash: string,
    tokenUsedAt: Option<Time>,
    deletedAt: Option<Time>)

  datatype AgentEntry =
    | Bound(at: Time, subject: string)
    | Beaten(at: Time)
    | WentOffline(at: Time, threshold: int)
    | StatusWritten(at: Time)
    | Enrolled(at: Time, req: nat)

  datatype AgentCell = AgentCell(now: Time, row: AgentRow, checked: set<nat>, hist: seq<AgentEntry>)

  datatype AgentEvent =
    | Bind(subject: string)
    | Beat
    | Sweep(threshold: int)
    | WriteStatus(status: AgentStatus)
    | SoftDelete
    | CheckToken(req: nat, matches: bool)
    | CommitEnrollment(req: nat)

  function NewAgent(t: Time, tokenHash: string): AgentCell {
    AgentCell(t, AgentRow(PendingAgent, None, "", tokenHash, None, None), {}, [])
  }

  predicate AgentLive(r: AgentRow) { r.deletedAt.None? }

  /** The bind statement's guard: first writer wins, the same subject again is a no-op. */
  predicate MayBind(r: AgentRow, subject: string) {
    AgentLive(r) && subject != "" && (r.bound == "" || r.bound == subject)
  }

  /** The sweep's guard: a transition, on an agent that beat once and then fell silent. */
  predicate Stale(r: AgentRow, t: Time, threshold: int) {
    AgentLive(r) && !r.status.Offline? && r.lastSeen.Some? && r.lastSeen.value < t - threshold
  }

  predicate TokenUsable(r: AgentRow, matches: bool) {
    AgentLive(r) && r.tokenHash != "" && r.tokenUsedAt.None? && matches
  }

  function AgentStep(c: AgentCell, t: Time, e: AgentEvent): AgentCell {
    var r := c.row;
    var d := c.(now := t);
    match e
    case Bind(subject) =>
      if !MayBind(r, subject) then d
      else d.(row := r.(bound := subject), hist := c.hist + [Bound(t, subject)])
    case Beat =>
      if !AgentLive(r) then d
      else d.(row := r.(lastSeen := Some(t), status := Online), hist := c.hist + [Beaten(t)])
    case Sweep(threshold) =>
      if !Stale(r, t, threshold) then d
      else d.(row := r.(status := Offline), hist := c.hist + [WentOffline(t, threshold)])
    case WriteStatus(status) =>
      if !AgentLive(r) then d
      else d.(row := r.(status := status), hist := c.hist + [StatusWritten(t)])
    case SoftDelete => if !AgentLive(r) then d else d.(row := r.(deletedAt := Some(t)))
    case CheckToken(req, matches) => if !TokenUsable(r, matches) then d else d.(checked := c.checked + {req})
    case CommitEnrollment(req) =>
      if req !in c.checked || !AgentLive(r) || r.tokenUsedAt.Some? then d.(checked := c.checked - {req})
      else d.(row := r.(tokenUsedAt := Some(t)), checked := c.checked - {req}, hist := c.hist + [Enrolled(t, req)])
  }

  datatype TimedAgent = AtAgent(t: Time, e: AgentEvent)

  function RunAgent(c: AgentCell, es: seq<TimedAgent>): AgentCell
    decreases |es|
  {
    if es == [] then c
    else
      var n := |es| - 1;
      AgentStep(RunAgent(c, es[..n]), es[n].t, es[n].e)
  }

  /** The clock does not run backwards. */
  predicate ValidAgentRun(c: AgentCell, es: seq<TimedAgent>)
    decreases |es|
  {
    es == [] ||
    (var n := |es| - 1;
     ValidAgentRun(c, es[..n]) && RunAgent(c, es[..n]).now <= es[n].t)
  }

  // ---- invariants --------------------------------------------------------------------------------

  /** Every bind ever recorded is to the subject the agent is bound to now. */
  predicate BoundOnce(c: AgentCell) {
    forall i :: 0 <= i < |c.hist| && c.hist[i].Bound? ==> c.hist[i].subject == c.row.bound && c.row.bound != ""
  }

  /** The join token was consumed at most once, and never while it still reads as unused. */
  predicate EnrolledOnce(c: AgentCell) {
    && (forall i, j :: 0 <= i < j < |c.hist| ==> !(c.hist[i].Enrolled? && c.hist[j].Enrolled?))
    && (c.row.tokenUsedAt.None? ==> forall i :: 0 <= i < |c.hist| ==> !c.hist[i].Enrolled?)
  }

  predicate Revives(e: AgentEntry) { e.Beaten? || e.StatusWritten? }

  predicate RevivedBetween(h: seq<AgentEntry>, lo: int, hi: int) {
    exists k :: 0 <= lo < k < hi <= |h| && Revives(h[k])
  }

  /** Between two offline records there is a heartbeat or an explicit status write. */
  predicate OfflineOncePerEpisode(h: seq<AgentEntry>) {
    forall i, j :: 0 <= i < j < |h| && h[i].WentOffline? && h[j].WentOffline? ==> RevivedBetween(h, i, j)
  }

  /** Nobody is marked offline within the threshold of a heartbeat. */
  predicate NoFalseOffline(h: seq<AgentEntry>) {
    forall i, j :: 0 <= i < j < |h| && h[i].Beaten? && h[j].WentOffline? ==> h[i].at < h[j].at - h[j].threshold
  }

  predicate LivenessInv(c: AgentCell) {
    && OfflineOncePerEpisode(c.hist)
    && NoFalseOffline(c.hist)
    && (forall i :: 0 <= i < |c.hist| && c.hist[i].WentOffline? && !RevivedBetween(c.hist, i, |c.hist|)
          ==> c.row.status.Offline?)
    && (forall i :: 0 <= i < |c.hist| && c.hist[i].Beaten?
          ==> c.row.lastSeen.Some? && c.hist[i].at <= c.row.lastSeen.value)
    && (c.row.lastSeen.Some? ==> c.row.lastSeen.value <= c.now)
  }

  lemma RevivalPersists(h: seq<AgentEntry>, h': seq<AgentEntry>, lo: int, hi: int)
    requires h <= h' && RevivedBetween(h, lo, hi)
    ensures RevivedBetween(h', lo, hi) && RevivedBetween(h', lo, |h'|)
  {
    var k :| 0 <= lo < k < hi <= |h| && Revives(h[k]);
    assert h'[k] == h[k];
  }

  lemma StepKeepsEpisodes(c: AgentCell, t: Time, e: AgentEvent)
    requires LivenessInv(c) && c.now <= t
    ensures OfflineOncePerEpisode(AgentStep(c, t, e).hist)
  {
    var h, h' := c.hist, AgentStep(c, t, e).hist;
    forall i, j | 0 <= i < j < |h'| && h'[i].WentOffline? && h'[j].WentOffline?
      ensures RevivedBetween(h', i, j)
    {
      assert h'[i] == h[i];
      if j < |h| {
        assert h'[j] == h[j];
        RevivalPersists(h, h', i, j);
      } else {
        assert RevivedBetween(h, i, |h|);
        RevivalPersists(h, h', i, |h|);
      }
    }
  }

  lemma StepKeepsLiveness(c: AgentCell, t: Time, e: AgentEvent)
    requires LivenessInv(c) && c.now <= t
    ensures LivenessInv(AgentStep(c, t, e))
  {
    var c' := AgentStep(c, t, e);
    var h, h' := c.hist, c'.hist;
    StepKeepsEpisodes(c, t, e);
    forall i | 0 <= i < |h'| && h'[i].WentOffline? && !RevivedBetween(h', i, |h'|)
      ensures c'.row.status.Offline?
    {
      if i < |h| {
        assert h'[i] == h[i];
        if RevivedBetween(h, i, |h|) {
          RevivalPersists(h, h', i, |h|);
        }
        assert |h'| == |h| || !Revives(h'[|h|]);
      }
    }
  }

  lemma StepKeepsBoundOnce(c: AgentCell, t: Time, e: AgentEvent)
    requires BoundOnce(c)
    ensures BoundOnce(AgentStep(c, t, e))
    ensures c.row.bound != "" ==> AgentStep(c, t, e).row.bound == c.row.bound
  {
  }

  lemma StepKeepsEnrolledOnce(c: AgentCell, t: Time, e: AgentEvent)
    requires EnrolledOnce(c)
    ensures EnrolledOnce(AgentStep(c, t, e))
  {
  }

  /** Over an agent's whole life: one subject, one enrollment, one offline record per silence. */
  lemma {:induction false} AgentLifeIsSound(t0: Time, tokenHash: string, es: seq<TimedAgent>)
    requires ValidAgentRun(NewAgent(t0, tokenHash), es)
    ensures var c := RunAgent(NewAgent(t0, tokenHash), es);
      BoundOnce(c) && EnrolledOnce(c) && LivenessInv(c)
    decreases |es|
  {
    if es != [] {
      var n := |es| - 1;
      AgentLifeIsSound(t0, tokenHash, es[..n]);
      var c := RunAgent(NewAgent(t0, tokenHash), es[..n]);
      StepKeepsBoundOnce(c, es[n].t, es[n].e);
      StepKeepsEnrolledOnce(c, es[n].t, es[n].e);
      StepKeepsLiveness(c, es[n].t, es[n].e);
    }
  }

  /** A heartbeat brings a live agent online, whatever it was, and dates it. */
  lemma HeartbeatBringsOnline(c: AgentCell, t: Time)
    ensures var r := AgentStep(c, t, Beat).row;
      if c.row.deletedAt == None then r == c.row.(status := Online, lastSeen := Some(t)) else r == c.row
  {
  }

  /** A sweep marks an agent offline if and only if it is live, not offline yet, beat once, and not within the threshold. */
  lemma SweepMarksIff(c: AgentCell, t: Time, threshold: int)
    ensures AgentStep(c, t, Sweep(threshold)).hist == c.hist + [WentOffline(t, threshold)] <==>
      c.row.deletedAt == None && c.row.status != Offline && c.row.lastSeen != None && c.row.lastSeen.value < t - threshold
    ensures var r := AgentStep(c, t, Sweep(threshold)).row;
      r == c.row || (r == c.row.(status := Offline) && AgentStep(c, t, Sweep(threshold)).hist == c.hist + [WentOffline(t, threshold)])
  {
    assert |c.hist + [WentOffline(t, threshold)]| == |c.hist| + 1;
  }

  /**
   An enrollment commits if and only if its token was found usable before and is still unused; and it is
   found usable if and only if the agent is live, has a token, has not used it, and the caller's matches.
   */
  lemma EnrollsIff(c: AgentCell, t: Time, req: nat, matches: bool)
    ensures AgentStep(c, t, CommitEnrollment(req)).hist == c.hist + [Enrolled(t, req)] <==>
      req in c.checked && c.row.deletedAt == None && c.row.tokenUsedAt == None
    ensures req !in AgentStep(c, t, CommitEnrollment(req)).checked
    ensures req !in c.checked ==>
      (req in AgentStep(c, t, CheckToken(req, matches)).checked <==>
         c.row.deletedAt == None && c.row.tokenHash != "" && c.row.tokenUsedAt == None && matches)
  {
    assert |c.hist + [Enrolled(t, req)]| == |c.hist| + 1;
  }

  /** What an agent's status was last set to: by a heartbeat, by a sweep that found it silent, or by hand, while it was live. */
  function StatusSaid(c: AgentCell, es: seq<TimedAgent>): AgentStatus
    decreases |es|
  {
    if es == [] then c.row.status
    else
      var n := |es| - 1;
      var r, said := RunAgent(c, es[..n]).row, StatusSaid(c, es[..n]);
      if r.deletedAt != None then said
      else
        match es[n].e
        case Beat => Online
        case Sweep(threshold) => if r.lastSeen != None && r.lastSeen.value < es[n].t - threshold then Offline else said
        case WriteStatus(status) => status
        case _ => said
  }

  lemma {:induction false} StatusIsAsSaid(c: AgentCell, es: seq<TimedAgent>)
    ensures RunAgent(c, es).row.status == StatusSaid(c, es)
    decreases |es|
  {
    if es != [] {
      StatusIsAsSaid(c, es[..|es| - 1]);
    }
  }

  /** An agent that never beat and whose status nobody wrote is still pending, whatever sweeps went by. */
  lemma {:induction false} UnseenStaysPending(t0: Time, tokenHash: string, es: seq<TimedAgent>)
    requires forall i :: 0 <= i < |es| ==> es[i].e != Beat && !es[i].e.WriteStatus?
    ensures var r := RunAgent(NewAgent(t0, tokenHash), es).row; r.status == PendingAgent && r.lastSeen == None
    decreases |es|
  {
    if es != [] {
      UnseenStaysPending(t0, tokenHash, es[..|es| - 1]);
    }
  }

  /** Deleting an agent is the end of it: from then on no statement changes its row or adds to its history. */
  lemma {:induction false} DeletionIsFinal(c: AgentCell, es: seq<TimedAgent>, i: nat)
    requires i < |es| && es[i].e == SoftDelete
    ensures var d, d' := RunAgent(c, es[..i + 1]), RunAgent(c, es);
      d'.row.deletedAt != None && d'.row == d.row && d'.hist == d.hist
    decreases |es|
  {
    var n := |es| - 1;
    if i == n {
      assert es[..i + 1] == es;
    } else {
      assert es[..n][..i + 1] == es[..i + 1];
      DeletionIsFinal(c, es[..n], i);
    }
  }

  // ---- the table in place ------------------------------------------------------------------------

  datatype AgentError = NotFound | Forbidden | Invalid

  class AgentTable {
    var agents: map<AgentId, AgentCell>

    /** Pins the agent to the caller's subject, or says why not. */
    method BindSubject(t: Time, id: AgentId, subject: string) returns (r: Result<(), AgentError>)
      modifies this
      ensures r.Ok? <==>
        && subject != "" && id in old(agents) && old(agents)[id].row.deletedAt == None
        && (old(agents)[id].row.bound == "" || old(agents)[id].row.bound == subject)
      ensures r.Ok? ==> id in agents && agents[id].row.bound == subject
      ensures r == Err(NotFound) <==> subject != "" && (id !in old(agents) || !AgentLive(old(agents)[id].row))
      ensures agents == if subject != "" && id in old(agents)
                        then old(agents)[id := AgentStep(old(agents)[id], t, Bind(subject))] else old(agents)
    {
      if subject == "" {
        return Err(Invalid);
      }
      if id !in agents {
        return Err(NotFound);
      }
      var before := agents[id].row;
      var matched := MayBind(before, subject);
      agents := agents[id := AgentStep(agents[id], t, Bind(subject))];
      if matched {
        return Ok(());
      } else if !AgentLive(before) {
        return Err(NotFound);
      } else {
        return Err(Forbidden);
      }
    }

    /** Lets a caller act as the agent only under the subject it is bound to. */
    method RequireSubject(id: AgentId, subject: string) returns (r: Result<AgentId, AgentError>)
      ensures r.Ok? <==> id in agents && AgentLive(agents[id].row) && subject != "" && agents[id].row.bound == subject
      ensures r.Ok? ==> r.value == id
      ensures r == Err(NotFound) <==> id !in agents || !AgentLive(agents[id].row)
    {
      if id !in agents || !AgentLive(agents[id].row) {
        return Err(NotFound);
      }
      var row := agents[id].row;
      if row.bound == "" {
        return Err(Forbidden);
      }
      if subject == "" || row.bound != subject {
        return Err(Forbidden);
      }
      return Ok(id);
    }

    /** Marks silent agents offline and returns exactly those this call moved. */
    method SweepOffline(t: Time, threshold: int) returns (r: Result<set<AgentId>, AgentError>)
      modifies this
      ensures threshold <= 0 ==> r == Err(Invalid) && agents == old(agents)
      ensures threshold > 0 ==>
        && r.Ok?
        && agents == (map id | id in old(agents) :: AgentStep(old(agents)[id], t, Sweep(threshold)))
        && r.value == (set id | id in old(agents) && |agents[id].hist| > |old(agents)[id].hist|)
    {
      if threshold <= 0 {
        return Err(Invalid);
      }
      var moved := set id | id in agents && Stale(agents[id].row, t, threshold);
      agents := map id | id in agents :: AgentStep(agents[id], t, Sweep(threshold));
      return Ok(moved);
    }

    /** The standing offline set. */
    method ListOffline() returns (ids: set<AgentId>)
      ensures forall id :: id in ids <==> id in agents && AgentLive(agents[id].row) && agents[id].row.status.Offline?
    {
      ids := set id | id in agents && AgentLive(agents[id].row) && agents[id].row.status.Offline?;
    }
  }
}
