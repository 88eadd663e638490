/**
 The anonymous capability probe's cache over the control_plane row: a completed setup is cached for
 ever, an incomplete one for five seconds.
 */
module Capabilities {
  import opened Basics
  import opened Backoff
  import ControlPlane

  const TTL: int := 5 * SECOND

  datatype Cache = Cache(complete: bool, consoleId: string, checkedAt: Option<int>)

  /** What the row says, with an unreadable row read as an unfinished setup. */
  function ConsoleIdentity(w: ControlPlane.World, readable: bool): (bool, string) {
    if readable && ControlPlane.Completed(w) then (true, ControlPlane.ConsoleId(w)) else (false, "")
  }

  function Refreshed(c: Cache, w: ControlPlane.World, now: int, readable: bool): Cache {
    if c.complete || (c.checkedAt.Some? && now - c.checkedAt.value < TTL) then c
    else
      var (complete, consoleId) := ConsoleIdentity(w, readable);
      Cache(complete, consoleId, Some(now))
  }

  /** The answer is what the cache says once it has been refreshed, if it was due. */
  function Answer(c: Cache): (bool, string) { if c.complete then (true, c.consoleId) else (false, "") }

  class CapabilitiesHandler {
    var complete: bool
    var consoleId: string
    var checkedAt: Option<int>

    constructor ()
      ensures Cache(complete, consoleId, checkedAt) == Cache(false, "", None)
    {
      complete, consoleId, checkedAt := false, "", None;
    }

    method SetupIdentity(w: ControlPlane.World, now: int, readable: bool) returns (answer: bool, id: string)
      modifies this
      ensures Cache(complete, consoleId, checkedAt) == Refreshed(old(Cache(complete, consoleId, checkedAt)), w, now, readable)
      ensures (answer, id) == Answer(Cache(complete, consoleId, checkedAt))
    {
      if complete { return true, consoleId; }
      if checkedAt.Some? && now - checkedAt.value < TTL { return false, ""; }
      answer, id := false, "";
      if readable && ControlPlane.Completed(w) { answer, id := true, ControlPlane.ConsoleId(w); }
      checkedAt, complete, consoleId := Some(now), answer, id;
    }
  }

  // ---- the cache beside a running setup ----------------------------------------------------------

  /** `since` is when completion was first recorded. */
  datatype System = System(w: ControlPlane.World, clock: int, since: Option<int>, cache: Cache)

  datatype Event = Wait(span: nat) | Attempts(a: ControlPlane.Attempt) | Query

  /** The row can be read. */
  predicate Readable(e: Event) { e.Attempts? ==> e.a.f(1).Fine? || Dies(e.a.f(1)) }

  function Step(s: System, e: Event): System {
    match e
    case Wait(span) => s.(clock := s.clock + span)
    case Attempts(a) =>
      var w := ControlPlane.RunAttempt(s.w, a);
      s.(w := w, since := if s.since.None? && ControlPlane.Completed(w) then Some(s.clock) else s.since)
    case Query => s.(cache := Refreshed(s.cache, s.w, s.clock, true))
  }

  const START: System := System(ControlPlane.START, 0, None, Cache(false, "", None))

  function Run(es: seq<Event>): System
    decreases |es|
  {
    if es == [] then START else Step(Run(es[..|es| - 1]), es[|es| - 1])
  }

  predicate CacheInv(s: System) {
    && (ControlPlane.Completed(s.w) ==> s.w.auth.locked)
    && (ControlPlane.Completed(s.w) <==> s.since.Some?)
    && (s.since.Some? ==> s.since.value <= s.clock)
    && (s.cache.complete ==> ControlPlane.Completed(s.w) && s.cache.consoleId == ControlPlane.ConsoleId(s.w))
    && (s.cache.checkedAt.Some? ==> s.cache.checkedAt.value <= s.clock)
    && (!s.cache.complete && s.cache.checkedAt.Some? && s.since.Some? ==> s.cache.checkedAt.value <= s.since.value)
  }

  lemma {:induction false} CacheInvHolds(es: seq<Event>)
    requires forall i :: 0 <= i < |es| ==> Readable(es[i])
    ensures CacheInv(Run(es))
    decreases |es|
  {
    if es != [] {
      CacheInvHolds(es[..|es| - 1]);
      assert Readable(es[|es| - 1]);
    }
  }

  /**
   In every run over a readable row, a "complete" answer is right, console client included, then and
   for ever after; a "not complete" answer is right, or completion was recorded less than the TTL ago.
   */
  lemma AnswersAreRight(es: seq<Event>, later: seq<Event>)
    requires forall i :: 0 <= i < |es| ==> Readable(es[i])
    requires forall i :: 0 <= i < |later| ==> Readable(later[i])
    ensures var s := Run(es + [Query]);
      var (complete, consoleId) := Answer(s.cache);
      if complete then
        var t := Run(es + [Query] + later);
        ControlPlane.Completed(t.w) && ControlPlane.ConsoleId(t.w) == consoleId && Answer(t.cache) == (true, consoleId)
      else s.since.None? || s.clock - s.since.value < TTL
  {
    var asked := es + [Query];
    assert asked[..|es|] == es;
    CacheInvHolds(es);
    CacheInvHolds(asked);
    if Run(asked).cache.complete {
      CompleteStays(asked, later);
    }
  }

  lemma {:induction false} CompleteStays(es: seq<Event>, later: seq<Event>)
    requires Run(es).cache.complete && forall i :: 0 <= i < |es + later| ==> Readable((es + later)[i])
    ensures Run(es + later).cache == Run(es).cache && CacheInv(Run(es + later))
    decreases |later|
  {
    CacheInvHolds(es + later);
    if later == [] {
      assert es + later == es;
    } else {
      var n := |later| - 1;
      assert (es + later)[..|es| + n] == es + later[..n];
      CompleteStays(es, later[..n]);
    }
  }

  // ---- how often the row is read -----------------------------------------------------------------

  /** The times at which the probe went to the row. */
  function Reads(es: seq<Event>): seq<int>
    decreases |es|
  {
    if es == [] then []
    else
      var n := |es| - 1;
      var s := Run(es[..n]);
      if es[n].Query? && !s.cache.complete && (s.cache.checkedAt == None || s.clock - s.cache.checkedAt.value >= 5 * SECOND)
      then Reads(es[..n]) + [s.clock] else Reads(es[..n])
  }

  lemma {:induction false} ReadsAreRemembered(es: seq<Event>)
    ensures Reads(es) == [] ==> Run(es).cache.checkedAt == None
    ensures Reads(es) != [] ==> Run(es).cache.checkedAt == Some(Reads(es)[|Reads(es)| - 1])
    decreases |es|
  {
    if es != [] {
      ReadsAreRemembered(es[..|es| - 1]);
    }
  }

  /** However often it is asked, the probe reads the row at most once in five seconds, and never again once it saw setup complete. */
  lemma {:induction false} ReadsAreSpaced(es: seq<Event>, i: nat)
    requires i + 1 < |Reads(es)|
    ensures Reads(es)[i + 1] - Reads(es)[i] >= 5 * SECOND
    decreases |es|
  {
    var before := es[..|es| - 1];
    ReadsAreRemembered(before);
    if i + 1 < |Reads(before)| {
      ReadsAreSpaced(before, i);
    }
  }
}
