/**
 Core's driver of the vault's one-time setup, as any number of core processes, over any number of
 restarts, run it against one vault: each step is one read or one remote call, and calls may fail, lose
 their reply, or end their process.
 */
module SecretSetup {
  import opened Basics
  import opened Backoff

  // ---- one process -------------------------------------------------------------------------------

  datatype Problem = PendingSetup | AuthIncomplete | CallFailed

  datatype Announced = Nothing | WaitingAuth | Failed | Adopted | Provisioned

  /** Where a process stands inside a pass. */
  datatype Phase = Idle | Dialing | Asking | Provisioning | Locking

  datatype Proc = Proc(phase: Phase, done: bool, last: Option<Problem>, logged: Announced)

  const FRESH: Proc := Proc(Idle, false, Some(PendingSetup), Nothing)

  /** The end of a pass: no problem means the vault is set up, for good. */
  function Recorded(p: Proc, state: Announced, problem: Option<Problem>): Proc {
    Proc(Idle, p.done || problem.None?, problem, state)
  }

  /** What readiness reports of an enabled process: nothing wrong, or the last problem. */
  function StateOf(p: Proc): Option<Problem> { if p.done then None else p.last }

  // ---- the install -------------------------------------------------------------------------------

  datatype Call = GetStatus | Setup | Complete

  /** A call as it was sent, with what held at that moment. */
  datatype Sent = Sent(proc: nat, call: Call, authDone: bool, provisioned: bool, done: bool)

  datatype Install = Install(authDone: bool, provisioned: bool, locked: bool, locks: nat, procs: map<nat, Proc>, sent: seq<Sent>)

  function ProcOf(w: Install, id: nat): Proc { if id in w.procs then w.procs[id] else FRESH }

  function Put(w: Install, id: nat, p: Proc): Install { w.(procs := w.procs[id := p]) }

  function Send(w: Install, id: nat, call: Call): Install {
    w.(sent := w.sent + [Sent(id, call, w.authDone, w.provisioned, ProcOf(w, id).done)])
  }

  /** The vault's side: provisioning and locking are refused once the window is closed. */
  function Provision(w: Install, f: Fate): Install { if Takes(f) && !w.locked then w.(provisioned := true) else w }

  function Lock(w: Install, f: Fate): Install {
    if Takes(f) && !w.locked then w.(locked := true, locks := w.locks + 1) else w
  }

  /** What one step does outside its process: the call it sends, and the vault's side of it. */
  function Effect(w: Install, id: nat, f: Fate): Install {
    match ProcOf(w, id).phase
    case Idle => w
    case Dialing => w
    case Asking => Send(w, id, GetStatus)
    case Provisioning => Provision(Send(w, id, Setup), f)
    case Locking => Lock(Send(w, id, Complete), f)
  }

  /** What one step does to its process; a step that kills it leaves a fresh one in its place. */
  function NextProc(p: Proc, f: Fate, authDone: bool, locked: bool): Proc {
    if Dies(f) then FRESH
    else
      match p.phase
      case Idle =>
        if p.done then p
        else if f.Fine? && authDone then p.(phase := Dialing)
        else Recorded(p, WaitingAuth, Some(AuthIncomplete))
      case Dialing => if f.Fine? then p.(phase := Asking) else Recorded(p, Failed, Some(CallFailed))
      case Asking =>
        if !f.Fine? then Recorded(p, Failed, Some(CallFailed))
        else if locked then Recorded(p, Adopted, None)
        else p.(phase := Provisioning)
      case Provisioning => if f.Fine? && !locked then p.(phase := Locking) else Recorded(p, Failed, Some(CallFailed))
      case Locking => if f.Fine? && !locked then Recorded(p, Provisioned, None) else Recorded(p, Failed, Some(CallFailed))
  }

  function StepProc(w: Install, id: nat, f: Fate): Install {
    Put(Effect(w, id, f), id, NextProc(ProcOf(w, id), f, w.authDone, w.locked))
  }

  /** A process moves, auth's completion is recorded, or an operator finishes the vault's own wizard. */
  datatype Event = Move(id: nat, f: Fate) | AuthCompletes | WizardCompletes

  function Step(w: Install, e: Event): Install {
    match e
    case Move(id, f) => StepProc(w, id, f)
    case AuthCompletes => w.(authDone := true)
    case WizardCompletes => if w.locked then w else w.(provisioned := true, locked := true, locks := w.locks + 1)
  }

  const START: Install := Install(false, false, false, 0, map[], [])

  function Run(es: seq<Event>): Install
    decreases |es|
  {
    if es == [] then START else Step(Run(es[..|es| - 1]), es[|es| - 1])
  }

  // ---- safety over every run ---------------------------------------------------------------------

  /** No call before auth completed, none by a finished process, no locking before provisioning. */
  predicate Orderly(s: Sent) { s.authDone && !s.done && (s.call.Complete? ==> s.provisioned) }

  predicate ProcInv(p: Proc, w: Install) {
    && (!p.phase.Idle? ==> w.authDone && !p.done)
    && (p.phase.Locking? ==> w.provisioned)
    && (p.done ==> w.locked)
    && (!p.done ==> p.last.Some?)
  }

  predicate SetupInv(w: Install) {
    && (forall i :: 0 <= i < |w.sent| ==> Orderly(w.sent[i]))
    && (forall id :: id in w.procs ==> ProcInv(w.procs[id], w))
    && (w.locked ==> w.provisioned)
    && w.locks == (if w.locked then 1 else 0)
  }

  /** Nothing recorded about the install is ever taken back. */
  predicate Grows(w: Install, w': Install) {
    && (w.authDone ==> w'.authDone) && (w.provisioned ==> w'.provisioned) && (w.locked ==> w'.locked) && w.sent <= w'.sent
  }

  lemma EffectIsOrderly(w: Install, id: nat, f: Fate)
    requires ProcInv(ProcOf(w, id), w) && (w.locked ==> w.provisioned) && w.locks == (if w.locked then 1 else 0)
    ensures var w' := Effect(w, id, f);
      Grows(w, w') && w'.procs == w.procs && (w'.locked ==> w'.provisioned) && w'.locks == (if w'.locked then 1 else 0)
  {
  }

  lemma CallsAreOrderly(w: Install, id: nat, f: Fate, i: nat)
    requires ProcInv(ProcOf(w, id), w) && i < |Effect(w, id, f).sent| && (i < |w.sent| ==> Orderly(w.sent[i]))
    ensures Orderly(Effect(w, id, f).sent[i])
  {
  }

  lemma ProcStaysSound(w: Install, id: nat, f: Fate)
    requires ProcInv(ProcOf(w, id), w)
    ensures ProcInv(NextProc(ProcOf(w, id), f, w.authDone, w.locked), Effect(w, id, f))
  {
  }

  lemma StepKeepsSetupInv(w: Install, e: Event)
    requires SetupInv(w)
    ensures SetupInv(Step(w, e)) && Grows(w, Step(w, e))
  {
    if e.Move? {
      assert ProcInv(ProcOf(w, e.id), w);
      EffectIsOrderly(w, e.id, e.f);
      ProcStaysSound(w, e.id, e.f);
      var w' := Step(w, e);
      forall i | 0 <= i < |w'.sent|
        ensures Orderly(w'.sent[i])
      {
        CallsAreOrderly(w, e.id, e.f, i);
      }
      forall id | id in w'.procs
        ensures ProcInv(w'.procs[id], w')
      {
        assert id != e.id ==> ProcInv(w.procs[id], w);
      }
    }
  }

  /**
   In every run: no vault call was sent before auth's completion was recorded or by a process that was
   done, the vault was never locked unprovisioned nor locked twice, and a process reports itself ready
   exactly when it is done, which it is only if the vault is in fact set up.
   */
  lemma {:induction false} SetupIsOrderly(es: seq<Event>, id: nat)
    ensures var w := Run(es);
      && SetupInv(w)
      && (StateOf(ProcOf(w, id)).None? <==> ProcOf(w, id).done)
      && (StateOf(ProcOf(w, id)).None? ==> w.locked && w.provisioned)
    decreases |es|
  {
    if es != [] {
      SetupIsOrderly(es[..|es| - 1], id);
      StepKeepsSetupInv(Run(es[..|es| - 1]), es[|es| - 1]);
    }
    assert ProcInv(ProcOf(Run(es), id), Run(es));
  }

  /** Once done, a process stays done and sends nothing more, until it dies. */
  lemma DoneIsFinal(es: seq<Event>, e: Event, id: nat)
    requires ProcOf(Run(es), id).done && !(e.Move? && e.id == id && Dies(e.f))
    ensures ProcOf(Run(es + [e]), id) == ProcOf(Run(es), id)
    ensures e.Move? && e.id == id ==> Run(es + [e]) == Run(es)
  {
    SetupIsOrderly(es, id);
    assert (es + [e])[..|es|] == es;
    var w := Run(es);
    assert ProcInv(ProcOf(w, id), w);
    assert w.procs[id := ProcOf(w, id)] == w.procs;
  }

  // ---- one pass ----------------------------------------------------------------------------------

  function Rank(ph: Phase): nat {
    match ph
    case Idle => 0
    case Dialing => 4
    case Asking => 3
    case Provisioning => 2
    case Locking => 1
  }

  /** The rest of a pass, undisturbed, from wherever process `id` stands in it. */
  function Finish(w: Install, id: nat, f: Fates): Install
    decreases Rank(ProcOf(w, id).phase)
  {
    if ProcOf(w, id).phase.Idle? then w
    else Finish(StepProc(w, id, f(Rank(ProcOf(w, id).phase))), id, f)
  }

  /** A whole pass: the gate is its step 0, then dialing 4, asking 3, provisioning 2 and locking 1. */
  function Pass(w: Install, id: nat, f: Fates): Install {
    if ProcOf(w, id).phase.Idle? then Finish(StepProc(w, id, f(0)), id, f) else w
  }

  lemma {:induction false} FinishIsARun(es: seq<Event>, id: nat, f: Fates) returns (moves: seq<Event>)
    ensures Finish(Run(es), id, f) == Run(es + moves)
    decreases Rank(ProcOf(Run(es), id).phase)
  {
    var k := Rank(ProcOf(Run(es), id).phase);
    if k == 0 {
      moves := [];
      assert es + [] == es;
    } else {
      var e := Move(id, f(k));
      assert (es + [e])[..|es|] == es;
      var rest := FinishIsARun(es + [e], id, f);
      moves := [e] + rest;
      assert es + moves == es + [e] + rest;
    }
  }

  /** A pass is itself a stretch of a run, so what every run keeps, every pass keeps. */
  lemma PassIsARun(es: seq<Event>, id: nat, f: Fates) returns (moves: seq<Event>)
    ensures Pass(Run(es), id, f) == Run(es + moves)
  {
    if ProcOf(Run(es), id).phase.Idle? {
      var e := Move(id, f(0));
      assert (es + [e])[..|es|] == es;
      var rest := FinishIsARun(es + [e], id, f);
      moves := [e] + rest;
      assert es + moves == es + [e] + rest;
    } else {
      moves := [];
      assert es + [] == es;
    }
  }

  /** From any install whose auth is complete, one failure-free pass of any idle process reaches done. */
  lemma FaultFreePassFinishes(w: Install, id: nat, f: Fates)
    requires w.authDone && ProcOf(w, id).phase.Idle? && (forall k :: f(k).Fine?)
    ensures ProcOf(Pass(w, id, f), id).done && (ProcOf(w, id).done || Pass(w, id, f).locked)
  {
    if !ProcOf(w, id).done {
      var w1 := StepProc(w, id, f(0));
      var w2 := StepProc(w1, id, f(4));
      var w3 := StepProc(w2, id, f(3));
      if !w.locked {
        var w4 := StepProc(w3, id, f(2));
        var w5 := StepProc(w4, id, f(1));
        assert ProcOf(w5, id).done && ProcOf(w5, id).phase.Idle?;
        assert Finish(w4, id, f) == Finish(w5, id, f) == w5;
        assert Finish(w3, id, f) == Finish(w4, id, f);
      }
      assert Finish(w1, id, f) == Finish(w3, id, f);
    }
  }

  /** No call of the pass ends the process. */
  ghost predicate Survives(f: Fates) { forall k :: !Dies(f(k)) }

  /** Auth's completion could be read, the vault answered, and it was set up already or both calls came back well. */
  predicate Succeeds(w: Install, f: Fates) {
    f(0).Fine? && w.authDone && f(4).Fine? && f(3).Fine? && (w.locked || (f(2).Fine? && f(1).Fine?))
  }

  lemma FinishFrom(w: Install, id: nat, f: Fates)
    requires ProcOf(w, id).phase.Asking? && !ProcOf(w, id).done && Survives(f)
    ensures var p := ProcOf(Finish(w, id, f), id);
      && (p.done <==> f(3).Fine? && (w.locked || (f(2).Fine? && f(1).Fine?)))
      && p.last == (if p.done then None else Some(CallFailed))
      && p.logged == (if !p.done then Failed else if w.locked then Adopted else Provisioned)
  {
    var w1 := StepProc(w, id, f(3));
    assert Finish(w, id, f) == Finish(w1, id, f);
    if f(3).Fine? && !w.locked {
      var w2 := StepProc(w1, id, f(2));
      assert Finish(w1, id, f) == Finish(w2, id, f);
      if f(2).Fine? {
        var w3 := StepProc(w2, id, f(1));
        assert Finish(w2, id, f) == Finish(w3, id, f) == w3;
      }
    }
  }

  /**
   What a pass that lives to its end reports: ready exactly if it succeeded, adopting a vault it found
   set up and claiming only one it locked itself; otherwise that auth is incomplete, if that is where
   it stopped, or that a call failed.
   */
  lemma PassReports(w: Install, id: nat, f: Fates)
    requires ProcOf(w, id).phase.Idle? && !ProcOf(w, id).done && Survives(f)
    ensures var p := ProcOf(Pass(w, id, f), id);
      && (StateOf(p) == None <==> Succeeds(w, f))
      && (!Succeeds(w, f) ==> StateOf(p) == Some(if f(0).Fine? && w.authDone then CallFailed else AuthIncomplete))
      && p.logged == (if Succeeds(w, f) then (if w.locked then Adopted else Provisioned)
                      else if f(0).Fine? && w.authDone then Failed else WaitingAuth)
  {
    assert !Dies(f(0)) && !Dies(f(4));
    var w1 := StepProc(w, id, f(0));
    if f(0).Fine? && w.authDone {
      var w2 := StepProc(w1, id, f(4));
      assert Finish(w1, id, f) == Finish(w2, id, f);
      if f(4).Fine? {
        FinishFrom(w2, id, f);
      }
    }
  }

  predicate Claims(w: Install, id: nat) { id in w.procs && w.procs[id].logged == Provisioned }

  lemma NewClaim(w: Install, e: Event, id: nat)
    ensures w.locked ==> Step(w, e).locked
    ensures Claims(Step(w, e), id) && !Claims(w, id) ==> e.Move? && e.id == id && !w.locked && Step(w, e).locked
  {
  }

  /** In every run at most one process claims to have set the vault up, and only for a vault that is. */
  lemma {:induction false} ClaimedOnce(es: seq<Event>, a: nat, b: nat)
    ensures Claims(Run(es), a) ==> Run(es).locked
    ensures Claims(Run(es), a) && Claims(Run(es), b) ==> a == b
    decreases |es|
  {
    if es != [] {
      var n := |es| - 1;
      ClaimedOnce(es[..n], a, b);
      ClaimedOnce(es[..n], b, a);
      NewClaim(Run(es[..n]), es[n], a);
      NewClaim(Run(es[..n]), es[n], b);
    }
  }

  /** The vault is provisioned, or locked, only by the wizard or by a call some process sent for it. */
  predicate CalledFor(w: Install, es: seq<Event>, call: Call) {
    WizardCompletes in es || exists i :: 0 <= i < |w.sent| && w.sent[i].call == call
  }

  lemma StepCalls(w: Install, e: Event)
    ensures w.sent <= Step(w, e).sent
    ensures Step(w, e).provisioned && !w.provisioned ==> e == WizardCompletes || Step(w, e).sent == w.sent + [Sent(e.id, Setup, w.authDone, false, ProcOf(w, e.id).done)]
    ensures Step(w, e).locked && !w.locked ==> e == WizardCompletes || Step(w, e).sent == w.sent + [Sent(e.id, Complete, w.authDone, w.provisioned, ProcOf(w, e.id).done)]
  {
  }

  lemma CallsStay(w: Install, w': Install, es: seq<Event>, e: Event, call: Call)
    requires w.sent <= w'.sent && CalledFor(w, es, call)
    ensures CalledFor(w', es + [e], call)
  {
    if i :| 0 <= i < |w.sent| && w.sent[i].call == call {
      assert w'.sent[i] == w.sent[i];
    }
  }

  lemma {:induction false} VaultMovesOnlyWhenCalled(es: seq<Event>)
    ensures Run(es).provisioned ==> CalledFor(Run(es), es, Setup)
    ensures Run(es).locked ==> CalledFor(Run(es), es, Complete)
    decreases |es|
  {
    if es != [] {
      var n := |es| - 1;
      VaultMovesOnlyWhenCalled(es[..n]);
      var w, w' := Run(es[..n]), Run(es);
      StepCalls(w, es[n]);
      assert es == es[..n] + [es[n]];
      if w.provisioned {
        CallsStay(w, w', es[..n], es[n], Setup);
      } else if w'.provisioned && es[n] != WizardCompletes {
        assert w'.sent[|w.sent|].call == Setup;
      }
      if w.locked {
        CallsStay(w, w', es[..n], es[n], Complete);
      } else if w'.locked && es[n] != WizardCompletes {
        assert w'.sent[|w.sent|].call == Complete;
      }
    }
  }

  /** A process that dies comes back idle and unfinished, and reports setup as pending until its next pass ends. */
  lemma DiedIsPending(w: Install, id: nat, f: Fate)
    requires Dies(f)
    ensures var p := ProcOf(StepProc(w, id, f), id); p.phase == Idle && !p.done && StateOf(p) == Some(PendingSetup)
  {
  }

  /** Only auth's own completion opens the gate. */
  lemma {:induction false} GateIsAuths(es: seq<Event>)
    ensures Run(es).authDone <==> AuthCompletes in es
    decreases |es|
  {
    if es != [] {
      GateIsAuths(es[..|es| - 1]);
      assert es == es[..|es| - 1] + [es[|es| - 1]];
    }
  }

  // ---- the driver --------------------------------------------------------------------------------

  /** The vault and auth's record, shared by every core process. */
  class Site {
    var authDone: bool
    var provisioned: bool
    var locked: bool
    var locks: nat
    var sent: seq<Sent>

    constructor ()
      ensures !authDone && !provisioned && !locked && locks == 0 && sent == []
    {
      authDone, provisioned, locked, locks, sent := false, false, false, 0, [];
    }
  }

  class SecretOrchestrator {
    const id: nat
    const site: Site
    ghost const others: map<nat, Proc>
    var done: bool
    var last: Option<Problem>
    var logged: Announced

    constructor (id: nat, site: Site, ghost others: map<nat, Proc>)
      ensures this.id == id && this.site == site && this.others == others
      ensures Proc(Idle, done, last, logged) == FRESH
    {
      this.id, this.site, this.others := id, site, others;
      done, last, logged := false, Some(PendingSetup), Nothing;
    }

    /** The install as it stands with this process at `phase`. */
    ghost function View(phase: Phase): Install
      reads this, site
    {
      Install(site.authDone, site.provisioned, site.locked, site.locks, others[id := Proc(phase, done, last, logged)], site.sent)
    }

    method State() returns (problem: Option<Problem>)
      ensures problem == StateOf(Proc(Idle, done, last, logged))
    {
      if done { return None; }
      return last;
    }

    method Record(state: Announced, problem: Option<Problem>)
      modifies this
      ensures Proc(Idle, done, last, logged) == Recorded(old(Proc(Idle, done, last, logged)), state, problem)
    {
      last := problem;
      if problem.None? { done := true; }
      logged := state;
    }

    /** Sends `call`; what it does to the vault is up to its fate and the vault's own lock. */
    method Send(call: Call, f: Fate) returns (ok: bool)
      modifies site
      ensures ok == (f.Fine? && (call.GetStatus? || !old(site.locked)))
      ensures site.authDone == old(site.authDone)
      ensures site.sent == old(site.sent) + [Sent(id, call, old(site.authDone), old(site.provisioned), done)]
      ensures site.provisioned == (old(site.provisioned) || (call.Setup? && Takes(f) && !old(site.locked)))
      ensures site.locked == (old(site.locked) || (call.Complete? && Takes(f)))
      ensures site.locks == old(site.locks) + (if !old(site.locked) && call.Complete? && Takes(f) then 1 else 0)
    {
      site.sent := site.sent + [Sent(id, call, site.authDone, site.provisioned, done)];
      ok := f.Fine? && (call.GetStatus? || !site.locked);
      if Takes(f) && !site.locked {
        if call.Setup? { site.provisioned := true; }
        if call.Complete? {
          site.locked := true;
          site.locks := site.locks + 1;
        }
      }
    }

    /** The process ends here and another starts in its place. */
    method Restart()
      modifies this
      ensures Proc(Idle, done, last, logged) == FRESH
    {
      done, last, logged := false, Some(PendingSetup), Nothing;
    }

    lemma Overwritten(p: Proc, q: Proc)
      ensures others[id := p][id := q] == others[id := q]
    {
    }

    /** The ordering gate: nothing is dialed until core's own record says auth is complete. */
    method Gate(f: Fate) returns (ok: bool)
      modifies this
      ensures View(if ok then Dialing else Idle) == StepProc(old(View(Idle)), id, f)
      ensures ok ==> !done
    {
      ghost var p := Proc(Idle, done, last, logged);
      ok := !Dies(f) && !done && f.Fine? && site.authDone;
      if Dies(f) {
        Restart();
      } else if !done && !ok {
        Record(WaitingAuth, Some(AuthIncomplete));
      }
      Overwritten(p, Proc(if ok then Dialing else Idle, done, last, logged));
    }

    method Dial(f: Fate) returns (ok: bool)
      modifies this
      ensures View(if ok then Asking else Idle) == StepProc(old(View(Dialing)), id, f)
      ensures ok ==> done == old(done)
    {
      ghost var p := Proc(Dialing, done, last, logged);
      ok := f.Fine?;
      if Dies(f) {
        Restart();
      } else if !ok {
        Record(Failed, Some(CallFailed));
      }
      Overwritten(p, Proc(if ok then Asking else Idle, done, last, logged));
    }

    /** Asks before acting: a vault that reports itself complete is adopted and left alone. */
    method Ask(f: Fate) returns (ok: bool)
      modifies this, site
      ensures View(if ok then Provisioning else Idle) == StepProc(old(View(Asking)), id, f)
      ensures ok ==> done == old(done)
    {
      ghost var p := Proc(Asking, done, last, logged);
      ok := Send(GetStatus, f);
      if Dies(f) {
        Restart();
      } else if !ok {
        Record(Failed, Some(CallFailed));
      } else if site.locked {
        ok := false;
        Record(Adopted, None);
      }
      Overwritten(p, Proc(if ok then Provisioning else Idle, done, last, logged));
    }

    method Provision(f: Fate) returns (ok: bool)
      modifies this, site
      ensures View(if ok then Locking else Idle) == StepProc(old(View(Provisioning)), id, f)
      ensures ok ==> done == old(done)
    {
      ghost var p := Proc(Provisioning, done, last, logged);
      ok := Send(Setup, f);
      if Dies(f) {
        Restart();
      } else if !ok {
        Record(Failed, Some(CallFailed));
      }
      Overwritten(p, Proc(if ok then Locking else Idle, done, last, logged));
    }

    method Lock(f: Fate)
      modifies this, site
      ensures View(Idle) == StepProc(old(View(Locking)), id, f)
    {
      ghost var p := Proc(Locking, done, last, logged);
      var ok := Send(Complete, f);
      if Dies(f) {
        Restart();
      } else if !ok {
        Record(Failed, Some(CallFailed));
      } else {
        Record(Provisioned, None);
      }
      Overwritten(p, Proc(Idle, done, last, logged));
    }

    /** One pass. */
    method Run(f: Fates)
      modifies this, site
      ensures View(Idle) == Pass(old(View(Idle)), id, f)
    {
      ghost var w := View(Idle);
      var ok := Gate(f(0));
      assert Pass(w, id, f) == Finish(View(if ok then Dialing else Idle), id, f);
      if !ok { return; }
      ok := Dial(f(4));
      assert Pass(w, id, f) == Finish(View(if ok then Asking else Idle), id, f);
      if !ok { return; }
      DriveVault(f);
    }

    /** The three vault calls, over a connection that was just made. */
    method DriveVault(f: Fates)
      modifies this, site
      ensures View(Idle) == Finish(old(View(Asking)), id, f)
    {
      ghost var w := View(Asking);
      var ok := Ask(f(3));
      assert Finish(w, id, f) == Finish(View(if ok then Provisioning else Idle), id, f);
      if !ok { return; }
      ok := Provision(f(2));
      assert Finish(w, id, f) == Finish(View(if ok then Locking else Idle), id, f);
      if !ok { return; }
      ghost var locking := View(Locking);
      Lock(f(1));
      assert Finish(locking, id, f) == Finish(View(Idle), id, f) == View(Idle);
    }

    method RunNumbered(ghost w: Install, fates: nat -> Fates, k: nat)
      requires View(Idle) == Passes(w, id, fates, k)
      modifies this, site
      ensures View(Idle) == Passes(w, id, fates, k + 1)
    {
      Run(fates(k));
    }

    /**
     Passes until one finds the vault set up, or the context is cancelled after `budget` of them; the
     delay between them doubles from the base to the cap and stays there.
     */
    method RunWithRetry(budget: nat, fates: nat -> Fates) returns (passes: nat, waits: seq<int>)
      modifies this, site
      ensures View(Idle) == Passes(old(View(Idle)), id, fates, passes)
      ensures passes <= budget && |waits| <= passes <= |waits| + 1 && (passes == budget || done)
      ensures forall k :: 0 <= k < |waits| ==> waits[k] == SetupWait(k)
    {
      passes, waits := 0, [];
      ghost var w := View(Idle);
      var backoff := SETUP_BASE;
      while passes < budget
        invariant passes == |waits| <= budget && View(Idle) == Passes(w, id, fates, passes)
        invariant backoff == SetupWait(passes)
        invariant forall k :: 0 <= k < |waits| ==> waits[k] == SetupWait(k)
      {
        RunNumbered(w, fates, passes);
        passes := passes + 1;
        if done { return; }
        waits := waits + [backoff];
        backoff := Doubled(backoff, |waits| - 1);
      }
    }
  }

  method Doubled(backoff: int, ghost k: nat) returns (next: int)
    requires backoff == SetupWait(k)
    ensures next == SetupWait(k + 1)
  {
    next := backoff;
    if backoff < SETUP_CAP {
      next := backoff * 2;
      if next > SETUP_CAP { next := SETUP_CAP; }
    }
  }

  const SETUP_BASE: int := 3 * SECOND
  const SETUP_CAP: int := 30 * SECOND

  /** The delay after the pass numbered `k`. */
  function SetupWait(k: nat): int { Min(SETUP_CAP, SETUP_BASE * Pow2(k)) }

  /** Three seconds at first, doubling to half a minute. */
  lemma SetupWaits(k: nat)
    ensures SetupWait(0) == 3_000_000_000
    ensures k < 3 ==> SetupWait(k + 1) == 2 * SetupWait(k)
    ensures k >= 4 ==> SetupWait(k) == 30_000_000_000
  {
    assert Pow2(2) == 4 && Pow2(4) == 16;
    if k >= 4 {
      Pow2Monotone(4, k);
    }
  }

  /** The first `n` passes of one process, undisturbed. */
  function Passes(w: Install, id: nat, fates: nat -> Fates, n: nat): Install {
    if n == 0 then w else Pass(Passes(w, id, fates, n - 1), id, fates(n - 1))
  }
}
