/**
 What the steward reports is what happened: whatever its calls do, an outcome that is not a failure
 means auth holds the object, and "created" means this turn brought it about.
 */
module Outcomes {
  import opened Basics
  import opened Text
  import opened Steward
  import opened CrashConvergence

  /** Something the object asks for is not there yet; an attachment alone does not count. */
  predicate New(w: World, o: Object) {
    o.spec.Some? &&
    match o.spec.value
    case ServiceSpec(_) => Svc(o.name) !in w.auth
    case ApiSpec(_, permissions) =>
      Api(o.name) !in w.auth || exists i :: 0 <= i < |permissions| && Perm(o.name, permissions[i]) !in w.auth
    case ClientSpec(_) => forall i :: 0 <= i < |w.auth| ==> !(w.auth[i].Client? && w.auth[i].name == o.name)
    case PolicySpec(_, policyName, actions) => actions != [] && Policy(if policyName == "" then o.name else policyName) !in w.auth
  }

  /** The status a turn reports, if it lives to report one. */
  predicate Reports(turn: Turn, status: OutcomeStatus) { !turn.verdict.Died? && turn.verdict.status == status }

  /** Never an unfounded success, and "created" exactly for what was new. */
  predicate Truthful(w: World, o: Object, turn: Turn) {
    && (Reports(turn, Created) ==> New(w, o) && Holds(turn.w, o))
    && (Reports(turn, Ensured) ==> !New(w, o) && Holds(turn.w, o))
  }

  lemma ServiceIsTruthful(w: World, o: Object, f: Fates)
    requires o.spec.Some? && o.spec.value.ServiceSpec?
    ensures Truthful(w, o, EnsureService(w, o, f)) && Grows(w, EnsureService(w, o, f).w)
  {
    var w1 := if Svc(o.name) !in w.auth then Put(w, Svc(o.name), f(1)) else w;
    assert Takes(f(1)) ==> Svc(o.name) in w1.auth;
  }

  /** The permission loop only adds, and if it ran to its end every wanted name is there; it adds nothing only if none was missing. */
  lemma {:induction false} LoopIsTruthful(w: World, api: string, want: seq<string>, have: set<string>, f: Fates, k: nat)
    requires k <= |want|
    ensures var (w', stop) := AddPermissions(w, api, want, have, f, k);
      && w.auth <= w'.auth && w'.registry == w.registry
      && (stop.Fine? ==> forall j :: k <= j < |want| && want[j] !in have ==> Perm(api, want[j]) in w'.auth)
      && (stop.Fine? ==> (|w'.auth| > |w.auth| <==> exists j :: k <= j < |want| && want[j] !in have))
    decreases |want| - k
  {
    if k < |want| {
      if want[k] in have {
        LoopIsTruthful(w, api, want, have, f, k + 1);
      } else {
        var w1 := Put(w, Perm(api, want[k]), f(3 + k));
        assert Takes(f(3 + k)) ==> w1.auth[|w.auth|] == Perm(api, want[k]);
        LoopIsTruthful(w1, api, want, have, f, k + 1);
      }
    }
  }

  lemma DefinedIff(auth: seq<AuthObject>, api: string, name: string)
    ensures name in Defined(auth, api) <==> Perm(api, name) in auth
  {
  }

  lemma PermissionsAreTruthful(w: World, api: string, want: seq<string>, f: Fates)
    ensures var (w', stop) := EnsurePermissions(w, api, want, f);
      && w.auth <= w'.auth && w'.registry == w.registry
      && (stop.Fine? ==> forall j :: 0 <= j < |want| ==> Perm(api, want[j]) in w'.auth)
      && (stop.Fine? ==> (|w'.auth| > |w.auth| <==> exists j :: 0 <= j < |want| && Perm(api, want[j]) !in w.auth))
  {
    LoopIsTruthful(w, api, want, Defined(w.auth, api), f, 0);
    forall j | 0 <= j < |want|
      ensures want[j] in Defined(w.auth, api) <==> Perm(api, want[j]) in w.auth
    {
      DefinedIff(w.auth, api, want[j]);
    }
  }

  lemma ApiIsTruthful(w: World, o: Object, f: Fates)
    requires o.spec.Some? && o.spec.value.ApiSpec?
    ensures Truthful(w, o, EnsureApi(w, o, f)) && Grows(w, EnsureApi(w, o, f).w)
  {
    var missing := Api(o.name) !in w.auth;
    var w1 := if missing then Put(w, Api(o.name), f(1)) else w;
    assert !missing || Takes(f(1)) ==> Api(o.name) in w1.auth;
    PermissionsAreTruthful(w1, o.name, o.spec.value.permissions, f);
  }

  lemma ClientIsTruthful(w: World, o: Object, minted: string, f: Fates)
    requires o.spec.Some? && o.spec.value.ClientSpec?
    ensures Truthful(w, o, EnsureClient(w, o, minted, f)) && Grows(w, EnsureClient(w, o, minted, f).w)
  {
    var turn := EnsureClient(w, o, minted, f);
    if Reports(turn, Created) {
      assert turn.w.auth[|w.auth|].Client? && turn.w.auth[|w.auth|].name == o.name;
    }
  }

  lemma PolicyIsTruthful(w: World, o: Object, f: Fates)
    requires o.spec.Some? && o.spec.value.PolicySpec? && o.spec.value.actions != []
    ensures Truthful(w, o, EnsurePolicy(w, o, f)) && Grows(w, EnsurePolicy(w, o, f).w)
  {
    var name := PolicyName(o);
    var missing := Policy(name) !in w.auth;
    var w1 := if missing then Put(w, Policy(name), f(1)) else w;
    assert !missing || Takes(f(1)) ==> Policy(name) in w1.auth;
    var link := Attached(o.spec.value.service, name);
    var w2 := if link in w1.auth then w1 else Put(w1, link, f(2));
    assert link in w1.auth || Takes(f(2)) ==> link in w2.auth;
    assert w1.auth <= w2.auth;
  }

  /** One turn, whatever its calls do. */
  lemma TurnIsTruthful(w: World, ids: set<string>, o: Object, minted: string, f: Fates)
    requires o.spec.Some?
    ensures Truthful(w, o, TurnOf(w, ids, o, minted, f)) && Grows(w, TurnOf(w, ids, o, minted, f).w)
  {
    match o.spec.value
    case ServiceSpec(_) => ServiceIsTruthful(w, o, f);
    case ApiSpec(_, _) => ApiIsTruthful(w, o, f);
    case ClientSpec(_) => ClientIsTruthful(w, o, minted, f);
    case PolicySpec(_, _, actions) =>
      if actions != [] {
        PolicyIsTruthful(w, o, f);
      }
  }

  /** An object whose service this pass has not applied fails, and touches nothing. */
  lemma UnmetDependencyFails(w: World, ids: set<string>, o: Object, minted: string, f: Fates)
    requires o.spec.Some? && !o.spec.value.ServiceSpec? && o.spec.value.service !in ids
    requires o.spec.value.PolicySpec? ==> o.spec.value.actions != []
    ensures TurnOf(w, ids, o, minted, f) == Turn(w, Done(FailedOutcome))
  {
  }

  // ---- a whole pass ------------------------------------------------------------------------------

  /** Outcome `j` speaks of catalog object `j`, and truly, of the world that turn met and of the one now. */
  ghost predicate TrueOf(outcome: Outcome, o: Object, before: World, now: World) {
    && outcome.kind == o.kind && outcome.name == o.name
    && (outcome.status.Created? ==> New(before, o) && Holds(now, o))
    && (outcome.status.Ensured? ==> !New(before, o) && Holds(now, o))
  }

  lemma StillTrue(outcome: Outcome, o: Object, before: World, w: World, w': World)
    requires TrueOf(outcome, o, before, w) && Grows(w, w')
    ensures TrueOf(outcome, o, before, w')
  {
    if Holds(w, o) {
      HoldsPersists(w, w', o);
    }
  }

  lemma StepIsTruthful(s: Session, o: Object, minted: string, f: Fates)
    ensures var s' := EnsureObject(s, o, minted, f);
      && Grows(s.w, s'.w)
      && (s'.outcomes == s.outcomes
          || (!s.dead && !s.aborted && |s'.outcomes| == |s.outcomes| + 1 && s'.outcomes[..|s.outcomes|] == s.outcomes
              && TrueOf(s'.outcomes[|s.outcomes|], o, s.w, s'.w)))
  {
    if !s.dead && !s.aborted && WellFormed(o) {
      TurnIsTruthful(s.w, s.ids, o, minted, f);
    }
  }

  lemma EarlierStaysTrue(s: Session, o: Object, minted: string, f: Fates, j: nat, oj: Object, before: World)
    requires j < |s.outcomes| && TrueOf(s.outcomes[j], oj, before, s.w)
    ensures var s' := EnsureObject(s, o, minted, f); j < |s'.outcomes| && TrueOf(s'.outcomes[j], oj, before, s'.w)
  {
    StepIsTruthful(s, o, minted, f);
    var s' := EnsureObject(s, o, minted, f);
    assert s'.outcomes[j] == s.outcomes[j];
    StillTrue(s.outcomes[j], oj, before, s.w, s'.w);
  }

  lemma LatestIsTrue(s: Session, o: Object, minted: string, f: Fates, j: nat)
    requires |s.outcomes| <= j < |EnsureObject(s, o, minted, f).outcomes|
    ensures var s' := EnsureObject(s, o, minted, f); j == |s.outcomes| && !s.dead && !s.aborted && TrueOf(s'.outcomes[j], o, s.w, s'.w)
  {
    StepIsTruthful(s, o, minted, f);
  }

  /**
   Every outcome a pass ever records, crashed or not, is true: object by object in catalog order, a
   success stands for something auth holds then and at the end, and "created" for something that was
   missing when its turn came.
   */
  lemma {:induction false} OutcomesAreTrue(w: World, cat: seq<Object>, sch: Schedule, i: nat, j: nat)
    requires i <= |cat| && j < |ReconcileUpTo(Begin(w), cat, sch, i).outcomes|
    ensures j < i
    ensures var s := ReconcileUpTo(Begin(w), cat, sch, i);
      TrueOf(s.outcomes[j], cat[j], ReconcileUpTo(Begin(w), cat, sch, j).w, s.w)
    decreases i
  {
    if i > 0 {
      var s := ReconcileUpTo(Begin(w), cat, sch, i - 1);
      if j < |s.outcomes| {
        OutcomesAreTrue(w, cat, sch, i - 1, j);
        EarlierStaysTrue(s, cat[i - 1], sch.minted(i - 1), sch.fates(i - 1), j, cat[j], ReconcileUpTo(Begin(w), cat, sch, j).w);
      } else {
        CompletedPassReportsEach(w, cat, sch, i - 1);
        LatestIsTrue(s, cat[i - 1], sch.minted(i - 1), sch.fates(i - 1), j);
      }
    }
  }

  // ---- what stops a pass -------------------------------------------------------------------------

  /** Not of this version, nameless, without a spec of its own kind, or a policy that names no action or every action. */
  predicate Malformed(o: Object) {
    || o.apiVersion != "control.maintainerd/v1" || o.name == "" || o.spec.None?
    || (o.kind == KService <==> !o.spec.value.ServiceSpec?) || (o.kind == KApi <==> !o.spec.value.ApiSpec?)
    || (o.kind == KClient <==> !o.spec.value.ClientSpec?) || (o.kind == KPolicy <==> !o.spec.value.PolicySpec?)
    || (o.spec.value.PolicySpec? && exists i :: 0 <= i < |o.spec.value.actions| && Trim(o.spec.value.actions[i]) in ["", "*"])
  }

  lemma MalformedIff(o: Object)
    ensures WellFormed(o) <==> !Malformed(o)
  {
  }

  lemma StopsAt(s: Session, o: Object, minted: string, f: Fates)
    requires s.dead || s.aborted || Malformed(o)
    ensures var s' := EnsureObject(s, o, minted, f); s'.w == s.w && s'.outcomes == s.outcomes && (s'.dead || s'.aborted)
  {
    MalformedIff(o);
  }

  /** A malformed object ends the pass there and then: nothing is applied for it or after it, and nothing is recorded. */
  lemma MalformedStops(w: World, cat: seq<Object>, sch: Schedule, k: nat, i: nat)
    requires k < i <= |cat| && Malformed(cat[k])
    ensures var s, s' := ReconcileUpTo(Begin(w), cat, sch, k), ReconcileUpTo(Begin(w), cat, sch, i);
      s'.w == s.w && s'.outcomes == s.outcomes && (s'.dead || s'.aborted)
  {
    StopsAt(ReconcileUpTo(Begin(w), cat, sch, k), cat[k], sch.minted(k), sch.fates(k));
    StaysStopped(Begin(w), cat, sch, k + 1, i);
  }

  /** Any other object gets its turn while the pass goes on, and the pass goes on unless that turn ends it. */
  lemma WellFormedTakesItsTurn(s: Session, o: Object, minted: string, f: Fates)
    requires !s.dead && !s.aborted && !Malformed(o)
    ensures var s', turn := EnsureObject(s, o, minted, f), TurnOf(s.w, s.ids, o, minted, f);
      && s'.w == turn.w && (s'.dead <==> turn.verdict.Died? || turn.verdict.DoneThenDied?) && (s'.aborted <==> turn.verdict.DoneThenAborted?)
  {
    MalformedIff(o);
  }

  /** A policy without actions asks for nothing and is reported so, whether or not its service was applied. */
  lemma EmptyPolicyIsEnsured(w: World, ids: set<string>, o: Object, minted: string, f: Fates)
    requires o.spec.Some? && o.spec.value.PolicySpec? && o.spec.value.actions == []
    ensures TurnOf(w, ids, o, minted, f) == Turn(w, Done(Ensured))
  {
  }

  lemma ResolvedExists(s: Session, o: Object, minted: string, f: Fates, name: string)
    requires name in s.ids ==> Svc(name) in s.w.auth
    ensures name in EnsureObject(s, o, minted, f).ids ==> Svc(name) in EnsureObject(s, o, minted, f).w.auth
  {
    StepIsTruthful(s, o, minted, f);
    var w' := EnsureObject(s, o, minted, f).w;
    assert forall x :: x in s.w.auth ==> x in w'.auth;
    if name in EnsureObject(s, o, minted, f).ids && name !in s.ids && Svc(name) !in s.w.auth {
      var w1 := Put(s.w, Svc(name), f(1));
      assert w1.auth[|s.w.auth|] == Svc(name);
      assert w'.auth == w1.auth;
    }
  }

  /** A service other objects may lean on in this pass is one auth really holds. */
  lemma {:induction false} KnownServicesExist(w: World, cat: seq<Object>, sch: Schedule, i: nat, name: string)
    requires i <= |cat|
    ensures var s := ReconcileUpTo(Begin(w), cat, sch, i); name in s.ids ==> Svc(name) in s.w.auth
  {
    if i > 0 {
      KnownServicesExist(w, cat, sch, i - 1, name);
      ResolvedExists(ReconcileUpTo(Begin(w), cat, sch, i - 1), cat[i - 1], sch.minted(i - 1), sch.fates(i - 1), name);
    }
  }

  // ---- the registry and the key files ------------------------------------------------------------

  /** A row that has been reported on by the runtime keeps what it says; no row goes back to pending or loses its stamp. */
  predicate OnlySettles(reg: map<string, RegistryRow>, reg': map<string, RegistryRow>) {
    forall name :: name in reg ==>
      && name in reg' && (reg[name].stamped ==> reg'[name].stamped)
      && (reg'[name].status == reg[name].status || (reg[name].status == PendingRow && reg'[name].status == RegisteredRow))
  }

  lemma RegisteredSettles(reg: map<string, RegistryRow>, service: string)
    ensures var reg' := Registered(reg, service);
      OnlySettles(reg, reg') && forall name :: name in reg' && (name !in reg || reg'[name] != reg[name]) ==> name == service
  {
  }

  lemma OthersLeaveRegistry(w: World, ids: set<string>, o: Object, minted: string, f: Fates)
    requires o.spec.Some? && !o.spec.value.ServiceSpec?
    ensures TurnOf(w, ids, o, minted, f).w.registry == w.registry
  {
    if o.spec.value.ApiSpec? {
      PermissionsAreTruthful(if Api(o.name) !in w.auth then Put(w, Api(o.name), f(1)) else w, o.name, o.spec.value.permissions, f);
    }
  }

  /** A turn moves at most the registry row of the service it applies, never for a service without a registry kind. */
  lemma RegistryOnlySettles(w: World, ids: set<string>, o: Object, minted: string, f: Fates)
    requires o.spec.Some?
    ensures var reg, reg' := w.registry, TurnOf(w, ids, o, minted, f).w.registry;
      && OnlySettles(reg, reg')
      && (forall name :: name in reg' && (name !in reg || reg'[name] != reg[name]) ==> name == o.name)
      && (!o.spec.value.ServiceSpec? || Trim(o.spec.value.registryKind) == "" ==> reg' == reg)
  {
    RegisteredSettles(w.registry, o.name);
    if !o.spec.value.ServiceSpec? {
      OthersLeaveRegistry(w, ids, o, minted, f);
    } else {
      var reg' := EnsureService(w, o, f).w.registry;
      assert reg' == w.registry || reg' == Registered(w.registry, o.name);
    }
  }

  /** In the setup window, a key minted for a client auth turns out to have already is not left behind. */
  lemma WindowLeavesNoStrayKey(w: World, name: string, service: string, minted: string, f: Fates)
    requires FaultFree(f) && HasClient(w.auth, name) && KeyPath(service).Some? && KeyPath(service).value !in w.keys
    ensures SetupWindowClient(w, name, service, minted, f) == w
  {
    var path := KeyPath(service).value;
    assert w.keys[path := Whole(minted)] - {path} == w.keys;
  }

  /** A service has a key file exactly when its name, trimmed, is a plain file name, and two share one exactly when trimming makes them one. */
  lemma KeyPathIff(a: string, b: string)
    ensures KeyPath(a).Some? <==> (exists k :: 0 <= k < |a| && !IsSpace(a[k])) && '/' !in a && !HasDotDot(Trim(a))
    ensures KeyPath(a).Some? && KeyPath(b).Some? ==> (KeyPath(a) == KeyPath(b) <==> Trim(a) == Trim(b))
  {
    TrimIsBlankIff(a);
    TrimKeepsChar(a, '/');
    DotDotIff(Trim(a));
  }
}
