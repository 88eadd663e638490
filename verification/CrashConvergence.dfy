/**
 Convergence from any crash point.  Whatever failed or died before, one failure-free pass leaves auth
 holding the whole catalog with nothing created twice; every registered client's key is in the key
 store throughout; and a converged world is a fixed point of every further pass.
 */
module CrashConvergence {
  import opened Basics
  import opened Steward
  import Text

  // ---- invariants --------------------------------------------------------------------------------

  /** Two auth objects are the same thing when these agree. */
  function Ident(x: AuthObject): AuthObject { if x.Client? then Client(x.name, "", "") else x }

  predicate NoDups(auth: seq<AuthObject>) {
    forall i, j :: 0 <= i < j < |auth| ==> Ident(auth[i]) != Ident(auth[j])
  }

  predicate KeyHeld(x: AuthObject, keys: map<string, KeyFile>) {
    x.Client? ==>
      var path := KeyPath(x.service);
      path.Some? && path.value in keys && keys[path.value] == Whole(x.key)
  }

  /** Every registered client's JWKS was derived from the key held for its service. */
  predicate Custody(auth: seq<AuthObject>, keys: map<string, KeyFile>) {
    forall i :: 0 <= i < |auth| ==> KeyHeld(auth[i], keys)
  }

  predicate AllWhole(keys: map<string, KeyFile>) { forall p :: p in keys ==> keys[p].Whole? }

  predicate Sound(w: World) { NoDups(w.auth) && Custody(w.auth, w.keys) && AllWhole(w.keys) }

  /** Auth only grows, settled registry rows stay settled. */
  ghost predicate Grows(w: World, w': World) {
    w.auth <= w'.auth && forall name :: Settled(w.registry, name) ==> Settled(w'.registry, name)
  }

  predicate Settled(reg: map<string, RegistryRow>, name: string) {
    name in reg && !reg[name].status.PendingRow? && reg[name].stamped
  }

  predicate Distinct(names: seq<string>) {
    forall i, j :: 0 <= i < j < |names| ==> names[i] != names[j]
  }

  predicate PermissionsDistinct(o: Object) {
    o.spec.Some? && o.spec.value.ApiSpec? ==> Distinct(o.spec.value.permissions)
  }

  /** A client's turn in which a create that errors had no effect and no key file is cut off. */
  predicate Careful(f: Fates) { !f(5).Lost? && !CutOff(f(3)) }

  /** Every client auth holds under a catalog name belongs to the service the catalog says. */
  predicate ClientsMatch(auth: seq<AuthObject>, cat: seq<Object>) {
    forall i :: 0 <= i < |auth| ==> Matches(auth[i], cat)
  }

  predicate Matches(x: AuthObject, cat: seq<Object>) {
    x.Client? ==> forall j :: 0 <= j < |cat| && IsClient(cat[j]) && cat[j].name == x.name ==>
      x.service == cat[j].spec.value.service
  }

  predicate IsClient(o: Object) { o.spec.Some? && o.spec.value.ClientSpec? }

  /** What every step keeps, for a fixed catalog. */
  predicate Good(w: World, cat: seq<Object>) { Sound(w) && ClientsMatch(w.auth, cat) }

  ghost predicate Next(w: World, w': World, cat: seq<Object>) { Good(w', cat) && Grows(w, w') }

  lemma AppendGood(w: World, x: AuthObject, f: Fate, cat: seq<Object>)
    requires Good(w, cat) && (forall i :: 0 <= i < |w.auth| ==> Ident(w.auth[i]) != Ident(x))
    requires KeyHeld(x, w.keys) && Matches(x, cat)
    ensures Next(w, Put(w, x, f), cat)
  {
  }

  lemma ServiceGood(w: World, o: Object, f: Fates, cat: seq<Object>)
    requires Good(w, cat) && o.spec.Some? && o.spec.value.ServiceSpec?
    ensures Next(w, EnsureService(w, o, f).w, cat)
  {
    if Svc(o.name) !in w.auth {
      AppendGood(w, Svc(o.name), f(1), cat);
    }
  }

  lemma {:induction false} PermissionsGood(w: World, api: string, want: seq<string>, have: set<string>, f: Fates, k: nat, cat: seq<Object>)
    requires Good(w, cat) && Distinct(want) && k <= |want|
    requires forall j :: k <= j < |want| && Perm(api, want[j]) in w.auth ==> want[j] in have
    ensures Next(w, AddPermissions(w, api, want, have, f, k).0, cat)
    decreases |want| - k
  {
    if k < |want| {
      if want[k] in have {
        PermissionsGood(w, api, want, have, f, k + 1, cat);
      } else {
        AppendGood(w, Perm(api, want[k]), f(3 + k), cat);
        PermissionsGood(Put(w, Perm(api, want[k]), f(3 + k)), api, want, have, f, k + 1, cat);
      }
    }
  }

  lemma ApiGood(w: World, o: Object, f: Fates, cat: seq<Object>)
    requires Good(w, cat) && o.spec.Some? && o.spec.value.ApiSpec? && Distinct(o.spec.value.permissions)
    ensures Next(w, EnsureApi(w, o, f).w, cat)
  {
    var missing := Api(o.name) !in w.auth;
    if missing {
      AppendGood(w, Api(o.name), f(1), cat);
    }
    var w1 := if missing then Put(w, Api(o.name), f(1)) else w;
    PermissionsGood(w1, o.name, o.spec.value.permissions, Defined(w1.auth, o.name), f, 0, cat);
  }

  lemma PolicyGood(w: World, o: Object, f: Fates, cat: seq<Object>)
    requires Good(w, cat) && o.spec.Some? && o.spec.value.PolicySpec?
    ensures Next(w, EnsurePolicy(w, o, f).w, cat)
  {
    var name := PolicyName(o);
    var missing := Policy(name) !in w.auth;
    if missing {
      AppendGood(w, Policy(name), f(1), cat);
    }
    var w1 := if missing then Put(w, Policy(name), f(1)) else w;
    var link := Attached(o.spec.value.service, name);
    if link !in w1.auth {
      AppendGood(w1, link, f(2), cat);
    }
  }

  /** Where the store holds no key no registered client depends on one, so recording or dropping one there is safe. */
  lemma MintGood(w: World, path: string, minted: string, f: Fates, cat: seq<Object>)
    requires Good(w, cat) && !CutOff(f(3))
    ensures var (w1, stop) := MintKey(w, path, minted, f);
      && Good(w1, cat) && w1 == w.(keys := w1.keys)
      && (stop.Fine? ==> path in w1.keys && w1.keys[path] == Whole(KeyUsed(w, path, minted)))
      && (stop.Fine? && ReadsEmpty(w.keys, path) ==> w1.keys - {path} == w.keys)
  {
    var (w1, stop) := MintKey(w, path, minted, f);
    if ReadsEmpty(w.keys, path) {
      assert path !in w.keys;
      assert w.keys[path := Whole(minted)] - {path} == w.keys;
      forall i | 0 <= i < |w.auth|
        ensures KeyHeld(w.auth[i], w1.keys)
      {
        assert KeyHeld(w.auth[i], w.keys);
      }
    }
  }

  lemma RegisterGood(w: World, x: AuthObject, path: string, generated: bool, f: Fates, cat: seq<Object>)
    requires Good(w, cat) && x.Client? && KeyHeld(x, w.keys) && Matches(x, cat) && !f(5).Lost?
    requires !HasClient(w.auth, x.name)
    requires generated ==> Good(w.(keys := w.keys - {path}), cat)
    ensures Next(w, RegisterClient(w, x, path, generated, f).w, cat)
  {
    AppendGood(w, x, f(5), cat);
  }

  lemma ClientGood(w: World, o: Object, minted: string, f: Fates, cat: seq<Object>)
    requires Good(w, cat) && IsClient(o) && Careful(f) && Matches(Client(o.name, o.spec.value.service, ""), cat)
    ensures Next(w, EnsureClient(w, o, minted, f).w, cat)
  {
    var path := KeyPath(o.spec.value.service);
    if path.Some? && !HasClient(w.auth, o.name) {
      MintGood(w, path.value, minted, f, cat);
      var (w1, stop) := MintKey(w, path.value, minted, f);
      if stop.Fine? {
        var x := Client(o.name, o.spec.value.service, KeyUsed(w, path.value, minted));
        var generated := ReadsEmpty(w.keys, path.value);
        assert generated ==> w1.(keys := w1.keys - {path.value}) == w;
        RegisterGood(w1, x, path.value, generated, f, cat);
      }
    }
  }

  /** The catalogs the loop is for. */
  predicate WellOrdered(cat: seq<Object>) {
    && (forall i :: 0 <= i < |cat| ==> WellFormed(cat[i]) && PermissionsDistinct(cat[i]))
    && (forall i :: 0 <= i < |cat| && Needs(cat[i]).Some? ==> AppliedBefore(cat, i, Needs(cat[i]).value))
    && (forall i :: 0 <= i < |cat| && IsClient(cat[i]) ==>
          KeyPath(cat[i].spec.value.service).Some? && Matches(Client(cat[i].name, cat[i].spec.value.service, ""), cat))
  }

  predicate AppliedBefore(cat: seq<Object>, i: nat, service: string) {
    exists j :: 0 <= j < i && j < |cat| && cat[j].spec.Some? && cat[j].spec.value.ServiceSpec? && cat[j].name == service
  }

  lemma TurnGood(w: World, ids: set<string>, cat: seq<Object>, k: nat, minted: string, f: Fates)
    requires Good(w, cat) && WellOrdered(cat) && k < |cat| && (IsClient(cat[k]) ==> Careful(f))
    ensures Next(w, TurnOf(w, ids, cat[k], minted, f).w, cat)
  {
    match cat[k].spec.value
    case ServiceSpec(_) => ServiceGood(w, cat[k], f, cat);
    case ApiSpec(_, _) => ApiGood(w, cat[k], f, cat);
    case ClientSpec(_) => ClientGood(w, cat[k], minted, f, cat);
    case PolicySpec(_, _, _) => PolicyGood(w, cat[k], f, cat);
  }

  // ---- convergence -------------------------------------------------------------------------------

  /** Auth, and Core's registry, hold what the catalog object asks for. */
  predicate Holds(w: World, o: Object) {
    o.spec.Some? &&
    match o.spec.value
    case ServiceSpec(kind) => Svc(o.name) in w.auth && (Text.Trim(kind) == "" || Settled(w.registry, o.name))
    case ApiSpec(_, permissions) =>
      Api(o.name) in w.auth && forall i :: 0 <= i < |permissions| ==> Perm(o.name, permissions[i]) in w.auth
    case ClientSpec(_) => HasClient(w.auth, o.name)
    case PolicySpec(service, policyName, actions) =>
      var name := if policyName == "" then o.name else policyName;
      actions == [] || (Policy(name) in w.auth && Attached(service, name) in w.auth)
  }

  lemma HoldsPersists(w: World, w': World, o: Object)
    requires Holds(w, o) && Grows(w, w')
    ensures Holds(w', o)
  {
    assert forall x :: x in w.auth ==> x in w'.auth;
    if o.spec.value.ClientSpec? {
      var i :| 0 <= i < |w.auth| && w.auth[i].Client? && w.auth[i].name == o.name;
      assert w'.auth[i] == w.auth[i];
    }
  }

  ghost predicate FaultFree(f: Fates) { forall k :: f(k).Fine? }

  lemma {:induction false} PermissionsComplete(w: World, api: string, want: seq<string>, have: set<string>, f: Fates, k: nat)
    requires k <= |want| && FaultFree(f) && have <= Defined(w.auth, api)
    ensures var r := AddPermissions(w, api, want, have, f, k);
      r.1.Fine? && w.auth <= r.0.auth && forall j :: k <= j < |want| ==> Perm(api, want[j]) in r.0.auth
    decreases |want| - k
  {
    if k < |want| {
      if want[k] in have {
        PermissionsComplete(w, api, want, have, f, k + 1);
        assert Perm(api, want[k]) in w.auth;
      } else {
        var w' := Put(w, Perm(api, want[k]), f(3 + k));
        assert forall n :: n in Defined(w.auth, api) ==> n in Defined(w'.auth, api);
        PermissionsComplete(w', api, want, have, f, k + 1);
        assert w'.auth[|w.auth|] == Perm(api, want[k]);
      }
    }
  }

  /** The turn brought its object about and said so. */
  predicate Succeeds(turn: Turn, o: Object) {
    Holds(turn.w, o) && turn.verdict.Done? && !turn.verdict.status.FailedOutcome?
  }

  lemma ApiSucceeds(w: World, o: Object, f: Fates)
    requires FaultFree(f) && o.spec.Some? && o.spec.value.ApiSpec?
    ensures Succeeds(EnsureApi(w, o, f), o)
  {
    var w1 := if Api(o.name) !in w.auth then Put(w, Api(o.name), f(1)) else w;
    assert Api(o.name) in w1.auth;
    var want := o.spec.value.permissions;
    PermissionsComplete(w1, o.name, want, Defined(w1.auth, o.name), f, 0);
    var (w2, stop) := EnsurePermissions(w1, o.name, want, f);
    assert stop.Fine? && Api(o.name) in w2.auth;
  }

  lemma ClientSucceeds(w: World, o: Object, minted: string, f: Fates, cat: seq<Object>)
    requires FaultFree(f) && IsClient(o) && Good(w, cat) && o in cat && KeyPath(o.spec.value.service).Some?
    ensures Succeeds(EnsureClient(w, o, minted, f), o)
  {
    if HasClient(w.auth, o.name) {
      var i :| 0 <= i < |w.auth| && w.auth[i].Client? && w.auth[i].name == o.name;
      assert Matches(w.auth[i], cat) && KeyHeld(w.auth[i], w.keys);
    } else {
      var w' := EnsureClient(w, o, minted, f).w;
      assert w'.auth[|w.auth|].Client? && w'.auth[|w.auth|].name == o.name;
    }
  }

  lemma PolicySucceeds(w: World, o: Object, f: Fates)
    requires FaultFree(f) && o.spec.Some? && o.spec.value.PolicySpec?
    ensures Succeeds(EnsurePolicy(w, o, f), o)
  {
    var w1 := if Policy(PolicyName(o)) !in w.auth then Put(w, Policy(PolicyName(o)), f(1)) else w;
    assert Policy(PolicyName(o)) in w1.auth;
  }

  lemma TurnSucceeds(w: World, ids: set<string>, cat: seq<Object>, k: nat, minted: string, f: Fates)
    requires WellOrdered(cat) && k < |cat| && Good(w, cat) && FaultFree(f)
    requires Needs(cat[k]).Some? ==> Needs(cat[k]).value in ids
    ensures Succeeds(TurnOf(w, ids, cat[k], minted, f), cat[k])
  {
    var o := cat[k];
    match o.spec.value
    case ServiceSpec(_) =>
    case ApiSpec(_, _) => ApiSucceeds(w, o, f);
    case ClientSpec(_) => ClientSucceeds(w, o, minted, f, cat);
    case PolicySpec(_, _, _) => PolicySucceeds(w, o, f);
  }

  ghost predicate FaultFreePass(sch: Schedule) {
    forall i :: FaultFree(sch.fates(i))
  }

  predicate Clean(s: Session, i: nat) {
    !s.dead && !s.aborted && |s.outcomes| == i && forall j :: 0 <= j < i ==> !s.outcomes[j].status.FailedOutcome?
  }

  /** The services among the first `i` objects are known by id. */
  predicate ServicesKnown(ids: set<string>, cat: seq<Object>, i: nat)
    requires i <= |cat|
  {
    forall j :: 0 <= j < i && cat[j].spec.Some? && cat[j].spec.value.ServiceSpec? ==> cat[j].name in ids
  }

  predicate Held(w: World, cat: seq<Object>, i: nat)
    requires i <= |cat|
  {
    forall j :: 0 <= j < i ==> Holds(w, cat[j])
  }

  /** The state of a failure-free pass after `i` objects. */
  predicate Progress(s: Session, cat: seq<Object>, i: nat)
    requires i <= |cat|
  {
    Good(s.w, cat) && Clean(s, i) && Held(s.w, cat, i) && ServicesKnown(s.ids, cat, i)
  }

  lemma StepIsClean(s: Session, cat: seq<Object>, i: nat, minted: string, f: Fates)
    requires i < |cat| && WellFormed(cat[i]) && Clean(s, i) && Succeeds(TurnOf(s.w, s.ids, cat[i], minted, f), cat[i])
    ensures Clean(EnsureObject(s, cat[i], minted, f), i + 1)
  {
  }

  lemma StepKnowsServices(s: Session, cat: seq<Object>, i: nat, minted: string, f: Fates)
    requires i < |cat| && WellFormed(cat[i]) && ServicesKnown(s.ids, cat, i) && !s.dead && !s.aborted && FaultFree(f)
    ensures ServicesKnown(EnsureObject(s, cat[i], minted, f).ids, cat, i + 1)
  {
  }

  lemma ProgressStep(s: Session, cat: seq<Object>, i: nat, minted: string, f: Fates)
    requires WellOrdered(cat) && i < |cat| && Progress(s, cat, i) && FaultFree(f)
    ensures Progress(EnsureObject(s, cat[i], minted, f), cat, i + 1)
  {
    if Needs(cat[i]).Some? {
      assert AppliedBefore(cat, i, Needs(cat[i]).value);
    }
    TurnSucceeds(s.w, s.ids, cat, i, minted, f);
    TurnGood(s.w, s.ids, cat, i, minted, f);
    AllHold(s.w, TurnOf(s.w, s.ids, cat[i], minted, f).w, cat, i);
    StepIsClean(s, cat, i, minted, f);
    StepKnowsServices(s, cat, i, minted, f);
  }

  lemma AllHold(w: World, w': World, cat: seq<Object>, i: nat)
    requires i <= |cat| && Grows(w, w') && forall j :: 0 <= j < i ==> Holds(w, cat[j])
    ensures forall j :: 0 <= j < i ==> Holds(w', cat[j])
  {
    forall j | 0 <= j < i
      ensures Holds(w', cat[j])
    {
      HoldsPersists(w, w', cat[j]);
    }
  }

  /** Auth and the registry hold every object of the catalog. */
  predicate Converged(w: World, cat: seq<Object>) { forall i :: 0 <= i < |cat| ==> Holds(w, cat[i]) }

  lemma {:induction false} WalkProgresses(w: World, cat: seq<Object>, sch: Schedule, i: nat)
    requires WellOrdered(cat) && i <= |cat| && Good(w, cat) && FaultFreePass(sch)
    ensures Progress(ReconcileUpTo(Begin(w), cat, sch, i), cat, i)
  {
    if i > 0 {
      WalkProgresses(w, cat, sch, i - 1);
      ProgressStep(ReconcileUpTo(Begin(w), cat, sch, i - 1), cat, i - 1, sch.minted(i - 1), sch.fates(i - 1));
    }
  }

  /** One failure-free pass converges any sound world, and reports no failure. */
  lemma FaultFreePassConverges(w: World, cat: seq<Object>, sch: Schedule)
    requires WellOrdered(cat) && Good(w, cat) && FaultFreePass(sch)
    ensures var s := Reconcile(w, cat, sch); Converged(s.w, cat) && Good(s.w, cat) && Clean(s, |cat|)
  {
    WalkProgresses(w, cat, sch, |cat|);
  }

  // ---- a converged world is a fixed point --------------------------------------------------------

  lemma {:induction false} NothingToAdd(w: World, api: string, want: seq<string>, have: set<string>, f: Fates, k: nat)
    requires k <= |want| && forall j :: k <= j < |want| ==> want[j] in have
    ensures AddPermissions(w, api, want, have, f, k) == (w, Fine)
    decreases |want| - k
  {
    if k < |want| {
      NothingToAdd(w, api, want, have, f, k + 1);
    }
  }

  /** Where an object already holds, its turn writes nothing and creates nothing, whatever its calls do. */
  lemma HeldObjectIsLeftAlone(w: World, ids: set<string>, o: Object, minted: string, f: Fates)
    requires Holds(w, o)
    ensures var turn := TurnOf(w, ids, o, minted, f);
      turn.w == w && (turn.verdict.Died? || turn.verdict == FAILED || turn.verdict == Done(Ensured))
  {
    if o.spec.value.ApiSpec? {
      var want := o.spec.value.permissions;
      forall j | 0 <= j < |want|
        ensures want[j] in Defined(w.auth, o.name)
      {
        assert Perm(o.name, want[j]) in w.auth;
      }
      NothingToAdd(w, o.name, want, Defined(w.auth, o.name), f, 0);
    }
  }

  /** Every further pass, even one whose calls fail or lose replies or die, creates and changes nothing. */
  lemma {:induction false} ConvergedIsFixed(w: World, cat: seq<Object>, sch: Schedule, i: nat)
    requires i <= |cat| && Converged(w, cat)
    ensures var s := ReconcileUpTo(Begin(w), cat, sch, i);
      s.w == w && forall j :: 0 <= j < |s.outcomes| ==> !s.outcomes[j].status.Created?
  {
    if i > 0 {
      ConvergedIsFixed(w, cat, sch, i - 1);
      var s := ReconcileUpTo(Begin(w), cat, sch, i - 1);
      HeldObjectIsLeftAlone(w, s.ids, cat[i - 1], sch.minted(i - 1), sch.fates(i - 1));
    }
  }

  // ---- outcomes ----------------------------------------------------------------------------------

  predicate OnePerObject(outcomes: seq<Outcome>, cat: seq<Object>, i: nat)
    requires i <= |cat|
  {
    |outcomes| == i && forall j :: 0 <= j < i ==> outcomes[j].kind == cat[j].kind && outcomes[j].name == cat[j].name
  }

  /** A pass that ran to its end recorded exactly one outcome per catalog object, in catalog order. */
  lemma {:induction false} CompletedPassReportsEach(w: World, cat: seq<Object>, sch: Schedule, i: nat)
    requires i <= |cat|
    ensures var s := ReconcileUpTo(Begin(w), cat, sch, i);
      !s.dead && !s.aborted ==> OnePerObject(s.outcomes, cat, i)
  {
    if i > 0 {
      CompletedPassReportsEach(w, cat, sch, i - 1);
    }
  }

  // ---- every journey -----------------------------------------------------------------------------

  /** A process runs a pass, or the setup window provisions one of the catalog's clients. */
  datatype Stage = FullPass(sch: Schedule) | WindowClient(index: nat, minted: string, f: Fates)

  predicate CarefulStage(st: Stage, cat: seq<Object>) {
    match st
    case FullPass(sch) => CarefulPass(sch, cat)
    case WindowClient(k, minted, f) => k < |cat| && IsClient(cat[k]) && !CutOff(f(3))
  }

  predicate CarefulAt(sch: Schedule, i: nat) { Careful(sch.fates(i)) }

  /** Only the clients' turns need care; every other call may fail, lose its reply or die anywhere. */
  predicate CarefulPass(sch: Schedule, cat: seq<Object>) {
    forall i :: 0 <= i < |cat| && IsClient(cat[i]) ==> CarefulAt(sch, i)
  }

  function Advance(w: World, cat: seq<Object>, st: Stage): World {
    match st
    case FullPass(sch) => Reconcile(w, cat, sch).w
    case WindowClient(k, minted, f) =>
      if k < |cat| && IsClient(cat[k]) then SetupWindowClient(w, cat[k].name, cat[k].spec.value.service, minted, f) else w
  }

  function Journey(w: World, cat: seq<Object>, stages: seq<Stage>): World
    decreases |stages|
  {
    if stages == [] then w
    else Advance(Journey(w, cat, stages[..|stages| - 1]), cat, stages[|stages| - 1])
  }

  lemma {:induction false} PassGood(w: World, cat: seq<Object>, sch: Schedule, i: nat)
    requires i <= |cat| && WellOrdered(cat) && Good(w, cat) && CarefulPass(sch, cat)
    ensures i > 0 ==> Next(w, ReconcileUpTo(Begin(w), cat, sch, i).w, cat)
  {
    if i > 1 {
      PassGood(w, cat, sch, i - 1);
      WalkStepGood(w, cat, sch, i - 1);
    } else if i == 1 {
      WalkStepGood(w, cat, sch, 0);
    }
  }

  lemma WalkStepGood(w: World, cat: seq<Object>, sch: Schedule, k: nat)
    requires k < |cat| && WellOrdered(cat) && (IsClient(cat[k]) ==> CarefulAt(sch, k))
    requires Good(ReconcileUpTo(Begin(w), cat, sch, k).w, cat)
    ensures Next(ReconcileUpTo(Begin(w), cat, sch, k).w, ReconcileUpTo(Begin(w), cat, sch, k + 1).w, cat)
  {
    var s := ReconcileUpTo(Begin(w), cat, sch, k);
    TurnGood(s.w, s.ids, cat, k, sch.minted(k), sch.fates(k));
  }

  /** On the setup-window path even a lost reply is safe: its key is not rolled back. */
  lemma WindowGood(w: World, cat: seq<Object>, k: nat, minted: string, f: Fates)
    requires WellOrdered(cat) && Good(w, cat)
    requires k < |cat| && IsClient(cat[k]) && !CutOff(f(3))
    ensures Next(w, SetupWindowClient(w, cat[k].name, cat[k].spec.value.service, minted, f), cat)
  {
    var name, service := cat[k].name, cat[k].spec.value.service;
    var path := KeyPath(service).value;
    MintGood(w, path, minted, f, cat);
    var (w1, stop) := MintKey(w, path, minted, f);
    if stop.Fine? && !HasClient(w.auth, name) {
      AppendGood(w1, Client(name, service, KeyUsed(w, path, minted)), f(5), cat);
    }
  }

  const NOTHING: World := World([], map[], map[])

  /** In every world any careful journey can reach: nothing twice, and every client's key in custody. */
  lemma {:induction false} KeyCustody(cat: seq<Object>, stages: seq<Stage>)
    requires WellOrdered(cat) && forall i :: 0 <= i < |stages| ==> CarefulStage(stages[i], cat)
    ensures Good(Journey(NOTHING, cat, stages), cat)
    decreases |stages|
  {
    if stages != [] {
      var n := |stages| - 1;
      KeyCustody(cat, stages[..n]);
      StageGood(Journey(NOTHING, cat, stages[..n]), cat, stages[n]);
    }
  }

  lemma StageGood(w: World, cat: seq<Object>, st: Stage)
    requires WellOrdered(cat) && Good(w, cat) && CarefulStage(st, cat)
    ensures Next(w, Advance(w, cat, st), cat)
  {
    match st
    case FullPass(sch) => PassGood(w, cat, sch, |cat|);
    case WindowClient(k, minted, f) => WindowGood(w, cat, k, minted, f);
  }

  /** A registered client's key is never replaced and never discarded by a later stage. */
  lemma RegisteredKeysStay(cat: seq<Object>, stages: seq<Stage>, st: Stage, i: nat)
    requires WellOrdered(cat) && (forall k :: 0 <= k < |stages| ==> CarefulStage(stages[k], cat)) && CarefulStage(st, cat)
    requires i < |Journey(NOTHING, cat, stages).auth| && Journey(NOTHING, cat, stages).auth[i].Client?
    ensures var w := Journey(NOTHING, cat, stages);
      var w', path := Advance(w, cat, st), KeyPath(w.auth[i].service);
      path.Some? && path.value in w.keys && path.value in w'.keys && w'.keys[path.value] == w.keys[path.value]
  {
    var w := Journey(NOTHING, cat, stages);
    KeyCustody(cat, stages);
    StageGood(w, cat, st);
    var w' := Advance(w, cat, st);
    assert w'.auth[i] == w.auth[i];
    assert KeyHeld(w.auth[i], w.keys) && KeyHeld(w'.auth[i], w'.keys);
  }

  /**
   Crash convergence: after any careful journey, however many passes failed or died midway, one
   failure-free pass converges with nothing created twice, and the pass after it changes nothing.
   */
  lemma ConvergesFromAnyCrash(cat: seq<Object>, stages: seq<Stage>, last: Schedule, again: Schedule)
    requires WellOrdered(cat) && forall i :: 0 <= i < |stages| ==> CarefulStage(stages[i], cat)
    requires FaultFreePass(last)
    ensures var s := Reconcile(Journey(NOTHING, cat, stages), cat, last);
      && Converged(s.w, cat) && Good(s.w, cat) && Clean(s, |cat|)
      && Reconcile(s.w, cat, again).w == s.w
  {
    KeyCustody(cat, stages);
    var w := Journey(NOTHING, cat, stages);
    FaultFreePassConverges(w, cat, last);
    ConvergedIsFixed(Reconcile(w, cat, last).w, cat, again, |cat|);
  }
}
