/**
 The control-plane reconciler: a catalog of typed objects driven into a remote auth service by
 get-or-create, over calls that may fail, lose their reply, or never return because the process died.

 Every call an operation makes has a position, and a `Fates` argument says how each turns out.
 */
module Steward {
  import opened Basics
  import opened Text

  // ---- the outside world -------------------------------------------------------------------------

  /**
   What auth holds, in creation order.  A client carries the private key its registered JWKS was
   derived from; auth itself only ever sees the public half.
   */
  datatype AuthObject =
    | Svc(name: string)
    | Api(name: string)
    | Perm(api: string, name: string)
    | Client(name: string, service: string, key: string)
    | Policy(name: string)
    | Attached(service: string, policy: string)

  datatype RegistryStatus = PendingRow | RegisteredRow | RuntimeRow(text: string)

  datatype RegistryRow = RegistryRow(status: RegistryStatus, stamped: bool)

  /** Core's own registry row: created registered, or moved off pending, never moved back. */
  function Registered(reg: map<string, RegistryRow>, name: string): map<string, RegistryRow> {
    if name !in reg then reg[name := RegistryRow(RegisteredRow, true)]
    else
      var cur := reg[name];
      if !cur.status.PendingRow? && cur.stamped then reg
      else reg[name := RegistryRow(if cur.status.PendingRow? then RegisteredRow else cur.status, true)]
  }

  /** Where a service's key lives: its trimmed name, unless that could leave the directory. */
  function KeyPath(service: string): Option<string> {
    var name := Trim(service);
    if name == "" || '/' in name || Contains(name, "..") then None else Some(name)
  }

  // ---- the catalog -------------------------------------------------------------------------------

  datatype Spec =
    | ServiceSpec(registryKind: string)
    | ApiSpec(service: string, permissions: seq<string>)
    | ClientSpec(service: string)
    | PolicySpec(service: string, policyName: string, actions: seq<string>)

  datatype Kind = KService | KApi | KClient | KPolicy | KUnknown(text: string)

  function KindOf(spec: Spec): Kind {
    match spec
    case ServiceSpec(_) => KService
    case ApiSpec(_, _) => KApi
    case ClientSpec(_) => KClient
    case PolicySpec(_, _, _) => KPolicy
  }

  datatype Object = Object(apiVersion: string, kind: Kind, name: string, spec: Option<Spec>)

  const API_VERSION: string := "control.maintainerd/v1"

  function PolicyName(o: Object): string
    requires o.spec.Some? && o.spec.value.PolicySpec?
  {
    if o.spec.value.policyName != "" then o.spec.value.policyName else o.name
  }

  predicate ActionsEnumerated(actions: seq<string>) {
    forall i :: 0 <= i < |actions| ==> Trim(actions[i]) != "" && Trim(actions[i]) != "*"
  }

  /** The checks reconcile makes before it touches an object; the first failure aborts the pass. */
  predicate WellFormed(o: Object) {
    && o.apiVersion == API_VERSION && o.name != "" && o.spec.Some? && o.kind == KindOf(o.spec.value)
    && (o.spec.value.PolicySpec? ==> ActionsEnumerated(o.spec.value.actions))
  }

  // ---- one object's turn -------------------------------------------------------------------------

  /** What survives a pass: auth, the key files, the registry. */
  datatype World = World(auth: seq<AuthObject>, keys: map<string, KeyFile>, registry: map<string, RegistryRow>)

  /** A key file: created and never filled, filled in part, or holding a key. */
  datatype KeyFile = Empty | Truncated | Whole(pem: string)

  datatype OutcomeStatus = Created | Ensured | FailedOutcome

  /** How a turn ended: with an outcome, possibly just before the pass itself ended, or without one. */
  datatype Verdict = Done(status: OutcomeStatus) | Died | DoneThenDied(status: OutcomeStatus) | DoneThenAborted(status: OutcomeStatus)

  const FAILED: Verdict := Done(FailedOutcome)

  datatype Turn = Turn(w: World, verdict: Verdict)

  /** A turn that ends here, because the call at hand died or errored. */
  function Halt(w: World, f: Fate): Turn { Turn(w, if Dies(f) then Died else FAILED) }

  /** A remote create: the object is appended if the call takes effect. */
  function Put(w: World, x: AuthObject, f: Fate): World {
    if Takes(f) then w.(auth := w.auth + [x]) else w
  }

  /** Whether the turn got as far as knowing the service's id. */
  predicate ServiceResolved(w: World, o: Object, f: Fates) {
    f(0).Fine? && (Svc(o.name) in w.auth || f(1).Fine?)
  }

  function EnsureService(w: World, o: Object, f: Fates): Turn
    requires o.spec.Some? && o.spec.value.ServiceSpec?
  {
    if !f(0).Fine? then Halt(w, f(0))
    else
      var missing := Svc(o.name) !in w.auth;
      var w1 := if missing then Put(w, Svc(o.name), f(1)) else w;
      if missing && !f(1).Fine? then Halt(w1, f(1))
      else
        var done := Done(if missing then Created else Ensured);
        if Trim(o.spec.value.registryKind) == "" then Turn(w1, done)
        else
          var w2 := if Takes(f(2)) then w1.(registry := Registered(w1.registry, o.name)) else w1;
          if !f(2).Fine? then Halt(w2, f(2)) else Turn(w2, done)
  }

  /** The permission loop: `have` was read once, before it.  Yields the call that stopped it, if one did. */
  function AddPermissions(w: World, api: string, want: seq<string>, have: set<string>, f: Fates, k: nat): (r: (World, Fate))
    requires k <= |want|
    decreases |want| - k
  {
    if k == |want| then (w, Fine)
    else if want[k] in have then AddPermissions(w, api, want, have, f, k + 1)
    else
      var w' := Put(w, Perm(api, want[k]), f(3 + k));
      if !f(3 + k).Fine? then (w', f(3 + k)) else AddPermissions(w', api, want, have, f, k + 1)
  }

  function Defined(auth: seq<AuthObject>, api: string): set<string> {
    set x | x in auth && x.Perm? && x.api == api :: x.name
  }

  function EnsurePermissions(w: World, api: string, want: seq<string>, f: Fates): (World, Fate) {
    if want == [] then (w, Fine)
    else if !f(2).Fine? then (w, f(2))
    else AddPermissions(w, api, want, Defined(w.auth, api), f, 0)
  }

  function EnsureApi(w: World, o: Object, f: Fates): Turn
    requires o.spec.Some? && o.spec.value.ApiSpec?
  {
    if !f(0).Fine? then Halt(w, f(0))
    else
      var missing := Api(o.name) !in w.auth;
      var w1 := if missing then Put(w, Api(o.name), f(1)) else w;
      if missing && !f(1).Fine? then Halt(w1, f(1))
      else
        var (w2, stop) := EnsurePermissions(w1, o.name, o.spec.value.permissions, f);
        if !stop.Fine? then Halt(w2, stop)
        else Turn(w2, Done(if |w2.auth| > |w.auth| then Created else Ensured))
  }

  predicate HasClient(auth: seq<AuthObject>, name: string) {
    exists i :: 0 <= i < |auth| && auth[i].Client? && auth[i].name == name
  }

  /** The store reads as having no key: no file, or an empty one. */
  predicate ReadsEmpty(keys: map<string, KeyFile>, path: string) { path !in keys || keys[path].Empty? }

  /** No JWKS can be derived from what the store holds. */
  predicate Unusable(keys: map<string, KeyFile>, path: string) { path in keys && keys[path].Truncated? }

  /** The create-exclusive write: an existing file is left as it is and reported as success. */
  function RecordKey(keys: map<string, KeyFile>, path: string, pem: string, f: Fate): map<string, KeyFile> {
    if path in keys then keys
    else if Takes(f) then keys[path := Whole(pem)]
    else if CutOff(f) then keys[path := if f.part then Truncated else Empty]
    else keys
  }

  /** The rollback of a key that was minted in this call. */
  function DiscardKey(keys: map<string, KeyFile>, path: string, f: Fate): map<string, KeyFile> {
    if Takes(f) then keys - {path} else keys
  }

  /** Mints and records a key if the store holds none.  Yields the call that stopped it, if one did. */
  function MintKey(w: World, path: string, minted: string, f: Fates): (World, Fate) {
    if !ReadsEmpty(w.keys, path) then (w, Fine)
    else if !f(2).Fine? then (w, f(2))
    else (w.(keys := RecordKey(w.keys, path, minted, f(3))), f(3))
  }

  /** The key a client is registered with: the stored one, or the one just minted. */
  function KeyUsed(w: World, path: string, minted: string): string
    requires !Unusable(w.keys, path)
  {
    if ReadsEmpty(w.keys, path) then minted else w.keys[path].pem
  }

  /** Registers the client under `pem`; a key minted for it is rolled back if auth refuses. */
  function RegisterClient(w: World, x: AuthObject, path: string, generated: bool, f: Fates): Turn {
    var w1 := Put(w, x, f(5));
    if Dies(f(5)) then Turn(w1, Died)
    else if Errs(f(5)) then
      if !generated then Turn(w1, FAILED)
      else Turn(w1.(keys := DiscardKey(w1.keys, path, f(6))), if Dies(f(6)) then Died else FAILED)
    else if generated && Dies(f(7)) then Turn(w1, DoneThenDied(Created))
    else if generated && Errs(f(7)) then Turn(w1, DoneThenAborted(Created))
    else Turn(w1, Done(Created))
  }

  /** `minted` is the key this turn would generate. */
  function EnsureClient(w: World, o: Object, minted: string, f: Fates): Turn
    requires o.spec.Some? && o.spec.value.ClientSpec?
  {
    var path := KeyPath(o.spec.value.service);
    if !f(0).Fine? then Halt(w, f(0))
    else if path.None? then Turn(w, FAILED)
    else if !f(1).Fine? then Halt(w, f(1))
    else if HasClient(w.auth, o.name) then
      Turn(w, if path.value in w.keys then Done(Ensured) else FAILED)
    else
      var (w1, stop) := MintKey(w, path.value, minted, f);
      if !stop.Fine? then Halt(w1, stop)
      else if !f(4).Fine? then Halt(w1, f(4))
      else if Unusable(w.keys, path.value) then Turn(w1, FAILED)
      else
        RegisterClient(w1, Client(o.name, o.spec.value.service, KeyUsed(w, path.value, minted)), path.value,
                       ReadsEmpty(w.keys, path.value), f)
  }

  function EnsurePolicy(w: World, o: Object, f: Fates): Turn
    requires o.spec.Some? && o.spec.value.PolicySpec?
  {
    if !f(0).Fine? then Halt(w, f(0))
    else
      var name := PolicyName(o);
      var missing := Policy(name) !in w.auth;
      var w1 := if missing then Put(w, Policy(name), f(1)) else w;
      if missing && !f(1).Fine? then Halt(w1, f(1))
      else
        var link := Attached(o.spec.value.service, name);
        var w2 := if link in w1.auth then w1 else Put(w1, link, f(2));
        if !f(2).Fine? then Halt(w2, f(2)) else Turn(w2, Done(if missing then Created else Ensured))
  }

  // ---- one pass ----------------------------------------------------------------------------------

  datatype Outcome = Outcome(kind: Kind, name: string, status: OutcomeStatus)

  /** The world and the applier's own state: service ids resolved so far, outcomes, and how it stands. */
  datatype Session = Session(w: World, ids: set<string>, outcomes: seq<Outcome>, dead: bool, aborted: bool)

  /** The service an object needs to have been applied before it. */
  function Needs(o: Object): Option<string>
    requires o.spec.Some?
  {
    match o.spec.value
    case ServiceSpec(_) => None
    case ApiSpec(service, _) => Some(service)
    case ClientSpec(service) => Some(service)
    case PolicySpec(service, _, actions) => if actions == [] then None else Some(service)
  }

  function TurnOf(w: World, ids: set<string>, o: Object, minted: string, f: Fates): Turn
    requires o.spec.Some?
  {
    if Needs(o).Some? && Needs(o).value !in ids then Turn(w, FAILED)
    else
      match o.spec.value
      case ServiceSpec(_) => EnsureService(w, o, f)
      case ApiSpec(_, _) => EnsureApi(w, o, f)
      case ClientSpec(_) => EnsureClient(w, o, minted, f)
      case PolicySpec(_, _, actions) => if actions == [] then Turn(w, Done(Ensured)) else EnsurePolicy(w, o, f)
  }

  function EnsureObject(s: Session, o: Object, minted: string, f: Fates): Session {
    if s.dead || s.aborted then s
    else if !WellFormed(o) then s.(aborted := true)
    else
      var turn := TurnOf(s.w, s.ids, o, minted, f);
      Session(turn.w,
              if o.spec.value.ServiceSpec? && ServiceResolved(s.w, o, f) then s.ids + {o.name} else s.ids,
              if turn.verdict.Died? then s.outcomes else s.outcomes + [Outcome(o.kind, o.name, turn.verdict.status)],
              turn.verdict.Died? || turn.verdict.DoneThenDied?,
              turn.verdict.DoneThenAborted?)
  }

  /** How a whole pass turns out: the calls of each object, and the keys it would generate. */
  datatype Schedule = Schedule(fates: nat -> Fates, minted: nat -> string)

  function ReconcileUpTo(s: Session, cat: seq<Object>, sch: Schedule, i: nat): Session
    requires i <= |cat|
  {
    if i == 0 then s
    else EnsureObject(ReconcileUpTo(s, cat, sch, i - 1), cat[i - 1], sch.minted(i - 1), sch.fates(i - 1))
  }

  function Begin(w: World): Session { Session(w, {}, [], false, false) }

  function Reconcile(w: World, cat: seq<Object>, sch: Schedule): Session {
    ReconcileUpTo(Begin(w), cat, sch, |cat|)
  }

  /** Once a pass has stopped, the rest of the catalog does not touch it. */
  lemma {:induction false} StaysStopped(s: Session, cat: seq<Object>, sch: Schedule, i: nat, n: nat)
    requires i <= n <= |cat|
    requires var t := ReconcileUpTo(s, cat, sch, i); t.dead || t.aborted
    ensures ReconcileUpTo(s, cat, sch, n) == ReconcileUpTo(s, cat, sch, i)
    decreases n
  {
    if i < n {
      StaysStopped(s, cat, sch, i, n - 1);
    }
  }

  /**
   The setup-window path for one client: the same key files, but auth's own get-or-create call, which
   reports whether the client already existed.
   */
  function SetupWindowClient(w: World, name: string, service: string, minted: string, f: Fates): World {
    var path := KeyPath(service);
    if path.None? || !f(1).Fine? then w
    else
      var (w1, stop) := MintKey(w, path.value, minted, f);
      if !stop.Fine? || !f(4).Fine? || Unusable(w.keys, path.value) then w1
      else
        var already := HasClient(w.auth, name);
        var w2 := if already then w1 else Put(w1, Client(name, service, KeyUsed(w, path.value, minted)), f(5));
        if f(5).Fine? && already && path.value !in w.keys then
          w2.(keys := DiscardKey(w2.keys, path.value, f(6)))
        else w2
  }
}
