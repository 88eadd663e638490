/**
 The reconciler as it runs: a key store over files, an applier that keeps the ids and outcomes of one
 pass, and the loop over the catalog, each shown to do exactly what the specification of Steward says.
 */
module Applying {
  import opened Basics
  import opened Text
  import opened Steward

  class FileKeyStore {
    var files: map<string, KeyFile>

    constructor ()
      ensures files == map[]
    {
      files := map[];
    }

    /** What the file holds, if there is one; a missing file is not an error. */
    method PrivateKey(service: string, f: Fate) returns (r: Result<Option<KeyFile>, string>)
      ensures r.Ok? <==> KeyPath(service).Some? && f.Fine?
      ensures r.Ok? ==> (r.value.Some? <==> KeyPath(service).value in files)
      ensures r.Ok? && r.value.Some? ==> files[KeyPath(service).value] == r.value.value
    {
      var path := KeyPath(service);
      if path.None? || !f.Fine? { return Err("read steward key"); }
      if path.value in files { return Ok(Some(files[path.value])); }
      return Ok(None);
    }

    /** Create-exclusive: a file that is already there is left as it is; a write cut off leaves a file behind. */
    method Record(service: string, pem: string, f: Fate)
      modifies this
      ensures files == if KeyPath(service).Some? then RecordKey(old(files), KeyPath(service).value, pem, f) else old(files)
      ensures forall p :: p in old(files) ==> p in files && files[p] == old(files)[p]
    {
      var path := KeyPath(service);
      if path.None? || path.value in files { return; }
      if CutOff(f) {
        files := files[path.value := if f.part then Truncated else Empty];
      } else if Takes(f) {
        files := files[path.value := Whole(pem)];
      }
    }

    method Discard(service: string, f: Fate)
      modifies this
      ensures files == if KeyPath(service).Some? then DiscardKey(old(files), KeyPath(service).value, f) else old(files)
    {
      var path := KeyPath(service);
      if path.Some? && Takes(f) { files := files - {path.value}; }
    }
  }

  /** Every action is trimmed, then refused if it is empty or a bare star. */
  method ValidatePolicyActions(actions: seq<string>) returns (ok: bool)
    ensures ok == ActionsEnumerated(actions)
  {
    for i := 0 to |actions|
      invariant ActionsEnumerated(actions[..i])
    {
      var action := Trim(actions[i]);
      if action == "" || action == "*" { return false; }
      assert actions[..i + 1] == actions[..i] + [actions[i]];
    }
    assert actions[..|actions|] == actions;
    return true;
  }

  /** The exact-name scan over what auth lists. */
  method FindClient(listed: seq<AuthObject>, name: string) returns (found: bool)
    ensures found == HasClient(listed, name)
  {
    for i := 0 to |listed|
      invariant forall j :: 0 <= j < i ==> !(listed[j].Client? && listed[j].name == name)
    {
      if listed[i].Client? && listed[i].name == name { return true; }
    }
    return false;
  }

  /** How a pass ended: at the end of the catalog, on an error it returned, or with its process. */
  datatype End = Finished | Aborted | Killed

  class Applier {
    const keys: FileKeyStore
    var auth: seq<AuthObject>
    var registry: map<string, RegistryRow>
    var serviceIDs: set<string>
    var outcomes: seq<Outcome>

    ghost function W(): World
      reads this, keys
    {
      World(auth, keys.files, registry)
    }

    /** An applier starts a pass with no ids and no outcomes of its own. */
    constructor (keys: FileKeyStore, auth: seq<AuthObject>, registry: map<string, RegistryRow>)
      ensures this.keys == keys && this.auth == auth && this.registry == registry && serviceIDs == {} && outcomes == []
    {
      this.keys, this.auth, this.registry, serviceIDs, outcomes := keys, auth, registry, {}, [];
    }

    method Create(x: AuthObject, f: Fate)
      modifies this`auth
      ensures W() == Put(old(W()), x, f)
    {
      if Takes(f) { auth := auth + [x]; }
    }

    method EnsureService(o: Object, f: Fates) returns (v: Verdict)
      requires o.spec.Some? && o.spec.value.ServiceSpec?
      modifies this
      ensures Turn(W(), v) == Steward.EnsureService(old(W()), o, f)
      ensures serviceIDs == if ServiceResolved(old(W()), o, f) then old(serviceIDs) + {o.name} else old(serviceIDs)
      ensures outcomes == old(outcomes)
    {
      if !f(0).Fine? { return if Dies(f(0)) then Died else FAILED; }
      var status := Ensured;
      if Svc(o.name) !in auth {
        Create(Svc(o.name), f(1));
        if !f(1).Fine? { return if Dies(f(1)) then Died else FAILED; }
        status := Created;
      }
      serviceIDs := serviceIDs + {o.name};
      if Trim(o.spec.value.registryKind) != "" {
        if Takes(f(2)) { registry := Registered(registry, o.name); }
        if !f(2).Fine? { return if Dies(f(2)) then Died else FAILED; }
      }
      return Done(status);
    }

    /** Yields the number created and the call that stopped it. */
    method EnsurePermissions(api: string, want: seq<string>, f: Fates) returns (created: nat, stop: Fate)
      modifies this`auth
      ensures (W(), stop) == Steward.EnsurePermissions(old(W()), api, want, f)
      ensures stop.Fine? ==> |auth| == |old(auth)| + created
    {
      created, stop := 0, Fine;
      if want == [] { return; }
      if !f(2).Fine? { return 0, f(2); }
      var have := Defined(auth, api);
      for k := 0 to |want|
        invariant AddPermissions(old(W()), api, want, have, f, 0) == AddPermissions(W(), api, want, have, f, k)
        invariant |auth| == |old(auth)| + created && stop.Fine?
      {
        if want[k] !in have {
          Create(Perm(api, want[k]), f(3 + k));
          if !f(3 + k).Fine? { return created, f(3 + k); }
          created := created + 1;
        }
      }
    }

    method EnsureResourceAPI(o: Object, f: Fates) returns (v: Verdict)
      requires o.spec.Some? && o.spec.value.ApiSpec?
      modifies this`auth
      ensures Turn(W(), v) == TurnOf(old(W()), serviceIDs, o, "", f)
    {
      if o.spec.value.service !in serviceIDs { return FAILED; }
      if !f(0).Fine? { return if Dies(f(0)) then Died else FAILED; }
      var status := Ensured;
      if Api(o.name) !in auth {
        Create(Api(o.name), f(1));
        if !f(1).Fine? { return if Dies(f(1)) then Died else FAILED; }
        status := Created;
      }
      var created, stop := EnsurePermissions(o.name, o.spec.value.permissions, f);
      if !stop.Fine? { return if Dies(stop) then Died else FAILED; }
      if created > 0 { status := Created; }
      return Done(status);
    }

    /** Registers the client and rolls a key minted for it back if auth refuses; then the second, redundant record. */
    method Register(x: AuthObject, service: string, generated: bool, f: Fates) returns (v: Verdict)
      requires KeyPath(service).Some? && x.Client?
      requires generated ==> KeyPath(service).value in keys.files
      modifies this`auth, keys
      ensures Turn(W(), v) == RegisterClient(old(W()), x, KeyPath(service).value, generated, f)
    {
      Create(x, f(5));
      if Dies(f(5)) { return Died; }
      if Errs(f(5)) {
        if generated {
          keys.Discard(service, f(6));
          if Dies(f(6)) { return Died; }
        }
        return FAILED;
      }
      if generated {
        keys.Record(service, x.key, f(7));
        if Dies(f(7)) { return DoneThenDied(Created); }
        if Errs(f(7)) { return DoneThenAborted(Created); }
      }
      return Done(Created);
    }

    method EnsureServiceClient(o: Object, minted: string, f: Fates) returns (v: Verdict)
      requires o.spec.Some? && o.spec.value.ClientSpec?
      modifies this`auth, keys
      ensures Turn(W(), v) == TurnOf(old(W()), serviceIDs, o, minted, f)
    {
      var service := o.spec.value.service;
      if service !in serviceIDs { return FAILED; }
      if !f(0).Fine? { return if Dies(f(0)) then Died else FAILED; }
      var existing := FindClient(auth, o.name);
      var key := keys.PrivateKey(service, f(1));
      if key.Err? { return if KeyPath(service).Some? && Dies(f(1)) then Died else FAILED; }
      var file := key.value;
      if existing { return if file.Some? then Done(Ensured) else FAILED; }
      var generated := file.None? || file.value.Empty?;
      var pem := minted;
      if generated {
        if !f(2).Fine? { return if Dies(f(2)) then Died else FAILED; }
        keys.Record(service, pem, f(3));
        if !f(3).Fine? { return if Dies(f(3)) then Died else FAILED; }
      }
      if !f(4).Fine? { return if Dies(f(4)) then Died else FAILED; }
      if !generated {
        if file.value.Truncated? { return FAILED; }
        pem := file.value.pem;
      }
      v := Register(Client(o.name, service, pem), service, generated, f);
    }

    method EnsureServicePolicy(o: Object, f: Fates) returns (v: Verdict)
      requires o.spec.Some? && o.spec.value.PolicySpec?
      modifies this`auth
      ensures Turn(W(), v) == TurnOf(old(W()), serviceIDs, o, "", f)
    {
      if o.spec.value.actions == [] { return Done(Ensured); }
      if o.spec.value.service !in serviceIDs { return FAILED; }
      if !f(0).Fine? { return if Dies(f(0)) then Died else FAILED; }
      var name, status := PolicyName(o), Ensured;
      if Policy(name) !in auth {
        Create(Policy(name), f(1));
        if !f(1).Fine? { return if Dies(f(1)) then Died else FAILED; }
        status := Created;
      }
      if Attached(o.spec.value.service, name) !in auth { Create(Attached(o.spec.value.service, name), f(2)); }
      if !f(2).Fine? { return if Dies(f(2)) then Died else FAILED; }
      return Done(status);
    }

    /** Dispatch on the kind. */
    method Dispatch(o: Object, minted: string, f: Fates) returns (v: Verdict)
      requires o.spec.Some?
      modifies this, keys
      ensures Turn(W(), v) == TurnOf(old(W()), old(serviceIDs), o, minted, f)
      ensures outcomes == old(outcomes)
      ensures serviceIDs ==
        if o.spec.value.ServiceSpec? && ServiceResolved(old(W()), o, f) then old(serviceIDs) + {o.name} else old(serviceIDs)
    {
      match o.spec.value
      case ServiceSpec(_) => v := EnsureService(o, f);
      case ApiSpec(_, _) => v := EnsureResourceAPI(o, f);
      case ClientSpec(_) => v := EnsureServiceClient(o, minted, f);
      case PolicySpec(_, _, _) => v := EnsureServicePolicy(o, f);
    }

    ghost function Now(end: End): Session
      reads this, keys
    {
      Session(W(), serviceIDs, outcomes, end.Killed?, end.Aborted?)
    }

    /** One object: validate, apply, record one outcome unless the process died first. */
    method Ensure(o: Object, minted: string, f: Fates) returns (end: End)
      modifies this, keys
      ensures Now(end) == EnsureObject(old(Now(Finished)), o, minted, f)
    {
      if o.apiVersion != API_VERSION || o.name == "" || o.spec.None? || o.kind != KindOf(o.spec.value) { return Aborted; }
      if o.spec.value.PolicySpec? {
        var ok := ValidatePolicyActions(o.spec.value.actions);
        if !ok { return Aborted; }
      }
      var v := Dispatch(o, minted, f);
      if v.Died? { return Killed; }
      outcomes := outcomes + [Outcome(o.kind, o.name, v.status)];
      return if v.DoneThenDied? then Killed else if v.DoneThenAborted? then Aborted else Finished;
    }

    /** The loop over the catalog, which stops at the first error an object returns. */
    method Reconcile(cat: seq<Object>, sch: Schedule) returns (end: End)
      requires serviceIDs == {} && outcomes == []
      modifies this, keys
      ensures Now(end) == Steward.Reconcile(old(W()), cat, sch)
    {
      ghost var w := W();
      for i := 0 to |cat|
        invariant Now(Finished) == ReconcileUpTo(Begin(w), cat, sch, i)
      {
        end := Ensure(cat[i], sch.minted(i), sch.fates(i));
        if !end.Finished? {
          StaysStopped(Begin(w), cat, sch, i + 1, |cat|);
          return;
        }
      }
      return Finished;
    }
  }
}
