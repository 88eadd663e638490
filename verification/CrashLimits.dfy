/**
 Where crash convergence stops holding: the exact faults that break custody of a client's key, what
 they leave behind, and exactly when a permission list is created twice.
 */
module CrashLimits {
  import opened Basics
  import opened Steward
  import opened CrashConvergence

  // ---- custody -----------------------------------------------------------------------------------

  /** This turn gets as far as recording a key of its own. */
  predicate Mints(w: World, o: Object, f: Fates)
    requires IsClient(o) && KeyPath(o.spec.value.service).Some?
  {
    && f(0).Fine? && f(1).Fine? && f(2).Fine?
    && !HasClient(w.auth, o.name) && ReadsEmpty(w.keys, KeyPath(o.spec.value.service).value)
  }

  /** The create took effect, its error was believed, and the key it was registered under was removed. */
  predicate DropsLiveKey(f: Fates) { f(3).Fine? && f(4).Fine? && f(5).Lost? && Takes(f(6)) }

  lemma FaultBreaksSound(w: World, o: Object, minted: string, f: Fates)
    requires Sound(w) && IsClient(o) && KeyPath(o.spec.value.service).Some? && Mints(w, o, f)
    requires CutOff(f(3)) || DropsLiveKey(f)
    ensures !Sound(EnsureClient(w, o, minted, f).w)
  {
    var path := KeyPath(o.spec.value.service).value;
    var w' := EnsureClient(w, o, minted, f).w;
    assert path !in w.keys;
    if CutOff(f(3)) {
      assert path in w'.keys && !w'.keys[path].Whole?;
    } else {
      assert w'.auth[|w.auth|] == Client(o.name, o.spec.value.service, minted);
      assert path !in w'.keys && !KeyHeld(w'.auth[|w.auth|], w'.keys);
    }
  }

  /**
   A client's turn keeps the world sound, every key file whole and every registered key in custody, in
   every case but two: the key file's write is cut off, with the process or without it, or the create's
   reply is lost and the rollback goes through.
   */
  lemma CustodyKeptIff(w: World, o: Object, minted: string, f: Fates)
    requires Sound(w) && IsClient(o) && KeyPath(o.spec.value.service).Some?
    ensures Sound(EnsureClient(w, o, minted, f).w) <==> !(Mints(w, o, f) && (CutOff(f(3)) || DropsLiveKey(f)))
  {
    if Mints(w, o, f) && (CutOff(f(3)) || DropsLiveKey(f)) {
      FaultBreaksSound(w, o, minted, f);
    } else {
      ClientSound(w, o, minted, f);
    }
  }

  lemma ClientSound(w: World, o: Object, minted: string, f: Fates)
    requires Sound(w) && IsClient(o) && KeyPath(o.spec.value.service).Some?
    requires !(Mints(w, o, f) && (CutOff(f(3)) || DropsLiveKey(f)))
    ensures Sound(EnsureClient(w, o, minted, f).w)
  {
    var path := KeyPath(o.spec.value.service).value;
    if f(0).Fine? && f(1).Fine? && !HasClient(w.auth, o.name) {
      var g: Fates := (k: nat) => if k == 3 && CutOff(f(3)) then Fails else f(k);
      MintGood(w, path, minted, g, []);
      assert MintKey(w, path, minted, g).0 == MintKey(w, path, minted, f).0;
      var (w1, stop) := MintKey(w, path, minted, f);
      if stop.Fine? && f(4).Fine? {
        var x := Client(o.name, o.spec.value.service, KeyUsed(w, path, minted));
        AppendGood(w1, x, f(5), []);
        if Mints(w, o, f) && Errs(f(5)) {
          assert w1.(keys := w1.keys - {path}) == w;
        }
      }
    }
  }

  /**
   After the lost reply: the client exists, its key is gone, and no later turn, whatever its calls do,
   changes anything or reports success.
   */
  lemma OrphanedClientStaysFailed(w: World, ids: set<string>, o: Object, minted: string, f: Fates)
    requires IsClient(o) && HasClient(w.auth, o.name)
    requires KeyPath(o.spec.value.service).Some? ==> KeyPath(o.spec.value.service).value !in w.keys
    ensures var turn := TurnOf(w, ids, o, minted, f); turn.w == w && (turn.verdict == FAILED || turn.verdict.Died?)
  {
    assert Needs(o) == Some(o.spec.value.service);
  }

  /**
   After a write cut off at once: the next failure-free turn registers the client under a key no file holds, and
   from then on every failure-free turn reports it as ensured.
   */
  lemma EmptyKeyFileLosesTheKey(w: World, o: Object, minted: string, again: string, f: Fates)
    requires IsClient(o) && KeyPath(o.spec.value.service).Some? && FaultFree(f)
    requires !HasClient(w.auth, o.name)
    requires var path := KeyPath(o.spec.value.service).value; path in w.keys && w.keys[path].Empty?
    ensures var turn := EnsureClient(w, o, minted, f);
      && turn.verdict == Done(Created) && turn.w.keys == w.keys && !Custody(turn.w.auth, turn.w.keys)
      && EnsureClient(turn.w, o, again, f) == Turn(turn.w, Done(Ensured))
  {
    var turn := EnsureClient(w, o, minted, f);
    assert turn.w.auth[|w.auth|] == Client(o.name, o.spec.value.service, minted);
    assert !KeyHeld(turn.w.auth[|w.auth|], turn.w.keys);
    assert HasClient(turn.w.auth, o.name);
  }

  /** Where no key file or an empty one is found, no client is registered unless a key was both generated and recorded. */
  lemma NoKeyNoClient(w: World, o: Object, minted: string, f: Fates)
    requires IsClient(o) && KeyPath(o.spec.value.service).Some?
    requires var path := KeyPath(o.spec.value.service).value; path !in w.keys || w.keys[path] == Empty
    ensures !f(2).Fine? || !f(3).Fine? ==> EnsureClient(w, o, minted, f).w.auth == w.auth
  {
  }

  /** After a write cut off partway: no later turn registers the client, changes anything or reports success. */
  lemma TruncatedKeyStaysFailed(w: World, ids: set<string>, o: Object, minted: string, f: Fates)
    requires IsClient(o) && KeyPath(o.spec.value.service).Some? && !HasClient(w.auth, o.name)
    requires Unusable(w.keys, KeyPath(o.spec.value.service).value)
    ensures var turn := TurnOf(w, ids, o, minted, f); turn.w == w && (turn.verdict == FAILED || turn.verdict.Died?)
  {
    assert Needs(o) == Some(o.spec.value.service);
  }

  const AGENT: Object := Object(API_VERSION, KClient, "agent-client", Some(ClientSpec("a")))

  function Only(k: nat, fate: Fate): Fates { (i: nat) => if i == k then fate else Fine }

  /** Each of those faults, from nothing, on one client. */
  lemma CustodyCanBreak(minted: string, part: bool)
    ensures !Sound(EnsureClient(NOTHING, AGENT, minted, Only(5, Lost)).w)
    ensures !Sound(EnsureClient(NOTHING, AGENT, minted, Only(3, Torn(part))).w)
    ensures !Sound(EnsureClient(NOTHING, AGENT, minted, Only(3, Botched(part))).w)
  {
    assert KeyPath("a") == Some("a");
    CustodyKeptIff(NOTHING, AGENT, minted, Only(5, Lost));
    CustodyKeptIff(NOTHING, AGENT, minted, Only(3, Torn(part)));
    CustodyKeptIff(NOTHING, AGENT, minted, Only(3, Botched(part)));
  }

  // ---- permissions -------------------------------------------------------------------------------

  /** The wanted names, from position `k`, that were not there when the set was read. */
  function Missing(want: seq<string>, have: set<string>, k: nat): seq<string>
    requires k <= |want|
    decreases |want| - k
  {
    if k == |want| then []
    else (if want[k] in have then [] else [want[k]]) + Missing(want, have, k + 1)
  }

  function Perms(api: string, names: seq<string>): seq<AuthObject> {
    seq(|names|, i requires 0 <= i < |names| => Perm(api, names[i]))
  }

  lemma PermsCons(auth: seq<AuthObject>, api: string, name: string, rest: seq<string>)
    ensures (auth + [Perm(api, name)]) + Perms(api, rest) == auth + Perms(api, [name] + rest)
  {
    assert Perms(api, [name] + rest) == [Perm(api, name)] + Perms(api, rest);
  }

  lemma {:induction false} LoopAppendsMissing(w: World, api: string, want: seq<string>, have: set<string>, f: Fates, k: nat)
    requires k <= |want| && FaultFree(f)
    ensures AddPermissions(w, api, want, have, f, k).0 == World(w.auth + Perms(api, Missing(want, have, k)), w.keys, w.registry)
    decreases |want| - k
  {
    if k == |want| {
      assert w.auth + Perms(api, []) == w.auth;
    } else if want[k] in have {
      assert Missing(want, have, k) == Missing(want, have, k + 1);
      LoopAppendsMissing(w, api, want, have, f, k + 1);
    } else {
      var w1 := World(w.auth + [Perm(api, want[k])], w.keys, w.registry);
      assert Put(w, Perm(api, want[k]), f(3 + k)) == w1;
      LoopAppendsMissing(w1, api, want, have, f, k + 1);
      PermsCons(w.auth, api, want[k], Missing(want, have, k + 1));
    }
  }

  lemma {:induction false} MissingIsNotHeld(want: seq<string>, have: set<string>, k: nat)
    requires k <= |want|
    ensures forall i :: 0 <= i < |Missing(want, have, k)| ==> Missing(want, have, k)[i] !in have
    decreases |want| - k
  {
    if k < |want| {
      MissingIsNotHeld(want, have, k + 1);
    }
  }

  /**
   The existing set is read once and not updated as the loop creates, so an API's turn avoids creating
   a permission twice exactly when the names it finds missing are distinct.
   */
  lemma PermissionsOnceIff(w: World, api: string, want: seq<string>, f: Fates)
    requires Sound(w) && FaultFree(f) && want != []
    ensures Sound(EnsurePermissions(w, api, want, f).0) <==> Distinct(Missing(want, Defined(w.auth, api), 0))
  {
    var have := Defined(w.auth, api);
    var names := Missing(want, have, 0);
    LoopAppendsMissing(w, api, want, have, f, 0);
    MissingIsNotHeld(want, have, 0);
    var w' := EnsurePermissions(w, api, want, f).0;
    var n := |w.auth|;
    assert forall i :: 0 <= i < |names| ==> w'.auth[n + i] == Perm(api, names[i]);
    if !Distinct(names) {
      var i, j :| 0 <= i < j < |names| && names[i] == names[j];
      assert Ident(w'.auth[n + i]) == Ident(w'.auth[n + j]);
    } else {
      AppendedAreNew(w, api, names);
    }
  }

  lemma AppendedAreNew(w: World, api: string, names: seq<string>)
    requires Sound(w) && Distinct(names) && forall i :: 0 <= i < |names| ==> names[i] !in Defined(w.auth, api)
    ensures Sound(w.(auth := w.auth + Perms(api, names)))
  {
    var auth := w.auth + Perms(api, names);
    forall i, j | 0 <= i < j < |auth|
      ensures Ident(auth[i]) != Ident(auth[j])
    {
      if i < |w.auth| <= j {
        assert auth[i] in w.auth && auth[j] == Perm(api, names[j - |w.auth|]);
      }
    }
  }
}
