/**
 Secret-blind rendering: what a render returns, and what it writes where, does not depend on the
 plaintext of any secret parameter.
 */
module SecretBlind {
  import opened Basics
  import opened Templates
  import Names

  function SecretNames(defs: seq<Parameter>): set<string> { set p | p in defs && p.kind == "secret" :: p.name }

  /** Two values of one secret: the same, or both supplied and of the same sort. */
  predicate Alike(a: Value, b: Value) {
    || a == b
    || (a.Str? && b.Str? && a.s != "" && b.s != "")
    || (a.Bytes? && b.Bytes? && a.bytes != "" && b.bytes != "")
  }

  /** Two parameter maps that differ at most in the plaintext of secrets. */
  predicate Agree(a: Params, b: Params, secrets: set<string>) {
    && a.Keys == b.Keys
    && (forall k :: k in a ==> k in b && (if k in secrets then Alike(a[k], b[k]) else a[k] == b[k]))
  }

  /** A formatted byte slice is neither empty nor a numeral. */
  ghost predicate BytesPrint(lib: Lib) {
    forall b :: lib.sprint(Bytes(b)) != "" && lib.atoi(lib.sprint(Bytes(b))).None?
  }

  /** The names supplied as a non-empty string. */
  function Texts(supplied: Params): set<string> { set k | k in supplied && supplied[k].Str? && supplied[k].s != "" }

  /** Definition `i` is reached and would parse a secret's plaintext as a number. */
  predicate Leaks(lib: Lib, defs: seq<Parameter>, supplied: Params, i: nat)
    requires i < |defs|
  {
    && defs[i].kind == "int" && defs[i].name != ""
    && defs[i].name in SecretNames(defs) && defs[i].name in Texts(supplied)
    && ResolveUpTo(lib, defs, supplied, i).Some?
  }

  predicate Leaky(lib: Lib, defs: seq<Parameter>, supplied: Params) {
    exists i :: 0 <= i < |defs| && Leaks(lib, defs, supplied, i)
  }

  /** Alike, and not told apart by a number parser. */
  predicate Tame(lib: Lib, x: Value, y: Value) {
    x == y || (Alike(x, y) && CoerceInt(lib, x).None? && CoerceInt(lib, y).None?)
  }

  /** Agreement during resolution: only a secret supplied as text may be told apart. */
  predicate AgreeSoFar(lib: Lib, a: Params, b: Params, secrets: set<string>, texts: set<string>) {
    Agree(a, b, secrets) && forall k :: k in a && k in secrets - texts ==> Tame(lib, a[k], b[k])
  }

  predicate SameResolution(lib: Lib, a: Option<Params>, b: Option<Params>, secrets: set<string>, texts: set<string>) {
    if a.None? then b.None? else b.Some? && AgreeSoFar(lib, a.value, b.value, secrets, texts)
  }

  lemma AgreeUpdate(a: Params, b: Params, secrets: set<string>, k: string, x: Value, y: Value)
    requires Agree(a, b, secrets) && (if k in secrets then Alike(x, y) else x == y)
    ensures Agree(a[k := x], b[k := y], secrets)
  {
  }

  lemma CoerceAlike(lib: Lib, p: Parameter, x: Value, y: Value)
    requires BytesPrint(lib) && Alike(x, y) && (p.kind == "int" ==> Tame(lib, x, y))
    ensures var a, b := Coerce(lib, p, x), Coerce(lib, p, y);
      && a.Some? == b.Some? && (a.Some? ==> Alike(a.value, b.value))
      && (a.Some? && Tame(lib, x, y) ==> Tame(lib, a.value, b.value))
  {
  }

  lemma ResolveOneAgrees(lib: Lib, a: Params, b: Params, p: Parameter, secrets: set<string>, texts: set<string>)
    requires BytesPrint(lib) && AgreeSoFar(lib, a, b, secrets, texts)
    requires !(p.kind == "int" && p.name != "" && p.name in secrets * texts)
    ensures SameResolution(lib, ResolveOne(lib, a, p), ResolveOne(lib, b, p), secrets, texts)
  {
    if p.name != "" && p.kind != "secret" {
      var x, y := Get(a, p.name), Get(b, p.name);
      assert Unset(x) == Unset(y) && Alike(x, y);
      if !Unset(x) || p.default != Null {
        var x', y' := if Unset(x) then p.default else x, if Unset(y) then p.default else y;
        CoerceAlike(lib, p, x', y');
        if Coerce(lib, p, x').Some? {
          AgreeUpdate(a, b, secrets, p.name, Coerce(lib, p, x').value, Coerce(lib, p, y').value);
        }
      }
    }
  }

  lemma {:induction false} ResolveAgrees(lib: Lib, defs: seq<Parameter>, a: Params, b: Params, i: nat)
    requires i <= |defs| && BytesPrint(lib) && Agree(a, b, SecretNames(defs)) && !Leaky(lib, defs, a)
    ensures SameResolution(lib, ResolveUpTo(lib, defs, a, i), ResolveUpTo(lib, defs, b, i), SecretNames(defs), Texts(a))
  {
    if i > 0 {
      ResolveAgrees(lib, defs, a, b, i - 1);
      var m := ResolveUpTo(lib, defs, a, i - 1);
      if m.Some? {
        assert !Leaks(lib, defs, a, i - 1);
        ResolveOneAgrees(lib, m.value, ResolveUpTo(lib, defs, b, i - 1).value, defs[i - 1], SecretNames(defs), Texts(a));
      }
    }
  }

  // ---- the vault stage ---------------------------------------------------------------------------

  /** Two vaults whose answers depend only on the template and the parameter. */
  ghost predicate BlindSinks(s: Option<Sink>, t: Option<Sink>) {
    s.Some? == t.Some? && (s.Some? ==> forall name, p, v, v' :: s.value(name, p, v) == t.value(name, p, v'))
  }

  /** The generators succeed together. */
  ghost predicate SameSupply(g: Generator, h: Generator) { forall i :: g(i).Some? == h(i).Some? }

  function Shape(w: Write): (string, string) { (w.param, w.ref) }

  predicate SameWrites(a: seq<Write>, b: seq<Write>) {
    |a| == |b| && forall i :: 0 <= i < |a| ==> Shape(a[i]) == Shape(b[i])
  }

  predicate SameVaulting(a: Vaulting, b: Vaulting, secrets: set<string>) {
    a.failed == b.failed && SameWrites(a.writes, b.writes) && Agree(a.params, b.params, secrets)
  }

  lemma VaultOneAgrees(a: Vaulting, b: Vaulting, template: string, p: Parameter, g: Option<string>, h: Option<string>,
                       s: Option<Sink>, t: Option<Sink>, secrets: set<string>)
    requires SameVaulting(a, b, secrets) && BlindSinks(s, t) && g.Some? == h.Some? && (p.kind == "secret" ==> p.name in secrets)
    ensures SameVaulting(VaultOne(a, template, p, g, s), VaultOne(b, template, p, h, t), secrets)
  {
    if a.failed.None? && p.kind == "secret" {
      var x, y := Get(a.params, p.name), Get(b.params, p.name);
      assert Alike(x, y);
      var v, v' := SecretValue(p, x, g), SecretValue(p, y, h);
      assert v.Ok? == v'.Ok? && (v.Ok? ==> v.value.Some? == v'.value.Some?);
      if v.Ok? && v.value.Some? && s.Some? {
        var r := s.value(template, p.name, v.value.value);
        assert r == t.value(template, p.name, v'.value.value);
        if r.Some? {
          AgreeUpdate(a.params, b.params, secrets, p.name, Str(r.value), Str(r.value));
        }
      }
    }
  }

  lemma {:induction false} VaultAgrees(tpl: Template, a: Params, b: Params, g: Generator, h: Generator, s: Option<Sink>, t: Option<Sink>, i: nat)
    requires i <= |tpl.parameters| && Agree(a, b, SecretNames(tpl.parameters)) && BlindSinks(s, t) && SameSupply(g, h)
    ensures SameVaulting(VaultUpTo(tpl, a, g, s, i), VaultUpTo(tpl, b, h, t, i), SecretNames(tpl.parameters))
  {
    if i > 0 {
      VaultAgrees(tpl, a, b, g, h, s, t, i - 1);
      assert tpl.parameters[i - 1] in tpl.parameters;
      VaultOneAgrees(VaultUpTo(tpl, a, g, s, i - 1), VaultUpTo(tpl, b, h, t, i - 1), tpl.name, tpl.parameters[i - 1],
                     g(i - 1), h(i - 1), s, t, SecretNames(tpl.parameters));
    }
  }

  /** A secret parameter is gone, or holds a reference the vault gave for a write it took. */
  predicate Replaced(v: Vaulting, name: string) {
    name !in v.params || exists w :: w in v.writes && w.param == name && v.params[name] == Str(w.ref)
  }

  lemma ReplacedPersists(v: Vaulting, template: string, p: Parameter, g: Option<string>, s: Option<Sink>, name: string)
    requires Replaced(v, name) || (p.kind == "secret" && p.name == name)
    requires VaultOne(v, template, p, g, s).failed.None?
    ensures Replaced(VaultOne(v, template, p, g, s), name)
  {
    var v' := VaultOne(v, template, p, g, s);
    if p.kind == "secret" && p.name == name {
      if name in v'.params {
        var w := v'.writes[|v'.writes| - 1];
        assert w in v'.writes && w.param == name && v'.params[name] == Str(w.ref);
      }
    } else if name in v'.params {
      var w :| w in v.writes && w.param == name && v.params[name] == Str(w.ref);
      assert w in v'.writes;
    }
  }

  lemma {:induction false} SecretsReplaced(tpl: Template, a: Params, g: Generator, s: Option<Sink>, i: nat, j: nat)
    requires j < i <= |tpl.parameters| && tpl.parameters[j].kind == "secret"
    requires VaultUpTo(tpl, a, g, s, i).failed.None?
    ensures Replaced(VaultUpTo(tpl, a, g, s, i), tpl.parameters[j].name)
    decreases i
  {
    if j < i - 1 {
      SecretsReplaced(tpl, a, g, s, i - 1, j);
    }
    ReplacedPersists(VaultUpTo(tpl, a, g, s, i - 1), tpl.name, tpl.parameters[i - 1], g(i - 1), s, tpl.parameters[j].name);
  }

  /** Once every secret is replaced, maps that agree up to plaintext, with the same writes, are the same map. */
  lemma ReplacedMeansEqual(a: Vaulting, b: Vaulting, secrets: set<string>)
    requires SameVaulting(a, b, secrets)
    requires forall k :: k in secrets ==> SameReference(a, b, k)
    ensures a.params == b.params
  {
    forall k | k in a.params
      ensures a.params[k] == b.params[k]
    {
      if k in secrets {
        assert SameReference(a, b, k);
      }
    }
  }

  predicate SameReference(a: Vaulting, b: Vaulting, name: string) {
    name !in a.params || (name in b.params && a.params[name] == b.params[name])
  }

  lemma {:induction false} ReferencesMatch(tpl: Template, a: Params, b: Params, g: Generator, h: Generator, s: Option<Sink>, t: Option<Sink>, i: nat, j: nat)
    requires j < i <= |tpl.parameters| && tpl.parameters[j].kind == "secret"
    requires Agree(a, b, SecretNames(tpl.parameters)) && BlindSinks(s, t) && SameSupply(g, h)
    requires VaultUpTo(tpl, a, g, s, i).failed.None?
    ensures SameReference(VaultUpTo(tpl, a, g, s, i), VaultUpTo(tpl, b, h, t, i), tpl.parameters[j].name)
    decreases i
  {
    VaultAgrees(tpl, a, b, g, h, s, t, i - 1);
    var v, v' := VaultUpTo(tpl, a, g, s, i - 1), VaultUpTo(tpl, b, h, t, i - 1);
    var p, name := tpl.parameters[i - 1], tpl.parameters[j].name;
    if !(p.kind == "secret" && p.name == name) {
      ReferencesMatch(tpl, a, b, g, h, s, t, i - 1, j);
    }
    assert p.kind == "secret" ==> p.name in SecretNames(tpl.parameters);
    ReferenceMatches(v, v', tpl.name, p, g(i - 1), h(i - 1), s, t, SecretNames(tpl.parameters), name);
  }

  lemma ReferenceMatches(a: Vaulting, b: Vaulting, template: string, p: Parameter, g: Option<string>, h: Option<string>,
                         s: Option<Sink>, t: Option<Sink>, secrets: set<string>, name: string)
    requires SameVaulting(a, b, secrets) && BlindSinks(s, t) && g.Some? == h.Some? && (p.kind == "secret" ==> p.name in secrets)
    requires SameReference(a, b, name) || (p.kind == "secret" && p.name == name)
    requires VaultOne(a, template, p, g, s).failed.None?
    ensures SameReference(VaultOne(a, template, p, g, s), VaultOne(b, template, p, h, t), name)
  {
    var v, v' := VaultOne(a, template, p, g, s), VaultOne(b, template, p, h, t);
    VaultOneAgrees(a, b, template, p, g, h, s, t, secrets);
    if p.kind == "secret" && p.name == name && name in v.params {
      assert Shape(v.writes[|v.writes| - 1]) == Shape(v'.writes[|v.writes| - 1]);
    }
  }

  lemma VaultedAlike(tpl: Template, a: Params, b: Params, g: Generator, h: Generator, s: Option<Sink>, t: Option<Sink>)
    requires Agree(a, b, SecretNames(tpl.parameters)) && BlindSinks(s, t) && SameSupply(g, h)
    ensures var v, v' := Vault(tpl, a, g, s), Vault(tpl, b, h, t);
      v.failed == v'.failed && SameWrites(v.writes, v'.writes) && (v.failed.None? ==> v.params == v'.params)
  {
    var n := |tpl.parameters|;
    VaultAgrees(tpl, a, b, g, h, s, t, n);
    var v, v' := Vault(tpl, a, g, s), Vault(tpl, b, h, t);
    if v.failed.None? {
      forall k | k in SecretNames(tpl.parameters)
        ensures SameReference(v, v', k)
      {
        var j :| 0 <= j < n && tpl.parameters[j].kind == "secret" && tpl.parameters[j].name == k;
        ReferencesMatch(tpl, a, b, g, h, s, t, n, j);
      }
      ReplacedMeansEqual(v, v', SecretNames(tpl.parameters));
    }
  }

  // ---- the theorems ------------------------------------------------------------------------------

  /**
   Two renders of one template that agree on every non-secret parameter and on which secrets are
   supplied return the same thing, the same failure included, and make the same vault writes up to the
   values written, for any nested spec.
   */
  lemma RenderingIsBlind(lib: Lib, tpl: Template, a: Params, b: Params, g: Generator, h: Generator, s: Option<Sink>, t: Option<Sink>)
    requires BytesPrint(lib) && Agree(a, b, SecretNames(tpl.parameters)) && !Leaky(lib, tpl.parameters, a)
    requires BlindSinks(s, t) && SameSupply(g, h)
    ensures var x, y := Rendering(lib, Some(tpl), a, g, s), Rendering(lib, Some(tpl), b, h, t);
      x.0 == y.0 && SameWrites(x.1, y.1)
  {
    ResolveAgrees(lib, tpl.parameters, a, b, |tpl.parameters|);
    var m, m' := Resolve(lib, tpl.parameters, a), Resolve(lib, tpl.parameters, b);
    if m.Some? {
      VaultedAlike(tpl, m.value, m'.value, g, h, s, t);
    }
  }

  /** The credential store's answers depend only on the template and the parameter. */
  function VaultSink(project: string, environment: string, put: Names.Address -> bool): Sink {
    (template: string, param: string, value: string) => Names.Store(project, environment, put, template, param)
  }

  /** The same, through the deployed credential store, whatever writes the vault refuses. */
  lemma BlindThroughVault(lib: Lib, tpl: Template, a: Params, b: Params, g: Generator, h: Generator,
                          project: string, environment: string, put: Names.Address -> bool)
    requires BytesPrint(lib) && Agree(a, b, SecretNames(tpl.parameters)) && !Leaky(lib, tpl.parameters, a) && SameSupply(g, h)
    ensures var sink := Some(VaultSink(project, environment, put));
      var x, y := Rendering(lib, Some(tpl), a, g, sink), Rendering(lib, Some(tpl), b, h, sink);
      x.0 == y.0 && SameWrites(x.1, y.1)
  {
    var sink := Some(VaultSink(project, environment, put));
    RenderingIsBlind(lib, tpl, a, b, g, h, sink, sink);
  }

  /** A render that succeeds left every secret parameter absent or holding the reference of a write the vault took. */
  lemma SuccessMeansVaulted(lib: Lib, tpl: Template, a: Params, g: Generator, s: Option<Sink>, j: nat)
    requires j < |tpl.parameters| && tpl.parameters[j].kind == "secret"
    requires Rendering(lib, Some(tpl), a, g, s).0.Ok?
    ensures var (r, writes) := Rendering(lib, Some(tpl), a, g, s);
      var name := tpl.parameters[j].name;
      name !in r.value.params || exists w :: w in writes && w.param == name && r.value.params[name] == Str(w.ref)
  {
    var m := Resolve(lib, tpl.parameters, a).value;
    SecretsReplaced(tpl, m, g, s, |tpl.parameters|, j);
    assert Replaced(Vault(tpl, m, g, s), tpl.parameters[j].name);
  }

  /** Every write on record is one the vault answered for this template, that parameter and that value. */
  lemma {:induction false} WritesAreAnswered(tpl: Template, a: Params, g: Generator, s: Option<Sink>, i: nat)
    requires i <= |tpl.parameters|
    ensures forall w :: w in VaultUpTo(tpl, a, g, s, i).writes ==> s.Some? && s.value(tpl.name, w.param, w.value) == Some(w.ref)
  {
    if i > 0 {
      WritesAreAnswered(tpl, a, g, s, i - 1);
    }
  }

  /** Definitions of other names leave a parameter alone, and writes are only added. */
  lemma {:induction false} OthersLeaveIt(tpl: Template, m: Params, g: Generator, s: Option<Sink>, name: string, i: nat, n: nat)
    requires i <= n <= |tpl.parameters| && VaultUpTo(tpl, m, g, s, n).failed.None?
    requires forall k :: i <= k < n ==> tpl.parameters[k].name != name
    ensures var v, v' := VaultUpTo(tpl, m, g, s, i), VaultUpTo(tpl, m, g, s, n);
      && v.failed.None? && v.writes <= v'.writes
      && (name in v.params <==> name in v'.params) && Get(v.params, name) == Get(v'.params, name)
    decreases n
  {
    if i < n {
      OthersLeaveIt(tpl, m, g, s, name, i, n - 1);
    }
  }

  /**
   A secret supplied as text under a name declared once is not lost: if the render succeeds, the vault
   took exactly that plaintext and the parameter holds the reference it gave for it.
   */
  lemma SuppliedSecretIsStored(lib: Lib, tpl: Template, a: Params, g: Generator, s: Option<Sink>, j: nat)
    requires j < |tpl.parameters| && tpl.parameters[j].kind == "secret" && tpl.parameters[j].name in Texts(a)
    requires forall k :: 0 <= k < |tpl.parameters| && k != j ==> tpl.parameters[k].name != tpl.parameters[j].name
    requires Rendering(lib, Some(tpl), a, g, s).0.Ok?
    ensures var (r, writes) := Rendering(lib, Some(tpl), a, g, s);
      var name := tpl.parameters[j].name;
      name in r.value.params && r.value.params[name].Str? && Write(name, a[name].s, r.value.params[name].s) in writes
  {
    var n, name := |tpl.parameters|, tpl.parameters[j].name;
    TextIsCarried(lib, tpl.parameters, a, name, "x", n);
    var m := Resolve(lib, tpl.parameters, a).value;
    OthersLeaveIt(tpl, m, g, s, name, j + 1, n);
    OthersLeaveIt(tpl, m, g, s, name, 0, j);
    var w := VaultUpTo(tpl, m, g, s, j + 1).writes;
    assert w[|w| - 1] in w;
  }

  // ---- exactly when resolution sees a plaintext --------------------------------------------------

  /** No step of resolution tells `a` from parameters that agree with it. */
  ghost predicate ResolutionIsBlind(lib: Lib, defs: seq<Parameter>, a: Params) {
    forall b, n :: Agree(a, b, SecretNames(defs)) && 0 <= n <= |defs| ==> SameProgress(lib, defs, a, b, n)
  }

  predicate SameProgress(lib: Lib, defs: seq<Parameter>, a: Params, b: Params, n: nat)
    requires n <= |defs|
  {
    ResolveUpTo(lib, defs, a, n).Some? == ResolveUpTo(lib, defs, b, n).Some?
  }

  /** Until a number definition meets it, a supplied text is carried along untouched, whatever it is. */
  lemma {:induction false} TextIsCarried(lib: Lib, defs: seq<Parameter>, a: Params, name: string, x: string, i: nat)
    requires i <= |defs| && name in Texts(a) && x != "" && ResolveUpTo(lib, defs, a, i).Some?
    requires forall j :: 0 <= j < i ==> !(defs[j].kind == "int" && defs[j].name == name)
    ensures var m := ResolveUpTo(lib, defs, a, i).value; name in m && m[name] == a[name]
    ensures ResolveUpTo(lib, defs, a[name := Str(x)], i) == Some(ResolveUpTo(lib, defs, a, i).value[name := Str(x)])
  {
    if i > 0 {
      TextIsCarried(lib, defs, a, name, x, i - 1);
      CarriesOne(lib, ResolveUpTo(lib, defs, a, i - 1).value, defs[i - 1], name, x);
    }
  }

  lemma CarriesOne(lib: Lib, m: Params, p: Parameter, name: string, x: string)
    requires name in Texts(m) && x != "" && ResolveOne(lib, m, p).Some? && !(p.kind == "int" && p.name == name)
    ensures var m' := ResolveOne(lib, m, p).value; name in m' && m'[name] == m[name]
    ensures ResolveOne(lib, m[name := Str(x)], p) == Some(ResolveOne(lib, m, p).value[name := Str(x)])
  {
    var m' := ResolveOne(lib, m, p).value;
    if p.name == name {
      assert m' == m;
      assert m[name := Str(x)][name := Str(x)] == m[name := Str(x)];
    } else if p.name in m' {
      assert m[name := Str(x)][p.name := m'[p.name]] == m[p.name := m'[p.name]][name := Str(x)];
    }
  }

  lemma {:induction false} LeakShows(lib: Lib, defs: seq<Parameter>, a: Params, i: nat, good: string, bad: string)
    requires i < |defs| && Leaks(lib, defs, a, i)
    requires good != "" && bad != "" && lib.atoi(good).Some? && lib.atoi(bad).None?
    ensures !ResolutionIsBlind(lib, defs, a)
    decreases i
  {
    var name := defs[i].name;
    if j :| 0 <= j < i && defs[j].kind == "int" && defs[j].name == name {
      if ResolveUpTo(lib, defs, a, j).None? {
        StaysUnresolved(lib, defs, a, j, i);
      } else {
        LeakShows(lib, defs, a, j, good, bad);
      }
    } else {
      var x := if lib.atoi(a[name].s).Some? then bad else good;
      var b := a[name := Str(x)];
      TextIsCarried(lib, defs, a, name, x, i);
      assert Agree(a, b, SecretNames(defs));
      assert !SameProgress(lib, defs, a, b, i + 1);
    }
  }

  /**
   Resolution is blind exactly when no reached definition parses as a number a name that is also a
   secret supplied as text.  Two declarations of one name, a secret and an int, are the whole gap.
   */
  lemma ResolutionBlindIff(lib: Lib, defs: seq<Parameter>, a: Params, good: string, bad: string)
    requires BytesPrint(lib) && good != "" && bad != "" && lib.atoi(good).Some? && lib.atoi(bad).None?
    ensures ResolutionIsBlind(lib, defs, a) <==> !Leaky(lib, defs, a)
  {
    if Leaky(lib, defs, a) {
      var i :| 0 <= i < |defs| && Leaks(lib, defs, a, i);
      LeakShows(lib, defs, a, i, good, bad);
    } else {
      forall b, n | Agree(a, b, SecretNames(defs)) && 0 <= n <= |defs|
        ensures SameProgress(lib, defs, a, b, n)
      {
        ResolveAgrees(lib, defs, a, b, n);
      }
    }
  }
}
