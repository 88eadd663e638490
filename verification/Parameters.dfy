/**
 What a template's parameters come to, said of each definition by itself: the value a caller supplied is
 the value used, a default stands in for a missing one and for nothing else, and a render is refused
 exactly for a stated reason.
 */
module Parameters {
  import opened Basics
  import opened Templates
  import opened SecretBlind

  predicate IsText(kind: string) { kind == "" || kind == "string" || kind == "secret" }

  /** `n` is `x` without its fraction. */
  predicate WithoutFraction(x: real, n: int) {
    if x >= 0.0 then n as real <= x < n as real + 1.0 else n as real - 1.0 < x <= n as real
  }

  /** `out` is `v` read as the declared kind. */
  predicate ReadAs(lib: Lib, kind: string, v: Value, out: Value) {
    if IsText(kind) then out == (if v.Str? then v else Str(lib.sprint(v)))
    else if kind == "bool" then v.Bool? && out == v
    else
      && kind == "int" && out.Int?
      && match v {
        case Int(i) => out.i == i
        case Float(x) => WithoutFraction(x, out.i)
        case Number(text) => lib.int64(text) == Some(out.i)
        case Str(s) => lib.atoi(s) == Some(out.i)
        case _ => false
      }
  }

  /** `v` can be read as the declared kind. */
  predicate Fits(lib: Lib, kind: string, v: Value) {
    || IsText(kind)
    || (kind == "bool" && v.Bool?)
    || (kind == "int" && (v.Int? || v.Float? || (v.Number? && lib.int64(v.text).Some?) || (v.Str? && lib.atoi(v.s).Some?)))
  }

  /** Not supplied, or supplied as nothing or the empty text; a supplied false or zero is a value. */
  predicate Lacks(supplied: Params, name: string) {
    name !in supplied || supplied[name] == Null || supplied[name] == Str("")
  }

  /** What the definition asks for, given what was supplied. */
  predicate ComesTo(lib: Lib, supplied: Params, p: Parameter, out: Params) {
    if !Lacks(supplied, p.name) then p.name in out && ReadAs(lib, p.kind, supplied[p.name], out[p.name])
    else if p.default != Null then p.name in out && ReadAs(lib, p.kind, p.default, out[p.name])
    else SameAt(supplied, out, p.name)
  }

  predicate SameAt(m: Params, m': Params, name: string) {
    (name in m' <==> name in m) && (name in m ==> m'[name] == m[name])
  }

  /** Why a definition is refused: no name, no value for a required one, or a value that cannot be read. */
  predicate Refuses(lib: Lib, supplied: Params, p: Parameter) {
    || p.name == ""
    || (p.kind != "secret" && Lacks(supplied, p.name) && p.default == Null && p.required)
    || (p.kind != "secret" && Lacks(supplied, p.name) && p.default != Null && !Fits(lib, p.kind, p.default))
    || (p.kind != "secret" && !Lacks(supplied, p.name) && !Fits(lib, p.kind, supplied[p.name]))
  }

  // ---- resolving ---------------------------------------------------------------------------------

  lemma CoerceReads(lib: Lib, p: Parameter, v: Value)
    ensures Coerce(lib, p, v).Some? <==> Fits(lib, p.kind, v)
    ensures Coerce(lib, p, v).Some? ==> ReadAs(lib, p.kind, v, Coerce(lib, p, v).value)
  {
  }

  lemma OneDefinition(lib: Lib, m: Params, p: Parameter)
    ensures ResolveOne(lib, m, p).None? <==> Refuses(lib, m, p)
    ensures ResolveOne(lib, m, p).Some? && p.kind != "secret" ==> ComesTo(lib, m, p, ResolveOne(lib, m, p).value)
    ensures ResolveOne(lib, m, p).Some? && p.kind == "secret" ==> ResolveOne(lib, m, p).value == m
    ensures forall name :: ResolveOne(lib, m, p).Some? && name != p.name ==> SameAt(m, ResolveOne(lib, m, p).value, name)
  {
    CoerceReads(lib, p, if Lacks(m, p.name) then p.default else m[p.name]);
  }

  /** No plain definition from `i` to `n` declares the name. */
  predicate Undeclared(defs: seq<Parameter>, i: nat, n: nat, name: string)
    requires n <= |defs|
  {
    forall k :: i <= k < n ==> defs[k].name != name || defs[k].kind == "secret"
  }

  /** A stretch of resolution over other names leaves a name as it was. */
  lemma {:induction false} OthersKeep(lib: Lib, defs: seq<Parameter>, supplied: Params, i: nat, n: nat, name: string)
    requires i <= n <= |defs| && ResolveUpTo(lib, defs, supplied, n).Some? && Undeclared(defs, i, n, name)
    ensures ResolveUpTo(lib, defs, supplied, i).Some?
    ensures SameAt(ResolveUpTo(lib, defs, supplied, i).value, ResolveUpTo(lib, defs, supplied, n).value, name)
    decreases n
  {
    if i < n {
      OthersKeep(lib, defs, supplied, i, n - 1, name);
      OneDefinition(lib, ResolveUpTo(lib, defs, supplied, n - 1).value, defs[n - 1]);
    }
  }

  /** Names no plain definition declares, the secret ones among them, come through resolution untouched. */
  lemma UndeclaredIsKept(lib: Lib, defs: seq<Parameter>, supplied: Params, name: string)
    requires Resolve(lib, defs, supplied).Some? && Undeclared(defs, 0, |defs|, name)
    ensures SameAt(supplied, Resolve(lib, defs, supplied).value, name)
  {
    OthersKeep(lib, defs, supplied, 0, |defs|, name);
  }

  /** The plain definition `j` is the only one of its name. */
  predicate DeclaredOnce(defs: seq<Parameter>, j: nat)
    requires j < |defs|
  {
    Undeclared(defs, 0, j, defs[j].name) && Undeclared(defs, j + 1, |defs|, defs[j].name)
  }

  /** A parameter declared once comes to what was supplied for it, read as its kind, or to its default, or stays as it was. */
  lemma SuppliedIsUsed(lib: Lib, defs: seq<Parameter>, supplied: Params, j: nat)
    requires j < |defs| && defs[j].kind != "secret" && DeclaredOnce(defs, j) && Resolve(lib, defs, supplied).Some?
    ensures ComesTo(lib, supplied, defs[j], Resolve(lib, defs, supplied).value)
  {
    var n, name := |defs|, defs[j].name;
    OthersKeep(lib, defs, supplied, j + 1, n, name);
    var m := ResolveUpTo(lib, defs, supplied, j);
    OthersKeep(lib, defs, supplied, 0, j, name);
    OneDefinition(lib, m.value, defs[j]);
  }

  lemma SameRefusal(lib: Lib, a: Params, b: Params, p: Parameter)
    requires SameAt(a, b, p.name)
    ensures Refuses(lib, a, p) <==> Refuses(lib, b, p)
  {
  }

  lemma {:induction false} RefusedUpTo(lib: Lib, defs: seq<Parameter>, supplied: Params, n: nat)
    requires n <= |defs| && forall j :: 0 <= j < |defs| && defs[j].kind != "secret" ==> DeclaredOnce(defs, j)
    ensures ResolveUpTo(lib, defs, supplied, n).None? <==> exists j :: 0 <= j < n && Refuses(lib, supplied, defs[j])
  {
    if n > 0 {
      RefusedUpTo(lib, defs, supplied, n - 1);
      var m, p := ResolveUpTo(lib, defs, supplied, n - 1), defs[n - 1];
      if m.Some? {
        OneDefinition(lib, m.value, p);
        if p.kind != "secret" {
          OthersKeep(lib, defs, supplied, 0, n - 1, p.name);
          SameRefusal(lib, supplied, m.value, p);
        }
      }
    }
  }

  /** With each name declared once, resolution fails exactly when some definition is refused for what was supplied. */
  lemma RefusedIff(lib: Lib, defs: seq<Parameter>, supplied: Params)
    requires forall j :: 0 <= j < |defs| && defs[j].kind != "secret" ==> DeclaredOnce(defs, j)
    ensures Resolve(lib, defs, supplied).None? <==> exists j :: 0 <= j < |defs| && Refuses(lib, supplied, defs[j])
  {
    RefusedUpTo(lib, defs, supplied, |defs|);
  }

  // ---- secrets -----------------------------------------------------------------------------------

  /** The plaintext a secret definition has: what was supplied, else what was generated. */
  function Plaintext(m: Params, p: Parameter, generated: Option<string>): Option<string> {
    if p.name in m && m[p.name].Str? && m[p.name].s != "" then Some(m[p.name].s)
    else if p.name in m && m[p.name].Bytes? && m[p.name].bytes != "" then Some(m[p.name].bytes)
    else if p.generate && p.default == Null then generated
    else None
  }

  /** The parameter holds the vault's reference to the plaintext, or is gone because there was none. */
  predicate Kept(template: string, m: Params, p: Parameter, generated: Option<string>, sink: Option<Sink>, v: Vaulting) {
    match Plaintext(m, p, generated)
    case None => p.name !in v.params && !p.required && !p.generate && p.default == Null
    case Some(text) =>
      && sink.Some?
      && var ref := sink.value(template, p.name, text);
      && ref.Some? && p.name in v.params && v.params[p.name] == Str(ref.value) && Write(p.name, text, ref.value) in v.writes
  }

  lemma KeptOne(v: Vaulting, template: string, p: Parameter, generated: Option<string>, sink: Option<Sink>)
    requires v.failed.None? && p.kind == "secret" && VaultOne(v, template, p, generated, sink).failed.None?
    ensures Kept(template, v.params, p, generated, sink, VaultOne(v, template, p, generated, sink))
  {
    var w := VaultOne(v, template, p, generated, sink).writes;
    assert |w| > 0 ==> w[|w| - 1] in w;
  }

  lemma KeptSame(template: string, m: Params, m': Params, p: Parameter, generated: Option<string>, sink: Option<Sink>, v: Vaulting, v': Vaulting)
    requires Kept(template, m, p, generated, sink, v) && SameAt(m, m', p.name) && SameAt(v.params, v'.params, p.name) && v.writes <= v'.writes
    ensures Kept(template, m', p, generated, sink, v')
  {
  }

  /**
   Whatever the render, a secret declared once has its plaintext, supplied or generated, in the vault
   under the reference the parameter then holds; without one it is dropped, and only if it is optional,
   asks for no generation and declares no default.
   */
  lemma SecretIsKept(tpl: Template, m: Params, gen: Generator, sink: Option<Sink>, j: nat)
    requires j < |tpl.parameters| && tpl.parameters[j].kind == "secret" && Vault(tpl, m, gen, sink).failed.None?
    requires forall k :: 0 <= k < |tpl.parameters| && k != j ==> tpl.parameters[k].name != tpl.parameters[j].name
    ensures Kept(tpl.name, m, tpl.parameters[j], gen(j), sink, Vault(tpl, m, gen, sink))
  {
    var n, p := |tpl.parameters|, tpl.parameters[j];
    OthersLeaveIt(tpl, m, gen, sink, p.name, j + 1, n);
    OthersLeaveIt(tpl, m, gen, sink, p.name, 0, j);
    var v, v' := VaultUpTo(tpl, m, gen, sink, j), VaultUpTo(tpl, m, gen, sink, j + 1);
    KeptOne(v, tpl.name, p, gen(j), sink);
    KeptSame(tpl.name, v.params, m, p, gen(j), sink, v', Vault(tpl, m, gen, sink));
  }

  /** An unknown template, and a refused parameter, end a render before anything reaches the vault. */
  lemma RefusedWritesNothing(lib: Lib, found: Option<Template>, supplied: Params, gen: Generator, sink: Option<Sink>, j: nat)
    requires found.Some? ==>
      && (forall i :: 0 <= i < |found.value.parameters| && found.value.parameters[i].kind != "secret" ==> DeclaredOnce(found.value.parameters, i))
      && j < |found.value.parameters| && Refuses(lib, supplied, found.value.parameters[j])
    ensures Rendering(lib, found, supplied, gen, sink) == (Err(if found.None? then NotFound else Invalid), [])
  {
    if found.Some? {
      RefusedIff(lib, found.value.parameters, supplied);
    }
  }

  // ---- the whole render --------------------------------------------------------------------------

  /** What a render returns for a plain parameter declared once is what resolution made of what was supplied. */
  lemma RenderUsesSupplied(lib: Lib, tpl: Template, supplied: Params, gen: Generator, sink: Option<Sink>, j: nat)
    requires j < |tpl.parameters| && tpl.parameters[j].kind != "secret"
    requires forall k :: 0 <= k < |tpl.parameters| && k != j ==> tpl.parameters[k].name != tpl.parameters[j].name
    requires Rendering(lib, Some(tpl), supplied, gen, sink).0.Ok?
    ensures ComesTo(lib, supplied, tpl.parameters[j], Rendering(lib, Some(tpl), supplied, gen, sink).0.value.params)
  {
    var n, m := |tpl.parameters|, Resolve(lib, tpl.parameters, supplied).value;
    SuppliedIsUsed(lib, tpl.parameters, supplied, j);
    OthersLeaveIt(tpl, m, gen, sink, tpl.parameters[j].name, j + 1, n);
    OthersLeaveIt(tpl, m, gen, sink, tpl.parameters[j].name, 0, j);
  }

  /**
   The image and name the rendered object declares win, then the template's image, and for the name the
   parameter "name", then the template's; everything else is the object's own.
   */
  lemma WorkloadIsAsDeclared(lib: Lib, tpl: Template, supplied: Params, gen: Generator, sink: Option<Sink>)
    requires Rendering(lib, Some(tpl), supplied, gen, sink).0.Ok?
    ensures var r := Rendering(lib, Some(tpl), supplied, gen, sink).0.value;
      var made := RenderAny(lib, Obj(tpl.spec), r.params);
      && made.Some? && made.value.Obj? && lib.decode(made.value.fields).Some?
      && var w := lib.decode(made.value.fields).value;
      && r.spec.rest == w.rest && lib.valid(r.spec) && lib.hash(r.spec) == Some(r.hash)
      && (w.image != "" ==> r.spec.image == w.image) && (w.image == "" ==> r.spec.image == tpl.image)
      && (w.name != "" ==> r.spec.name == w.name)
      && (w.name == "" && !Lacks(r.params, "name") && r.params["name"].Str? ==> r.spec.name == r.params["name"].s)
      && (w.name == "" && (Lacks(r.params, "name") || !r.params["name"].Str?) ==> r.spec.name == tpl.name)
  {
  }
}
