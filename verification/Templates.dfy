/**
 Rendering a deployment template: parameters are resolved, every secret one is written to the vault and
 replaced by a reference, and only then is the nested spec rendered.

 Number parsing, formatting, template execution and the workload's own decoding, validation and hash
 are arguments (`Lib`); a failure carries its kind, not its text.
 */
module Templates {
  import opened Basics
  import opened Text

  datatype Value =
    | Null
    | Bool(b: bool)
    | Int(i: int)
    | Float(x: real)
    | Number(text: string)
    | Str(s: string)
    | Bytes(bytes: string)
    | List(items: seq<Value>)
    | Obj(fields: map<string, Value>)

  type Params = map<string, Value>

  datatype Failure = NotFound | Invalid | Unavailable | Internal

  /** `kind` is the declared type: "", "string", "secret", "int" or "bool". */
  datatype Parameter = Parameter(name: string, kind: string, required: bool, default: Value, generate: bool)

  datatype Template = Template(name: string, image: string, parameters: seq<Parameter>, spec: Params)

  datatype Workload = Workload(image: string, name: string, rest: Value)

  datatype Lib = Lib(
    sprint: Value -> string,
    atoi: string -> Option<int>,
    int64: string -> Option<int>,
    execute: (string, Params) -> Option<string>,
    decode: Params -> Option<Workload>,
    valid: Workload -> bool,
    hash: Workload -> Option<string>)

  // ---- resolving parameters ----------------------------------------------------------------------

  function Truncate(x: real): int { if x >= 0.0 then x.Floor else -((-x).Floor) }

  function CoerceInt(lib: Lib, v: Value): Option<int> {
    match v
    case Int(i) => Some(i)
    case Float(x) => Some(Truncate(x))
    case Number(text) => lib.int64(text)
    case Str(s) => lib.atoi(s)
    case _ => None
  }

  function Coerce(lib: Lib, p: Parameter, v: Value): Option<Value> {
    if p.kind in ["", "string", "secret"] then Some(if v.Str? then v else Str(lib.sprint(v)))
    else if p.kind == "int" then
      var n := CoerceInt(lib, v);
      if n.Some? then Some(Int(n.value)) else None
    else if p.kind == "bool" then if v.Bool? then Some(v) else None
    else None
  }

  function Get(m: Params, name: string): Value { if name in m then m[name] else Null }

  predicate Unset(v: Value) { v == Null || v == Str("") }

  /** One definition: a secret is passed over, anything else is defaulted, required and coerced. */
  function ResolveOne(lib: Lib, m: Params, p: Parameter): Option<Params> {
    if p.name == "" then None
    else if p.kind == "secret" then Some(m)
    else
      var given := Get(m, p.name);
      if Unset(given) && p.default == Null then if p.required then None else Some(m)
      else
        var coerced := Coerce(lib, p, if Unset(given) then p.default else given);
        if coerced.None? then None else Some(m[p.name := coerced.value])
  }

  function ResolveUpTo(lib: Lib, defs: seq<Parameter>, supplied: Params, i: nat): Option<Params>
    requires i <= |defs|
  {
    if i == 0 then Some(supplied)
    else
      var m := ResolveUpTo(lib, defs, supplied, i - 1);
      if m.None? then None else ResolveOne(lib, m.value, defs[i - 1])
  }

  function Resolve(lib: Lib, defs: seq<Parameter>, supplied: Params): Option<Params> {
    ResolveUpTo(lib, defs, supplied, |defs|)
  }

  method ResolveParams(lib: Lib, defs: seq<Parameter>, supplied: Params) returns (out: Option<Params>)
    ensures out == Resolve(lib, defs, supplied)
  {
    var m := supplied;
    for i := 0 to |defs|
      invariant ResolveUpTo(lib, defs, supplied, i) == Some(m)
    {
      var p := defs[i];
      if p.name == "" {
        StaysUnresolved(lib, defs, supplied, i + 1, |defs|);
        return None;
      }
      if p.kind == "secret" { continue; }
      var v := Get(m, p.name);
      if Unset(v) {
        if p.default != Null {
          v := p.default;
        } else if p.required {
          StaysUnresolved(lib, defs, supplied, i + 1, |defs|);
          return None;
        } else {
          continue;
        }
      }
      var coerced := Coerce(lib, p, v);
      if coerced.None? {
        StaysUnresolved(lib, defs, supplied, i + 1, |defs|);
        return None;
      }
      m := m[p.name := coerced.value];
    }
    return Some(m);
  }

  lemma {:induction false} StaysUnresolved(lib: Lib, defs: seq<Parameter>, supplied: Params, i: nat, n: nat)
    requires i <= n <= |defs| && ResolveUpTo(lib, defs, supplied, i).None?
    ensures ResolveUpTo(lib, defs, supplied, n).None?
    decreases n
  {
    if i < n {
      StaysUnresolved(lib, defs, supplied, i, n - 1);
    }
  }

  predicate TypeOk(kind: string, v: Value) {
    if kind == "int" then v.Int? else if kind == "bool" then v.Bool? else v.Str?
  }

  /** The parameter has its declared type, or is optional and was left unset. */
  predicate Settled(m: Params, p: Parameter) {
    || (p.name in m && TypeOk(p.kind, m[p.name]))
    || (!p.required && p.default == Null && Unset(Get(m, p.name)))
  }

  /** After resolution every non-secret parameter is settled as the last definition of its name declares it. */
  lemma {:induction false} ResolvedIsTyped(lib: Lib, defs: seq<Parameter>, supplied: Params, i: nat, j: nat)
    requires j < i <= |defs| && defs[j].kind != "secret" && ResolveUpTo(lib, defs, supplied, i).Some?
    requires forall k :: j < k < i ==> defs[k].name != defs[j].name || defs[k].kind == "secret"
    ensures Settled(ResolveUpTo(lib, defs, supplied, i).value, defs[j])
    decreases i
  {
    if j < i - 1 {
      ResolvedIsTyped(lib, defs, supplied, i - 1, j);
    }
  }

  // ---- vaulting secrets --------------------------------------------------------------------------

  /** The vault as the renderer sees it: the reference for a value it took, or nothing. */
  type Sink = (string, string, string) -> Option<string>

  /** A write the vault took. */
  datatype Write = Write(param: string, value: string, ref: string)

  /** What each definition's generator would yield, by position; nothing if the randomness fails. */
  type Generator = nat -> Option<string>

  /** The plaintext to store, if any: supplied, else generated; a default is refused. */
  function SecretValue(p: Parameter, supplied: Value, generated: Option<string>): Result<Option<string>, Failure> {
    if supplied.Str? && supplied.s != "" then Ok(Some(supplied.s))
    else if supplied.Bytes? && supplied.bytes != "" then Ok(Some(supplied.bytes))
    else if p.default != Null then Err(Invalid)
    else if p.generate then if generated.Some? then Ok(generated) else Err(Internal)
    else if p.required then Err(Invalid)
    else Ok(None)
  }

  /** Parameters and the writes made so far, or the failure that ended the render. */
  datatype Vaulting = Vaulting(params: Params, writes: seq<Write>, failed: Option<Failure>)

  function VaultOne(v: Vaulting, template: string, p: Parameter, generated: Option<string>, sink: Option<Sink>): Vaulting {
    if v.failed.Some? || p.kind != "secret" then v
    else
      var value := SecretValue(p, Get(v.params, p.name), generated);
      if value.Err? then v.(failed := Some(value.error))
      else if value.value.None? then v.(params := v.params - {p.name})
      else if sink.None? then v.(failed := Some(Unavailable))
      else
        var ref := sink.value(template, p.name, value.value.value);
        if ref.None? then v.(failed := Some(Unavailable))
        else Vaulting(v.params[p.name := Str(ref.value)], v.writes + [Write(p.name, value.value.value, ref.value)], None)
  }

  function VaultUpTo(tpl: Template, params: Params, gen: Generator, sink: Option<Sink>, i: nat): Vaulting
    requires i <= |tpl.parameters|
  {
    if i == 0 then Vaulting(params, [], None)
    else VaultOne(VaultUpTo(tpl, params, gen, sink, i - 1), tpl.name, tpl.parameters[i - 1], gen(i - 1), sink)
  }

  function Vault(tpl: Template, params: Params, gen: Generator, sink: Option<Sink>): Vaulting {
    VaultUpTo(tpl, params, gen, sink, |tpl.parameters|)
  }

  lemma {:induction false} StaysFailed(tpl: Template, params: Params, gen: Generator, sink: Option<Sink>, i: nat, n: nat)
    requires i <= n <= |tpl.parameters| && VaultUpTo(tpl, params, gen, sink, i).failed.Some?
    ensures VaultUpTo(tpl, params, gen, sink, n) == VaultUpTo(tpl, params, gen, sink, i)
    decreases n
  {
    if i < n {
      StaysFailed(tpl, params, gen, sink, i, n - 1);
    }
  }

  // ---- rendering ---------------------------------------------------------------------------------

  /** A text without its opening braces and, if what is left still ends in them, its closing ones. */
  function Within(t: string): string
    requires |t| >= 2
  {
    var body := t[2..];
    if |body| >= 2 && body[|body| - 2..] == "}}" then body[..|body| - 2] else body
  }

  /** A string that is one bare parameter reference, which keeps the parameter's type. */
  function ExactParam(text: string): Option<string> {
    var t := Trim(text);
    if !("{{" <= t) || |t| < 2 || t[|t| - 2..] != "}}" then None
    else
      var inner := Trim(Within(t));
      if inner == "" || inner[0] != '.' || ' ' in inner || '|' in inner || '(' in inner || ')' in inner || inner == "." then None
      else Some(inner[1..])
  }

  function RenderString(lib: Lib, text: string, params: Params): Option<Value> {
    if !Contains(text, "{{") then Some(Str(text))
    else if ExactParam(text).Some? then
      if ExactParam(text).value in params then Some(params[ExactParam(text).value]) else None
    else
      var out := lib.execute(text, params);
      if out.Some? then Some(Str(out.value)) else None
  }

  predicate Blank(s: string) { forall k :: 0 <= k < |s| ==> IsSpace(s[k]) }

  predicate PlainName(name: string) {
    name != "" && !IsSpace(name[|name| - 1]) && ' ' !in name && '|' !in name && '(' !in name && ')' !in name
  }

  /** The text is one reference to `name` and nothing else, with white space allowed inside and outside the braces. */
  predicate Spells(text: string, left: string, name: string, right: string) {
    Trim(text) == "{{" + left + "." + name + right + "}}" && Blank(left) && Blank(right) && PlainName(name)
  }

  lemma SpelledIsExact(text: string, left: string, name: string, right: string)
    requires Spells(text, left, name, right)
    ensures ExactParam(text) == Some(name)
  {
    var t, inner := Trim(text), "." + name;
    Assembled(left, name, right);
    Unbraced(left + inner + right);
    TrimPadded(left, inner, right);
    DotBeforePlain(name);
    assert inner[1..] == name;
  }

  lemma Unbraced(s: string)
    ensures var t := "{{" + s + "}}"; "{{" <= t && t[|t| - 2..] == "}}" && Within(t) == s
  {
    var t := "{{" + s + "}}";
    assert t[..2] == "{{" && t[|t| - 2..] == "}}";
    assert t[2..] == s + "}}";
  }

  lemma DotBeforePlain(name: string)
    requires PlainName(name)
    ensures var inner := "." + name; ' ' !in inner && '|' !in inner && '(' !in inner && ')' !in inner && inner != "."
  {
    var inner := "." + name;
    assert forall c :: c in inner ==> c == '.' || c in name;
    assert |inner| > 1;
  }

  lemma ExactIsSpelled(text: string) returns (left: string, right: string)
    requires ExactParam(text).Some?
    ensures Spells(text, left, ExactParam(text).value, right)
  {
    var t := Trim(text);
    Braced(t);
    left, right := Padding(Within(t));
    var inner, name := Trim(Within(t)), ExactParam(text).value;
    assert inner == "." + name;
    PlainAfterDot(inner, name);
    Assembled(left, name, right);
  }

  lemma Padding(s: string) returns (left: string, right: string)
    ensures s == left + Trim(s) + right && Blank(left) && Blank(right)
    ensures Trim(s) != "" ==> !IsSpace(Trim(s)[|Trim(s)| - 1])
  {
    var i, j := TrimCuts(s);
    left, right := s[..i], s[j..];
  }

  lemma Assembled(left: string, name: string, right: string)
    ensures "{{" + (left + ("." + name) + right) + "}}" == "{{" + left + "." + name + right + "}}"
  {
  }

  lemma PlainAfterDot(inner: string, name: string)
    requires inner == "." + name && name != "" && !IsSpace(inner[|inner| - 1])
    requires ' ' !in inner && '|' !in inner && '(' !in inner && ')' !in inner
    ensures PlainName(name)
  {
    assert name[|name| - 1] == inner[|inner| - 1];
    assert forall c :: c in name ==> c in inner;
  }

  lemma Braced(t: string)
    requires "{{" <= t && t[|t| - 2..] == "}}"
    ensures t == "{{" + Within(t) + "}}"
  {
    assert t[0] == "{{"[0] && t[1] == "{{"[1];
    assert t[|t| - 2] == t[|t| - 2..][0] && t[|t| - 1] == t[|t| - 2..][1];
    assert |t| >= 4;
    assert t[2..][|t| - 4..] == t[|t| - 2..];
  }

  lemma TrimmedContains(text: string, part: string)
    requires part != "" && part <= Trim(text)
    ensures Contains(text, part)
  {
    var i, j := TrimCuts(text);
    assert text[i..j][..|part|] == text[i..][..|part|];
    ContainsIff(text, part);
  }

  /**
   A text without braces is kept; one that is a single reference becomes the parameter itself, type and
   all, or fails if there is none; every other template is executed, and what comes out is text.
   */
  lemma TextRendersTo(lib: Lib, text: string, params: Params)
    ensures !Contains(text, "{{") ==> RenderString(lib, text, params) == Some(Str(text))
    ensures forall left, name, right :: Spells(text, left, name, right) ==>
      RenderString(lib, text, params) == if name in params then Some(params[name]) else None
    ensures Contains(text, "{{") && (forall left, name, right :: !Spells(text, left, name, right)) ==>
      RenderString(lib, text, params) == (match lib.execute(text, params) case None => None case Some(out) => Some(Str(out)))
  {
    forall left, name, right | Spells(text, left, name, right)
      ensures RenderString(lib, text, params) == if name in params then Some(params[name]) else None
    {
      SpelledIsExact(text, left, name, right);
      assert Trim(text)[..2] == "{{";
      TrimmedContains(text, "{{");
    }
    if ExactParam(text).Some? {
      var left, right := ExactIsSpelled(text);
    }
  }

  /** Objects and lists are rendered member by member, strings as templates; anything else is kept. */
  function RenderAny(lib: Lib, v: Value, params: Params): Option<Value>
    decreases v
  {
    match v
    case Obj(fields) =>
      if forall k :: k in fields ==> RenderAny(lib, fields[k], params).Some?
      then Some(Obj(map k | k in fields :: RenderAny(lib, fields[k], params).value)) else None
    case List(items) =>
      if forall i :: 0 <= i < |items| ==> RenderAny(lib, items[i], params).Some?
      then Some(List(seq(|items|, i requires 0 <= i < |items| => RenderAny(lib, items[i], params).value))) else None
    case Str(text) => RenderString(lib, text, params)
    case _ => Some(v)
  }

  /** No string anywhere in the value holds a template. */
  predicate Plain(v: Value)
    decreases v
  {
    match v
    case Obj(fields) => forall k :: k in fields ==> Plain(fields[k])
    case List(items) => forall i :: 0 <= i < |items| ==> Plain(items[i])
    case Str(text) => !Contains(text, "{{")
    case _ => true
  }

  /** A spec without templates renders to itself, however deeply it nests. */
  lemma {:induction false} PlainIsKept(lib: Lib, v: Value, params: Params)
    requires Plain(v)
    ensures RenderAny(lib, v, params) == Some(v)
    decreases v
  {
    match v
    case Obj(fields) =>
      forall k | k in fields
        ensures RenderAny(lib, fields[k], params) == Some(fields[k])
      {
        PlainIsKept(lib, fields[k], params);
      }
      assert RenderAny(lib, v, params).value.fields == fields;
    case List(items) =>
      forall i | 0 <= i < |items|
        ensures RenderAny(lib, items[i], params) == Some(items[i])
      {
        PlainIsKept(lib, items[i], params);
      }
      assert RenderAny(lib, v, params).value.items == items;
    case _ =>
  }

  datatype Rendered = Rendered(params: Params, spec: Workload, hash: string)

  /** The rendered object as a workload, with the template's image and a name where it has none. */
  function Finish(lib: Lib, tpl: Template, params: Params, rendered: Params): Result<Rendered, Failure> {
    var w := lib.decode(rendered);
    if w.None? then Err(Invalid)
    else
      var image := if w.value.image == "" then tpl.image else w.value.image;
      var given := Get(params, "name");
      var name := if w.value.name != "" then w.value.name else if given.Str? && given.s != "" then given.s else tpl.name;
      var spec := Workload(image, name, w.value.rest);
      if !lib.valid(spec) then Err(Invalid)
      else if lib.hash(spec).None? then Err(Internal)
      else Ok(Rendered(params, spec, lib.hash(spec).value))
  }

  function RenderSpec(lib: Lib, tpl: Template, params: Params): Result<Rendered, Failure> {
    var r := RenderAny(lib, Obj(tpl.spec), params);
    if r.None? then Err(Invalid) else Finish(lib, tpl, params, r.value.fields)
  }

  /** A whole render: its result and the writes the vault took on the way, kept even if it then fails. */
  function Rendering(lib: Lib, found: Option<Template>, supplied: Params, gen: Generator, sink: Option<Sink>): (Result<Rendered, Failure>, seq<Write>) {
    if found.None? then (Err(NotFound), [])
    else
      var resolved := Resolve(lib, found.value.parameters, supplied);
      if resolved.None? then (Err(Invalid), [])
      else
        var v := Vault(found.value, resolved.value, gen, sink);
        (if v.failed.Some? then Err(v.failed.value) else RenderSpec(lib, found.value, v.params), v.writes)
  }

  /** A rendered workload has an image and a name if the template has. */
  lemma RenderedIsNamed(lib: Lib, tpl: Template, supplied: Params, gen: Generator, sink: Option<Sink>)
    requires Rendering(lib, Some(tpl), supplied, gen, sink).0.Ok?
    ensures var spec := Rendering(lib, Some(tpl), supplied, gen, sink).0.value.spec;
      lib.valid(spec) && (tpl.image != "" ==> spec.image != "") && (tpl.name != "" ==> spec.name != "")
  {
  }

  /** The renderer over a vault that keeps what it is given. */
  class Renderer {
    const lib: Lib
    const credentials: Option<Sink>
    var vaulted: seq<Write>

    constructor (lib: Lib, credentials: Option<Sink>)
      ensures this.lib == lib && this.credentials == credentials && vaulted == []
    {
      this.lib, this.credentials, vaulted := lib, credentials, [];
    }

    /** Rewrites the parameters one secret definition at a time, with a vault write per value. */
    method VaultSecrets(tpl: Template, params: Params, gen: Generator) returns (out: Params, failed: Option<Failure>)
      modifies this
      ensures var v := Vault(tpl, params, gen, credentials);
        out == v.params && failed == v.failed && vaulted == old(vaulted) + v.writes
    {
      out := params;
      ghost var writes := [];
      for i := 0 to |tpl.parameters|
        invariant VaultUpTo(tpl, params, gen, credentials, i) == Vaulting(out, writes, None)
        invariant vaulted == old(vaulted) + writes
      {
        var p := tpl.parameters[i];
        if p.kind != "secret" { continue; }
        var value := SecretValue(p, Get(out, p.name), gen(i));
        if value.Err? {
          StaysFailed(tpl, params, gen, credentials, i + 1, |tpl.parameters|);
          return out, Some(value.error);
        }
        if value.value.None? {
          out := out - {p.name};
          continue;
        }
        if credentials.None? {
          StaysFailed(tpl, params, gen, credentials, i + 1, |tpl.parameters|);
          return out, Some(Unavailable);
        }
        var ref := credentials.value(tpl.name, p.name, value.value.value);
        if ref.None? {
          StaysFailed(tpl, params, gen, credentials, i + 1, |tpl.parameters|);
          return out, Some(Unavailable);
        }
        vaulted := vaulted + [Write(p.name, value.value.value, ref.value)];
        writes := writes + [Write(p.name, value.value.value, ref.value)];
        out := out[p.name := Str(ref.value)];
      }
      return out, None;
    }

    method Render(found: Option<Template>, supplied: Params, gen: Generator) returns (r: Result<Rendered, Failure>)
      modifies this
      ensures var out := Rendering(lib, found, supplied, gen, credentials); r == out.0 && vaulted == old(vaulted) + out.1
    {
      if found.None? { return Err(NotFound); }
      var resolved := ResolveParams(lib, found.value.parameters, supplied);
      if resolved.None? { return Err(Invalid); }
      var params, failed := VaultSecrets(found.value, resolved.value, gen);
      if failed.Some? { return Err(failed.value); }
      return RenderSpec(lib, found.value, params);
    }
  }
}
