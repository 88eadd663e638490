/**
 Rendering reaches every string of a spec, however deep, and renders it in place.
 */
module Places {
  import opened Basics
  import opened Templates

  datatype Part = Field(key: string) | Item(index: nat)

  /** The value at a place inside another, if there is such a place. */
  function Find(v: Value, place: seq<Part>): Option<Value>
    decreases |place|
  {
    if place == [] then Some(v)
    else
      match place[0]
      case Field(key) => if v.Obj? && key in v.fields then Find(v.fields[key], place[1..]) else None
      case Item(index) => if v.List? && index < |v.items| then Find(v.items[index], place[1..]) else None
  }

  /** `out` stands where `v` stood: a string as it renders, a container with the same places in it, anything else unchanged. */
  predicate StandsFor(lib: Lib, params: Params, v: Value, out: Value) {
    match v
    case Str(text) => RenderString(lib, text, params) == Some(out)
    case Obj(fields) => out.Obj? && out.fields.Keys == fields.Keys
    case List(items) => out.List? && |out.items| == |items|
    case _ => out == v
  }

  /** Every place of the spec is there in what is rendered, and holds what stands for it. */
  lemma {:induction false} RenderedInPlace(lib: Lib, v: Value, params: Params, place: seq<Part>)
    requires RenderAny(lib, v, params).Some? && Find(v, place).Some?
    ensures Find(RenderAny(lib, v, params).value, place).Some?
    ensures StandsFor(lib, params, Find(v, place).value, Find(RenderAny(lib, v, params).value, place).value)
    decreases |place|
  {
    if place == [] {
    } else if place[0].Field? {
      RenderedInPlace(lib, v.fields[place[0].key], params, place[1..]);
    } else {
      RenderedInPlace(lib, v.items[place[0].index], params, place[1..]);
    }
  }

  lemma {:induction false} FailureHasAPlace(lib: Lib, v: Value, params: Params) returns (place: seq<Part>)
    requires RenderAny(lib, v, params).None?
    ensures Find(v, place).Some? && Find(v, place).value.Str? && RenderString(lib, Find(v, place).value.s, params).None?
    decreases v
  {
    match v
    case Str(_) => place := [];
    case Obj(fields) =>
      var k :| k in fields && RenderAny(lib, fields[k], params).None?;
      var rest := FailureHasAPlace(lib, fields[k], params);
      place := [Field(k)] + rest;
      assert place[1..] == rest;
    case List(items) =>
      var i :| 0 <= i < |items| && RenderAny(lib, items[i], params).None?;
      var rest := FailureHasAPlace(lib, items[i], params);
      place := [Item(i)] + rest;
      assert place[1..] == rest;
  }

  /** The place holds a string that does not render. */
  predicate FailsAt(lib: Lib, v: Value, params: Params, place: seq<Part>) {
    Find(v, place).Some? && Find(v, place).value.Str? && RenderString(lib, Find(v, place).value.s, params).None?
  }

  /** A spec fails to render exactly when some string in it does. */
  lemma RenderFailsIff(lib: Lib, v: Value, params: Params)
    ensures RenderAny(lib, v, params).None? <==> exists place :: FailsAt(lib, v, params, place)
  {
    if RenderAny(lib, v, params).None? {
      var place := FailureHasAPlace(lib, v, params);
      assert FailsAt(lib, v, params, place);
    } else if place :| FailsAt(lib, v, params, place) {
      RenderedInPlace(lib, v, params, place);
    }
  }
}
