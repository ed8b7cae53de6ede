/** Scenario variables: references, template strings and substitution in JSON parameters. */
module Vars {
  import opened Text
  import opened Points
  import Hex

  /** A JSON value; a number is kept as the text it prints as, an object as its keys in
      iteration order with their values beside them. */
  datatype Json =
    | Null
    | Bool(b: bool)
    | Number(text: Str)
    | String(s: Str)
    | Array(items: seq<Json>)
    | Object(keys: seq<Str>, values: seq<Json>)

  type VarStore = map<Str, Json>

  datatype VarError =
    | UnknownVariable(name: Str) | NoField(name: Str, field: Str) | BadIndex(expr: Str)
    | OutOfBounds(name: Str, index: u64) | UnclosedBrace | NotInterpolable(name: Str)

  const DOLLAR: byte := 0x24
  const OPEN_BRACE: byte := 0x7b
  const CLOSE_BRACE: byte := 0x7d
  const DOT: byte := 0x2e
  const OPEN_BRACKET: byte := 0x5b
  const CLOSE_BRACKET: byte := 0x5d

  function TypeName(v: Json): string {
    match v
    case Null => "null"
    case Bool(_) => "bool"
    case Number(_) => "number"
    case String(_) => "string"
    case Array(_) => "array"
    case Object(_, _) => "object"
  }

  function FieldOf(keys: seq<Str>, values: seq<Json>, key: Str): Option<Json> {
    if keys == [] || values == [] then None
    else if keys[0] == key then Some(values[0])
    else FieldOf(keys[1..], values[1..], key)
  }

  // ---- references ------------------------------------------------------------------------------

  /** What the text after the dollar sign asks for. */
  datatype RefForm = Whole(name: Str) | Projection(name: Str, field: Str) | Element(name: Str, index: Option<u64>)

  /** Strips every closing bracket at the end. */
  function TrimBrackets(s: Str): Str {
    if s != [] && s[|s| - 1] == CLOSE_BRACKET then TrimBrackets(s[..|s| - 1]) else s
  }

  /** A dot is looked for before a bracket. */
  function Form(rest: Str): RefForm {
    var dot, bracket := IndexOf(rest, DOT), IndexOf(rest, OPEN_BRACKET);
    if dot < |rest| then Projection(rest[..dot], rest[dot + 1..])
    else if bracket < |rest| then Element(rest[..bracket], ParseU64(TrimBrackets(rest[bracket + 1..])))
    else Whole(rest)
  }

  /** `resolve_ref` on the text after the dollar sign. */
  function ResolveRef(rest: Str, vars: VarStore): Result<Json, VarError> {
    match Form(rest)
    case Whole(name) => if name in vars then Ok(vars[name]) else Err(UnknownVariable(name))
    case Projection(name, field) =>
      if name !in vars then Err(UnknownVariable(name))
      else if vars[name].Object? && FieldOf(vars[name].keys, vars[name].values, field).Some?
      then Ok(FieldOf(vars[name].keys, vars[name].values, field).value)
      else Err(NoField(name, field))
    case Element(name, None) => Err(BadIndex(rest))
    case Element(name, Some(i)) =>
      if name !in vars then Err(UnknownVariable(name))
      else if vars[name].Array? && i < |vars[name].items| then Ok(vars[name].items[i])
      else Err(OutOfBounds(name, i))
  }

  // ---- templates -------------------------------------------------------------------------------

  /** Offset of the first `${`, or the length of the text. */
  function FindOpen(s: Str): (i: nat)
    ensures i <= |s|
    ensures i < |s| ==> i + 1 < |s| && s[i] == DOLLAR && s[i + 1] == OPEN_BRACE
    ensures forall j :: 0 <= j < i && j + 1 < |s| ==> !(s[j] == DOLLAR && s[j + 1] == OPEN_BRACE)
  {
    if |s| < 2 then |s|
    else if s[0] == DOLLAR && s[1] == OPEN_BRACE then 0
    else 1 + FindOpen(s[1..])
  }

  predicate HasOpen(s: Str) {
    FindOpen(s) < |s|
  }

  /** A template read as literals and placeholders. */
  datatype Template = End(lit: Str) | Hole(lit: Str, name: Str, rest: Template) | Unclosed(lit: Str, tail: Str)

  function Parse(s: Str): Template
    decreases |s|
  {
    var open := FindOpen(s);
    if open == |s| then End(s)
    else
      var after := s[open + 2..];
      var close := IndexOf(after, CLOSE_BRACE);
      if close == |after| then Unclosed(s[..open], after)
      else Hole(s[..open], after[..close], Parse(after[close + 1..]))
  }

  function Unparse(t: Template): Str {
    match t
    case End(lit) => lit
    case Unclosed(lit, tail) => lit + [DOLLAR, OPEN_BRACE] + tail
    case Hole(lit, name, rest) => lit + [DOLLAR, OPEN_BRACE] + name + [CLOSE_BRACE] + Unparse(rest)
  }

  /** The text a variable contributes; only numbers and strings can stand in a string. */
  function Rendering(v: Json): Option<Str> {
    match v
    case Number(text) => Some(text)
    case String(s) => Some(s)
    case _ => None
  }

  /** Literals as they are, each placeholder replaced, left to right; what is put in is not
      looked at again. */
  function Render(t: Template, vars: VarStore): Result<(Str, seq<Str>), VarError> {
    match t
    case End(lit) => Ok((lit, []))
    case Unclosed(_, _) => Err(UnclosedBrace)
    case Hole(lit, name, rest) =>
      if name !in vars then Err(UnknownVariable(name))
      else if Rendering(vars[name]).None? then Err(NotInterpolable(name))
      else match Render(rest, vars)
        case Err(e) => Err(e)
        case Ok((text, names)) => Ok((lit + Rendering(vars[name]).value + text, [name] + names))
  }

  /** The scanning loop. */
  method ExpandTemplate(template: Str, vars: VarStore) returns (r: Result<(Str, seq<Str>), VarError>)
    ensures r == Render(Parse(template), vars)
  {
    hide After, Rendering, Parse, Render, IndexOf, FindOpen;
    var result: Str, expanded: seq<Str>, remaining := [], [], template;
    AfterNothing(Render(Parse(template), vars));
    while FindOpen(remaining) < |remaining|
      invariant Render(Parse(template), vars) == After(result, expanded, Render(Parse(remaining), vars))
      decreases |remaining|
    {
      AfterError(result, expanded);
      RenderStep(remaining, vars);
      var open := FindOpen(remaining);
      var after := remaining[open + 2..];
      var close := IndexOf(after, CLOSE_BRACE);
      if close == |after| {
        return Err(UnclosedBrace);
      }
      var name := after[..close];
      if name !in vars {
        return Err(UnknownVariable(name));
      }
      if Rendering(vars[name]).None? {
        return Err(NotInterpolable(name));
      }
      var rendered := Rendering(vars[name]).value;
      AfterHole(result, expanded, remaining[..open], rendered, name, Render(Parse(after[close + 1..]), vars));
      result := result + remaining[..open] + rendered;
      expanded := expanded + [name];
      remaining := after[close + 1..];
    }
    AfterEnd(result, expanded, remaining);
    RenderEnd(remaining, vars);
    r := Ok((result + remaining, expanded));
  }

  /** A result with more text and names in front. */
  function After(text: Str, names: seq<Str>, r: Result<(Str, seq<Str>), VarError>): Result<(Str, seq<Str>), VarError> {
    match r
    case Ok((t, n)) => Ok((text + t, names + n))
    case Err(e) => Err(e)
  }

  lemma AfterNothing(r: Result<(Str, seq<Str>), VarError>)
    ensures After([], [], r) == r
  {
    if r.Ok? { assert [] + r.value.0 == r.value.0 && [] + r.value.1 == r.value.1; }
  }

  lemma AfterEnd(text: Str, names: seq<Str>, lit: Str)
    ensures After(text, names, Ok((lit, []))) == Ok((text + lit, names))
  {
    assert names + [] == names;
  }

  lemma AfterError(text: Str, names: seq<Str>)
    ensures forall e :: After(text, names, Err(e)) == Err(e)
  {
  }

  /** Rendering from the first placeholder on. */
  lemma RenderStep(s: Str, vars: VarStore)
    requires FindOpen(s) < |s|
    ensures var open := FindOpen(s); var after := s[open + 2..];
      var close := IndexOf(after, CLOSE_BRACE); var name := after[..close];
      Render(Parse(s), vars) ==
        if close == |after| then Err(UnclosedBrace)
        else if name !in vars then Err(UnknownVariable(name))
        else if Rendering(vars[name]).None? then Err(NotInterpolable(name))
        else After(s[..open] + Rendering(vars[name]).value, [name], Render(Parse(after[close + 1..]), vars))
  {
    hide Rendering, IndexOf, FindOpen;
  }

  lemma RenderEnd(s: Str, vars: VarStore)
    requires FindOpen(s) == |s|
    ensures Render(Parse(s), vars) == Ok((s, []))
  {
  }

  lemma AfterHole(text: Str, names: seq<Str>, lit: Str, rendered: Str, name: Str, r: Result<(Str, seq<Str>), VarError>)
    ensures After(text + lit + rendered, names + [name], r)
         == After(text, names, After(lit + rendered, [name], r))
  {
    if r.Ok? {
      assert text + lit + rendered + r.value.0 == text + (lit + rendered + r.value.0);
      assert names + [name] + r.value.1 == names + ([name] + r.value.1);
    }
  }

  // ---- substitution ------------------------------------------------------------------------------

  datatype Reported = Reported(reference: Str, typeName: string)

  type Substituted = Result<(Json, seq<Reported>), VarError>

  function TemplateRefs(names: seq<Str>): (r: seq<Reported>)
    ensures |r| == |names|
    ensures forall i :: 0 <= i < |r| ==> r[i] == Reported([DOLLAR, OPEN_BRACE] + names[i] + [CLOSE_BRACE], "string")
  {
    if names == [] then []
    else [Reported([DOLLAR, OPEN_BRACE] + names[0] + [CLOSE_BRACE], "string")] + TemplateRefs(names[1..])
  }

  predicate IsWhole(s: Str) {
    !HasOpen(s) && s != [] && s[0] == DOLLAR
  }

  /** One string value. */
  function SubstituteString(s: Str, vars: VarStore): Substituted {
    if HasOpen(s) then
      match Render(Parse(s), vars)
      case Ok((text, names)) => Ok((String(text), TemplateRefs(names)))
      case Err(e) => Err(e)
    else if IsWhole(s) then
      match ResolveRef(s[1..], vars)
      case Ok(v) => Ok((v, [Reported(s, TypeName(v))]))
      case Err(e) => Err(e)
    else Ok((String(s), []))
  }

  /** `substitute_in_value`: the new value and the references made, in order. */
  function Substitute(v: Json, vars: VarStore): Substituted
    decreases v
  {
    match v
    case String(s) => SubstituteString(s, vars)
    case Array(items) => (
      match SubstituteItems(items, vars)
      case Ok((done, refs)) => Ok((Array(done), refs))
      case Err(e) => Err(e))
    case Object(keys, values) => (
      match SubstituteItems(values, vars)
      case Ok((done, refs)) => Ok((Object(keys, done), refs))
      case Err(e) => Err(e))
    case _ => Ok((v, []))
  }

  function SubstituteItems(items: seq<Json>, vars: VarStore): Result<(seq<Json>, seq<Reported>), VarError>
    decreases items
  {
    if items == [] then Ok(([], []))
    else match Substitute(items[0], vars)
      case Err(e) => Err(e)
      case Ok((first, refs)) =>
        match SubstituteItems(items[1..], vars)
        case Err(e) => Err(e)
        case Ok((rest, more)) => Ok(([first] + rest, refs + more))
  }
}
