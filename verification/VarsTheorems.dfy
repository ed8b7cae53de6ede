/** What substitution guarantees: templates split and rejoin exactly, only the named
    variables matter, everything else stays, and points survive the way through a variable. */
module VarsTheorems {
  import opened Text
  import opened Points
  import opened Vars
  import Hex

  // ---- templates --------------------------------------------------------------------------------

  ghost predicate Without(s: Str, c: byte) {
    forall i :: 0 <= i < |s| ==> s[i] != c
  }

  /** Literals free of the opening mark, names free of the closing one. */
  ghost predicate WellFormed(t: Template) {
    match t
    case End(lit) => !HasOpen(lit)
    case Unclosed(lit, tail) => !HasOpen(lit) && Without(tail, CLOSE_BRACE)
    case Hole(lit, name, rest) => !HasOpen(lit) && Without(name, CLOSE_BRACE) && WellFormed(rest)
  }

  lemma {:induction false} FirstOpen(lit: Str, tail: Str)
    requires !HasOpen(lit)
    ensures FindOpen(lit + [DOLLAR, OPEN_BRACE] + tail) == |lit|
  {
    var s := lit + [DOLLAR, OPEN_BRACE] + tail;
    assert s[|lit|] == DOLLAR && s[|lit| + 1] == OPEN_BRACE;
    assert FindOpen(lit) == |lit|;
    forall j | 0 <= j < |lit| ensures !(s[j] == DOLLAR && s[j + 1] == OPEN_BRACE) {
      assert s[j] == lit[j];
      if j + 1 < |lit| { assert s[j + 1] == lit[j + 1]; } else { assert s[j + 1] == DOLLAR; }
    }
  }

  lemma FirstClose(name: Str, tail: Str)
    requires Without(name, CLOSE_BRACE)
    ensures IndexOf(name + [CLOSE_BRACE] + tail, CLOSE_BRACE) == |name|
  {
    var s := name + [CLOSE_BRACE] + tail;
    assert s[|name|] == CLOSE_BRACE;
    assert forall i :: 0 <= i < |name| ==> s[i] == name[i];
  }

  lemma NoOpenBefore(s: Str, n: nat)
    requires n <= FindOpen(s)
    ensures !HasOpen(s[..n])
  {
    assert forall j :: 0 <= j < n ==> s[..n][j] == s[j];
  }

  /** Reading a template loses nothing, and the pieces are what they should be. */
  lemma {:induction false} UnparseOfParse(s: Str)
    ensures Unparse(Parse(s)) == s && WellFormed(Parse(s))
    decreases |s|
  {
    hide FindOpen, IndexOf;
    var open := FindOpen(s);
    NoOpenBefore(s, open);
    if open == |s| {
      assert s[..open] == s;
    } else {
      var after := s[open + 2..];
      var close := IndexOf(after, CLOSE_BRACE);
      CutAtOpen(s, open);
      if close < |after| {
        UnparseOfParse(after[close + 1..]);
        CutAtClose(s[..open], after, close);
      }
    }
  }

  lemma CutAtOpen(s: Str, open: nat)
    requires open + 1 < |s| && s[open] == DOLLAR && s[open + 1] == OPEN_BRACE
    ensures s == s[..open] + [DOLLAR, OPEN_BRACE] + s[open + 2..]
  {
  }

  lemma CutAtClose(lit: Str, after: Str, close: nat)
    requires close < |after| && after[close] == CLOSE_BRACE
    ensures lit + [DOLLAR, OPEN_BRACE] + after
         == lit + [DOLLAR, OPEN_BRACE] + after[..close] + [CLOSE_BRACE] + after[close + 1..]
  {
    assert after == after[..close] + [CLOSE_BRACE] + after[close + 1..];
  }

  /** A split into pieces is the one that is read exactly when it is well formed. */
  lemma {:induction false} ParseOfUnparse(t: Template)
    ensures Parse(Unparse(t)) == t <==> WellFormed(t)
  {
    UnparseOfParse(Unparse(t));
    if WellFormed(t) {
      ReadsBack(t);
    }
  }

  lemma {:induction false} ReadsBack(t: Template)
    requires WellFormed(t)
    ensures Parse(Unparse(t)) == t
  {
    hide FindOpen, IndexOf;
    var s := Unparse(t);
    match t
    case End(lit) =>
    case Unclosed(lit, tail) =>
      FirstOpen(lit, tail);
      assert s[..|lit|] == lit && s[|lit| + 2..] == tail;
    case Hole(lit, name, rest) =>
      var after := name + [CLOSE_BRACE] + Unparse(rest);
      assert s == lit + [DOLLAR, OPEN_BRACE] + after;
      FirstOpen(lit, after);
      FirstClose(name, Unparse(rest));
      assert s[..|lit|] == lit && s[|lit| + 2..] == after;
      assert after[..|name|] == name && after[|name| + 1..] == Unparse(rest);
      ReadsBack(rest);
  }

  function HoleNames(t: Template): seq<Str> {
    match t
    case Hole(_, name, rest) => [name] + HoleNames(rest)
    case _ => []
  }

  predicate Closed(t: Template) {
    match t
    case End(_) => true
    case Unclosed(_, _) => false
    case Hole(_, _, rest) => Closed(rest)
  }

  /** The literals and renderings of a template, in order. */
  function Texts(t: Template, vars: VarStore): seq<Str> {
    match t
    case End(lit) => [lit]
    case Unclosed(lit, tail) => [lit, tail]
    case Hole(lit, name, rest) =>
      [lit, if name in vars && Rendering(vars[name]).Some? then Rendering(vars[name]).value else []] + Texts(rest, vars)
  }

  function Concat(parts: seq<Str>): Str {
    if parts == [] then [] else parts[0] + Concat(parts[1..])
  }

  lemma ConcatOne(a: Str)
    ensures Concat([a]) == a
  {
    assert Concat([a][1..]) == [];
  }

  lemma ConcatTwo(a: Str, b: Str, rest: seq<Str>)
    ensures Concat([a, b] + rest) == a + b + Concat(rest)
  {
    var all := [a, b] + rest;
    assert all[1..] == [b] + rest && ([b] + rest)[1..] == rest;
  }

  /** A template expands exactly when every placeholder is closed and names a number or a
      string; the result is its literals and renderings joined, and the names are those of
      its placeholders, in order. */
  lemma {:induction false} ExpansionIff(t: Template, vars: VarStore)
    ensures Render(t, vars).Ok? <==>
      Closed(t) && forall n :: n in HoleNames(t) ==> n in vars && Rendering(vars[n]).Some?
    ensures Render(t, vars).Ok? ==> Render(t, vars).value == (Concat(Texts(t, vars)), HoleNames(t))
  {
    hide Rendering, Concat;
    match t
    case End(lit) => ConcatOne(lit);
    case Unclosed(_, _) =>
    case Hole(lit, name, rest) =>
      ExpansionIff(rest, vars);
      ConcatTwo(lit, Texts(t, vars)[1], Texts(rest, vars));
      assert name in HoleNames(t) && forall n :: n in HoleNames(rest) ==> n in HoleNames(t);
  }

  /** Only numbers and strings stand in a string, as the text they print as and as they are. */
  lemma Renderings(v: Json)
    ensures v.Number? ==> Rendering(v) == Some(v.text)
    ensures v.String? ==> Rendering(v) == Some(v.s)
    ensures Rendering(v).Some? <==> v.Number? || v.String?
  {
  }

  /** Expansion on the template text: up to the first `${name}` the text stays, the variable's
      text takes its place, and expansion goes on after the closing mark. */
  lemma ExpandFirst(lit: Str, name: Str, tail: Str, vars: VarStore)
    requires !HasOpen(lit) && Without(name, CLOSE_BRACE)
    ensures var rest := Render(Parse(tail), vars);
      Render(Parse(lit + Ascii("${") + name + Ascii("}") + tail), vars) ==
        if name !in vars then Err(UnknownVariable(name))
        else if !vars[name].Number? && !vars[name].String? then Err(NotInterpolable(name))
        else if rest.Err? then rest
        else Ok((lit + (if vars[name].Number? then vars[name].text else vars[name].s) + rest.value.0, [name] + rest.value.1))
  {
    hide FindOpen, IndexOf, Rendering, Render, Parse;
    assert Ascii("${") == [DOLLAR, OPEN_BRACE] && Ascii("}") == [CLOSE_BRACE];
    var after := name + [CLOSE_BRACE] + tail;
    var s := lit + [DOLLAR, OPEN_BRACE] + after;
    assert lit + Ascii("${") + name + Ascii("}") + tail == s;
    FirstOpen(lit, after);
    FirstClose(name, tail);
    RenderStep(s, vars);
    assert s[..|lit|] == lit && s[|lit| + 2..] == after;
    assert after[..|name|] == name && after[|name| + 1..] == tail;
    if name in vars { Renderings(vars[name]); }
  }

  /** Text without an opening mark is itself; one that is never closed is an error. */
  lemma ExpandLast(lit: Str, tail: Str, vars: VarStore)
    requires !HasOpen(lit)
    ensures Render(Parse(lit), vars) == Ok((lit, []))
    ensures Without(tail, CLOSE_BRACE) ==> Render(Parse(lit + Ascii("${") + tail), vars) == Err(UnclosedBrace)
  {
    RenderEnd(lit, vars);
    if Without(tail, CLOSE_BRACE) {
      hide FindOpen, IndexOf, Render, Parse;
      assert Ascii("${") == [DOLLAR, OPEN_BRACE];
      FirstOpen(lit, tail);
      RenderStep(lit + [DOLLAR, OPEN_BRACE] + tail, vars);
      assert (lit + [DOLLAR, OPEN_BRACE] + tail)[|lit| + 2..] == tail;
    }
  }

  /** A string becomes an expanded string when it holds an opening mark, a stored value when
      it starts with a dollar sign otherwise, and itself when neither. */
  lemma StringCases(s: Str, vars: VarStore)
    ensures var r := Substitute(String(s), vars); var expanded := Render(Parse(s), vars);
      && (HasOpen(s) && expanded.Err? ==> r == Err(expanded.error))
      && (HasOpen(s) && expanded.Ok? ==> r.Ok? && r.value.0 == String(expanded.value.0))
      && (HasOpen(s) && expanded.Ok? ==> |r.value.1| == |expanded.value.1|)
      && (HasOpen(s) && expanded.Ok? ==> forall i :: 0 <= i < |expanded.value.1| ==>
            r.value.1[i] == Reported(Ascii("${") + expanded.value.1[i] + Ascii("}"), "string"))
      && (!HasOpen(s) && |s| > 0 && s[0] == 0x24 ==>
            var found := ResolveRef(s[1..], vars);
            r == if found.Err? then Err(found.error) else Ok((found.value, [Reported(s, KindOfValue(found.value))])))
      && (!HasOpen(s) && (s == [] || s[0] != 0x24) ==> r == Ok((String(s), [])))
  {
    hide FindOpen, Parse, Render, ResolveRef;
    assert Ascii("${") == [DOLLAR, OPEN_BRACE] && Ascii("}") == [CLOSE_BRACE];
  }

  function KindOfValue(v: Json): string {
    if v.Null? then "null" else if v.Bool? then "bool" else if v.Number? then "number"
    else if v.String? then "string" else if v.Array? then "array" else "object"
  }

  /** The three forms of a reference, and what is wrong with the ones that fail. A dot makes a
      projection, whatever follows the name; otherwise a bracket makes an element. */
  lemma ReferenceForms(name: Str, field: Str, index: Str, vars: VarStore)
    requires Without(name, DOT)
    ensures var r := ResolveRef(name + Ascii(".") + field, vars);
      r == if name !in vars then Err(UnknownVariable(name))
           else if vars[name].Object? && FieldOf(vars[name].keys, vars[name].values, field).Some?
           then Ok(FieldOf(vars[name].keys, vars[name].values, field).value)
           else Err(NoField(name, field))
    ensures Without(name, OPEN_BRACKET) ==>
      ResolveRef(name, vars) == if name in vars then Ok(vars[name]) else Err(UnknownVariable(name))
    ensures Without(name, OPEN_BRACKET) && Without(index, DOT) ==>
      var i := ParseU64(TrimBrackets(index));
      ResolveRef(name + Ascii("[") + index, vars) ==
        if i.None? then Err(BadIndex(name + Ascii("[") + index))
        else if name !in vars then Err(UnknownVariable(name))
        else if vars[name].Array? && i.value < |vars[name].items| then Ok(vars[name].items[i.value])
        else Err(OutOfBounds(name, i.value))
  {
    hide Form, FieldOf, ParseU64, TrimBrackets;
    assert Ascii(".") == [DOT] && Ascii("[") == [OPEN_BRACKET];
    ProjectionForm(name, field);
    PlainForm(name);
    if Without(name, OPEN_BRACKET) && Without(index, DOT) { BracketForm(name, index); }
  }

  lemma BracketForm(name: Str, index: Str)
    requires Without(name, DOT) && Without(name, OPEN_BRACKET) && Without(index, DOT)
    ensures Form(name + [OPEN_BRACKET] + index) == Element(name, ParseU64(TrimBrackets(index)))
  {
    hide ParseU64, TrimBrackets;
    var rest := name + [OPEN_BRACKET] + index;
    BracketAt(name, index);
    assert rest[..|name|] == name && rest[|name| + 1..] == index;
    forall j | 0 <= j < |rest| ensures rest[j] != DOT {
      if j > |name| { assert rest[j] == index[j - |name| - 1]; }
    }
  }

  /** Every closing bracket at the end is dropped, and nothing else. */
  lemma {:induction false} BracketsTrimmed(s: Str)
    ensures var r := TrimBrackets(s);
      && r <= s && (r == [] || r[|r| - 1] != 0x5d)
      && forall i :: |r| <= i < |s| ==> s[i] == 0x5d
  {
    if s != [] && s[|s| - 1] == CLOSE_BRACKET { BracketsTrimmed(s[..|s| - 1]); }
  }

  /** The first field with the key. */
  lemma {:induction false} FieldFound(keys: seq<Str>, values: seq<Json>, key: Str)
    requires |keys| == |values|
    ensures FieldOf(keys, values, key).Some? <==> key in keys
    ensures forall k :: 0 <= k < |keys| && keys[k] == key && key !in keys[..k] ==> FieldOf(keys, values, key) == Some(values[k])
  {
    if keys != [] && keys[0] != key {
      FieldFound(keys[1..], values[1..], key);
      assert forall k :: 0 < k < |keys| ==> keys[..k] == [keys[0]] + keys[1..][..k - 1];
      assert keys == [keys[0]] + keys[1..];
    }
  }

  // ---- which variables matter -----------------------------------------------------------------------

  /** The variables a string names. */
  function StringNames(s: Str): seq<Str> {
    if HasOpen(s) then HoleNames(Parse(s)) else if IsWhole(s) then [Form(s[1..]).name] else []
  }

  function JsonNames(v: Json): seq<Str>
    decreases v
  {
    match v
    case String(s) => StringNames(s)
    case Array(items) => ItemNames(items)
    case Object(_, values) => ItemNames(values)
    case _ => []
  }

  function ItemNames(items: seq<Json>): seq<Str>
    decreases items
  {
    if items == [] then [] else JsonNames(items[0]) + ItemNames(items[1..])
  }

  /** The variable behind a reported reference. */
  function BaseName(reference: Str): Str {
    if |reference| > 2 && HasOpen(reference) then reference[2..|reference| - 1]
    else if reference == [] then []
    else Form(reference[1..]).name
  }

  function BaseNames(refs: seq<Reported>): (r: seq<Str>)
    ensures |r| == |refs| && forall i :: 0 <= i < |r| ==> r[i] == BaseName(refs[i].reference)
  {
    if refs == [] then [] else [BaseName(refs[0].reference)] + BaseNames(refs[1..])
  }

  lemma BaseNamesConcat(a: seq<Reported>, b: seq<Reported>)
    ensures BaseNames(a + b) == BaseNames(a) + BaseNames(b)
  {
    hide BaseName;
  }

  lemma TemplateBases(names: seq<Str>)
    ensures BaseNames(TemplateRefs(names)) == names
  {
    forall i | 0 <= i < |names| ensures BaseName(TemplateRefs(names)[i].reference) == names[i] {
      var r := [DOLLAR, OPEN_BRACE] + names[i] + [CLOSE_BRACE];
      assert r[0] == DOLLAR && r[1] == OPEN_BRACE;
      assert r[2..|r| - 1] == names[i];
    }
  }

  lemma StringBases(s: Str, vars: VarStore)
    requires SubstituteString(s, vars).Ok?
    ensures BaseNames(SubstituteString(s, vars).value.1) == StringNames(s)
  {
    hide Form, ResolveRef, Parse, FindOpen;
    if HasOpen(s) {
      ExpansionIff(Parse(s), vars);
      TemplateBases(HoleNames(Parse(s)));
    }
  }

  /** The reported references are, in order, the variables the value names. */
  lemma {:induction false} ReportsNames(v: Json, vars: VarStore)
    requires Substitute(v, vars).Ok?
    ensures BaseNames(Substitute(v, vars).value.1) == JsonNames(v)
    decreases v
  {
    hide SubstituteString, StringNames;
    match v
    case String(s) => StringBases(s, vars);
    case Array(items) => ReportsItemNames(items, vars);
    case Object(_, values) => ReportsItemNames(values, vars);
    case _ =>
  }

  lemma {:induction false} ReportsItemNames(items: seq<Json>, vars: VarStore)
    requires SubstituteItems(items, vars).Ok?
    ensures BaseNames(SubstituteItems(items, vars).value.1) == ItemNames(items)
    decreases items
  {
    if items != [] {
      ReportsNames(items[0], vars);
      ReportsItemNames(items[1..], vars);
      BaseNamesConcat(Substitute(items[0], vars).value.1, SubstituteItems(items[1..], vars).value.1);
    }
  }

  ghost predicate AgreeOn(v1: VarStore, v2: VarStore, names: seq<Str>) {
    forall n :: n in names ==> (n in v1 <==> n in v2) && (n in v1 ==> v1[n] == v2[n])
  }

  lemma {:induction false} RenderFrame(t: Template, v1: VarStore, v2: VarStore)
    requires AgreeOn(v1, v2, HoleNames(t))
    ensures Render(t, v1) == Render(t, v2)
  {
    match t
    case Hole(lit, name, rest) =>
      assert name in HoleNames(t) && forall n :: n in HoleNames(rest) ==> n in HoleNames(t);
      RenderFrame(rest, v1, v2);
    case _ =>
  }

  lemma StringFrame(s: Str, v1: VarStore, v2: VarStore)
    requires AgreeOn(v1, v2, StringNames(s))
    ensures SubstituteString(s, v1) == SubstituteString(s, v2)
  {
    hide Form, FieldOf, Parse, FindOpen;
    if HasOpen(s) {
      RenderFrame(Parse(s), v1, v2);
    } else if IsWhole(s) {
      assert Form(s[1..]).name in StringNames(s);
    }
  }

  /** Stores that agree on the variables a value names give the same outcome: value,
      references, or error. */
  lemma {:induction false} Frame(v: Json, v1: VarStore, v2: VarStore)
    requires AgreeOn(v1, v2, JsonNames(v))
    ensures Substitute(v, v1) == Substitute(v, v2)
    decreases v
  {
    hide SubstituteString, StringNames;
    match v
    case String(s) => StringFrame(s, v1, v2);
    case Array(items) => ItemsFrame(items, v1, v2);
    case Object(_, values) => ItemsFrame(values, v1, v2);
    case _ =>
  }

  lemma {:induction false} ItemsFrame(items: seq<Json>, v1: VarStore, v2: VarStore)
    requires AgreeOn(v1, v2, ItemNames(items))
    ensures SubstituteItems(items, v1) == SubstituteItems(items, v2)
    decreases items
  {
    if items != [] {
      assert forall n :: n in JsonNames(items[0]) || n in ItemNames(items[1..]) ==> n in ItemNames(items);
      Frame(items[0], v1, v2);
      ItemsFrame(items[1..], v1, v2);
    }
  }

  /** A successful substitution comes out the same under any store that agrees on the
      variables it reported. */
  lemma FrameByReports(v: Json, v1: VarStore, v2: VarStore)
    requires Substitute(v, v1).Ok? && AgreeOn(v1, v2, BaseNames(Substitute(v, v1).value.1))
    ensures Substitute(v, v2) == Substitute(v, v1)
  {
    hide Substitute, JsonNames;
    ReportsNames(v, v1);
    Frame(v, v1, v2);
  }

  // ---- what stays -----------------------------------------------------------------------------------------

  predicate RefFree(v: Json)
    decreases v
  {
    match v
    case String(s) => !HasOpen(s) && !IsWhole(s)
    case Array(items) => RefFreeItems(items)
    case Object(_, values) => RefFreeItems(values)
    case _ => true
  }

  predicate RefFreeItems(items: seq<Json>)
    decreases items
  {
    items == [] || (RefFree(items[0]) && RefFreeItems(items[1..]))
  }

  /** A value passes through with nothing reported exactly when no string in it is a
      reference or a template, and then it is unchanged. */
  lemma {:induction false} UntouchedIff(v: Json, vars: VarStore)
    ensures (Substitute(v, vars).Ok? && Substitute(v, vars).value.1 == []) <==> RefFree(v)
    ensures RefFree(v) ==> Substitute(v, vars) == Ok((v, []))
    decreases v
  {
    match v
    case String(s) => if HasOpen(s) { ExpansionIff(Parse(s), vars); }
    case Array(items) => UntouchedItems(items, vars);
    case Object(_, values) => UntouchedItems(values, vars);
    case _ =>
  }

  lemma {:induction false} UntouchedItems(items: seq<Json>, vars: VarStore)
    ensures (SubstituteItems(items, vars).Ok? && SubstituteItems(items, vars).value.1 == []) <==> RefFreeItems(items)
    ensures RefFreeItems(items) ==> SubstituteItems(items, vars) == Ok((items, []))
    decreases items
  {
    if items != [] {
      UntouchedIff(items[0], vars);
      UntouchedItems(items[1..], vars);
      assert items == [items[0]] + items[1..];
    }
  }

  /** The part of a value at a path of positions. */
  function Part(v: Json, path: seq<nat>): Option<Json>
    decreases |path|
  {
    if path == [] then Some(v)
    else match v
      case Array(items) => if path[0] < |items| then Part(items[path[0]], path[1..]) else None
      case Object(_, values) => if path[0] < |values| then Part(values[path[0]], path[1..]) else None
      case _ => None
  }

  lemma {:induction false} ItemsPointwise(items: seq<Json>, vars: VarStore, i: nat)
    requires SubstituteItems(items, vars).Ok? && i < |items|
    ensures |SubstituteItems(items, vars).value.0| == |items|
    ensures Substitute(items[i], vars).Ok?
    ensures SubstituteItems(items, vars).value.0[i] == Substitute(items[i], vars).value.0
    decreases items
  {
    hide Substitute;
    ItemsLength(items[1..], vars);
    if i > 0 { ItemsPointwise(items[1..], vars, i - 1); }
  }

  lemma {:induction false} ItemsLength(items: seq<Json>, vars: VarStore)
    requires SubstituteItems(items, vars).Ok?
    ensures |SubstituteItems(items, vars).value.0| == |items|
    decreases items
  {
    hide Substitute;
    if items != [] { ItemsLength(items[1..], vars); }
  }

  /** Every part of the value is substituted where it stands, independently of the rest: the
      result holds at the same path what the part alone becomes. With the lemma above, parts
      without references are unchanged. */
  lemma {:induction false} PartByPart(v: Json, vars: VarStore, path: seq<nat>)
    requires Substitute(v, vars).Ok? && Part(v, path).Some?
    ensures Substitute(Part(v, path).value, vars).Ok?
    ensures Part(Substitute(v, vars).value.0, path) == Some(Substitute(Part(v, path).value, vars).value.0)
    decreases |path|
  {
    hide SubstituteString, SubstituteItems;
    if path != [] {
      var items := if v.Array? then v.items else v.values;
      ItemsPointwise(items, vars, path[0]);
      PartByPart(items[path[0]], vars, path[1..]);
    }
  }

  /** A whole-value reference becomes the stored value itself, whatever that contains. */
  lemma StoredVerbatim(name: Str, vars: VarStore)
    requires PlainName(name) && name in vars
    ensures Substitute(String([DOLLAR] + name), vars)
         == Ok((vars[name], [Reported([DOLLAR] + name, TypeName(vars[name]))]))
  {
    var s := [DOLLAR] + name;
    assert s[1..] == name;
    PlainForm(name);
  }

  // ---- points through variables --------------------------------------------------------------------------------

  /** A name that is read back whole: no dot, no bracket, no template mark. */
  ghost predicate PlainName(name: Str) {
    Without(name, DOT) && Without(name, OPEN_BRACKET) && !HasOpen([DOLLAR] + name)
  }

  lemma PlainForm(name: Str)
    ensures Form(name) == Whole(name) <==> Without(name, DOT) && Without(name, OPEN_BRACKET)
  {
    var dot, bracket := IndexOf(name, DOT), IndexOf(name, OPEN_BRACKET);
    if dot < |name| { assert name[dot] == DOT; }
    if bracket < |name| { assert name[bracket] == OPEN_BRACKET; }
  }

  /** What a chain-sync output stores. */
  function PointList(points: seq<Point>): Json {
    Array(PointItems(points))
  }

  function PointItems(points: seq<Point>): (r: seq<Json>)
    ensures |r| == |points| && forall i :: 0 <= i < |r| ==> r[i] == String(PointToStr(points[i]))
  {
    if points == [] then [] else [String(PointToStr(points[0]))] + PointItems(points[1..])
  }

  /** What a block fetch reads from its `points` parameter. */
  function ParsePoints(items: seq<Json>): Option<seq<Point>> {
    if items == [] then Some([])
    else if !items[0].String? then None
    else match (ParsePoint(items[0].s), ParsePoints(items[1..]))
      case (Some(p), Some(rest)) => Some([p] + rest)
      case _ => None
  }

  lemma {:induction false} PointsReadBack(points: seq<Point>)
    ensures ParsePoints(PointItems(points)) == Some(points)
  {
    hide PointToStr, ParsePoint;
    if points != [] {
      PointRoundTrip(points[0]);
      PointsReadBack(points[1..]);
      assert PointItems(points)[1..] == PointItems(points[1..]);
      assert points == [points[0]] + points[1..];
    }
  }

  /** A point list stored under a name and read back through `$name` is the same list, in
      any store, for every plain name. */
  lemma PointsThroughVariable(name: Str, points: seq<Point>, vars: VarStore)
    requires PlainName(name)
    ensures var r := Substitute(String([DOLLAR] + name), vars[name := PointList(points)]);
      && r == Ok((PointList(points), [Reported([DOLLAR] + name, "array")]))
      && ParsePoints(r.value.0.items) == Some(points)
  {
    hide Substitute, PointItems;
    StoredVerbatim(name, vars[name := PointList(points)]);
    PointsReadBack(points);
  }

  /** And for no other name: where only that variable is set, reading it back succeeds
      exactly when the name is plain. */
  lemma PlainNameIff(name: Str, points: seq<Point>)
    ensures Substitute(String([DOLLAR] + name), map[name := PointList(points)]).Ok? <==> PlainName(name)
  {
    hide PointItems, Parse, FindOpen, Form;
    var s, vars := [DOLLAR] + name, map[name := PointList(points)];
    assert s[1..] == name;
    PlainForm(name);
    ShorterBase(name);
    if HasOpen(s) {
      ExpansionIff(Parse(s), vars);
      SomeHole(s);
    }
  }

  /** Any other form asks for a shorter name. */
  lemma ShorterBase(name: Str)
    ensures !Form(name).Whole? ==> |Form(name).name| < |name|
    ensures Form(name).Whole? ==> Form(name) == Whole(name)
  {
  }

  lemma SomeHole(s: Str)
    requires HasOpen(s)
    ensures Parse(s).Unclosed? || (Parse(s).Hole? && Parse(s).name in HoleNames(Parse(s)))
  {
  }

  /** What a tip query stores. */
  function TipValue(p: Point, blockNumber: u64): Json {
    Object([POINT_KEY, BLOCK_NUMBER_KEY], [String(PointToStr(p)), Number(Decimal(blockNumber))])
  }

  const POINT_KEY: Str := [0x70, 0x6f, 0x69, 0x6e, 0x74]  // "point"
  const BLOCK_NUMBER_KEY: Str :=
    [0x62, 0x6c, 0x6f, 0x63, 0x6b, 0x5f, 0x6e, 0x75, 0x6d, 0x62, 0x65, 0x72]  // "block_number"

  lemma ProjectionForm(name: Str, field: Str)
    requires Without(name, DOT)
    ensures Form(name + [DOT] + field) == Projection(name, field)
  {
    var rest := name + [DOT] + field;
    assert rest[|name|] == DOT && forall i :: 0 <= i < |name| ==> rest[i] == name[i];
    assert IndexOf(rest, DOT) == |name|;
    assert rest[..|name|] == name && rest[|name| + 1..] == field;
  }

  /** A tip stored by a query and read back field by field is the same tip. */
  lemma TipThroughVariable(name: Str, p: Point, blockNumber: u64, vars: VarStore)
    requires Without(name, DOT)
    ensures var stored := vars[name := TipValue(p, blockNumber)];
      var point := ResolveRef(name + [DOT] + POINT_KEY, stored);
      var number := ResolveRef(name + [DOT] + BLOCK_NUMBER_KEY, stored);
      && point.Ok? && point.value.String? && ParsePoint(point.value.s) == Some(p)
      && number.Ok? && number.value.Number? && ParseU64(number.value.text) == Some(blockNumber)
  {
    hide PointToStr, ParsePoint, Decimal, ParseU64, Form;
    ProjectionForm(name, POINT_KEY);
    ProjectionForm(name, BLOCK_NUMBER_KEY);
    PointRoundTrip(p);
    ParseOfDecimal(blockNumber);
    var keys, values := [POINT_KEY, BLOCK_NUMBER_KEY], [String(PointToStr(p)), Number(Decimal(blockNumber))];
    assert POINT_KEY[0] != BLOCK_NUMBER_KEY[0];
    assert keys[1..] == [BLOCK_NUMBER_KEY] && values[1..] == [Number(Decimal(blockNumber))];
    assert FieldOf(keys, values, BLOCK_NUMBER_KEY) == FieldOf(keys[1..], values[1..], BLOCK_NUMBER_KEY);
  }

  /** `$name[i]` is the i-th point. */
  lemma PointByIndex(name: Str, points: seq<Point>, i: nat, vars: VarStore)
    requires Without(name, DOT) && Without(name, OPEN_BRACKET)
    requires i < |points| && i <= U64_MAX
    ensures ResolveRef(name + [OPEN_BRACKET] + Decimal(i) + [CLOSE_BRACKET], vars[name := PointList(points)])
         == Ok(String(PointToStr(points[i])))
  {
    hide PointToStr, Decimal;
    ElementForm(name, i);
  }

  lemma ElementForm(name: Str, i: nat)
    requires Without(name, DOT) && Without(name, OPEN_BRACKET) && i <= U64_MAX
    ensures Form(name + [OPEN_BRACKET] + Decimal(i) + [CLOSE_BRACKET]) == Element(name, Some(i))
  {
    hide Decimal, ParseU64, IndexOf, TrimBrackets;
    var digits := Decimal(i);
    var rest, inner := name + [OPEN_BRACKET] + digits + [CLOSE_BRACKET], digits + [CLOSE_BRACKET];
    assert rest == name + [OPEN_BRACKET] + inner;
    NoDot(name, digits);
    BracketAt(name, inner);
    assert rest[..|name|] == name && rest[|name| + 1..] == inner;
    Trimmed(digits);
    ParseOfDecimal(i);
  }

  lemma NoDot(name: Str, digits: Str)
    requires Without(name, DOT) && AllDigits(digits)
    ensures var rest := name + [OPEN_BRACKET] + digits + [CLOSE_BRACKET]; IndexOf(rest, DOT) == |rest|
  {
    var rest := name + [OPEN_BRACKET] + digits + [CLOSE_BRACKET];
    forall j | 0 <= j < |rest| ensures rest[j] != DOT {
      if |name| < j < |rest| - 1 { assert IsDigit(digits[j - |name| - 1]); }
    }
  }

  lemma BracketAt(name: Str, tail: Str)
    requires Without(name, OPEN_BRACKET)
    ensures IndexOf(name + [OPEN_BRACKET] + tail, OPEN_BRACKET) == |name|
  {
    var s := name + [OPEN_BRACKET] + tail;
    assert s[|name|] == OPEN_BRACKET && forall i :: 0 <= i < |name| ==> s[i] == name[i];
  }

  lemma Trimmed(digits: Str)
    requires digits != [] && AllDigits(digits)
    ensures TrimBrackets(digits + [CLOSE_BRACKET]) == digits
  {
    assert (digits + [CLOSE_BRACKET])[..|digits|] == digits && IsDigit(digits[|digits| - 1]);
  }
}
