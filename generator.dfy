/**
  `generate_plantuml`, identical in UMLClassGenerator.py and UMLInterfaceGenerator.py:
  PlantUML text built from the ordered dictionary by string accumulation.
 */
module Generator {
  import opened Wrappers
  import opened Strings
  import opened Model

  const Preamble := "skinparam classAttributeIconSize 0\n@startuml\n"
  const EndMarker := "@enduml"

  // ---------------------------------------------------------------- symbols

  /** `'-'` for private, `'#'` for protected, `'+'` otherwise (public or no visibility). */
  function VisibilitySymbol(v: Option<Visibility>): (r: string)
    ensures r == "-" <==> v == Some(Private)
    ensures r == "#" <==> v == Some(Protected)
    ensures r == "+" <==> v != Some(Private) && v != Some(Protected)
  {
    if v == Some(Private) then "-" else if v == Some(Protected) then "#" else "+"
  }

  /** `'{static} ' if 'static' in modifier else ''` */
  function AttributeMarker(modifier: string): string {
    if Contains(modifier, "static") then "{static} " else ""
  }

  /** `'{static} '`, else `'{abstract} '`, else nothing: `static` wins; `final` has no marker. */
  function MethodMarker(modifier: string): string {
    if Contains(modifier, "static") then "{static} "
    else if Contains(modifier, "abstract") then "{abstract} "
    else ""
  }

  /** No keyword text holds another keyword, except each itself: `"abstract"` does not
      contain `"static"`, although the two share the letters `stat`. */
  lemma KeywordContains(k: ModKeyword, w: ModKeyword)
    ensures Contains(KeywordText(k), KeywordText(w)) <==> k == w
  {
    var t, u := KeywordText(k), KeywordText(w);
    if k == w {
      assert OccursAt(t, u, 0);
    } else {
      forall i | 0 <= i <= |t| ensures !OccursAt(t, u, i) {
        OccursAtStart(t, u, i);
        if OccursAt(t, u, i) {
          assert false;
        }
      }
    }
  }

  /** An occurrence starts with the first three characters of what occurs. */
  lemma OccursAtStart(t: string, u: string, i: int)
    ensures OccursAt(t, u, i) && |u| >= 3 ==> t[i] == u[0] && t[i + 1] == u[1] && t[i + 2] == u[2]
  {
    if OccursAt(t, u, i) && |u| >= 3 {
      assert t[i..i + |u|][0] == u[0] && t[i..i + |u|][1] == u[1] && t[i..i + |u|][2] == u[2];
    }
  }

  /** The attribute marker depends only on the keyword the regex kept, the last of the
      repeated modifier group: `{static} ` exactly for `static`, nothing for `final`,
      `abstract` or no modifier at all. */
  lemma AttributeMarkerOfCapture(m: Option<ModCapture>)
    requires m.Some? ==> ValidCapture(m.value)
    ensures AttributeMarker(ModifierText(m)) ==
      if m.Some? && m.value.keyword == Static then "{static} " else ""
  {
    if m.Some? {
      ContainsIgnoresSpaceTail(KeywordText(m.value.keyword), m.value.gap, "static");
      KeywordContains(m.value.keyword, Static);
    } else {
      assert !OccursAt("", "static", 0);
    }
  }

  /** The method marker: `{static} ` for `static`, `{abstract} ` for `abstract`, nothing
      for `final` or no modifier. Since only the last repetition is kept, `static abstract`
      is marked `{abstract} ` and `abstract static` is marked `{static} `. */
  lemma MethodMarkerOfCapture(m: Option<ModCapture>)
    requires m.Some? ==> ValidCapture(m.value)
    ensures MethodMarker(ModifierText(m)) ==
      match m
      case None => ""
      case Some(c) =>
        match c.keyword
        case Static => "{static} "
        case Abstract => "{abstract} "
        case Final => ""
  {
    if m.Some? {
      var k := m.value.keyword;
      ContainsIgnoresSpaceTail(KeywordText(k), m.value.gap, "static");
      ContainsIgnoresSpaceTail(KeywordText(k), m.value.gap, "abstract");
      KeywordContains(k, Static);
      KeywordContains(k, Abstract);
    } else {
      assert !OccursAt("", "static", 0) && !OccursAt("", "abstract", 0);
    }
  }

  // ---------------------------------------------------------------- sequences of results

  /** Apply `f` to each element in order; the first failure is the result. */
  function MapAll<T, U>(f: T -> Result<U, Error>, xs: seq<T>): Result<seq<U>, Error>
    decreases |xs|
  {
    if xs == [] then Ok([])
    else match MapAll(f, xs[..|xs| - 1])
      case Err(e) => Err(e)
      case Ok(ys) =>
        match f(xs[|xs| - 1])
        case Err(e) => Err(e)
        case Ok(y) => Ok(ys + [y])
  }

  function Concat(ss: seq<string>): string
    decreases |ss|
  {
    if ss == [] then "" else Concat(ss[..|ss| - 1]) + ss[|ss| - 1]
  }

  /** `MapAll` succeeds exactly when every element succeeds, and then yields one result per
      element, in order. */
  lemma {:induction false} MapAllOk<T, U>(f: T -> Result<U, Error>, xs: seq<T>)
    ensures MapAll(f, xs).Ok? <==> forall i :: 0 <= i < |xs| ==> f(xs[i]).Ok?
    ensures MapAll(f, xs).Ok? ==>
      |MapAll(f, xs).value| == |xs| && forall i :: 0 <= i < |xs| ==> f(xs[i]) == Ok(MapAll(f, xs).value[i])
    decreases |xs|
  {
    if xs != [] {
      var pre := xs[..|xs| - 1];
      MapAllOk(f, pre);
      assert forall i :: 0 <= i < |pre| ==> xs[i] == pre[i];
    }
  }

  lemma MapAllStep<T, U>(f: T -> Result<U, Error>, xs: seq<T>, k: nat, ys: seq<U>, y: U)
    requires k < |xs|
    requires MapAll(f, xs[..k]) == Ok(ys) && f(xs[k]) == Ok(y)
    ensures MapAll(f, xs[..k + 1]) == Ok(ys + [y])
  {
    assert xs[..k + 1][..k] == xs[..k];
  }

  /** The failure `MapAll` reports is the first element's failure. */
  lemma {:induction false} MapAllFirstError<T, U>(f: T -> Result<U, Error>, xs: seq<T>, k: nat)
    requires k < |xs|
    requires MapAll(f, xs[..k]).Ok? && f(xs[k]).Err?
    ensures MapAll(f, xs) == Err(f(xs[k]).error)
    decreases |xs|
  {
    if k == |xs| - 1 {
      assert xs[..|xs| - 1] == xs[..k];
    } else {
      var pre := xs[..|xs| - 1];
      assert pre[..k] == xs[..k] && pre[k] == xs[k];
      MapAllFirstError(f, pre, k);
    }
  }

  // ---------------------------------------------------------------- parameters

  /** `param.strip().rsplit(' ', 1)` unpacked into `param_type, param_name`, formatted as
      `name : type`; a piece without a space does not unpack. */
  function FormatParam(piece: string): Result<string, Error> {
    match RSplitOnce(Strip(piece), ' ')
    case None => Err(ParamUnpack(piece))
    case Some((paramType, paramName)) => Ok(paramName + " : " + paramType)
  }

  /** The text between the parentheses of a method line. */
  function FormatParams(parameters: string): Result<string, Error> {
    if parameters == "" then Ok("")
    else match MapAll(FormatParam, Split(parameters, ','))
      case Err(e) => Err(e)
      case Ok(list) => Ok(Join(list, ", "))
  }

  // ---------------------------------------------------------------- lines and blocks

  function AttributeLine(a: AttributeRecord): string {
    "    " + VisibilitySymbol(a.visibility) + " " + AttributeMarker(a.modifier) + a.name + " : " + a.attrType + "\n"
  }

  function AttributeLines(attrs: seq<AttributeRecord>): string
    decreases |attrs|
  {
    if attrs == [] then "" else AttributeLines(attrs[..|attrs| - 1]) + AttributeLine(attrs[|attrs| - 1])
  }

  function MethodLine(m: MethodRecord): Result<string, Error> {
    match FormatParams(m.parameters)
    case Err(e) => Err(e)
    case Ok(params) =>
      Ok("    " + VisibilitySymbol(m.visibility) + " " + MethodMarker(m.modifier) + m.name
         + "(" + params + ") : " + m.returnType + "\n")
  }

  function Header(e: Entry): string {
    KindText(e.record.kind) + " " + e.name + " {\n"
  }

  function Block(e: Entry): Result<string, Error> {
    match MapAll(MethodLine, e.record.methods)
    case Err(err) => Err(err)
    case Ok(lines) => Ok(Header(e) + AttributeLines(e.record.attributes) + Concat(lines) + "}\n")
  }

  /** The whole PlantUML text, or the exception a parameter list raises. */
  function Render(classes: seq<Entry>): Result<string, Error> {
    match MapAll(Block, classes)
    case Err(e) => Err(e)
    case Ok(blocks) => Ok(Preamble + Concat(blocks) + EndMarker)
  }

  // ---------------------------------------------------------------- the emitter

  /** `generate_plantuml`, as the source runs it: `plantuml_code +=` over the types. The body
      of the source's loop is split into `EmitType` and `FormatParameters` below. */
  method GeneratePlantUml(classes: seq<Entry>) returns (r: Result<string, Error>)
    ensures r == Render(classes)
  {
    var code := Preamble;
    ghost var blocks: seq<string> := [];
    for i := 0 to |classes|
      invariant MapAll(Block, classes[..i]) == Ok(blocks)
      invariant code == Preamble + Concat(blocks)
    {
      var block := EmitType(classes[i]);
      if block.Err? {
        MapAllFirstError(Block, classes, i);
        assert MapAll(Block, classes) == Err(block.error);
        return Err(block.error);
      }
      assert Block(classes[i]) == Ok(block.value);
      MapAllStep(Block, classes, i, blocks, block.value);
      assert (blocks + [block.value])[..|blocks|] == blocks;
      AppendAssoc(Preamble, Concat(blocks), block.value);
      code := code + block.value;
      blocks := blocks + [block.value];
    }
    assert classes[..|classes|] == classes;
    code := code + EndMarker;
    r := Ok(code);
  }

  /** One iteration of the loop over `classes.items()`: the header, the attribute lines,
      the method lines and the closing brace. */
  method EmitType(e: Entry) returns (r: Result<string, Error>)
    ensures r == Block(e)
  {
    var code := KindText(e.record.kind) + " " + e.name + " {\n";
    var attrs := e.record.attributes;
    for j := 0 to |attrs|
      invariant code == Header(e) + AttributeLines(attrs[..j])
    {
      assert attrs[..j + 1][..j] == attrs[..j];
      var a := attrs[j];
      var visibilitySymbol := VisibilitySymbol(a.visibility);
      var modifierSymbol := AttributeMarker(a.modifier);
      var line := "    " + visibilitySymbol + " " + modifierSymbol + a.name + " : " + a.attrType + "\n";
      assert line == AttributeLine(a);
      AppendAssoc(Header(e), AttributeLines(attrs[..j]), line);
      code := code + line;
    }
    assert attrs[..|attrs|] == attrs;
    var methods := e.record.methods;
    ghost var mlines: seq<string> := [];
    for j := 0 to |methods|
      invariant MapAll(MethodLine, methods[..j]) == Ok(mlines)
      invariant code == Header(e) + AttributeLines(attrs) + Concat(mlines)
    {
      var m := methods[j];
      var visibilitySymbol := VisibilitySymbol(m.visibility);
      var modifierSymbol := MethodMarker(m.modifier);
      var formattedParams := FormatParameters(m.parameters);
      if formattedParams.Err? {
        assert MethodLine(m) == Err(formattedParams.error);
        MapAllFirstError(MethodLine, methods, j);
        assert MapAll(MethodLine, methods) == Err(formattedParams.error);
        return Err(formattedParams.error);
      }
      var line := "    " + visibilitySymbol + " " + modifierSymbol + m.name
                  + "(" + formattedParams.value + ") : " + m.returnType + "\n";
      assert MethodLine(m) == Ok(line);
      MapAllStep(MethodLine, methods, j, mlines, line);
      assert (mlines + [line])[..|mlines|] == mlines;
      AppendAssoc(Header(e) + AttributeLines(attrs), Concat(mlines), line);
      code := code + line;
      mlines := mlines + [line];
    }
    assert methods[..|methods|] == methods;
    code := code + "}\n";
    r := Ok(code);
  }

  /** The parameter formatting of one method: `param_list.append` over the pieces of
      `parameters.split(',')`, then `", ".join(param_list)`. */
  method FormatParameters(parameters: string) returns (r: Result<string, Error>)
    ensures r == FormatParams(parameters)
  {
    var paramList: seq<string> := [];
    if parameters != "" {
      var params := Split(parameters, ',');
      for k := 0 to |params|
        invariant MapAll(FormatParam, params[..k]) == Ok(paramList)
      {
        var parts := RSplitOnce(Strip(params[k]), ' ');
        if parts.None? {
          assert FormatParam(params[k]) == Err(ParamUnpack(params[k]));
          MapAllFirstError(FormatParam, params, k);
          assert MapAll(FormatParam, params) == Err(ParamUnpack(params[k]));
          return Err(ParamUnpack(params[k]));
        }
        var (paramType, paramName) := parts.value;
        assert FormatParam(params[k]) == Ok(paramName + " : " + paramType);
        MapAllStep(FormatParam, params, k, paramList, paramName + " : " + paramType);
        paramList := paramList + [paramName + " : " + paramType];
      }
      assert params[..|params|] == params;
    }
    r := Ok(Join(paramList, ", "));
  }

  // ================================================================ properties

  /** A model without types renders as the preamble followed directly by the terminator. */
  lemma RenderEmpty()
    ensures Render([]) == Ok(Preamble + EndMarker)
  {
    assert Preamble + Concat([]) == Preamble;
  }

  /** Rendering fails exactly when some method's parameter list fails to format; otherwise
      the text is the preamble, then one block per type in dictionary order, then
      `@enduml` with no newline after it. */
  lemma RenderFraming(classes: seq<Entry>)
    ensures Render(classes).Ok? <==>
      forall i, j :: 0 <= i < |classes| && 0 <= j < |classes[i].record.methods| ==>
        FormatParams(classes[i].record.methods[j].parameters).Ok?
    ensures Render(classes).Ok? ==>
      var out := Render(classes).value;
      var blocks := MapAll(Block, classes).value;
      && out == Preamble + Concat(blocks) + EndMarker
      && |blocks| == |classes|
      && (forall i :: 0 <= i < |classes| ==> Block(classes[i]) == Ok(blocks[i]))
      && out[..|Preamble|] == Preamble
      && out[|out| - |EndMarker|..] == EndMarker
      && out[|out| - 1] == 'l'
  {
    MapAllOk(Block, classes);
    forall i | 0 <= i < |classes|
      ensures Block(classes[i]).Ok? <==>
        forall j :: 0 <= j < |classes[i].record.methods| ==> FormatParams(classes[i].record.methods[j].parameters).Ok?
    {
      MapAllOk(MethodLine, classes[i].record.methods);
    }
    if Render(classes).Ok? {
      var out := Render(classes).value;
      var pre := Preamble + Concat(MapAll(Block, classes).value);
      assert out == pre + EndMarker;
      assert out[|out| - 1] == EndMarker[6] == 'l';
    }
  }

  /** A type's block: its header `{Type} {Name} {`, then its attribute lines, then one line
      per method in declaration order, then `}`. */
  lemma BlockLayout(e: Entry)
    requires Block(e).Ok?
    ensures
      var lines := MapAll(MethodLine, e.record.methods).value;
      && Block(e).value == Header(e) + AttributeLines(e.record.attributes) + Concat(lines) + "}\n"
      && |lines| == |e.record.methods|
      && forall j :: 0 <= j < |lines| ==> MethodLine(e.record.methods[j]) == Ok(lines[j])
  {
    MapAllOk(MethodLine, e.record.methods);
  }

  // ---------------------------------------------------------------- one line per member

  function CountNewlines(s: string): nat {
    multiset(s)['\n']
  }

  /** A text ending in its only line break is one line. */
  lemma OneLine(body: string)
    requires '\n' !in body
    ensures CountNewlines(body + "\n") == 1
  {
    assert multiset(body + "\n") == multiset(body) + multiset{'\n'};
  }

  /** No character outside the text or the separator appears in a split piece. */
  lemma {:induction false} SplitKeepsOut(s: string, sep: char, c: char)
    requires c !in s
    ensures forall k :: 0 <= k < |Split(s, sep)| ==> c !in Split(s, sep)[k]
    decreases |s|
  {
    if |s| > 0 {
      assert s[0] in s;
      assert forall x :: x in s[1..] ==> x in s;
      SplitKeepsOut(s[1..], sep, c);
    }
  }

  lemma {:induction false} JoinKeepsOut(parts: seq<string>, sep: string, c: char)
    requires c !in sep && forall k :: 0 <= k < |parts| ==> c !in parts[k]
    ensures c !in Join(parts, sep)
    decreases |parts|
  {
    if |parts| > 1 {
      JoinKeepsOut(parts[1..], sep, c);
    }
  }

  /** Formatting a parameter list adds no line break. */
  lemma FormatParamsOneLine(parameters: string)
    requires '\n' !in parameters && FormatParams(parameters).Ok?
    ensures '\n' !in FormatParams(parameters).value
  {
    if parameters != "" {
      var pieces := Split(parameters, ',');
      SplitKeepsOut(parameters, ',', '\n');
      MapAllOk(FormatParam, pieces);
      var list := MapAll(FormatParam, pieces).value;
      forall k | 0 <= k < |list|
        ensures '\n' !in list[k]
      {
        var t := Strip(pieces[k]);
        assert t == StripRight(StripLeft(pieces[k]));
        assert forall x :: x in StripLeft(pieces[k]) ==> x in pieces[k];
        assert forall x :: x in t ==> x in StripLeft(pieces[k]);
        var (a, b) := RSplitOnce(t, ' ').value;
        assert forall x :: x in a || x in b ==> x in t;
      }
      JoinKeepsOut(list, ", ", '\n');
    }
  }

  predicate FieldsOneLine(e: Entry) {
    && '\n' !in e.name
    && (forall a :: a in e.record.attributes ==> '\n' !in a.name && '\n' !in a.attrType)
    && (forall m :: m in e.record.methods ==>
          '\n' !in m.name && '\n' !in m.returnType && '\n' !in m.parameters)
  }

  lemma AttributeLineCount(a: AttributeRecord)
    requires '\n' !in a.name && '\n' !in a.attrType
    ensures CountNewlines(AttributeLine(a)) == 1
  {
    var body := "    " + VisibilitySymbol(a.visibility) + " " + AttributeMarker(a.modifier) + a.name + " : " + a.attrType;
    assert '\n' !in body;
    OneLine(body);
  }

  lemma {:induction false} AttributeLinesCount(attrs: seq<AttributeRecord>)
    requires forall a :: a in attrs ==> '\n' !in a.name && '\n' !in a.attrType
    ensures CountNewlines(AttributeLines(attrs)) == |attrs|
    decreases |attrs|
  {
    if attrs != [] {
      var a := attrs[|attrs| - 1];
      assert a in attrs;
      AttributeLinesCount(attrs[..|attrs| - 1]);
      AttributeLineCount(a);
      assert multiset(AttributeLines(attrs)) == multiset(AttributeLines(attrs[..|attrs| - 1])) + multiset(AttributeLine(a));
    }
  }

  lemma MethodLineCount(m: MethodRecord)
    requires '\n' !in m.name && '\n' !in m.returnType && '\n' !in m.parameters
    requires MethodLine(m).Ok?
    ensures CountNewlines(MethodLine(m).value) == 1
  {
    FormatParamsOneLine(m.parameters);
    var body := "    " + VisibilitySymbol(m.visibility) + " " + MethodMarker(m.modifier) + m.name
                + "(" + FormatParams(m.parameters).value + ") : " + m.returnType;
    assert '\n' !in body;
    OneLine(body);
  }

  lemma {:induction false} MethodLinesCount(methods: seq<MethodRecord>, lines: seq<string>)
    requires forall m :: m in methods ==> '\n' !in m.name && '\n' !in m.returnType && '\n' !in m.parameters
    requires |lines| == |methods| && forall j :: 0 <= j < |lines| ==> MethodLine(methods[j]) == Ok(lines[j])
    ensures CountNewlines(Concat(lines)) == |methods|
    decreases |lines|
  {
    if lines != [] {
      var n := |lines| - 1;
      assert methods[n] in methods;
      MethodLinesCount(methods[..n], lines[..n]);
      MethodLineCount(methods[n]);
      assert multiset(Concat(lines)) == multiset(Concat(lines[..n])) + multiset(lines[n]);
    }
  }

  /** When no captured text holds a line break, a type's block is exactly
      `2 + |attributes| + |methods|` lines: header, one per attribute, one per method, `}`. */
  lemma BlockLineCount(e: Entry)
    requires Block(e).Ok? && FieldsOneLine(e)
    ensures CountNewlines(Block(e).value) == 2 + |e.record.attributes| + |e.record.methods|
  {
    BlockLayout(e);
    var lines := MapAll(MethodLine, e.record.methods).value;
    HeaderLineCount(e);
    AttributeLinesCount(e.record.attributes);
    MethodLinesCount(e.record.methods, lines);
    CountBlockParts(Header(e), AttributeLines(e.record.attributes), Concat(lines));
  }

  lemma CountBlockParts(hd: string, attrs: string, ms: string)
    ensures CountNewlines(hd + attrs + ms + "}\n") == CountNewlines(hd) + CountNewlines(attrs) + CountNewlines(ms) + 1
  {
    OneLine("}");
    CountAppend(hd, attrs);
    CountAppend(hd + attrs, ms);
    CountAppend(hd + attrs + ms, "}\n");
  }

  lemma HeaderLineCount(e: Entry)
    requires '\n' !in e.name
    ensures CountNewlines(Header(e)) == 1
  {
    var h := KindText(e.record.kind) + " " + e.name + " {";
    assert '\n' !in KindText(e.record.kind);
    assert Header(e) == h + "\n";
    OneLine(h);
  }

  lemma CountAppend(a: string, b: string)
    ensures CountNewlines(a + b) == CountNewlines(a) + CountNewlines(b)
  {
    assert multiset(a + b) == multiset(a) + multiset(b);
  }

  // ---------------------------------------------------------------- parameter lists

  /** An empty parameter string renders as `()`. */
  lemma FormatParamsEmpty()
    ensures FormatParams("") == Ok("")
  {
  }

  /** A piece fails to unpack exactly when, stripped, it holds no space. */
  lemma FormatParamErr(piece: string)
    ensures FormatParam(piece).Err? <==> ' ' !in Strip(piece)
    ensures FormatParam(piece).Err? ==> FormatParam(piece).error == ParamUnpack(piece)
  {
  }

  /** A parameter list formats exactly when each of its comma-separated pieces, stripped,
      holds a space; otherwise the piece reported is one that holds none (`int`, or the
      blank piece of `foo( )`). */
  lemma FormatParamsFailure(parameters: string, pieces: seq<string>)
    requires parameters != "" && pieces == Split(parameters, ',')
    ensures FormatParams(parameters).Ok? <==> forall k :: 0 <= k < |pieces| ==> ' ' in Strip(pieces[k])
    ensures FormatParams(parameters).Err? ==>
      exists k :: 0 <= k < |pieces| && ' ' !in Strip(pieces[k]) && FormatParams(parameters).error == ParamUnpack(pieces[k])
  {
    var m := MapAll(FormatParam, pieces);
    assert FormatParams(parameters) == if m.Err? then Err(m.error) else Ok(Join(m.value, ", "));
    PiecesFailure(pieces);
  }

  /** Formatting a list of pieces succeeds exactly when each piece holds a space once
      stripped, and otherwise fails at a piece that holds none. */
  lemma PiecesFailure(pieces: seq<string>)
    ensures MapAll(FormatParam, pieces).Ok? <==> forall k :: 0 <= k < |pieces| ==> ' ' in Strip(pieces[k])
    ensures MapAll(FormatParam, pieces).Err? ==>
      exists k :: 0 <= k < |pieces| && ' ' !in Strip(pieces[k]) && MapAll(FormatParam, pieces).error == ParamUnpack(pieces[k])
  {
    MapAllOk(FormatParam, pieces);
    forall k | 0 <= k < |pieces| ensures FormatParam(pieces[k]).Ok? <==> ' ' in Strip(pieces[k]) {
      FormatParamErr(pieces[k]);
    }
    if MapAll(FormatParam, pieces).Err? {
      FirstFailureExists(FormatParam, pieces);
      var k :| 0 <= k < |pieces| && FormatParam(pieces[k]).Err? && MapAll(FormatParam, pieces[..k]).Ok?;
      MapAllFirstError(FormatParam, pieces, k);
      FormatParamErr(pieces[k]);
    }
  }

  /** The index of the first element on which `f` fails. */
  lemma {:induction false} FirstFailureExists<T, U>(f: T -> Result<U, Error>, xs: seq<T>)
    requires MapAll(f, xs).Err?
    ensures exists k :: 0 <= k < |xs| && f(xs[k]).Err? && MapAll(f, xs[..k]).Ok?
    decreases |xs|
  {
    var pre := xs[..|xs| - 1];
    if MapAll(f, pre).Err? {
      FirstFailureExists(f, pre);
      var k :| 0 <= k < |pre| && f(pre[k]).Err? && MapAll(f, pre[..k]).Ok?;
      assert pre[..k] == xs[..k];
    } else {
      assert xs[..|xs| - 1] == pre;
    }
  }

  /** A well-formed declared parameter `type name`: the type neither starts nor ends with
      whitespace, the name is one word, and neither holds a comma. */
  predicate DeclaredParam(p: (string, string)) {
    var (t, n) := p;
    && t != [] && !IsSpace(t[0]) && !IsSpace(t[|t| - 1]) && ',' !in t
    && n != [] && ',' !in n && forall i :: 0 <= i < |n| ==> !IsSpace(n[i])
  }

  function Declared(ps: seq<(string, string)>): seq<string> {
    seq(|ps|, k requires 0 <= k < |ps| => ps[k].0 + " " + ps[k].1)
  }

  function Reformatted(ps: seq<(string, string)>): seq<string> {
    seq(|ps|, k requires 0 <= k < |ps| => ps[k].1 + " : " + ps[k].0)
  }

  function Padded(ds: seq<string>): seq<string> {
    seq(|ds|, k requires 0 <= k < |ds| => " " + ds[k])
  }

  lemma {:induction false} JoinPadded(ds: seq<string>)
    requires |ds| >= 1
    ensures Join(Padded(ds), ",") == " " + Join(ds, ", ")
    decreases |ds|
  {
    if |ds| > 1 {
      JoinPadded(ds[1..]);
      assert Padded(ds)[1..] == Padded(ds[1..]);
    }
  }

  lemma FormatDeclaredPiece(pad: string, t: string, n: string)
    requires AllSpace(pad) && DeclaredParam((t, n))
    ensures FormatParam(pad + (t + " " + n)) == Ok(n + " : " + t)
  {
    var d := t + " " + n;
    assert Strip(pad + d) == d by {
      assert d[0] == t[0] && d[|d| - 1] == n[|n| - 1];
      assert pad + d + "" == pad + d;
      StripOfPadded(pad, d, "");
    }
    assert RSplitOnce(d, ' ') == Some((t, n)) by {
      assert ' ' !in n by { assert forall i :: 0 <= i < |n| ==> n[i] != ' ' by { assert IsSpace(' '); } }
      assert d == t + [' '] + n;
      RSplitOnceOf(t, ' ', n);
    }
  }

  /** Joining with `", "` is joining with `","` after putting a space before every piece
      but the first. */
  lemma CommaSpaceJoin(ds: seq<string>)
    requires |ds| >= 1
    ensures Join([ds[0]] + Padded(ds[1..]), ",") == Join(ds, ", ")
  {
    var pieces := [ds[0]] + Padded(ds[1..]);
    if |ds| > 1 {
      var rest := Join(ds[1..], ", ");
      JoinPadded(ds[1..]);
      assert pieces[1..] == Padded(ds[1..]);
      assert Join(pieces, ",") == ds[0] + "," + (" " + rest);
      assert Join(ds, ", ") == ds[0] + ", " + rest;
      assert "," + " " == ", ";
      calc {
        ds[0] + "," + (" " + rest);
        { AppendAssoc(ds[0] + ",", " ", rest); }
        ds[0] + "," + " " + rest;
        { AppendAssoc(ds[0], ",", " "); }
        ds[0] + ", " + rest;
      }
    } else {
      assert pieces == [ds[0]];
    }
  }

  function DeclaredPieces(ps: seq<(string, string)>): seq<string>
    requires |ps| >= 1
  {
    var ds := Declared(ps);
    [ds[0]] + Padded(ds[1..])
  }

  lemma DeclaredPieceAt(ps: seq<(string, string)>, k: nat)
    requires k < |ps| && DeclaredParam(ps[k])
    ensures ',' !in DeclaredPieces(ps)[k]
    ensures FormatParam(DeclaredPieces(ps)[k]) == Ok(Reformatted(ps)[k])
  {
    var t, n := ps[k].0, ps[k].1;
    var pad := if k == 0 then "" else " ";
    var d := t + " " + n;
    var ds := Declared(ps);
    assert ds[k] == d;
    if k == 0 {
      assert DeclaredPieces(ps)[k] == d;
      assert pad + d == d;
    } else {
      assert DeclaredPieces(ps)[k] == Padded(ds[1..])[k - 1];
      assert DeclaredPieces(ps)[k] == pad + d;
    }
    assert ',' !in d by {
      assert ',' !in t && ',' !in n;
      assert d == t + [' '] + n;
    }
    FormatDeclaredPiece(pad, t, n);
  }

  lemma DeclaredPiecesFormat(ps: seq<(string, string)>)
    requires |ps| >= 1 && forall k :: 0 <= k < |ps| ==> DeclaredParam(ps[k])
    ensures MapAll(FormatParam, DeclaredPieces(ps)) == Ok(Reformatted(ps))
    ensures forall k :: 0 <= k < |ps| ==> ',' !in DeclaredPieces(ps)[k]
  {
    var pieces := DeclaredPieces(ps);
    forall k | 0 <= k < |pieces|
      ensures ',' !in pieces[k] && FormatParam(pieces[k]) == Ok(Reformatted(ps)[k])
    {
      DeclaredPieceAt(ps, k);
    }
    MapAllOk(FormatParam, pieces);
    var v := MapAll(FormatParam, pieces).value;
    assert v == Reformatted(ps);
  }

  /** The round trip the emitter is built for: a list written `T1 n1, T2 n2, ...` renders
      as `n1 : T1, n2 : T2, ...`. */
  lemma FormatParamsOfDeclared(ps: seq<(string, string)>)
    requires |ps| >= 1 && forall k :: 0 <= k < |ps| ==> DeclaredParam(ps[k])
    ensures FormatParams(Join(Declared(ps), ", ")) == Ok(Join(Reformatted(ps), ", "))
  {
    var ds := Declared(ps);
    var pieces := DeclaredPieces(ps);
    CommaSpaceJoin(ds);
    DeclaredPiecesFormat(ps);
    SplitJoin(pieces, ',');
    var text := Join(ds, ", ");
    assert Split(text, ',') == pieces;
    assert text != "" by {
      if |ds| == 1 {
        assert text == ds[0];
      } else {
        assert text == ds[0] + ", " + Join(ds[1..], ", ");
      }
    }
  }

  /** A single word is a parameter without a type: the unpacking fails. */
  lemma FormatParamsOneWord()
    ensures FormatParams("int") == Err(ParamUnpack("int"))
  {
    assert Split("int", ',') == ["int"] by { SplitWithoutSep("int", ','); }
    assert FormatParam("int") == Err(ParamUnpack("int")) by {
      assert Strip("int") == "int" by {
        StripOfPadded("", "int", "");
        assert "" + "int" + "" == "int";
      }
      assert ' ' !in "int";
      FormatParamErr("int");
    }
    assert MapAll(FormatParam, ["int"]) == Err(ParamUnpack("int")) by { assert ["int"][..0] == []; }
  }

  /** Blank parameters strip to nothing, which does not unpack either. */
  lemma FormatParamsBlank()
    ensures FormatParams(" ") == Err(ParamUnpack(" "))
  {
    SplitWithoutSep(" ", ',');
    assert StripLeft(" ") == StripLeft("");
    assert Strip(" ") == "";
  }

  lemma DeclaredExample()
    ensures Join(Declared([("int", "a"), ("String", "b")]), ", ") == "int a, String b"
  {
    var ds := Declared([("int", "a"), ("String", "b")]);
    assert ds[0] == "int a" && ds[1] == "String b";
    assert ds[1..] == ["String b"];
  }

  lemma ReformattedExample()
    ensures Join(Reformatted([("int", "a"), ("String", "b")]), ", ") == "a : int, b : String"
  {
    var rs := Reformatted([("int", "a"), ("String", "b")]);
    assert rs[0] == "a : int" && rs[1] == "b : String";
    assert rs[1..] == ["b : String"];
  }

  /** Two declared parameters: `int a, String b` becomes `a : int, b : String`. */
  lemma FormatParamsTwoDeclared()
    ensures FormatParams("int a, String b") == Ok("a : int, b : String")
  {
    var ps := [("int", "a"), ("String", "b")];
    assert DeclaredParam(ps[0]) && DeclaredParam(ps[1]);
    DeclaredExample();
    ReformattedExample();
    FormatParamsOfDeclared(ps);
  }
}
