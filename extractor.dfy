/**
  `extract_class_info` of UMLClassGenerator.py and of UMLInterfaceGenerator.py, as two
  configurations of one step function over the lines of the input.
 */
module Extractor {
  import opened Wrappers
  import opened Strings
  import opened Model

  /** `ClassMode` skips method bodies with the `in_method` flag; `InterfaceMode` accepts
      `;`-terminated signatures and tries every line as a method and as an attribute. */
  datatype Mode = ClassMode | InterfaceMode

  /** The loop's variables: `classes`, `current_class` and `in_method`. */
  datatype State = State(classes: seq<Entry>, current: Option<string>, inMethod: bool)

  const Init := State([], None, false)

  /** Python's `if current_class:` -- set and not the empty string. */
  predicate HasCurrent(st: State) {
    st.current.Some? && st.current.value != ""
  }

  /** Dictionary keys are unique and `current_class`, once set, is one of them. */
  predicate Valid(st: State) {
    UniqueNames(st.classes) && (st.current.Some? ==> st.current.value in Names(st.classes))
  }

  /** The name a member is stored under: upper-cased exactly when the captured modifier
      text is `'final '`. */
  function StoredName(name: string, m: Option<ModCapture>): string {
    if ModifierText(m) == "final " then Upper(name) else name
  }

  function MethodRecordOf(sig: MethodSig, name: string): MethodRecord {
    MethodRecord(sig.visibility, ModifierText(sig.modifier), sig.returnType, name, sig.parameters)
  }

  function AttributeRecordOf(a: AttrDecl): AttributeRecord {
    AttributeRecord(a.visibility, ModifierText(a.modifier), a.attrType, StoredName(a.name, a.modifier))
  }

  /** The type-declaration part of one iteration: a matching line makes its name current and
      (re)creates its record with empty lists. `in_method` is not touched. */
  function Declare(st: State, line: LineInfo): (r: State)
    requires Valid(st)
    ensures Valid(r) && r.inMethod == st.inMethod
    ensures line.decl.None? ==> r == st
    ensures line.decl.Some? ==>
      var d := line.decl.value;
      && r.current == Some(d.name)
      && Lookup(r.classes, d.name) == Some(TypeRecord(d.kind, [], []))
      && Names(r.classes) == (if d.name in Names(st.classes) then Names(st.classes) else Names(st.classes) + [d.name])
      && forall n :: n != d.name ==> Lookup(r.classes, n) == Lookup(st.classes, n)
  {
    match line.decl
    case None => st
    case Some(d) => State(Put(st.classes, d.name, TypeRecord(d.kind, [], [])), Some(d.name), st.inMethod)
  }

  /** The class file's method pattern ends in `\)\s*{`: class mode sees a signature only when
      it is closed by `{`, and a `;`-terminated one is no match there. */
  function ClassSig(line: LineInfo): Option<MethodSig> {
    if line.sig.Some? && line.sig.value.terminator == Brace then line.sig else None
  }

  /** The member part of one iteration in class mode. */
  function ClassMembers(st: State, line: LineInfo): (r: State)
    requires Valid(st) && HasCurrent(st)
    ensures Valid(r) && r.current == st.current && Names(r.classes) == Names(st.classes)
  {
    var cur := st.current.value;
    var inBody := if line.loneCloseBrace then false else st.inMethod;
    match ClassSig(line)
    case Some(sig) =>
      if sig.name == cur then st.(inMethod := inBody)   // constructor: `continue`
      else
        var cs := if inBody then st.classes
                  else AddMethod(st.classes, cur, MethodRecordOf(sig, StoredName(sig.name, sig.modifier)));
        State(cs, st.current, true)                     // attributes are not tried
    case None =>
      if !inBody && line.attr.Some? then
        State(AddAttribute(st.classes, cur, AttributeRecordOf(line.attr.value)), st.current, inBody)
      else st.(inMethod := inBody)
  }

  /** The member part of one iteration in interface mode. */
  function InterfaceMembers(st: State, line: LineInfo): (r: Result<State, Error>)
    requires Valid(st) && HasCurrent(st)
    ensures r.Ok? ==> Valid(r.value) && r.value.current == st.current && r.value.inMethod == st.inMethod
    ensures r.Ok? ==> Names(r.value.classes) == Names(st.classes)
  {
    var cur := st.current.value;
    if line.sig.Some? && StoredName(line.sig.value.name, line.sig.value.modifier) == cur then
      Ok(st)                                            // constructor: `continue`
    else
      var cs := match line.sig
        case None => st.classes
        case Some(sig) => AddMethod(st.classes, cur, MethodRecordOf(sig, StoredName(sig.name, sig.modifier)));
      match line.attr
      case None => Ok(st.(classes := cs))
      case Some(a) =>
        if ModifierText(a.modifier) == "final " then Err(MatchHasNoUpper(a.name))
        else Ok(st.(classes := AddAttribute(cs, cur, AttributeRecordOf(a))))
  }

  /** One iteration of the `for line in lines` loop. */
  function Step(mode: Mode, st: State, line: LineInfo): (r: Result<State, Error>)
    requires Valid(st)
    ensures r.Ok? ==> Valid(r.value)
  {
    var d := Declare(st, line);
    if !HasCurrent(d) then Ok(d)
    else match mode
      case ClassMode => Ok(ClassMembers(d, line))
      case InterfaceMode => InterfaceMembers(d, line)
  }

  /** The loop from state `st` over the remaining lines; the first exception stops it. */
  function RunFrom(mode: Mode, st: State, lines: seq<LineInfo>): (r: Result<State, Error>)
    requires Valid(st)
    ensures r.Ok? ==> Valid(r.value)
    decreases |lines|
  {
    if lines == [] then Ok(st)
    else match Step(mode, st, lines[0])
      case Err(e) => Err(e)
      case Ok(st') => RunFrom(mode, st', lines[1..])
  }

  /** `extract_class_info`: the dictionary the loop leaves behind, or the exception. */
  function Extract(mode: Mode, lines: seq<LineInfo>): Result<seq<Entry>, Error> {
    match RunFrom(mode, Init, lines)
    case Err(e) => Err(e)
    case Ok(st) => Ok(st.classes)
  }

  /** `extract_class_info`, as the source runs it: one pass that updates `classes`,
      `current_class` and `in_method` line by line. */
  method ExtractClassInfo(mode: Mode, lines: seq<LineInfo>) returns (r: Result<seq<Entry>, Error>)
    ensures r == Extract(mode, lines)
  {
    var classes: seq<Entry> := [];
    var current: Option<string> := None;
    var inMethod := false;
    for i := 0 to |lines|
      invariant Valid(State(classes, current, inMethod))
      invariant RunFrom(mode, State(classes, current, inMethod), lines[i..]) == RunFrom(mode, Init, lines)
    {
      ghost var before := State(classes, current, inMethod);
      assert lines[i..][0] == lines[i] && lines[i..][1..] == lines[i + 1..];
      var line := lines[i];
      if line.decl.Some? {
        current := Some(line.decl.value.name);
        classes := Put(classes, line.decl.value.name, TypeRecord(line.decl.value.kind, [], []));
      }
      if current.Some? && current.value != "" {
        var cur := current.value;
        if mode == ClassMode {
          if line.loneCloseBrace {
            inMethod := false;
          }
          var methodMatch := ClassSig(line);
          if methodMatch.Some? {
            var sig := methodMatch.value;
            if sig.name == cur {
              continue;
            }
            if !inMethod {
              classes := AddMethod(classes, cur, MethodRecordOf(sig, StoredName(sig.name, sig.modifier)));
            }
            inMethod := true;
          }
          if !inMethod && line.attr.Some? {
            classes := AddAttribute(classes, cur, AttributeRecordOf(line.attr.value));
          }
        } else {
          if line.sig.Some? {
            var sig := line.sig.value;
            var name := StoredName(sig.name, sig.modifier);
            if name == cur {
              continue;
            }
            classes := AddMethod(classes, cur, MethodRecordOf(sig, name));
          }
          if line.attr.Some? {
            var a := line.attr.value;
            if ModifierText(a.modifier) == "final " {
              return Err(MatchHasNoUpper(a.name));
            }
            classes := AddAttribute(classes, cur, AttributeRecordOf(a));
          }
        }
      }
    }
    r := Ok(classes);
  }

  // ================================================================ properties of one step

  /** Only the exact text `final ` -- the keyword and one space -- upper-cases a name;
      `final` followed by a tab or by two spaces does not. */
  lemma FinalTextExact(m: Option<ModCapture>)
    ensures ModifierText(m) == "final " <==> m.Some? && m.value.keyword == Final && m.value.gap == " "
  {
    if m.Some? {
      var t := ModifierText(m);
      assert t[0] == KeywordText(m.value.keyword)[0];
      if m.value.keyword == Final && t == "final " {
        assert m.value.gap == t[5..];
      }
    }
  }

  /** Class mode: a line whose stripped text is `}` clears `in_method` and adds nothing. */
  lemma ClassLoneBrace(st: State, line: LineInfo)
    requires Valid(st)
    requires line.loneCloseBrace && line.decl.None? && line.sig.None? && line.attr.None?
    ensures Step(ClassMode, st, line) == Ok(if HasCurrent(st) then st.(inMethod := false) else st)
  {
  }

  /** Class mode: a method named like the current type records nothing; because of the
      `continue` it leaves `in_method` as the brace check left it and is not tried as an
      attribute. The comparison uses the name as written, before any upper-casing. */
  lemma ClassConstructorSkipped(st: State, line: LineInfo)
    requires Valid(st) && line.sig.Some? && line.sig.value.terminator == Brace
    requires HasCurrent(Declare(st, line)) && line.sig.value.name == Declare(st, line).current.value
    ensures Step(ClassMode, st, line) == Ok(Declare(st, line).(inMethod := !line.loneCloseBrace && st.inMethod))
  {
  }

  /** Class mode: any other signature closed by `{` is appended only outside a body, always
      opens a body, and its line adds no attribute. */
  lemma ClassSignatureLine(st: State, line: LineInfo)
    requires Valid(st) && line.sig.Some? && line.sig.value.terminator == Brace
    requires HasCurrent(Declare(st, line)) && line.sig.value.name != Declare(st, line).current.value
    ensures Step(ClassMode, st, line).Ok?
    ensures
      var d := Declare(st, line);
      var cur := d.current.value;
      var sig := line.sig.value;
      var inBody := !line.loneCloseBrace && st.inMethod;
      var s' := Step(ClassMode, st, line).value;
      var t, t' := Lookup(d.classes, cur).value, Lookup(s'.classes, cur).value;
      && s'.inMethod
      && s'.current == d.current
      && Names(s'.classes) == Names(d.classes)
      && t'.kind == t.kind
      && t'.attributes == t.attributes
      && t'.methods == t.methods + (if inBody then [] else [MethodRecordOf(sig, StoredName(sig.name, sig.modifier))])
      && forall n :: n != cur ==> Lookup(s'.classes, n) == Lookup(d.classes, n)
  {
  }

  /** Class mode: a line without a signature closed by `{` -- in particular an abstract
      `void f();` -- adds no method, leaves `in_method` as the brace test left it, and adds
      its attribute only outside a body. */
  lemma ClassPlainLine(st: State, line: LineInfo)
    requires Valid(st) && (line.sig.None? || line.sig.value.terminator == Semicolon)
    requires HasCurrent(Declare(st, line))
    ensures Step(ClassMode, st, line).Ok?
    ensures
      var d := Declare(st, line);
      var cur := d.current.value;
      var inBody := !line.loneCloseBrace && st.inMethod;
      var s' := Step(ClassMode, st, line).value;
      var t, t' := Lookup(d.classes, cur).value, Lookup(s'.classes, cur).value;
      && s'.inMethod == inBody
      && s'.current == d.current
      && Names(s'.classes) == Names(d.classes)
      && t'.kind == t.kind
      && t'.methods == t.methods
      && t'.attributes == t.attributes + (if !inBody && line.attr.Some? then [AttributeRecordOf(line.attr.value)] else [])
      && forall n :: n != cur ==> Lookup(s'.classes, n) == Lookup(d.classes, n)
  {
  }

  /** Interface mode: a method whose stored name -- upper-cased first when the modifier is
      `final ` -- equals the current type records nothing, and the `continue` skips the
      attribute test, so even a `final ` attribute on that line raises nothing. */
  lemma InterfaceConstructorSkipped(st: State, line: LineInfo)
    requires Valid(st) && line.sig.Some?
    requires HasCurrent(Declare(st, line))
    requires StoredName(line.sig.value.name, line.sig.value.modifier) == Declare(st, line).current.value
    ensures Step(InterfaceMode, st, line) == Ok(Declare(st, line))
  {
  }

  /** Interface mode: any other line is tried as a method (terminated by `{` or `;`) and
      then as an attribute, so one line can add both; a `final ` attribute raises. */
  lemma InterfaceMemberLine(st: State, line: LineInfo)
    requires Valid(st)
    requires HasCurrent(Declare(st, line))
    requires !(line.sig.Some? && StoredName(line.sig.value.name, line.sig.value.modifier) == Declare(st, line).current.value)
    ensures line.attr.Some? && ModifierText(line.attr.value.modifier) == "final " ==>
      Step(InterfaceMode, st, line) == Err(MatchHasNoUpper(line.attr.value.name))
    ensures !(line.attr.Some? && ModifierText(line.attr.value.modifier) == "final ") ==>
      var d := Declare(st, line);
      var cur := d.current.value;
      && Step(InterfaceMode, st, line).Ok?
      && var s' := Step(InterfaceMode, st, line).value;
      && var t, t' := Lookup(d.classes, cur).value, Lookup(s'.classes, cur).value;
      && s'.inMethod == st.inMethod
      && s'.current == d.current
      && Names(s'.classes) == Names(d.classes)
      && t'.kind == t.kind
      && t'.methods == t.methods + (match line.sig
                                    case None => []
                                    case Some(sig) => [MethodRecordOf(sig, StoredName(sig.name, sig.modifier))])
      && t'.attributes == t.attributes + (match line.attr
                                          case None => []
                                          case Some(a) => [AttributeRecordOf(a)])
      && forall n :: n != cur ==> Lookup(s'.classes, n) == Lookup(d.classes, n)
  {
  }

  /** Interface mode never reads `in_method`: the flag neither changes nor influences a step. */
  lemma InterfaceIgnoresBodyFlag(st: State, line: LineInfo, b: bool)
    requires Valid(st)
    ensures Step(InterfaceMode, st.(inMethod := b), line) ==
      match Step(InterfaceMode, st, line)
      case Ok(s') => Ok(s'.(inMethod := b))
      case Err(e) => Err(e)
    ensures Step(InterfaceMode, st, line).Ok? ==> Step(InterfaceMode, st, line).value.inMethod == st.inMethod
  {
    var d, db := Declare(st, line), Declare(st.(inMethod := b), line);
    assert db == d.(inMethod := b);
    if HasCurrent(d) {
      var cur := d.current.value;
      if !(line.sig.Some? && StoredName(line.sig.value.name, line.sig.value.modifier) == cur) {
        var cs := match line.sig
          case None => d.classes
          case Some(sig) => AddMethod(d.classes, cur, MethodRecordOf(sig, StoredName(sig.name, sig.modifier)));
        if line.attr.Some? && ModifierText(line.attr.value.modifier) != "final " {
          var cs' := AddAttribute(cs, cur, AttributeRecordOf(line.attr.value));
          assert InterfaceMembers(d, line) == Ok(d.(classes := cs'));
          assert InterfaceMembers(db, line) == Ok(db.(classes := cs'));
        } else if line.attr.None? {
          assert InterfaceMembers(d, line) == Ok(d.(classes := cs));
          assert InterfaceMembers(db, line) == Ok(db.(classes := cs));
        }
      }
    }
  }

  /** Either mode: `current_class` follows the declarations and is never reset, and a step
      changes no record other than the current type's. A line seen while no type is current
      changes nothing at all. */
  lemma StepTouchesOnlyCurrent(mode: Mode, st: State, line: LineInfo)
    requires Valid(st)
    requires Step(mode, st, line).Ok?
    ensures Step(mode, st, line).value.current == if line.decl.Some? then Some(line.decl.value.name) else st.current
    ensures !HasCurrent(Declare(st, line)) ==> Step(mode, st, line).value == Declare(st, line)
    ensures forall n :: Step(mode, st, line).value.current != Some(n) ==>
      Lookup(Step(mode, st, line).value.classes, n) == Lookup(st.classes, n)
  {
    var d := Declare(st, line);
    if HasCurrent(d) {
      var cur := d.current.value;
      match mode {
        case ClassMode =>
          if ClassSig(line).Some? && line.sig.value.name == cur {
            ClassConstructorSkipped(st, line);
          } else if ClassSig(line).Some? {
            ClassSignatureLine(st, line);
          } else {
            ClassPlainLine(st, line);
          }
        case InterfaceMode =>
          if line.sig.Some? && StoredName(line.sig.value.name, line.sig.value.modifier) == cur {
            InterfaceConstructorSkipped(st, line);
          } else {
            InterfaceMemberLine(st, line);
          }
      }
    }
  }

  // ================================================================ properties of a whole run

  /** Lines before the first type declaration contribute nothing. */
  lemma {:induction false} UndeclaredPrefix(mode: Mode, pre: seq<LineInfo>, rest: seq<LineInfo>)
    requires forall k :: 0 <= k < |pre| ==> pre[k].decl.None?
    ensures RunFrom(mode, Init, pre + rest) == RunFrom(mode, Init, rest)
  {
    if pre != [] {
      assert (pre + rest)[0] == pre[0];
      assert (pre + rest)[1..] == pre[1..] + rest;
      assert Step(mode, Init, pre[0]) == Ok(Init);
      assert RunFrom(mode, Init, pre + rest) == RunFrom(mode, Init, pre[1..] + rest);
      UndeclaredPrefix(mode, pre[1..], rest);
    } else {
      assert pre + rest == rest;
    }
  }

  /** Input without any type declaration yields the empty dictionary, in both modes. */
  lemma ExtractWithoutDeclarations(mode: Mode, lines: seq<LineInfo>)
    requires forall k :: 0 <= k < |lines| ==> lines[k].decl.None?
    ensures Extract(mode, lines) == Ok([])
  {
    UndeclaredPrefix(mode, lines, []);
    assert lines + [] == lines;
  }

  /** Class mode: once a signature has opened a body, lines that strip to something other
      than `}` and declare no type record nothing -- neither attributes nor further
      signatures (the brace heuristic does not count nested braces). A type declaration in
      the body is still recorded, and `in_method` stays set after it. */
  lemma {:induction false} ClassBodySkipped(st: State, body: seq<LineInfo>)
    requires Valid(st) && HasCurrent(st) && st.inMethod
    requires forall k :: 0 <= k < |body| ==> body[k].decl.None? && !body[k].loneCloseBrace
    ensures RunFrom(ClassMode, st, body) == Ok(st)
  {
    if body != [] {
      assert Step(ClassMode, st, body[0]) == Ok(st);
      ClassBodySkipped(st, body[1..]);
    }
  }

  /** What every stored record satisfies: a `final ` member's name is already upper-case;
      in interface mode no method carries its type's name and no `final ` attribute exists;
      in class mode a method carries its type's name only when upper-casing made it so. */
  ghost predicate RecordInv(mode: Mode, name: string, t: TypeRecord) {
    && (forall m :: m in t.methods && m.modifier == "final " ==> Upper(m.name) == m.name)
    && (forall m :: m in t.methods && m.name == name ==> mode == ClassMode && m.modifier == "final ")
    && (forall a :: a in t.attributes && a.modifier == "final " ==> Upper(a.name) == a.name && mode == ClassMode)
  }

  ghost predicate Inv(mode: Mode, st: State) {
    Valid(st) && forall n :: n in Names(st.classes) ==> RecordInv(mode, n, Lookup(st.classes, n).value)
  }

  /** The current type's record keeps the naming rules through one step. */
  lemma CurrentRecordKept(mode: Mode, st: State, line: LineInfo)
    requires Inv(mode, st) && HasCurrent(Declare(st, line)) && Step(mode, st, line).Ok?
    ensures
      var cur := Declare(st, line).current.value;
      RecordInv(mode, cur, Lookup(Step(mode, st, line).value.classes, cur).value)
  {
    var d := Declare(st, line);
    var cur := d.current.value;
    assert RecordInv(mode, cur, Lookup(d.classes, cur).value);
    if line.sig.Some? {
      UpperIdempotent(line.sig.value.name);
    }
    if line.attr.Some? {
      UpperIdempotent(line.attr.value.name);
    }
    match mode {
      case ClassMode =>
        if ClassSig(line).Some? && line.sig.value.name == cur {
          ClassConstructorSkipped(st, line);
        } else if ClassSig(line).Some? {
          ClassSignatureLine(st, line);
        } else {
          ClassPlainLine(st, line);
        }
      case InterfaceMode =>
        if line.sig.Some? && StoredName(line.sig.value.name, line.sig.value.modifier) == cur {
          InterfaceConstructorSkipped(st, line);
        } else {
          InterfaceMemberLine(st, line);
        }
    }
  }

  lemma StepPreservesInv(mode: Mode, st: State, line: LineInfo)
    requires Inv(mode, st)
    requires Step(mode, st, line).Ok?
    ensures Inv(mode, Step(mode, st, line).value)
  {
    var d := Declare(st, line);
    var s' := Step(mode, st, line).value;
    StepTouchesOnlyCurrent(mode, st, line);
    if HasCurrent(d) {
      CurrentRecordKept(mode, st, line);
    }
    forall n | n in Names(s'.classes)
      ensures RecordInv(mode, n, Lookup(s'.classes, n).value)
    {
      if s'.current != Some(n) {
        assert Lookup(s'.classes, n) == Lookup(st.classes, n);
      } else if !HasCurrent(d) {
        assert s' == d;
      }
    }
  }

  lemma {:induction false} RunPreservesInv(mode: Mode, st: State, lines: seq<LineInfo>)
    requires Inv(mode, st)
    requires RunFrom(mode, st, lines).Ok?
    ensures Inv(mode, RunFrom(mode, st, lines).value)
    decreases |lines|
  {
    if lines != [] {
      StepPreservesInv(mode, st, lines[0]);
      RunPreservesInv(mode, Step(mode, st, lines[0]).value, lines[1..]);
    }
  }

  /** Every dictionary either extractor returns has unique keys and only records that keep
      the naming rules; in interface mode no type lists a method carrying its own name. */
  lemma ExtractInvariant(mode: Mode, lines: seq<LineInfo>)
    requires Extract(mode, lines).Ok?
    ensures UniqueNames(Extract(mode, lines).value)
    ensures forall n :: n in Names(Extract(mode, lines).value) ==>
      RecordInv(mode, n, Lookup(Extract(mode, lines).value, n).value)
  {
    RunPreservesInv(mode, Init, lines);
  }
}
