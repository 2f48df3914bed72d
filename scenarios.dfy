/**
  Worked examples: the per-line recognition results of small inputs, what each extraction
  mode makes of them, and the PlantUML text the emitter produces. Each line's comment shows
  the source line the recognition result stands for.
 */
module Scenarios {
  import opened Wrappers
  import opened Model
  import opened Extractor
  import opened Generator

  // ---------------------------------------------------------------- helpers

  lemma PutSingle(n: string, t: TypeRecord, rec: TypeRecord)
    ensures Put([Entry(n, t)], n, rec) == [Entry(n, rec)]
  {
    assert [Entry(n, t)][1..] == [];
  }

  lemma AddAttributeSingle(n: string, t: TypeRecord, a: AttributeRecord)
    ensures AddAttribute([Entry(n, t)], n, a) == [Entry(n, t.(attributes := t.attributes + [a]))]
    ensures t.attributes == [] ==> AddAttribute([Entry(n, t)], n, a) == [Entry(n, t.(attributes := [a]))]
  {
    assert [] + [a] == [a];
    assert Lookup([Entry(n, t)], n) == Some(t);
    PutSingle(n, t, t.(attributes := t.attributes + [a]));
  }

  lemma AddMethodSingle(n: string, t: TypeRecord, m: MethodRecord)
    ensures AddMethod([Entry(n, t)], n, m) == [Entry(n, t.(methods := t.methods + [m]))]
    ensures t.methods == [] ==> AddMethod([Entry(n, t)], n, m) == [Entry(n, t.(methods := [m]))]
  {
    assert [] + [m] == [m];
    assert Lookup([Entry(n, t)], n) == Some(t);
    PutSingle(n, t, t.(methods := t.methods + [m]));
  }

  /** The state while the single type `n`, with record `t`, is current. */
  function Single(n: string, t: TypeRecord, inMethod: bool): (r: State)
    ensures Valid(r) && r.current == Some(n) && r.inMethod == inMethod
  {
    assert [Entry(n, t)][1..] == [];
    assert Names([Entry(n, t)]) == [n] + Names([]);
    assert UniqueNames([Entry(n, t)]) by { assert UniqueNames([]); }
    State([Entry(n, t)], Some(n), inMethod)
  }

  /** The first declaration line makes its type current, with an empty record. */
  lemma DeclareStep(mode: Mode, k: Kind, n: string)
    requires n != ""
    ensures Step(mode, Init, LineInfo(Some(TypeDecl(k, n)), None, None, false)) ==
      Ok(Single(n, TypeRecord(k, [], []), false))
  {
  }

  /** An attribute line outside a body (and, in interface mode, without `final `) is
      appended to the current type. */
  lemma AttributeStep(mode: Mode, n: string, t: TypeRecord, a: AttrDecl)
    requires n != "" && (mode == InterfaceMode ==> ModifierText(a.modifier) != "final ")
    ensures Step(mode, Single(n, t, false), LineInfo(None, None, Some(a), false)) ==
      Ok(Single(n, t.(attributes := t.attributes + [AttributeRecordOf(a)]), false))
  {
    AddAttributeSingle(n, t, AttributeRecordOf(a));
  }

  /** A signature line that is not a constructor is appended to the current type outside a
      body; in class mode it opens a body. Class mode sees only signatures closed by `{` and
      tests the name as written; interface mode tests the name after upper-casing. */
  lemma SignatureStep(mode: Mode, n: string, t: TypeRecord, sig: MethodSig)
    requires n != "" && (mode == ClassMode ==> sig.terminator == Brace)
    requires (if mode == ClassMode then sig.name else StoredName(sig.name, sig.modifier)) != n
    ensures Step(mode, Single(n, t, false), LineInfo(None, Some(sig), None, false)) ==
      Ok(Single(n, t.(methods := t.methods + [MethodRecordOf(sig, StoredName(sig.name, sig.modifier))]), mode == ClassMode))
  {
    AddMethodSingle(n, t, MethodRecordOf(sig, StoredName(sig.name, sig.modifier)));
  }

  /** A run is the chain of its steps: when each line takes `states[k]` to `states[k + 1]`,
      the whole run ends in the last state. */
  lemma {:induction false} RunOfSteps(mode: Mode, states: seq<State>, lines: seq<LineInfo>)
    requires |states| == |lines| + 1
    requires forall k :: 0 <= k < |states| ==> Valid(states[k])
    requires forall k :: 0 <= k < |lines| ==> Step(mode, states[k], lines[k]) == Ok(states[k + 1])
    ensures RunFrom(mode, states[0], lines) == Ok(states[|lines|])
    decreases |lines|
  {
    if lines != [] {
      RunOfSteps(mode, states[1..], lines[1..]);
    }
  }

  /** Running the loop over two stretches of lines one after the other is running it over
      their concatenation; an exception in the first stretch ends the run. */
  lemma {:induction false} RunAppend(mode: Mode, st: State, a: seq<LineInfo>, b: seq<LineInfo>)
    requires Valid(st)
    ensures RunFrom(mode, st, a + b) ==
      match RunFrom(mode, st, a)
      case Err(e) => Err(e)
      case Ok(st') => RunFrom(mode, st', b)
    decreases |a|
  {
    if a == [] {
      assert a + b == b;
    } else {
      assert (a + b)[0] == a[0] && (a + b)[1..] == a[1..] + b;
      match Step(mode, st, a[0]) {
        case Err(e) =>
        case Ok(st') => RunAppend(mode, st', a[1..], b);
      }
    }
  }

  const NoLine := LineInfo(None, None, None, false)
  const CloseBrace := LineInfo(None, None, None, true)
  const Bar := AttrDecl(Some(Private), None, "int", "bar")
  const Baz := MethodSig(Some(Public), None, "void", "baz", "", Brace)
  const X := AttrDecl(None, None, "int", "x")

  const BarRecord := AttributeRecord(Some(Private), "", "int", "bar")
  const BazRecord := MethodRecord(Some(Public), "", "void", "baz", "")
  const XRecord := AttributeRecord(None, "", "int", "x")

  /** The class `Foo`, one declaration per line: up to the signature of `baz`, ... */
  const FooHead: seq<LineInfo> := [
    NoLine.(decl := Some(TypeDecl(Class, "Foo"))),   // public class Foo {
    NoLine.(attr := Some(Bar)),                      //     private int bar;
    NoLine.(sig := Some(Baz))                        //     public void baz() {
  ]

  /** ... and from the body of `baz` to the end. */
  const FooTail: seq<LineInfo> := [
    NoLine.(attr := Some(X)),                        //         int x;
    CloseBrace,                                      //     }
    CloseBrace                                       // }
  ]

  const FooLines := FooHead + FooTail

  const FooRecord := TypeRecord(Class, [], [])
  const FooT2 := FooRecord.(attributes := [BarRecord])
  const FooT3 := FooT2.(methods := [BazRecord])

  lemma FooHeadRun(mode: Mode)
    ensures RunFrom(mode, Init, FooHead) == Ok(Single("Foo", FooT3, mode == ClassMode))
  {
    DeclareStep(mode, Class, "Foo");
    AttributeStep(mode, "Foo", FooRecord, Bar);
    SignatureStep(mode, "Foo", FooT2, Baz);
    assert AttributeRecordOf(Bar) == BarRecord && [] + [BarRecord] == [BarRecord];
    assert MethodRecordOf(Baz, StoredName("baz", None)) == BazRecord && [] + [BazRecord] == [BazRecord];
    assert FooHead[0] == LineInfo(Some(TypeDecl(Class, "Foo")), None, None, false);
    RunOfSteps(mode, [Init, Single("Foo", FooRecord, false), Single("Foo", FooT2, false),
                      Single("Foo", FooT3, mode == ClassMode)], FooHead);
  }

  /** Class mode keeps `bar` and `baz` and skips the body of `baz`, so `x` is not recorded. */
  lemma FooClassMode()
    ensures Extract(ClassMode, FooLines) == Ok([Entry("Foo", TypeRecord(Class, [BarRecord], [BazRecord]))])
  {
    var inBody, after := Single("Foo", FooT3, true), Single("Foo", FooT3, false);
    FooHeadRun(ClassMode);
    RunAppend(ClassMode, Init, FooHead, FooTail);
    assert Step(ClassMode, inBody, FooTail[0]) == Ok(inBody);
    assert Step(ClassMode, inBody, FooTail[1]) == Ok(after);
    assert Step(ClassMode, after, FooTail[2]) == Ok(after);
    RunOfSteps(ClassMode, [inBody, inBody, after, after], FooTail);
  }

  /** Interface mode has no body suppression: the declaration `x` inside the body of `baz` is
      recorded as an attribute of `Foo`. */
  lemma FooInterfaceMode()
    ensures Extract(InterfaceMode, FooLines) ==
      Ok([Entry("Foo", TypeRecord(Class, [BarRecord, XRecord], [BazRecord]))])
  {
    var t4 := FooT3.(attributes := [BarRecord, XRecord]);
    FooHeadRun(InterfaceMode);
    RunAppend(InterfaceMode, Init, FooHead, FooTail);
    AttributeStep(InterfaceMode, "Foo", FooT3, X);
    assert [BarRecord] + [XRecord] == [BarRecord, XRecord];
    assert Step(InterfaceMode, Single("Foo", t4, false), CloseBrace) == Ok(Single("Foo", t4, false));
    RunOfSteps(InterfaceMode, [Single("Foo", FooT3, false), Single("Foo", t4, false), Single("Foo", t4, false),
                               Single("Foo", t4, false)], FooTail);
  }

  /** The whole class `Foo` on one line: every pattern matches once. In class mode the
      signature sets `in_method` before the attribute test, so `bar` is lost; interface
      mode records both members. */
  lemma FooOneLine()
    ensures
      var line := LineInfo(Some(TypeDecl(Class, "Foo")), Some(Baz), Some(Bar), false);
      && Extract(ClassMode, [line]) == Ok([Entry("Foo", TypeRecord(Class, [], [BazRecord]))])
      && Extract(InterfaceMode, [line]) == Ok([Entry("Foo", TypeRecord(Class, [BarRecord], [BazRecord]))])
  {
    var line := LineInfo(Some(TypeDecl(Class, "Foo")), Some(Baz), Some(Bar), false);
    var t1 := FooRecord;
    var t2 := t1.(methods := [BazRecord]);
    var t3 := t2.(attributes := [BarRecord]);
    var s1 := State([Entry("Foo", t1)], Some("Foo"), false);
    assert Step(ClassMode, Init, line) == Ok(State([Entry("Foo", t2)], Some("Foo"), true)) by {
      AddMethodSingle("Foo", t1, BazRecord);
    }
    RunOfSteps(ClassMode, [Init, State([Entry("Foo", t2)], Some("Foo"), true)], [line]);
    assert Step(InterfaceMode, Init, line) == Ok(s1.(classes := [Entry("Foo", t3)])) by {
      AddMethodSingle("Foo", t1, BazRecord);
      AddAttributeSingle("Foo", t2, BarRecord);
    }
    RunOfSteps(InterfaceMode, [Init, s1.(classes := [Entry("Foo", t3)])], [line]);
  }

  const FooText :=
    "skinparam classAttributeIconSize 0\n@startuml\n"
    + "class Foo {\n"
    + "    - bar : int\n"
    + "    + baz() : void\n"
    + "}\n"
    + "@enduml"

  const BazLine := "    + baz() : void\n"
  const BarLine := "    - bar : int\n"
  const FooEntry := Entry("Foo", TypeRecord(Class, [BarRecord], [BazRecord]))

  /** `public void baz()` renders as `+ baz() : void`: no parameters, no marker. */
  lemma BazRendered()
    ensures MapAll(MethodLine, [BazRecord]) == Ok([BazLine])
  {
    FormatParamsEmpty();
    MethodMarkerOfCapture(None);
    assert VisibilitySymbol(Some(Public)) == "+";
    assert MethodLine(BazRecord) == Ok("    " + "+" + " " + "" + "baz" + "(" + "" + ") : " + "void" + "\n");
    assert "    " + "+" + " " + "" + "baz" + "(" + "" + ") : " + "void" + "\n" == BazLine;
    assert [BazRecord][..0] == [] && [] + [BazLine] == [BazLine];
  }

  /** `private int bar;` renders as `- bar : int`. */
  lemma BarRendered()
    ensures AttributeLines([BarRecord]) == BarLine
  {
    AttributeMarkerOfCapture(None);
    assert VisibilitySymbol(Some(Private)) == "-";
    assert AttributeLine(BarRecord) == "    " + "-" + " " + "" + "bar" + " : " + "int" + "\n";
    assert "    " + "-" + " " + "" + "bar" + " : " + "int" + "\n" == BarLine;
    assert [BarRecord][..0] == [];
  }

  lemma FooBlock()
    ensures Block(FooEntry) == Ok("class Foo {\n" + BarLine + BazLine + "}\n")
  {
    BazRendered();
    BarRendered();
    assert Concat([BazLine]) == BazLine;
    assert Header(FooEntry) == "class" + " " + "Foo" + " {\n" == "class Foo {\n";
  }

  /** The class-mode model of `Foo` renders with `- bar : int` and `+ baz() : void` inside
      `class Foo { ... }`, and nothing for `x`. */
  lemma FooRendered()
    ensures Render([FooEntry]) == Ok(FooText)
  {
    var block := "class Foo {\n" + BarLine + BazLine + "}\n";
    FooBlock();
    assert MapAll(Block, [FooEntry]) == Ok([block]) by {
      assert [FooEntry][..0] == [] && [] + [block] == [block];
    }
    assert Concat([block]) == block;
    FooTextLayout();
  }

  /** The expected text is the preamble, the block of `Foo` and the end marker. */
  lemma FooTextLayout()
    ensures Preamble + ("class Foo {\n" + BarLine + BazLine + "}\n") + EndMarker == FooText
  {
  }

  /** Both stages on the class `Foo`: the text the class-mode pipeline produces. */
  lemma FooPipeline()
    ensures Extract(ClassMode, FooLines).Ok?
    ensures Render(Extract(ClassMode, FooLines).value) == Ok(FooText)
  {
    FooClassMode();
    FooRendered();
  }

  /** `public interface Shape {`, `double area();`, `}`: a signature ending in `;` is a
      method in interface mode. */
  lemma ShapeInterfaceMode()
    ensures
      var lines := [
        NoLine.(decl := Some(TypeDecl(Interface, "Shape"))),
        NoLine.(sig := Some(MethodSig(None, None, "double", "area", "", Semicolon))),
        CloseBrace];
      Extract(InterfaceMode, lines) ==
        Ok([Entry("Shape", TypeRecord(Interface, [], [MethodRecord(None, "", "double", "area", "")]))])
  {
    var lines := [
      NoLine.(decl := Some(TypeDecl(Interface, "Shape"))),
      NoLine.(sig := Some(MethodSig(None, None, "double", "area", "", Semicolon))),
      CloseBrace];
    var area := MethodRecord(None, "", "double", "area", "");
    var t1 := TypeRecord(Interface, [], []);
    var s1 := State([Entry("Shape", t1)], Some("Shape"), false);
    var s2 := s1.(classes := [Entry("Shape", t1.(methods := [area]))]);
    assert Step(InterfaceMode, Init, lines[0]) == Ok(s1);
    assert Step(InterfaceMode, s1, lines[1]) == Ok(s2) by { AddMethodSingle("Shape", t1, area); }
    assert Step(InterfaceMode, s2, lines[2]) == Ok(s2);
    RunOfSteps(InterfaceMode, [Init, s1, s2, s2], lines);
  }

  const FinalGap := Some(ModCapture(Final, " "))

  /** `final void LOCK() {}` in class `Door`: the name is already upper-case and stays
      `LOCK`. */
  lemma DoorLock()
    ensures
      var line := NoLine.(sig := Some(MethodSig(None, FinalGap, "void", "LOCK", "", Brace)));
      Extract(ClassMode, [NoLine.(decl := Some(TypeDecl(Class, "Door"))), line]) ==
        Ok([Entry("Door", TypeRecord(Class, [], [MethodRecord(None, "final ", "void", "LOCK", "")]))])
  {
    var lines := [NoLine.(decl := Some(TypeDecl(Class, "Door"))),
                  NoLine.(sig := Some(MethodSig(None, FinalGap, "void", "LOCK", "", Brace)))];
    var lock := MethodRecord(None, "final ", "void", "LOCK", "");
    var t1 := TypeRecord(Class, [], []);
    var s1 := State([Entry("Door", t1)], Some("Door"), false);
    var s2 := State([Entry("Door", t1.(methods := [lock]))], Some("Door"), true);
    Strings.UpperOfUpperCase("LOCK");
    assert Step(ClassMode, Init, lines[0]) == Ok(s1);
    assert Step(ClassMode, s1, lines[1]) == Ok(s2) by { AddMethodSingle("Door", t1, lock); }
    RunOfSteps(ClassMode, [Init, s1, s2], lines);
  }

  /** `final void Foo() {` inside `Foo`: class mode compares the name as written and elides
      it as a constructor; interface mode upper-cases first and records `FOO`. */
  lemma FinalConstructorName()
    ensures
      var lines := [NoLine.(decl := Some(TypeDecl(Class, "Foo"))),
                    NoLine.(sig := Some(MethodSig(None, FinalGap, "void", "Foo", "", Brace)))];
      && Extract(ClassMode, lines) == Ok([Entry("Foo", TypeRecord(Class, [], []))])
      && Extract(InterfaceMode, lines) ==
           Ok([Entry("Foo", TypeRecord(Class, [], [MethodRecord(None, "final ", "void", "FOO", "")]))])
  {
    var lines := [NoLine.(decl := Some(TypeDecl(Class, "Foo"))),
                  NoLine.(sig := Some(MethodSig(None, FinalGap, "void", "Foo", "", Brace)))];
    var m := MethodRecord(None, "final ", "void", "FOO", "");
    var t1 := TypeRecord(Class, [], []);
    var s1 := State([Entry("Foo", t1)], Some("Foo"), false);
    var s2 := s1.(classes := [Entry("Foo", t1.(methods := [m]))]);
    assert Strings.Upper("Foo") == "FOO";
    assert Step(ClassMode, Init, lines[0]) == Ok(s1);
    assert Step(ClassMode, s1, lines[1]) == Ok(s1);
    RunOfSteps(ClassMode, [Init, s1, s1], lines);
    assert Step(InterfaceMode, Init, lines[0]) == Ok(s1);
    assert Step(InterfaceMode, s1, lines[1]) == Ok(s2) by { AddMethodSingle("Foo", t1, m); }
    RunOfSteps(InterfaceMode, [Init, s1, s2], lines);
  }

  /** `final void foo() {` inside `FOO`: class mode does not elide it and stores `FOO`, a
      method named like its type; interface mode elides it. */
  lemma FinalMethodNamedLikeType()
    ensures
      var lines := [NoLine.(decl := Some(TypeDecl(Class, "FOO"))),
                    NoLine.(sig := Some(MethodSig(None, FinalGap, "void", "foo", "", Brace)))];
      && Extract(ClassMode, lines) ==
           Ok([Entry("FOO", TypeRecord(Class, [], [MethodRecord(None, "final ", "void", "FOO", "")]))])
      && Extract(InterfaceMode, lines) == Ok([Entry("FOO", TypeRecord(Class, [], []))])
  {
    var lines := [NoLine.(decl := Some(TypeDecl(Class, "FOO"))),
                  NoLine.(sig := Some(MethodSig(None, FinalGap, "void", "foo", "", Brace)))];
    var m := MethodRecord(None, "final ", "void", "FOO", "");
    var t1 := TypeRecord(Class, [], []);
    var s1 := State([Entry("FOO", t1)], Some("FOO"), false);
    var s2 := State([Entry("FOO", t1.(methods := [m]))], Some("FOO"), true);
    assert Strings.Upper("foo") == "FOO";
    assert Step(ClassMode, Init, lines[0]) == Ok(s1);
    assert Step(ClassMode, s1, lines[1]) == Ok(s2) by { AddMethodSingle("FOO", t1, m); }
    RunOfSteps(ClassMode, [Init, s1, s2], lines);
    assert Step(InterfaceMode, Init, lines[0]) == Ok(s1);
    assert Step(InterfaceMode, s1, lines[1]) == Ok(s1);
    RunOfSteps(InterfaceMode, [Init, s1, s1], lines);
  }

  /** `final int max = 10;` inside an interface: the interface extractor calls `.upper()` on
      the match object and fails; the class extractor stores `MAX`. */
  lemma FinalAttribute()
    ensures
      var lines := [NoLine.(decl := Some(TypeDecl(Interface, "Limits"))),
                    NoLine.(attr := Some(AttrDecl(None, FinalGap, "int", "max")))];
      && Extract(InterfaceMode, lines) == Err(MatchHasNoUpper("max"))
      && Extract(ClassMode, lines) ==
           Ok([Entry("Limits", TypeRecord(Interface, [AttributeRecord(None, "final ", "int", "MAX")], []))])
  {
    var lines := [NoLine.(decl := Some(TypeDecl(Interface, "Limits"))),
                  NoLine.(attr := Some(AttrDecl(None, FinalGap, "int", "max")))];
    var a := AttributeRecord(None, "final ", "int", "MAX");
    var t1 := TypeRecord(Interface, [], []);
    var s1 := State([Entry("Limits", t1)], Some("Limits"), false);
    var s2 := s1.(classes := [Entry("Limits", t1.(attributes := [a]))]);
    assert Strings.Upper("max") == "MAX";
    assert Step(InterfaceMode, Init, lines[0]) == Ok(s1);
    assert Step(InterfaceMode, s1, lines[1]) == Err(MatchHasNoUpper("max"));
    assert RunFrom(InterfaceMode, s1, lines[1..]) == Err(MatchHasNoUpper("max"));
    assert RunFrom(InterfaceMode, Init, lines) == RunFrom(InterfaceMode, s1, lines[1..]);
    assert Step(ClassMode, Init, lines[0]) == Ok(s1);
    assert Step(ClassMode, s1, lines[1]) == Ok(s2) by { AddAttributeSingle("Limits", t1, a); }
    RunOfSteps(ClassMode, [Init, s1, s2], lines);
  }

  /** An abstract class: `abstract void f();` ends in `;`. */
  const AbstractF := MethodSig(None, Some(ModCapture(Abstract, " ")), "void", "f", "", Semicolon)
  const AbstractLines: seq<LineInfo> := [
    NoLine.(decl := Some(TypeDecl(Class, "A"))),     // abstract class A {
    NoLine.(sig := Some(AbstractF)),                 //     abstract void f();
    NoLine.(attr := Some(X)),                        //     int x;
    CloseBrace                                       // }
  ]
  const FRecord := MethodRecord(None, "abstract ", "void", "f", "")

  /** The class file's method pattern does not accept `;`, so class mode records no method
      for `f` and does not skip the following line: `x` is recorded. */
  lemma AbstractMethodClassMode()
    ensures Extract(ClassMode, AbstractLines) == Ok([Entry("A", TypeRecord(Class, [XRecord], []))])
  {
    var t0 := TypeRecord(Class, [], []);
    var tc := t0.(attributes := [XRecord]);
    assert AbstractLines[0] == LineInfo(Some(TypeDecl(Class, "A")), None, None, false);
    assert AttributeRecordOf(X) == XRecord && [] + [XRecord] == [XRecord];
    DeclareStep(ClassMode, Class, "A");
    assert Step(ClassMode, Single("A", t0, false), AbstractLines[1]) == Ok(Single("A", t0, false));
    AttributeStep(ClassMode, "A", t0, X);
    assert Step(ClassMode, Single("A", tc, false), CloseBrace) == Ok(Single("A", tc, false));
    RunOfSteps(ClassMode, [Init, Single("A", t0, false), Single("A", t0, false), Single("A", tc, false),
                           Single("A", tc, false)], AbstractLines);
  }

  /** Interface mode accepts the `;`-terminated `f` as a method, and records `x` too. */
  lemma AbstractMethodInterfaceMode()
    ensures Extract(InterfaceMode, AbstractLines) ==
      Ok([Entry("A", TypeRecord(Class, [XRecord], [FRecord]))])
  {
    var t0 := TypeRecord(Class, [], []);
    var t1 := t0.(methods := [FRecord]);
    var t2 := t1.(attributes := [XRecord]);
    assert AbstractLines[0] == LineInfo(Some(TypeDecl(Class, "A")), None, None, false);
    assert AttributeRecordOf(X) == XRecord && [] + [XRecord] == [XRecord];
    assert MethodRecordOf(AbstractF, StoredName("f", AbstractF.modifier)) == FRecord && [] + [FRecord] == [FRecord];
    DeclareStep(InterfaceMode, Class, "A");
    SignatureStep(InterfaceMode, "A", t0, AbstractF);
    AttributeStep(InterfaceMode, "A", t1, X);
    assert Step(InterfaceMode, Single("A", t2, false), CloseBrace) == Ok(Single("A", t2, false));
    RunOfSteps(InterfaceMode, [Init, Single("A", t0, false), Single("A", t1, false), Single("A", t2, false),
                               Single("A", t2, false)], AbstractLines);
  }

  /** A constructor does not open a body in class mode: its `continue` comes before
      `in_method = True`, so the declaration `tmp` inside it is recorded as an attribute. */
  lemma ConstructorBodyRead()
    ensures
      var tmp := AttrDecl(None, None, "int", "tmp");
      var lines := [NoLine.(decl := Some(TypeDecl(Class, "P"))),                     // class P {
                    NoLine.(sig := Some(MethodSig(None, None, "public", "P", "", Brace))),
                                                                                    //     public P() {
                    NoLine.(attr := Some(tmp)),                                     //         int tmp = 0;
                    CloseBrace,                                                     //     }
                    CloseBrace];                                                    // }
      Extract(ClassMode, lines) ==
        Ok([Entry("P", TypeRecord(Class, [AttributeRecord(None, "", "int", "tmp")], []))])
  {
    var tmp := AttrDecl(None, None, "int", "tmp");
    var lines := [NoLine.(decl := Some(TypeDecl(Class, "P"))),
                  NoLine.(sig := Some(MethodSig(None, None, "public", "P", "", Brace))),
                  NoLine.(attr := Some(tmp)), CloseBrace, CloseBrace];
    var tmpRecord := AttributeRecord(None, "", "int", "tmp");
    var t0 := TypeRecord(Class, [], []);
    var t1 := t0.(attributes := [tmpRecord]);
    assert lines[0] == LineInfo(Some(TypeDecl(Class, "P")), None, None, false);
    assert AttributeRecordOf(tmp) == tmpRecord && [] + [tmpRecord] == [tmpRecord];
    DeclareStep(ClassMode, Class, "P");
    assert Step(ClassMode, Single("P", t0, false), lines[1]) == Ok(Single("P", t0, false));
    AttributeStep(ClassMode, "P", t0, tmp);
    assert Step(ClassMode, Single("P", t1, false), CloseBrace) == Ok(Single("P", t1, false));
    RunOfSteps(ClassMode, [Init, Single("P", t0, false), Single("P", t0, false), Single("P", t1, false),
                           Single("P", t1, false), Single("P", t1, false)], lines);
  }

  /** The state with two types, `a` declared before `b`, and `b` current. */
  function Pair(a: string, ta: TypeRecord, b: string, tb: TypeRecord, inMethod: bool): (r: State)
    requires a != b
    ensures Valid(r) && r.current == Some(b) && r.inMethod == inMethod && Names(r.classes) == [a, b]
  {
    var cs := [Entry(a, ta), Entry(b, tb)];
    assert cs[1..] == [Entry(b, tb)] && cs[1..][1..] == [];
    assert Names(cs[1..]) == [b] + Names([]);
    assert Names(cs) == [a] + Names(cs[1..]) == [a, b];
    assert UniqueNames(cs[1..]);
    State(cs, Some(b), inMethod)
  }

  /** Declaring a second type appends it and makes it current, whatever `in_method` is. */
  lemma DeclareSecond(a: string, ta: TypeRecord, k: Kind, b: string, inMethod: bool)
    requires a != b && a != "" && b != ""
    ensures Declare(Single(a, ta, inMethod), LineInfo(Some(TypeDecl(k, b)), None, None, false)) ==
      Pair(a, ta, b, TypeRecord(k, [], []), inMethod)
  {
    assert [Entry(a, ta)][1..] == [];
    assert Put([Entry(a, ta)], b, TypeRecord(k, [], [])) == [Entry(a, ta)] + [Entry(b, TypeRecord(k, [], []))];
  }

  /** In class mode the declaration test runs before the body test, so a type declared inside
      a method body is still recorded, while `in_method` stays set and the member `y` after
      it is skipped. */
  lemma DeclarationInBody()
    ensures
      var lines := [NoLine.(decl := Some(TypeDecl(Class, "A"))),                     // class A {
                    NoLine.(sig := Some(MethodSig(None, None, "void", "f", "", Brace))), //     void f() {
                    NoLine.(decl := Some(TypeDecl(Class, "B"))),                     //         class B {
                    NoLine.(attr := Some(AttrDecl(None, None, "int", "y")))];        //             int y;
      RunFrom(ClassMode, Init, lines) ==
        Ok(State([Entry("A", TypeRecord(Class, [], [MethodRecord(None, "", "void", "f", "")])),
                  Entry("B", TypeRecord(Class, [], []))], Some("B"), true))
  {
    var f := MethodSig(None, None, "void", "f", "", Brace);
    var lines := [NoLine.(decl := Some(TypeDecl(Class, "A"))), NoLine.(sig := Some(f)),
                  NoLine.(decl := Some(TypeDecl(Class, "B"))), NoLine.(attr := Some(AttrDecl(None, None, "int", "y")))];
    var fRecord := MethodRecord(None, "", "void", "f", "");
    var t0 := TypeRecord(Class, [], []);
    var t1 := t0.(methods := [fRecord]);
    var s3 := Pair("A", t1, "B", t0, true);
    assert lines[0] == LineInfo(Some(TypeDecl(Class, "A")), None, None, false);
    assert lines[1] == LineInfo(None, Some(f), None, false);
    assert lines[2] == LineInfo(Some(TypeDecl(Class, "B")), None, None, false);
    assert MethodRecordOf(f, StoredName("f", f.modifier)) == fRecord && [] + [fRecord] == [fRecord];
    DeclareStep(ClassMode, Class, "A");
    SignatureStep(ClassMode, "A", t0, f);
    DeclareSecond("A", t1, Class, "B", true);
    assert Step(ClassMode, Single("A", t1, true), lines[2]) == Ok(s3);
    assert Step(ClassMode, s3, lines[3]) == Ok(s3);
    RunOfSteps(ClassMode, [Init, Single("A", t0, false), Single("A", t1, true), s3, s3], lines);
  }
}
