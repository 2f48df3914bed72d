# UMLGenerator: Java-to-PlantUML extraction and emission, in Dafny

UMLGenerator reads Java source, pulls out its classes and interfaces with their attributes
and methods, and writes a PlantUML class diagram. The pipeline exists twice:

- `UMLClassGenerator.py` holds the **class-mode** extractor. Its method pattern only
  matches signatures closed by `{` (`UMLClassGenerator.py:16`). Once such a signature has
  been seen, the extractor records no member until a line that is just `}`. Inside such a
  body only type declarations are still recorded, because the declaration test
  (`UMLClassGenerator.py:25-30`) runs before the `in_method` test
  (`Scenarios.DeclarationInBody`). A constructor (a method
  named like its type) does not start that skip. Its `continue` (line 43) runs before
  `in_method = True` (line 55), so a constructor's body is read as members.
- `UMLInterfaceGenerator.py` holds the **interface-mode** extractor. Its method pattern
  also accepts signatures that end in `;` (`UMLInterfaceGenerator.py:16`), and it does not
  skip bodies.

Both files share the same `generate_plantuml` emitter.

This project models both extractors as two configurations (`Extractor.Mode`) of one step
function over lines. It also models the emitter and proves properties of both.

- `wrappers.dfy`: `Option` (Python's `None`) and `Result` (the exceptions the program can
  raise).
- `strings.dfy`: the `str` operations the program uses: `upper`, `strip`, `split`,
  `rsplit(' ', 1)`, `join` and the substring test `in`.
- `model.dfy`: what the regular expressions capture on one line (`LineInfo`), and
  the member and type records. The insertion-ordered `classes` dictionary is a sequence of
  `Entry` values with unique names. Assigning to an existing key keeps its position.
- `extractor.dfy`: `Step`, `RunFrom` and `Extract` specify one loop iteration and the whole
  loop. The method `ExtractClassInfo` runs the loop as the source does, updating
  `classes`, `current_class` and `in_method` line by line. It is proved equal to `Extract`.
  The lemmas state the per-line rules and the invariants of a run.
- `generator.dfy`: `Render` specifies the emitted text. The methods `GeneratePlantUml`,
  `EmitType` and `FormatParameters` build it with `+=` as the source does and are proved
  equal to it. The lemmas cover output framing, the visibility and modifier symbols,
  parameter formatting and its failure, and one output line per member.
- `scenarios.dfy`: worked examples run through both extraction modes and the emitter.

Each line's regular-expression matches are **input data**: a `LineInfo` holds the
`re.search` result of each pattern and whether `line.strip() == '}'`. The modifier group
`(static\s+|final\s+|abstract\s+)*` is repeated, and Python keeps only its last
repetition. So a capture is one keyword plus the whitespace run after it (`ModCapture`).
The source's `== 'final '` test holds only when that run is exactly one space
(`Extractor.FinalTextExact`).

The two exceptions the source can raise are modelled as `Err` results:
- `MatchHasNoUpper`: in interface mode, a `final ` attribute that is tried calls `.upper()`
  on the match object instead of the name. This raises `AttributeError` and ends extraction.
- `ParamUnpack`: a parameter piece with no space does not unpack from `rsplit(' ', 1)`.
  This raises `ValueError` and ends emission.

Some behaviours of the code are easy to miss. The model follows the code in each:

- **Extraction can fail.** Interface mode raises `AttributeError` on a `final ` attribute
  that is tried, that is, on a line with a current type and no constructor match
  (`UMLInterfaceGenerator.py:55`). A constructor match's `continue`
  (`UMLInterfaceGenerator.py:40-41`) skips the attribute test
  (`Extractor.InterfaceConstructorSkipped`).
- **Emission can fail.** `rsplit(' ', 1)` raises `ValueError` on a parameter piece without
  a space, such as `int` or the blank list of `foo( )` (`UMLClassGenerator.py:97`).
- **`if current_class:` is a truth test.** It fails for `None` and for the empty string, so
  member lines are read only under a non-empty current name (`Extractor.HasCurrent`,
  `UMLClassGenerator.py:32`, `UMLInterfaceGenerator.py:33`).
- **The last modifier counts.** Python's `re` keeps the last repetition of the repeated
  modifier group (`UMLClassGenerator.py:15-16`), so `static abstract` is captured as
  `abstract `.
- **Constructor elision.** Class mode compares the name as written, before upper-casing
  (`UMLClassGenerator.py:42-46`). So `final void foo() {` inside `class FOO` is stored as
  method `FOO` (`Scenarios.FinalMethodNamedLikeType`). Interface mode upper-cases first
  (`UMLInterfaceGenerator.py:38-41`), so there no method carries its type's name
  (`Extractor.ExtractInvariant`).
- **Constructor bodies are read.** In class mode a declaration inside a constructor's body
  is recorded as an attribute (`Scenarios.ConstructorBodyRead`).
- **Abstract methods in class mode.** `abstract void f();` matches neither class-mode
  pattern, so class mode records no method for it and does not skip the lines after it;
  interface mode records `f` (`Scenarios.AbstractMethodClassMode`,
  `Scenarios.AbstractMethodInterfaceMode`).
- **A whole type on one line.** When all of `class Foo` is written on one line, class mode
  loses `bar`: the method signature on that line sets `in_method` before the attribute
  test (`UMLClassGenerator.py:55-57`, `Scenarios.FooOneLine`). Written one declaration per
  line, class mode keeps `bar` and `baz` and skips `x` (`Scenarios.FooClassMode`).

Every function here is deterministic by construction, so the text emitted for an input
depends on that input alone.

## Model

| member | source | states |
|---|---|---|
| `Strings.Upper` | UMLClassGenerator.py:46 | `s.upper()`: same length, each character upper-cased (ASCII letters) |
| `Strings.UpperIdempotent` | UMLClassGenerator.py:46 | upper-casing an already upper-cased name changes nothing (`LOCK` stays `LOCK`) |
| `Strings.Strip` | UMLClassGenerator.py:97 | `strip()`: the result neither starts nor ends with whitespace, and is empty exactly for an all-whitespace text |
| `Strings.StripOfPadded` | UMLClassGenerator.py:97 | a word with non-space ends, padded with whitespace on both sides, strips back to the word; with `Strip`'s contract this fixes `strip()` on every text |
| `Strings.Split` | UMLClassGenerator.py:95 | `split(',')` yields at least one piece and no piece holds a comma |
| `Strings.SplitJoin` | UMLClassGenerator.py:95 | splitting `Join(pieces, ",")` of comma-free pieces gives back the pieces (`Join` is `sep.join`, used as `", ".join` at line 100) |
| `Strings.JoinSplit` | UMLClassGenerator.py:95 | `Join` of the pieces of a split, with the separator, gives back the text |
| `Strings.RSplitOnce` | UMLClassGenerator.py:97 | `rsplit(' ', 1)` splits at the last space; there is no split when the text has no space |
| `Strings.RSplitOnceOf` | UMLClassGenerator.py:97 | `a + ' ' + b`, with no space in `b`, splits back into `a` and `b` |
| `Strings.ContainsIgnoresSpaceTail` | UMLClassGenerator.py:84 | `Contains` (Python's `in` on strings, as in `'static' in modifier`) finds `static` or `abstract` in a keyword followed by whitespace exactly when it finds it in the keyword |
| `Model.Lookup` | UMLClassGenerator.py:47 | `classes[name]` exists exactly when `name` is a key |
| `Model.LookupAt` | UMLClassGenerator.py:78 | with unique keys, `classes[name]` for the key at position `i` is the record stored at `i`, the one the emitter's loop over `classes.items()` sees |
| `Model.NameAt` | UMLClassGenerator.py:30 | the key of every stored entry is among the dictionary's keys |
| `Model.Put` | UMLClassGenerator.py:30 | `classes[name] = rec`: an existing key keeps its place, a new key goes last; only `name` changes; keys stay unique |
| `Model.AddMethod` | UMLClassGenerator.py:47-53 | `classes[name]['methods'].append(m)`: that list gains `m` at the end; nothing else changes |
| `Model.AddAttribute` | UMLClassGenerator.py:64-69 | `classes[name]['attributes'].append(a)`: that list gains `a` at the end; nothing else changes |
| `Extractor.Declare` | UMLClassGenerator.py:25-30 | a declaration line makes its name current and (re)creates its record with empty lists: last declaration wins, in the key's original position; other records are unchanged |
| `Extractor.ClassMembers` | UMLClassGenerator.py:32-69 | the class-mode member step, which sees a signature only through `ClassSig` (the match when it is closed by `{`, otherwise none), keeps the current type and the key set, and keys stay unique |
| `Extractor.InterfaceMembers` | UMLInterfaceGenerator.py:33-61 | the interface-mode member step keeps the current type, the key set and `in_method` |
| `Extractor.Step` | UMLClassGenerator.py:23-69 | one iteration of the loop keeps the dictionary's keys unique and the current type among them |
| `Extractor.RunFrom` | UMLClassGenerator.py:23-71 | the loop keeps the same invariant over any number of lines |
| `Extractor.ExtractClassInfo` | UMLClassGenerator.py:10-71 | the imperative loop (class or interface mode) returns exactly `Extract(mode, lines)`: the specified dictionary, or the specified exception |
| `Extractor.FinalTextExact` | UMLClassGenerator.py:46 | `ModifierText` equals `'final '` exactly when the kept repetition is `final` followed by one space, so `StoredName` upper-cases a name exactly then |
| `Extractor.ClassLoneBrace` | UMLClassGenerator.py:36-37 | class mode: a line that strips to `}` clears `in_method` and adds no member |
| `Extractor.ClassConstructorSkipped` | UMLClassGenerator.py:41-43 | class mode: a `{`-closed method named like the current type is not recorded; `in_method` stays as the brace test left it; no attribute is tried |
| `Extractor.ClassSignatureLine` | UMLClassGenerator.py:45-57 | class mode: any other signature closed by `{` is appended as `MethodRecordOf(sig, StoredName(sig.name, sig.modifier))` (the dict literal at lines 47-53, with `modifier or ''`) only outside a body; it always sets `in_method`; its line adds no attribute |
| `Extractor.ClassPlainLine` | UMLClassGenerator.py:57-69 | class mode: a line without a `{`-closed signature (none, or one ending in `;`) adds no method, leaves `in_method` as the brace test left it, and adds `AttributeRecordOf(a)` only outside a body; its name is `StoredName(a.name, a.modifier)`, upper-cased for `final ` (line 61) |
| `Extractor.InterfaceConstructorSkipped` | UMLInterfaceGenerator.py:38-41 | interface mode: a method whose name, after the `final` upper-casing, equals the type records nothing, and no attribute is tried |
| `Extractor.InterfaceMemberLine` | UMLInterfaceGenerator.py:35-61 | interface mode: a line is tried as a method, appending `MethodRecordOf(sig, StoredName(sig.name, sig.modifier))`, and then as an attribute, appending `AttributeRecordOf(a)`, so it can add both; a `final ` attribute raises |
| `Extractor.InterfaceIgnoresBodyFlag` | UMLInterfaceGenerator.py:21 | interface mode never reads `in_method`: changing the flag changes no step's outcome |
| `Extractor.StepTouchesOnlyCurrent` | UMLClassGenerator.py:26-32 | `current_class` follows declarations and is never reset; a step changes only the current type's record; when `HasCurrent` fails (`if current_class:`, false for `None` and for the empty name) a line does nothing beyond its declaration test |
| `Extractor.UndeclaredPrefix` | UMLClassGenerator.py:18-32 | lines before the first type declaration contribute nothing |
| `Extractor.ExtractWithoutDeclarations` | UMLClassGenerator.py:11-32 | input without type declarations yields the empty dictionary, in both modes |
| `Extractor.ClassBodySkipped` | UMLClassGenerator.py:45-57 | class mode: after a signature opens a body, lines that neither strip to `}` nor declare a type record nothing and keep the body open |
| `Extractor.StepPreservesInv` | UMLClassGenerator.py:42-66 | one step keeps the naming rules on every record |
| `Extractor.ExtractInvariant` | UMLInterfaceGenerator.py:38-55 | every extracted dictionary has unique keys; a `final ` member's name is upper-case; interface mode has no method named like its type and no `final ` attribute; in class mode such a method can appear only with modifier `final ` |
| `Generator.VisibilitySymbol` | UMLClassGenerator.py:83 | `-` exactly for private, `#` exactly for protected, `+` otherwise, including no visibility |
| `Generator.KeywordContains` | UMLClassGenerator.py:84 | no modifier keyword contains another (`abstract` does not contain `static`) |
| `Generator.AttributeMarkerOfCapture` | UMLClassGenerator.py:84 | `AttributeMarker` of the captured text is `{static} ` exactly for a `static` capture; `final`, `abstract` and no modifier get none |
| `Generator.MethodMarkerOfCapture` | UMLClassGenerator.py:90 | `MethodMarker` of the captured text is `{static} ` for `static`, `{abstract} ` for `abstract`, and nothing for `final` or no modifier |
| `Generator.GeneratePlantUml` | UMLClassGenerator.py:75-106 | the accumulating loop over types returns exactly `Render(classes)`: the specified text, or the first parameter-unpacking error |
| `Generator.EmitType` | UMLClassGenerator.py:79-103 | one type's block, built line by line, equals `Block(e)` |
| `Generator.FormatParameters` | UMLClassGenerator.py:92-100 | the `param_list.append` loop equals `FormatParams(parameters)` |
| `Generator.RenderEmpty` | UMLClassGenerator.py:76-105 | an empty model renders as the preamble followed directly by `@enduml` |
| `Generator.RenderFraming` | UMLClassGenerator.py:76-105 | `Render` fails exactly when some parameter list fails; otherwise it gives the preamble, one block per type in dictionary order, then `@enduml` with no newline after it |
| `Generator.BlockLayout` | UMLClassGenerator.py:79-103 | `Block` is `Header`, then one `AttributeLine` per attribute, then one `MethodLine` per method in order, then `}` |
| `Generator.AttributeLinesCount` | UMLClassGenerator.py:82-85 | each `AttributeLine` adds exactly one line break |
| `Generator.MethodLinesCount` | UMLClassGenerator.py:88-101 | each `MethodLine` adds exactly one line break |
| `Generator.BlockLineCount` | UMLInterfaceGenerator.py:74-98 | a type's block is exactly 2 + attributes + methods lines |
| `Generator.FormatParamsOneLine` | UMLClassGenerator.py:93-100 | formatting parameters introduces no line break |
| `Generator.FormatParamsEmpty` | UMLInterfaceGenerator.py:89 | an empty parameter string renders as `()` |
| `Generator.FormatParamsFailure` | UMLInterfaceGenerator.py:89-93 | `FormatParams` fails exactly when some comma-separated piece, stripped, has no space; the error names such a piece |
| `Generator.FormatParamErr` | UMLInterfaceGenerator.py:92 | `FormatParam` of one piece fails to unpack exactly when, stripped, it holds no space, and the error names that piece |
| `Generator.FormatParamsOfDeclared` | UMLInterfaceGenerator.py:89-95 | a list written `T1 n1, T2 n2, ...` renders as `n1 : T1, n2 : T2, ...` |
| `Generator.FormatParamsOneWord` | UMLInterfaceGenerator.py:92 | `int` alone does not unpack |
| `Generator.FormatParamsBlank` | UMLInterfaceGenerator.py:92 | a blank list such as `foo( )` does not unpack |
| `Generator.FormatParamsTwoDeclared` | UMLInterfaceGenerator.py:89-95 | `int a, String b` renders as `a : int, b : String` |
| `Scenarios.DeclareStep` | UMLClassGenerator.py:25-30 | the first declaration line makes its type current with an empty record, outside any body |
| `Scenarios.AttributeStep` | UMLClassGenerator.py:57-68 | an attribute line outside a body (without `final ` in interface mode) is appended to the current type's attributes |
| `Scenarios.SignatureStep` | UMLInterfaceGenerator.py:35-49 | a non-constructor signature (closed by `{` in class mode) is appended to the current type's methods; only class mode then sets `in_method` |
| `Scenarios.RunOfSteps` | UMLClassGenerator.py:23 | a run is the chain of its line steps |
| `Scenarios.RunAppend` | UMLClassGenerator.py:23 | running two groups of lines one after the other is running them together |
| `Scenarios.FooHeadRun` | UMLClassGenerator.py:23-68 | after `class Foo {`, `private int bar;`, `public void baz() {`, both modes hold `bar` and `baz`, and only class mode is inside a body |
| `Scenarios.FooClassMode` | UMLClassGenerator.py:23-69 | class `Foo` keeps `bar` and `baz`; `x`, declared in the body of `baz`, is skipped |
| `Scenarios.FooInterfaceMode` | UMLInterfaceGenerator.py:25-61 | interface mode records `x` as well |
| `Scenarios.FooOneLine` | UMLClassGenerator.py:45-57 | on one line, class mode loses `bar` and interface mode keeps it |
| `Scenarios.FooRendered` | UMLClassGenerator.py:76-105 | `Foo` renders as `class Foo {`, `- bar : int`, `+ baz() : void`, `}` inside the preamble and `@enduml` |
| `Scenarios.FooPipeline` | UMLClassGenerator.py:124-128 | extraction followed by generation gives that text |
| `Scenarios.ShapeInterfaceMode` | UMLInterfaceGenerator.py:16 | interface mode accepts `double area();` as a method |
| `Scenarios.DoorLock` | UMLClassGenerator.py:46 | `final void LOCK() {}` in `Door` is stored as `LOCK` |
| `Scenarios.FinalConstructorName` | UMLInterfaceGenerator.py:38-41 | `final void Foo()` in `Foo`: class mode elides it, interface mode records `FOO` |
| `Scenarios.FinalMethodNamedLikeType` | UMLClassGenerator.py:42-46 | `final void foo()` in `FOO`: class mode records `FOO`, interface mode elides it |
| `Scenarios.FinalAttribute` | UMLInterfaceGenerator.py:55 | a `final ` attribute raises in interface mode and is upper-cased in class mode |
| `Scenarios.AbstractMethodClassMode` | UMLClassGenerator.py:16 | class mode records no method for `abstract void f();` and still records the attribute `x` after it |
| `Scenarios.AbstractMethodInterfaceMode` | UMLInterfaceGenerator.py:16 | interface mode records the `;`-terminated `f` and the attribute `x` |
| `Scenarios.ConstructorBodyRead` | UMLClassGenerator.py:42-55 | class mode records `int tmp = 0;` inside the constructor `P()` as an attribute of `P` |
| `Scenarios.DeclareSecond` | UMLClassGenerator.py:25-30 | declaring a second type appends its empty record after the first, makes it current, and leaves `in_method` as it was |
| `Scenarios.DeclarationInBody` | UMLClassGenerator.py:25-37 | class mode records `class B` declared inside the body of `f()`; `in_method` stays set, so `int y;` after it is skipped |

## Left out

- The Streamlit interface in `main` is not modelled. It covers file upload, the text areas,
  `st.write`, the button and the image (`UMLClassGenerator.py:114-137`,
  `UMLInterfaceGenerator.py:109-132`). It is user-interface I/O.
- The PlantUML server object and `generate_uml_diagram` are not modelled
  (`UMLClassGenerator.py:7, 110-112`). They make a network call to a remote renderer.
- Python's regular-expression engine is not modelled. Each line's three `re.search`
  results are inputs (`Model.LineInfo`), so the model does not decide which lines match.
  This includes backtracking, the lazy `(.*?)`, and which occurrence `search` finds first.
- Extractor.ClassSig: `LineInfo.sig` holds the interface file's method match, and class
  mode reads a `;`-terminated one as no match. On a line where that match ends in `;` and
  a `{` follows later, the class file's pattern could still match a longer span ending at
  that `{`. The model does not capture that class-mode match.
- `splitlines()` is not modelled: the input is already a sequence of lines.
- `Strings.Upper`: upper-cases ASCII letters only, because Python's full Unicode case
  mapping (including characters that expand to several characters) is not modelled.
- Python dictionaries are modelled as a sequence of entries. Only insertion order and
  "overwriting keeps the position" are kept.
- The local `class_type` is not modelled separately: it only feeds the record's `Type`.
