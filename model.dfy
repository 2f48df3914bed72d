/**
  The structural model both extractors build and the emitter reads: per-line recognition
  results (what the regular expressions capture on one line), the member and type
  records, and the insertion-ordered dictionary from type name to record.
 */
module Model {
  import opened Wrappers
  import opened Strings

  // ---------------------------------------------------------------- regex captures

  /** Group 1 of the type-declaration pattern: `class` or `interface`. */
  datatype Kind = Class | Interface

  function KindText(k: Kind): string {
    match k
    case Class => "class"
    case Interface => "interface"
  }

  /** Group 1 of the member patterns, `(public|private|protected)?`; absent is `None`. */
  datatype Visibility = Public | Protected | Private

  datatype ModKeyword = Static | Final | Abstract

  function KeywordText(k: ModKeyword): string {
    match k
    case Static => "static"
    case Final => "final"
    case Abstract => "abstract"
  }

  /** Group 2 of the member patterns, `(static\s+|final\s+|abstract\s+)*`. A repeated group
      keeps its LAST repetition: one keyword and the whitespace run the `\s+` took after it. */
  datatype ModCapture = ModCapture(keyword: ModKeyword, gap: string)

  /** What the regex can actually capture: the whitespace run is non-empty. */
  predicate ValidCapture(c: ModCapture) {
    c.gap != [] && AllSpace(c.gap)
  }

  /** The stored modifier, `modifier or ''`: the captured text, or the empty string. */
  function ModifierText(m: Option<ModCapture>): string {
    match m
    case None => ""
    case Some(c) => KeywordText(c.keyword) + c.gap
  }

  /** How the method pattern's signature ended: `{`, or (interface mode only) `;`. */
  datatype Terminator = Brace | Semicolon

  /** Groups 1-2 of the type-declaration pattern; the inheritance clause is not captured. */
  datatype TypeDecl = TypeDecl(kind: Kind, name: string)

  /** Groups 1-5 of the method pattern. */
  datatype MethodSig = MethodSig(visibility: Option<Visibility>, modifier: Option<ModCapture>,
                                 returnType: string, name: string, parameters: string,
                                 terminator: Terminator)

  /** Groups 1-4 of the attribute pattern; the initializer is not captured. */
  datatype AttrDecl = AttrDecl(visibility: Option<Visibility>, modifier: Option<ModCapture>,
                               attrType: string, name: string)

  /** Everything the extractor learns from one line: the result of `re.search` with the
      type, method and attribute patterns, and whether `line.strip() == '}'`. `sig` is the
      match of the interface file's method pattern, which accepts `{` and `;`; class mode
      sees it only when it ends in `{` (`Extractor.ClassSig`). */
  datatype LineInfo = LineInfo(decl: Option<TypeDecl>, sig: Option<MethodSig>,
                               attr: Option<AttrDecl>, loneCloseBrace: bool)

  // ---------------------------------------------------------------- records

  datatype AttributeRecord = AttributeRecord(visibility: Option<Visibility>, modifier: string,
                                             attrType: string, name: string)

  datatype MethodRecord = MethodRecord(visibility: Option<Visibility>, modifier: string,
                                       returnType: string, name: string, parameters: string)

  /** `{'Type': ..., 'attributes': [...], 'methods': [...]}` */
  datatype TypeRecord = TypeRecord(kind: Kind, attributes: seq<AttributeRecord>,
                                   methods: seq<MethodRecord>)

  /** One `(name, record)` item of the dictionary, in insertion order. */
  datatype Entry = Entry(name: string, record: TypeRecord)

  /** The exceptions the two pipelines can raise. `MatchHasNoUpper`: interface mode calls
      `.upper()` on the match object of a `final ` attribute (an `AttributeError`).
      `ParamUnpack`: a parameter piece without a space does not unpack into two values
      (a `ValueError`). */
  datatype Error = MatchHasNoUpper(attribute: string) | ParamUnpack(piece: string)

  // ---------------------------------------------------------------- the ordered dictionary

  function Names(cs: seq<Entry>): seq<string> {
    if cs == [] then [] else [cs[0].name] + Names(cs[1..])
  }

  /** Dictionary keys are unique. */
  predicate UniqueNames(cs: seq<Entry>) {
    cs == [] || (cs[0].name !in Names(cs[1..]) && UniqueNames(cs[1..]))
  }

  /** `classes.get(name)` */
  function Lookup(cs: seq<Entry>, name: string): (r: Option<TypeRecord>)
    ensures r.Some? <==> name in Names(cs)
  {
    if cs == [] then None
    else if cs[0].name == name then Some(cs[0].record)
    else Lookup(cs[1..], name)
  }

  /** With unique keys, `classes[name]` is the record stored at that key's position: the
      records the generator iterates over are the ones the dictionary looks up. */
  lemma {:induction false} LookupAt(cs: seq<Entry>, i: int)
    requires UniqueNames(cs) && 0 <= i < |cs|
    ensures Lookup(cs, cs[i].name) == Some(cs[i].record)
    decreases i
  {
    if i > 0 {
      LookupAt(cs[1..], i - 1);
      assert cs[1..][i - 1] == cs[i];
      assert cs[0].name != cs[i].name by {
        NameAt(cs[1..], i - 1);
      }
    }
  }

  /** The key of the entry at position `i` is among the names. */
  lemma {:induction false} NameAt(cs: seq<Entry>, i: int)
    requires 0 <= i < |cs|
    ensures cs[i].name in Names(cs)
    decreases i
  {
    if i > 0 {
      NameAt(cs[1..], i - 1);
      assert cs[1..][i - 1] == cs[i];
    }
  }

  /** `classes[name] = rec`: an existing key keeps its position, a new key goes last. */
  function Put(cs: seq<Entry>, name: string, rec: TypeRecord): (r: seq<Entry>)
    ensures Names(r) == if name in Names(cs) then Names(cs) else Names(cs) + [name]
    ensures Lookup(r, name) == Some(rec)
    ensures forall n :: n != name ==> Lookup(r, n) == Lookup(cs, n)
    ensures UniqueNames(cs) ==> UniqueNames(r)
  {
    if cs == [] then [Entry(name, rec)]
    else if cs[0].name == name then [Entry(name, rec)] + cs[1..]
    else [cs[0]] + Put(cs[1..], name, rec)
  }

  /** `classes[name]['methods'].append(m)` */
  function AddMethod(cs: seq<Entry>, name: string, m: MethodRecord): (r: seq<Entry>)
    requires name in Names(cs)
    ensures Names(r) == Names(cs)
    ensures Lookup(r, name) == Some(Lookup(cs, name).value.(methods := Lookup(cs, name).value.methods + [m]))
    ensures forall n :: n != name ==> Lookup(r, n) == Lookup(cs, n)
    ensures UniqueNames(cs) ==> UniqueNames(r)
  {
    var t := Lookup(cs, name).value;
    Put(cs, name, t.(methods := t.methods + [m]))
  }

  /** `classes[name]['attributes'].append(a)` */
  function AddAttribute(cs: seq<Entry>, name: string, a: AttributeRecord): (r: seq<Entry>)
    requires name in Names(cs)
    ensures Names(r) == Names(cs)
    ensures Lookup(r, name) == Some(Lookup(cs, name).value.(attributes := Lookup(cs, name).value.attributes + [a]))
    ensures forall n :: n != name ==> Lookup(r, n) == Lookup(cs, n)
    ensures UniqueNames(cs) ==> UniqueNames(r)
  {
    var t := Lookup(cs, name).value;
    Put(cs, name, t.(attributes := t.attributes + [a]))
  }
}
