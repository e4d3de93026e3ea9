/** The source analyzer (src/tsAnalyzer.ts): one walk over the syntax tree
    of a source file that records the file's path and name, its state
    interfaces with their properties, its namespace imports, and the names of
    its enums and type aliases.

    `Step` says what one node does to the analyzer's state, `Trace` folds it
    over the nodes, and `SourceAnalyzer.Visit` and `GetSourceData` do the
    same imperatively. The reference definitions further down (`StatesOf`,
    `ImportsOf`, `EnumsOf`, …) say what the outcome is directly in terms of
    the nodes, and `AnalyzeRecords` and `AnalyzeSucceedsIff` connect the
    two. */
module Analyzer {
  import opened Wrappers
  import opened Paths
  import opened Syntax
  import opened Schema
  import InterfaceVisitor

  /** The exceptions the walk can raise. */
  datatype AnalyzeError =
      /** A namespace import outside an import declaration (`currentImport`
          is null). */
    | NamespaceImportOutsideImport(name: string)
      /** A property of an interface written without a type (`ps.type` is
          undefined). */
    | PropertyWithoutType(property: string)
      /** A property of an interface no state was recorded for (`iface` is
          undefined). */
    | UnknownInterface(iface: string)

  /** What the walk holds between two nodes: the record being built and the
      import declaration being read, if any. */
  datatype Snapshot = Snapshot(data: SourceData, currentImport: Option<ImportData>)

  const EmptyImport := ImportData(None, None, None)

  /** `resolvePathStringLiteral`: a string literal read as a path relative
      to the directory of the source file. */
  function ResolvePathStringLiteral(sourceFileName: string, text: string): Path
  {
    Join(Dirname(Parse(sourceFileName)), Parse(text))
  }

  /** Resolved from the working directory, the path a literal denotes is
      the literal read from the resolved directory of the source file. */
  lemma ResolvePathStringLiteralFromDirectory(cwd: seq<string>, sourceFileName: string, text: string)
    ensures Resolve(cwd, ResolvePathStringLiteral(sourceFileName, text))
         == Join(Resolve(cwd, Dirname(Parse(sourceFileName))), Parse(text))
  {
    ResolveJoin(cwd, Dirname(Parse(sourceFileName)), Parse(text));
  }

  /** The state after the source file node itself: its path and its file
      name without `.ts`, nothing else yet. */
  function Start(sourceFileName: string, sourcePath: string): (s: Snapshot)
    ensures s.data.filePath == sourcePath
    ensures s.data.fileName == BasenameWithoutExt(sourceFileName, ".ts")
    ensures s.data.states == [] && s.data.imports == [] && s.data.enums == [] && s.data.customTypes == []
    ensures s.currentImport.None?
  {
    Snapshot(SourceData(sourcePath, BasenameWithoutExt(sourceFileName, ".ts"), [], [], [], []), None)
  }

  /** The field recorded for a property with type annotation `t`. */
  function FieldOf(name: string, t: TypeNode, tokenToString: nat -> string): (f: Field)
    ensures f.name == name
    ensures f.isState <==> t.TypeReference?
    ensures f.isArray <==> t.ArrayType?
    ensures t.TypeReference? ==> f.fieldType == t.typeName
    ensures t.ArrayType? ==> f.fieldType == t.elementType
  {
    match t
    case TypeReference(typeName) => Field(name, typeName, true, false)
    case ArrayType(elementType) => Field(name, elementType, false, true)
    case TypeLiteral(text) => Field(name, text, false, false)
    case KeywordType(kind) => Field(name, tokenToString(kind), false, false)
  }

  /** What visiting one node does. */
  function Step(s: Snapshot, sourceFileName: string, tokenToString: nat -> string, n: Node): Result<Snapshot, AnalyzeError>
  {
    var d := s.data;
    match n
    case InterfaceNode(decl) =>
      Ok(Snapshot(d.(states := d.states + [InterfaceVisitor.Visit(decl)],
                     imports := d.imports + OptionToSeq(s.currentImport)), None))
    case ClassDeclarationNode =>
      Ok(Snapshot(d.(imports := d.imports + OptionToSeq(s.currentImport)), None))
    case ImportDeclarationNode =>
      Ok(Snapshot(d.(imports := d.imports + OptionToSeq(s.currentImport)), Some(EmptyImport)))
    case NamespaceImportNode(name) =>
      if s.currentImport.None? then Err(NamespaceImportOutsideImport(name))
      else Ok(s.(currentImport := Some(s.currentImport.value.(prefix := Some(name)))))
    case StringLiteralNode(text) =>
      if s.currentImport.None? then Ok(s)
      else Ok(s.(currentImport := Some(s.currentImport.value.(
        relativePath := Some(text), fullPath := Some(ResolvePathStringLiteral(sourceFileName, text))))))
    case EnumDeclarationNode(name) =>
      Ok(s.(data := d.(enums := d.enums + [NamedType(name)])))
    case TypeAliasDeclarationNode(name) =>
      Ok(s.(data := d.(customTypes := d.customTypes + [NamedType(name)])))
    case PropertySignatureNode(name, parent, typeNode) =>
      if parent.None? then Ok(s)
      else if typeNode.None? then Err(PropertyWithoutType(name))
      else (
        match FirstNamed(d.states, parent.value)
        case None => Err(UnknownInterface(parent.value))
        case Some(i) =>
          var st := d.states[i];
          Ok(s.(data := d.(states := d.states[i := st.(fields := st.fields + [FieldOf(name, typeNode.value, tokenToString)])]))))
    case OtherNode(_) => Ok(s)
  }

  /** The state after the source file node and then `events`, or the first
      exception. */
  function Trace(sourceFileName: string, sourcePath: string, tokenToString: nat -> string, events: seq<Node>): Result<Snapshot, AnalyzeError>
    decreases |events|
  {
    if |events| == 0 then Ok(Start(sourceFileName, sourcePath))
    else match Trace(sourceFileName, sourcePath, tokenToString, events[..|events| - 1])
      case Err(e) => Err(e)
      case Ok(s) => Step(s, sourceFileName, tokenToString, events[|events| - 1])
  }

  /** `getSourceData`: the record for a source file whose nodes below the
      source file node are `events`. An import declaration still being read
      when the walk ends is not recorded. */
  function Analyze(sourceFileName: string, sourcePath: string, tokenToString: nat -> string, events: seq<Node>): Result<SourceData, AnalyzeError>
  {
    match Trace(sourceFileName, sourcePath, tokenToString, events)
    case Err(e) => Err(e)
    case Ok(s) => Ok(s.data)
  }

  /** Once the walk has raised an exception, later nodes change nothing. */
  lemma {:induction false} TraceErrPersists(sourceFileName: string, sourcePath: string, tokenToString: nat -> string, events: seq<Node>, i: nat)
    requires i <= |events|
    requires Trace(sourceFileName, sourcePath, tokenToString, events[..i]).Err?
    ensures Trace(sourceFileName, sourcePath, tokenToString, events) == Trace(sourceFileName, sourcePath, tokenToString, events[..i])
    decreases |events| - i
  {
    if i < |events| {
      assert events[..i + 1][..i] == events[..i];
      TraceErrPersists(sourceFileName, sourcePath, tokenToString, events, i + 1);
    } else {
      assert events[..i] == events;
    }
  }

  // ---------------------------------------------------------------------
  // The walk, imperatively

  /** The walk's state: the record's fields and the import declaration being
      read. */
  class SourceAnalyzer {
    const sourceFileName: string
    const tokenToString: nat -> string
    var filePath: string
    var fileName: string
    var states: seq<StateData>
    var imports: seq<ImportData>
    var enums: seq<NamedType>
    var customTypes: seq<NamedType>
    var currentImport: Option<ImportData>

    function Current(): Snapshot
      reads this
    {
      Snapshot(SourceData(filePath, fileName, states, imports, enums, customTypes), currentImport)
    }

    /** The analyzer after the source file node. */
    constructor (sourceFileName: string, sourcePath: string, tokenToString: nat -> string)
      ensures this.sourceFileName == sourceFileName && this.tokenToString == tokenToString
      ensures Current() == Start(sourceFileName, sourcePath)
    {
      this.sourceFileName := sourceFileName;
      this.tokenToString := tokenToString;
      filePath := sourcePath;
      fileName := BasenameWithoutExt(sourceFileName, ".ts");
      states := [];
      imports := [];
      enums := [];
      customTypes := [];
      currentImport := None;
    }

    /** `visit(n)` without the descent into the children: the interface
        visitor first, then the analyzer's own cases in the source's
        order. */
    method Visit(n: Node) returns (err: Option<AnalyzeError>)
      modifies this
      ensures Step(old(Current()), sourceFileName, tokenToString, n)
           == (if err.None? then Ok(Current()) else Err(err.value))
    {
      ghost var before := Current();
      err := None;
      if InterfaceVisitor.Accept(n) {
        states := states + [InterfaceVisitor.Visit(n.decl)];
      }
      if n.StringLiteralNode? && currentImport.Some? {
        currentImport := Some(currentImport.value.(
          relativePath := Some(n.text), fullPath := Some(ResolvePathStringLiteral(sourceFileName, n.text))));
      }
      if n.ImportDeclarationNode? {
        if currentImport.Some? {
          imports := imports + [currentImport.value];
        }
        currentImport := Some(EmptyImport);
      }
      if n.NamespaceImportNode? {
        if currentImport.None? {
          return Some(NamespaceImportOutsideImport(n.name));
        }
        currentImport := Some(currentImport.value.(prefix := Some(n.name)));
      }
      if n.InterfaceNode? || n.ClassDeclarationNode? {
        if currentImport.Some? {
          imports := imports + [currentImport.value];
          currentImport := None;
        }
      } else if n.EnumDeclarationNode? {
        enums := enums + [NamedType(n.name)];
      } else if n.TypeAliasDeclarationNode? {
        customTypes := customTypes + [NamedType(n.name)];
      } else if n.PropertySignatureNode? && n.parentInterface.Some? {
        var owner := FirstNamed(states, n.parentInterface.value);
        if n.typeNode.None? {
          return Some(PropertyWithoutType(n.name));
        }
        if owner.None? {
          return Some(UnknownInterface(n.parentInterface.value));
        }
        var i := owner.value;
        states := states[i := states[i].(fields := states[i].fields + [FieldOf(n.name, n.typeNode.value, tokenToString)])];
      }
      assert Boundary(n) ==> imports == before.data.imports + OptionToSeq(before.currentImport);
    }
  }

  /** `getSourceData`: visits the nodes in order and returns the record, or
      the first exception. */
  method GetSourceData(sourceFileName: string, sourcePath: string, tokenToString: nat -> string, events: seq<Node>)
    returns (r: Result<SourceData, AnalyzeError>)
    ensures r == Analyze(sourceFileName, sourcePath, tokenToString, events)
  {
    var analyzer := new SourceAnalyzer(sourceFileName, sourcePath, tokenToString);
    var i := 0;
    while i < |events|
      invariant 0 <= i <= |events|
      invariant Trace(sourceFileName, sourcePath, tokenToString, events[..i]) == Ok(analyzer.Current())
    {
      var err := analyzer.Visit(events[i]);
      assert events[..i + 1][..i] == events[..i];
      if err.Some? {
        TraceErrPersists(sourceFileName, sourcePath, tokenToString, events, i + 1);
        return Err(err.value);
      }
      i := i + 1;
    }
    assert events[..i] == events;
    r := Ok(analyzer.Current().data);
  }

  // ---------------------------------------------------------------------
  // The outcome in terms of the nodes

  /** The nodes that close the import declaration being read. */
  predicate Boundary(n: Node)
  {
    n.ImportDeclarationNode? || n.InterfaceNode? || n.ClassDeclarationNode?
  }

  /** The position of the last boundary node. */
  function LastBoundary(es: seq<Node>): (r: Option<nat>)
    ensures r.Some? ==> r.value < |es| && Boundary(es[r.value])
    ensures r.Some? ==> forall j :: r.value < j < |es| ==> !Boundary(es[j])
    ensures r.None? ==> forall j :: 0 <= j < |es| ==> !Boundary(es[j])
  {
    if |es| == 0 then None
    else if Boundary(es[|es| - 1]) then Some(|es| - 1)
    else LastBoundary(es[..|es| - 1])
  }

  /** The name of the last namespace import among `es`. */
  function LastNamespaceName(es: seq<Node>): (r: Option<string>)
    ensures r.Some? ==> exists j :: 0 <= j < |es| && es[j] == NamespaceImportNode(r.value)
                                  && forall k :: j < k < |es| ==> !es[k].NamespaceImportNode?
    ensures r.None? ==> forall j :: 0 <= j < |es| ==> !es[j].NamespaceImportNode?
  {
    if |es| == 0 then None
    else if es[|es| - 1].NamespaceImportNode? then Some(es[|es| - 1].name)
    else LastNamespaceName(es[..|es| - 1])
  }

  /** The text of the last string literal among `es`. */
  function LastStringLiteral(es: seq<Node>): (r: Option<string>)
    ensures r.Some? ==> exists j :: 0 <= j < |es| && es[j] == StringLiteralNode(r.value)
                                  && forall k :: j < k < |es| ==> !es[k].StringLiteralNode?
    ensures r.None? ==> forall j :: 0 <= j < |es| ==> !es[j].StringLiteralNode?
  {
    if |es| == 0 then None
    else if es[|es| - 1].StringLiteralNode? then Some(es[|es| - 1].text)
    else LastStringLiteral(es[..|es| - 1])
  }

  /** The import record read from the nodes that follow an import
      declaration: the last namespace name as prefix and the last string
      literal as module path. */
  function ImportRead(sourceFileName: string, es: seq<Node>): ImportData
  {
    var literal := LastStringLiteral(es);
    ImportData(
      LastNamespaceName(es),
      literal,
      if literal.None? then None else Some(ResolvePathStringLiteral(sourceFileName, literal.value)))
  }

  /** The import declaration still being read after `es`: there is one when
      the last boundary node is an import declaration. */
  function PendingImport(sourceFileName: string, es: seq<Node>): Option<ImportData>
  {
    match LastBoundary(es)
    case None => None
    case Some(b) => if es[b].ImportDeclarationNode? then Some(ImportRead(sourceFileName, es[b + 1..])) else None
  }

  /** The imports recorded: at every boundary node, the import declaration
      being read before it, if any. */
  function ImportsOf(sourceFileName: string, es: seq<Node>): seq<ImportData>
    decreases |es|
  {
    match LastBoundary(es)
    case None => []
    case Some(b) => ImportsOf(sourceFileName, es[..b]) + OptionToSeq(PendingImport(sourceFileName, es[..b]))
  }

  /** The enum declarations' names, in order. */
  function EnumsOf(es: seq<Node>): seq<NamedType>
  {
    if |es| == 0 then []
    else
      var n := es[|es| - 1];
      EnumsOf(es[..|es| - 1]) + (if n.EnumDeclarationNode? then [NamedType(n.name)] else [])
  }

  /** The type alias declarations' names, in order. */
  function TypeAliasesOf(es: seq<Node>): seq<NamedType>
  {
    if |es| == 0 then []
    else
      var n := es[|es| - 1];
      TypeAliasesOf(es[..|es| - 1]) + (if n.TypeAliasDeclarationNode? then [NamedType(n.name)] else [])
  }

  /** The interface declarations, in order. */
  function InterfacesOf(es: seq<Node>): seq<InterfaceDecl>
  {
    if |es| == 0 then []
    else
      var n := es[|es| - 1];
      InterfacesOf(es[..|es| - 1]) + (if n.InterfaceNode? then [n.decl] else [])
  }

  /** The fields of all typed properties of interfaces named `name`. */
  function PropsOf(es: seq<Node>, name: string, tokenToString: nat -> string): seq<Field>
  {
    if |es| == 0 then []
    else
      var n := es[|es| - 1];
      PropsOf(es[..|es| - 1], name, tokenToString)
      + (if n.PropertySignatureNode? && n.parentInterface == Some(name) && n.typeNode.Some?
         then [FieldOf(n.name, n.typeNode.value, tokenToString)] else [])
  }

  /** Some interface named `name` occurs among `es`. */
  predicate Declared(es: seq<Node>, name: string)
  {
    exists j :: 0 <= j < |es| && es[j].InterfaceNode? && es[j].decl.name == name
  }

  /** The states recorded: one per interface declaration, as the interface
      visitor saves it; the first interface of each name holds the fields
      of every property of an interface of that name, the others none. */
  function StatesOf(es: seq<Node>, tokenToString: nat -> string): (r: seq<StateData>)
    ensures |r| == |InterfacesOf(es)|
    ensures forall k :: 0 <= k < |r| ==> r[k].name == InterfacesOf(es)[k].name
  {
    var ds := InterfacesOf(es);
    seq(|ds|, k requires 0 <= k < |ds| => StateFor(es, ds, k, tokenToString))
  }

  /** The state recorded for the `k`th interface declaration `ds[k]`. */
  function StateFor(es: seq<Node>, ds: seq<InterfaceDecl>, k: nat, tokenToString: nat -> string): (s: StateData)
    requires k < |ds|
    ensures s.name == ds[k].name
  {
    InterfaceVisitor.Visit(ds[k]).(fields := if FirstOfName(ds, k) then PropsOf(es, ds[k].name, tokenToString) else [])
  }

  /** No interface before the `k`th has its name. */
  predicate FirstOfName(ds: seq<InterfaceDecl>, k: nat)
    requires k < |ds|
  {
    forall j :: 0 <= j < k ==> ds[j].name != ds[k].name
  }

  /** The node `n`, visited after `before`, raises an exception. */
  predicate Faulty(before: seq<Node>, n: Node)
  {
    || (n.NamespaceImportNode? && LastBoundary(before).None?)
    || (n.NamespaceImportNode? && LastBoundary(before).Some? && !before[LastBoundary(before).value].ImportDeclarationNode?)
    || (n.PropertySignatureNode? && n.parentInterface.Some?
        && (n.typeNode.None? || !Declared(before, n.parentInterface.value)))
  }

  // ---------------------------------------------------------------------
  // Connecting the walk to the reference definitions

  lemma LastBoundarySnoc(es: seq<Node>, n: Node)
    requires !Boundary(n)
    ensures LastBoundary(es + [n]) == LastBoundary(es)
  {
    assert (es + [n])[..|es|] == es;
  }

  lemma {:induction false} ImportReadSnoc(sourceFileName: string, es: seq<Node>, n: Node)
    ensures n.NamespaceImportNode? ==> ImportRead(sourceFileName, es + [n]) == ImportRead(sourceFileName, es).(prefix := Some(n.name))
    ensures n.StringLiteralNode? ==>
      ImportRead(sourceFileName, es + [n])
      == ImportRead(sourceFileName, es).(relativePath := Some(n.text), fullPath := Some(ResolvePathStringLiteral(sourceFileName, n.text)))
    ensures !n.NamespaceImportNode? && !n.StringLiteralNode? ==> ImportRead(sourceFileName, es + [n]) == ImportRead(sourceFileName, es)
  {
    assert (es + [n])[..|es|] == es;
  }

  /** After a node that is no boundary, the imports recorded are the same
      and the pending import has read one node more. */
  lemma ImportsNonBoundary(sourceFileName: string, es: seq<Node>, n: Node)
    requires !Boundary(n)
    ensures ImportsOf(sourceFileName, es + [n]) == ImportsOf(sourceFileName, es)
    ensures PendingImport(sourceFileName, es).None? ==> PendingImport(sourceFileName, es + [n]).None?
    ensures PendingImport(sourceFileName, es).Some? ==>
      PendingImport(sourceFileName, es + [n]) == Some(ImportRead(sourceFileName, es[LastBoundary(es).value + 1..] + [n]))
  {
    LastBoundarySnoc(es, n);
    match LastBoundary(es)
    case None =>
    case Some(b) =>
      ImportsAfterBoundary(sourceFileName, es, n, b);
  }

  lemma ImportsAfterBoundary(sourceFileName: string, es: seq<Node>, n: Node, b: nat)
    requires b < |es| && LastBoundary(es + [n]) == Some(b)
    ensures ImportsOf(sourceFileName, es + [n]) == ImportsOf(sourceFileName, es[..b]) + OptionToSeq(PendingImport(sourceFileName, es[..b]))
    ensures PendingImport(sourceFileName, es + [n])
         == if es[b].ImportDeclarationNode? then Some(ImportRead(sourceFileName, es[b + 1..] + [n])) else None
  {
    var e := es + [n];
    assert e[..b] == es[..b];
    assert e[b] == es[b];
    assert e[b + 1..] == es[b + 1..] + [n];
  }

  /** One node keeps the snapshot's imports and pending import in step with
      `ImportsOf` and `PendingImport`. */
  lemma ImportsStep(sourceFileName: string, tokenToString: nat -> string, s: Snapshot, init: seq<Node>, n: Node)
    requires s.data.imports == ImportsOf(sourceFileName, init) && s.currentImport == PendingImport(sourceFileName, init)
    requires Step(s, sourceFileName, tokenToString, n).Ok?
    ensures var t := Step(s, sourceFileName, tokenToString, n).value;
      t.data.imports == ImportsOf(sourceFileName, init + [n]) && t.currentImport == PendingImport(sourceFileName, init + [n])
  {
    if Boundary(n) {
      ImportsStepBoundary(sourceFileName, init, n);
    } else {
      StepInner(sourceFileName, tokenToString, s, n);
      ImportsStepInner(sourceFileName, init, n);
    }
  }

  /** A boundary node records the pending import and starts a new one
      exactly when it is an import declaration. */
  lemma ImportsStepBoundary(sourceFileName: string, init: seq<Node>, n: Node)
    requires Boundary(n)
    ensures ImportsOf(sourceFileName, init + [n]) == ImportsOf(sourceFileName, init) + OptionToSeq(PendingImport(sourceFileName, init))
    ensures PendingImport(sourceFileName, init + [n]) == if n.ImportDeclarationNode? then Some(EmptyImport) else None
  {
    var es := init + [n];
    assert LastBoundary(es) == Some(|init|);
    assert es[..|init|] == init;
    assert es[|init| + 1..] == [];
  }

  /** Any other node leaves the recorded imports alone and is read into
      the pending import, if there is one. */
  lemma ImportsStepInner(sourceFileName: string, init: seq<Node>, n: Node)
    requires !Boundary(n)
    ensures ImportsOf(sourceFileName, init + [n]) == ImportsOf(sourceFileName, init)
    ensures var p := PendingImport(sourceFileName, init);
      PendingImport(sourceFileName, init + [n])
      == if p.None? then None
         else if n.NamespaceImportNode? then Some(p.value.(prefix := Some(n.name)))
         else if n.StringLiteralNode? then
           Some(p.value.(relativePath := Some(n.text), fullPath := Some(ResolvePathStringLiteral(sourceFileName, n.text))))
         else p
  {
    ImportsNonBoundary(sourceFileName, init, n);
    if PendingImport(sourceFileName, init).Some? {
      ImportReadSnoc(sourceFileName, init[LastBoundary(init).value + 1..], n);
    }
  }

  /** What a node that is no boundary does to the imports of a snapshot. */
  lemma StepInner(sourceFileName: string, tokenToString: nat -> string, s: Snapshot, n: Node)
    requires !Boundary(n)
    requires Step(s, sourceFileName, tokenToString, n).Ok?
    ensures var t := Step(s, sourceFileName, tokenToString, n).value;
      && t.data.imports == s.data.imports
      && (s.currentImport.None? ==> t.currentImport.None?)
      && (s.currentImport.Some? && n.NamespaceImportNode? ==>
            t.currentImport == Some(s.currentImport.value.(prefix := Some(n.name))))
      && (s.currentImport.Some? && n.StringLiteralNode? ==>
            t.currentImport == Some(s.currentImport.value.(
              relativePath := Some(n.text), fullPath := Some(ResolvePathStringLiteral(sourceFileName, n.text)))))
      && (!n.NamespaceImportNode? && !n.StringLiteralNode? ==> t.currentImport == s.currentImport)
  {
  }

  /** The walk up to one more node is a step from the walk before it. */
  lemma TraceSnoc(sourceFileName: string, sourcePath: string, tokenToString: nat -> string, init: seq<Node>, n: Node)
    requires Trace(sourceFileName, sourcePath, tokenToString, init + [n]).Ok?
    ensures Trace(sourceFileName, sourcePath, tokenToString, init).Ok?
    ensures Trace(sourceFileName, sourcePath, tokenToString, init + [n])
         == Step(Trace(sourceFileName, sourcePath, tokenToString, init).value, sourceFileName, tokenToString, n)
  {
    assert (init + [n])[..|init|] == init;
  }

  /** The imports recorded after `es` are `ImportsOf(es)`, and the one
      being read is `PendingImport(es)`. */
  lemma {:induction false} TraceImports(sourceFileName: string, sourcePath: string, tokenToString: nat -> string, es: seq<Node>)
    requires Trace(sourceFileName, sourcePath, tokenToString, es).Ok?
    ensures var s := Trace(sourceFileName, sourcePath, tokenToString, es).value;
      s.data.imports == ImportsOf(sourceFileName, es) && s.currentImport == PendingImport(sourceFileName, es)
    decreases |es|
  {
    if |es| > 0 {
      var init, n := es[..|es| - 1], es[|es| - 1];
      assert es == init + [n];
      TraceSnoc(sourceFileName, sourcePath, tokenToString, init, n);
      TraceImports(sourceFileName, sourcePath, tokenToString, init);
      ImportsStep(sourceFileName, tokenToString, Trace(sourceFileName, sourcePath, tokenToString, init).value, init, n);
    }
  }

  /** After `es` the record holds the file's path and its name without
      `.ts`, and the enum and type alias names of `es` in order. */
  lemma {:induction false} TraceDeclarations(sourceFileName: string, sourcePath: string, tokenToString: nat -> string, es: seq<Node>)
    requires Trace(sourceFileName, sourcePath, tokenToString, es).Ok?
    ensures var s := Trace(sourceFileName, sourcePath, tokenToString, es).value;
      && s.data.filePath == sourcePath
      && s.data.fileName == BasenameWithoutExt(sourceFileName, ".ts")
      && s.data.enums == EnumsOf(es)
      && s.data.customTypes == TypeAliasesOf(es)
    decreases |es|
  {
    if |es| > 0 {
      var init, n := es[..|es| - 1], es[|es| - 1];
      TraceDeclarations(sourceFileName, sourcePath, tokenToString, init);
      DeclarationsStep(sourceFileName, tokenToString, Trace(sourceFileName, sourcePath, tokenToString, init).value, n);
    }
  }

  /** One node changes the file's path and name never, and its enums and
      type aliases only by appending the node's own declaration. */
  lemma DeclarationsStep(sourceFileName: string, tokenToString: nat -> string, s: Snapshot, n: Node)
    requires Step(s, sourceFileName, tokenToString, n).Ok?
    ensures var t := Step(s, sourceFileName, tokenToString, n).value.data;
      && t.filePath == s.data.filePath
      && t.fileName == s.data.fileName
      && t.enums == s.data.enums + (if n.EnumDeclarationNode? then [NamedType(n.name)] else [])
      && t.customTypes == s.data.customTypes + (if n.TypeAliasDeclarationNode? then [NamedType(n.name)] else [])
  {
  }

  lemma {:induction false} DeclaredIffInterface(es: seq<Node>, name: string)
    ensures Declared(es, name) <==> exists k :: 0 <= k < |InterfacesOf(es)| && InterfacesOf(es)[k].name == name
    decreases |es|
  {
    if |es| > 0 {
      var init, n := es[..|es| - 1], es[|es| - 1];
      DeclaredIffInterface(init, name);
      var ds := InterfacesOf(init);
      if Declared(es, name) {
        var j :| 0 <= j < |es| && es[j].InterfaceNode? && es[j].decl.name == name;
        if j < |init| {
          assert init[j] == es[j];
          var k :| 0 <= k < |ds| && ds[k].name == name;
          assert InterfacesOf(es)[k] == ds[k];
        } else {
          assert InterfacesOf(es)[|ds|].name == name;
        }
      }
      if exists k :: 0 <= k < |InterfacesOf(es)| && InterfacesOf(es)[k].name == name {
        var k :| 0 <= k < |InterfacesOf(es)| && InterfacesOf(es)[k].name == name;
        if k < |ds| {
          assert ds[k].name == name;
          var j :| 0 <= j < |init| && init[j].InterfaceNode? && init[j].decl.name == name;
          assert es[j] == init[j];
        } else {
          assert es[|init|].InterfaceNode? && es[|init|].decl.name == name;
        }
      }
    }
  }

  lemma PropsOfSnoc(es: seq<Node>, n: Node, name: string, tokenToString: nat -> string)
    requires !(n.PropertySignatureNode? && n.parentInterface == Some(name) && n.typeNode.Some?)
    ensures PropsOf(es + [n], name, tokenToString) == PropsOf(es, name, tokenToString)
  {
    assert (es + [n])[..|es|] == es;
  }

  lemma InterfacesOfSnoc(es: seq<Node>, n: Node)
    ensures InterfacesOf(es + [n]) == InterfacesOf(es) + (if n.InterfaceNode? then [n.decl] else [])
  {
    assert (es + [n])[..|es|] == es;
  }

  lemma FirstOfNameSnoc(ds: seq<InterfaceDecl>, d: InterfaceDecl, k: nat)
    requires k < |ds|
    ensures FirstOfName(ds + [d], k) == FirstOfName(ds, k)
  {
    assert forall j :: 0 <= j <= k ==> (ds + [d])[j] == ds[j];
  }

  /** A state of a given name is recorded exactly when an interface of that
      name has been declared. */
  lemma FirstNamedIffDeclared(es: seq<Node>, name: string, tokenToString: nat -> string)
    ensures FirstNamed(StatesOf(es, tokenToString), name).Some? <==> Declared(es, name)
  {
    var ds := InterfacesOf(es);
    var r := StatesOf(es, tokenToString);
    DeclaredIffInterface(es, name);
    if Declared(es, name) {
      var k :| 0 <= k < |ds| && ds[k].name == name;
      assert r[k].name == name;
    }
  }

  /** A node that is neither an interface nor a typed interface property
      leaves the states as they are. */
  lemma StatesOfOther(es: seq<Node>, n: Node, tokenToString: nat -> string)
    requires !n.InterfaceNode?
    requires !(n.PropertySignatureNode? && n.parentInterface.Some? && n.typeNode.Some?)
    ensures StatesOf(es + [n], tokenToString) == StatesOf(es, tokenToString)
  {
    InterfacesOfSnoc(es, n);
    var ds := InterfacesOf(es);
    var r, r' := StatesOf(es + [n], tokenToString), StatesOf(es, tokenToString);
    assert InterfacesOf(es + [n]) == ds;
    forall k | 0 <= k < |ds| ensures r[k] == r'[k] {
      PropsOfSnoc(es, n, ds[k].name, tokenToString);
    }
  }

  lemma PropsOfAdd(es: seq<Node>, n: Node, tokenToString: nat -> string)
    requires n.PropertySignatureNode? && n.parentInterface.Some? && n.typeNode.Some?
    ensures PropsOf(es + [n], n.parentInterface.value, tokenToString)
         == PropsOf(es, n.parentInterface.value, tokenToString) + [FieldOf(n.name, n.typeNode.value, tokenToString)]
  {
    assert (es + [n])[..|es|] == es;
  }

  /** An interface declaration adds the state the interface visitor saves. */
  lemma StatesOfInterface(es: seq<Node>, d: InterfaceDecl, tokenToString: nat -> string)
    requires forall name :: !Declared(es, name) ==> PropsOf(es, name, tokenToString) == []
    ensures StatesOf(es + [InterfaceNode(d)], tokenToString) == StatesOf(es, tokenToString) + [InterfaceVisitor.Visit(d)]
  {
    var n := InterfaceNode(d);
    InterfacesOfSnoc(es, n);
    var ds := InterfacesOf(es);
    assert InterfacesOf(es + [n]) == ds + [d];
    var r, r' := StatesOf(es + [n], tokenToString), StatesOf(es, tokenToString);
    forall k | 0 <= k < |ds| ensures r[k] == r'[k] {
      assert r[k] == StateFor(es + [n], ds + [d], k, tokenToString);
      assert r'[k] == StateFor(es, ds, k, tokenToString);
      PropsOfSnoc(es, n, ds[k].name, tokenToString);
      FirstOfNameSnoc(ds, d, k);
      assert (ds + [d])[k] == ds[k];
    }
    assert r[|ds|] == InterfaceVisitor.Visit(d) by {
      assert r[|ds|] == StateFor(es + [n], ds + [d], |ds|, tokenToString);
      assert (ds + [d])[|ds|] == d;
      PropsOfSnoc(es, n, d.name, tokenToString);
      if FirstOfName(ds + [d], |ds|) {
        DeclaredIffInterface(es, d.name);
        assert forall k :: 0 <= k < |ds| ==> ds[k] == (ds + [d])[k];
      }
    }
    assert r == r' + [InterfaceVisitor.Visit(d)];
  }

  /** A typed property of an interface adds its field to the first state of
      that interface's name. */
  lemma StatesOfProperty(es: seq<Node>, n: Node, i: nat, tokenToString: nat -> string)
    requires n.PropertySignatureNode? && n.parentInterface.Some? && n.typeNode.Some?
    requires FirstNamed(StatesOf(es, tokenToString), n.parentInterface.value) == Some(i)
    ensures var states := StatesOf(es, tokenToString);
      StatesOf(es + [n], tokenToString)
      == states[i := states[i].(fields := states[i].fields + [FieldOf(n.name, n.typeNode.value, tokenToString)])]
  {
    var name := n.parentInterface.value;
    var f := FieldOf(n.name, n.typeNode.value, tokenToString);
    InterfacesOfSnoc(es, n);
    var ds := InterfacesOf(es);
    assert InterfacesOf(es + [n]) == ds;
    var states := StatesOf(es, tokenToString);
    var r := StatesOf(es + [n], tokenToString);
    var upd := states[i := states[i].(fields := states[i].fields + [f])];
    assert ds[i].name == name;
    assert FirstOfName(ds, i) by {
      forall j | 0 <= j < i ensures ds[j].name != name { assert states[j].name == ds[j].name; }
    }
    forall k | 0 <= k < |ds| ensures r[k] == upd[k] {
      assert r[k] == StateFor(es + [n], ds, k, tokenToString);
      assert states[k] == StateFor(es, ds, k, tokenToString);
      if k == i {
        PropsOfAdd(es, n, tokenToString);
      } else if ds[k].name != name {
        PropsOfSnoc(es, n, ds[k].name, tokenToString);
      } else {
        assert states[k].name == name;
        assert !FirstOfName(ds, k);
      }
    }
  }

  /** The states recorded after `es` are `StatesOf(es)`, and nothing has
      been collected for a name no interface has had so far. */
  lemma {:induction false} TraceStates(sourceFileName: string, sourcePath: string, tokenToString: nat -> string, es: seq<Node>)
    requires Trace(sourceFileName, sourcePath, tokenToString, es).Ok?
    ensures Trace(sourceFileName, sourcePath, tokenToString, es).value.data.states == StatesOf(es, tokenToString)
    ensures forall name :: !Declared(es, name) ==> PropsOf(es, name, tokenToString) == []
    decreases |es|
  {
    if |es| > 0 {
      var init, n := es[..|es| - 1], es[|es| - 1];
      assert es == init + [n];
      TraceSnoc(sourceFileName, sourcePath, tokenToString, init, n);
      TraceStates(sourceFileName, sourcePath, tokenToString, init);
      StatesStep(sourceFileName, tokenToString, Trace(sourceFileName, sourcePath, tokenToString, init).value, init, n);
      UndeclaredStaysEmpty(init, n, tokenToString);
    }
  }

  /** One node keeps the snapshot's states in step with `StatesOf`; a typed
      property that walks on follows an interface of its parent's name. */
  lemma StatesStep(sourceFileName: string, tokenToString: nat -> string, s: Snapshot, init: seq<Node>, n: Node)
    requires s.data.states == StatesOf(init, tokenToString)
    requires forall name :: !Declared(init, name) ==> PropsOf(init, name, tokenToString) == []
    requires Step(s, sourceFileName, tokenToString, n).Ok?
    ensures Step(s, sourceFileName, tokenToString, n).value.data.states == StatesOf(init + [n], tokenToString)
    ensures n.PropertySignatureNode? && n.parentInterface.Some? && n.typeNode.Some? ==> Declared(init, n.parentInterface.value)
  {
    if n.InterfaceNode? {
      StatesOfInterface(init, n.decl, tokenToString);
    } else if n.PropertySignatureNode? && n.parentInterface.Some? && n.typeNode.Some? {
      FirstNamedIffDeclared(init, n.parentInterface.value, tokenToString);
      StatesOfProperty(init, n, FirstNamed(s.data.states, n.parentInterface.value).value, tokenToString);
    } else {
      StatesOfOther(init, n, tokenToString);
    }
  }

  /** Properties are collected for a name only after an interface of that
      name, as long as every typed property follows one. */
  lemma UndeclaredStaysEmpty(es: seq<Node>, n: Node, tokenToString: nat -> string)
    requires forall name :: !Declared(es, name) ==> PropsOf(es, name, tokenToString) == []
    requires n.PropertySignatureNode? && n.parentInterface.Some? && n.typeNode.Some? ==> Declared(es, n.parentInterface.value)
    ensures forall name :: !Declared(es + [n], name) ==> PropsOf(es + [n], name, tokenToString) == []
  {
    forall name | !Declared(es + [n], name)
      ensures PropsOf(es + [n], name, tokenToString) == []
    {
      assert forall j :: 0 <= j < |es| ==> (es + [n])[j] == es[j];
      PropsOfSnoc(es, n, name, tokenToString);
    }
  }
  /** What `getSourceData` records, in terms of the nodes: the file's path
      and name, one state per interface declaration (`StatesOf`), one
      import per import declaration that a later boundary node closes
      (`ImportsOf`), and the enum and type alias names in order. */
  lemma AnalyzeRecords(sourceFileName: string, sourcePath: string, tokenToString: nat -> string, events: seq<Node>)
    requires Analyze(sourceFileName, sourcePath, tokenToString, events).Ok?
    ensures var d := Analyze(sourceFileName, sourcePath, tokenToString, events).value;
      && d.filePath == sourcePath
      && d.fileName == BasenameWithoutExt(sourceFileName, ".ts")
      && d.states == StatesOf(events, tokenToString)
      && d.imports == ImportsOf(sourceFileName, events)
      && d.enums == EnumsOf(events)
      && d.customTypes == TypeAliasesOf(events)
  {
    TraceDeclarations(sourceFileName, sourcePath, tokenToString, events);
    TraceImports(sourceFileName, sourcePath, tokenToString, events);
    TraceStates(sourceFileName, sourcePath, tokenToString, events);
  }

  /** The walk succeeds exactly when no node is faulty after the nodes
      before it: every namespace import lies inside an import declaration,
      and every property of an interface has a type and follows an
      interface of that name. */
  lemma {:induction false} AnalyzeSucceedsIff(sourceFileName: string, sourcePath: string, tokenToString: nat -> string, events: seq<Node>)
    ensures Analyze(sourceFileName, sourcePath, tokenToString, events).Ok?
        <==> forall i :: 0 <= i < |events| ==> !Faulty(events[..i], events[i])
    decreases |events|
  {
    if |events| > 0 {
      var init, n := events[..|events| - 1], events[|events| - 1];
      AnalyzeSucceedsIff(sourceFileName, sourcePath, tokenToString, init);
      NoFaultSnoc(init, n);
      assert events == init + [n];
      if Trace(sourceFileName, sourcePath, tokenToString, init).Ok? {
        var s := Trace(sourceFileName, sourcePath, tokenToString, init).value;
        TraceImports(sourceFileName, sourcePath, tokenToString, init);
        TraceStates(sourceFileName, sourcePath, tokenToString, init);
        StepOkIff(sourceFileName, tokenToString, s, init, n);
      }
    }
  }

  /** No node of `init + [n]` is faulty exactly when none of `init` is and
      `n` is not after `init`. */
  lemma NoFaultSnoc(init: seq<Node>, n: Node)
    ensures (forall i :: 0 <= i < |init + [n]| ==> !Faulty((init + [n])[..i], (init + [n])[i]))
        <==> (forall i :: 0 <= i < |init| ==> !Faulty(init[..i], init[i])) && !Faulty(init, n)
  {
    var es := init + [n];
    assert forall i :: 0 <= i < |init| ==> es[..i] == init[..i] && es[i] == init[i];
    assert es[..|init|] == init;
  }

  /** After nodes that walked without exception, the next node raises one
      exactly when it is faulty. */
  lemma StepOkIff(sourceFileName: string, tokenToString: nat -> string, s: Snapshot, init: seq<Node>, n: Node)
    requires s.currentImport == PendingImport(sourceFileName, init)
    requires s.data.states == StatesOf(init, tokenToString)
    ensures Step(s, sourceFileName, tokenToString, n).Ok? <==> !Faulty(init, n)
  {
    if n.PropertySignatureNode? && n.parentInterface.Some? && n.typeNode.Some? {
      FirstNamedIffDeclared(init, n.parentInterface.value, tokenToString);
    }
  }

}
