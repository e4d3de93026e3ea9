# bobflux-gen core in Dafny

bobflux-gen reads the TypeScript file that declares an application's
state interfaces and generates code for them. This project models,
and proves properties of, the deterministic core of the generator:

- **the source analyzer** (`src/tsAnalyzer.ts`, with
  `src/visitors/interfaceDeclarationVisitor.ts`). It walks the syntax
  tree of a source file once. The walk records the file's path and name,
  one state record per interface with that interface's properties as
  fields, the namespace imports, and the names of enums and type
  aliases. The tree is the sequence of its nodes in pre-order
  (`Syntax.Node`). `Analyzer.Step` is what one node does to the
  analyzer's state. The class `Analyzer.SourceAnalyzer` holds that state
  in fields, and `Analyzer.GetSourceData` loops over the nodes. The
  reference definitions (`StatesOf`, `ImportsOf`, `EnumsOf`,
  `TypeAliasesOf`) state the outcome directly in terms of the nodes.
- **the cursors generator** (`src/cursorsGenerator.ts`). It produces the
  text of `cursors.ts`:
  - a two-line import header, an empty line and a root cursor typed
    with the main state;
  - then one cursor declaration per field of every state, named after
    the field in the main state and after `getStatePrefix` elsewhere.
- **the builders generator** (`src/buildersGenrator.ts`). For the main
  state and, recursively, for every state one of its fields names, it
  produces a builder class: a header, one `with…` setter per field and a
  `build()` method. The module's imports come first, re-rooted when the
  builders are written into another directory.
- **path arithmetic** (`src/pathUtils.ts`). POSIX `join`, `dirname` and
  `relative` are modelled on segment sequences (`Paths.Path`), together
  with the two compositions the generator uses.

Modules: `Wrappers` (Option/Result), `Strings` (join, split, search,
ASCII case), `Paths`, `Schema` (the records the analyzer produces and the
generators consume), `Syntax` (the nodes the analyzer reads),
`InterfaceVisitor`, `Analyzer`, `CursorsGenerator`, `BuildersGenerator`.

The helpers the builders generator calls but whose bodies are not part of
this model are uninterpreted function fields of `BuildersGenerator.Env`,
and nothing is assumed about them:
- `nameUnifier.removeIfacePrefix` and `nameUnifier.getStatePrefixFromKeyPrefix`;
- `g.composeCursorKey`, `g.resolveState`, `g.resolveBobfluxPrefix`;
- `g.createUnusedAlias`, `g.createFullImports`;
- `pu.createBuildersFilePath`.

`ts.tokenToString` is a parameter of the analyzer. The process's working
directory, which `path.relative` resolves against, is the parameter `cwd`.
The state file that `g.loadSourceFiles` returns reaches the builders
generator's `Run` as two parameters: its path `stateFilePath` and its
analysed contents `data`.

Behaviours of the code that the model keeps as written:
- No set of already-emitted builders is kept. A state reached through two
  fields is emitted twice (`NextsNotShared`), and a state that reaches
  itself through one or more nested fields recurses until the stack runs
  out (`CycleTooDeep`).
- The analyzer records the file name without its `.ts` extension
  (`src/tsAnalyzer.ts:54`), so the state module is imported from
  `./stateWithNestedState`. The generator's tests expect
  `./stateWithNestedState.ts` (`spec/cursorsGenerator.spec.ts:93`). Apart
  from that line, `NestedStateCursors` and `BaseTypesCursors` give the
  tests' expected texts line for line.

## Model

| member | source | states |
|---|---|---|
| Paths.RelativeToItself | src/pathUtils.ts:8-10 | the path from a directory to itself is the empty relative path |
| Paths.RelativeRoundTrip | src/pathUtils.ts:8-10 | joining the resolved base with `relative(base, target)` gives the resolved target, for all inputs |
| Paths.RelativeClimbsIffOutside | src/pathUtils.ts:9 | if the target lies under the base, the relative path is the target's remaining segments; it has no `..` exactly when the target lies under the base, and otherwise starts with `..` |
| Paths.RelativeNoSlash | src/pathUtils.ts:9 | the relative path's segments contain no `/` when the working directory and the target's segments contain none |
| Paths.NormalizePathRoundTrip | src/pathUtils.ts:3-6 | joining the resolved base with `normalizePath(base, root, rel)` gives `rel` resolved against the root file's directory |
| Paths.RerootedJoinResolvesSame | src/pathUtils.ts:8-10 | a path taken relative to `toDir` and re-rooted through `relative(fromDir, toDir)` under `fromDir` resolves to the same place |
| Paths.JoinCollapsesParent | src/pathUtils.ts:4 | a leading `..` of the joined part climbs out of the last directory: `join(a, '../r') == join(dirname(a), r)` |
| Paths.JoinSkipsCurrent | src/pathUtils.ts:4 | a leading `.` of the joined part is dropped |
| Paths.DirnameBasenameJoin | src/pathUtils.ts:4 | joining `dirname(p)` with `basename(p)` gives a normal `p` back |
| Paths.NormalizeIdempotent | src/pathUtils.ts:4 | normalising a normalised segment sequence changes nothing |
| Paths.ResolveJoin | src/pathUtils.ts:4-5 | resolving a join is joining onto the resolved left part |
| Paths.JoinAbsoluteAssociative | src/pathUtils.ts:4 | joins onto an absolute path associate |
| Paths.FormatParseRoundTrip | src/buildersGenrator.ts:91-97 | reading back the text of a normal path gives the path (up to `.` for the empty relative path) |
| Paths.FormatJoinParse | src/buildersGenrator.ts:91 | joining the text of a normal path is joining the path itself |
| Analyzer.ResolvePathStringLiteralFromDirectory | src/tsAnalyzer.ts:12 | a string literal's path, once resolved, is the literal joined onto the resolved directory of the source file |
| Analyzer.Start | src/tsAnalyzer.ts:21-32 | before any node below the source file: the file's path, its base name without `.ts`, empty lists, no pending import |
| Analyzer.FieldOf | src/tsAnalyzer.ts:98-105 | a property's field has the property's name; `isState` exactly for a type reference (type = referenced name), `isArray` exactly for an array type (type = element type) |
| Analyzer.SourceAnalyzer.constructor | src/tsAnalyzer.ts:21-32 | a fresh analyzer holds the start state for the given file |
| Analyzer.SourceAnalyzer.Visit | src/tsAnalyzer.ts:35-108 | visiting a node moves the fields to the state `Step` gives, or reports the exception `Step` raises |
| Analyzer.GetSourceData | src/tsAnalyzer.ts:20-113 | the loop over the nodes returns exactly `Analyze` of them: the record, or the first exception |
| Analyzer.TraceErrPersists | src/tsAnalyzer.ts:35-110 | once a node raises, later nodes change nothing |
| Analyzer.LastBoundary | src/tsAnalyzer.ts:56-62 | the position of the last import, interface or class declaration, and that no later node is one |
| Analyzer.LastNamespaceName | src/tsAnalyzer.ts:67-71 | the name of a namespace import with no namespace import after it, or that none occurs |
| Analyzer.LastStringLiteral | src/tsAnalyzer.ts:38-45 | the text of a string literal with no string literal after it, or that none occurs |
| Analyzer.ImportsStepBoundary | src/tsAnalyzer.ts:56-62 | an import, interface or class declaration appends the pending import, if any; only an import declaration opens a fresh one with nulls |
| Analyzer.ImportsStepInner | src/tsAnalyzer.ts:38-45 | a namespace import sets the pending import's prefix; a string literal sets its relative and full path; with no pending import nothing is opened |
| Analyzer.ImportsStep | src/tsAnalyzer.ts:38-78 | each step keeps the imports and the pending import equal to their reference definitions |
| Analyzer.TraceImports | src/tsAnalyzer.ts:32-110 | after any successful walk, the imports and the pending import are their reference definitions (a pending import never flushed is not recorded) |
| Analyzer.DeclarationsStep | src/tsAnalyzer.ts:79-88 | an enum or type alias appends its name to `enums` or `customTypes`; path and file name never change |
| Analyzer.TraceDeclarations | src/tsAnalyzer.ts:50-55 | after a successful walk: the file's path, its base name without `.ts`, and the enums and type aliases in visit order |
| Analyzer.DeclaredIffInterface | src/tsAnalyzer.ts:36 | a name is declared exactly when some visited interface has that name |
| Analyzer.FirstNamedIffDeclared | src/tsAnalyzer.ts:96 | a state record of a name exists exactly when that interface was visited |
| Analyzer.StatesOf | src/tsAnalyzer.ts:36 | one state per visited interface, in order and with its name |
| Analyzer.StateFor | src/tsAnalyzer.ts:36 | the state recorded for an interface has its name |
| Analyzer.StatesOfInterface | src/visitors/interfaceDeclarationVisitor.ts:11-19 | an interface appends the visitor's record, with no fields yet |
| Analyzer.StatesOfProperty | src/tsAnalyzer.ts:92-106 | a typed property of an interface appends its field to the first state of that interface's name, changing nothing else |
| Analyzer.StatesOfOther | src/tsAnalyzer.ts:35-108 | any other node leaves the states unchanged |
| Analyzer.StatesStep | src/tsAnalyzer.ts:92-107 | each step keeps the states equal to their reference definition; a property reaches only an interface already visited |
| Analyzer.TraceStates | src/tsAnalyzer.ts:36-108 | after any successful walk, the states are their reference definition |
| Analyzer.AnalyzeRecords | src/tsAnalyzer.ts:20-113 | a successful analysis records path, file name, states, imports, enums and type aliases as their reference definitions |
| Analyzer.StepOkIff | src/tsAnalyzer.ts:67-71 | a step raises exactly when the node is faulty: a namespace import with no pending import, or an interface property without a type or of an unknown interface |
| Analyzer.AnalyzeSucceedsIff | src/tsAnalyzer.ts:67-107 | the analysis succeeds exactly when no node is faulty after those before it |
| InterfaceVisitor.MapHeritages | src/visitors/interfaceDeclarationVisitor.ts:16 | one heritage text per clause, each the clause's type texts joined by `;` |
| InterfaceVisitor.Visit | src/visitors/interfaceDeclarationVisitor.ts:9-20 | the record has the interface's name, the parent's file name, no fields, source `cls`, the type parameters as generics, and one heritage per clause (none without clauses) |
| InterfaceVisitor.VisitHeritagesRoundTrip | src/visitors/interfaceDeclarationVisitor.ts:16 | splitting a saved heritage at `;` gives back the clause's type texts |
| Schema.StatesNamedMembers | src/tsAnalyzer.ts:96 | the filter keeps exactly the states of that name |
| Schema.StatesNamedEmpty | src/buildersGenrator.ts:69-70 | the filter is non-empty exactly when some state has that name |
| Schema.FirstNamed | src/tsAnalyzer.ts:96 | the position of the first state of that name, or that none has it |
| Schema.StatesNamedFirst | src/tsAnalyzer.ts:96 | the filter's first element is the first state of that name |
| Schema.StatesNamedUnique | src/buildersGenrator.ts:69-75 | with unique names, the filter holds at most one state, exactly the one of that name |
| CursorsGenerator.GetStatePrefixOfStateName | src/cursorsGenerator.ts:50-56 | for `I<w>State`, the prefix is `w` with a lower-case first letter followed by the property's name with an upper-case first letter |
| CursorsGenerator.GetStatePrefixExample | src/cursorsGenerator.ts:50-56 | `ISecondNestedState` with `stringValue` gives `secondNestedStringValue` |
| CursorsGenerator.StatePrefixUndefinedExample | src/cursorsGenerator.ts:52-53 | a name that does not start with `I` once `State` is removed (`Nested`) is refused |
| CursorsGenerator.FirstBadState | src/cursorsGenerator.ts:37 | a non-main state with fields whose name `getStatePrefix` refuses, every such state before it being accepted; or that there is none |
| CursorsGenerator.FieldBlocks | src/cursorsGenerator.ts:34-40 | one cursor block per field, in field order |
| CursorsGenerator.StateTexts | src/cursorsGenerator.ts:32-41 | one text per state |
| CursorsGenerator.StateTextsAt | src/cursorsGenerator.ts:32-41 | the k-th text is the text of the k-th state (at its own index), so contents and order are the states' |
| CursorsGenerator.CursorsText | src/cursorsGenerator.ts:26-42 | fails with `NoStates` exactly when there are no states; succeeds exactly when every prefix reached is defined; names the refused state otherwise; the text starts with the header and ends with a line break |
| CursorsGenerator.Run | src/cursorsGenerator.ts:26-43 | the text is written under `cursors.ts`, exactly when the text is defined |
| CursorsGenerator.CursorBlockLines | src/cursorsGenerator.ts:36-39 | a cursor block is an empty line, the declaration named `<name>Cursor` typed `s.<type>` for a state field and `<type>` otherwise, the key line holding the field's own name, and `}` |
| CursorsGenerator.FieldBlocksLines | src/cursorsGenerator.ts:34-41 | a state's lines are its fields' cursor lines in field order |
| CursorsGenerator.StateTextLines | src/cursorsGenerator.ts:34-41 | a state's text splits into its cursor lines, or one empty line for a state without fields |
| CursorsGenerator.StateTextsLines | src/cursorsGenerator.ts:32-42 | the states' texts split into their lines in state order |
| CursorsGenerator.CursorsTextLines | src/cursorsGenerator.ts:26-42 | the whole text, line by line: the two imports, an empty line, the root cursor, every state's cursor lines in order, and a final empty line after the last break |
| CursorsGenerator.NestedStateCursors | spec/cursorsGenerator.spec.ts:92-116 | for the tests' `stateWithNestedState.ts`, the text is the expected one: root cursor, the three main cursors, then `nestedNumberValueCursor` and `secondNestedStringValueCursor` (module path without `.ts`) |
| CursorsGenerator.BaseTypesCursors | spec/cursorsGenerator.spec.ts:173-185 | for the tests' `stateWithBaseTypes.ts`, the text is the expected one (module path without `.ts`) |
| BuildersGenerator.HeaderTextLines | src/buildersGenrator.ts:121-126 | the header is `export class <Name> {`, `    private state: <stateName> = <alias>.default();`, and an empty line |
| BuildersGenerator.WithTextLines | src/buildersGenrator.ts:128-134 | a setter is the `public with…(<field>: <type>): <Name> {` line, the assignment `this.state.<field> = <field>;`, `return this;` and `};` |
| BuildersGenerator.FooterLines | src/buildersGenrator.ts:136-150 | `build()` always returns `this.state`; the bootstrap line appears exactly when the bobflux prefix is present and not empty |
| BuildersGenerator.FooterTextLines | src/buildersGenrator.ts:136-150 | the footer text is those lines |
| BuildersGenerator.FieldTypeQualified | src/buildersGenrator.ts:58-71 | a field's type gets `[]` for an array and is qualified by the state alias exactly when some state of the module has that name |
| BuildersGenerator.SetterTextsAt | src/buildersGenrator.ts:55-78 | the k-th setter is the setter of the k-th field with its emitted type |
| BuildersGenerator.SetterTextsLines | src/buildersGenrator.ts:55-78 | the setters joined by line breaks are their lines in field order, with an empty line between two setters |
| BuildersGenerator.ClassTextLines | src/buildersGenrator.ts:52-79 | a builder class is the header's, the setters' and the footer's lines in that order; the footer is given the bobflux prefix only for the current main state |
| BuildersGenerator.NextsStates | src/buildersGenrator.ts:69-73 | every nested builder is for a state of the module that some field's type names |
| BuildersGenerator.NextsEmpty | src/buildersGenrator.ts:72-73 | there are no nested builders exactly when no field's type names a state |
| BuildersGenerator.NextsCovers | src/buildersGenrator.ts:72-73 | every field naming a state yields a nested builder for the first such state |
| BuildersGenerator.NextsNotShared | src/buildersGenrator.ts:72-73 | two fields naming states yield two nested builders in field order, even for the same state |
| BuildersGenerator.MapFields | src/buildersGenrator.ts:55-78 | the loop over the fields fails exactly when a field's type names two states, with that error, and otherwise yields the setters and the nested builders |
| BuildersGenerator.CreateFieldsContent | src/buildersGenrator.ts:49-82 | the imperative construction returns exactly `FieldsContent` |
| BuildersGenerator.CreateNestedContents | src/buildersGenrator.ts:81 | the nested builders' texts, in order, or the first error |
| BuildersGenerator.FieldsContentStartsWithClass | src/buildersGenrator.ts:54-81 | a state's content starts with its own builder class |
| BuildersGenerator.FieldsContentErrors | src/buildersGenrator.ts:74-75 | the content fails only because a type names two states or the recursion is too deep |
| BuildersGenerator.UniqueNeverTwoStates | src/buildersGenrator.ts:74-75 | with unique state names the two-states failure never happens |
| BuildersGenerator.FieldsContentIgnoresKeys | src/buildersGenrator.ts:57 | the keys threaded down reach only the helper; the content does not depend on them |
| BuildersGenerator.FieldsContentMoreFuel | src/buildersGenrator.ts:81 | a content that is not cut short stays the same with one more level of depth allowed |
| BuildersGenerator.NestedContentsAt | src/buildersGenrator.ts:81 | the k-th nested text is the content of the k-th nested state under its key |
| BuildersGenerator.NestedContentsFirstError | src/buildersGenrator.ts:81 | a failed nested list fails with the error of its first failing state |
| BuildersGenerator.NextsVisit | src/buildersGenrator.ts:69-73 | with unique names, a field typed by a state yields a nested builder of that state |
| BuildersGenerator.CycleTooDeep | src/buildersGenrator.ts:69-81 | with unique names, every state on a cycle of one or more nested fields never finishes, at any depth |
| BuildersGenerator.SelfContainingTooDeep | src/buildersGenrator.ts:69-81 | a state with a field of its own type never finishes |
| BuildersGenerator.RankedBuilds | src/buildersGenrator.ts:49-82 | with unique names and an acyclic state graph, the content is produced |
| BuildersGenerator.RerootImports | src/buildersGenrator.ts:94-98 | re-rooting keeps each import's prefix and full path and gives its relative path as `path.join` with the root path gives it (an empty root path is skipped); it fails exactly when some relative path is missing |
| BuildersGenerator.EmptyRootKeepsAbsolute | src/buildersGenrator.ts:97 | with an empty root path, `/x` stays `/x`, as `path.join('', '/x')` leaves it |
| BuildersGenerator.StateModulePath | src/buildersGenrator.ts:89-91 | `./<fileName>` without a relative path, the file name joined under the root otherwise |
| BuildersGenerator.FullImports | src/buildersGenrator.ts:92-98 | the imports unchanged without a relative path, re-rooted otherwise |
| BuildersGenerator.RerootedPathResolvesSame | src/buildersGenrator.ts:46-47 | a path re-rooted for the builders file, looked up from its directory, resolves to what the original resolves to from the state file's directory, for every path that is not absolute and for every path when the root path is empty |
| BuildersGenerator.RerootedImportsResolveSame | src/buildersGenrator.ts:92-98 | every re-rooted import path, looked up from the builders file's directory, resolves to the file the original resolved to, with the same limits; it names the same module only for a relative specifier that stays relative (see Findings) |
| BuildersGenerator.RerootMakesAbsoluteRelative | src/buildersGenrator.ts:94-98 | the absolute specifier `/x`, re-rooted under `..`, becomes the relative `../x` |
| BuildersGenerator.RerootRewritesPackage | src/buildersGenrator.ts:94-98 | the package specifier `bobflux`, re-rooted under `..`, becomes the path `../bobflux` |
| BuildersGenerator.StateModuleLosesCurrent | src/buildersGenrator.ts:89-91 | with the relative path `.`, the state module `state` is imported as the package specifier `state` |
| BuildersGenerator.RerootSpecifier | src/buildersGenrator.ts:89-98 | the corrected re-rooting keeps a package specifier and an absolute one unchanged and keeps a relative specifier relative |
| BuildersGenerator.RerootSpecifierResolvesSame | src/buildersGenrator.ts:89-98 | every specifier starting with `./`, `../` or `/`, re-rooted the corrected way and looked up from the builders file's directory, resolves to the file it resolved to from the state file's directory |
| BuildersGenerator.StateModulePathIntended | src/buildersGenrator.ts:89-91 | the corrected state module path always reads as a path, and is `./<fileName>` without relocation |
| BuildersGenerator.StateModulePathIntendedResolvesSame | src/buildersGenrator.ts:89-91 | when relocating, the corrected state module path looked up from the builders file's directory names the file `./<fileName>` names from the state file's directory |
| BuildersGenerator.WriteBuilders | src/buildersGenrator.ts:40-103 | nothing is written exactly when the main state cannot be resolved; what is written goes to the builders file path |
| BuildersGenerator.WrittenWhenRanked | src/buildersGenrator.ts:40-103 | with unique names, an acyclic graph and joinable imports, the builders are written |
| BuildersGenerator.CyclicMainFails | src/buildersGenrator.ts:31-35 | with unique names, a main state on a cycle of nested fields fails with `TooDeep` and nothing is written |
| BuildersGenerator.DuplicateMainFails | src/buildersGenrator.ts:74-75 | a main state with a field whose type names two states fails with `TwoStatesWithSameName` and nothing is written |
| BuildersGenerator.WrittenStartsWithMainClass | src/buildersGenrator.ts:85-101 | the written text starts with the imports followed by the main state's builder class |
| BuildersGenerator.WriteBuildersErrors | src/buildersGenrator.ts:85-101 | a failure is the missing-import-path failure exactly when an import's relative path is missing while re-rooting |
| BuildersGenerator.LoadedFilePathNormalises | src/buildersGenrator.ts:30 | the state file path handed to `writeBuilders` is the loaded path normalised, and a normal path with at least one piece comes back as it is |
| BuildersGenerator.Run | src/buildersGenrator.ts:22-38 | for the loaded state file, nothing is written exactly when the application state cannot be resolved |

## Left out

- The model uses one `name` for the visitor's `typeName`
  (src/visitors/interfaceDeclarationVisitor.ts:12) and the generators'
  `name` (src/cursorsGenerator.ts:29, :37). As the visitor is written,
  `s.name` would be undefined: the header would read `s.undefined`, and
  `getStatePrefix` would throw at `stateName.replace`
  (src/cursorsGenerator.ts:51) for every non-main state with fields.
- Promise plumbing, file I/O and encoding are not modelled. This covers
  `loadSourceFiles`, `writeFileCallback`, `Buffer` and `f()`/`r()`. The
  text is the value that would be written.
- The loop over source files in the cursors generator's `run` is not
  modelled: it is I/O. `CursorsGenerator.Run` is one iteration.
- Logging (`logger.*`, `console.log`) is left out, and so are the
  analyzer's branches that only log (identifiers, import clauses, type
  references).
- The TypeScript compiler is not modelled: program creation, the type
  checker, `ts.forEachChild` and `getText()`. The tree is given as its
  node sequence in pre-order, with the texts already read.
  `ts.tokenToString` is a parameter.
- `bfgVisitor` and `nameUnifier` are not part of this model. The one
  visitor modelled is the interface visitor, which `bfgVisitor` is taken
  to dispatch to on interface declarations.
- The builders generator's external-state branch
  (`src/buildersGenrator.ts:59-68`) is not modelled. It needs
  `g.isExternalState`, `g.resolveSourceFile` and another analyzer run
  over another file. The model runs with `applyRecurse` off.
- The helpers without bodies are uninterpreted `Env` fields. No property
  of them is assumed.
- The analyzer's `sourceFile`, `sourceDeps` and `fluxImportAlias` fields
  are not modelled: the analyzer never changes them from their initial
  values. The visitor's `type: id.kind` field is not modelled either: no
  generator reads it.
- `BuildersGenerator.FieldsContent` does not model the call stack's size.
  Recursion depth is bounded by a fuel of one more than the number of
  states, and running out gives `TooDeep`. That stands for the stack
  overflow of a self-containing state. Acyclic graphs never run out
  (`RankedBuilds`).
- FieldsContentMoreFuel: stated for one extra level of depth. More depth
  follows by repeating it.
- RerootedPathResolvesSame, RerootedImportsResolveSame: an absolute
  specifier re-rooted under a non-empty root path is not promised to
  resolve to the same file. The code turns it into a relative path (third
  row of "## Findings"), and `RerootSpecifierResolvesSame` states the
  corrected behaviour.
- An exception inside `createFieldsContent` may leave partial work. Only
  its outcome is modelled: nothing is written, and the error is
  reported.
- Paths: Windows separators (`replace(/\\/g, "/")`) are not modelled. The
  model covers POSIX paths only.
- Paths: `path.relative` with an empty `baseDirPath` is host-dependent.
  It is modelled as resolution against the parameter `cwd`.
- Case mapping in `getStatePrefix` (`toLowerCase`/`toUpperCase`) covers
  ASCII letters only.
- Paths.Dirname, Paths.Join: repeated and trailing separators are not
  kept. Node's `dirname` and `join` keep them in the text (`join('/a',
  'gen/')` is `/a/gen/`), so the directory texts `BuildersGenerator.Run`
  hands to `pu.createBuildersFilePath` can differ from Node's by such
  separators. The pieces they denote are the same.
- InterfaceVisitor.Accept: a predicate without a contract. It holds
  exactly for interface nodes, which is its definition.
- Unused code in the source is not modelled: `resolveRelativePath` and
  `defaultLibFilename`.

## Findings

| source | as written | input that shows it | evidently intended | confidence | as-written member | corrected member |
|---|---|---|---|---|---|---|
| src/buildersGenrator.ts:94-98 | each import's module specifier is passed through `path.join(rootRelativePath, …)`, package specifiers included | the state file imports `bobflux` and the builders go one directory down: the import becomes `../bobflux` | a package specifier is kept as it is | not executed | BuildersGenerator.RerootRewritesPackage | BuildersGenerator.RerootSpecifier |
| src/buildersGenrator.ts:89-91 | the state module path is `path.join(rootRelativePath, fileName)`, which drops `./` when the root path is empty | a relative path setting (such as `.`) under which the builders file lies in the state file's directory, and the file `state`: the module is imported as `state`, a package name | the state module path reads `./` and the file name, re-rooted | not executed | BuildersGenerator.StateModuleLosesCurrent | BuildersGenerator.StateModulePathIntended |
| src/buildersGenrator.ts:94-98 | an absolute import specifier is joined under the root path | the state file imports `/x` and the builders go one directory down: the import becomes `../x`, a file next to the state file's directory | an absolute specifier is kept as it is | not executed | BuildersGenerator.RerootMakesAbsoluteRelative | BuildersGenerator.RerootSpecifier |

`BuildersGenerator.WriteBuilders` models the code as written: it re-roots
with `RerootText`. `RerootSpecifier` is the corrected re-rooting, and
`RerootSpecifierResolvesSame` proves that it keeps the file a relative
or absolute specifier resolves to. `StateModulePathIntended` is the
corrected state module path, and `StateModulePathIntendedResolvesSame`
proves that it names the state file's module.
