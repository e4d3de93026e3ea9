/** The text of the builders module written for the application state
    (`src/buildersGenrator.ts`): one builder class per state reached from
    the main state through fields typed by a state of the same module, each
    with a `with…` setter per field and a `build()` method, preceded by the
    module's imports.

    The helpers the generator calls but does not define (`nameUnifier`,
    `g.composeCursorKey`, `g.resolveState`, `g.createUnusedAlias`,
    `g.createFullImports`, `g.resolveBobfluxPrefix`,
    `pu.createBuildersFilePath`) are the fields of an `Env`, about which
    nothing is assumed. */
module BuildersGenerator {
  import opened Wrappers
  import opened Strings
  import opened Paths
  import opened Schema

  /** The helpers the generator is given. `createUnusedAlias` is applied to
      the module's imports (its first argument is the fixed key
      `g.stateImportKey`); `getStatePrefixFromKeyPrefix` is applied to
      `'with'` and a field's name. */
  datatype Env = Env(
    removeIfacePrefix: string -> string,
    getStatePrefixFromKeyPrefix: (string, string) -> string,
    composeCursorKey: (Option<string>, Option<string>, string) -> string,
    resolveState: (seq<StateData>, string) -> Option<StateData>,
    resolveBobfluxPrefix: StateData -> Option<string>,
    createUnusedAlias: seq<ImportData> -> string,
    createFullImports: (string, string, seq<ImportData>) -> string,
    createBuildersFilePath: (string, string, string) -> string)

  /** What `createFieldsContent` reads from the enclosing `writeBuilders`
      call: the module's states, the alias the state module is imported
      under, the key of the enclosing state, the name of the main state and
      the bobflux prefix resolved for it. */
  datatype Ctx = Ctx(
    states: seq<StateData>,
    stateAlias: string,
    parentStateKey: Option<string>,
    currentStateName: string,
    bobfluxPrefix: Option<string>)

  /** The exceptions `writeBuilders` can raise; each is caught and logged by
      its caller, and nothing is written. `TooDeep` stands for the call
      stack running out on a state that (indirectly) contains itself;
      `NullImportPath` for `path.join` refusing an import whose module path
      was never read. */
  datatype BuildersError = TwoStatesWithSameName | TooDeep | NullImportPath

  /** What one `writeBuilders` call hands to the write callback, if
      anything. */
  datatype Outcome = NothingWritten | Written(filePath: string, text: string) | Failed(error: BuildersError)

  /** A nested builder still to be produced: its state and the key its
      fields' keys are composed under. */
  datatype NextIteration = NextIteration(state: StateData, prefix: string)

  // ---------------------------------------------------------------------
  // Templates

  /** `createBuilderHeader`: the class line, the state field initialised
      from the state module's default, and an empty line. */
  function HeaderText(builderName: string, stateName: string, stateAlias: string): string
  {
    "export class " + builderName + " {\n    private state: " + stateName + " = " + stateAlias + ".default();\n\n"
  }

  /** The header's lines. */
  function HeaderLines(builderName: string, stateName: string, stateAlias: string): seq<string>
  {
    [ "export class " + builderName + " {",
      "    private state: " + stateName + " = " + stateAlias + ".default();",
      "" ]
  }

  /** The header's text is its lines, each ended by a line break. */
  lemma HeaderTextLines(builderName: string, stateName: string, stateAlias: string)
    ensures HeaderText(builderName, stateName, stateAlias) == Strings.Join(HeaderLines(builderName, stateName, stateAlias), "\n") + "\n"
  {
    var cls := "export class " + builderName + " {";
    var field := "    private state: " + stateName + " = " + stateAlias + ".default();";
    Strings.Join3(cls, field, "", "\n");
    HeaderLiterals();
    HeaderRegroup("export class ", builderName, " {\n    private state: ", stateName, " = ", stateAlias, ".default();\n\n",
                  " {", "    private state: ", ".default();", "\n");
  }

  lemma HeaderLiterals()
    ensures " {\n    private state: " == " {" + "\n" + "    private state: "
    ensures ".default();\n\n" == ".default();" + "\n" + "\n"
  {
  }

  lemma HeaderRegroup(p: string, bn: string, l1: string, sn: string, e: string, sa: string, l2: string,
                      a: string, b: string, c: string, nl: string)
    requires l1 == a + nl + b && l2 == c + nl + nl
    ensures p + bn + l1 + sn + e + sa + l2 == (p + bn + a) + nl + (b + sn + e + sa + c) + nl + "" + nl
  {
    assert "" + nl == nl;
  }

  /** `createWithForField`: a setter that assigns the field of the state
      and returns the builder. */
  function WithText(env: Env, builderName: string, fieldName: string, fieldType: string): string
  {
    "    public " + env.getStatePrefixFromKeyPrefix("with", fieldName) + "(" + fieldName + ": " + fieldType + "): " + builderName + " {\n"
    + "        this.state." + fieldName + " = " + fieldName + ";\n"
    + "        return this;\n"
    + "    };\n"
  }

  /** A setter's lines. */
  function WithLines(env: Env, builderName: string, fieldName: string, fieldType: string): seq<string>
  {
    [ "    public " + env.getStatePrefixFromKeyPrefix("with", fieldName) + "(" + fieldName + ": " + fieldType + "): " + builderName + " {",
      "        this.state." + fieldName + " = " + fieldName + ";",
      "        return this;",
      "    };" ]
  }

  /** A setter's text is its lines, each ended by a line break. */
  lemma WithTextLines(env: Env, builderName: string, fieldName: string, fieldType: string)
    ensures WithText(env, builderName, fieldName, fieldType) == Strings.Join(WithLines(env, builderName, fieldName, fieldType), "\n") + "\n"
  {
    var sig := "    public " + env.getStatePrefixFromKeyPrefix("with", fieldName) + "(" + fieldName + ": " + fieldType + "): " + builderName;
    Strings.Join4(sig + " {", "        this.state." + fieldName + " = " + fieldName + ";", "        return this;", "    };", "\n");
    WithLiterals();
    WithRegroup(sig, " {\n", "        this.state.", fieldName, " = ", ";\n", "        return this;\n", "    };\n",
                " {", ";", "        return this;", "    };", "\n");
  }

  lemma WithLiterals()
    ensures " {\n" == " {" + "\n"
    ensures ";\n" == ";" + "\n"
    ensures "        return this;\n" == "        return this;" + "\n"
    ensures "    };\n" == "    };" + "\n"
  {
  }

  lemma WithRegroup(x: string, l1: string, t: string, f: string, e: string, l2: string, l3: string, l4: string,
                    a1: string, a2: string, a3: string, a4: string, nl: string)
    requires l1 == a1 + nl && l2 == a2 + nl && l3 == a3 + nl && l4 == a4 + nl
    ensures x + l1 + (t + f + e + f + l2) + l3 + l4 == (x + a1) + nl + (t + f + e + f + a2) + nl + a3 + nl + a4 + nl
  {
  }

  /** `if (bobfluxPrefix)`: present and not the empty text. */
  predicate Bootstraps(bobfluxPrefix: Option<string>)
  {
    bobfluxPrefix.Some? && bobfluxPrefix.value != ""
  }

  /** `createBuilderFooter`: an empty line, then `build()`, which bootstraps
      the state under the bobflux prefix when there is one and returns the
      state; then the end of the class. */
  function FooterText(stateTypeName: string, bobfluxPrefix: Option<string>): string
  {
    var content := "\n    public build(): " + stateTypeName + " {\n";
    var content := if Bootstraps(bobfluxPrefix) then content + "        " + bobfluxPrefix.value + ".bootstrap(this.state);\n" else content;
    content + "        return this.state;\n    }\n}\n"
  }

  /** The footer's lines: it bootstraps the state exactly when there is a
      bobflux prefix, and always returns the state. */
  function FooterLines(stateTypeName: string, bobfluxPrefix: Option<string>): (r: seq<string>)
    ensures |r| == if Bootstraps(bobfluxPrefix) then 6 else 5
    ensures r[..2] == ["", "    public build(): " + stateTypeName + " {"]
    ensures r[|r| - 3..] == ["        return this.state;", "    }", "}"]
    ensures Bootstraps(bobfluxPrefix) ==> r[2] == "        " + bobfluxPrefix.value + ".bootstrap(this.state);"
  {
    ["", "    public build(): " + stateTypeName + " {"]
    + (if Bootstraps(bobfluxPrefix) then ["        " + bobfluxPrefix.value + ".bootstrap(this.state);"] else [])
    + ["        return this.state;", "    }", "}"]
  }

  /** The footer's text is its lines, each ended by a line break. */
  lemma FooterTextLines(stateTypeName: string, bobfluxPrefix: Option<string>)
    ensures FooterText(stateTypeName, bobfluxPrefix) == Strings.Join(FooterLines(stateTypeName, bobfluxPrefix), "\n") + "\n"
  {
    var build := "    public build(): " + stateTypeName + " {";
    var head := "\n    public build(): " + stateTypeName + " {\n";
    var tail := ["        return this.state;", "    }", "}"];
    FooterHead(stateTypeName);
    FooterTail();
    if Bootstraps(bobfluxPrefix) {
      var boot := "        " + bobfluxPrefix.value + ".bootstrap(this.state);";
      FooterBoot(head, bobfluxPrefix.value, "        return this.state;\n    }\n}\n");
      Strings.JoinBlocks(["", build], [boot], "\n");
      Strings.JoinBlocks(["", build] + [boot], tail, "\n");
    } else {
      Strings.JoinBlocks(["", build], tail, "\n");
      assert ["", build] + [] + tail == ["", build] + tail;
    }
  }

  lemma FooterHead(stateTypeName: string)
    ensures "\n    public build(): " + stateTypeName + " {\n" == Strings.Join(["", "    public build(): " + stateTypeName + " {"], "\n") + "\n"
  {
    var b, a := "    public build(): ", " {";
    Strings.Join2("", b + stateTypeName + a, "\n");
    assert "\n    public build(): " == "" + "\n" + b;
    assert " {\n" == a + "\n";
    FooterHeadRegroup(b, stateTypeName, a, "\n");
  }

  lemma FooterHeadRegroup(b: string, st: string, a: string, nl: string)
    ensures ("" + nl + b) + st + (a + nl) == "" + nl + (b + st + a) + nl
  {
  }

  lemma FooterTail()
    ensures "        return this.state;\n    }\n}\n" == Strings.Join(["        return this.state;", "    }", "}"], "\n") + "\n"
  {
    Strings.Join3("        return this.state;", "    }", "}", "\n");
    assert "        return this.state;\n    }\n}\n" == "        return this.state;" + "\n" + "    }" + "\n" + "}" + "\n";
  }

  lemma FooterBoot(head: string, p: string, tail: string)
    ensures head + "        " + p + ".bootstrap(this.state);\n" + tail
         == head + (Strings.Join(["        " + p + ".bootstrap(this.state);"], "\n") + "\n") + tail
  {
    assert ".bootstrap(this.state);\n" == ".bootstrap(this.state);" + "\n";
  }

  // ---------------------------------------------------------------------
  // One builder class

  /** `${removeIfacePrefix(state.typeName)}Builder`. */
  function BuilderName(env: Env, s: StateData): string
  {
    env.removeIfacePrefix(s.name) + "Builder"
  }

  /** `${stateAlias}.${state.typeName}`. */
  function StateTypeName(ctx: Ctx, s: StateData): string
  {
    ctx.stateAlias + "." + s.name
  }

  /** The bobflux prefix handed to the footer: only the main state's
      builder gets it. */
  function FooterPrefix(ctx: Ctx, s: StateData): Option<string>
  {
    if ctx.currentStateName == s.name then ctx.bobfluxPrefix else None
  }

  /** Some state of the module is named `t`. */
  predicate NamesState(states: seq<StateData>, t: string)
  {
    exists i :: 0 <= i < |states| && states[i].name == t
  }

  /** The type a setter takes (`fieldType` in `createFieldsContent`). */
  function FieldType(ctx: Ctx, f: Field): string
  {
    var fieldType := if f.isArray then f.fieldType + "[]" else f.fieldType;
    var states := StatesNamed(ctx.states, f.fieldType);
    if |states| > 0 then ctx.stateAlias + "." + fieldType else fieldType
  }

  /** A setter's type gets `[]` after an array's element type, and the
      state module's alias before the name of a state of the module. */
  lemma FieldTypeQualified(ctx: Ctx, f: Field)
    ensures var base := f.fieldType + (if f.isArray then "[]" else "");
      FieldType(ctx, f) == (if NamesState(ctx.states, f.fieldType) then ctx.stateAlias + "." + base else base)
  {
    StatesNamedEmpty(ctx.states, f.fieldType);
  }

  /** The setters of `fields`, one per field in field order. */
  function SetterTexts(env: Env, ctx: Ctx, builderName: string, fields: seq<Field>): (r: seq<string>)
    ensures |r| == |fields|
    decreases |fields|
  {
    if |fields| == 0 then []
    else
      var f := fields[|fields| - 1];
      SetterTexts(env, ctx, builderName, fields[..|fields| - 1]) + [WithText(env, builderName, f.name, FieldType(ctx, f))]
  }

  /** The `k`-th setter is that of the `k`-th field. */
  lemma {:induction false} SetterTextsAt(env: Env, ctx: Ctx, builderName: string, fields: seq<Field>, k: nat)
    requires k < |fields|
    ensures SetterTexts(env, ctx, builderName, fields)[k] == WithText(env, builderName, fields[k].name, FieldType(ctx, fields[k]))
    decreases |fields|
  {
    var init, f := fields[..|fields| - 1], fields[|fields| - 1];
    var w := WithText(env, builderName, f.name, FieldType(ctx, f));
    var ws := SetterTexts(env, ctx, builderName, init);
    assert SetterTexts(env, ctx, builderName, fields) == ws + [w];
    if k < |init| {
      SetterTextsAt(env, ctx, builderName, init, k);
      assert init[k] == fields[k];
      assert (ws + [w])[k] == ws[k];
    } else {
      assert fields[k] == f;
      assert (ws + [w])[k] == w;
    }
  }

  /** The text of a state's own class. */
  function ClassText(env: Env, ctx: Ctx, s: StateData): string
  {
    var name := BuilderName(env, s);
    var stateName := StateTypeName(ctx, s);
    HeaderText(name, stateName, ctx.stateAlias)
    + Strings.Join(SetterTexts(env, ctx, name, s.fields), "\n")
    + FooterText(stateName, FooterPrefix(ctx, s))
  }

  // ---------------------------------------------------------------------
  // The templates and a class, line by line

  /** The lines of the setters of `fields`: each setter's lines, with an
      empty line between two setters. */
  function SetterLines(env: Env, ctx: Ctx, builderName: string, fields: seq<Field>): seq<string>
    decreases |fields|
  {
    if |fields| == 0 then []
    else
      var f := fields[|fields| - 1];
      var last := WithLines(env, builderName, f.name, FieldType(ctx, f));
      if |fields| == 1 then last else SetterLines(env, ctx, builderName, fields[..|fields| - 1]) + [""] + last
  }

  /** The setters joined by line breaks are their lines, each ended by a
      line break. */
  lemma {:induction false} SetterTextsLines(env: Env, ctx: Ctx, builderName: string, fields: seq<Field>)
    requires |fields| > 0
    ensures |SetterLines(env, ctx, builderName, fields)| > 0
    ensures Strings.Join(SetterTexts(env, ctx, builderName, fields), "\n") == Strings.Join(SetterLines(env, ctx, builderName, fields), "\n") + "\n"
    decreases |fields|
  {
    var init, f := fields[..|fields| - 1], fields[|fields| - 1];
    var w := WithText(env, builderName, f.name, FieldType(ctx, f));
    var last := WithLines(env, builderName, f.name, FieldType(ctx, f));
    var ws := SetterTexts(env, ctx, builderName, init);
    assert SetterTexts(env, ctx, builderName, fields) == ws + [w];
    WithTextLines(env, builderName, f.name, FieldType(ctx, f));
    if |fields| > 1 {
      SetterTextsLines(env, ctx, builderName, init);
      var sl := SetterLines(env, ctx, builderName, init);
      assert SetterLines(env, ctx, builderName, fields) == sl + [""] + last;
      Strings.JoinAppend(ws, [w], "\n");
      Strings.JoinBlocksApart(sl, last, "\n");
    } else {
      assert ws == [];
    }
  }

  /** A state's class is the header's lines, the setters' lines and the
      footer's lines, each ended by a line break. */
  lemma ClassTextLines(env: Env, ctx: Ctx, s: StateData)
    ensures var name := BuilderName(env, s);
      var stateName := StateTypeName(ctx, s);
      ClassText(env, ctx, s)
      == Strings.Join(HeaderLines(name, stateName, ctx.stateAlias)
              + SetterLines(env, ctx, name, s.fields)
              + FooterLines(stateName, FooterPrefix(ctx, s)), "\n") + "\n"
  {
    var name := BuilderName(env, s);
    var stateName := StateTypeName(ctx, s);
    var hl := HeaderLines(name, stateName, ctx.stateAlias);
    var sl := SetterLines(env, ctx, name, s.fields);
    var fl := FooterLines(stateName, FooterPrefix(ctx, s));
    HeaderTextLines(name, stateName, ctx.stateAlias);
    FooterTextLines(stateName, FooterPrefix(ctx, s));
    var st := Strings.Join(SetterTexts(env, ctx, name, s.fields), "\n");
    if |s.fields| == 0 {
      assert sl == [] && st == "";
    } else {
      SetterTextsLines(env, ctx, name, s.fields);
    }
    Strings.JoinBlocks3(HeaderText(name, stateName, ctx.stateAlias), st, FooterText(stateName, FooterPrefix(ctx, s)), hl, sl, fl, "\n");
  }

  /** The nested builders a state's fields ask for, in field order: for each
      field whose type names a state of the module, the first such state and
      the field's composed key. */
  function Nexts(env: Env, ctx: Ctx, prefix: Option<string>, fields: seq<Field>): (r: seq<NextIteration>)
    ensures |r| <= |fields|
    decreases |fields|
  {
    if |fields| == 0 then []
    else
      var init := fields[..|fields| - 1];
      var f := fields[|fields| - 1];
      var states := StatesNamed(ctx.states, f.fieldType);
      var rest := Nexts(env, ctx, prefix, init);
      if |states| > 0
      then rest + [NextIteration(states[0], env.composeCursorKey(ctx.parentStateKey, prefix, f.name))]
      else rest
  }

  /** Some field's type is `t`. */
  predicate HasFieldOfType(fields: seq<Field>, t: string)
  {
    exists j :: 0 <= j < |fields| && fields[j].fieldType == t
  }

  /** Every nested iteration is for a state of the module that some field's
      type names, and there are none exactly when no field's type names a
      state. */
  lemma {:induction false} NextsStates(env: Env, ctx: Ctx, prefix: Option<string>, fields: seq<Field>)
    ensures forall k :: 0 <= k < |Nexts(env, ctx, prefix, fields)| ==>
      Nexts(env, ctx, prefix, fields)[k].state in ctx.states
    ensures forall k :: 0 <= k < |Nexts(env, ctx, prefix, fields)| ==>
      HasFieldOfType(fields, Nexts(env, ctx, prefix, fields)[k].state.name)
    decreases |fields|
  {
    if |fields| > 0 {
      var init := fields[..|fields| - 1];
      var f := fields[|fields| - 1];
      NextsStates(env, ctx, prefix, init);
      StatesNamedMembers(ctx.states, f.fieldType);
      var r := Nexts(env, ctx, prefix, fields);
      var rest := Nexts(env, ctx, prefix, init);
      forall k | 0 <= k < |r|
        ensures r[k].state in ctx.states
        ensures HasFieldOfType(fields, r[k].state.name)
      {
        if k < |rest| {
          assert r[k] == rest[k];
          var j :| 0 <= j < |init| && init[j].fieldType == rest[k].state.name;
          assert fields[j].fieldType == r[k].state.name;
        } else {
          assert r[k].state == StatesNamed(ctx.states, f.fieldType)[0];
          assert fields[|fields| - 1].fieldType == r[k].state.name;
        }
      }
    }
  }

  /** No field asks for a nested builder exactly when no field's type names
      a state of the module. */
  lemma {:induction false} NextsEmpty(env: Env, ctx: Ctx, prefix: Option<string>, fields: seq<Field>)
    ensures (forall j :: 0 <= j < |fields| ==> !NamesState(ctx.states, fields[j].fieldType))
        <==> Nexts(env, ctx, prefix, fields) == []
    decreases |fields|
  {
    if |fields| > 0 {
      var init := fields[..|fields| - 1];
      var f := fields[|fields| - 1];
      NextsEmpty(env, ctx, prefix, init);
      StatesNamedEmpty(ctx.states, f.fieldType);
      assert forall j :: 0 <= j < |init| ==> init[j] == fields[j];
    }
  }

  /** Some field's type names more than one state of the module. */
  predicate HasDuplicate(states: seq<StateData>, fields: seq<Field>)
  {
    exists k :: 0 <= k < |fields| && |StatesNamed(states, fields[k].fieldType)| > 1
  }

  /** `createFieldsContent(state, prefix)`: the state's class, then, when
      some field names a state, a line break and the nested builders joined
      by line breaks, each built under its field's composed key. `fuel`
      bounds the depth of the nesting. */
  function FieldsContent(env: Env, ctx: Ctx, s: StateData, prefix: Option<string>, fuel: nat): Result<string, BuildersError>
    decreases fuel, 0, 0
  {
    if fuel == 0 then Err(TooDeep)
    else if HasDuplicate(ctx.states, s.fields) then Err(TwoStatesWithSameName)
    else
      var nexts := Nexts(env, ctx, prefix, s.fields);
      match NestedContents(env, ctx, nexts, fuel - 1)
      case Err(e) => Err(e)
      case Ok(parts) => Ok(ClassText(env, ctx, s) + (if |nexts| > 0 then "\n" else "") + Strings.Join(parts, "\n"))
  }

  /** `nexts.map(n => createFieldsContent(n.state, n.prefix))`: the nested
      builders in order, or the exception of the first one that throws. */
  function NestedContents(env: Env, ctx: Ctx, nexts: seq<NextIteration>, fuel: nat): (r: Result<seq<string>, BuildersError>)
    ensures r.Ok? ==> |r.value| == |nexts|
    decreases fuel, 1, |nexts|
  {
    if |nexts| == 0 then Ok([])
    else
      var n := nexts[|nexts| - 1];
      match NestedContents(env, ctx, nexts[..|nexts| - 1], fuel)
      case Err(e) => Err(e)
      case Ok(parts) =>
        match FieldsContent(env, ctx, n.state, Some(n.prefix), fuel)
        case Err(e) => Err(e)
        case Ok(part) => Ok(parts + [part])
  }

  lemma SetterTextsSnoc(env: Env, ctx: Ctx, builderName: string, fields: seq<Field>, f: Field)
    ensures SetterTexts(env, ctx, builderName, fields + [f])
         == SetterTexts(env, ctx, builderName, fields) + [WithText(env, builderName, f.name, FieldType(ctx, f))]
  {
    assert (fields + [f])[..|fields|] == fields;
  }

  lemma NextsSnoc(env: Env, ctx: Ctx, prefix: Option<string>, fields: seq<Field>, f: Field)
    ensures var states := StatesNamed(ctx.states, f.fieldType);
      Nexts(env, ctx, prefix, fields + [f])
      == Nexts(env, ctx, prefix, fields)
         + (if |states| > 0 then [NextIteration(states[0], env.composeCursorKey(ctx.parentStateKey, prefix, f.name))] else [])
  {
    assert (fields + [f])[..|fields|] == fields;
  }

  lemma NoDuplicateSnoc(states: seq<StateData>, fields: seq<Field>, f: Field)
    requires !HasDuplicate(states, fields) && |StatesNamed(states, f.fieldType)| <= 1
    ensures !HasDuplicate(states, fields + [f])
  {
    assert forall k :: 0 <= k < |fields| ==> (fields + [f])[k] == fields[k];
  }

  lemma PrefixOfConcat(a: string, b: string, c: string)
    ensures a <= a + b + c
  {
    assert (a + b + c)[..|a|] == a;
  }

  lemma PrefixAfter(a: string, b: string, c: string)
    requires b <= c
    ensures a + b <= a + c
  {
    assert (a + c)[..|a + b|] == a + c[..|b|];
  }

  /** `createFieldsContent` as the source computes it: the class text
      accumulated in `content` while the setters are produced and the
      nested iterations collected in `nexts`, then the nested builders
      produced in turn. */
  method CreateFieldsContent(env: Env, ctx: Ctx, state: StateData, prefix: Option<string>, fuel: nat)
    returns (r: Result<string, BuildersError>)
    ensures r == FieldsContent(env, ctx, state, prefix, fuel)
    decreases fuel, 2
  {
    if fuel == 0 {
      return Err(TooDeep);
    }
    r := MapAndAppend(env, ctx, state, prefix, fuel - 1);
  }

  /** `createFieldsContent` once the depth is known not to run out. */
  method MapAndAppend(env: Env, ctx: Ctx, state: StateData, prefix: Option<string>, depth: nat)
    returns (r: Result<string, BuildersError>)
    ensures r == FieldsContent(env, ctx, state, prefix, depth + 1)
    decreases depth + 1, 1
  {
    var mapped := MapFields(env, ctx, BuilderName(env, state), prefix, state.fields);
    match mapped
    case Err(e) =>
      r := Err(e);
    case Ok((setters, nexts)) =>
      r := AppendNested(env, ctx, state, prefix, depth, setters, nexts);
  }

  /** The rest of `createFieldsContent` once every field has been mapped:
      the class text, then the nested builders. */
  method AppendNested(env: Env, ctx: Ctx, state: StateData, prefix: Option<string>, depth: nat,
                      setters: seq<string>, nexts: seq<NextIteration>)
    returns (r: Result<string, BuildersError>)
    requires !HasDuplicate(ctx.states, state.fields)
    requires setters == SetterTexts(env, ctx, BuilderName(env, state), state.fields)
    requires nexts == Nexts(env, ctx, prefix, state.fields)
    ensures r == FieldsContent(env, ctx, state, prefix, depth + 1)
    decreases depth + 1, 0
  {
    var name := BuilderName(env, state);
    var stateName := ctx.stateAlias + "." + state.name;
    var content := HeaderText(name, stateName, ctx.stateAlias);
    content := content + Strings.Join(setters, "\n");
    content := content + FooterText(stateName, if ctx.currentStateName == state.name then ctx.bobfluxPrefix else None);
    assert content == ClassText(env, ctx, state);
    var parts := CreateNestedContents(env, ctx, nexts, depth);
    if parts.Err? {
      FieldsContentNestedErr(env, ctx, state, prefix, depth, parts.error);
      return Err(parts.error);
    }
    FieldsContentOk(env, ctx, state, prefix, depth, parts.value);
    r := Ok(content + (if |nexts| > 0 then "\n" else "") + Strings.Join(parts.value, "\n"));
  }

  /** The `state.fields.map(…)` callback applied to each field in turn: the
      setter texts and, pushed onto `nexts`, the nested iterations; a field
      whose type names two states throws. */
  method MapFields(env: Env, ctx: Ctx, name: string, prefix: Option<string>, fields: seq<Field>)
    returns (r: Result<(seq<string>, seq<NextIteration>), BuildersError>)
    ensures r.Err? <==> HasDuplicate(ctx.states, fields)
    ensures r.Err? ==> r.error == TwoStatesWithSameName
    ensures r.Ok? ==> r.value.0 == SetterTexts(env, ctx, name, fields)
    ensures r.Ok? ==> r.value.1 == Nexts(env, ctx, prefix, fields)
  {
    var nexts: seq<NextIteration> := [];
    var setters: seq<string> := [];
    for i := 0 to |fields|
      invariant setters == SetterTexts(env, ctx, name, fields[..i])
      invariant nexts == Nexts(env, ctx, prefix, fields[..i])
      invariant !HasDuplicate(ctx.states, fields[..i])
    {
      var f := fields[i];
      TakeSnoc(fields, i);
      var key := env.composeCursorKey(ctx.parentStateKey, prefix, f.name);
      var fieldType := if f.isArray then f.fieldType + "[]" else f.fieldType;
      var states := StatesNamed(ctx.states, f.fieldType);
      if |states| > 0 {
        fieldType := ctx.stateAlias + "." + fieldType;
      }
      NextsSnoc(env, ctx, prefix, fields[..i], f);
      if |states| > 0 {
        nexts := nexts + [NextIteration(states[0], key)];
      }
      if |states| > 1 {
        assert fields[i] == f;
        return Err(TwoStatesWithSameName);
      }
      SetterTextsSnoc(env, ctx, name, fields[..i], f);
      assert fieldType == FieldType(ctx, f);
      setters := setters + [WithText(env, name, f.name, fieldType)];
      NoDuplicateSnoc(ctx.states, fields[..i], f);
    }
    assert fields[..|fields|] == fields;
    r := Ok((setters, nexts));
  }

  /** One step of `FieldsContent` past the checks for depth and
      duplicates, when every nested builder is produced. */
  lemma FieldsContentOk(env: Env, ctx: Ctx, s: StateData, prefix: Option<string>, depth: nat, parts: seq<string>)
    requires !HasDuplicate(ctx.states, s.fields)
    requires NestedContents(env, ctx, Nexts(env, ctx, prefix, s.fields), depth) == Ok(parts)
    ensures FieldsContent(env, ctx, s, prefix, depth + 1)
         == Ok(ClassText(env, ctx, s) + (if |Nexts(env, ctx, prefix, s.fields)| > 0 then "\n" else "") + Strings.Join(parts, "\n"))
  {
  }

  /** Two depths at which the nested builders come out the same give the
      same builders. */
  lemma FieldsContentSameNested(env: Env, ctx: Ctx, s: StateData, prefix: Option<string>, d1: nat, d2: nat)
    requires !HasDuplicate(ctx.states, s.fields)
    requires NestedContents(env, ctx, Nexts(env, ctx, prefix, s.fields), d1)
          == NestedContents(env, ctx, Nexts(env, ctx, prefix, s.fields), d2)
    ensures FieldsContent(env, ctx, s, prefix, d1 + 1) == FieldsContent(env, ctx, s, prefix, d2 + 1)
  {
  }

  /** The same, when a nested builder fails. */
  lemma FieldsContentNestedErr(env: Env, ctx: Ctx, s: StateData, prefix: Option<string>, depth: nat, e: BuildersError)
    requires !HasDuplicate(ctx.states, s.fields)
    ensures NestedContents(env, ctx, Nexts(env, ctx, prefix, s.fields), depth) == Err(e)
        ==> FieldsContent(env, ctx, s, prefix, depth + 1) == Err(e)
  {
  }

  /** The nested builders, one after the other; the first exception ends
      the traversal. */
  method CreateNestedContents(env: Env, ctx: Ctx, nexts: seq<NextIteration>, fuel: nat)
    returns (r: Result<seq<string>, BuildersError>)
    ensures r == NestedContents(env, ctx, nexts, fuel)
    decreases fuel, 3
  {
    var parts: seq<string> := [];
    for j := 0 to |nexts|
      invariant NestedContents(env, ctx, nexts[..j], fuel) == Ok(parts)
    {
      var part := CreateFieldsContent(env, ctx, nexts[j].state, Some(nexts[j].prefix), fuel);
      TakeSnoc(nexts, j);
      assert nexts[..j + 1][..j] == nexts[..j];
      if part.Err? {
        NestedErrorStays(env, ctx, nexts, fuel, j + 1);
        return Err(part.error);
      }
      parts := parts + [part.value];
    }
    assert nexts[..|nexts|] == nexts;
    r := Ok(parts);
  }

  /** A nested builder that throws ends the traversal: the error of the
      first `m` iterations is that of all of them. */
  lemma {:induction false} NestedErrorStays(env: Env, ctx: Ctx, nexts: seq<NextIteration>, fuel: nat, m: nat)
    requires m <= |nexts| && NestedContents(env, ctx, nexts[..m], fuel).Err?
    ensures NestedContents(env, ctx, nexts, fuel) == NestedContents(env, ctx, nexts[..m], fuel)
    decreases |nexts|
  {
    if m < |nexts| {
      var init := nexts[..|nexts| - 1];
      assert init[..m] == nexts[..m];
      NestedErrorStays(env, ctx, init, fuel, m);
    } else {
      assert nexts[..m] == nexts;
    }
  }

  /** Produced nested builders are those of the iterations, in order: the
      `k`-th is that of the `k`-th iteration. */
  lemma {:induction false} NestedContentsAt(env: Env, ctx: Ctx, nexts: seq<NextIteration>, fuel: nat, k: nat)
    requires k < |nexts| && NestedContents(env, ctx, nexts, fuel).Ok?
    ensures FieldsContent(env, ctx, nexts[k].state, Some(nexts[k].prefix), fuel) == Ok(NestedContents(env, ctx, nexts, fuel).value[k])
    decreases |nexts|
  {
    var init := nexts[..|nexts| - 1];
    NestedContentsLast(env, ctx, nexts, fuel);
    if k < |init| {
      NestedContentsAt(env, ctx, init, fuel, k);
      assert init[k] == nexts[k];
      assert NestedContents(env, ctx, nexts, fuel).value[k] == NestedContents(env, ctx, init, fuel).value[k];
    } else {
      assert k == |init|;
    }
  }

  lemma NestedContentsLast(env: Env, ctx: Ctx, nexts: seq<NextIteration>, fuel: nat)
    requires |nexts| > 0 && NestedContents(env, ctx, nexts, fuel).Ok?
    ensures NestedContents(env, ctx, nexts[..|nexts| - 1], fuel).Ok?
    ensures FieldsContent(env, ctx, nexts[|nexts| - 1].state, Some(nexts[|nexts| - 1].prefix), fuel).Ok?
    ensures NestedContents(env, ctx, nexts, fuel).value
         == NestedContents(env, ctx, nexts[..|nexts| - 1], fuel).value
          + [FieldsContent(env, ctx, nexts[|nexts| - 1].state, Some(nexts[|nexts| - 1].prefix), fuel).value]
  {
  }

  /** So every nested builder is produced when the list of them is. */
  lemma NestedContentsEachOk(env: Env, ctx: Ctx, nexts: seq<NextIteration>, fuel: nat)
    requires NestedContents(env, ctx, nexts, fuel).Ok?
    ensures forall k :: 0 <= k < |nexts| ==> FieldsContent(env, ctx, nexts[k].state, Some(nexts[k].prefix), fuel).Ok?
  {
    forall k | 0 <= k < |nexts|
      ensures FieldsContent(env, ctx, nexts[k].state, Some(nexts[k].prefix), fuel).Ok?
    {
      NestedContentsAt(env, ctx, nexts, fuel, k);
    }
  }

  /** When every nested builder is produced, so is the list of them. */
  lemma {:induction false} NestedContentsAllOk(env: Env, ctx: Ctx, nexts: seq<NextIteration>, fuel: nat)
    requires forall k :: 0 <= k < |nexts| ==> FieldsContent(env, ctx, nexts[k].state, Some(nexts[k].prefix), fuel).Ok?
    ensures NestedContents(env, ctx, nexts, fuel).Ok?
    decreases |nexts|
  {
    if |nexts| > 0 {
      var init := nexts[..|nexts| - 1];
      assert forall k :: 0 <= k < |init| ==> init[k] == nexts[k];
      NestedContentsAllOk(env, ctx, init, fuel);
    }
  }

  /** Iteration `k` is the first whose builder throws, and it throws
      `e`: the iterations before it are all produced (so each of their
      builders is, by `NestedContentsEachOk`). */
  predicate FirstFailing(env: Env, ctx: Ctx, nexts: seq<NextIteration>, fuel: nat, k: nat, e: BuildersError)
    requires k < |nexts|
  {
    && NestedContents(env, ctx, nexts[..k], fuel).Ok?
    && FieldsContent(env, ctx, nexts[k].state, Some(nexts[k].prefix), fuel) == Err(e)
  }

  /** Otherwise the error is that of the first nested builder that
      throws. */
  lemma {:induction false} NestedContentsFirstError(env: Env, ctx: Ctx, nexts: seq<NextIteration>, fuel: nat)
    requires NestedContents(env, ctx, nexts, fuel).Err?
    ensures exists k :: 0 <= k < |nexts| && FirstFailing(env, ctx, nexts, fuel, k, NestedContents(env, ctx, nexts, fuel).error)
    decreases |nexts|
  {
    var init := nexts[..|nexts| - 1];
    var e := NestedContents(env, ctx, nexts, fuel).error;
    NestedContentsLastErr(env, ctx, nexts, fuel);
    if NestedContents(env, ctx, init, fuel).Err? {
      NestedContentsFirstError(env, ctx, init, fuel);
      var k :| 0 <= k < |init| && FirstFailing(env, ctx, init, fuel, k, e);
      assert init[..k] == nexts[..k] && init[k] == nexts[k];
      assert FirstFailing(env, ctx, nexts, fuel, k, e);
    } else {
      assert FirstFailing(env, ctx, nexts, fuel, |init|, e);
    }
  }

  lemma NestedContentsLastErr(env: Env, ctx: Ctx, nexts: seq<NextIteration>, fuel: nat)
    requires NestedContents(env, ctx, nexts, fuel).Err?
    ensures |nexts| > 0
    ensures NestedContents(env, ctx, nexts[..|nexts| - 1], fuel).Err? ==>
      NestedContents(env, ctx, nexts, fuel) == NestedContents(env, ctx, nexts[..|nexts| - 1], fuel)
    ensures NestedContents(env, ctx, nexts[..|nexts| - 1], fuel).Ok? ==>
      FieldsContent(env, ctx, nexts[|nexts| - 1].state, Some(nexts[|nexts| - 1].prefix), fuel)
        == Err(NestedContents(env, ctx, nexts, fuel).error)
  {
  }

  /** The builders of a state start with its own class. */
  lemma FieldsContentStartsWithClass(env: Env, ctx: Ctx, s: StateData, prefix: Option<string>, fuel: nat)
    requires FieldsContent(env, ctx, s, prefix, fuel).Ok?
    ensures ClassText(env, ctx, s) <= FieldsContent(env, ctx, s, prefix, fuel).value
  {
    var nexts := Nexts(env, ctx, prefix, s.fields);
    var parts := NestedContents(env, ctx, nexts, fuel - 1).value;
    PrefixOfConcat(ClassText(env, ctx, s), if |nexts| > 0 then "\n" else "", Strings.Join(parts, "\n"));
  }

  /** The only exceptions `createFieldsContent` raises are those for a
      field whose type names two states and for the depth running out. */
  lemma {:induction false} FieldsContentErrors(env: Env, ctx: Ctx, s: StateData, prefix: Option<string>, fuel: nat)
    ensures FieldsContent(env, ctx, s, prefix, fuel).Err? ==>
      FieldsContent(env, ctx, s, prefix, fuel).error in {TooDeep, TwoStatesWithSameName}
    decreases fuel, 0, 0
  {
    if fuel > 0 && !HasDuplicate(ctx.states, s.fields) {
      NestedContentsErrors(env, ctx, Nexts(env, ctx, prefix, s.fields), fuel - 1);
    }
  }

  lemma {:induction false} NestedContentsErrors(env: Env, ctx: Ctx, nexts: seq<NextIteration>, fuel: nat)
    ensures NestedContents(env, ctx, nexts, fuel).Err? ==>
      NestedContents(env, ctx, nexts, fuel).error in {TooDeep, TwoStatesWithSameName}
    decreases fuel, 1, |nexts|
  {
    if |nexts| > 0 {
      var n := nexts[|nexts| - 1];
      NestedContentsErrors(env, ctx, nexts[..|nexts| - 1], fuel);
      FieldsContentErrors(env, ctx, n.state, Some(n.prefix), fuel);
    }
  }

  // ---------------------------------------------------------------------
  // What the builders text depends on

  /** The composed keys change the nested iterations' prefixes, not their
      states. */
  lemma {:induction false} NextsIgnoreKeys(env: Env, ctx: Ctx, key: Option<string>, p1: Option<string>, p2: Option<string>, fields: seq<Field>)
    ensures |Nexts(env, ctx, p1, fields)| == |Nexts(env, ctx.(parentStateKey := key), p2, fields)|
    ensures forall k :: 0 <= k < |Nexts(env, ctx, p1, fields)| ==>
      Nexts(env, ctx, p1, fields)[k].state == Nexts(env, ctx.(parentStateKey := key), p2, fields)[k].state
    decreases |fields|
  {
    if |fields| > 0 {
      NextsIgnoreKeys(env, ctx, key, p1, p2, fields[..|fields| - 1]);
    }
  }

  lemma {:induction false} SetterTextsIgnoreKeys(env: Env, ctx: Ctx, key: Option<string>, builderName: string, fields: seq<Field>)
    ensures SetterTexts(env, ctx, builderName, fields) == SetterTexts(env, ctx.(parentStateKey := key), builderName, fields)
    decreases |fields|
  {
    if |fields| > 0 {
      SetterTextsIgnoreKeys(env, ctx, key, builderName, fields[..|fields| - 1]);
    }
  }

  lemma ClassTextIgnoresKeys(env: Env, ctx: Ctx, key: Option<string>, s: StateData)
    ensures ClassText(env, ctx, s) == ClassText(env, ctx.(parentStateKey := key), s)
  {
    SetterTextsIgnoreKeys(env, ctx, key, BuilderName(env, s), s.fields);
  }

  /** The builders text does not depend on the cursor keys: neither the
      prefix nor the parent state key reaches it (with `applyRecurse` off
      the key `g.composeCursorKey` computes only travels down the
      recursion). */
  lemma {:induction false} FieldsContentIgnoresKeys(env: Env, ctx: Ctx, key: Option<string>, s: StateData, p1: Option<string>, p2: Option<string>, fuel: nat)
    ensures FieldsContent(env, ctx, s, p1, fuel) == FieldsContent(env, ctx.(parentStateKey := key), s, p2, fuel)
    decreases fuel, 0, 0
  {
    var ctx2 := ctx.(parentStateKey := key);
    if fuel > 0 && !HasDuplicate(ctx.states, s.fields) {
      var n1 := Nexts(env, ctx, p1, s.fields);
      var n2 := Nexts(env, ctx2, p2, s.fields);
      NextsIgnoreKeys(env, ctx, key, p1, p2, s.fields);
      var depth := fuel - 1;
      NestedIgnoreKeys(env, ctx, key, n1, n2, depth);
      ClassTextIgnoresKeys(env, ctx, key, s);
      match NestedContents(env, ctx, n1, depth)
      case Ok(parts) =>
        FieldsContentOk(env, ctx, s, p1, depth, parts);
        FieldsContentOk(env, ctx2, s, p2, depth, parts);
      case Err(e) =>
        FieldsContentNestedErr(env, ctx, s, p1, depth, e);
        FieldsContentNestedErr(env, ctx2, s, p2, depth, e);
    }
  }

  /** The same for the nested builders of iterations with the same
      states. */
  lemma {:induction false} NestedIgnoreKeys(env: Env, ctx: Ctx, key: Option<string>, n1: seq<NextIteration>, n2: seq<NextIteration>, fuel: nat)
    requires |n1| == |n2| && forall k :: 0 <= k < |n1| ==> n1[k].state == n2[k].state
    ensures NestedContents(env, ctx, n1, fuel) == NestedContents(env, ctx.(parentStateKey := key), n2, fuel)
    decreases fuel, 1, |n1|
  {
    if |n1| > 0 {
      var last := |n1| - 1;
      NestedIgnoreKeys(env, ctx, key, n1[..last], n2[..last], fuel);
      FieldsContentIgnoresKeys(env, ctx, key, n1[last].state, Some(n1[last].prefix), Some(n2[last].prefix), fuel);
    }
  }

  /** More fuel changes nothing once the fuel suffices: a call that does
      not run out gives the same result with one level more. (With no fuel
      at all every call runs out, so the fuel is written `depth + 1`.) */
  lemma {:induction false} FieldsContentMoreFuel(env: Env, ctx: Ctx, s: StateData, prefix: Option<string>, depth: nat)
    requires FieldsContent(env, ctx, s, prefix, depth + 1) != Err(TooDeep)
    ensures FieldsContent(env, ctx, s, prefix, depth + 2) == FieldsContent(env, ctx, s, prefix, depth + 1)
    decreases depth + 1, 0
  {
    if !HasDuplicate(ctx.states, s.fields) {
      var nexts := Nexts(env, ctx, prefix, s.fields);
      FieldsContentNestedErr(env, ctx, s, prefix, depth, TooDeep);
      NestedMoreFuel(env, ctx, nexts, depth);
      FieldsContentSameNested(env, ctx, s, prefix, depth + 1, depth);
    }
  }

  lemma {:induction false} NestedMoreFuel(env: Env, ctx: Ctx, nexts: seq<NextIteration>, fuel: nat)
    requires NestedContents(env, ctx, nexts, fuel) != Err(TooDeep)
    ensures NestedContents(env, ctx, nexts, fuel + 1) == NestedContents(env, ctx, nexts, fuel)
    decreases fuel, 1, |nexts|
  {
    if |nexts| > 0 {
      var n := nexts[|nexts| - 1];
      var init := nexts[..|nexts| - 1];
      NestedMoreFuel(env, ctx, init, fuel);
      if NestedContents(env, ctx, init, fuel).Ok? && fuel > 0 {
        FieldsContentMoreFuel(env, ctx, n.state, Some(n.prefix), fuel - 1);
      }
    }
  }


  // ---------------------------------------------------------------------
  // Which states get builders, and when the recursion ends

  /** Some nested iteration is for the state `t`. */
  predicate Visits(nexts: seq<NextIteration>, t: StateData)
  {
    exists k :: 0 <= k < |nexts| && nexts[k].state == t
  }

  /** Every field whose type names a state of the module asks for a nested
      builder of the first state of that name. */
  lemma {:induction false} NextsCovers(env: Env, ctx: Ctx, prefix: Option<string>, fields: seq<Field>, j: nat)
    requires j < |fields| && NamesState(ctx.states, fields[j].fieldType)
    ensures |StatesNamed(ctx.states, fields[j].fieldType)| > 0
    ensures Visits(Nexts(env, ctx, prefix, fields), StatesNamed(ctx.states, fields[j].fieldType)[0])
    decreases |fields|
  {
    var init := fields[..|fields| - 1];
    var f := fields[|fields| - 1];
    StatesNamedEmpty(ctx.states, fields[j].fieldType);
    StatesNamedEmpty(ctx.states, f.fieldType);
    var t := StatesNamed(ctx.states, fields[j].fieldType)[0];
    var r := Nexts(env, ctx, prefix, fields);
    var rest := Nexts(env, ctx, prefix, init);
    if j == |fields| - 1 {
      assert r[|rest|].state == t;
    } else {
      assert init[j] == fields[j];
      NextsCovers(env, ctx, prefix, init, j);
      var k :| 0 <= k < |rest| && rest[k].state == t;
      assert r[k] == rest[k];
    }
  }

  /** Nested builders are not shared: two fields naming states ask for two
      nested builders, in field order, even when both name the same
      state. */
  lemma {:induction false} NextsNotShared(env: Env, ctx: Ctx, prefix: Option<string>, fields: seq<Field>, j1: nat, j2: nat)
    requires j1 < j2 < |fields|
    requires NamesState(ctx.states, fields[j1].fieldType) && NamesState(ctx.states, fields[j2].fieldType)
    ensures |StatesNamed(ctx.states, fields[j1].fieldType)| > 0 && |StatesNamed(ctx.states, fields[j2].fieldType)| > 0
    ensures exists k1, k2 ::
      && 0 <= k1 < k2 < |Nexts(env, ctx, prefix, fields)|
      && Nexts(env, ctx, prefix, fields)[k1].state == StatesNamed(ctx.states, fields[j1].fieldType)[0]
      && Nexts(env, ctx, prefix, fields)[k2].state == StatesNamed(ctx.states, fields[j2].fieldType)[0]
    decreases |fields|
  {
    var init := fields[..|fields| - 1];
    var f := fields[|fields| - 1];
    StatesNamedEmpty(ctx.states, fields[j1].fieldType);
    StatesNamedEmpty(ctx.states, fields[j2].fieldType);
    StatesNamedEmpty(ctx.states, f.fieldType);
    var t1 := StatesNamed(ctx.states, fields[j1].fieldType)[0];
    var t2 := StatesNamed(ctx.states, fields[j2].fieldType)[0];
    var r := Nexts(env, ctx, prefix, fields);
    var rest := Nexts(env, ctx, prefix, init);
    assert init[j1] == fields[j1];
    if j2 == |fields| - 1 {
      NextsCovers(env, ctx, prefix, init, j1);
      var k1 :| 0 <= k1 < |rest| && rest[k1].state == t1;
      assert r[k1] == rest[k1] && r[|rest|].state == t2;
    } else {
      assert init[j2] == fields[j2];
      NextsNotShared(env, ctx, prefix, init, j1, j2);
      var k1, k2 :| 0 <= k1 < k2 < |rest| && rest[k1].state == t1 && rest[k2].state == t2;
      assert r[k1] == rest[k1] && r[k2] == rest[k2];
    }
  }

  /** With unique state names no field's type names two states. */
  lemma UniqueNoDuplicate(states: seq<StateData>, fields: seq<Field>)
    requires UniqueNames(states)
    ensures !HasDuplicate(states, fields)
  {
    forall k | 0 <= k < |fields|
      ensures |StatesNamed(states, fields[k].fieldType)| <= 1
    {
      StatesNamedUnique(states, fields[k].fieldType);
    }
  }

  /** With unique state names `createFieldsContent` never throws for two
      states of one name. */
  lemma {:induction false} UniqueNeverTwoStates(env: Env, ctx: Ctx, s: StateData, prefix: Option<string>, fuel: nat)
    requires UniqueNames(ctx.states)
    ensures FieldsContent(env, ctx, s, prefix, fuel) != Err(TwoStatesWithSameName)
    decreases fuel, 0
  {
    if fuel > 0 {
      UniqueNoDuplicate(ctx.states, s.fields);
      NestedNeverTwoStates(env, ctx, Nexts(env, ctx, prefix, s.fields), fuel - 1);
      FieldsContentNestedErr(env, ctx, s, prefix, fuel - 1, TwoStatesWithSameName);
    }
  }

  lemma {:induction false} NestedNeverTwoStates(env: Env, ctx: Ctx, nexts: seq<NextIteration>, fuel: nat)
    requires UniqueNames(ctx.states)
    ensures NestedContents(env, ctx, nexts, fuel) != Err(TwoStatesWithSameName)
    decreases fuel, 1, |nexts|
  {
    if |nexts| > 0 {
      var n := nexts[|nexts| - 1];
      NestedNeverTwoStates(env, ctx, nexts[..|nexts| - 1], fuel);
      UniqueNeverTwoStates(env, ctx, n.state, Some(n.prefix), fuel);
    }
  }

  /** With unique names, one nested builder running out makes the whole
      list run out. */
  lemma NestedTooDeep(env: Env, ctx: Ctx, nexts: seq<NextIteration>, fuel: nat, k: nat)
    requires UniqueNames(ctx.states)
    requires k < |nexts| && FieldsContent(env, ctx, nexts[k].state, Some(nexts[k].prefix), fuel) == Err(TooDeep)
    ensures NestedContents(env, ctx, nexts, fuel) == Err(TooDeep)
  {
    if NestedContents(env, ctx, nexts, fuel).Ok? {
      NestedContentsAt(env, ctx, nexts, fuel, k);
    }
    NestedContentsErrors(env, ctx, nexts, fuel);
    NestedNeverTwoStates(env, ctx, nexts, fuel);
  }

  /** `path` leads through the module's states and back to where it
      started: each state has a field typed by the next one. */
  predicate Cycle(states: seq<StateData>, path: seq<StateData>)
  {
    && |path| >= 2
    && path[0] == path[|path| - 1]
    && (forall i :: 0 <= i < |path| ==> path[i] in states)
    && (forall i :: 0 <= i < |path| - 1 ==> HasFieldOfType(path[i].fields, path[i + 1].name))
  }

  /** With unique names, a state whose field is typed by a state asks for
      a nested builder of that state. */
  lemma NextsVisit(env: Env, ctx: Ctx, prefix: Option<string>, s: StateData, t: StateData)
    requires UniqueNames(ctx.states) && t in ctx.states
    requires HasFieldOfType(s.fields, t.name)
    ensures Visits(Nexts(env, ctx, prefix, s.fields), t)
  {
    var j :| 0 <= j < |s.fields| && s.fields[j].fieldType == t.name;
    var i :| 0 <= i < |ctx.states| && ctx.states[i] == t;
    StatesNamedUnique(ctx.states, t.name);
    assert NamesState(ctx.states, s.fields[j].fieldType);
    NextsCovers(env, ctx, prefix, s.fields, j);
  }

  /** Every state on a cycle of the state graph, however long the cycle,
      recurses until the stack (here the fuel) runs out: the builders of
      states that (indirectly) contain themselves are never produced. */
  lemma {:induction false} CycleTooDeep(env: Env, ctx: Ctx, path: seq<StateData>, i: nat, prefix: Option<string>, fuel: nat)
    requires UniqueNames(ctx.states) && Cycle(ctx.states, path) && i < |path|
    ensures FieldsContent(env, ctx, path[i], prefix, fuel) == Err(TooDeep)
    decreases fuel
  {
    if fuel > 0 {
      var s := path[i];
      var j := if i == |path| - 1 then 1 else i + 1;
      assert HasFieldOfType(s.fields, path[j].name) by {
        if i == |path| - 1 { assert s == path[0]; }
      }
      UniqueNoDuplicate(ctx.states, s.fields);
      var nexts := Nexts(env, ctx, prefix, s.fields);
      NextsVisit(env, ctx, prefix, s, path[j]);
      var k :| 0 <= k < |nexts| && nexts[k].state == path[j];
      CycleTooDeep(env, ctx, path, j, Some(nexts[k].prefix), fuel - 1);
      NestedTooDeep(env, ctx, nexts, fuel - 1, k);
      FieldsContentNestedErr(env, ctx, s, prefix, fuel - 1, TooDeep);
    }
  }

  /** A state with a field of its own type is a cycle of one step: its
      builders are never produced either. */
  lemma SelfContainingTooDeep(env: Env, ctx: Ctx, s: StateData, prefix: Option<string>, fuel: nat)
    requires UniqueNames(ctx.states) && s in ctx.states
    requires HasFieldOfType(s.fields, s.name)
    ensures FieldsContent(env, ctx, s, prefix, fuel) == Err(TooDeep)
  {
    assert Cycle(ctx.states, [s, s]);
    CycleTooDeep(env, ctx, [s, s], 0, prefix, fuel);
  }

  /** `rank` orders the states of the module below `|states|`, each state
      above every state its fields name: the fields never lead back to a
      state already entered. */
  predicate Ranked(states: seq<StateData>, rank: string -> nat)
  {
    forall i :: 0 <= i < |states| ==>
      && rank(states[i].name) < |states|
      && forall j :: 0 <= j < |states[i].fields| && NamesState(states, states[i].fields[j].fieldType) ==>
           rank(states[i].fields[j].fieldType) < rank(states[i].name)
  }

  /** Without cycles and with unique names the builders of a state are
      produced once the allowed depth exceeds the state's rank. */
  lemma {:induction false} RankedBuilds(env: Env, ctx: Ctx, rank: string -> nat, s: StateData, prefix: Option<string>, depth: nat)
    requires UniqueNames(ctx.states) && Ranked(ctx.states, rank)
    requires s in ctx.states && rank(s.name) <= depth
    ensures FieldsContent(env, ctx, s, prefix, depth + 1).Ok?
    decreases depth + 1, 0
  {
    UniqueNoDuplicate(ctx.states, s.fields);
    var nexts := Nexts(env, ctx, prefix, s.fields);
    NextsStates(env, ctx, prefix, s.fields);
    var i :| 0 <= i < |ctx.states| && ctx.states[i] == s;
    forall k | 0 <= k < |nexts|
      ensures nexts[k].state in ctx.states && rank(nexts[k].state.name) < depth
    {
      var j :| 0 <= j < |s.fields| && s.fields[j].fieldType == nexts[k].state.name;
      var i2 :| 0 <= i2 < |ctx.states| && ctx.states[i2] == nexts[k].state;
      assert NamesState(ctx.states, s.fields[j].fieldType);
    }
    NestedRankedBuilds(env, ctx, rank, nexts, depth);
    FieldsContentOk(env, ctx, s, prefix, depth, NestedContents(env, ctx, nexts, depth).value);
  }

  lemma {:induction false} NestedRankedBuilds(env: Env, ctx: Ctx, rank: string -> nat, nexts: seq<NextIteration>, fuel: nat)
    requires UniqueNames(ctx.states) && Ranked(ctx.states, rank)
    requires forall k :: 0 <= k < |nexts| ==> nexts[k].state in ctx.states && rank(nexts[k].state.name) < fuel
    ensures NestedContents(env, ctx, nexts, fuel).Ok?
    decreases fuel, 1, |nexts|
  {
    if |nexts| > 0 {
      var init := nexts[..|nexts| - 1];
      var n := nexts[|nexts| - 1];
      assert forall k :: 0 <= k < |init| ==> init[k] == nexts[k];
      NestedRankedBuilds(env, ctx, rank, init, fuel);
      RankedBuilds(env, ctx, rank, n.state, Some(n.prefix), fuel - 1);
    }
  }

  // ---------------------------------------------------------------------
  // The file written by `writeBuilders`

  /** `!relativePath` is false: there is a path to relocate under. */
  predicate Relocates(relativePath: Option<string>)
  {
    relativePath.Some? && relativePath.value != ""
  }

  /** `path.join(rootRelativePath, p)`. The root path comes from
      `path.relative`, whose text is empty exactly when it has no pieces;
      Node then skips it and only normalises `p`, which keeps a leading
      `/`. */
  function RerootText(rootRelativePath: Path, p: string): string
  {
    if rootRelativePath.segments == [] then Format(Canonical(Parse(p)))
    else Format(Paths.Join(rootRelativePath, Parse(p)))
  }

  /** The imports handed to `createFullImports` when relocating: each
      import's module path re-rooted under `rootRelativePath`, its prefix
      and full path kept; an import without a module path makes `path.join`
      throw. */
  function RerootImports(rootRelativePath: Path, imports: seq<ImportData>): (r: Result<seq<ImportData>, BuildersError>)
    ensures r.Ok? <==> forall k :: 0 <= k < |imports| ==> imports[k].relativePath.Some?
    ensures r.Err? ==> r.error == NullImportPath
    ensures r.Ok? ==> |r.value| == |imports|
    ensures r.Ok? ==> forall k :: 0 <= k < |imports| ==>
      && r.value[k].prefix == imports[k].prefix
      && r.value[k].fullPath == imports[k].fullPath
      && r.value[k].relativePath == Some(RerootText(rootRelativePath, imports[k].relativePath.value))
    decreases |imports|
  {
    if |imports| == 0 then Ok([])
    else
      var i := imports[0];
      match i.relativePath
      case None => Err(NullImportPath)
      case Some(p) =>
        match RerootImports(rootRelativePath, imports[1..])
        case Err(e) => Err(e)
        case Ok(rest) =>
          Ok([ImportData(i.prefix, Some(RerootText(rootRelativePath, p)), i.fullPath)] + rest)
  }

  /** `rootRelativePath`: where the state file's directory lies as seen
      from the directory of the builders file. */
  function RootRelativePath(cwd: seq<string>, buildersFilePath: string, stateFilePath: string): Path
  {
    ResolveRelativeStateFilePath(cwd, Dirname(Parse(buildersFilePath)), Dirname(Parse(stateFilePath)))
  }

  /** The module path the state module is imported from. */
  function StateModulePath(rootRelativePath: Path, relativePath: Option<string>, fileName: string): (r: string)
    ensures !Relocates(relativePath) ==> r == "./" + fileName
    ensures Relocates(relativePath) ==> r == RerootText(rootRelativePath, fileName)
  {
    if !Relocates(relativePath) then "./" + fileName else RerootText(rootRelativePath, fileName)
  }

  /** The imports handed to `createFullImports`. */
  function FullImports(rootRelativePath: Path, relativePath: Option<string>, imports: seq<ImportData>): (r: Result<seq<ImportData>, BuildersError>)
    ensures !Relocates(relativePath) ==> r == Ok(imports)
    ensures Relocates(relativePath) ==> r == RerootImports(rootRelativePath, imports)
  {
    if !Relocates(relativePath) then Ok(imports) else RerootImports(rootRelativePath, imports)
  }

  /** A module path written relative to the state file's directory and
      re-rooted by `path.join(rootRelativePath, p)`, looked up from the
      builders file's directory, resolves to the file it resolved to from
      the state file's directory (for a working directory whose pieces hold
      no `/`), unless `p` is absolute and the builders file lies elsewhere:
      the join then turns it into a relative path
      (`RerootMakesAbsoluteRelative`). This is the module the import names
      only when `p` and the re-rooted text are both relative specifiers: a
      package specifier is turned into a path (`RerootRewritesPackage`),
      and a leading `./` can be lost (`StateModuleLosesCurrent`). */
  lemma RerootedPathResolvesSame(cwd: seq<string>, buildersFilePath: string, stateFilePath: string, p: string)
    requires NoSlash(cwd)
    ensures var rootRelativePath := RootRelativePath(cwd, buildersFilePath, stateFilePath);
      !Parse(p).absolute || rootRelativePath.segments == [] ==>
        ResolveFrom(cwd, Dirname(Parse(buildersFilePath)), Parse(RerootText(rootRelativePath, p)))
        == ResolveFrom(cwd, Dirname(Parse(stateFilePath)), Parse(p))
  {
    var fromDir := Dirname(Parse(buildersFilePath));
    var toDir := Dirname(Parse(stateFilePath));
    var rel := RootRelativePath(cwd, buildersFilePath, stateFilePath);
    ParseNoSlash(stateFilePath);
    ParseNoSlash(p);
    if !Parse(p).absolute {
      assert NoSlash(toDir.segments) by {
        var segs := Parse(stateFilePath).segments;
        if |segs| > 0 {
          assert forall i :: 0 <= i < |segs| - 1 ==> segs[..|segs| - 1][i] == segs[i];
        }
      }
      RelativeNoSlash(cwd, fromDir, toDir);
      var q := Paths.Join(rel, Parse(p));
      assert RerootText(rel, p) == Format(q) by {
        if rel.segments == [] {
          assert rel.segments + Parse(p).segments == Parse(p).segments;
        }
      }
      JoinNoSlash(rel, Parse(p));
      NormalizeNormal(rel.absolute, [], rel.segments + Parse(p).segments);
      FormatJoinParse(fromDir, q);
      RerootedJoinResolvesSame(cwd, fromDir, toDir, Parse(p));
      FormatRelative(q);
    } else if rel.segments == [] {
      NormalizedAbsoluteResolvesSame(cwd, fromDir, toDir, p);
    }
  }

  /** An absolute path, normalised, names from any directory what it named
      before. */
  lemma NormalizedAbsoluteResolvesSame(cwd: seq<string>, fromDir: Path, toDir: Path, p: string)
    requires Parse(p).absolute
    ensures ResolveFrom(cwd, fromDir, Parse(Format(Canonical(Parse(p))))) == ResolveFrom(cwd, toDir, Parse(p))
  {
    var q := Canonical(Parse(p));
    ParseNoSlash(p);
    NormalizeNormal(true, [], Parse(p).segments);
    NormalizeNoSlash(true, [], Parse(p).segments);
    FormatParseRoundTrip(q);
    NormalizeNormalIsIdentity(true, q.segments);
    assert [] + q.segments == q.segments && [] + Parse(p).segments == Parse(p).segments;
    assert Resolve(cwd, q) == q;
  }

  /** The text of a relative normal path does not read as absolute. */
  lemma FormatRelative(q: Path)
    requires !q.absolute && IsNormal(q) && NoSlash(q.segments)
    ensures !Parse(Format(q)).absolute
  {
    if |q.segments| == 0 {
      assert Format(q) == ".";
    } else {
      FormatParseRoundTrip(q);
    }
  }

  /** Every re-rooted import path, looked up from the builders file's
      directory, resolves to the file the original resolved to from the
      state file's directory, with the same limits as for
      `RerootedPathResolvesSame`. */
  lemma RerootedImportsResolveSame(cwd: seq<string>, buildersFilePath: string, stateFilePath: string, imports: seq<ImportData>)
    requires NoSlash(cwd)
    requires RerootImports(RootRelativePath(cwd, buildersFilePath, stateFilePath), imports).Ok?
    ensures var rel := RootRelativePath(cwd, buildersFilePath, stateFilePath);
      var r := RerootImports(rel, imports).value;
      forall k :: 0 <= k < |imports| && (!Parse(imports[k].relativePath.value).absolute || rel.segments == []) ==>
        ResolveFrom(cwd, Dirname(Parse(buildersFilePath)), Parse(r[k].relativePath.value))
        == ResolveFrom(cwd, Dirname(Parse(stateFilePath)), Parse(imports[k].relativePath.value))
  {
    forall k | 0 <= k < |imports| {
      RerootedPathResolvesSame(cwd, buildersFilePath, stateFilePath, imports[k].relativePath.value);
    }
  }

  // ---------------------------------------------------------------------
  // Module specifiers under re-rooting

  /** A module specifier TypeScript looks up as a path: one that starts
      with `./`, `../` or `/`; any other names a package. */
  predicate RelativeSpecifier(s: string)
  {
    "./" <= s || "../" <= s || "/" <= s
  }

  /** As written, re-rooting rewrites a package specifier: the state file's
      own `import * as bf from 'bobflux'`, re-rooted for a builders file one
      directory below, becomes a path. */
  lemma RerootRewritesPackage()
    ensures !RelativeSpecifier("bobflux")
    ensures RerootText(Path(false, [".."]), "bobflux") == "../bobflux"
    ensures RelativeSpecifier("../bobflux")
  {
    BobfluxSpecifier();
    BobfluxPlain();
    RerootUp("bobflux");
    UpBobflux();
  }

  lemma UpBobflux()
    ensures "../" + "bobflux" == "../bobflux"
  {
    assert "../" + "bob" == "../bob";
    assert "../bob" + "flux" == "../bobflux";
    assert "../" + "bobflux" == "../" + "bob" + "flux";
  }

  lemma BobfluxSpecifier()
    ensures !RelativeSpecifier("bobflux")
    ensures RelativeSpecifier("../bobflux")
  {
    assert "bobflux"[0] == 'b';
    assert "../bobflux"[..3] == "../";
  }

  lemma BobfluxPlain()
    ensures |"bobflux"| > 0 && '/' !in "bobflux" && Plain("bobflux")
  {
    assert "bobflux"[0] == 'b';
  }

  /** A single plain piece re-rooted one directory up. */
  lemma RerootUp(s: string)
    requires |s| > 0 && '/' !in s && Plain(s)
    ensures RerootText(Path(false, [".."]), s) == "../" + s
  {
    ParseSingle(s);
    JoinUp(s);
    FormatUp(s);
  }

  lemma ParseSingle(s: string)
    requires |s| > 0 && '/' !in s
    ensures Parse(s) == Path(false, [s])
  {
    SplitNoSeparator(s, '/');
    assert s[0] != '/';
    assert [s][1..] == [];
    assert NonEmpty([s]) == [s] + NonEmpty([]);
    assert Parse(s) == Path(false, NonEmpty(Split(s, '/')));
  }

  lemma FormatUp(s: string)
    ensures Format(Path(false, ["..", s])) == "../" + s
  {
    var xs := ["..", s];
    assert xs[1..] == [s];
    assert Strings.Join(xs, "/") == xs[0] + "/" + Strings.Join([s], "/");
    assert ".." + "/" == "../";
  }

  lemma JoinUp(s: string)
    requires Plain(s)
    ensures Paths.Join(Path(false, [".."]), Path(false, [s])) == Path(false, ["..", s])
  {
    assert [".."] + [s] == ["..", s];
    assert NormalizeFrom(false, [], [".."]) == [".."];
  }

  /** As written, re-rooting loses the `./` of the state module when the
      builders file lies in the state file's directory (a relative path of
      `.`): the import then names a package. */
  lemma StateModuleLosesCurrent()
    ensures Relocates(Some("."))
    ensures StateModulePath(Path(false, []), Some("."), "state") == "state"
    ensures !RelativeSpecifier("state")
  {
    EmptyRootState();
    StateNotRelative();
  }

  lemma EmptyRootState()
    ensures RerootText(Path(false, []), "state") == "state"
  {
    SplitNoSeparator("state", '/');
    assert Parse("state") == Path(false, ["state"]);
    assert Canonical(Path(false, ["state"])) == Path(false, ["state"]);
    JoinSingle("state", "/");
  }

  lemma StateNotRelative()
    ensures !RelativeSpecifier("state")
  {
    assert "state"[0] == 's';
  }

  /** As written, re-rooting under a non-empty root path turns an absolute
      specifier into a relative one: `/x`, re-rooted for a builders file
      one directory below, becomes `../x`, which names a file next to the
      state file's directory instead of `/x`. */
  lemma RerootMakesAbsoluteRelative()
    ensures Parse("/x").absolute
    ensures RerootText(Path(false, [".."]), "/x") == "../x"
    ensures !Parse("../x").absolute
  {
    ParseRootX();
    JoinUpAbsolute();
    UpX();
  }

  lemma JoinUpAbsolute()
    ensures Paths.Join(Path(false, [".."]), Path(true, ["x"])) == Path(false, ["..", "x"])
  {
    JoinUp("x");
    assert Paths.Join(Path(false, [".."]), Path(true, ["x"])) == Paths.Join(Path(false, [".."]), Path(false, ["x"]));
  }

  lemma UpX()
    ensures Format(Path(false, ["..", "x"])) == "../x"
    ensures !Parse("../x").absolute
  {
    FormatUp("x");
    assert "../" + "x" == "../x";
    assert "../x"[0] == '.';
  }

  lemma ParseRootX()
    ensures Parse("/x") == Path(true, ["x"])
  {
    FormatParseAbsolute(["x"]);
    JoinSingle("x", "/");
    assert Format(Path(true, ["x"])) == "/x";
  }

  /** With the builders file in the state file's directory the root path is
      empty, and an absolute specifier stays as it is, as `path.join('',
      '/x')` leaves it. */
  lemma EmptyRootKeepsAbsolute()
    ensures RerootText(Path(false, []), "/x") == "/x"
  {
    ParseRootX();
    assert Canonical(Path(true, ["x"])) == Path(true, ["x"]);
    JoinSingle("x", "/");
    assert Format(Path(true, ["x"])) == "/x";
  }

  /** Re-rooting as the code evidently intends it: a package specifier and
      an absolute one are kept as they are, and a re-rooted path that no
      longer reads as relative gets `./` in front. */
  function RerootSpecifier(rootRelativePath: Path, p: string): (r: string)
    ensures !RelativeSpecifier(p) || Parse(p).absolute ==> r == p
    ensures RelativeSpecifier(p) ==> RelativeSpecifier(r)
  {
    if !RelativeSpecifier(p) || Parse(p).absolute then p
    else
      var t := RerootText(rootRelativePath, p);
      if RelativeSpecifier(t) then t else "./" + t
  }

  /** A text that does not start with `/`, behind `./`, reads as a `.`
      piece followed by its own pieces. */
  lemma ParseCurrent(t: string)
    requires !("/" <= t)
    ensures Parse("./" + t) == Path(false, ["."] + Parse(t).segments)
    ensures !Parse(t).absolute
  {
    assert "./" + t == "." + ['/'] + t;
    SplitAround(".", t, '/');
    SplitNoSeparator(".", '/');
    var xs := ["."] + Split(t, '/');
    assert xs[1..] == Split(t, '/');
  }

  /** The corrected re-rooting keeps what the re-rooting as written
      promises for a relative specifier: read from the builders file's
      directory, it names the file the original named from the state
      file's directory. */
  lemma RerootSpecifierResolvesSame(cwd: seq<string>, buildersFilePath: string, stateFilePath: string, p: string)
    requires NoSlash(cwd) && RelativeSpecifier(p)
    ensures var rootRelativePath := RootRelativePath(cwd, buildersFilePath, stateFilePath);
      ResolveFrom(cwd, Dirname(Parse(buildersFilePath)), Parse(RerootSpecifier(rootRelativePath, p)))
      == ResolveFrom(cwd, Dirname(Parse(stateFilePath)), Parse(p))
  {
    if !Parse(p).absolute {
      var rel := RootRelativePath(cwd, buildersFilePath, stateFilePath);
      var t := RerootText(rel, p);
      RerootedPathResolvesSame(cwd, buildersFilePath, stateFilePath, p);
      if !RelativeSpecifier(t) {
        ParseCurrent(t);
        JoinSkipsCurrent(Dirname(Parse(buildersFilePath)), Parse(t).segments);
        assert Parse(t) == Path(false, Parse(t).segments);
      }
    }
  }

  /** The state module's path as the code evidently intends it: `./` and
      the file name, re-rooted the corrected way when relocating, so that
      it always reads as a path. */
  function StateModulePathIntended(rootRelativePath: Path, relativePath: Option<string>, fileName: string): (r: string)
    ensures RelativeSpecifier(r)
    ensures !Relocates(relativePath) ==> r == "./" + fileName
  {
    assert ("./" + fileName)[..2] == "./";
    if !Relocates(relativePath) then "./" + fileName else RerootSpecifier(rootRelativePath, "./" + fileName)
  }

  /** When relocating, the corrected state module path looked up from the
      builders file's directory names the file that `./` and the file name
      name from the state file's directory. */
  lemma StateModulePathIntendedResolvesSame(cwd: seq<string>, buildersFilePath: string, stateFilePath: string,
                                            relativePath: Option<string>, fileName: string)
    requires NoSlash(cwd)
    ensures var rootRelativePath := RootRelativePath(cwd, buildersFilePath, stateFilePath);
      Relocates(relativePath) ==>
        ResolveFrom(cwd, Dirname(Parse(buildersFilePath)), Parse(StateModulePathIntended(rootRelativePath, relativePath, fileName)))
        == ResolveFrom(cwd, Dirname(Parse(stateFilePath)), Parse("./" + fileName))
  {
    assert ("./" + fileName)[..2] == "./";
    RerootSpecifierResolvesSame(cwd, buildersFilePath, stateFilePath, "./" + fileName);
  }

  /** The fuel the model gives `createFieldsContent`: one level more than
      there are states, so that only a state graph with a cycle runs out
      (see `WrittenWhenRanked`). */
  function Fuel(data: SourceData): nat
  {
    |data.states| + 1
  }

  /** What `writeBuilders` hands to `createFieldsContent` for the main
      state `mainState`. */
  function MainCtx(env: Env, data: SourceData, currentStateName: string, parentStateKey: Option<string>, mainState: StateData): Ctx
  {
    Ctx(data.states, env.createUnusedAlias(data.imports), parentStateKey, currentStateName, env.resolveBobfluxPrefix(mainState))
  }

  /** `writeBuilders(stateFilePath, data, currentStateName, relativePath,
      …, parentStateKey)` with `applyRecurse` off: nothing when the main
      state cannot be resolved; otherwise the full imports followed by the
      main state's builders, written to the builders file path, unless an
      exception ends the call first. */
  function WriteBuilders(env: Env, cwd: seq<string>, rootBaseDir: string, relativeDir: string, stateFilePath: string,
                         data: SourceData, currentStateName: string, relativePath: Option<string>,
                         parentStateKey: Option<string>): (r: Outcome)
    ensures r.NothingWritten? <==> env.resolveState(data.states, currentStateName).None?
    ensures r.Written? ==> r.filePath == env.createBuildersFilePath(rootBaseDir, relativeDir, stateFilePath)
  {
    match env.resolveState(data.states, currentStateName)
    case None => NothingWritten
    case Some(mainState) =>
      var bobfluxPrefix := env.resolveBobfluxPrefix(mainState);
      var stateAlias := env.createUnusedAlias(data.imports);
      var buildersFilePath := env.createBuildersFilePath(rootBaseDir, relativeDir, stateFilePath);
      var rootRelativePath := RootRelativePath(cwd, buildersFilePath, stateFilePath);
      var modulePath := StateModulePath(rootRelativePath, relativePath, data.fileName);
      match FullImports(rootRelativePath, relativePath, data.imports)
      case Err(e) => Failed(e)
      case Ok(imports) =>
        var ctx := MainCtx(env, data, currentStateName, parentStateKey, mainState);
        match FieldsContent(env, ctx, mainState, None, Fuel(data))
        case Err(e) => Failed(e)
        case Ok(body) => Written(buildersFilePath, env.createFullImports(stateAlias, modulePath, imports) + body)
  }

  /** The imports `writeBuilders` can hand on: all of them when nothing is
      relocated, otherwise only when each has a module path. */
  predicate ImportsJoinable(relativePath: Option<string>, imports: seq<ImportData>)
  {
    !Relocates(relativePath) || forall k :: 0 <= k < |imports| ==> imports[k].relativePath.Some?
  }

  /** A module whose state names are unique and whose states do not
      contain themselves gets its builders file written, once the main
      state resolves to one of its states and the imports can be joined. */
  lemma WrittenWhenRanked(env: Env, cwd: seq<string>, rootBaseDir: string, relativeDir: string, stateFilePath: string,
                          data: SourceData, currentStateName: string, relativePath: Option<string>,
                          parentStateKey: Option<string>, rank: string -> nat)
    requires env.resolveState(data.states, currentStateName).Some?
    requires env.resolveState(data.states, currentStateName).value in data.states
    requires UniqueNames(data.states) && Ranked(data.states, rank)
    requires ImportsJoinable(relativePath, data.imports)
    ensures WriteBuilders(env, cwd, rootBaseDir, relativeDir, stateFilePath, data, currentStateName, relativePath, parentStateKey).Written?
  {
    var mainState := env.resolveState(data.states, currentStateName).value;
    MainBuildsWhenRanked(env, data, currentStateName, parentStateKey, rank, mainState);
    var rootRelativePath := RootRelativePath(cwd, env.createBuildersFilePath(rootBaseDir, relativeDir, stateFilePath), stateFilePath);
    assert FullImports(rootRelativePath, relativePath, data.imports).Ok?;
  }

  lemma MainBuildsWhenRanked(env: Env, data: SourceData, currentStateName: string, parentStateKey: Option<string>,
                             rank: string -> nat, mainState: StateData)
    requires mainState in data.states && UniqueNames(data.states) && Ranked(data.states, rank)
    ensures FieldsContent(env, MainCtx(env, data, currentStateName, parentStateKey, mainState), mainState, None, Fuel(data)).Ok?
  {
    var ctx := MainCtx(env, data, currentStateName, parentStateKey, mainState);
    var depth := Fuel(data) - 1;
    assert rank(mainState.name) <= depth by {
      var i :| 0 <= i < |ctx.states| && ctx.states[i] == mainState;
    }
    RankedBuilds(env, ctx, rank, mainState, None, depth);
  }

  /** A main state on a cycle of the state graph makes `writeBuilders`
      fail: the stack overflow is caught and nothing is written. */
  lemma CyclicMainFails(env: Env, cwd: seq<string>, rootBaseDir: string, relativeDir: string, stateFilePath: string,
                        data: SourceData, currentStateName: string, relativePath: Option<string>,
                        parentStateKey: Option<string>, path: seq<StateData>)
    requires env.resolveState(data.states, currentStateName).Some?
    requires UniqueNames(data.states) && Cycle(data.states, path)
    requires path[0] == env.resolveState(data.states, currentStateName).value
    requires ImportsJoinable(relativePath, data.imports)
    ensures WriteBuilders(env, cwd, rootBaseDir, relativeDir, stateFilePath, data, currentStateName, relativePath, parentStateKey) == Failed(TooDeep)
  {
    var mainState := env.resolveState(data.states, currentStateName).value;
    CycleTooDeep(env, MainCtx(env, data, currentStateName, parentStateKey, mainState), path, 0, None, Fuel(data));
  }

  /** A main state with a field whose type names two states of the module
      makes `writeBuilders` fail: the throw of `createFieldsContent` is
      caught and nothing is written. */
  lemma DuplicateMainFails(env: Env, cwd: seq<string>, rootBaseDir: string, relativeDir: string, stateFilePath: string,
                           data: SourceData, currentStateName: string, relativePath: Option<string>,
                           parentStateKey: Option<string>)
    requires env.resolveState(data.states, currentStateName).Some?
    requires HasDuplicate(data.states, env.resolveState(data.states, currentStateName).value.fields)
    requires ImportsJoinable(relativePath, data.imports)
    ensures WriteBuilders(env, cwd, rootBaseDir, relativeDir, stateFilePath, data, currentStateName, relativePath, parentStateKey)
            == Failed(TwoStatesWithSameName)
  {
    var mainState := env.resolveState(data.states, currentStateName).value;
    var ctx := MainCtx(env, data, currentStateName, parentStateKey, mainState);
    assert FieldsContent(env, ctx, mainState, None, Fuel(data)) == Err(TwoStatesWithSameName);
  }

  /** The written text is the imports followed by the main state's own
      builder class. */
  lemma WrittenStartsWithMainClass(env: Env, cwd: seq<string>, rootBaseDir: string, relativeDir: string, stateFilePath: string,
                                   data: SourceData, currentStateName: string, relativePath: Option<string>,
                                   parentStateKey: Option<string>)
    requires WriteBuilders(env, cwd, rootBaseDir, relativeDir, stateFilePath, data, currentStateName, relativePath, parentStateKey).Written?
    ensures var mainState := env.resolveState(data.states, currentStateName).value;
      var stateAlias := env.createUnusedAlias(data.imports);
      var rootRelativePath := RootRelativePath(cwd, env.createBuildersFilePath(rootBaseDir, relativeDir, stateFilePath), stateFilePath);
      var imports := FullImports(rootRelativePath, relativePath, data.imports).value;
      var head := env.createFullImports(stateAlias, StateModulePath(rootRelativePath, relativePath, data.fileName), imports);
      head + ClassText(env, MainCtx(env, data, currentStateName, parentStateKey, mainState), mainState)
        <= WriteBuilders(env, cwd, rootBaseDir, relativeDir, stateFilePath, data, currentStateName, relativePath, parentStateKey).text
  {
    var mainState := env.resolveState(data.states, currentStateName).value;
    var ctx := MainCtx(env, data, currentStateName, parentStateKey, mainState);
    FieldsContentStartsWithClass(env, ctx, mainState, None, Fuel(data));
    var rootRelativePath := RootRelativePath(cwd, env.createBuildersFilePath(rootBaseDir, relativeDir, stateFilePath), stateFilePath);
    var head := env.createFullImports(env.createUnusedAlias(data.imports), StateModulePath(rootRelativePath, relativePath, data.fileName),
                                      FullImports(rootRelativePath, relativePath, data.imports).value);
    PrefixAfter(head, ClassText(env, ctx, mainState), FieldsContent(env, ctx, mainState, None, Fuel(data)).value);
  }

  /** `writeBuilders` fails only with the exceptions of
      `createFieldsContent`, or, when relocating, with that of `path.join`
      for an import without a module path. */
  lemma WriteBuildersErrors(env: Env, cwd: seq<string>, rootBaseDir: string, relativeDir: string, stateFilePath: string,
                            data: SourceData, currentStateName: string, relativePath: Option<string>,
                            parentStateKey: Option<string>)
    ensures var r := WriteBuilders(env, cwd, rootBaseDir, relativeDir, stateFilePath, data, currentStateName, relativePath, parentStateKey);
      r.Failed? ==> (r.error == NullImportPath <==> !ImportsJoinable(relativePath, data.imports))
  {
    match env.resolveState(data.states, currentStateName)
    case None =>
    case Some(mainState) =>
      FieldsContentErrors(env, MainCtx(env, data, currentStateName, parentStateKey, mainState), mainState, None, Fuel(data));
  }

  /** `path.join(path.dirname(p), path.basename(p))`: the state file path
      `run` hands to `writeBuilders`. */
  function LoadedFilePath(stateFilePath: string): string
  {
    Format(Paths.Join(Dirname(Parse(stateFilePath)), Parse(Basename(Parse(stateFilePath)))))
  }

  /** The path `run` hands to `writeBuilders` is the loaded path normalised,
      and a normal path with at least one piece comes back as it is. */
  lemma LoadedFilePathNormalises(stateFilePath: string)
    ensures LoadedFilePath(stateFilePath) == Format(Canonical(Parse(stateFilePath)))
    ensures IsNormal(Parse(stateFilePath)) && |Parse(stateFilePath).segments| > 0 ==>
      Parse(LoadedFilePath(stateFilePath)) == Parse(stateFilePath)
  {
    var p := Parse(stateFilePath);
    var s := p.segments;
    ParseNoSlash(stateFilePath);
    if |s| > 0 {
      var b := s[|s| - 1];
      NonEmptyDropsEmpty(Split(stateFilePath, '/'));
      ParseSingle(b);
      assert Dirname(p).segments + [b] == s;
    } else {
      SplitNoSeparator("", '/');
      assert Parse("") == Path(false, []);
      assert s + [] == s;
    }
    if IsNormal(p) && |s| > 0 {
      NormalizeNormalIsIdentity(p.absolute, s);
      FormatParseRoundTrip(p);
    }
  }

  /** The project settings `run` reads. */
  datatype Project = Project(relativePath: Option<string>, appStateName: string)

  /** `run` once the source files are loaded: `stateFilePath` and `data` are
      the path and the analysed contents of the state file that
      `g.loadSourceFiles` returns. The directories the builders file path
      is chosen from, and the call of `writeBuilders` with the project's
      settings and the root state key. */
  function Run(env: Env, cwd: seq<string>, project: Project, stateFilePath: string, data: SourceData,
               rootStateKey: Option<string>): (r: Outcome)
    ensures r.NothingWritten? <==> env.resolveState(data.states, project.appStateName).None?
  {
    var dir := Dirname(Parse(stateFilePath));
    var rootBaseDir := Format(dir);
    var relativeDir := if Relocates(project.relativePath) then Format(Paths.Join(dir, Parse(project.relativePath.value))) else rootBaseDir;
    var filePath := LoadedFilePath(stateFilePath);
    WriteBuilders(env, cwd, rootBaseDir, relativeDir, filePath, data, project.appStateName, project.relativePath, rootStateKey)
  }
}
