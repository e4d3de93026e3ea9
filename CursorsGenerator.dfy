/** The cursors generator (src/cursorsGenerator.ts): from the record of the
    application state file it writes `cursors.ts`, which declares a root
    cursor typed with the main state and one cursor per field of every
    state. */
module CursorsGenerator {
  import opened Wrappers
  import opened Strings
  import opened Schema

  /** The exceptions the text expression can raise. */
  datatype CursorsError =
      /** `data.states[mainStateIndex]` is undefined. */
    | NoStates
      /** `getStatePrefix` was reached for a state name that, once `State`
          is removed, does not start with `I`. */
    | BadStateName(stateName: string)

  /** A file to be written. */
  datatype Artifact = Artifact(fileName: string, text: string)

  /** The position of the main (application) state. */
  const MainStateIndex: nat := 0

  const OutputFileName := "cursors.ts"

  /** `stateName` with its first `State` removed. */
  function WithoutState(stateName: string): string
  {
    ReplaceFirst(stateName, "State", "")
  }

  /** `getStatePrefix` gets past its second line only when the name, once
      `State` is removed, starts with `I`; otherwise `s` becomes `false`. */
  predicate StatePrefixDefined(stateName: string)
  {
    var s := WithoutState(stateName);
    |s| > 0 && s[0] == 'I'
  }

  /** `getStatePrefix`: the state's name without `State` and the leading
      `I`, first letter in lower case, then the property's name with the
      first letter in upper case. */
  function GetStatePrefix(stateName: string, propName: string): string
    requires StatePrefixDefined(stateName)
  {
    var s := WithoutState(stateName);
    var s := s[1..];
    var s := LowerFirst(s);
    s + UpperFirst(propName)
  }

  /** The name the cursor of field `f` of the `i`th state is declared under,
      without the `Cursor` suffix. */
  function CursorName(i: nat, s: StateData, f: Field): string
    requires i != MainStateIndex ==> StatePrefixDefined(s.name)
  {
    if i == MainStateIndex then f.name else GetStatePrefix(s.name, f.name)
  }

  /** The cursor's type argument: qualified by the state module for a state
      field, the field's recorded type otherwise. */
  function CursorType(f: Field): string
  {
    if f.isState then "s." + f.fieldType else f.fieldType
  }

  /** The text of one cursor declaration: a line break, then the
      declaration, the key and the closing brace on lines of their own. */
  function CursorBlock(i: nat, s: StateData, f: Field): string
    requires i != MainStateIndex ==> StatePrefixDefined(s.name)
  {
    Join(CursorLines(i, s, f), "\n")
  }

  /** Every state's name is accepted by `getStatePrefix` where it is
      reached: for the states after the main one that have fields. */
  predicate PrefixesDefined(states: seq<StateData>)
  {
    forall i :: 0 <= i < |states| && i != MainStateIndex && |states[i].fields| > 0 ==> StatePrefixDefined(states[i].name)
  }

  function FieldBlocks(i: nat, s: StateData, fields: seq<Field>): (r: seq<string>)
    requires i != MainStateIndex && |fields| > 0 ==> StatePrefixDefined(s.name)
    ensures |r| == |fields|
    ensures forall k :: 0 <= k < |r| ==> r[k] == CursorBlock(i, s, fields[k])
  {
    if |fields| == 0 then [] else [CursorBlock(i, s, fields[0])] + FieldBlocks(i, s, fields[1..])
  }

  /** The text of the `i`th state's cursors: its fields' blocks joined by
      line breaks (`s.fields.map(…).join('\n')`). */
  function StateText(i: nat, s: StateData): string
    requires i != MainStateIndex && |s.fields| > 0 ==> StatePrefixDefined(s.name)
  {
    Join(FieldBlocks(i, s, s.fields), "\n")
  }

  function StateTexts(states: seq<StateData>, from: nat): (r: seq<string>)
    requires PrefixesDefined(states) && from <= |states|
    ensures |r| == |states| - from
    decreases |states| - from
  {
    if from == |states| then [] else [StateText(from, states[from])] + StateTexts(states, from + 1)
  }

  /** The `k`th text is that of the state `k` places after `from`: the
      states' texts keep the states' order. */
  lemma {:induction false} StateTextsAt(states: seq<StateData>, from: nat, k: nat)
    requires PrefixesDefined(states) && from + k < |states|
    ensures StateTexts(states, from)[k] == StateText(from + k, states[from + k])
    decreases k
  {
    if k > 0 {
      var rest := StateTexts(states, from + 1);
      StateTextsAt(states, from + 1, k - 1);
      assert StateTexts(states, from) == [StateText(from, states[from])] + rest;
      assert StateTexts(states, from)[k] == rest[k - 1];
      assert from + 1 + (k - 1) == from + k;
    }
  }

  /** The two import lines, an empty line and the root cursor line, each
      ended by a line break. */
  function HeaderText(fileName: string, mainStateName: string): string
  {
    Join(HeaderLines(fileName, mainStateName), "\n") + "\n"
  }

  /** The first state whose name `getStatePrefix` would reject, if any. */
  function FirstBadState(states: seq<StateData>, from: nat): (r: Option<nat>)
    requires from <= |states|
    ensures r.None? ==> forall i :: from <= i < |states| && i != MainStateIndex && |states[i].fields| > 0 ==> StatePrefixDefined(states[i].name)
    ensures r.Some? ==> from <= r.value < |states| && r.value != MainStateIndex && |states[r.value].fields| > 0 && !StatePrefixDefined(states[r.value].name)
    ensures r.Some? ==> forall i :: from <= i < r.value && i != MainStateIndex && |states[i].fields| > 0 ==> StatePrefixDefined(states[i].name)
    decreases |states| - from
  {
    if from == |states| then None
    else if from != MainStateIndex && |states[from].fields| > 0 && !StatePrefixDefined(states[from].name) then Some(from)
    else FirstBadState(states, from + 1)
  }

  /** `cursorsText`: the header, then the states' texts joined by line
      breaks, then a final line break; or the exception the expression
      raises. */
  function CursorsText(data: SourceData): (r: Result<string, CursorsError>)
    ensures r == Err(NoStates) <==> |data.states| == 0
    ensures r.Ok? <==> |data.states| > 0 && PrefixesDefined(data.states)
    ensures r.Err? && r.error.BadStateName? ==>
      (exists i :: 0 < i < |data.states| && |data.states[i].fields| > 0
                   && data.states[i].name == r.error.stateName && !StatePrefixDefined(r.error.stateName))
    ensures r.Ok? ==> HeaderText(data.fileName, data.states[MainStateIndex].name) <= r.value
    ensures r.Ok? ==> EndsWith(r.value, "\n")
  {
    if |data.states| == 0 then Err(NoStates)
    else match FirstBadState(data.states, 0)
      case Some(i) => Err(BadStateName(data.states[i].name))
      case None =>
        var header := HeaderText(data.fileName, data.states[MainStateIndex].name);
        var text := header + Join(StateTexts(data.states, 0), "\n") + "\n";
        assert text[..|header|] == header;
        Ok(text)
  }

  /** `run` for one source file: the artifact handed to the write
      callback. */
  function Run(data: SourceData): (r: Result<Artifact, CursorsError>)
    ensures r.Ok? ==> r.value.fileName == OutputFileName
    ensures r.Ok? <==> CursorsText(data).Ok?
    ensures r.Ok? ==> r.value.text == CursorsText(data).value
  {
    match CursorsText(data)
    case Err(e) => Err(e)
    case Ok(text) => Ok(Artifact(OutputFileName, text))
  }

  // ---------------------------------------------------------------------
  // The text line by line

  /** The lines of the header. */
  function HeaderLines(fileName: string, mainStateName: string): seq<string>
  {
    [ "import * as bf from 'bobflux';",
      "import * as s from './" + fileName + "';",
      "",
      "export let appCursor: bf.ICursor<s." + mainStateName + "> = bf.rootCursor" ]
  }

  /** The lines of one cursor: an empty line, the declaration, the key,
      which is the field's own name, and the closing brace. */
  function CursorLines(i: nat, s: StateData, f: Field): seq<string>
    requires i != MainStateIndex ==> StatePrefixDefined(s.name)
  {
    [ "",
      "export let " + CursorName(i, s, f) + "Cursor: bf.ICursor<" + CursorType(f) + "> = {",
      "    key: '" + f.name + "'",
      "}" ]
  }

  function FieldsLines(i: nat, s: StateData, fields: seq<Field>): seq<string>
    requires i != MainStateIndex && |fields| > 0 ==> StatePrefixDefined(s.name)
  {
    if |fields| == 0 then [] else CursorLines(i, s, fields[0]) + FieldsLines(i, s, fields[1..])
  }

  /** The lines of one state: the lines of its cursors, or one empty line
      for a state without fields. */
  function StateLines(i: nat, s: StateData): seq<string>
    requires i != MainStateIndex && |s.fields| > 0 ==> StatePrefixDefined(s.name)
  {
    if |s.fields| == 0 then [""] else FieldsLines(i, s, s.fields)
  }

  function StatesLines(states: seq<StateData>, from: nat): seq<string>
    requires PrefixesDefined(states) && from <= |states|
    decreases |states| - from
  {
    if from == |states| then [] else StateLines(from, states[from]) + StatesLines(states, from + 1)
  }

  /** No text the generator copies into the output holds a line break. */
  predicate SingleLine(data: SourceData)
  {
    '\n' !in data.fileName && forall i :: 0 <= i < |data.states| ==> StateSingleLine(data.states[i])
  }

  predicate StateSingleLine(s: StateData)
  {
    '\n' !in s.name && forall k :: 0 <= k < |s.fields| ==> FieldSingleLine(s.fields[k])
  }

  predicate FieldSingleLine(f: Field)
  {
    '\n' !in f.name && '\n' !in f.fieldType
  }

  lemma NoBreakConcat(a: string, b: string)
    requires '\n' !in a && '\n' !in b
    ensures '\n' !in a + b
  {
    assert forall k :: 0 <= k < |a + b| ==> (a + b)[k] == (if k < |a| then a[k] else b[k - |a|]);
  }

  lemma LowerFirstNoBreak(s: string)
    requires '\n' !in s
    ensures '\n' !in LowerFirst(s) && '\n' !in UpperFirst(s)
  {
    if |s| > 0 {
      assert LowerChar(s[0]) != '\n' && UpperChar(s[0]) != '\n';
      NotInSlice(s, '\n', 1, |s|);
      assert s[1..|s|] == s[1..];
      NoBreakConcat([LowerChar(s[0])], s[1..]);
      NoBreakConcat([UpperChar(s[0])], s[1..]);
    }
  }

  lemma ReplaceFirstNoBreak(s: string, pat: string)
    requires '\n' !in s
    ensures '\n' !in ReplaceFirst(s, pat, "")
  {
    match IndexOf(s, pat)
    case None =>
    case Some(i) =>
      assert ReplaceFirst(s, pat, "") == s[..i] + s[i + |pat|..];
      NotInSlice(s, '\n', 0, i);
      NotInSlice(s, '\n', i + |pat|, |s|);
      assert s[0..i] == s[..i] && s[i + |pat|..|s|] == s[i + |pat|..];
      NoBreakConcat(s[..i], s[i + |pat|..]);
  }

  lemma CursorNameNoBreak(i: nat, s: StateData, f: Field)
    requires i != MainStateIndex ==> StatePrefixDefined(s.name)
    requires '\n' !in s.name && '\n' !in f.name
    ensures '\n' !in CursorName(i, s, f)
  {
    if i != MainStateIndex {
      var w := WithoutState(s.name);
      ReplaceFirstNoBreak(s.name, "State");
      NotInSlice(w, '\n', 1, |w|);
      assert w[1..|w|] == w[1..];
      LowerFirstNoBreak(w[1..]);
      LowerFirstNoBreak(f.name);
      NoBreakConcat(LowerFirst(w[1..]), UpperFirst(f.name));
    }
  }

  /** One cursor block is the four lines of `CursorLines`. */
  lemma CursorBlockLines(i: nat, s: StateData, f: Field)
    requires i != MainStateIndex ==> StatePrefixDefined(s.name)
    requires '\n' !in s.name && FieldSingleLine(f)
    ensures Lines(CursorBlock(i, s, f)) == CursorLines(i, s, f)
  {
    var ls := CursorLines(i, s, f);
    CursorNameNoBreak(i, s, f);
    var t := CursorType(f);
    assert '\n' !in t by {
      if f.isState { NoBreakConcat("s.", f.fieldType); }
    }
    var l1 := "export let " + CursorName(i, s, f) + "Cursor: bf.ICursor<" + t + "> = {";
    var l2 := "    key: '" + f.name + "'";
    NoBreakConcat("export let ", CursorName(i, s, f));
    NoBreakConcat("export let " + CursorName(i, s, f), "Cursor: bf.ICursor<");
    NoBreakConcat("export let " + CursorName(i, s, f) + "Cursor: bf.ICursor<", t);
    NoBreakConcat("export let " + CursorName(i, s, f) + "Cursor: bf.ICursor<" + t, "> = {");
    NoBreakConcat("    key: '", f.name);
    NoBreakConcat("    key: '" + f.name, "'");
    SplitJoinRoundTrip(ls, '\n');
  }

  lemma {:induction false} FieldBlocksLines(i: nat, s: StateData, fields: seq<Field>)
    requires |fields| > 0
    requires i != MainStateIndex ==> StatePrefixDefined(s.name)
    requires '\n' !in s.name
    requires forall k :: 0 <= k < |fields| ==> FieldSingleLine(fields[k])
    ensures SplitMany(FieldBlocks(i, s, fields), '\n') == FieldsLines(i, s, fields)
  {
    CursorBlockLines(i, s, fields[0]);
    if |fields| == 1 {
      assert FieldBlocks(i, s, fields)[1..] == [];
    } else {
      FieldBlocksLines(i, s, fields[1..]);
      assert FieldBlocks(i, s, fields)[1..] == FieldBlocks(i, s, fields[1..]);
    }
  }

  lemma StateTextLines(i: nat, s: StateData)
    requires i != MainStateIndex && |s.fields| > 0 ==> StatePrefixDefined(s.name)
    requires StateSingleLine(s)
    ensures Lines(StateText(i, s)) == StateLines(i, s)
  {
    if |s.fields| > 0 {
      SplitJoin(FieldBlocks(i, s, s.fields), '\n');
      FieldBlocksLines(i, s, s.fields);
    }
  }

  lemma {:induction false} StateTextsLines(states: seq<StateData>, from: nat)
    requires PrefixesDefined(states) && from <= |states|
    requires forall i :: 0 <= i < |states| ==> StateSingleLine(states[i])
    ensures SplitMany(StateTexts(states, from), '\n') == StatesLines(states, from)
    decreases |states| - from
  {
    if from < |states| {
      StateTextsLines(states, from + 1);
      StateTextsLinesStep(states, from);
    }
  }

  lemma StateTextsLinesStep(states: seq<StateData>, from: nat)
    requires PrefixesDefined(states) && from < |states|
    requires StateSingleLine(states[from])
    requires SplitMany(StateTexts(states, from + 1), '\n') == StatesLines(states, from + 1)
    ensures SplitMany(StateTexts(states, from), '\n') == StatesLines(states, from)
  {
    var t, rest := StateText(from, states[from]), StateTexts(states, from + 1);
    assert StateTexts(states, from) == [t] + rest;
    StateTextLines(from, states[from]);
    SplitManyCons(t, rest, '\n');
  }

  /** The whole text, line by line: the four header lines, then for every
      state in order the lines of its cursors in field order (one empty
      line for a state without fields), then the empty line after the
      final line break. */
  lemma CursorsTextLines(data: SourceData)
    requires CursorsText(data).Ok?
    requires SingleLine(data)
    ensures Lines(CursorsText(data).value)
         == HeaderLines(data.fileName, data.states[MainStateIndex].name) + StatesLines(data.states, 0) + [""]
  {
    var main := data.states[MainStateIndex].name;
    var hl := HeaderLines(data.fileName, main);
    var ts := StateTexts(data.states, 0);
    CursorsTextPieces(data);
    HeaderLinesSingle(data.fileName, main);
    LinesOfBlocks(hl, ts);
    StateTextsLines(data.states, 0);
  }

  /** The text is the header's lines and the states' texts followed by an
      empty piece, joined by line breaks. */
  lemma CursorsTextPieces(data: SourceData)
    requires CursorsText(data).Ok?
    ensures CursorsText(data).value
         == Join(HeaderLines(data.fileName, data.states[MainStateIndex].name), "\n") + ['\n']
            + Join(StateTexts(data.states, 0) + [""], "\n")
  {
    JoinAppend(StateTexts(data.states, 0), [""], "\n");
  }

  /** No header line holds a line break. */
  lemma HeaderLinesSingle(fileName: string, main: string)
    requires '\n' !in fileName && '\n' !in main
    ensures forall i :: 0 <= i < |HeaderLines(fileName, main)| ==> '\n' !in HeaderLines(fileName, main)[i]
  {
    ImportLineSingle(fileName);
    RootCursorLineSingle(main);
    assert '\n' !in "import * as bf from 'bobflux';";
  }

  lemma ImportLineSingle(fileName: string)
    requires '\n' !in fileName
    ensures '\n' !in "import * as s from './" + fileName + "';"
  {
    NoBreakConcat("import * as s from './", fileName);
    NoBreakConcat("import * as s from './" + fileName, "';");
  }

  lemma RootCursorLineSingle(main: string)
    requires '\n' !in main
    ensures '\n' !in "export let appCursor: bf.ICursor<s." + main + "> = bf.rootCursor"
  {
    NoBreakConcat("export let appCursor: bf.ICursor<s.", main);
    NoBreakConcat("export let appCursor: bf.ICursor<s." + main, "> = bf.rootCursor");
  }

  // ---------------------------------------------------------------------
  // Names and types of the cursors

  /** For a name of the form `I<w>State` whose only `State` is the final
      one, the prefix is `w` with its first letter in lower case followed by
      the property's name with its first letter in upper case. */
  lemma GetStatePrefixOfStateName(name: string, w: string, propName: string)
    requires name == "I" + w + "State"
    requires forall j :: 0 <= j <= |w| ==> !OccursAt(name, "State", j)
    ensures StatePrefixDefined(name)
    ensures GetStatePrefix(name, propName) == LowerFirst(w) + UpperFirst(propName)
  {
    var i := |w| + 1;
    assert name[i..i + 5] == "State";
    assert OccursAt(name, "State", i);
    assert IndexOf(name, "State") == Some(i);
    assert name[..i] == "I" + w;
    assert name[i + 5..] == "";
    assert WithoutState(name) == "I" + w;
    assert ("I" + w)[1..] == w;
  }

  lemma SecondNestedHasOneState()
    ensures forall j :: 0 <= j <= 12 ==> !OccursAt("ISecondNestedState", "State", j)
  {
    var name := "ISecondNestedState";
    forall j | 0 <= j <= 12 ensures !OccursAt(name, "State", j) {
      if j == 1 {
        MismatchNoOccurrence(name, "State", 1, 1);
      } else {
        assert name[j] != 'S';
        MismatchNoOccurrence(name, "State", j, 0);
      }
    }
  }

  /** The prefix of every nested cursor of `ISecondNestedState`, as the
      generator's own test expects (`secondNestedStringValue` for the field
      `stringValue`). */
  lemma GetStatePrefixExample(propName: string)
    ensures StatePrefixDefined("ISecondNestedState")
    ensures GetStatePrefix("ISecondNestedState", propName) == "secondNested" + UpperFirst(propName)
  {
    SecondNestedHasOneState();
    assert "ISecondNestedState" == "I" + "SecondNested" + "State";
    GetStatePrefixOfStateName("ISecondNestedState", "SecondNested", propName);
    SecondNestedLower();
  }

  lemma SecondNestedLower()
    ensures LowerFirst("SecondNested") == "secondNested"
  { }

  /** A name without `State` that does not start with `I` makes
      `getStatePrefix` fail. */
  lemma StatePrefixUndefinedExample()
    ensures !StatePrefixDefined("Nested")
  {
    MismatchNoOccurrence("Nested", "State", 0, 0);
    MismatchNoOccurrence("Nested", "State", 1, 0);
    assert IndexOf("Nested", "State") == None;
  }
  // ---------------------------------------------------------------------
  // The generator's own test data

  const StringValueField := Field("stringValue", "string", false, false)
  const NumberValueField := Field("numberValue", "number", false, false)
  const NestedField := Field("nested", "INestedState", true, false)
  const SecondNestedField := Field("secondNested", "ISecondNestedState", true, false)

  /** The record of `stateWithNestedState.ts`, a state file of the
      generator's tests: the application state with a text field and two
      state fields, then the two nested states. */
  const NestedStateData := SourceData(
    "stateWithNestedState.ts", "stateWithNestedState",
    [ StateData("IApplicationState", Some("stateWithNestedState.ts"),
        [ StringValueField, NestedField, SecondNestedField ], [], Cls, None),
      StateData("INestedState", Some("stateWithNestedState.ts"), [ NumberValueField ], [], Cls, None),
      StateData("ISecondNestedState", Some("stateWithNestedState.ts"), [ StringValueField ], [], Cls, None) ],
    [], [], [])

  /** The record of `stateWithBaseTypes.ts`: an application state with a
      text field and a number field. */
  const BaseTypesData := SourceData(
    "stateWithBaseTypes.ts", "stateWithBaseTypes",
    [ StateData("IApplicationState", Some("stateWithBaseTypes.ts"),
        [ StringValueField, NumberValueField ], [], Cls, None) ],
    [], [], [])

  /** The expected text, block by block: the header of each file, then the
      lines of each cursor. The tests keep the `.ts` extension in the path
      of the state module, which the analyzer strips from the file name;
      the headers here carry the path the model writes. */
  const NestedStateHeader := [
    "import * as bf from 'bobflux';",
    "import * as s from './stateWithNestedState';",
    "",
    "export let appCursor: bf.ICursor<s.IApplicationState> = bf.rootCursor" ]

  const BaseTypesHeader := [
    "import * as bf from 'bobflux';",
    "import * as s from './stateWithBaseTypes';",
    "",
    "export let appCursor: bf.ICursor<s.IApplicationState> = bf.rootCursor" ]

  const StringValueBlock := [
    "",
    "export let stringValueCursor: bf.ICursor<string> = {",
    "    key: 'stringValue'",
    "}" ]

  const NumberValueBlock := [
    "",
    "export let numberValueCursor: bf.ICursor<number> = {",
    "    key: 'numberValue'",
    "}" ]

  const NestedBlock := [
    "",
    "export let nestedCursor: bf.ICursor<s.INestedState> = {",
    "    key: 'nested'",
    "}" ]

  const SecondNestedBlock := [
    "",
    "export let secondNestedCursor: bf.ICursor<s.ISecondNestedState> = {",
    "    key: 'secondNested'",
    "}" ]

  const NestedNumberValueBlock := [
    "",
    "export let nestedNumberValueCursor: bf.ICursor<number> = {",
    "    key: 'numberValue'",
    "}" ]

  const SecondNestedStringValueBlock := [
    "",
    "export let secondNestedStringValueCursor: bf.ICursor<string> = {",
    "    key: 'stringValue'",
    "}" ]

  /** The lines the tests expect for `stateWithNestedState.ts`
      (spec/cursorsGenerator.spec.ts:92-116). */
  const NestedStateLines := NestedStateHeader + NestedStateCursorLines + [""]

  /** The cursors of `stateWithNestedState.ts`, grouped by state. */
  const NestedStateCursorLines :=
    (StringValueBlock + (NestedBlock + SecondNestedBlock)) + (NestedNumberValueBlock + SecondNestedStringValueBlock)

  /** The lines the tests expect for `stateWithBaseTypes.ts`
      (spec/cursorsGenerator.spec.ts:173-185). */
  const BaseTypesLines := BaseTypesHeader + (StringValueBlock + NumberValueBlock) + [""]

  /** The lines of a cursor, given the text of its declaration line and of
      its key line. */
  lemma CursorLinesOf(i: nat, s: StateData, f: Field, declLine: string, keyLine: string)
    requires i != MainStateIndex ==> StatePrefixDefined(s.name)
    requires "export let " + CursorName(i, s, f) + "Cursor: bf.ICursor<" + CursorType(f) + "> = {" == declLine
    requires "    key: '" + f.name + "'" == keyLine
    ensures CursorLines(i, s, f) == ["", declLine, keyLine, "}"]
  { }

  /** The header of both files, given the text of the import line. */
  lemma GoldenHeader(fileName: string, importLine: string)
    requires "import * as s from './" + fileName + "';" == importLine
    ensures HeaderLines(fileName, "IApplicationState")
         == [ "import * as bf from 'bobflux';", importLine, "",
              "export let appCursor: bf.ICursor<s.IApplicationState> = bf.rootCursor" ]
  {
    assert "export let appCursor: bf.ICursor<s." + "IApplicationState" == "export let appCursor: bf.ICursor<s.IApplicationState";
    assert "export let appCursor: bf.ICursor<s.IApplicationState" + "> = bf.rootCursor" == "export let appCursor: bf.ICursor<s.IApplicationState> = bf.rootCursor";
  }

  lemma NestedStateImport()
    ensures "import * as s from './" + "stateWithNestedState" + "';" == "import * as s from './stateWithNestedState';"
  {
    assert "import * as s from './" + "stateWithNestedState" == "import * as s from './stateWithNestedState";
  }

  lemma BaseTypesImport()
    ensures "import * as s from './" + "stateWithBaseTypes" + "';" == "import * as s from './stateWithBaseTypes';"
  {
    assert "import * as s from './" + "stateWithBaseTypes" == "import * as s from './stateWithBaseTypes";
  }

  lemma StringValueDecl()
    ensures "export let " + "stringValue" + "Cursor: bf.ICursor<" + "string" + "> = {" == "export let stringValueCursor: bf.ICursor<string> = {"
  {
    assert "export let " + "stringValue" == "export let stringValue";
    assert "export let stringValue" + "Cursor: bf.ICursor<" == "export let stringValueCursor: bf.ICursor<";
    assert "export let stringValueCursor: bf.ICursor<" + "string" == "export let stringValueCursor: bf.ICursor<string";
    assert "export let stringValueCursor: bf.ICursor<string" + "> = {" == "export let stringValueCursor: bf.ICursor<string> = {";
  }

  lemma NumberValueDecl()
    ensures "export let " + "numberValue" + "Cursor: bf.ICursor<" + "number" + "> = {" == "export let numberValueCursor: bf.ICursor<number> = {"
  {
    assert "export let " + "numberValue" == "export let numberValue";
    assert "export let numberValue" + "Cursor: bf.ICursor<" == "export let numberValueCursor: bf.ICursor<";
    assert "export let numberValueCursor: bf.ICursor<" + "number" == "export let numberValueCursor: bf.ICursor<number";
    assert "export let numberValueCursor: bf.ICursor<number" + "> = {" == "export let numberValueCursor: bf.ICursor<number> = {";
  }

  lemma NestedDecl()
    ensures "export let " + "nested" + "Cursor: bf.ICursor<" + "s.INestedState" + "> = {" == "export let nestedCursor: bf.ICursor<s.INestedState> = {"
  {
    assert "export let " + "nested" == "export let nested";
    assert "export let nested" + "Cursor: bf.ICursor<" == "export let nestedCursor: bf.ICursor<";
    assert "export let nestedCursor: bf.ICursor<" + "s.INestedState" == "export let nestedCursor: bf.ICursor<s.INestedState";
    assert "export let nestedCursor: bf.ICursor<s.INestedState" + "> = {" == "export let nestedCursor: bf.ICursor<s.INestedState> = {";
  }

  lemma SecondNestedDecl()
    ensures "export let " + "secondNested" + "Cursor: bf.ICursor<" + "s.ISecondNestedState" + "> = {" == "export let secondNestedCursor: bf.ICursor<s.ISecondNestedState> = {"
  {
    assert "export let " + "secondNested" == "export let secondNested";
    assert "export let secondNested" + "Cursor: bf.ICursor<" == "export let secondNestedCursor: bf.ICursor<";
    assert "export let secondNestedCursor: bf.ICursor<" + "s.ISecondNestedState" == "export let secondNestedCursor: bf.ICursor<s.ISecondNestedState";
    assert "export let secondNestedCursor: bf.ICursor<s.ISecondNestedState" + "> = {" == "export let secondNestedCursor: bf.ICursor<s.ISecondNestedState> = {";
  }

  lemma NestedNumberValueDecl()
    ensures "export let " + "nestedNumberValue" + "Cursor: bf.ICursor<" + "number" + "> = {" == "export let nestedNumberValueCursor: bf.ICursor<number> = {"
  {
    assert "export let " + "nestedNumberValue" == "export let nestedNumberValue";
    assert "export let nestedNumberValue" + "Cursor: bf.ICursor<" == "export let nestedNumberValueCursor: bf.ICursor<";
    assert "export let nestedNumberValueCursor: bf.ICursor<" + "number" == "export let nestedNumberValueCursor: bf.ICursor<number";
    assert "export let nestedNumberValueCursor: bf.ICursor<number" + "> = {" == "export let nestedNumberValueCursor: bf.ICursor<number> = {";
  }

  lemma SecondNestedStringValueDecl()
    ensures "export let " + "secondNestedStringValue" + "Cursor: bf.ICursor<" + "string" + "> = {" == "export let secondNestedStringValueCursor: bf.ICursor<string> = {"
  {
    assert "export let " + "secondNestedStringValue" == "export let secondNestedStringValue";
    assert "export let secondNestedStringValue" + "Cursor: bf.ICursor<" == "export let secondNestedStringValueCursor: bf.ICursor<";
    assert "export let secondNestedStringValueCursor: bf.ICursor<" + "string" == "export let secondNestedStringValueCursor: bf.ICursor<string";
    assert "export let secondNestedStringValueCursor: bf.ICursor<string" + "> = {" == "export let secondNestedStringValueCursor: bf.ICursor<string> = {";
  }

  lemma StringValueKey()
    ensures "    key: '" + "stringValue" + "'" == "    key: 'stringValue'"
  {
    assert "    key: '" + "stringValue" == "    key: 'stringValue";
    assert "    key: 'stringValue" + "'" == "    key: 'stringValue'";
  }

  lemma NumberValueKey()
    ensures "    key: '" + "numberValue" + "'" == "    key: 'numberValue'"
  {
    assert "    key: '" + "numberValue" == "    key: 'numberValue";
    assert "    key: 'numberValue" + "'" == "    key: 'numberValue'";
  }

  lemma NestedKey()
    ensures "    key: '" + "nested" + "'" == "    key: 'nested'"
  {
    assert "    key: '" + "nested" == "    key: 'nested";
    assert "    key: 'nested" + "'" == "    key: 'nested'";
  }

  lemma SecondNestedKey()
    ensures "    key: '" + "secondNested" + "'" == "    key: 'secondNested'"
  {
    assert "    key: '" + "secondNested" == "    key: 'secondNested";
    assert "    key: 'secondNested" + "'" == "    key: 'secondNested'";
  }

  /** The cursors of the application states' fields. */
  lemma StringValueCursorLines(s: StateData)
    ensures CursorLines(MainStateIndex, s, StringValueField) == StringValueBlock
  {
    StringValueDecl();
    StringValueKey();
    CursorLinesOf(MainStateIndex, s, StringValueField, StringValueBlock[1], StringValueBlock[2]);
  }

  lemma NumberValueCursorLines(s: StateData)
    ensures CursorLines(MainStateIndex, s, NumberValueField) == NumberValueBlock
  {
    NumberValueDecl();
    NumberValueKey();
    CursorLinesOf(MainStateIndex, s, NumberValueField, NumberValueBlock[1], NumberValueBlock[2]);
  }

  lemma NestedCursorLines(s: StateData)
    ensures CursorLines(MainStateIndex, s, NestedField) == NestedBlock
  {
    assert "s." + "INestedState" == "s.INestedState";
    NestedDecl();
    NestedKey();
    CursorLinesOf(MainStateIndex, s, NestedField, NestedBlock[1], NestedBlock[2]);
  }

  lemma SecondNestedCursorLines(s: StateData)
    ensures CursorLines(MainStateIndex, s, SecondNestedField) == SecondNestedBlock
  {
    assert "s." + "ISecondNestedState" == "s.ISecondNestedState";
    SecondNestedDecl();
    SecondNestedKey();
    CursorLinesOf(MainStateIndex, s, SecondNestedField, SecondNestedBlock[1], SecondNestedBlock[2]);
  }

  lemma NestedHasOneState()
    ensures forall j :: 0 <= j <= 6 ==> !OccursAt("INestedState", "State", j)
  {
    var name := "INestedState";
    forall j | 0 <= j <= 6 ensures !OccursAt(name, "State", j) {
      assert name[j] != 'S';
      MismatchNoOccurrence(name, "State", j, 0);
    }
  }

  /** The prefix of every nested cursor of `INestedState`. */
  lemma NestedPrefix(propName: string)
    ensures StatePrefixDefined("INestedState")
    ensures GetStatePrefix("INestedState", propName) == "nested" + UpperFirst(propName)
  {
    NestedHasOneState();
    assert "INestedState" == "I" + "Nested" + "State";
    GetStatePrefixOfStateName("INestedState", "Nested", propName);
    NestedLower();
  }

  lemma NestedLower()
    ensures LowerFirst("Nested") == "nested"
  { }

  lemma NumberValueUpper()
    ensures UpperFirst("numberValue") == "NumberValue"
  { }

  lemma StringValueUpper()
    ensures UpperFirst("stringValue") == "StringValue"
  { }

  /** The name of the cursor of `INestedState`'s field `numberValue`. */
  lemma NestedNumberValueName(name: string, propName: string)
    requires name == "INestedState" && propName == "numberValue"
    ensures StatePrefixDefined(name)
    ensures GetStatePrefix(name, propName) == "nestedNumberValue"
  {
    NestedPrefix(propName);
    NumberValueUpper();
    NestedNumberValueText();
  }

  lemma NestedNumberValueText()
    ensures "nested" + "NumberValue" == "nestedNumberValue"
  {
    assert "nested" + "Number" == "nestedNumber";
    assert "nestedNumber" + "Value" == "nestedNumberValue";
    assert "nested" + "NumberValue" == "nested" + "Number" + "Value";
  }

  /** The name of the cursor of `ISecondNestedState`'s field `stringValue`. */
  lemma SecondNestedStringValueName(name: string, propName: string)
    requires name == "ISecondNestedState" && propName == "stringValue"
    ensures StatePrefixDefined(name)
    ensures GetStatePrefix(name, propName) == "secondNestedStringValue"
  {
    GetStatePrefixExample(propName);
    StringValueUpper();
    SecondNestedStringValueText();
  }

  lemma SecondNestedStringValueText()
    ensures "secondNested" + "StringValue" == "secondNestedStringValue"
  {
    assert "secondNested" + "String" == "secondNestedString";
    assert "secondNestedString" + "Value" == "secondNestedStringValue";
    assert "secondNested" + "StringValue" == "secondNested" + "String" + "Value";
  }

  /** The cursor of `INestedState`'s field `numberValue`. */
  lemma NestedNumberValueCursorLines(s: StateData)
    requires s.name == "INestedState"
    ensures StatePrefixDefined(s.name)
    ensures CursorLines(1, s, NumberValueField) == NestedNumberValueBlock
  {
    NestedNumberValueName(s.name, NumberValueField.name);
    NestedNumberValueDecl();
    NumberValueKey();
    CursorLinesOf(1, s, NumberValueField, NestedNumberValueBlock[1], NestedNumberValueBlock[2]);
  }

  /** The cursor of `ISecondNestedState`'s field `stringValue`. */
  lemma SecondNestedStringValueCursorLines(s: StateData)
    requires s.name == "ISecondNestedState"
    ensures StatePrefixDefined(s.name)
    ensures CursorLines(2, s, StringValueField) == SecondNestedStringValueBlock
  {
    SecondNestedStringValueName(s.name, StringValueField.name);
    SecondNestedStringValueDecl();
    StringValueKey();
    CursorLinesOf(2, s, StringValueField, SecondNestedStringValueBlock[1], SecondNestedStringValueBlock[2]);
  }

  lemma GoldenFieldsSingleLine()
    ensures FieldSingleLine(StringValueField) && FieldSingleLine(NumberValueField)
    ensures FieldSingleLine(NestedField) && FieldSingleLine(SecondNestedField)
  {
    assert FieldSingleLine(StringValueField);
    assert FieldSingleLine(NumberValueField);
    assert FieldSingleLine(NestedField);
  }

  lemma NestedStateSingleLine()
    ensures SingleLine(NestedStateData)
  {
    GoldenFieldsSingleLine();
    assert StateSingleLine(NestedStateData.states[0]);
    assert StateSingleLine(NestedStateData.states[1]);
    assert StateSingleLine(NestedStateData.states[2]);
    assert '\n' !in "stateWithNestedState";
  }

  lemma BaseTypesSingleLine()
    ensures SingleLine(BaseTypesData)
  {
    GoldenFieldsSingleLine();
    assert StateSingleLine(BaseTypesData.states[0]);
    assert '\n' !in "stateWithBaseTypes";
  }

  /** A text whose lines are `lines` is those lines joined by line
      breaks. */
  lemma TextOfLines(data: SourceData, lines: seq<string>)
    requires CursorsText(data).Ok? && Lines(CursorsText(data).value) == lines
    ensures CursorsText(data).value == Join(lines, "\n")
  {
    JoinSplitRoundTrip(CursorsText(data).value, '\n');
  }

  /** The cursors of the application state of `stateWithNestedState.ts`. */
  lemma NestedMainStateLines()
    ensures StateLines(MainStateIndex, NestedStateData.states[0]) == StringValueBlock + (NestedBlock + SecondNestedBlock)
  {
    var s0 := NestedStateData.states[0];
    StringValueCursorLines(s0);
    NestedCursorLines(s0);
    SecondNestedCursorLines(s0);
    assert FieldsLines(0, s0, s0.fields[2..]) == SecondNestedBlock;
    assert FieldsLines(0, s0, s0.fields[1..]) == NestedBlock + SecondNestedBlock;
    assert StateLines(0, s0) == StringValueBlock + FieldsLines(0, s0, s0.fields[1..]);
  }

  /** The cursor of `INestedState` in `stateWithNestedState.ts`. */
  lemma NestedInnerStateLines()
    ensures StatePrefixDefined(NestedStateData.states[1].name)
    ensures StateLines(1, NestedStateData.states[1]) == NestedNumberValueBlock
  {
    var s1 := NestedStateData.states[1];
    NestedNumberValueCursorLines(s1);
    assert FieldsLines(1, s1, s1.fields[1..]) == [];
  }

  /** The cursor of `ISecondNestedState` in `stateWithNestedState.ts`. */
  lemma SecondNestedInnerStateLines()
    ensures StatePrefixDefined(NestedStateData.states[2].name)
    ensures StateLines(2, NestedStateData.states[2]) == SecondNestedStringValueBlock
  {
    var s2 := NestedStateData.states[2];
    SecondNestedStringValueCursorLines(s2);
    assert FieldsLines(2, s2, s2.fields[1..]) == [];
  }

  /** The cursors of the states of `stateWithNestedState.ts`. */
  lemma NestedStateStatesLines()
    ensures PrefixesDefined(NestedStateData.states)
    ensures StatesLines(NestedStateData.states, 0) == NestedStateCursorLines
  {
    NestedPrefixesDefined();
    NestedMainStateLines();
    NestedStatesInnerLines();
  }

  lemma NestedPrefixesDefined()
    ensures PrefixesDefined(NestedStateData.states)
  {
    NestedInnerStateLines();
    SecondNestedInnerStateLines();
  }

  lemma NestedStatesInnerLines()
    requires PrefixesDefined(NestedStateData.states)
    ensures StatesLines(NestedStateData.states, 1) == NestedNumberValueBlock + SecondNestedStringValueBlock
  {
    var d := NestedStateData;
    NestedInnerStateLines();
    SecondNestedInnerStateLines();
    assert StatesLines(d.states, 2) == SecondNestedStringValueBlock;
  }

  /** `cursors.ts` for `stateWithNestedState.ts` is, line by line, the text
      the generator's tests expect. */
  lemma NestedStateCursors()
    ensures CursorsText(NestedStateData).Ok?
    ensures CursorsText(NestedStateData).value == Join(NestedStateLines, "\n")
  {
    var d := NestedStateData;
    NestedStateStatesLines();
    NestedStateSingleLine();
    CursorsTextLines(d);
    NestedStateImport();
    GoldenHeader(d.fileName, NestedStateHeader[1]);
    TextOfLines(d, NestedStateLines);
  }

  /** The cursors of the state of `stateWithBaseTypes.ts`. */
  lemma BaseTypesStatesLines()
    ensures PrefixesDefined(BaseTypesData.states)
    ensures StatesLines(BaseTypesData.states, 0) == StringValueBlock + NumberValueBlock
  {
    var d := BaseTypesData;
    var s0 := d.states[0];
    assert PrefixesDefined(d.states);
    StringValueCursorLines(s0);
    NumberValueCursorLines(s0);
    assert FieldsLines(0, s0, s0.fields[1..]) == NumberValueBlock;
    assert StateLines(0, s0) == StringValueBlock + NumberValueBlock;
  }

  /** `cursors.ts` for `stateWithBaseTypes.ts` is, line by line, the text
      the generator's tests expect. */
  lemma BaseTypesCursors()
    ensures CursorsText(BaseTypesData).Ok?
    ensures CursorsText(BaseTypesData).value == Join(BaseTypesLines, "\n")
  {
    var d := BaseTypesData;
    BaseTypesStatesLines();
    BaseTypesSingleLine();
    CursorsTextLines(d);
    BaseTypesImport();
    GoldenHeader(d.fileName, BaseTypesHeader[1]);
    TextOfLines(d, BaseTypesLines);
  }
}
