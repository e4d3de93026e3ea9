/** The schema the analyzer produces and the two generators consume: one
    record per source file, holding its state interfaces with their fields,
    its namespace imports, and the names of its enums and type aliases. */
module Schema {
  import opened Wrappers
  import opened Paths

  /** A property of a state interface. `fieldType` (the record's `type`)
      is the referenced type's name, the element type for an array, or the
      type's text otherwise; `isState` marks a type reference and `isArray`
      an array type (both absent, so false, otherwise). */
  datatype Field = Field(name: string, fieldType: string, isState: bool, isArray: bool)

  /** Where a state record came from; interfaces are recorded as `cls`. */
  datatype StateSource = Cls

  /** A declared state interface (`typeName` is `name` here). `fileName`
      is that of the node's parent, absent when the parent is not the source
      file itself. */
  datatype StateData = StateData(
    name: string,
    fileName: Option<string>,
    fields: seq<Field>,
    heritages: seq<string>,
    source: StateSource,
    generics: Option<seq<string>>)

  /** A namespace import `import * as prefix from 'relativePath'`;
      `fullPath` is the literal read from the importing file's directory.
      Each part stays absent until the analyzer has seen it. */
  datatype ImportData = ImportData(prefix: Option<string>, relativePath: Option<string>, fullPath: Option<Path>)

  datatype NamedType = NamedType(name: string)

  /** What the analyzer records about one source file: its path, its file
      name without the `.ts` extension, and what it declares. */
  datatype SourceData = SourceData(
    filePath: string,
    fileName: string,
    states: seq<StateData>,
    imports: seq<ImportData>,
    enums: seq<NamedType>,
    customTypes: seq<NamedType>)

  /** The states of `states` whose name is `name`, in order
      (`states.filter(s => s.typeName === name)`). */
  function StatesNamed(states: seq<StateData>, name: string): (r: seq<StateData>)
    ensures |r| <= |states|
  {
    if |states| == 0 then []
    else (if states[0].name == name then [states[0]] else []) + StatesNamed(states[1..], name)
  }

  /** The filter keeps exactly the states named `name`. */
  lemma {:induction false} StatesNamedMembers(states: seq<StateData>, name: string)
    ensures forall k :: 0 <= k < |StatesNamed(states, name)| ==>
      StatesNamed(states, name)[k].name == name && StatesNamed(states, name)[k] in states
    ensures forall s :: s in states && s.name == name ==> s in StatesNamed(states, name)
  {
    if |states| > 0 {
      StatesNamedMembers(states[1..], name);
      assert states == [states[0]] + states[1..];
    }
  }

  /** The filter is empty exactly when no state is named `name`. */
  lemma StatesNamedEmpty(states: seq<StateData>, name: string)
    ensures |StatesNamed(states, name)| > 0 <==> exists i :: 0 <= i < |states| && states[i].name == name
  {
    StatesNamedMembers(states, name);
    if |StatesNamed(states, name)| > 0 {
      var s := StatesNamed(states, name)[0];
      assert s in states;
    }
    assert forall i :: 0 <= i < |states| ==> states[i] in states;
  }

  /** The position of the first state named `name`. */
  function FirstNamed(states: seq<StateData>, name: string): (r: Option<nat>)
    ensures r.Some? ==> r.value < |states| && states[r.value].name == name
    ensures r.Some? ==> forall j :: 0 <= j < r.value ==> states[j].name != name
    ensures r.None? ==> forall j :: 0 <= j < |states| ==> states[j].name != name
  {
    if |states| == 0 then None
    else if states[0].name == name then Some(0)
    else match FirstNamed(states[1..], name)
      case None => None
      case Some(i) => Some(i + 1)
  }

  /** `states.filter(s => s.typeName === name)[0]` is the state at
      `FirstNamed`. */
  lemma {:induction false} StatesNamedFirst(states: seq<StateData>, name: string, i: nat)
    requires i < |states| && states[i].name == name
    requires forall j :: 0 <= j < i ==> states[j].name != name
    ensures |StatesNamed(states, name)| > 0 && StatesNamed(states, name)[0] == states[i]
  {
    if i > 0 {
      StatesNamedFirst(states[1..], name, i - 1);
    }
  }

  /** No two states share a name. */
  predicate UniqueNames(states: seq<StateData>)
  {
    forall i, j :: 0 <= i < j < |states| ==> states[i].name != states[j].name
  }

  /** With unique names the filter finds at most one state, and a state of
      the list is found by its own name. */
  lemma {:induction false} StatesNamedUnique(states: seq<StateData>, name: string)
    requires UniqueNames(states)
    ensures |StatesNamed(states, name)| <= 1
    ensures forall i :: 0 <= i < |states| && states[i].name == name ==> StatesNamed(states, name) == [states[i]]
  {
    if |states| > 0 {
      var rest := states[1..];
      assert UniqueNames(rest) by {
        forall i, j | 0 <= i < j < |rest| ensures rest[i].name != rest[j].name {
          assert rest[i] == states[i + 1] && rest[j] == states[j + 1];
        }
      }
      StatesNamedUnique(rest, name);
      if states[0].name == name {
        StatesNamedEmpty(rest, name);
        assert forall i :: 0 <= i < |rest| ==> rest[i] == states[i + 1];
      } else {
        assert forall i :: 1 <= i < |states| ==> states[i] == rest[i - 1];
      }
    }
  }
}
