/** The interface-declaration visitor (src/visitors/interfaceDeclarationVisitor.ts):
    it accepts interface declarations and saves one state record per
    interface, with no fields yet. */
module InterfaceVisitor {
  import opened Wrappers
  import opened Strings
  import opened Syntax
  import opened Schema

  /** `accept`: exactly the interface declarations. */
  predicate Accept(n: Node)
  {
    n.InterfaceNode?
  }

  /** The heritage text of one clause: its types' texts joined by `;`. */
  function HeritageText(types: seq<string>): string
  {
    Strings.Join(types, ";")
  }

  function MapHeritages(clauses: seq<seq<string>>): (r: seq<string>)
    ensures |r| == |clauses|
    ensures forall k :: 0 <= k < |r| ==> r[k] == HeritageText(clauses[k])
  {
    if |clauses| == 0 then [] else [HeritageText(clauses[0])] + MapHeritages(clauses[1..])
  }

  /** `visit`: the state record saved for an interface declaration. */
  function Visit(d: InterfaceDecl): (s: StateData)
    ensures s.name == d.name && s.fileName == d.parentFileName
    ensures s.fields == [] && s.source == Cls
    ensures s.generics == d.typeParameters
    ensures d.heritageClauses.None? ==> s.heritages == []
    ensures d.heritageClauses.Some? ==> |s.heritages| == |d.heritageClauses.value|
  {
    StateData(
      d.name,
      d.parentFileName,
      [],
      match d.heritageClauses { case None => [] case Some(cs) => MapHeritages(cs) },
      Cls,
      d.typeParameters)
  }

  /** The heritage texts keep each clause's types: when no type text holds
      a `;` and no clause is empty, splitting the saved text at `;` gives
      back the clause's types. */
  lemma VisitHeritagesRoundTrip(d: InterfaceDecl, k: nat)
    requires d.heritageClauses.Some? && k < |d.heritageClauses.value|
    requires |d.heritageClauses.value[k]| > 0
    requires forall i :: 0 <= i < |d.heritageClauses.value[k]| ==> ';' !in d.heritageClauses.value[k][i]
    ensures Split(Visit(d).heritages[k], ';') == d.heritageClauses.value[k]
  {
    SplitJoinRoundTrip(d.heritageClauses.value[k], ';');
  }
}
