/** The part of a TypeScript syntax tree the analyzer looks at. The tree
    appears as the sequence of its nodes below the source file in the order
    `ts.forEachChild` reaches them (pre-order: a node before its children,
    children left to right); every node carries what the analyzer reads
    from it. */
module Syntax {
  import opened Wrappers

  /** The type annotation of a property signature. `KeywordType` stands for
      every other kind of type node, by its syntax kind number. */
  datatype TypeNode =
    | TypeReference(typeName: string)
    | ArrayType(elementType: string)
    | TypeLiteral(text: string)
    | KeywordType(kind: nat)

  /** An interface declaration: its name, the file name of its parent when
      the parent is the source file, the text of the types of each heritage
      clause, and the text of its type parameters, each list when present. */
  datatype InterfaceDecl = InterfaceDecl(
    name: string,
    parentFileName: Option<string>,
    heritageClauses: Option<seq<seq<string>>>,
    typeParameters: Option<seq<string>>)

  datatype Node =
    | ImportDeclarationNode
    | NamespaceImportNode(name: string)
    | StringLiteralNode(text: string)
    | InterfaceNode(decl: InterfaceDecl)
    | ClassDeclarationNode
    | EnumDeclarationNode(name: string)
    | TypeAliasDeclarationNode(name: string)
      /** `parentInterface` is the name of the parent when the parent is an
          interface declaration; `typeNode` is absent for a property
          written without a type. */
    | PropertySignatureNode(name: string, parentInterface: Option<string>, typeNode: Option<TypeNode>)
      /** Any other node (identifiers, import clauses, type references, …),
          by its syntax kind number. */
    | OtherNode(kind: nat)
}
