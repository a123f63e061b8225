/**
 * The part of Go's syntax tree (package go/ast) that the generator walks.
 * Only the node kinds the generator distinguishes get their own
 * constructor; every other kind is folded into a catch-all.
 */
module GoAst {
  import opened Wrappers

  /** A type expression (ast.Expr in type position). */
  datatype Expr =
    | Ident(name: string)                          // ast.Ident: int, string, Post
    | Selector(x: Expr, sel: string)               // ast.SelectorExpr: time.Time
    | ArrayType(len: Option<string>, elt: Expr)    // ast.ArrayType: []T, or [len]T when len is present
    | StarExpr(x: Expr)                            // ast.StarExpr: *T
    | StructType(fields: seq<Field>)               // ast.StructType: struct{ ... }
    | Other(text: string)                          // map, func, chan, interface, generic instantiation, ...

  /** One field line of a struct (ast.Field): `A, B int` has names ["A", "B"]; an embedded field has none. */
  datatype Field = Field(names: seq<string>, typ: Expr)

  /** A specification inside a general declaration (ast.Spec). */
  datatype Spec =
    | TypeSpec(name: string, typ: Expr)            // type Name <typ>
    | ValueSpec(names: seq<string>)                // var or const
    | ImportSpec(path: string)

  /** A top-level declaration (ast.Decl). */
  datatype Decl =
    | GenDecl(specs: seq<Spec>)                    // import, const, type or var block
    | FuncDecl(name: string)
    | BadDecl

  /** A parsed source file (ast.File). */
  datatype File = File(pkg: string, decls: seq<Decl>)

  /**
   * The source text of a type expression. For identifiers, selectors,
   * arrays and pointers it is the Go text as gofmt prints it; struct types
   * are shown in a compact form without tags, and other kinds by their text.
   */
  function GoText(e: Expr): string
    decreases e, 1
  {
    match e
    case Ident(name) => name
    case Selector(x, sel) => GoText(x) + "." + sel
    case ArrayType(len, elt) => "[" + (if len.Some? then len.value else "") + "]" + GoText(elt)
    case StarExpr(x) => "*" + GoText(x)
    case StructType(fields) => "struct{" + FieldsText(fields) + "}"
    case Other(text) => text
  }

  /** Field lines of a struct body, separated by "; ". */
  function FieldsText(fields: seq<Field>): string
    decreases fields, 0
  {
    if fields == [] then ""
    else
      var line := fields[0];
      var names := NamesText(line.names);
      (if names == "" then "" else names + " ") + GoText(line.typ)
      + (if |fields| == 1 then "" else "; " + FieldsText(fields[1..]))
  }

  function NamesText(names: seq<string>): string
  {
    if names == [] then ""
    else if |names| == 1 then names[0]
    else names[0] + ", " + NamesText(names[1..])
  }
}
