/**
 * The part of Python's `ast` tree the scope model looks at. Parsing and
 * `ast.unparse` are outside the model: a call node carries the text its callee
 * renders to, as the tracer would obtain from `ast.unparse(node.func)`.
 */
module Ast {
  import opened Wrappers

  /** `ast.alias`: `name [as asname]` inside an import statement. */
  datatype Alias = Alias(name: string, asname: Option<string>)

  /**
   * The node kinds the block visitor distinguishes. `AsyncFunctionDef` has no
   * visitor method of its own, so it is visited through its children, but it
   * carries a name and a position like `FunctionDef`. `Other` stands for every
   * other node kind (the module root, `if`, `with`, expressions, ...), with its
   * child nodes in `ast.iter_child_nodes` order. The `body` of a definition
   * likewise lists every child node of it in that order (arguments and
   * decorators included).
   */
  datatype Node =
    | Import(names: seq<Alias>)
    | ImportFrom(moduleName: Option<string>, names: seq<Alias>, level: nat)
    | FunctionDef(name: string, body: seq<Node>, lineno: int, colOffset: int)
    | AsyncFunctionDef(name: string, body: seq<Node>, lineno: int, colOffset: int)
    | ClassDef(name: string, body: seq<Node>, lineno: int, colOffset: int)
    | Call(callee: string, args: seq<Node>, lineno: int, colOffset: int)
    | Other(children: seq<Node>)

  /** `ast.iter_child_nodes(n)`, restricted to the node kinds above. */
  function ChildNodes(n: Node): seq<Node>
  {
    match n
    case Import(_) => []
    case ImportFrom(_, _, _) => []
    case FunctionDef(_, body, _, _) => body
    case AsyncFunctionDef(_, body, _, _) => body
    case ClassDef(_, body, _, _) => body
    case Call(_, args, _, _) => args
    case Other(children) => children
  }

  /** `getattr(n, "name", None)`: only definitions carry a name. */
  function DeclaredName(n: Node): Option<string>
  {
    match n
    case FunctionDef(name, _, _, _) => Some(name)
    case AsyncFunctionDef(name, _, _, _) => Some(name)
    case ClassDef(name, _, _, _) => Some(name)
    case _ => None
  }

  /**
   * `getattr(n, "lineno", 1)` for the nodes a block can wrap: the module root
   * (an `Other` without a position, so line 1) and the definitions. Python's
   * statement nodes do carry a position, but `Import`, `ImportFrom` and
   * `Other` keep none here because no block ever wraps one of them.
   */
  function Lineno(n: Node): int
  {
    match n
    case FunctionDef(_, _, lineno, _) => lineno
    case AsyncFunctionDef(_, _, lineno, _) => lineno
    case ClassDef(_, _, lineno, _) => lineno
    case Call(_, _, lineno, _) => lineno
    case _ => 1
  }

  /** `getattr(n, "col_offset", 0)`, for the same nodes as `Lineno`. */
  function ColOffset(n: Node): int
  {
    match n
    case FunctionDef(_, _, _, col) => col
    case AsyncFunctionDef(_, _, _, col) => col
    case ClassDef(_, _, _, col) => col
    case Call(_, _, _, col) => col
    case _ => 0
  }
}
