/** The part of a parsed Python syntax tree that the single-assignment checker looks at,
    and the records it reports. */
module Syntax {

  datatype Option<T> = None | Some(value: T)

  /** Where a statement begins: `(lineno, col_offset)` of the syntax node. */
  datatype Position = Position(lineno: nat, colOffset: nat)

  /** One illegal re-binding of `variableName`: bound again at `curPosition`, first bound
      at `prevPosition` (equal to `curPosition` for a binding inside a loop body). */
  datatype Violation = Violation(variableName: string, curPosition: Position, prevPosition: Position)

  /** Expression nodes, as far as they occur as assignment targets. `OtherExpr` stands for
      every other expression kind (List, Starred, Call, ...). */
  datatype Expr =
    | Name(id: string)
    | Attribute(value: Expr, attr: string)
    | Subscript(value: Expr)
    | Tuple(elts: seq<Expr>)
    | OtherExpr

  datatype DefKind = FunctionDef | AsyncFunctionDef | ClassDef

  /** Statement nodes. Every statement has the position of its first token; compound
      statements have their `body` and, where Python has one, their `orelse` block.
      `OtherStmt` stands for every other statement kind (Try, Expr, Return, Pass, ...),
      with the body it may have. A `With` item's `optional_vars` is `None` when there is
      no `as` clause. */
  datatype Stmt =
    | Assign(pos: Position, targets: seq<Expr>)
    | AugAssign(pos: Position, target: Expr)
    | AnnAssign(pos: Position, target: Expr)
    | For(pos: Position, target: Expr, body: seq<Stmt>, orelse: seq<Stmt>, isAsync: bool)
    | While(pos: Position, body: seq<Stmt>, orelse: seq<Stmt>)
    | If(pos: Position, body: seq<Stmt>, orelse: seq<Stmt>)
    | With(pos: Position, items: seq<Option<Expr>>, body: seq<Stmt>, isAsync: bool)
    | Def(pos: Position, kind: DefKind, body: seq<Stmt>)
    | OtherStmt(pos: Position, body: seq<Stmt>)

  /** AST_DEF_STMT: FunctionDef, AsyncFunctionDef and ClassDef open a fresh scope. */
  predicate IsDefStmt(s: Stmt) { s.Def? }

  /** AST_LOOP_STMT: For, AsyncFor and While. */
  predicate IsLoopStmt(s: Stmt) { s.For? || s.While? }

  /** AST_STMTS: If, With and AsyncWith share the enclosing scope. */
  predicate IsBlockStmt(s: Stmt) { s.If? || s.With? }

  /** The three groups are pairwise disjoint, so a statement is handled by at most one of the
      branches that test them. */
  lemma NodeKindGroupsDisjoint(s: Stmt)
    ensures !(IsDefStmt(s) && IsLoopStmt(s))
    ensures !(IsDefStmt(s) && IsBlockStmt(s))
    ensures !(IsLoopStmt(s) && IsBlockStmt(s))
  {
  }
}
