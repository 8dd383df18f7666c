/** The TensorC syntax tree (src/maps-compiler/tensorc/ast.py). */
module TensorAst {
  import opened Options

  datatype UnaryOp = NEG | NOT
  datatype BinaryOp = ADD | SUB | MUL | DIV | MOD | EQ | NE | LT | GT | LE | GE

  /** `cols` of an index is filled in by the semantic analysis. */
  datatype Expr =
    | IntLiteral(value: int)
    | VarRef(name: string)
    | TensorIndex(name: string, row: Expr, col: Expr, cols: int)
    | Unary(uop: UnaryOp, operand: Expr)
    | Binary(bop: BinaryOp, left: Expr, right: Expr)
    | Call(name: string, args: seq<Expr>)

  /** `rows`, `cols` and `inner` of a gemm, and the shape of a tensor, are filled in by the semantic analysis. */
  datatype Stmt =
    | TensorDecl(name: string, rows: Option<int>, cols: Option<int>, init: Option<seq<seq<int>>>)
    | VarDecl(name: string, value: Expr)
    | Assign(target: Expr, value: Expr)
    | Gemm(a: string, b: string, c: string, m: int, n: int, k: int)
    | Print(text: string)
    | If(cond: Expr, thn: seq<Stmt>, els: Else)
    | While(cond: Expr, body: seq<Stmt>)
    | For(start: Option<Stmt>, test: Option<Expr>, step: Option<Stmt>, body: seq<Stmt>)
    | Return(value: Expr)
    | ExprStmt(expr: Expr)

  datatype Else = NoElse | ElseBlock(items: seq<Stmt>)

  datatype Function = Function(name: string, params: seq<string>, body: seq<Stmt>)

  datatype Decl = FunctionDecl(fn: Function) | Statement(stmt: Stmt)

  /** What the head of a `for` holds beside a declaration and a test. */
  predicate SimplePart(s: Stmt)
  {
    s.Assign? || s.ExprStmt?
  }
}
