/** Scoping, shapes and annotation (src/maps-compiler/tensorc/sema.py). */
module Sema {
  import opened Options
  import opened TensorAst

  datatype Type = Scalar | Tensor(rows: int, cols: int)

  type Table = map<string, Type>
  type Arities = map<string, nat>

  // ----- expressions -----

  /** The annotated expression and its type, `None` for a compile error. */
  function CheckExpr(e: Expr, table: Table, arities: Arities): Option<(Expr, Type)>
    decreases e, 1
  {
    match e
    case IntLiteral(_) => Some((e, Scalar))
    case VarRef(name) => if name in table then Some((e, table[name])) else None
    case TensorIndex(name, row, col, _) =>
      if name !in table || table[name].Scalar? then None else
      (match (RequireInt(row, table, arities), RequireInt(col, table, arities))
       case (Some(row'), Some(col')) => Some((TensorIndex(name, row', col', table[name].cols), Scalar))
       case _ => None)
    case Unary(op, x) =>
      (match RequireInt(x, table, arities)
       case Some(x') => Some((Unary(op, x'), Scalar))
       case None => None)
    case Binary(op, x, y) =>
      (match (RequireInt(x, table, arities), RequireInt(y, table, arities))
       case (Some(x'), Some(y')) => Some((Binary(op, x', y'), Scalar))
       case _ => None)
    case Call(name, args) =>
      if name !in arities || |args| != arities[name] then None else
      (match CheckArgs(args, table, arities)
       case Some(args') => Some((Call(name, args'), Scalar))
       case None => None)
  }

  function RequireInt(e: Expr, table: Table, arities: Arities): Option<Expr>
    decreases e, 2
  {
    match CheckExpr(e, table, arities)
    case Some((e', Scalar)) => Some(e')
    case _ => None
  }

  function CheckArgs(args: seq<Expr>, table: Table, arities: Arities): (r: Option<seq<Expr>>)
    ensures r.Some? ==> |r.value| == |args|
    decreases args, 0
  {
    if args == [] then Some([]) else
    match (RequireInt(args[0], table, arities), CheckArgs(args[1..], table, arities))
    case (Some(x), Some(rest)) => Some([x] + rest)
    case _ => None
  }

  // ----- statements -----

  function Ragged(init: seq<seq<int>>): bool
  {
    exists i :: 0 <= i < |init| && |init[i]| != |init[0]|
  }

  /** The shape of a tensor declaration, `None` for a compile error. */
  function ShapeOf(rows: Option<int>, cols: Option<int>, init: Option<seq<seq<int>>>): Option<(int, int)>
  {
    if init.Some? && Ragged(init.value) then None else
    var shape :=
      if init.None? then (rows, cols) else
      var found := (|init.value|, if init.value == [] then 0 else |init.value[0]|);
      if rows.None? && cols.None? then (Some(found.0), Some(found.1))
      else if rows == Some(found.0) && cols == Some(found.1) then (rows, cols) else (None, None);
    match shape
    case (Some(r), Some(c)) => if r <= 0 || c <= 0 then None else Some((r, c))
    case _ => None
  }

  /** The annotated statement and the symbols visible after it. */
  function CheckStmt(s: Stmt, table: Table, arities: Arities): Option<(Stmt, Table)>
    decreases s, 1
  {
    match s
    case TensorDecl(name, rows, cols, init) =>
      if name in table then None else
      (match ShapeOf(rows, cols, init)
       case Some((r, c)) => Some((TensorDecl(name, Some(r), Some(c), init), table[name := Tensor(r, c)]))
       case None => None)
    case VarDecl(name, value) =>
      if name in table then None else
      (match RequireInt(value, table, arities)
       case Some(value') => Some((VarDecl(name, value'), table[name := Scalar]))
       case None => None)
    case Assign(target, value) =>
      (match (CheckExpr(target, table, arities), CheckExpr(value, table, arities))
       case (Some((target', Scalar)), Some((value', Scalar))) => Some((Assign(target', value'), table))
       case _ => None)
    case Gemm(a, b, c, _, _, _) =>
      if a !in table || b !in table || c !in table then None else
      (match (table[a], table[b], table[c])
       case (Tensor(m, k), Tensor(k', n), Tensor(m', n')) =>
         if k == k' && m == m' && n == n' then Some((Gemm(a, b, c, m, n, k), table)) else None
       case _ => None)
    case Print(_) => Some((s, table))
    case If(cond, thn, els) =>
      (match (RequireInt(cond, table, arities), CheckBlock(thn, table, arities))
       case (Some(cond'), Some((thn', _))) =>
         if els.NoElse? then Some((If(cond', thn', NoElse), table)) else
         (match CheckBlock(els.items, table, arities)
          case Some((items', _)) => Some((If(cond', thn', ElseBlock(items')), table))
          case None => None)
       case _ => None)
    case While(cond, body) =>
      (match (RequireInt(cond, table, arities), CheckBlock(body, table, arities))
       case (Some(cond'), Some((body', _))) => Some((While(cond', body'), table))
       case _ => None)
    case For(start, test, step, body) =>
      (match CheckPart(start, table, arities)
       case Some((start', local)) =>
         (match (CheckTest(test, local, arities), CheckPart(step, local, arities))
          case (Some(test'), Some((step', local'))) =>
            (match CheckBlock(body, local', arities)
             case Some((body', _)) => Some((For(start', test', step', body'), table))
             case None => None)
          case _ => None)
       case None => None)
    case Return(value) =>
      (match RequireInt(value, table, arities)
       case Some(value') => Some((Return(value'), table))
       case None => None)
    case ExprStmt(expr) =>
      (match CheckExpr(expr, table, arities)
       case Some((expr', _)) => Some((ExprStmt(expr'), table))
       case None => None)
  }

  function CheckTest(test: Option<Expr>, table: Table, arities: Arities): Option<Option<Expr>>
  {
    if test.None? then Some(None) else
    match RequireInt(test.value, table, arities)
    case Some(e) => Some(Some(e))
    case None => None
  }

  function CheckPart(part: Option<Stmt>, table: Table, arities: Arities): Option<(Option<Stmt>, Table)>
    decreases part, 0
  {
    if part.None? then Some((None, table)) else
    match CheckStmt(part.value, table, arities)
    case Some((s, table')) => Some((Some(s), table'))
    case None => None
  }

  /** The statements of a block, each seeing what the earlier ones declared. */
  function CheckBlock(items: seq<Stmt>, table: Table, arities: Arities): (r: Option<(seq<Stmt>, Table)>)
    ensures r.Some? ==> |r.value.0| == |items|
    decreases items, 0
  {
    if items == [] then Some(([], table)) else
    match CheckStmt(items[0], table, arities)
    case Some((s, table')) =>
      (match CheckBlock(items[1..], table', arities)
       case Some((rest, table'')) => Some(([s] + rest, table''))
       case None => None)
    case None => None
  }

  // ----- programs -----

  /** The parameters join the symbols visible so far; a name already visible is an error. */
  function BindParams(params: seq<string>, table: Table): Option<Table>
  {
    if params == [] then Some(table)
    else if params[0] in table then None
    else BindParams(params[1..], table[params[0] := Scalar])
  }

  function CheckDecl(decl: Decl, table: Table, arities: Arities): Option<(Decl, Table)>
  {
    match decl
    case FunctionDecl(fn) =>
      (match BindParams(fn.params, table)
       case Some(local) =>
         (match CheckBlock(fn.body, local, arities)
          case Some((body, _)) => Some((FunctionDecl(fn.(body := body)), table))
          case None => None)
       case None => None)
    case Statement(stmt) =>
      (match CheckStmt(stmt, table, arities)
       case Some((stmt', table')) => Some((Statement(stmt'), table'))
       case None => None)
  }

  function CheckDecls(decls: seq<Decl>, table: Table, arities: Arities): (r: Option<(seq<Decl>, Table)>)
    ensures r.Some? ==> |r.value.0| == |decls|
  {
    if decls == [] then Some(([], table)) else
    match CheckDecl(decls[0], table, arities)
    case Some((d, table')) =>
      (match CheckDecls(decls[1..], table', arities)
       case Some((rest, table'')) => Some(([d] + rest, table''))
       case None => None)
    case None => None
  }

  /** The first pass: all functions are known before any body is checked. */
  function CollectArities(decls: seq<Decl>, arities: Arities): Option<Arities>
  {
    if decls == [] then Some(arities)
    else if decls[0].Statement? then CollectArities(decls[1..], arities)
    else if decls[0].fn.name in arities then None
    else CollectArities(decls[1..], arities[decls[0].fn.name := |decls[0].fn.params|])
  }

  function Analyze(decls: seq<Decl>): Option<(seq<Decl>, Table)>
  {
    match CollectArities(decls, map[])
    case Some(arities) => CheckDecls(decls, map[], arities)
    case None => None
  }

  // ----- what the analysis guarantees -----

  ghost predicate Extends(table: Table, table': Table)
  {
    forall name :: name in table ==> name in table' && table'[name] == table[name]
  }

  lemma CheckStmtExtends(s: Stmt, table: Table, arities: Arities)
    ensures var r := CheckStmt(s, table, arities); r.Some? ==> Extends(table, r.value.1)
  {
  }

  lemma {:induction false} CheckBlockExtends(items: seq<Stmt>, table: Table, arities: Arities)
    ensures var r := CheckBlock(items, table, arities); r.Some? ==> Extends(table, r.value.1)
    decreases |items|
  {
    if items != [] {
      var r := CheckStmt(items[0], table, arities);
      if r.Some? {
        CheckStmtExtends(items[0], table, arities);
        CheckBlockExtends(items[1..], r.value.1, arities);
      }
    }
  }
}
