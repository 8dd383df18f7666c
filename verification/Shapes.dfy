/** Shape soundness: what an accepted program's annotations say, read off the annotated tree alone. */
module Shapes {
  import opened Options
  import opened TensorAst
  import opened Sema
  import opened Codegen
  import opened TensorLayout
  import opened TensorCSemantics

  /** Every index carries the width of the tensor its name denotes. */
  predicate IndexesRight(e: Expr, table: Table)
    decreases e, 1
  {
    match e
    case TensorIndex(name, row, col, cols) =>
      && name in table && table[name].Tensor? && cols == table[name].cols
      && IndexesRight(row, table) && IndexesRight(col, table)
    case Unary(_, x) => IndexesRight(x, table)
    case Binary(_, x, y) => IndexesRight(x, table) && IndexesRight(y, table)
    case Call(_, args) => AllIndexesRight(args, table)
    case _ => true
  }

  predicate AllIndexesRight(args: seq<Expr>, table: Table)
    decreases args, 0
  {
    args == [] || (IndexesRight(args[0], table) && AllIndexesRight(args[1..], table))
  }

  /** The names visible after an annotated statement. */
  function After(s: Stmt, table: Table): Table
  {
    match s
    case TensorDecl(name, Some(rows), Some(cols), _) => table[name := Tensor(rows, cols)]
    case VarDecl(name, _) => table[name := Scalar]
    case _ => table
  }

  /** A declared tensor has a positive shape that its emitted initializer fills exactly, under a new name; a gemm
      carries the storage shapes of its three operands; every index carries its tensor's width. */
  predicate WellShaped(s: Stmt, table: Table)
    decreases s, 1
  {
    match s
    case TensorDecl(name, rows, cols, init) =>
      && name !in table && rows.Some? && cols.Some? && rows.value > 0 && cols.value > 0
      && |FlattenInit(rows, cols, init)| == rows.value * cols.value
    case VarDecl(name, value) => name !in table && IndexesRight(value, table)
    case Assign(target, value) => IndexesRight(target, table) && IndexesRight(value, table)
    case Gemm(a, b, c, m, n, k) =>
      && a in table && b in table && c in table
      && table[a] == Tensor(m, k) && table[b] == Tensor(k, n) && table[c] == Tensor(m, n)
    case Print(_) => true
    case If(cond, thn, els) =>
      IndexesRight(cond, table) && BlockShaped(thn, table) && (els.ElseBlock? ==> BlockShaped(els.items, table))
    case While(cond, body) => IndexesRight(cond, table) && BlockShaped(body, table)
    case For(start, test, step, body) =>
      var local := if start.Some? then After(start.value, table) else table;
      var local' := if step.Some? then After(step.value, local) else local;
      && (start.Some? ==> WellShaped(start.value, table)) && (test.Some? ==> IndexesRight(test.value, local))
      && (step.Some? ==> WellShaped(step.value, local)) && BlockShaped(body, local')
    case Return(value) => IndexesRight(value, table)
    case ExprStmt(expr) => IndexesRight(expr, table)
  }

  predicate BlockShaped(items: seq<Stmt>, table: Table)
    decreases items, 0
  {
    items == [] || (WellShaped(items[0], table) && BlockShaped(items[1..], After(items[0], table)))
  }

  /** Parameters are told apart, from each other and from every name visible so far. */
  predicate NewNames(params: seq<string>, table: Table)
  {
    && (forall i :: 0 <= i < |params| ==> params[i] !in table)
    && (forall i, j :: 0 <= i < j < |params| ==> params[i] != params[j])
  }

  function WithScalars(params: seq<string>, table: Table): Table
  {
    table + map name | name in params :: Scalar
  }

  /** Function bodies see the names declared before them and their own parameters. */
  predicate ProgramShaped(decls: seq<Decl>, table: Table)
  {
    if decls == [] then true
    else match decls[0]
      case FunctionDecl(fn) =>
        && NewNames(fn.params, table) && BlockShaped(fn.body, WithScalars(fn.params, table))
        && ProgramShaped(decls[1..], table)
      case Statement(s) => WellShaped(s, table) && ProgramShaped(decls[1..], After(s, table))
  }

  // ----- the analysis establishes it -----

  /** Shape soundness of one declaration: the shape is positive and the initializer fills it exactly. */
  lemma ShapeIsRight(rows: Option<int>, cols: Option<int>, init: Option<Grid>)
    requires ShapeOf(rows, cols, init).Some?
    ensures var (r, c) := ShapeOf(rows, cols, init).value;
            && r > 0 && c > 0 && (init.Some? ==> Rectangular(init.value, r, c))
            && (rows.Some? && cols.Some? ==> r == rows.value && c == cols.value)
  {
  }

  lemma {:induction false} CheckedExprRight(e: Expr, table: Table, arities: Arities)
    requires CheckExpr(e, table, arities).Some?
    ensures IndexesRight(CheckExpr(e, table, arities).value.0, table)
    decreases e, 1
  {
    match e
    case TensorIndex(_, row, col, _) => CheckedExprRight(row, table, arities); CheckedExprRight(col, table, arities);
    case Unary(_, x) => CheckedExprRight(x, table, arities);
    case Binary(_, x, y) => CheckedExprRight(x, table, arities); CheckedExprRight(y, table, arities);
    case Call(_, args) => CheckedArgsRight(args, table, arities);
    case _ =>
  }

  lemma {:induction false} CheckedArgsRight(args: seq<Expr>, table: Table, arities: Arities)
    requires CheckArgs(args, table, arities).Some?
    ensures AllIndexesRight(CheckArgs(args, table, arities).value, table)
    decreases args, 0
  {
    if args != [] {
      CheckedExprRight(args[0], table, arities);
      CheckedArgsRight(args[1..], table, arities);
      assert CheckArgs(args, table, arities).value[1..] == CheckArgs(args[1..], table, arities).value;
    }
  }

  lemma TensorShaped(s: Stmt, table: Table, arities: Arities)
    requires s.TensorDecl? && CheckStmt(s, table, arities).Some?
    ensures WellShaped(CheckStmt(s, table, arities).value.0, table)
  {
    hide FlattenInit;
    hide ShapeOf;
    var (r, c) := ShapeOf(s.rows, s.cols, s.init).value;
    ShapeIsRight(s.rows, s.cols, s.init);
    InitializerFills(r, c, s.init);
  }

  lemma InitializerFills(r: int, c: int, init: Option<seq<seq<int>>>)
    requires r > 0 && c > 0 && (init.Some? ==> |init.value| == r && forall i :: 0 <= i < r ==> |init.value[i]| == c)
    ensures |FlattenInit(Some(r), Some(c), init)| == r * c
  {
    assert r * c > 0;
    if init.Some? { FlattenLength(init.value, c); }
  }

  lemma {:induction false} CheckedStmtShaped(s: Stmt, table: Table, arities: Arities)
    requires CheckStmt(s, table, arities).Some?
    ensures var (s', table') := CheckStmt(s, table, arities).value; WellShaped(s', table) && After(s', table) == table'
    decreases s, 1
  {
    hide CheckExpr;
    hide IndexesRight;
    hide FlattenInit;
    hide ShapeOf;
    match s
    case TensorDecl(_, _, _, _) => TensorShaped(s, table, arities);
    case VarDecl(_, value) => CheckedExprRight(value, table, arities);
    case Assign(target, value) => CheckedExprRight(target, table, arities); CheckedExprRight(value, table, arities);
    case If(cond, thn, els) =>
      CheckedExprRight(cond, table, arities);
      CheckedBlockShaped(thn, table, arities);
      if els.ElseBlock? { CheckedBlockShaped(els.items, table, arities); }
    case While(cond, body) =>
      CheckedExprRight(cond, table, arities);
      CheckedBlockShaped(body, table, arities);
    case For(start, test, step, body) =>
      var local := CheckPart(start, table, arities).value.1;
      var local' := CheckPart(step, local, arities).value.1;
      if start.Some? { CheckedStmtShaped(start.value, table, arities); }
      if test.Some? { CheckedExprRight(test.value, local, arities); }
      if step.Some? { CheckedStmtShaped(step.value, local, arities); }
      CheckedBlockShaped(body, local', arities);
    case Return(value) => CheckedExprRight(value, table, arities);
    case ExprStmt(expr) => CheckedExprRight(expr, table, arities);
    case _ =>
  }

  lemma {:induction false} CheckedBlockShaped(items: seq<Stmt>, table: Table, arities: Arities)
    requires CheckBlock(items, table, arities).Some?
    ensures BlockShaped(CheckBlock(items, table, arities).value.0, table)
    decreases items, 0
  {
    if items != [] {
      var (s', table') := CheckStmt(items[0], table, arities).value;
      CheckedStmtShaped(items[0], table, arities);
      CheckedBlockShaped(items[1..], table', arities);
      assert CheckBlock(items, table, arities).value.0[1..] == CheckBlock(items[1..], table', arities).value.0;
    }
  }

  lemma NewNamesStep(params: seq<string>, table: Table)
    requires params != []
    ensures NewNames(params, table)
       <==> params[0] !in table && NewNames(params[1..], table[params[0] := Scalar])
  {
    var rest, joined := params[1..], table[params[0] := Scalar];
    assert forall i :: 0 <= i < |rest| ==> rest[i] == params[i + 1];
    if params[0] !in table && NewNames(rest, joined) {
      forall i, j | 0 <= i < j < |params| ensures params[i] != params[j] {
        assert params[j] == rest[j - 1];
        if i > 0 { assert params[i] == rest[i - 1]; }
      }
      forall i | 0 <= i < |params| ensures params[i] !in table { if i > 0 { assert params[i] == rest[i - 1]; } }
    }
  }

  lemma WithScalarsStep(params: seq<string>, table: Table)
    requires params != []
    ensures WithScalars(params, table) == WithScalars(params[1..], table[params[0] := Scalar])
  {
    assert params == [params[0]] + params[1..];
  }

  lemma {:induction false} ParamsBound(params: seq<string>, table: Table)
    ensures BindParams(params, table) == if NewNames(params, table) then Some(WithScalars(params, table)) else None
  {
    if params == [] {
      assert WithScalars(params, table) == table;
    } else {
      NewNamesStep(params, table);
      WithScalarsStep(params, table);
      ParamsBound(params[1..], table[params[0] := Scalar]);
    }
  }

  /** Every accepted program is well shaped. */
  lemma {:induction false} CheckedProgramShaped(decls: seq<Decl>, table: Table, arities: Arities)
    requires CheckDecls(decls, table, arities).Some?
    ensures ProgramShaped(CheckDecls(decls, table, arities).value.0, table)
  {
    if decls != [] {
      var (d', table') := CheckDecl(decls[0], table, arities).value;
      assert CheckDecls(decls, table, arities).value.0[1..] == CheckDecls(decls[1..], table', arities).value.0;
      CheckedProgramShaped(decls[1..], table', arities);
      match decls[0]
      case FunctionDecl(fn) =>
        ParamsBound(fn.params, table);
        CheckedBlockShaped(fn.body, BindParams(fn.params, table).value, arities);
      case Statement(s) => CheckedStmtShaped(s, table, arities);
    }
  }
}
