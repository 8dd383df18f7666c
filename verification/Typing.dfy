/** The programs TensorC accepts, told by the annotated tree alone, and the analysis as its decision procedure
    (src/maps-compiler/tensorc/sema.py). */
module Typing {
  import opened Options
  import opened TensorAst
  import opened TensorCSemantics
  import opened Sema
  import opened Codegen
  import opened Shapes

  // ----- a tree and its annotation -----

  /** Equal but for the widths of indexes. */
  predicate SameExpr(e: Expr, e': Expr)
    decreases e, 1
  {
    match (e, e')
    case (TensorIndex(name, row, col, _), TensorIndex(name', row', col', _)) =>
      name == name' && SameExpr(row, row') && SameExpr(col, col')
    case (Unary(op, x), Unary(op', x')) => op == op' && SameExpr(x, x')
    case (Binary(op, x, y), Binary(op', x', y')) => op == op' && SameExpr(x, x') && SameExpr(y, y')
    case (Call(name, args), Call(name', args')) => name == name' && SameArgs(args, args')
    case _ => e == e'
  }

  predicate SameArgs(args: seq<Expr>, args': seq<Expr>)
    decreases args, 0
  {
    |args| == |args'| && (args == [] || (SameExpr(args[0], args'[0]) && SameArgs(args[1..], args'[1..])))
  }

  predicate SameTest(test: Option<Expr>, test': Option<Expr>)
  {
    test.Some? == test'.Some? && (test.Some? ==> SameExpr(test.value, test'.value))
  }

  predicate SamePart(part: Option<Stmt>, part': Option<Stmt>)
    decreases part, 0
  {
    part.Some? == part'.Some? && (part.Some? ==> SameStmt(part.value, part'.value))
  }

  /** Equal but for the widths of indexes, the sizes of gemms, and a shape left to the initializer. */
  predicate SameStmt(s: Stmt, s': Stmt)
    decreases s, 1
  {
    match (s, s')
    case (TensorDecl(name, rows, cols, init), TensorDecl(name', rows', cols', init')) =>
      && name == name' && init == init'
      && ((rows == rows' && cols == cols') || (rows.None? && cols.None? && init.Some?))
    case (VarDecl(name, value), VarDecl(name', value')) => name == name' && SameExpr(value, value')
    case (Assign(target, value), Assign(target', value')) => SameExpr(target, target') && SameExpr(value, value')
    case (Gemm(a, b, c, _, _, _), Gemm(a', b', c', _, _, _)) => a == a' && b == b' && c == c'
    case (If(cond, thn, els), If(cond', thn', els')) =>
      && SameExpr(cond, cond') && SameBlock(thn, thn') && els.ElseBlock? == els'.ElseBlock?
      && (els.ElseBlock? ==> SameBlock(els.items, els'.items))
    case (While(cond, body), While(cond', body')) => SameExpr(cond, cond') && SameBlock(body, body')
    case (For(start, test, step, body), For(start', test', step', body')) =>
      && SamePart(start, start') && SameTest(test, test') && SamePart(step, step') && SameBlock(body, body')
    case (Return(value), Return(value')) => SameExpr(value, value')
    case (ExprStmt(expr), ExprStmt(expr')) => SameExpr(expr, expr')
    case _ => s == s'
  }

  predicate SameBlock(items: seq<Stmt>, items': seq<Stmt>)
    decreases items, 0
  {
    |items| == |items'| && (items == [] || (SameStmt(items[0], items'[0]) && SameBlock(items[1..], items'[1..])))
  }

  predicate SameDecl(d: Decl, d': Decl)
  {
    match (d, d')
    case (FunctionDecl(fn), FunctionDecl(fn')) =>
      fn.name == fn'.name && fn.params == fn'.params && SameBlock(fn.body, fn'.body)
    case (Statement(s), Statement(s')) => SameStmt(s, s')
    case _ => false
  }

  predicate SameProgram(decls: seq<Decl>, decls': seq<Decl>)
  {
    |decls| == |decls'| && (decls == [] || (SameDecl(decls[0], decls'[0]) && SameProgram(decls[1..], decls'[1..])))
  }

  // ----- names and kinds -----

  /** Every name read is visible: an index reads a tensor, an operand or an argument is a number, and a call has as many
      arguments as a declared function has parameters. */
  predicate HasType(e: Expr, t: Type, table: Table, arities: Arities)
    decreases e, 1
  {
    match e
    case IntLiteral(_) => t == Scalar
    case VarRef(name) => name in table && t == table[name]
    case TensorIndex(name, row, col, _) =>
      && t == Scalar && name in table && table[name].Tensor?
      && HasType(row, Scalar, table, arities) && HasType(col, Scalar, table, arities)
    case Unary(_, x) => t == Scalar && HasType(x, Scalar, table, arities)
    case Binary(_, x, y) => t == Scalar && HasType(x, Scalar, table, arities) && HasType(y, Scalar, table, arities)
    case Call(name, args) => t == Scalar && name in arities && |args| == arities[name] && AllScalar(args, table, arities)
  }

  predicate AllScalar(args: seq<Expr>, table: Table, arities: Arities)
    decreases args, 0
  {
    args == [] || (HasType(args[0], Scalar, table, arities) && AllScalar(args[1..], table, arities))
  }

  /** Initializers have the declared shape, conditions and values are numbers, and both sides of an assignment are. */
  predicate WellTyped(s: Stmt, table: Table, arities: Arities)
    decreases s, 1
  {
    match s
    case TensorDecl(_, rows, cols, init) =>
      rows.Some? && cols.Some? && (init.Some? ==> Rectangular(init.value, rows.value, cols.value))
    case VarDecl(_, value) => HasType(value, Scalar, table, arities)
    case Assign(target, value) => HasType(target, Scalar, table, arities) && HasType(value, Scalar, table, arities)
    case If(cond, thn, els) =>
      && HasType(cond, Scalar, table, arities) && BlockTyped(thn, table, arities)
      && (els.ElseBlock? ==> BlockTyped(els.items, table, arities))
    case While(cond, body) => HasType(cond, Scalar, table, arities) && BlockTyped(body, table, arities)
    case For(start, test, step, body) =>
      var local := Following(start, table);
      && (start.Some? ==> WellTyped(start.value, table, arities))
      && (test.Some? ==> HasType(test.value, Scalar, local, arities))
      && (step.Some? ==> WellTyped(step.value, local, arities)) && BlockTyped(body, Following(step, local), arities)
    case Return(value) => HasType(value, Scalar, table, arities)
    case ExprStmt(expr) => HasType(expr, Scalar, table, arities) || (expr.VarRef? && expr.name in table)
    case _ => true
  }

  /** The names visible after a part of a `for`. */
  function Following(part: Option<Stmt>, table: Table): Table
  {
    if part.Some? then After(part.value, table) else table
  }

  predicate BlockTyped(items: seq<Stmt>, table: Table, arities: Arities)
    decreases items, 0
  {
    items == [] || (WellTyped(items[0], table, arities) && BlockTyped(items[1..], After(items[0], table), arities))
  }

  function AfterBlock(items: seq<Stmt>, table: Table): Table
  {
    if items == [] then table else AfterBlock(items[1..], After(items[0], table))
  }

  predicate ProgramTyped(decls: seq<Decl>, table: Table, arities: Arities)
  {
    if decls == [] then true
    else match decls[0]
      case FunctionDecl(fn) =>
        BlockTyped(fn.body, WithScalars(fn.params, table), arities) && ProgramTyped(decls[1..], table, arities)
      case Statement(s) => WellTyped(s, table, arities) && ProgramTyped(decls[1..], After(s, table), arities)
  }

  function AfterProgram(decls: seq<Decl>, table: Table): Table
  {
    if decls == [] then table
    else if decls[0].Statement? then AfterProgram(decls[1..], After(decls[0].stmt, table))
    else AfterProgram(decls[1..], table)
  }

  // ----- the functions of a program -----

  predicate FunctionAt(decls: seq<Decl>, i: int)
  {
    0 <= i < |decls| && decls[i].FunctionDecl?
  }

  /** Each function has a name of its own. */
  ghost predicate FunctionsDistinct(decls: seq<Decl>)
  {
    forall i, j :: FunctionAt(decls, i) && FunctionAt(decls, j) && i < j ==> decls[i].fn.name != decls[j].fn.name
  }

  /** The names and the numbers of parameters of exactly the functions declared. */
  ghost predicate AreArities(arities: Arities, decls: seq<Decl>)
  {
    && (forall i :: FunctionAt(decls, i) ==>
          decls[i].fn.name in arities && arities[decls[i].fn.name] == |decls[i].fn.params|)
    && (forall name :: name in arities ==> exists i :: FunctionAt(decls, i) && decls[i].fn.name == name)
  }

  /** `decls'` annotates `decls` and keeps every rule; `table` holds the names visible at its end. */
  ghost predicate Accepts(decls: seq<Decl>, decls': seq<Decl>, table: Table)
  {
    && FunctionsDistinct(decls) && SameProgram(decls, decls') && ProgramShaped(decls', map[])
    && table == AfterProgram(decls', map[])
    && exists arities :: AreArities(arities, decls) && ProgramTyped(decls', map[], arities)
  }

  // ----- expressions -----

  lemma {:induction false} ExprExactly(e: Expr, e': Expr, t: Type, table: Table, arities: Arities)
    ensures CheckExpr(e, table, arities) == Some((e', t))
       <==> SameExpr(e, e') && IndexesRight(e', table) && HasType(e', t, table, arities)
    decreases e, 1
  {
    match (e, e')
    case (TensorIndex(_, row, col, _), TensorIndex(_, row', col', _)) =>
      ExprExactly(row, row', Scalar, table, arities);
      ExprExactly(col, col', Scalar, table, arities);
    case (Unary(_, x), Unary(_, x')) => ExprExactly(x, x', Scalar, table, arities);
    case (Binary(_, x, y), Binary(_, x', y')) =>
      ExprExactly(x, x', Scalar, table, arities);
      ExprExactly(y, y', Scalar, table, arities);
    case (Call(_, args), Call(_, args')) => ArgsExactly(args, args', table, arities);
    case _ =>
  }

  lemma {:induction false} ArgsExactly(args: seq<Expr>, args': seq<Expr>, table: Table, arities: Arities)
    ensures CheckArgs(args, table, arities) == Some(args')
       <==> SameArgs(args, args') && AllIndexesRight(args', table) && AllScalar(args', table, arities)
    decreases args, 0
  {
    if args != [] && args' != [] {
      ExprExactly(args[0], args'[0], Scalar, table, arities);
      ArgsExactly(args[1..], args'[1..], table, arities);
      assert args' == [args'[0]] + args'[1..];
    }
  }

  /** An expression of either type: a number or a visible name. */
  lemma ReadableExactly(e: Expr, e': Expr, table: Table, arities: Arities)
    ensures CheckExpr(e, table, arities).Some? && CheckExpr(e, table, arities).value.0 == e'
       <==> && SameExpr(e, e') && IndexesRight(e', table)
            && (HasType(e', Scalar, table, arities) || (e'.VarRef? && e'.name in table))
  {
    ExprExactly(e, e', Scalar, table, arities);
    if CheckExpr(e, table, arities).Some? { ExprExactly(e, e', CheckExpr(e, table, arities).value.1, table, arities); }
    if e'.VarRef? && e'.name in table { ExprExactly(e, e', table[e'.name], table, arities); }
  }

  // ----- statements -----

  lemma TensorExactly(s: Stmt, s': Stmt, table: Table, table': Table, arities: Arities)
    requires s.TensorDecl?
    ensures CheckStmt(s, table, arities) == Some((s', table'))
       <==> SameStmt(s, s') && WellShaped(s', table) && WellTyped(s', table, arities) && table' == After(s', table)
  {
    if s'.TensorDecl? {
      hide FlattenInit;
      if s'.rows.Some? && s'.cols.Some? && s'.rows.value > 0 && s'.cols.value > 0
         && (s'.init.Some? ==> Rectangular(s'.init.value, s'.rows.value, s'.cols.value)) {
        InitializerFills(s'.rows.value, s'.cols.value, s'.init);
      }
    }
  }

  lemma TestExactly(test: Option<Expr>, test': Option<Expr>, table: Table, arities: Arities)
    ensures CheckTest(test, table, arities) == Some(test')
       <==> && SameTest(test, test')
            && (test'.Some? ==> IndexesRight(test'.value, table) && HasType(test'.value, Scalar, table, arities))
  {
    if test.Some? && test'.Some? { ExprExactly(test.value, test'.value, Scalar, table, arities); }
  }

  lemma {:induction false} PartExactly(part: Option<Stmt>, part': Option<Stmt>, table: Table, table': Table,
                                       arities: Arities)
    ensures CheckPart(part, table, arities) == Some((part', table'))
       <==> && SamePart(part, part') && table' == Following(part', table)
            && (part'.Some? ==> WellShaped(part'.value, table) && WellTyped(part'.value, table, arities))
    ensures CheckPart(part, table, arities).Some? ==>
              CheckPart(part, table, arities).value.1 == Following(CheckPart(part, table, arities).value.0, table)
    decreases part, 0
  {
    if CheckPart(part, table, arities).Some? && part.Some? { CheckedStmtShaped(part.value, table, arities); }
    if part.Some? && part'.Some? { StmtExactly(part.value, part'.value, table, table', arities); }
  }

  function Kind(s: Stmt): int
  {
    match s
    case TensorDecl(_, _, _, _) => 0
    case VarDecl(_, _) => 1
    case Assign(_, _) => 2
    case Gemm(_, _, _, _, _, _) => 3
    case Print(_) => 4
    case If(_, _, _) => 5
    case While(_, _) => 6
    case For(_, _, _, _) => 7
    case Return(_) => 8
    case ExprStmt(_) => 9
  }

  lemma UnlikeRefused(s: Stmt, s': Stmt, table: Table, arities: Arities)
    requires Kind(s) != Kind(s')
    ensures !SameStmt(s, s')
    ensures CheckStmt(s, table, arities).Some? ==> CheckStmt(s, table, arities).value.0 != s'
  {
    hide ShapeOf;
    hide CheckExpr;
    hide RequireInt;
    hide CheckBlock;
    hide CheckPart;
    hide CheckTest;
  }

  lemma {:induction false} IfExactly(s: Stmt, s': Stmt, table: Table, table': Table, arities: Arities)
    requires s.If? && s'.If?
    ensures CheckStmt(s, table, arities) == Some((s', table'))
       <==> SameStmt(s, s') && WellShaped(s', table) && WellTyped(s', table, arities) && table' == After(s', table)
    decreases s, 0
  {
    hide CheckExpr;
    hide SameExpr;
    hide IndexesRight;
    hide HasType;
    hide CheckBlock;
    hide SameBlock;
    hide BlockShaped;
    hide BlockTyped;
    var If(cond, thn, els) := s;
    var If(cond', thn', els') := s';
    ExprExactly(cond, cond', Scalar, table, arities);
    BlockAfter(thn, table, arities);
    BlockExactly(thn, thn', table, AfterBlock(thn', table), arities);
    if els.ElseBlock? && els'.ElseBlock? {
      BlockAfter(els.items, table, arities);
      BlockExactly(els.items, els'.items, table, AfterBlock(els'.items, table), arities);
    }
  }

  lemma {:induction false} ForExactly(s: Stmt, s': Stmt, table: Table, table': Table, arities: Arities)
    requires s.For? && s'.For?
    ensures CheckStmt(s, table, arities) == Some((s', table'))
       <==> SameStmt(s, s') && WellShaped(s', table) && WellTyped(s', table, arities) && table' == After(s', table)
    decreases s, 0
  {
    hide CheckExpr;
    hide SameExpr;
    hide IndexesRight;
    hide HasType;
    hide CheckBlock;
    hide SameBlock;
    hide BlockShaped;
    hide BlockTyped;
    hide CheckPart;
    hide CheckTest;
    hide SamePart;
    hide SameTest;
    var For(start, test, step, body) := s;
    var For(start', test', step', body') := s';
    var local := Following(start', table);
    var local' := Following(step', local);
    PartExactly(start, start', table, local, arities);
    TestExactly(test, test', local, arities);
    PartExactly(step, step', local, local', arities);
    BlockAfter(body, local', arities);
    BlockExactly(body, body', local', AfterBlock(body', local'), arities);
  }

  lemma {:induction false} StmtExactly(s: Stmt, s': Stmt, table: Table, table': Table, arities: Arities)
    ensures CheckStmt(s, table, arities) == Some((s', table'))
       <==> SameStmt(s, s') && WellShaped(s', table) && WellTyped(s', table, arities) && table' == After(s', table)
    decreases s, 1
  {
    hide CheckExpr;
    hide SameExpr;
    hide IndexesRight;
    hide HasType;
    hide ShapeOf;
    hide FlattenInit;
    hide Rectangular;
    hide CheckBlock;
    hide SameBlock;
    hide BlockShaped;
    hide BlockTyped;
    if Kind(s) != Kind(s') {
      UnlikeRefused(s, s', table, arities);
      return;
    }
    match s
    case TensorDecl(_, _, _, _) => TensorExactly(s, s', table, table', arities);
    case VarDecl(_, value) => ExprExactly(value, s'.value, Scalar, table, arities);
    case Assign(target, value) =>
      ExprExactly(target, s'.target, Scalar, table, arities);
      ExprExactly(value, s'.value, Scalar, table, arities);
    case Gemm(_, _, _, _, _, _) =>
    case Print(_) =>
    case If(_, _, _) => IfExactly(s, s', table, table', arities);
    case While(cond, body) =>
      ExprExactly(cond, s'.cond, Scalar, table, arities);
      BlockAfter(body, table, arities);
      BlockExactly(body, s'.body, table, AfterBlock(s'.body, table), arities);
    case For(_, _, _, _) => ForExactly(s, s', table, table', arities);
    case Return(value) => ExprExactly(value, s'.value, Scalar, table, arities);
    case ExprStmt(expr) => ReadableExactly(expr, s'.expr, table, arities);
  }

  lemma {:induction false} BlockAfter(items: seq<Stmt>, table: Table, arities: Arities)
    ensures var r := CheckBlock(items, table, arities); r.Some? ==> r.value.1 == AfterBlock(r.value.0, table)
    decreases |items|
  {
    hide CheckStmt;
    if CheckBlock(items, table, arities).Some? && items != [] {
      var (s', table') := CheckStmt(items[0], table, arities).value;
      CheckedStmtShaped(items[0], table, arities);
      BlockAfter(items[1..], table', arities);
      assert CheckBlock(items, table, arities).value.0[1..] == CheckBlock(items[1..], table', arities).value.0;
    }
  }

  lemma {:induction false} BlockExactly(items: seq<Stmt>, items': seq<Stmt>, table: Table, table': Table, arities: Arities)
    ensures CheckBlock(items, table, arities) == Some((items', table'))
       <==> SameBlock(items, items') && BlockShaped(items', table) && BlockTyped(items', table, arities)
            && table' == AfterBlock(items', table)
    decreases items, 0
  {
    hide CheckStmt;
    hide WellShaped;
    hide WellTyped;
    hide SameStmt;
    if items != [] && items' != [] {
      var local := After(items'[0], table);
      if CheckStmt(items[0], table, arities).Some? { CheckedStmtShaped(items[0], table, arities); }
      StmtExactly(items[0], items'[0], table, local, arities);
      BlockExactly(items[1..], items'[1..], local, table', arities);
      assert items' == [items'[0]] + items'[1..];
    }
  }

  // ----- programs -----

  lemma DeclExactly(d: Decl, d': Decl, table: Table, table': Table, arities: Arities)
    ensures CheckDecl(d, table, arities) == Some((d', table'))
       <==> && SameDecl(d, d') && ProgramShaped([d'], table) && ProgramTyped([d'], table, arities)
            && table' == AfterProgram([d'], table)
  {
    hide CheckStmt;
    hide CheckBlock;
    hide WellShaped;
    hide WellTyped;
    hide BlockShaped;
    hide BlockTyped;
    assert [d'][1..] == [];
    match (d, d')
    case (FunctionDecl(fn), FunctionDecl(fn')) =>
      var local := WithScalars(fn.params, table);
      ParamsBound(fn.params, table);
      BlockAfter(fn.body, local, arities);
      BlockExactly(fn.body, fn'.body, local, AfterBlock(fn'.body, local), arities);
      assert fn' == fn.(body := fn'.body) <==> fn.name == fn'.name && fn.params == fn'.params;
      assert AfterProgram([d'], table) == table;
      assert SameDecl(d, d') && ProgramShaped([d'], table) && ProgramTyped([d'], table, arities)
        ==> CheckDecl(d, table, arities) == Some((d', table));
    case (Statement(s), Statement(s')) => StmtExactly(s, s', table, table', arities);
    case _ =>
  }

  lemma DeclAfter(d: Decl, table: Table, arities: Arities)
    ensures var r := CheckDecl(d, table, arities); r.Some? ==> r.value.1 == AfterProgram([r.value.0], table)
  {
    hide CheckStmt;
    if CheckDecl(d, table, arities).Some? {
      assert [CheckDecl(d, table, arities).value.0][1..] == [];
      if d.Statement? { CheckedStmtShaped(d.stmt, table, arities); }
    }
  }

  lemma ProgramStep(decls: seq<Decl>, table: Table, arities: Arities)
    requires decls != []
    ensures var local := AfterProgram([decls[0]], table);
            && (ProgramShaped(decls, table) <==> ProgramShaped([decls[0]], table) && ProgramShaped(decls[1..], local))
            && (ProgramTyped(decls, table, arities)
                <==> ProgramTyped([decls[0]], table, arities) && ProgramTyped(decls[1..], local, arities))
            && AfterProgram(decls, table) == AfterProgram(decls[1..], local)
  {
    hide WellShaped;
    hide WellTyped;
    hide BlockShaped;
    hide BlockTyped;
    assert [decls[0]][1..] == [];
  }

  lemma {:induction false} DeclsExactly(decls: seq<Decl>, decls': seq<Decl>, table: Table, table': Table, arities: Arities)
    ensures CheckDecls(decls, table, arities) == Some((decls', table'))
       <==> && SameProgram(decls, decls') && ProgramShaped(decls', table) && ProgramTyped(decls', table, arities)
            && table' == AfterProgram(decls', table)
  {
    hide CheckDecl;
    hide SameDecl;
    hide WellShaped;
    hide WellTyped;
    if decls != [] && decls' != [] {
      var local := AfterProgram([decls'[0]], table);
      ProgramStep(decls', table, arities);
      DeclAfter(decls[0], table, arities);
      DeclExactly(decls[0], decls'[0], table, local, arities);
      DeclsExactly(decls[1..], decls'[1..], local, table', arities);
      assert decls' == [decls'[0]] + decls'[1..];
    }
  }

  lemma FunctionsShift(decls: seq<Decl>)
    requires decls != []
    ensures forall i :: FunctionAt(decls[1..], i) ==> FunctionAt(decls, i + 1) && decls[i + 1] == decls[1..][i]
    ensures forall i :: FunctionAt(decls, i) && i != 0 ==> FunctionAt(decls[1..], i - 1) && decls[1..][i - 1] == decls[i]
  {
  }

  /** The functions of a program beside its first declaration. */
  lemma DistinctStep(decls: seq<Decl>)
    requires decls != []
    ensures FunctionsDistinct(decls)
       <==> && FunctionsDistinct(decls[1..])
            && (decls[0].FunctionDecl? ==>
                  forall i :: FunctionAt(decls[1..], i) ==> decls[1..][i].fn.name != decls[0].fn.name)
  {
    FunctionsShift(decls);
    if FunctionsDistinct(decls) {
      forall i, j | FunctionAt(decls[1..], i) && FunctionAt(decls[1..], j) && i < j
        ensures decls[1..][i].fn.name != decls[1..][j].fn.name
      {
        assert FunctionAt(decls, i + 1) && FunctionAt(decls, j + 1);
      }
      if decls[0].FunctionDecl? {
        forall i | FunctionAt(decls[1..], i) ensures decls[1..][i].fn.name != decls[0].fn.name {
          assert FunctionAt(decls, 0) && FunctionAt(decls, i + 1);
        }
      }
    }
  }

  /** No function of `decls` is known yet. */
  ghost predicate Unknown(decls: seq<Decl>, known: Arities)
  {
    forall i :: FunctionAt(decls, i) ==> decls[i].fn.name !in known
  }

  /** The `known` functions and those of `decls`. */
  ghost predicate Joined(arities: Arities, decls: seq<Decl>, known: Arities)
  {
    && (forall i :: FunctionAt(decls, i) ==>
          decls[i].fn.name in arities && arities[decls[i].fn.name] == |decls[i].fn.params|)
    && (forall name :: name in arities && name !in known ==> exists i :: FunctionAt(decls, i) && decls[i].fn.name == name)
    && (forall name :: name in known ==> name in arities && arities[name] == known[name])
  }

  lemma UnknownStep(decls: seq<Decl>, known: Arities)
    requires decls != []
    ensures decls[0].Statement? ==> (Unknown(decls, known) <==> Unknown(decls[1..], known))
    ensures decls[0].FunctionDecl? ==>
              var fn := decls[0].fn;
              (FunctionsDistinct(decls) && Unknown(decls, known)
               <==> && fn.name !in known && FunctionsDistinct(decls[1..])
                    && Unknown(decls[1..], known[fn.name := |fn.params|]))
  {
    FunctionsShift(decls);
    DistinctStep(decls);
    if decls[0].FunctionDecl? { assert FunctionAt(decls, 0); }
  }

  lemma JoinedStep(arities: Arities, decls: seq<Decl>, known: Arities)
    requires decls != []
    requires if decls[0].Statement? then Joined(arities, decls[1..], known)
             else && decls[0].fn.name !in known
                  && Joined(arities, decls[1..], known[decls[0].fn.name := |decls[0].fn.params|])
    ensures Joined(arities, decls, known)
  {
    FunctionsShift(decls);
    forall name | name in arities && name !in known ensures exists i :: FunctionAt(decls, i) && decls[i].fn.name == name {
      if decls[0].FunctionDecl? && decls[0].fn.name == name {
        assert FunctionAt(decls, 0);
      } else {
        var i :| FunctionAt(decls[1..], i) && decls[1..][i].fn.name == name;
        assert FunctionAt(decls, i + 1);
      }
    }
  }

  /** The first pass. */
  lemma {:induction false} AritiesCollected(decls: seq<Decl>, known: Arities)
    ensures CollectArities(decls, known).Some? <==> FunctionsDistinct(decls) && Unknown(decls, known)
    ensures CollectArities(decls, known).Some? ==> Joined(CollectArities(decls, known).value, decls, known)
  {
    if decls != [] {
      var known' := if decls[0].Statement? then known else known[decls[0].fn.name := |decls[0].fn.params|];
      AritiesCollected(decls[1..], known');
      DistinctStep(decls);
      UnknownStep(decls, known);
      if CollectArities(decls, known).Some? { JoinedStep(CollectArities(decls, known).value, decls, known); }
    }
  }

  lemma AritiesUnique(decls: seq<Decl>, x: Arities, y: Arities)
    requires AreArities(x, decls) && AreArities(y, decls)
    ensures x == y
  {
    forall name | name in x ensures name in y && x[name] == y[name] {
      var i :| FunctionAt(decls, i) && decls[i].fn.name == name;
    }
    assert forall name :: name in y ==> name in x;
  }

  /** The analysis accepts exactly the programs with an annotation that keeps every rule, and returns that annotation. */
  lemma AnalyzeExactly(decls: seq<Decl>, decls': seq<Decl>, table: Table)
    ensures Analyze(decls) == Some((decls', table)) <==> Accepts(decls, decls', table)
  {
    hide CheckDecls;
    hide SameProgram;
    hide ProgramShaped;
    hide ProgramTyped;
    hide AfterProgram;
    AritiesCollected(decls, map[]);
    if FunctionsDistinct(decls) {
      var arities := CollectArities(decls, map[]).value;
      assert AreArities(arities, decls);
      DeclsExactly(decls, decls', map[], table, arities);
      forall other | AreArities(other, decls) ensures other == arities { AritiesUnique(decls, arities, other); }
    }
  }
}
