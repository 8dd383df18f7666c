/** Which accepted programs become C that compiles, said about the TensorC text alone. */
module Portable {
  import opened Options
  import opened TensorAst
  import opened Sema
  import opened CTarget
  import opened CScopes
  import opened Codegen
  import opened CStrings
  import opened Shapes

  /** What a piece of TensorC finds in C: `names` are the variables there, `hidden` the top-level variables that C keeps
      inside `user_main`, `callable` the functions already defined. */
  datatype Context = Context(names: set<string>, hidden: set<string>, callable: set<string>)
  {
    function Declare(name: string): Context
    {
      this.(names := names + {name})
    }

    predicate Declarable(name: string)
    {
      !IsKeyword(name) && "i32" !in names
    }
  }

  predicate FileName(name: string)
  {
    !IsKeyword(name) && !IsProvided(name)
  }

  // ----- the condition -----

  /** No top-level variable from inside a function, no call of a later function or of a function a variable hides. */
  predicate PortableExpr(e: Expr, c: Context)
    decreases e, 1
  {
    match e
    case IntLiteral(v) => 0 <= v < FIRST_UNTYPED
    case VarRef(name) => name !in c.hidden
    case TensorIndex(_, row, col, _) => PortableExpr(row, c) && PortableExpr(col, c)
    case Unary(_, x) => PortableExpr(x, c)
    case Binary(_, x, y) => PortableExpr(x, c) && PortableExpr(y, c)
    case Call(f, args) => f in c.callable && f !in c.names && PortableArgs(args, c)
  }

  predicate PortableArgs(args: seq<Expr>, c: Context)
    decreases args, 0
  {
    args == [] || (PortableExpr(args[0], c) && PortableArgs(args[1..], c))
  }

  function Declared(s: Stmt, c: Context): Context
  {
    match s
    case TensorDecl(name, _, _, _) => c.Declare(name)
    case VarDecl(name, _) => c.Declare(name)
    case _ => c
  }

  predicate Storable(rows: Option<int>, cols: Option<int>, init: Option<seq<seq<int>>>)
  {
    && (match ShapeOf(rows, cols, init) case Some((r, c)) => r * c < TOO_MANY_CELLS case None => true)
    && (init.Some? ==> forall row, v :: row in init.value && v in row ==> -FIRST_UNTYPED < v < FIRST_UNTYPED)
  }

  /** Also: only variables and elements are assigned, and no variable takes a name the emitted text needs there. */
  predicate PortableStmt(s: Stmt, c: Context)
    decreases s, 1
  {
    match s
    case TensorDecl(name, rows, cols, init) => c.Declarable(name) && Storable(rows, cols, init)
    case VarDecl(name, value) => c.Declarable(name) && PortableExpr(value, c.Declare(name))
    case Assign(target, value) => (target.VarRef? || target.TensorIndex?) && PortableExpr(target, c) && PortableExpr(value, c)
    case Gemm(_, _, _, _, _, _) => "user_npu_gemm" !in c.names
    case Print(_) => "user_write_cstr" !in c.names
    case If(cond, thn, els) =>
      PortableExpr(cond, c) && PortableItems(thn, c) && (els.ElseBlock? ==> PortableItems(els.items, c))
    case While(cond, body) => PortableExpr(cond, c) && PortableItems(body, c)
    case For(start, test, step, body) =>
      var c' := if start.Some? then Declared(start.value, c) else c;
      && (start.Some? ==> (start.value.VarDecl? || SimplePart(start.value)) && PortableStmt(start.value, c))
      && (test.Some? ==> PortableExpr(test.value, c'))
      && (step.Some? ==> SimplePart(step.value) && PortableStmt(step.value, c'))
      && PortableItems(body, c')
    case Return(value) => PortableExpr(value, c)
    case ExprStmt(expr) => PortableExpr(expr, c)
  }

  predicate PortableItems(items: seq<Stmt>, c: Context)
    decreases items, 0
  {
    items == [] || (PortableStmt(items[0], c) && PortableItems(items[1..], Declared(items[0], c)))
  }

  /** What C finds after the statements of a block. */
  function DeclaredAll(items: seq<Stmt>, c: Context): Context
  {
    if items == [] then c else DeclaredAll(items[1..], Declared(items[0], c))
  }

  predicate PortableParams(params: seq<string>, c: Context)
  {
    params == [] || (c.Declarable(params[0]) && PortableParams(params[1..], c.Declare(params[0])))
  }

  function WithParams(params: seq<string>, c: Context): Context
  {
    if params == [] then c else WithParams(params[1..], c.Declare(params[0]))
  }

  function TensorNames(decls: seq<Decl>): set<string>
  {
    if decls == [] then {}
    else if decls[0].Statement? && decls[0].stmt.TensorDecl? then {decls[0].stmt.name} + TensorNames(decls[1..])
    else TensorNames(decls[1..])
  }

  function FunctionNames(decls: seq<Decl>): set<string>
  {
    if decls == [] then {}
    else if decls[0].FunctionDecl? then {decls[0].fn.name} + FunctionNames(decls[1..])
    else FunctionNames(decls[1..])
  }

  predicate PortableTensors(decls: seq<Decl>)
  {
    decls == [] || (
      && (decls[0].Statement? && decls[0].stmt.TensorDecl? ==>
            FileName(decls[0].stmt.name) && Storable(decls[0].stmt.rows, decls[0].stmt.cols, decls[0].stmt.init))
      && PortableTensors(decls[1..]))
  }

  /** `c.names` are all top-level tensors; `c.hidden` and `c.callable` grow along the text. */
  predicate PortableFunctions(decls: seq<Decl>, c: Context)
  {
    if decls == [] then true
    else match decls[0]
      case FunctionDecl(fn) =>
        var c' := c.(callable := c.callable + {fn.name});
        && FileName(fn.name) && fn.name !in c.names
        && PortableParams(fn.params, c') && PortableItems(fn.body, WithParams(fn.params, c'))
        && PortableFunctions(decls[1..], c')
      case Statement(s) =>
        PortableFunctions(decls[1..], if s.VarDecl? then c.(hidden := c.hidden + {s.name}) else c)
  }

  /** The statements of `user_main`, which come after all functions. */
  predicate PortableMain(decls: seq<Decl>, c: Context)
  {
    if decls == [] then true
    else if decls[0].Statement? && !decls[0].stmt.TensorDecl? then
      PortableStmt(decls[0].stmt, c) && PortableMain(decls[1..], Declared(decls[0].stmt, c))
    else PortableMain(decls[1..], c)
  }

  predicate PortableProgram(decls: seq<Decl>)
  {
    var tensors := TensorNames(decls);
    && PortableTensors(decls) && PortableFunctions(decls, Context(tensors, {}, {}))
    && PortableMain(decls, Context(tensors, {}, FunctionNames(decls)))
  }

  // ----- the analysis' symbols and C's scopes -----

  /** A name the analysis knows is a top-level variable C keeps from here, or a variable of the same kind in C. */
  ghost predicate Seen(table: Table, arities: Arities, s: Scope, c: Context)
  {
    && c.names == s.vars.Keys && c.callable == s.fns.Keys && c.hidden <= table.Keys && s.here <= table.Keys
    && (forall f :: f in s.fns ==> f in arities && s.fns[f] == arities[f])
    && forall n :: n in table ==> SeenName(n, table[n], s, c)
  }

  ghost predicate SeenName(n: string, ty: Type, s: Scope, c: Context)
  {
    if n in c.hidden then ty.Scalar? && n !in s.vars
    else n in s.vars && match ty
      case Scalar => s.vars[n] == NUMBER
      case Tensor(rows, cols) => s.vars[n] == ARRAY && Sized(rows, cols)
  }

  ghost predicate Sized(rows: int, cols: int)
  {
    0 < rows < FIRST_UNTYPED && 0 < cols < FIRST_UNTYPED
  }

  lemma DeclaredSeen(table: Table, arities: Arities, s: Scope, c: Context, name: string, ty: Type)
    requires Seen(table, arities, s, c) && name !in table && (ty.Tensor? ==> Sized(ty.rows, ty.cols))
    ensures Seen(table[name := ty], arities, s.Declare(name, if ty.Scalar? then NUMBER else ARRAY), c.Declare(name))
  {
  }

  lemma InnerSeen(table: Table, arities: Arities, s: Scope, c: Context)
    requires Seen(table, arities, s, c)
    ensures Seen(table, arities, s.Inner(), c)
  {
  }

  /** Looking at a declaration's initializer, the new name is in C's scope but not among the symbols. */
  ghost predicate Sees(table: Table, arities: Arities, s: Scope, c: Context)
  {
    && c.names == s.vars.Keys && c.callable == s.fns.Keys
    && (forall f :: f in s.fns ==> f in arities && s.fns[f] == arities[f])
    && forall n :: n in table ==> SeenName(n, table[n], s, c)
  }

  lemma {:induction false} ExprSeen(e: Expr, e': Expr, table: Table, arities: Arities, s: Scope, c: Context)
    requires Sees(table, arities, s, c) && CheckExpr(e, table, arities) == Some((e', Scalar))
    ensures CExprOk(GenExpr(e'), s) <==> PortableExpr(e, c)
    decreases e, 1
  {
    match e
    case TensorIndex(_, row, col, _) =>
      ExprSeen(row, e'.row, table, arities, s, c);
      ExprSeen(col, e'.col, table, arities, s, c);
      IndexOk(e.name, GenExpr(e'.row), GenExpr(e'.col), e'.cols, s);
    case Unary(_, x) => ExprSeen(x, e'.operand, table, arities, s, c);
    case Binary(_, x, y) =>
      ExprSeen(x, e'.left, table, arities, s, c);
      ExprSeen(y, e'.right, table, arities, s, c);
    case Call(_, args) => ArgsSeen(args, e'.args, table, arities, s, c);
    case _ =>
  }

  lemma IndexOk(name: string, row: CExpr, col: CExpr, cols: int, s: Scope)
    ensures CExprOk(CIndex(name, CBinary(ADD, CBinary(MUL, row, CInt(cols)), col)), s) <==>
            s.IsArray(name) && 0 <= cols < FIRST_UNTYPED && CExprOk(row, s) && CExprOk(col, s)
  {
    var product := CBinary(MUL, row, CInt(cols));
    assert CExprOk(product, s) <==> CExprOk(row, s) && CExprOk(CInt(cols), s);
    assert CExprOk(CBinary(ADD, product, col), s) <==> CExprOk(product, s) && CExprOk(col, s);
  }

  lemma {:induction false} ArgsSeen(args: seq<Expr>, args': seq<Expr>, table: Table, arities: Arities, s: Scope, c: Context)
    requires Sees(table, arities, s, c) && CheckArgs(args, table, arities) == Some(args')
    ensures CArgsOk(GenArgs(args'), s) <==> PortableArgs(args, c)
    decreases args, 0
  {
    if args != [] {
      assert args'[1..] == CheckArgs(args[1..], table, arities).value;
      ExprSeen(args[0], args'[0], table, arities, s, c);
      ArgsSeen(args[1..], args'[1..], table, arities, s, c);
      assert GenArgs(args')[1..] == GenArgs(args'[1..]);
    }
  }

  // ----- statements -----

  /** The symbols and scopes after a statement both sides accept. */
  ghost predicate SeenAfter(s: Stmt, s': Stmt, table': Table, arities: Arities, cs: Scope, c: Context)
  {
    && (CStmtOk(GenStmt(s'), cs) <==> PortableStmt(s, c))
    && (PortableStmt(s, c) ==> Seen(table', arities, CAfter(GenStmt(s'), cs), Declared(s, c)))
  }

  lemma {:induction false} StmtSeen(s: Stmt, s': Stmt, table: Table, table': Table, arities: Arities, cs: Scope, c: Context)
    requires Seen(table, arities, cs, c) && CheckStmt(s, table, arities) == Some((s', table'))
    ensures SeenAfter(s, s', table', arities, cs, c)
    decreases s, 1
  {
    hide Seen;
    hide SeenAfter;
    hide CheckStmt;
    if !s.TensorDecl? && !s.VarDecl? { CheckedParts(s, table, arities); }
    match s
    case TensorDecl(_, _, _, _) => TensorSeen(s, s', table, table', arities, cs, c);
    case VarDecl(_, _) => VarSeen(s, s', table, table', arities, cs, c);
    case Assign(_, _) => AssignSeen(s, s', table, arities, cs, c);
    case Gemm(_, _, _, _, _, _) => GemmSeen(s, s', table, arities, cs, c);
    case Print(text) => PrintSeen(s, table, arities, cs, c);
    case If(_, _, _) => IfSeen(s, s', table, arities, cs, c);
    case While(_, _) => WhileSeen(s, s', table, arities, cs, c);
    case For(_, _, _, _) => ForSeen(s, s', table, table', arities, cs, c);
    case Return(_) => ReturnSeen(s, s', table, arities, cs, c);
    case ExprStmt(_) => ExprStmtSeen(s, s', table, arities, cs, c);
  }

  lemma CheckedParts(s: Stmt, table: Table, arities: Arities)
    requires CheckStmt(s, table, arities).Some? && !s.TensorDecl? && !s.VarDecl?
    ensures CheckStmt(s, table, arities).value.1 == table
    ensures s.Print? ==> CheckStmt(s, table, arities).value.0 == s
  {
  }

  lemma {:induction false} IfSeen(s: Stmt, s': Stmt, table: Table, arities: Arities, cs: Scope, c: Context)
    requires s.If? && Seen(table, arities, cs, c) && CheckStmt(s, table, arities) == Some((s', table))
    ensures SeenAfter(s, s', table, arities, cs, c)
    decreases s, 0
  {
    hide Seen;
    hide PortableExpr;
    hide CExprOk;
    hide CheckExpr;
    hide GenExpr;
    hide CheckStmt;
    hide GenStmt;
    IfParts(s, s', table, arities, cs, c);
    SeenSees(table, arities, cs, c);
    InnerSeen(table, arities, cs, c);
    ExprSeen(s.cond, s'.cond, table, arities, cs, c);
    BlockSeen(s.thn, table, arities, cs.Inner(), c);
    if s.els.ElseBlock? { BlockSeen(s.els.items, table, arities, cs.Inner(), c); }
  }

  lemma IfParts(s: Stmt, s': Stmt, table: Table, arities: Arities, cs: Scope, c: Context)
    requires s.If? && CheckStmt(s, table, arities) == Some((s', table))
    ensures s'.If? && CheckExpr(s.cond, table, arities) == Some((s'.cond, Scalar))
    ensures CheckBlock(s.thn, table, arities).Some? && CheckBlock(s.thn, table, arities).value.0 == s'.thn
    ensures s.els.NoElse? <==> s'.els.NoElse?
    ensures s.els.ElseBlock? ==>
              CheckBlock(s.els.items, table, arities).Some? && CheckBlock(s.els.items, table, arities).value.0 == s'.els.items
    ensures GenStmt(s') == CIf(GenExpr(s'.cond), GenItems(s'.thn),
                               if s'.els.NoElse? then CNoElse else CElseBlock(GenItems(s'.els.items)))
    ensures CAfter(GenStmt(s'), cs) == cs && Declared(s, c) == c
  {
    hide CheckBlock;
    hide CheckExpr;
    hide GenItems;
    hide GenExpr;
  }

  lemma {:induction false} WhileSeen(s: Stmt, s': Stmt, table: Table, arities: Arities, cs: Scope, c: Context)
    requires s.While? && Seen(table, arities, cs, c) && CheckStmt(s, table, arities) == Some((s', table))
    ensures SeenAfter(s, s', table, arities, cs, c)
    decreases s, 0
  {
    hide Seen;
    hide PortableExpr;
    hide CExprOk;
    hide CheckExpr;
    hide GenExpr;
    SeenSees(table, arities, cs, c);
    InnerSeen(table, arities, cs, c);
    ExprSeen(s.cond, s'.cond, table, arities, cs, c);
    BlockSeen(s.body, table, arities, cs.Inner(), c);
  }

  lemma ReturnSeen(s: Stmt, s': Stmt, table: Table, arities: Arities, cs: Scope, c: Context)
    requires s.Return? && Seen(table, arities, cs, c) && CheckStmt(s, table, arities) == Some((s', table))
    ensures SeenAfter(s, s', table, arities, cs, c)
  {
    ExprSeen(s.value, s'.value, table, arities, cs, c);
  }

  lemma SeenSees(table: Table, arities: Arities, s: Scope, c: Context)
    requires Seen(table, arities, s, c)
    ensures Sees(table, arities, s, c)
  {
  }

  lemma TensorSeen(s: Stmt, s': Stmt, table: Table, table': Table, arities: Arities, cs: Scope, c: Context)
    requires s.TensorDecl? && Seen(table, arities, cs, c) && CheckStmt(s, table, arities) == Some((s', table'))
    ensures SeenAfter(s, s', table', arities, cs, c)
  {
    hide IsKeyword;
    hide FlattenInit;
    var (rows, cols) := ShapeOf(s.rows, s.cols, s.init).value;
    StorableCells(s.rows, s.cols, s.init);
    assert GenStmt(s') == CArray(s.name, rows * cols, FlattenInit(Some(rows), Some(cols), s.init));
    if Storable(s.rows, s.cols, s.init) {
      DeclaredSeen(table, arities, cs, c, s.name, Tensor(rows, cols));
    }
  }

  lemma StorableCells(rows: Option<int>, cols: Option<int>, init: Option<seq<seq<int>>>)
    requires ShapeOf(rows, cols, init).Some?
    ensures var (r, c) := ShapeOf(rows, cols, init).value;
            && (CCellsOk(r * c, FlattenInit(Some(r), Some(c), init)) <==> Storable(rows, cols, init))
            && (Storable(rows, cols, init) ==> Sized(r, c))
  {
    hide FlattenInit;
    hide ShapeOf;
    var (r, c) := ShapeOf(rows, cols, init).value;
    ShapeIsRight(rows, cols, init);
    AreaBounds(r, c);
    InitializerFills(r, c, init);
    InitializerValues(r, c, init);
  }

  lemma AreaBounds(r: int, c: int)
    requires r > 0 && c > 0
    ensures 0 < r * c && r <= r * c && c <= r * c
  {
  }

  lemma InitializerValues(r: int, c: int, init: Option<seq<seq<int>>>)
    requires r * c > 0
    ensures var cells := FlattenInit(Some(r), Some(c), init);
            (forall v :: v in cells ==> -FIRST_UNTYPED < v < FIRST_UNTYPED) <==>
            init.Some? ==> forall row, v :: row in init.value && v in row ==> -FIRST_UNTYPED < v < FIRST_UNTYPED
  {
    var cells := FlattenInit(Some(r), Some(c), init);
    if init.Some? {
      FlattenedValues(init.value);
      assert forall row, v :: row in init.value && v in row ==> v in cells;
    } else {
      assert forall v :: v in cells ==> v == 0;
    }
  }

  lemma {:induction false} FlattenedValues(rows: seq<seq<int>>)
    ensures forall v :: v in Flatten(rows) <==> exists row :: row in rows && v in row
  {
    if rows != [] {
      FlattenedValues(rows[1..]);
      assert rows == [rows[0]] + rows[1..];
    }
  }

  lemma VarSeen(s: Stmt, s': Stmt, table: Table, table': Table, arities: Arities, cs: Scope, c: Context)
    requires s.VarDecl? && Seen(table, arities, cs, c) && CheckStmt(s, table, arities) == Some((s', table'))
    ensures SeenAfter(s, s', table', arities, cs, c)
  {
    hide IsKeyword;
    DeclaredSeen(table, arities, cs, c, s.name, Scalar);
    ExprSeen(s.value, s'.value, table, arities, cs.Declare(s.name, NUMBER), c.Declare(s.name));
  }

  lemma AssignSeen(s: Stmt, s': Stmt, table: Table, arities: Arities, cs: Scope, c: Context)
    requires s.Assign? && Seen(table, arities, cs, c) && CheckStmt(s, table, arities) == Some((s', table))
    ensures SeenAfter(s, s', table, arities, cs, c)
  {
    ExprSeen(s.target, s'.target, table, arities, cs, c);
    ExprSeen(s.value, s'.value, table, arities, cs, c);
  }

  lemma GemmSeen(s: Stmt, s': Stmt, table: Table, arities: Arities, cs: Scope, c: Context)
    requires s.Gemm? && Seen(table, arities, cs, c) && CheckStmt(s, table, arities) == Some((s', table))
    ensures SeenAfter(s, s', table, arities, cs, c)
  {
  }

  lemma PrintSeen(s: Stmt, table: Table, arities: Arities, cs: Scope, c: Context)
    requires s.Print? && Seen(table, arities, cs, c)
    ensures SeenAfter(s, s, table, arities, cs, c)
  {
    UnescapeEscape(s.text);
    OneLine(s.text);
  }

  lemma {:induction false} OneLine(text: string)
    ensures '\n' !in Escape(text)
  {
    if text != "" { OneLine(text[1..]); }
  }

  lemma ExprStmtSeen(s: Stmt, s': Stmt, table: Table, arities: Arities, cs: Scope, c: Context)
    requires s.ExprStmt? && Seen(table, arities, cs, c) && CheckStmt(s, table, arities) == Some((s', table))
    ensures SeenAfter(s, s', table, arities, cs, c)
  {
    if !s.expr.VarRef? { ExprSeen(s.expr, s'.expr, table, arities, cs, c); }
  }

  lemma {:induction false} ForSeen(s: Stmt, s': Stmt, table: Table, table': Table, arities: Arities, cs: Scope, c: Context)
    requires s.For? && Seen(table, arities, cs, c) && CheckStmt(s, table, arities) == Some((s', table'))
    ensures SeenAfter(s, s', table', arities, cs, c)
    decreases s, 0
  {
    hide Seen;
    hide PortableExpr;
    hide CExprOk;
    hide CheckExpr;
    hide GenExpr;
    hide CheckStmt;
    hide CItemsOk;
    hide PortableItems;
    hide CheckBlock;
    hide GenItems;
    hide IsCExpression;
    hide SimplePart;
    hide GenStmt;
    hide CStmtOk;
    hide PortableStmt;
    hide CAfter;
    hide Declared;
    InnerSeen(table, arities, cs, c);
    ForParts(s, table, arities);
    ForForms(s, s', cs, c);
    var inner := cs.Inner();
    var local := CheckPart(s.start, table, arities).value.1;
    var local' := CheckPart(s.step, local, arities).value.1;
    if s.start.Some? {
      StmtSeen(s.start.value, s'.start.value, table, local, arities, inner, c);
      PartKind(s.start.value, s'.start.value, table, arities);
    }
    var c' := if s.start.Some? then Declared(s.start.value, c) else c;
    var cs' := if s.start.Some? then CAfter(GenStmt(s'.start.value), inner) else inner;
    if s.start.Some? ==> PortableStmt(s.start.value, c) {
      SeenSees(local, arities, cs', c');
      if s.test.Some? { ExprSeen(s.test.value, s'.test.value, local, arities, cs', c'); }
      if s.step.Some? {
        StmtSeen(s.step.value, s'.step.value, local, local', arities, cs', c');
        PartKind(s.step.value, s'.step.value, local, arities);
      }
      if s.step.Some? ==> SimplePart(s.step.value) && PortableStmt(s.step.value, c') {
        assert local' == local;
        InnerSeen(local', arities, cs', c');
        BlockSeen(s.body, local', arities, cs'.Inner(), c');
      }
    }
  }

  lemma ForParts(s: Stmt, table: Table, arities: Arities)
    requires s.For? && CheckStmt(s, table, arities).Some?
    ensures var s' := CheckStmt(s, table, arities).value.0;
            var start := CheckPart(s.start, table, arities);
            && s'.For? && start.Some? && start.value.0 == s'.start && CheckTest(s.test, start.value.1, arities) == Some(s'.test)
            && var step := CheckPart(s.step, start.value.1, arities);
            && step.Some? && step.value.0 == s'.step && CheckBlock(s.body, step.value.1, arities).Some?
            && CheckBlock(s.body, step.value.1, arities).value.0 == s'.body
            && CheckStmt(s, table, arities).value.1 == table
  {
    hide CheckBlock;
    hide CheckExpr;
  }

  /** Both conditions on a `for`, unfolded. */
  lemma ForForms(s: Stmt, s': Stmt, cs: Scope, c: Context)
    requires s.For? && s'.For? && (s'.start.Some? <==> s.start.Some?) && (s'.test.Some? <==> s.test.Some?)
    requires s'.step.Some? <==> s.step.Some?
    ensures CAfter(GenStmt(s'), cs) == cs && Declared(s, c) == c
    ensures var local := if s.start.Some? then CAfter(GenStmt(s'.start.value), cs.Inner()) else cs.Inner();
            CStmtOk(GenStmt(s'), cs) <==>
              && (s.start.Some? ==> (GenStmt(s'.start.value).CDeclare? || IsCExpression(GenStmt(s'.start.value)))
                                    && CStmtOk(GenStmt(s'.start.value), cs.Inner()))
              && (s.test.Some? ==> CExprOk(GenExpr(s'.test.value), local))
              && (s.step.Some? ==> IsCExpression(GenStmt(s'.step.value)) && CStmtOk(GenStmt(s'.step.value), local))
              && CItemsOk(GenItems(s'.body), local.Inner())
    ensures var local := if s.start.Some? then Declared(s.start.value, c) else c;
            PortableStmt(s, c) <==>
              && (s.start.Some? ==> (s.start.value.VarDecl? || SimplePart(s.start.value)) && PortableStmt(s.start.value, c))
              && (s.test.Some? ==> PortableExpr(s.test.value, local))
              && (s.step.Some? ==> SimplePart(s.step.value) && PortableStmt(s.step.value, local))
              && PortableItems(s.body, local)
  {
    hide GenExpr;
    hide CExprOk;
    hide PortableExpr;
    hide CItemsOk;
    hide PortableItems;
    hide GenItems;
    hide IsCExpression;
    hide SimplePart;
    var start, step := GenPart(s'.start), GenPart(s'.step);
    assert GenStmt(s') == CFor(start, if s'.test.None? then None else Some(GenExpr(s'.test.value)), step, GenItems(s'.body));
  }

  /** The emitted part of a `for` is of the kind C allows there exactly when the part is. */
  lemma PartKind(s: Stmt, s': Stmt, table: Table, arities: Arities)
    requires CheckStmt(s, table, arities).Some? && CheckStmt(s, table, arities).value.0 == s'
    ensures GenStmt(s').CDeclare? <==> s.VarDecl?
    ensures IsCExpression(GenStmt(s')) <==> SimplePart(s)
    ensures SimplePart(s) ==> CheckStmt(s, table, arities).value.1 == table
  {
    hide CheckBlock;
    hide CheckExpr;
    hide GenExpr;
  }

  lemma {:induction false} BlockSeen(items: seq<Stmt>, table: Table, arities: Arities, cs: Scope, c: Context)
    requires Seen(table, arities, cs, c) && CheckBlock(items, table, arities).Some?
    ensures CItemsOk(GenItems(CheckBlock(items, table, arities).value.0), cs) <==> PortableItems(items, c)
    decreases items, 0
  {
    hide Seen;
    hide CStmtOk;
    hide PortableStmt;
    hide CheckStmt;
    if items != [] {
      var items' := CheckBlock(items, table, arities).value.0;
      var (s', table') := CheckStmt(items[0], table, arities).value;
      assert items'[0] == s' && items'[1..] == CheckBlock(items[1..], table', arities).value.0;
      StmtSeen(items[0], s', table, table', arities, cs, c);
      assert GenItems(items')[1..] == GenItems(items'[1..]);
      if PortableStmt(items[0], c) {
        BlockSeen(items[1..], table', arities, CAfter(GenStmt(s'), cs), Declared(items[0], c));
      }
    }
  }

  lemma {:induction false} BodySeen(items: seq<Stmt>, table: Table, arities: Arities, cs: Scope, c: Context)
    requires Seen(table, arities, cs, c) && CheckBlock(items, table, arities).Some?
    ensures CItemsOk(GenBody(CheckBlock(items, table, arities).value.0), cs) <==> PortableItems(items, c)
  {
    hide Seen;
    hide CheckBlock;
    hide PortableItems;
    BlockSeen(items, table, arities, cs, c);
    ClosedOk(GenItems(CheckBlock(items, table, arities).value.0), cs);
  }

  /** `return 0` compiles anywhere. */
  lemma {:induction false} ClosedOk(items: seq<CStmt>, s: Scope)
    ensures CItemsOk(items + [CReturn(CInt(0))], s) <==> CItemsOk(items, s)
    ensures CItemsOk(items + [], s) <==> CItemsOk(items, s)
  {
    hide CStmtOk;
    assert items + [] == items;
    if items == [] {
      ReturnZeroOk(s);
      assert items + [CReturn(CInt(0))] == [CReturn(CInt(0))];
    } else {
      ClosedOk(items[1..], CAfter(items[0], s));
      assert (items + [CReturn(CInt(0))])[1..] == items[1..] + [CReturn(CInt(0))];
    }
  }

  lemma ReturnZeroOk(s: Scope)
    ensures CItemsOk([CReturn(CInt(0))], s)
  {
    assert CStmtOk(CReturn(CInt(0)), s);
  }

  // ----- programs -----

  lemma {:induction false} ParamsSeen(params: seq<string>, table: Table, arities: Arities, s: Scope, c: Context)
    requires Seen(table, arities, s, c) && BindParams(params, table).Some?
    ensures CParamsOk(params, s) <==> PortableParams(params, c)
    ensures Seen(BindParams(params, table).value, arities, CBindParams(params, s), WithParams(params, c))
  {
    hide IsKeyword;
    if params != [] {
      DeclaredSeen(table, arities, s, c, params[0], Scalar);
      ParamsSeen(params[1..], table[params[0] := Scalar], arities, s.Declare(params[0], NUMBER), c.Declare(params[0]));
    }
  }

  lemma {:induction false} CollectedGrow(decls: seq<Decl>, arities: Arities)
    requires CollectArities(decls, arities).Some?
    ensures var all := CollectArities(decls, arities).value;
            all.Keys == arities.Keys + FunctionNames(decls) && forall f :: f in arities ==> f in all && all[f] == arities[f]
  {
    if decls != [] {
      CollectedGrow(decls[1..], if decls[0].Statement? then arities
                                else arities[decls[0].fn.name := |decls[0].fn.params|]);
    }
  }

  /** A tensor yet to be declared is no name known so far. */
  lemma {:induction false} TensorsAreNew(decls: seq<Decl>, table: Table, arities: Arities)
    requires CheckDecls(decls, table, arities).Some?
    ensures forall n :: n in TensorNames(decls) ==> n !in table
  {
    hide CheckBlock;
    hide ShapeOf;
    if decls != [] {
      var table' := CheckDecl(decls[0], table, arities).value.1;
      TensorsAreNew(decls[1..], table', arities);
      if decls[0].Statement? { CheckStmtExtends(decls[0].stmt, table, arities); }
    }
  }

  /** File scope: the static arrays, and no function yet. */
  ghost predicate OnlyArrays(s: Scope, table: Table)
  {
    && s.here == s.vars.Keys <= table.Keys && "i32" !in s.vars && forall n :: n in s.vars ==> s.vars[n] == ARRAY
  }

  function Arrays(names: set<string>): map<string, Kind>
  {
    map n | n in names :: ARRAY
  }

  ghost predicate GlobalsMatch(decls: seq<Decl>, globals: seq<CStmt>, s: Scope)
  {
    && (CGlobalsOk(globals, s) <==> PortableTensors(decls))
    && (PortableTensors(decls) ==>
          && CAfterAll(globals, s) == Scope(s.vars + Arrays(TensorNames(decls)), s.here + TensorNames(decls), s.fns)
          && "i32" !in TensorNames(decls))
  }

  lemma {:induction false} GlobalsSeen(decls: seq<Decl>, table: Table, arities: Arities, s: Scope)
    requires CheckDecls(decls, table, arities).Some? && OnlyArrays(s, table)
    ensures GlobalsMatch(decls, GlobalsOf(CheckDecls(decls, table, arities).value.0), s)
  {
    hide CheckBlock;
    hide CheckStmt;
    hide CStmtOk;
    hide Storable;
    hide IsKeyword;
    hide IsProvided;
    hide FileName;
    hide CFileName;
    hide GenStmt;
    hide GlobalsMatch;
    if decls == [] {
      NoGlobals(s);
    } else {
      var decls' := CheckDecls(decls, table, arities).value.0;
      var (d', table') := CheckDecl(decls[0], table, arities).value;
      assert decls'[0] == d' && decls'[1..] == CheckDecls(decls[1..], table', arities).value.0;
      if decls[0].Statement? && decls[0].stmt.TensorDecl? {
        GlobalSeen(decls[0].stmt, table, arities, s);
        if FileName(decls[0].stmt.name) {
          GlobalsSeen(decls[1..], table', arities, s.Declare(decls[0].stmt.name, ARRAY));
        }
        GlobalFirst(decls, d', GlobalsOf(decls'[1..]), s);
        assert GlobalsOf(decls') == [GenStmt(d'.stmt)] + GlobalsOf(decls'[1..]);
      } else {
        if decls[0].Statement? { CheckStmtExtends(decls[0].stmt, table, arities); }
        GlobalsSeen(decls[1..], table', arities, s);
        GlobalSkipped(decls, GlobalsOf(decls'[1..]), s);
        SameKind(decls[0], table, arities);
      }
    }
  }

  lemma SameKind(d: Decl, table: Table, arities: Arities)
    requires CheckDecl(d, table, arities).Some?
    ensures var d' := CheckDecl(d, table, arities).value.0;
            (d.Statement? <==> d'.Statement?) && (d.Statement? ==> (d.stmt.TensorDecl? <==> d'.stmt.TensorDecl?))
  {
    hide CheckBlock;
    hide CheckExpr;
    hide ShapeOf;
  }

  lemma NoGlobals(s: Scope)
    ensures GlobalsMatch([], [], s)
  {
    assert s.vars + Arrays({}) == s.vars && s.here + {} == s.here;
  }

  lemma GlobalSkipped(decls: seq<Decl>, rest: seq<CStmt>, s: Scope)
    requires decls != [] && !(decls[0].Statement? && decls[0].stmt.TensorDecl?) && GlobalsMatch(decls[1..], rest, s)
    ensures GlobalsMatch(decls, rest, s)
  {
    hide CGlobalsOk;
    hide CAfterAll;
  }

  lemma GlobalFirst(decls: seq<Decl>, d': Decl, rest: seq<CStmt>, s: Scope)
    requires decls != [] && decls[0].Statement? && decls[0].stmt.TensorDecl? && d'.Statement?
    requires var name, c := decls[0].stmt.name, GenStmt(d'.stmt);
             && c.CArray? && c.name == name && CAfter(c, s) == s.Declare(name, ARRAY)
             && (CFileName(name, s) && CStmtOk(c, s) <==>
                 FileName(name) && Storable(decls[0].stmt.rows, decls[0].stmt.cols, decls[0].stmt.init))
             && (FileName(name) ==> name != "i32" && GlobalsMatch(decls[1..], rest, s.Declare(name, ARRAY)))
    ensures GlobalsMatch(decls, [GenStmt(d'.stmt)] + rest, s)
  {
    hide CStmtOk;
    hide Storable;
    hide FileName;
    hide CFileName;
    hide GenStmt;
    var name, c := decls[0].stmt.name, GenStmt(d'.stmt);
    assert ([c] + rest)[1..] == rest;
    if FileName(name) {
      var names := TensorNames(decls[1..]);
      assert TensorNames(decls) == {name} + names;
      assert s.Declare(name, ARRAY).vars + Arrays(names) == s.vars + Arrays({name} + names);
      assert s.Declare(name, ARRAY).here + names == s.here + ({name} + names);
    }
  }

  lemma GlobalSeen(s: Stmt, table: Table, arities: Arities, cs: Scope)
    requires s.TensorDecl? && CheckStmt(s, table, arities).Some? && OnlyArrays(cs, table)
    ensures var (s', table') := CheckStmt(s, table, arities).value;
            && s'.TensorDecl? && s'.name == s.name && s.name !in table && table'.Keys == table.Keys + {s.name}
            && GenStmt(s').CArray? && GenStmt(s').name == s.name && CAfter(GenStmt(s'), cs) == cs.Declare(s.name, ARRAY)
            && (CFileName(s.name, cs) && CStmtOk(GenStmt(s'), cs) <==> FileName(s.name) && Storable(s.rows, s.cols, s.init))
            && (FileName(s.name) ==> s.name != "i32" && OnlyArrays(cs.Declare(s.name, ARRAY), table'))
  {
    hide IsKeyword;
    hide ShapeOf;
    hide FlattenInit;
    var (rows, cols) := ShapeOf(s.rows, s.cols, s.init).value;
    StorableCells(s.rows, s.cols, s.init);
    hide Storable;
    hide CCellsOk;
    var s' := CheckStmt(s, table, arities).value.0;
    assert GenStmt(s') == CArray(s.name, rows * cols, FlattenInit(Some(rows), Some(cols), s.init));
    assert FileName(s.name) ==> s.name != "i32" by { ProvidedInt(); }
    hide IsProvided;
  }

  lemma ProvidedInt()
    ensures IsProvided("i32")
  {
    assert ["i8", "i16", "i32"][2] == "i32";
  }

  /** The top level between two declarations: C already has every array, and the functions above. */
  ghost predicate TopSeen(decls: seq<Decl>, table: Table, arities: Arities, s: Scope, c: Context)
  {
    && Seen(table, arities, s.Inner(), c) && PortableTensors(decls) && "i32" !in s.vars
    && forall n :: n in TensorNames(decls) ==> s.IsArray(n)
  }

  /** ... and nothing but arrays and functions. */
  ghost predicate FileSeen(decls: seq<Decl>, table: Table, arities: Arities, s: Scope, c: Context)
  {
    && TopSeen(decls, table, arities, s, c) && s.here == s.vars.Keys + s.fns.Keys
    && CollectArities(decls, s.fns) == Some(arities)
    && forall n :: n in s.vars ==> n in TensorNames(decls) || (n in table && table[n].Tensor?)
  }

  lemma TensorDeclared(s: Stmt, table: Table, arities: Arities)
    requires s.TensorDecl? && CheckStmt(s, table, arities).Some? && Storable(s.rows, s.cols, s.init)
    ensures var table' := CheckStmt(s, table, arities).value.1;
            && s.name in table' && table'[s.name].Tensor? && Sized(table'[s.name].rows, table'[s.name].cols)
            && table' == table[s.name := table'[s.name]]
  {
    hide ShapeOf;
    StorableCells(s.rows, s.cols, s.init);
  }

  /** The array of a tensor was there before its declaration. */
  lemma HoistedSeen(table: Table, arities: Arities, s: Scope, c: Context, name: string, ty: Type)
    requires Seen(table, arities, s, c) && name !in table && s.IsArray(name) && ty.Tensor? && Sized(ty.rows, ty.cols)
    ensures Seen(table[name := ty], arities, s, c)
  {
  }

  /** A top-level variable is no variable of a function. */
  lemma HiddenSeen(table: Table, arities: Arities, s: Scope, c: Context, name: string)
    requires Seen(table, arities, s, c) && name !in table && name !in s.vars
    ensures Seen(table[name := Scalar], arities, s, c.(hidden := c.hidden + {name}))
  {
  }

  lemma TensorsUnfolded(decls: seq<Decl>)
    requires decls != []
    ensures decls[0].Statement? && decls[0].stmt.TensorDecl? ==>
              && TensorNames(decls) == {decls[0].stmt.name} + TensorNames(decls[1..])
              && (PortableTensors(decls) ==> Storable(decls[0].stmt.rows, decls[0].stmt.cols, decls[0].stmt.init))
    ensures !(decls[0].Statement? && decls[0].stmt.TensorDecl?) ==> TensorNames(decls) == TensorNames(decls[1..])
    ensures PortableTensors(decls) ==> PortableTensors(decls[1..])
  {
    hide Storable;
    hide FileName;
  }

  lemma TopNamed(stmt: Stmt, table: Table, arities: Arities)
    requires CheckStmt(stmt, table, arities).Some?
    ensures var (s', table') := CheckStmt(stmt, table, arities).value;
            if stmt.TensorDecl? then
              && stmt.name !in table
              && (Storable(stmt.rows, stmt.cols, stmt.init) ==>
                    && stmt.name in table' && table'[stmt.name].Tensor?
                    && Sized(table'[stmt.name].rows, table'[stmt.name].cols)
                    && table' == table[stmt.name := table'[stmt.name]])
            else if stmt.VarDecl? then stmt.name !in table && table' == table[stmt.name := Scalar]
            else table' == table
  {
    hide ShapeOf;
    hide CheckBlock;
    hide CheckExpr;
    if stmt.TensorDecl? && Storable(stmt.rows, stmt.cols, stmt.init) { TensorDeclared(stmt, table, arities); }
  }

  /** What a top-level statement leaves for the declarations after it, inside functions. */
  lemma StatementPassed(decls: seq<Decl>, table: Table, arities: Arities, s: Scope, c: Context)
    requires decls != [] && decls[0].Statement? && CheckDecls(decls, table, arities).Some?
    requires FileSeen(decls, table, arities, s, c)
    ensures var stmt := decls[0].stmt;
            FileSeen(decls[1..], CheckDecl(decls[0], table, arities).value.1, arities, s,
                     if stmt.VarDecl? then c.(hidden := c.hidden + {stmt.name}) else c)
  {
    hide Storable;
    hide Seen;
    hide PortableTensors;
    hide TensorNames;
    hide CheckBlock;
    hide CheckStmt;
    var stmt := decls[0].stmt;
    var table' := CheckDecl(decls[0], table, arities).value.1;
    TensorsAreNew(decls, table, arities);
    TopNamed(stmt, table, arities);
    TensorsUnfolded(decls);
    if stmt.TensorDecl? {
      HoistedSeen(table, arities, s.Inner(), c, stmt.name, table'[stmt.name]);
    } else if stmt.VarDecl? {
      TensorsAreNew(decls[1..], table', arities);
      HiddenSeen(table, arities, s.Inner(), c, stmt.name);
    }
  }

  lemma FunctionPassed(decls: seq<Decl>, table: Table, arities: Arities, s: Scope, c: Context)
    requires decls != [] && decls[0].FunctionDecl? && FileSeen(decls, table, arities, s, c)
    ensures var fn := decls[0].fn;
            && fn.name !in s.fns
            && FileSeen(decls[1..], table, arities, s.Define(fn.name, |fn.params|), c.(callable := c.callable + {fn.name}))
            && Seen(table, arities, s.Define(fn.name, |fn.params|).Inner(), c.(callable := c.callable + {fn.name}))
  {
    hide PortableTensors;
    hide TensorNames;
    var fn := decls[0].fn;
    var s', c' := s.Define(fn.name, |fn.params|), c.(callable := c.callable + {fn.name});
    CollectedGrow(decls[1..], s'.fns);
    TensorsUnfolded(decls);
    assert Seen(table, arities, s'.Inner(), c');
  }

  lemma {:induction false} FunctionsSeen(decls: seq<Decl>, table: Table, arities: Arities, s: Scope, c: Context)
    requires CheckDecls(decls, table, arities).Some? && FileSeen(decls, table, arities, s, c)
    ensures var functions := GenFunctions(CheckDecls(decls, table, arities).value.0);
            && (CFunctionsOk(functions, s) <==> PortableFunctions(decls, c))
            && CDefineAll(functions, s).vars == s.vars && CDefineAll(functions, s).fns == arities
  {
    hide FileSeen;
    hide CheckBlock;
    hide CheckStmt;
    hide CItemsOk;
    hide CParamsOk;
    hide CFileName;
    hide FileName;
    hide PortableItems;
    hide PortableParams;
    hide GenBody;
    if decls == [] {
      NothingCollected(table, arities, s, c);
    } else {
      var decls' := CheckDecls(decls, table, arities).value.0;
      var (d', table') := CheckDecl(decls[0], table, arities).value;
      assert decls'[0] == d' && decls'[1..] == CheckDecls(decls[1..], table', arities).value.0;
      match decls[0]
      case Statement(stmt) =>
        StatementPassed(decls, table, arities, s, c);
        FunctionsSeen(decls[1..], table', arities, s, if stmt.VarDecl? then c.(hidden := c.hidden + {stmt.name}) else c);
      case FunctionDecl(fn) =>
        var s', c' := s.Define(fn.name, |fn.params|), c.(callable := c.callable + {fn.name});
        FunctionPassed(decls, table, arities, s, c);
        FunctionSeen(fn, d'.fn, table, arities, s, c);
        FileNameSeen(decls, table, arities, s, c);
        FunctionsSeen(decls[1..], table', arities, s', c');
        assert GenFunctions(decls') == [GenFunction(d'.fn)] + GenFunctions(decls'[1..]);
        assert GenFunctions(decls')[1..] == GenFunctions(decls'[1..]);
    }
  }

  lemma NothingCollected(table: Table, arities: Arities, s: Scope, c: Context)
    requires FileSeen([], table, arities, s, c)
    ensures s.fns == arities
  {
  }

  lemma FileNameSeen(decls: seq<Decl>, table: Table, arities: Arities, s: Scope, c: Context)
    requires decls != [] && decls[0].FunctionDecl? && FileSeen(decls, table, arities, s, c)
    ensures var name := decls[0].fn.name; CFileName(name, s) <==> FileName(name) && name !in c.names
  {
    hide IsKeyword;
    hide IsProvided;
    hide PortableTensors;
  }

  /** One function: its parameters and its body, seen from inside. */
  lemma FunctionSeen(fn: Function, fn': Function, table: Table, arities: Arities, s: Scope, c: Context)
    requires CheckDecl(FunctionDecl(fn), table, arities).Some?
    requires CheckDecl(FunctionDecl(fn), table, arities).value.0 == FunctionDecl(fn')
    requires var s', c' := s.Define(fn.name, |fn.params|), c.(callable := c.callable + {fn.name});
             Seen(table, arities, s'.Inner(), c')
    ensures var s', c' := s.Define(fn.name, |fn.params|).Inner(), c.(callable := c.callable + {fn.name});
            && fn'.name == fn.name && fn'.params == fn.params
            && (CParamsOk(fn.params, s') <==> PortableParams(fn.params, c'))
            && (CItemsOk(GenBody(fn'.body), CBindParams(fn.params, s')) <==> PortableItems(fn.body, WithParams(fn.params, c')))
  {
    hide Seen;
    hide CheckBlock;
    hide GenBody;
    hide CItemsOk;
    hide PortableItems;
    var s', c' := s.Define(fn.name, |fn.params|).Inner(), c.(callable := c.callable + {fn.name});
    ParamsSeen(fn.params, table, arities, s', c');
    BodySeen(fn.body, BindParams(fn.params, table).value, arities, CBindParams(fn.params, s'), WithParams(fn.params, c'));
  }

  // ----- user_main -----

  /** `user_main` between two top-level statements. */
  ghost predicate MainSeen(decls: seq<Decl>, table: Table, arities: Arities, s: Scope, c: Context)
  {
    && Seen(table, arities, s, c) && c.hidden == {} && PortableTensors(decls)
    && forall n :: n in TensorNames(decls) ==> s.IsArray(n)
  }

  lemma TensorPassed(decls: seq<Decl>, table: Table, arities: Arities, s: Scope, c: Context)
    requires decls != [] && decls[0].Statement? && decls[0].stmt.TensorDecl?
    requires CheckDecls(decls, table, arities).Some? && MainSeen(decls, table, arities, s, c)
    ensures MainSeen(decls[1..], CheckDecl(decls[0], table, arities).value.1, arities, s, c)
  {
    hide Storable;
    hide Seen;
    hide PortableTensors;
    hide CheckBlock;
    hide CheckStmt;
    var stmt := decls[0].stmt;
    TopNamed(stmt, table, arities);
    TensorsUnfolded(decls);
    HoistedSeen(table, arities, s, c, stmt.name, CheckDecl(decls[0], table, arities).value.1[stmt.name]);
  }

  lemma MainStepped(decls: seq<Decl>, table: Table, arities: Arities, s: Scope, c: Context)
    requires decls != [] && decls[0].Statement? && !decls[0].stmt.TensorDecl? && PortableStmt(decls[0].stmt, c)
    requires CheckDecls(decls, table, arities).Some? && MainSeen(decls, table, arities, s, c)
    ensures var (d', table') := CheckDecl(decls[0], table, arities).value;
            MainSeen(decls[1..], table', arities, CAfter(GenStmt(d'.stmt), s), Declared(decls[0].stmt, c))
  {
    hide Storable;
    hide CheckBlock;
    hide Seen;
    hide PortableStmt;
    hide CStmtOk;
    hide PortableTensors;
    hide CheckStmt;
    hide GenStmt;
    hide CAfter;
    var (d', table') := CheckDecl(decls[0], table, arities).value;
    StmtSeen(decls[0].stmt, d'.stmt, table, table', arities, s, c);
    AfterSeen(decls[0].stmt, table, arities, s, c);
    TopNamed(decls[0].stmt, table, arities);
    TensorsAreNew(decls[1..], table', arities);
    TensorsUnfolded(decls);
  }

  /** A statement that declares no tensor leaves the arrays of other names. */
  lemma AfterSeen(stmt: Stmt, table: Table, arities: Arities, s: Scope, c: Context)
    requires CheckStmt(stmt, table, arities).Some? && !stmt.TensorDecl?
    ensures var s' := CAfter(GenStmt(CheckStmt(stmt, table, arities).value.0), s);
            && s' == (if stmt.VarDecl? then s.Declare(stmt.name, NUMBER) else s)
            && Declared(stmt, c).hidden == c.hidden
  {
    hide CheckBlock;
    hide CheckExpr;
    hide GenExpr;
  }

  lemma {:induction false} MainIsSeen(decls: seq<Decl>, table: Table, arities: Arities, s: Scope, c: Context)
    requires CheckDecls(decls, table, arities).Some? && MainSeen(decls, table, arities, s, c)
    ensures CItemsOk(GenItems(MainItems(CheckDecls(decls, table, arities).value.0)), s) <==> PortableMain(decls, c)
  {
    hide MainSeen;
    hide CheckBlock;
    hide CheckStmt;
    hide CStmtOk;
    hide PortableStmt;
    hide GenStmt;
    hide CAfter;
    if decls != [] {
      var decls' := CheckDecls(decls, table, arities).value.0;
      var (d', table') := CheckDecl(decls[0], table, arities).value;
      assert decls'[0] == d' && decls'[1..] == CheckDecls(decls[1..], table', arities).value.0;
      SameKind(decls[0], table, arities);
      if decls[0].FunctionDecl? {
        FunctionSkipped(decls, table, arities, s, c);
        MainIsSeen(decls[1..], table', arities, s, c);
      } else if decls[0].stmt.TensorDecl? {
        TensorPassed(decls, table, arities, s, c);
        MainIsSeen(decls[1..], table', arities, s, c);
      } else {
        MainStmtSeen(decls, table, arities, s, c);
        if PortableStmt(decls[0].stmt, c) {
          MainStepped(decls, table, arities, s, c);
          MainIsSeen(decls[1..], table', arities, CAfter(GenStmt(d'.stmt), s), Declared(decls[0].stmt, c));
        }
        var items, rest := MainItems(decls'), MainItems(decls'[1..]);
        assert items == [d'.stmt] + rest && items[1..] == rest;
        assert GenItems(items) == [GenStmt(d'.stmt)] + GenItems(rest) && GenItems(items)[1..] == GenItems(rest);
      }
    }
  }

  lemma FunctionSkipped(decls: seq<Decl>, table: Table, arities: Arities, s: Scope, c: Context)
    requires decls != [] && decls[0].FunctionDecl? && MainSeen(decls, table, arities, s, c)
    ensures MainSeen(decls[1..], table, arities, s, c)
  {
    hide Seen;
  }

  lemma MainStmtSeen(decls: seq<Decl>, table: Table, arities: Arities, s: Scope, c: Context)
    requires decls != [] && decls[0].Statement? && !decls[0].stmt.TensorDecl?
    requires CheckDecls(decls, table, arities).Some? && MainSeen(decls, table, arities, s, c)
    ensures CStmtOk(GenStmt(CheckDecl(decls[0], table, arities).value.0.stmt), s) <==> PortableStmt(decls[0].stmt, c)
  {
    hide Seen;
    hide CheckBlock;
    hide PortableStmt;
    hide CStmtOk;
    var (d', table') := CheckDecl(decls[0], table, arities).value;
    StmtSeen(decls[0].stmt, d'.stmt, table, table', arities, s, c);
  }

  // ----- the condition is exact -----

  /** An accepted program becomes C that compiles exactly when it is portable. */
  lemma CompilesWhenPortable(decls: seq<Decl>)
    requires Analyze(decls).Some?
    ensures CProgramOk(Generated(Analyze(decls).value.0)) <==> PortableProgram(decls)
  {
    hide CheckDecls;
    hide CollectArities;
    hide CFunctionsOk;
    hide PortableFunctions;
    hide PortableTensors;
    hide CGlobalsOk;
    hide CAfterAll;
    hide CDefineAll;
    hide CItemsOk;
    hide GenFunctions;
    hide GlobalsOf;
    hide MainItems;
    hide GenItems;
    hide PortableMain;
    hide TensorNames;
    hide FileSeen;
    hide MainSeen;
    var decls' := Analyze(decls).value.0;
    var arities := CollectArities(decls, map[]).value;
    var tensors := TensorNames(decls);
    var empty := Scope(map[], {}, map[]);
    var file := Scope(Arrays(tensors), tensors, map[]);
    GlobalsSeen(decls, map[], arities, empty);
    if PortableTensors(decls) {
      assert CAfterAll(GlobalsOf(decls'), empty) == file by {
        assert empty.vars + Arrays(tensors) == Arrays(tensors) && empty.here + tensors == tensors;
      }
      StartSeen(decls, arities);
      FunctionsSeen(decls, map[], arities, file, Context(tensors, {}, {}));
      var inside := CDefineAll(GenFunctions(decls'), file).Inner();
      assert inside == Scope(Arrays(tensors), {}, arities);
      MainIsSeen(decls, map[], arities, inside, Context(tensors, {}, FunctionNames(decls)));
      ClosedOk(GenItems(MainItems(decls')), inside);
    }
  }

  lemma StartSeen(decls: seq<Decl>, arities: Arities)
    requires PortableTensors(decls) && CollectArities(decls, map[]) == Some(arities) && "i32" !in TensorNames(decls)
    ensures var tensors := TensorNames(decls);
            && FileSeen(decls, map[], arities, Scope(Arrays(tensors), tensors, map[]), Context(tensors, {}, {}))
            && MainSeen(decls, map[], arities, Scope(Arrays(tensors), {}, arities), Context(tensors, {}, FunctionNames(decls)))
  {
    hide PortableTensors;
    hide TensorNames;
    CollectedGrow(decls, map[]);
  }
}
