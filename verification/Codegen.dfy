/** The C generator (src/maps-compiler/tensorc/codegen_c.py), from annotated TensorC to the C syntax tree. */
module Codegen {
  import opened Options
  import opened TensorAst
  import opened CTarget
  import opened CStrings

  // ----- expressions -----

  /** A two-dimensional index becomes `name[(row) * cols + (col)]`. */
  function GenExpr(e: Expr): CExpr
  {
    match e
    case IntLiteral(v) => CInt(v)
    case VarRef(name) => CVar(name)
    case TensorIndex(name, row, col, cols) =>
      CIndex(name, CBinary(ADD, CBinary(MUL, GenExpr(row), CInt(cols)), GenExpr(col)))
    case Unary(op, x) => CUnary(op, GenExpr(x))
    case Binary(op, x, y) => CBinary(op, GenExpr(x), GenExpr(y))
    case Call(name, args) => CCall(name, GenArgs(args))
  }

  function GenArgs(args: seq<Expr>): (r: seq<CExpr>)
    ensures |r| == |args|
  {
    if args == [] then [] else [GenExpr(args[0])] + GenArgs(args[1..])
  }

  // ----- statements -----

  function Flatten(rows: seq<seq<int>>): seq<int>
  {
    if rows == [] then [] else rows[0] + Flatten(rows[1..])
  }

  function Count(rows: Option<int>, cols: Option<int>): int
  {
    if rows.Some? && cols.Some? then rows.value * cols.value else 0
  }

  function FlattenInit(rows: Option<int>, cols: Option<int>, init: Option<seq<seq<int>>>): seq<int>
  {
    if init.Some? then Flatten(init.value)
    else if Count(rows, cols) < 0 then [] else seq(Count(rows, cols), _ => 0)
  }

  function GenTensor(name: string, rows: Option<int>, cols: Option<int>, init: Option<seq<seq<int>>>): CStmt
  {
    CArray(name, Count(rows, cols), FlattenInit(rows, cols, init))
  }

  function GenStmt(s: Stmt): CStmt
    decreases s, 1
  {
    match s
    case TensorDecl(name, rows, cols, init) => GenTensor(name, rows, cols, init)
    case VarDecl(name, value) => CDeclare(name, GenExpr(value))
    case Assign(target, value) => CAssign(GenExpr(target), GenExpr(value))
    case Gemm(a, b, c, m, n, k) => CGemm(a, b, c, m, n, k)
    case Print(text) => CPrint(Escape(text))
    case If(cond, thn, els) =>
      CIf(GenExpr(cond), GenItems(thn), if els.NoElse? then CNoElse else CElseBlock(GenItems(els.items)))
    case While(cond, body) => CWhile(GenExpr(cond), GenItems(body))
    case For(start, test, step, body) =>
      CFor(GenPart(start), if test.None? then None else Some(GenExpr(test.value)), GenPart(step), GenItems(body))
    case Return(value) => CReturn(GenExpr(value))
    case ExprStmt(expr) => CExprStmt(GenExpr(expr))
  }

  function GenPart(part: Option<Stmt>): Option<CStmt>
    decreases part, 0
  {
    if part.None? then None else Some(GenStmt(part.value))
  }

  function GenItems(items: seq<Stmt>): (r: seq<CStmt>)
    ensures |r| == |items|
    decreases items, 0
  {
    if items == [] then [] else [GenStmt(items[0])] + GenItems(items[1..])
  }

  /** A return among the statements themselves, not inside one of them. */
  predicate HasReturn(items: seq<Stmt>)
  {
    exists i :: 0 <= i < |items| && items[i].Return?
  }

  /** A body without such a return is closed by `return 0`. */
  function GenBody(items: seq<Stmt>): seq<CStmt>
  {
    GenItems(items) + if HasReturn(items) then [] else [CReturn(CInt(0))]
  }

  // ----- programs -----

  function GenFunction(fn: Function): CFunction
  {
    CFunction(fn.name, fn.params, GenBody(fn.body))
  }

  function GlobalsOf(decls: seq<Decl>): seq<CStmt>
  {
    if decls == [] then []
    else if decls[0].Statement? && decls[0].stmt.TensorDecl? then [GenStmt(decls[0].stmt)] + GlobalsOf(decls[1..])
    else GlobalsOf(decls[1..])
  }

  function GenFunctions(decls: seq<Decl>): seq<CFunction>
  {
    if decls == [] then []
    else if decls[0].FunctionDecl? then [GenFunction(decls[0].fn)] + GenFunctions(decls[1..])
    else GenFunctions(decls[1..])
  }

  function MainItems(decls: seq<Decl>): seq<Stmt>
  {
    if decls == [] then []
    else if decls[0].Statement? && !decls[0].stmt.TensorDecl? then [decls[0].stmt] + MainItems(decls[1..])
    else MainItems(decls[1..])
  }

  /** Top-level tensors become static arrays, functions follow, and the other statements are `user_main`. */
  function Generated(decls: seq<Decl>): CProgram
  {
    CProgram(GlobalsOf(decls), GenFunctions(decls), GenBody(MainItems(decls)))
  }

  // ----- the generator's loops -----

  method EmitBlockItems(items: seq<Stmt>) returns (lines: seq<CStmt>, returned: bool)
    ensures lines == GenItems(items) && returned == HasReturn(items)
  {
    hide GenStmt;
    hide GenItems;
    hide HasReturn;
    lines, returned := [], false;
    NoItems(items);
    for i := 0 to |items|
      invariant lines + GenItems(items[i..]) == GenItems(items)
      invariant returned == HasReturn(items[..i])
    {
      GenItemsFirst(items, i);
      HasReturnLast(items, i);
      lines := lines + [GenStmt(items[i])];
      returned := returned || items[i].Return?;
    }
    assert items[..|items|] == items;
  }

  lemma NoItems(items: seq<Stmt>)
    ensures items[0..] == items && GenItems(items[|items|..]) == [] && !HasReturn(items[..0])
  {
  }

  lemma HasReturnLast(items: seq<Stmt>, i: nat)
    requires i < |items|
    ensures HasReturn(items[..i + 1]) <==> HasReturn(items[..i]) || items[i].Return?
  {
    assert items[..i + 1] == items[..i] + [items[i]];
  }

  lemma GenItemsFirst(items: seq<Stmt>, i: nat)
    requires i < |items|
    ensures GenItems(items[i..]) == [GenStmt(items[i])] + GenItems(items[i + 1..])
  {
    assert items[i..][1..] == items[i + 1..];
  }

  method EmitBody(items: seq<Stmt>) returns (lines: seq<CStmt>)
    ensures lines == GenBody(items)
  {
    var returned;
    lines, returned := EmitBlockItems(items);
    if !returned { lines := lines + [CReturn(CInt(0))]; }
  }

  method Generate(decls: seq<Decl>) returns (program: CProgram)
    ensures program == Generated(decls)
  {
    var globals := EmitGlobals(decls);
    var functions := EmitFunctions(decls);
    var mainBody := CollectMain(decls);
    var main := EmitBody(mainBody);
    program := CProgram(globals, functions, main);
  }

  method EmitGlobals(decls: seq<Decl>) returns (globals: seq<CStmt>)
    ensures globals == GlobalsOf(decls)
  {
    hide GenStmt;
    globals := [];
    for i := 0 to |decls|
      invariant globals + GlobalsOf(decls[i..]) == GlobalsOf(decls)
    {
      assert decls[i..][1..] == decls[i + 1..];
      if decls[i].Statement? && decls[i].stmt.TensorDecl? { globals := globals + [GenStmt(decls[i].stmt)]; }
    }
  }

  method EmitFunctions(decls: seq<Decl>) returns (functions: seq<CFunction>)
    ensures functions == GenFunctions(decls)
  {
    hide GenBody;
    functions := [];
    for i := 0 to |decls|
      invariant functions + GenFunctions(decls[i..]) == GenFunctions(decls)
    {
      assert decls[i..][1..] == decls[i + 1..];
      if decls[i].FunctionDecl? {
        var body := EmitBody(decls[i].fn.body);
        functions := functions + [CFunction(decls[i].fn.name, decls[i].fn.params, body)];
      }
    }
  }

  method CollectMain(decls: seq<Decl>) returns (items: seq<Stmt>)
    ensures items == MainItems(decls)
  {
    items := [];
    for i := 0 to |decls|
      invariant items + MainItems(decls[i..]) == MainItems(decls)
    {
      assert decls[i..][1..] == decls[i + 1..];
      if decls[i].Statement? && !decls[i].stmt.TensorDecl? { items := items + [decls[i].stmt]; }
    }
  }
}
