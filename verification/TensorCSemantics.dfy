/** TensorC run on two-dimensional tensors.  The analysis' annotations are not looked at. */
module TensorCSemantics {
  import opened Options
  import opened Words
  import opened TensorAst
  import opened Sema
  import opened Evaluation

  type Grid = seq<seq<int>>

  datatype Value = Num(n: int) | Matrix(grid: Grid)

  type State = Store<Value>
  type Functions = map<string, Function>

  // ----- tensors -----

  predicate Rectangular(g: Grid, rows: int, cols: int)
  {
    |g| == rows && forall r :: 0 <= r < rows ==> |g[r]| == cols
  }

  function Zeros(rows: int, cols: int): Grid
    requires rows >= 0 && cols >= 0
  {
    seq(rows, _ => seq(cols, _ => 0))
  }

  /** Element (i, j) of the product, over the first `count` inner indices. */
  function GridDot(a: Grid, b: Grid, i: nat, j: nat, count: nat): int
    requires i < |a| && count <= |a[i]| && count <= |b| && Wider(b, j)
  {
    if count == 0 then 0 else GridDot(a, b, i, j, count - 1) + a[i][count - 1] * b[count - 1][j]
  }

  predicate Wider(g: Grid, j: nat)
  {
    forall r :: 0 <= r < |g| ==> j < |g[r]|
  }

  function Product(a: Grid, b: Grid, m: nat, n: nat, k: nat): Grid
    requires Rectangular(a, m, k) && Rectangular(b, k, n)
  {
    seq(m, i requires 0 <= i < m => seq(n, j requires 0 <= j < n => GridDot(a, b, i, j, k)))
  }

  predicate AllInt32(g: Grid)
  {
    forall r, c :: 0 <= r < |g| && 0 <= c < |g[r]| ==> IsInt32(g[r][c])
  }

  /** The tensor a declaration creates: its shape is that of its initializer, or the declared one.  A tensor of 2^31
      elements or more, and an element outside 32 bits, have no meaning. */
  function Declare(rows: Option<int>, cols: Option<int>, init: Option<Grid>): Option<Grid>
  {
    match ShapeOf(rows, cols, init)
    case Some((r, c)) =>
      var grid := if init.Some? then init.value else Zeros(r, c);
      if r * c < TWO31 && AllInt32(grid) then Some(grid) else None
    case None => None
  }

  function GridOf(v: Option<Value>): Result<Grid>
  {
    if v.Some? && v.value.Matrix? then Ok(v.value.grid) else Stuck(if v.None? then UNDECLARED else MISFIT)
  }

  /** gemm writes the product of its first two operands to the third; the shapes must agree.  Writing an operand has a
      meaning only as far as tiling allows. */
  function Multiply(st: State, a: string, b: string, c: string): Result<State>
  {
    var ga :- GridOf(st.Lookup(a));
    var gb :- GridOf(st.Lookup(b));
    var gc :- GridOf(st.Lookup(c));
    var m, k := |ga|, |gb|;
    if m == 0 || k == 0 then Stuck(MISFIT) else
    var n := |gb[0]|;
    if !Rectangular(ga, m, k) || !Rectangular(gb, k, n) || !Rectangular(gc, m, n) then Stuck(MISFIT) else
    if !GemmDefined(a, b, c, m, n, k) then Stuck(OVERWRITTEN) else
    var product := Product(ga, gb, m, n, k);
    if AllInt32(product) then Ok(st.Assigned(c, Matrix(product))) else Stuck(ARITHMETIC)
  }

  // ----- expressions -----

  function BindArgs(params: seq<string>, args: seq<int>): map<string, Value>
    requires |params| == |args|
  {
    if params == [] then map[] else BindArgs(params[1..], args[1..])[params[0] := Num(args[0])]
  }

  function Eval(e: Expr, st: State, fns: Functions, fuel: nat): Result<(int, State)>
    decreases fuel, e, 1
  {
    match e
    case IntLiteral(v) => if IsInt32(v) then Ok((v, st)) else Stuck(ARITHMETIC)
    case VarRef(name) =>
      var v := st.Lookup(name);
      if v.Some? && v.value.Num? then Ok((v.value.n, st)) else Stuck(if v.None? then UNDECLARED else MISFIT)
    case TensorIndex(name, row, col, _) =>
      var ((r, c), st1) :- EvalPlace(e, st, fns, fuel);
      Ok((st1.Lookup(name).value.grid[r][c], st1))
    case Unary(op, x) =>
      var (v, st1) :- Eval(x, st, fns, fuel);
      var r :- Lift(ApplyUnary(op, v), ARITHMETIC);
      Ok((r, st1))
    case Binary(op, x, y) =>
      var (v, st1) :- Eval(x, st, fns, fuel);
      var (w, st2) :- Eval(y, st1, fns, fuel);
      var r :- Lift(ApplyBinary(op, v, w), ARITHMETIC);
      Ok((r, st2))
    case Call(name, args) =>
      var (vs, st1) :- EvalArgs(args, st, fns, fuel);
      if name !in fns || |fns[name].params| != |vs| then Stuck(MISFIT)
      else if fuel == 0 then Timeout
      else
        var callee := Store(st1.globals, BindArgs(fns[name].params, vs), st1.out);
        var flow :- ExecBlock(fns[name].body, callee, fns, fuel - 1);
        match flow
        case Returned(v, st2) => Ok((v, st2.Returning(st1)))
        case Next(st2) => Ok((0, st2.Returning(st1)))
  }

  /** The indexes of an element; one that is out of range has no meaning as soon as it is known. */
  function EvalPlace(e: Expr, st: State, fns: Functions, fuel: nat): (res: Result<((int, int), State)>)
    requires e.TensorIndex?
    ensures res.Ok? ==> var ((r, c), st1) := res.value; InRange(st1.Lookup(e.name), r, c)
    decreases fuel, e, 0
  {
    var (r, st1) :- Eval(e.row, st, fns, fuel);
    if !RowInRange(st1.Lookup(e.name), r) then Stuck(Unplaced(st1.Lookup(e.name))) else
    var (c, st2) :- Eval(e.col, st1, fns, fuel);
    if InRange(st2.Lookup(e.name), r, c) then Ok(((r, c), st2)) else Stuck(Unplaced(st2.Lookup(e.name)))
  }

  /** Why there is no element at a place. */
  function Unplaced(v: Option<Value>): Cause
  {
    if v.None? then UNDECLARED else if v.value.Num? then MISFIT else INDEX
  }

  predicate RowInRange(v: Option<Value>, r: int)
  {
    v.Some? && v.value.Matrix? && 0 <= r < |v.value.grid|
  }

  predicate InRange(v: Option<Value>, r: int, c: int)
  {
    RowInRange(v, r) && 0 <= c < |v.value.grid[r]|
  }

  function EvalArgs(args: seq<Expr>, st: State, fns: Functions, fuel: nat): Result<(seq<int>, State)>
    decreases fuel, args, 0
  {
    if args == [] then Ok(([], st)) else
    var (v, st1) :- Eval(args[0], st, fns, fuel);
    var (vs, st2) :- EvalArgs(args[1..], st1, fns, fuel);
    Ok(([v] + vs, st2))
  }

  // ----- statements -----

  function ExecAssign(target: Expr, value: Expr, st: State, fns: Functions, fuel: nat): Result<State>
    decreases fuel, Assign(target, value), 0
  {
    match target
    case VarRef(name) =>
      var (v, st1) :- Eval(value, st, fns, fuel);
      var before := st1.Lookup(name);
      if before.Some? && before.value.Num? then Ok(st1.Assigned(name, Num(v)))
      else Stuck(if before.None? then UNDECLARED else MISFIT)
    case TensorIndex(name, _, _, _) =>
      var ((r, c), st2) :- EvalPlace(target, st, fns, fuel);
      var (v, st3) :- Eval(value, st2, fns, fuel);
      if !InRange(st3.Lookup(name), r, c) then Stuck(Unplaced(st3.Lookup(name))) else
      var g := st3.Lookup(name).value.grid;
      Ok(st3.Assigned(name, Matrix(g[r := g[r][c := v]])))
    case _ => Stuck(UNASSIGNABLE)
  }

  function Exec(s: Stmt, st: State, fns: Functions, fuel: nat): Result<Flow<Value>>
    decreases fuel, s, 2
  {
    match s
    case TensorDecl(name, rows, cols, init) =>
      var g :- Lift(Declare(rows, cols, init), if ShapeOf(rows, cols, init).None? then MISFIT else ARITHMETIC);
      Ok(Next(st.Declared(name, Matrix(g))))
    case VarDecl(name, value) =>
      var (v, st1) :- Eval(value, st, fns, fuel);
      Ok(Next(st1.Declared(name, Num(v))))
    case Assign(target, value) =>
      var st1 :- ExecAssign(target, value, st, fns, fuel);
      Ok(Next(st1))
    case Gemm(a, b, c, _, _, _) =>
      var st1 :- Multiply(st, a, b, c);
      Ok(Next(st1))
    case Print(text) => Ok(Next(st.(out := st.out + text)))
    case If(cond, thn, els) =>
      var (v, st1) :- Eval(cond, st, fns, fuel);
      if v != 0 then Scoped(thn, st1, fns, fuel)
      else if els.NoElse? then Ok(Next(st1)) else Scoped(els.items, st1, fns, fuel)
    case While(cond, body) =>
      var (v, st1) :- Eval(cond, st, fns, fuel);
      if v == 0 then Ok(Next(st1)) else
      var flow :- Scoped(body, st1, fns, fuel);
      if flow.Returned? then Ok(flow) else if fuel == 0 then Timeout else Exec(s, flow.st, fns, fuel - 1)
    case For(start, test, step, body) =>
      var flow :- ExecPart(start, st, fns, fuel);
      if flow.Returned? then Ok(flow) else
      var end :- Repeat(s, flow.st, fns, fuel);
      Ok(end.(st := end.st.Leaving(st)))
    case Return(value) =>
      var (v, st1) :- Eval(value, st, fns, fuel);
      Ok(Returned(v, st1))
    case ExprStmt(expr) =>
      if expr.VarRef? && st.Lookup(expr.name).Some? then Ok(Next(st)) else
      var (_, st1) :- Eval(expr, st, fns, fuel);
      Ok(Next(st1))
  }

  /** The rounds of a for loop whose start part has run. */
  function Repeat(s: Stmt, st: State, fns: Functions, fuel: nat): Result<Flow<Value>>
    requires s.For?
    decreases fuel, s, 1
  {
    var (v, st1) :- EvalTest(s.test, st, fns, fuel);
    if v == 0 then Ok(Next(st1)) else
    var flow :- Round(s, st1, fns, fuel);
    if flow.Returned? then Ok(flow) else if fuel == 0 then Timeout else Repeat(s, flow.st, fns, fuel - 1)
  }

  /** One round: the body in its own scope, then the step. */
  function Round(s: Stmt, st: State, fns: Functions, fuel: nat): Result<Flow<Value>>
    requires s.For?
    decreases fuel, s, 0
  {
    var flow :- Scoped(s.body, st, fns, fuel);
    if flow.Returned? then Ok(flow) else ExecPart(s.step, flow.st, fns, fuel)
  }

  /** A missing test is true. */
  function EvalTest(test: Option<Expr>, st: State, fns: Functions, fuel: nat): Result<(int, State)>
    decreases fuel, test, 0
  {
    if test.None? then Ok((1, st)) else Eval(test.value, st, fns, fuel)
  }

  function ExecPart(part: Option<Stmt>, st: State, fns: Functions, fuel: nat): Result<Flow<Value>>
    decreases fuel, part, 0
  {
    if part.None? then Ok(Next(st)) else Exec(part.value, st, fns, fuel)
  }

  function Scoped(items: seq<Stmt>, st: State, fns: Functions, fuel: nat): Result<Flow<Value>>
    decreases fuel, items, 1
  {
    var flow :- ExecBlock(items, st, fns, fuel);
    Ok(flow.(st := flow.st.Leaving(st)))
  }

  function ExecBlock(items: seq<Stmt>, st: State, fns: Functions, fuel: nat): Result<Flow<Value>>
    decreases fuel, items, 0
  {
    if items == [] then Ok(Next(st)) else
    var flow :- Exec(items[0], st, fns, fuel);
    if flow.Returned? then Ok(flow) else ExecBlock(items[1..], flow.st, fns, fuel)
  }

  // ----- programs -----

  function FunctionsOf(decls: seq<Decl>): Functions
  {
    if decls == [] then map[]
    else if decls[0].FunctionDecl? then FunctionsOf(decls[1..])[decls[0].fn.name := decls[0].fn]
    else FunctionsOf(decls[1..])
  }

  /** Top-level statements in order; a top-level tensor is global from its declaration on. */
  function ExecTop(decls: seq<Decl>, st: State, fns: Functions, fuel: nat): Result<Flow<Value>>
    decreases decls
  {
    if decls == [] then Ok(Next(st))
    else if decls[0].FunctionDecl? then ExecTop(decls[1..], st, fns, fuel)
    else match decls[0].stmt
      case TensorDecl(name, rows, cols, init) =>
        var g :- Lift(Declare(rows, cols, init), if ShapeOf(rows, cols, init).None? then MISFIT else ARITHMETIC);
        ExecTop(decls[1..], st.(globals := st.globals[name := Matrix(g)]), fns, fuel)
      case s =>
        var flow :- Exec(s, st, fns, fuel);
        if flow.Returned? then Ok(flow) else ExecTop(decls[1..], flow.st, fns, fuel)
  }

  /** The exit code and the final state of a program; one that ends without a return exits with 0. */
  function Run(decls: seq<Decl>, fuel: nat): Result<(int, State)>
  {
    var flow :- ExecTop(decls, Store(map[], map[], ""), FunctionsOf(decls), fuel);
    Ok((if flow.Returned? then flow.value else 0, flow.st))
  }
}
