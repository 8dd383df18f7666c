/** The C the compiler emits, as a syntax tree with its own meaning over flat arrays. */
module CTarget {
  import opened Options
  import opened Words
  import opened RowMajor
  import opened TensorAst
  import opened Evaluation
  import opened CStrings

  datatype CExpr =
    | CInt(value: int)
    | CVar(name: string)
    | CIndex(name: string, index: CExpr)
    | CUnary(uop: UnaryOp, operand: CExpr)
    | CBinary(bop: BinaryOp, left: CExpr, right: CExpr)
    | CCall(name: string, args: seq<CExpr>)

  /** `CPrint` carries the text between the quotes of the string literal. */
  datatype CStmt =
    | CArray(name: string, count: int, values: seq<int>)
    | CDeclare(name: string, value: CExpr)
    | CAssign(target: CExpr, value: CExpr)
    | CGemm(a: string, b: string, c: string, m: int, n: int, k: int)
    | CPrint(literal: string)
    | CIf(cond: CExpr, thn: seq<CStmt>, els: CElse)
    | CWhile(cond: CExpr, body: seq<CStmt>)
    | CFor(start: Option<CStmt>, test: Option<CExpr>, step: Option<CStmt>, body: seq<CStmt>)
    | CReturn(value: CExpr)
    | CExprStmt(expr: CExpr)

  datatype CElse = CNoElse | CElseBlock(items: seq<CStmt>)

  datatype CFunction = CFunction(name: string, params: seq<string>, body: seq<CStmt>)

  datatype CProgram = CProgram(globals: seq<CStmt>, functions: seq<CFunction>, main: seq<CStmt>)

  datatype CValue = CNum(n: int) | Cells(cells: seq<int>)

  type CState = Store<CValue>
  type CFunctions = map<string, CFunction>

  /** C leaves open which operand, argument or side of an assignment comes first.  `Chosen` may pick differently at every
      place and in every state; `later` says whether what the list starts with is evaluated after the rest. */
  datatype Order = LeftFirst | Chosen(later: (seq<CExpr>, CState) -> bool)
  {
    predicate Swaps(operands: seq<CExpr>, st: CState)
    {
      Chosen? && later(operands, st)
    }
  }

  // ----- flat tensors -----

  /** Element (i, j) of the product of row-major arrays of inner width k and outer width n. */
  function FlatDot(a: seq<int>, b: seq<int>, i: int, j: int, n: int, k: int, count: nat): int
  {
    if count == 0 then 0
    else FlatDot(a, b, i, j, n, k, count - 1) + Peek(a, Flat(i, count - 1, k)) * Peek(b, Flat(count - 1, j, n))
  }

  /** What the NPU leaves in C: word i * n + j of the result is element (i, j) of the product. */
  function FlatProduct(a: seq<int>, b: seq<int>, m: nat, n: nat, k: nat): seq<int>
  {
    if m == 0 then [] else FlatProduct(a, b, m - 1, n, k) + seq(n, j requires 0 <= j < n => FlatDot(a, b, m - 1, j, n, k, k))
  }

  function CellsOf(v: Option<CValue>): Result<seq<int>>
  {
    if v.Some? && v.value.Cells? then Ok(v.value.cells) else Stuck(if v.None? then UNDECLARED else MISFIT)
  }

  /** `user_npu_gemm` on arrays of the sizes it is told; a size that is not positive, an output that is also an operand
      beyond `GemmDefined`, an array that is too short and a sum outside 32 bits have no meaning. */
  function NpuGemm(st: CState, a: string, b: string, c: string, m: int, n: int, k: int): Result<CState>
  {
    var xs :- CellsOf(st.Lookup(a));
    var ys :- CellsOf(st.Lookup(b));
    var zs :- CellsOf(st.Lookup(c));
    if !GemmDefined(a, b, c, m, n, k) then Stuck(OVERWRITTEN) else
    if m <= 0 || n <= 0 || k <= 0 || |xs| < m * k || |ys| < k * n || |zs| != m * n then Stuck(MISFIT) else
    var product := FlatProduct(xs, ys, m, n, k);
    if forall x :: 0 <= x < |product| ==> IsInt32(product[x]) then Ok(st.Assigned(c, Cells(product))) else Stuck(ARITHMETIC)
  }

  // ----- expressions -----

  function BindCArgs(params: seq<string>, args: seq<int>): map<string, CValue>
    requires |params| == |args|
  {
    if params == [] then map[] else BindCArgs(params[1..], args[1..])[params[0] := CNum(args[0])]
  }

  /** A name that denotes a variable or an array cannot be called. */
  function CEval(e: CExpr, st: CState, fns: CFunctions, order: Order, fuel: nat): Result<(int, CState)>
    decreases fuel, e, 1
  {
    match e
    case CInt(v) => if IsInt32(v) then Ok((v, st)) else Stuck(ARITHMETIC)
    case CVar(name) =>
      var v := st.Lookup(name);
      if v.Some? && v.value.CNum? then Ok((v.value.n, st)) else Stuck(if v.None? then UNDECLARED else MISFIT)
    case CIndex(name, index) =>
      var (x, st1) :- CEval(index, st, fns, order, fuel);
      var cells :- CellsOf(st1.Lookup(name));
      if 0 <= x < |cells| then Ok((cells[x], st1)) else Stuck(INDEX)
    case CUnary(op, x) =>
      var (v, st1) :- CEval(x, st, fns, order, fuel);
      var r :- Lift(ApplyUnary(op, v), ARITHMETIC);
      Ok((r, st1))
    case CBinary(op, x, y) =>
      var ((v, w), st1) :- CEvalOperands(e, st, fns, order, fuel);
      var r :- Lift(ApplyBinary(op, v, w), ARITHMETIC);
      Ok((r, st1))
    case CCall(name, args) =>
      var (vs, st1) :- CEvalArgs(args, st, fns, order, fuel);
      if st1.Lookup(name).Some? || name !in fns || |fns[name].params| != |vs| then Stuck(MISFIT)
      else if fuel == 0 then Timeout
      else
        var callee := Store(st1.globals, BindCArgs(fns[name].params, vs), st1.out);
        var flow :- CExecBlock(fns[name].body, callee, fns, order, fuel - 1);
        // A function that runs off its end returns no value to use.
        if flow.Returned? then Ok((flow.value, flow.st.Returning(st1))) else Stuck(MISFIT)
  }

  /** The operands of `e`, in one order or the other. */
  function CEvalOperands(e: CExpr, st: CState, fns: CFunctions, order: Order, fuel: nat): Result<((int, int), CState)>
    requires e.CBinary?
    decreases fuel, e, 0
  {
    if order.Swaps([e.left, e.right], st) then
      var (w, st1) :- CEval(e.right, st, fns, order, fuel);
      var (v, st2) :- CEval(e.left, st1, fns, order, fuel);
      Ok(((v, w), st2))
    else
      var (v, st1) :- CEval(e.left, st, fns, order, fuel);
      var (w, st2) :- CEval(e.right, st1, fns, order, fuel);
      Ok(((v, w), st2))
  }

  function CEvalArgs(args: seq<CExpr>, st: CState, fns: CFunctions, order: Order, fuel: nat): Result<(seq<int>, CState)>
    decreases fuel, args, 0
  {
    if args == [] then Ok(([], st)) else
    if order.Swaps(args, st) then
      var (vs, st1) :- CEvalArgs(args[1..], st, fns, order, fuel);
      var (v, st2) :- CEval(args[0], st1, fns, order, fuel);
      Ok(([v] + vs, st2))
    else
      var (v, st1) :- CEval(args[0], st, fns, order, fuel);
      var (vs, st2) :- CEvalArgs(args[1..], st1, fns, order, fuel);
      Ok(([v] + vs, st2))
  }

  // ----- statements -----

  /** The index of the element to write and the value, in one order or the other; the write comes after both. */
  function CEvalSides(target: CExpr, value: CExpr, st: CState, fns: CFunctions, order: Order, fuel: nat)
    : Result<((int, int), CState)>
    requires target.CIndex?
    decreases fuel, CAssign(target, value), 0
  {
    if order.Swaps([target, value], st) then
      var (v, st1) :- CEval(value, st, fns, order, fuel);
      var (x, st2) :- CEval(target.index, st1, fns, order, fuel);
      Ok(((x, v), st2))
    else
      var (x, st1) :- CEval(target.index, st, fns, order, fuel);
      var (v, st2) :- CEval(value, st1, fns, order, fuel);
      Ok(((x, v), st2))
  }

  function CExecAssign(target: CExpr, value: CExpr, st: CState, fns: CFunctions, order: Order, fuel: nat): Result<CState>
    decreases fuel, CAssign(target, value), 1
  {
    match target
    case CVar(name) =>
      var (v, st1) :- CEval(value, st, fns, order, fuel);
      var before := st1.Lookup(name);
      if before.Some? && before.value.CNum? then Ok(st1.Assigned(name, CNum(v)))
      else Stuck(if before.None? then UNDECLARED else MISFIT)
    case CIndex(name, index) =>
      var ((x, v), st2) :- CEvalSides(target, value, st, fns, order, fuel);
      var cells :- CellsOf(st2.Lookup(name));
      if 0 <= x < |cells| then Ok(st2.Assigned(name, Cells(cells[x := v]))) else Stuck(INDEX)
    case _ => Stuck(UNASSIGNABLE)
  }

  /** A name that a block declares is no variable of the function yet; the emitted C hides none. */
  function CExec(s: CStmt, st: CState, fns: CFunctions, order: Order, fuel: nat): Result<Flow<CValue>>
    decreases fuel, s, 2
  {
    match s
    case CArray(name, count, values) =>
      if |values| == count && name !in st.locals then Ok(Next(st.Declared(name, Cells(values)))) else Stuck(MISFIT)
    case CDeclare(name, value) =>
      var (v, st1) :- CEval(value, st, fns, order, fuel);
      if name in st1.locals then Stuck(MISFIT) else Ok(Next(st1.Declared(name, CNum(v))))
    case CAssign(target, value) =>
      var st1 :- CExecAssign(target, value, st, fns, order, fuel);
      Ok(Next(st1))
    case CGemm(a, b, c, m, n, k) =>
      var st1 :- NpuGemm(st, a, b, c, m, n, k);
      Ok(Next(st1))
    case CPrint(literal) =>
      // The runtime writes the string up to its first NUL.
      var text :- Lift(Unescape(literal), MISFIT);
      Ok(Next(st.(out := st.out + BeforeNul(text))))
    case CIf(cond, thn, els) =>
      var (v, st1) :- CEval(cond, st, fns, order, fuel);
      if v != 0 then CScoped(thn, st1, fns, order, fuel)
      else if els.CNoElse? then Ok(Next(st1)) else CScoped(els.items, st1, fns, order, fuel)
    case CWhile(cond, body) =>
      var (v, st1) :- CEval(cond, st, fns, order, fuel);
      if v == 0 then Ok(Next(st1)) else
      var flow :- CScoped(body, st1, fns, order, fuel);
      if flow.Returned? then Ok(flow) else if fuel == 0 then Timeout else CExec(s, flow.st, fns, order, fuel - 1)
    case CFor(start, test, step, body) =>
      var flow :- CExecPart(start, st, fns, order, fuel);
      if flow.Returned? then Ok(flow) else
      var end :- CRepeat(s, flow.st, fns, order, fuel);
      Ok(end.(st := end.st.Leaving(st)))
    case CReturn(value) =>
      var (v, st1) :- CEval(value, st, fns, order, fuel);
      Ok(Returned(v, st1))
    case CExprStmt(expr) =>
      if expr.CVar? && st.Lookup(expr.name).Some? then Ok(Next(st)) else
      var (_, st1) :- CEval(expr, st, fns, order, fuel);
      Ok(Next(st1))
  }

  function CRepeat(s: CStmt, st: CState, fns: CFunctions, order: Order, fuel: nat): Result<Flow<CValue>>
    requires s.CFor?
    decreases fuel, s, 1
  {
    var (v, st1) :- CEvalTest(s.test, st, fns, order, fuel);
    if v == 0 then Ok(Next(st1)) else
    var flow :- CRound(s, st1, fns, order, fuel);
    if flow.Returned? then Ok(flow) else if fuel == 0 then Timeout else CRepeat(s, flow.st, fns, order, fuel - 1)
  }

  /** One round: the body in its own scope, then the step. */
  function CRound(s: CStmt, st: CState, fns: CFunctions, order: Order, fuel: nat): Result<Flow<CValue>>
    requires s.CFor?
    decreases fuel, s, 0
  {
    var flow :- CScoped(s.body, st, fns, order, fuel);
    if flow.Returned? then Ok(flow) else CExecPart(s.step, flow.st, fns, order, fuel)
  }

  function CEvalTest(test: Option<CExpr>, st: CState, fns: CFunctions, order: Order, fuel: nat): Result<(int, CState)>
    decreases fuel, test, 0
  {
    if test.None? then Ok((1, st)) else CEval(test.value, st, fns, order, fuel)
  }

  function CExecPart(part: Option<CStmt>, st: CState, fns: CFunctions, order: Order, fuel: nat): Result<Flow<CValue>>
    decreases fuel, part, 0
  {
    if part.None? then Ok(Next(st)) else CExec(part.value, st, fns, order, fuel)
  }

  function CScoped(items: seq<CStmt>, st: CState, fns: CFunctions, order: Order, fuel: nat): Result<Flow<CValue>>
    decreases fuel, items, 1
  {
    var flow :- CExecBlock(items, st, fns, order, fuel);
    Ok(flow.(st := flow.st.Leaving(st)))
  }

  function CExecBlock(items: seq<CStmt>, st: CState, fns: CFunctions, order: Order, fuel: nat): Result<Flow<CValue>>
    decreases fuel, items, 0
  {
    if items == [] then Ok(Next(st)) else
    var flow :- CExec(items[0], st, fns, order, fuel);
    if flow.Returned? then Ok(flow) else CExecBlock(items[1..], flow.st, fns, order, fuel)
  }

  // ----- programs -----

  function CFunctionsOf(functions: seq<CFunction>): CFunctions
  {
    if functions == [] then map[] else CFunctionsOf(functions[1..])[functions[0].name := functions[0]]
  }

  /** The arrays that exist before `user_main` starts. */
  function StaticArrays(globals: seq<CStmt>): map<string, CValue>
  {
    if globals == [] then map[]
    else if globals[0].CArray? then StaticArrays(globals[1..])[globals[0].name := Cells(globals[0].values)]
    else StaticArrays(globals[1..])
  }

  /** The exit code of `user_main` and the final state. */
  function CRun(p: CProgram, order: Order, fuel: nat): Result<(int, CState)>
  {
    var flow :- CExecBlock(p.main, Store(StaticArrays(p.globals), map[], ""), CFunctionsOf(p.functions), order, fuel);
    if flow.Returned? then Ok((flow.value, flow.st)) else Stuck(MISFIT)
  }
}
