/** Code generation preserves meaning: every run TensorC gives a meaning to is reproduced, step for step, by the
    emitted C on flat arrays. */
module Preservation {
  import opened Options
  import opened Words
  import opened RowMajor
  import opened TensorAst
  import opened Sema
  import opened Evaluation
  import opened TensorCSemantics
  import opened Ordering
  import opened CStrings
  import opened CTarget
  import opened Codegen
  import opened TensorLayout
  import opened CScopes
  import opened Portable
  import opened Simulation

  // ----- expressions -----

  lemma {:induction false} ExprPreserved(e: Expr, e': Expr, st: State, cst: CState, w: World, table: Table, cx: Context,
                                         fuel: nat)
    requires WorldOk(w) && Same(st, cst, w, table, cx) && CheckExpr(e, table, w.arities) == Some((e', Scalar))
    requires Fits(e, w.order)
    requires PortableExpr(e, cx)
    ensures SameResult(Eval(e, st, w.fns, fuel), CEval(GenExpr(e'), cst, w.cfns, w.order, fuel), st, w, table, cx)
    decreases fuel, e, 4
  {
    hide Same;
    hide WorldOk;
    hide Eval;
    hide CEval;
    hide GenExpr;
    match e
    case IntLiteral(_) => LeafPreserved(e, e', st, cst, w, table, cx, fuel);
    case VarRef(_) => LeafPreserved(e, e', st, cst, w, table, cx, fuel);
    case TensorIndex(_, _, _, _) => IndexPreserved(e, e', st, cst, w, table, cx, fuel);
    case Unary(_, _) => UnaryPreserved(e, e', st, cst, w, table, cx, fuel);
    case Binary(_, _, _) => BinaryPreserved(e, e', st, cst, w, table, cx, fuel);
    case Call(_, _) => CallPreserved(e, e', st, cst, w, table, cx, fuel);
  }

  lemma LeafPreserved(e: Expr, e': Expr, st: State, cst: CState, w: World, table: Table, cx: Context, fuel: nat)
    requires WorldOk(w) && Same(st, cst, w, table, cx) && CheckExpr(e, table, w.arities) == Some((e', Scalar))
    requires e.IntLiteral? || e.VarRef?
    ensures SameResult(Eval(e, st, w.fns, fuel), CEval(GenExpr(e'), cst, w.cfns, w.order, fuel), st, w, table, cx)
  {
    hide Same;
    hide WorldOk;
    if e.VarRef? && st.Lookup(e.name).Some? { LookupSame(st, cst, w, table, cx, e.name); }
  }

  lemma {:induction false} UnaryPreserved(e: Expr, e': Expr, st: State, cst: CState, w: World, table: Table,
                                          cx: Context, fuel: nat)
    requires WorldOk(w) && Same(st, cst, w, table, cx) && e.Unary? && CheckExpr(e, table, w.arities) == Some((e', Scalar))
    requires Fits(e, w.order)
    requires PortableExpr(e, cx)
    ensures SameResult(Eval(e, st, w.fns, fuel), CEval(GenExpr(e'), cst, w.cfns, w.order, fuel), st, w, table, cx)
    decreases fuel, e, 2
  {
    hide Same;
    hide WorldOk;
    hide ApplyUnary;
    ExprPreserved(e.operand, e'.operand, st, cst, w, table, cx, fuel);
  }

  /** Two operands evaluated left to right, or the other way round. */
  function InOrder(x: CExpr, y: CExpr, swapped: bool, cst: CState, fns: CFunctions, order: Order, fuel: nat)
    : Result<((int, int), CState)>
  {
    if swapped then
      var (w, cst1) :- CEval(y, cst, fns, order, fuel);
      var (v, cst2) :- CEval(x, cst1, fns, order, fuel);
      Ok(((v, w), cst2))
    else
      var (v, cst1) :- CEval(x, cst, fns, order, fuel);
      var (w, cst2) :- CEval(y, cst1, fns, order, fuel);
      Ok(((v, w), cst2))
  }

  lemma SameOnlyMatrices(st: State, cst: CState, w: World, table: Table, cx: Context)
    requires WorldOk(w) && Same(st, cst, w, table, cx)
    ensures OnlyMatrices(st)
  {
    hide FunctionOk;
    hide SameValue;
  }

  predicate AreOperands(e: Expr, x: Expr, y: Expr)
  {
    (e.Binary? && e.left == x && e.right == y) || (e.TensorIndex? && e.row == x && e.col == y)
  }

  /** The operands of an expression of the fragment belong to it too. */
  lemma OperandsPortable(e: Expr, x: Expr, y: Expr, order: Order, cx: Context)
    requires AreOperands(e, x, y) && Fits(e, order) && PortableExpr(e, cx)
    ensures Fits(x, order) && Fits(y, order) && PortableExpr(x, cx) && PortableExpr(y, cx)
    ensures order.Chosen? ==> Independent([x], [y])
  {
  }

  /** Whichever operand of `e` C takes first, the values and the state after both are those of TensorC. */
  lemma {:induction false} OperandsPreserved(e: Expr, x: Expr, x': Expr, y: Expr, y': Expr, swapped: bool, st: State,
                                             cst: CState, w: World, table: Table, cx: Context, fuel: nat)
    requires WorldOk(w) && Same(st, cst, w, table, cx) && AreOperands(e, x, y) && Fits(e, w.order)
    requires CheckExpr(x, table, w.arities) == Some((x', Scalar)) && CheckExpr(y, table, w.arities) == Some((y', Scalar))
    requires swapped ==> w.order.Chosen?
    requires Eval(x, st, w.fns, fuel).Ok? && Eval(y, Eval(x, st, w.fns, fuel).value.1, w.fns, fuel).Ok?
    requires PortableExpr(e, cx)
    ensures var (v, st1) := Eval(x, st, w.fns, fuel).value;
            var (u, st2) := Eval(y, st1, w.fns, fuel).value;
            var c := InOrder(GenExpr(x'), GenExpr(y'), swapped, cst, w.cfns, w.order, fuel);
            c.Ok? && c.value.0 == (v, u) && Same(st2, c.value.1, w, table, cx) && SameNames(st, st2)
    decreases fuel, e, 1
  {
    hide Same;
    hide WorldOk;
    hide Eval;
    hide CEval;
    hide CheckExpr;
    hide GenExpr;
    hide PortableExpr;
    hide Fits;
    OperandsPortable(e, x, y, w.order, cx);
    var st1 := Eval(x, st, w.fns, fuel).value.1;
    var cst1 := CEval(GenExpr(x'), cst, w.cfns, w.order, fuel);
    ExprPreserved(x, x', st, cst, w, table, cx, fuel);
    if swapped {
      SameOnlyMatrices(st, cst, w, table, cx);
      SameOnlyMatrices(st1, cst1.value.1, w, table, cx);
      SwappedOperands(x, y, st, w.fns, fuel);
      ExprPreserved(y, y', st, cst, w, table, cx, fuel);
      var sty, csty := Eval(y, st, w.fns, fuel).value.1, CEval(GenExpr(y'), cst, w.cfns, w.order, fuel).value.1;
      ExprPreserved(x, x', sty, csty, w, table, cx, fuel);
    } else {
      ExprPreserved(y, y', st1, cst1.value.1, w, table, cx, fuel);
    }
  }

  lemma {:induction false} BinaryPreserved(e: Expr, e': Expr, st: State, cst: CState, w: World, table: Table,
                                           cx: Context, fuel: nat)
    requires WorldOk(w) && Same(st, cst, w, table, cx) && e.Binary? && CheckExpr(e, table, w.arities) == Some((e', Scalar))
    requires Fits(e, w.order)
    requires PortableExpr(e, cx)
    ensures SameResult(Eval(e, st, w.fns, fuel), CEval(GenExpr(e'), cst, w.cfns, w.order, fuel), st, w, table, cx)
    decreases fuel, e, 2
  {
    hide Same;
    hide WorldOk;
    hide ApplyBinary;
    hide OrderFree;
    if Eval(e, st, w.fns, fuel).Ok? {
      var swapped := w.order.Swaps([GenExpr(e'.left), GenExpr(e'.right)], cst);
      OperandsPreserved(e, e.left, e'.left, e.right, e'.right, swapped, st, cst, w, table, cx, fuel);
      assert CEvalOperands(GenExpr(e'), cst, w.cfns, w.order, fuel)
          == InOrder(GenExpr(e'.left), GenExpr(e'.right), swapped, cst, w.cfns, w.order, fuel);
    } else if w.order.LeftFirst? {
      OperandsGoOn(e, e.left, e'.left, e.right, e'.right, st, cst, w, table, cx, fuel);
    }
  }

  /** Left to right, an operand that TensorC is still evaluating C is still evaluating. */
  lemma {:induction false} OperandsGoOn(e: Expr, x: Expr, x': Expr, y: Expr, y': Expr, st: State, cst: CState, w: World,
                                        table: Table, cx: Context, fuel: nat)
    requires WorldOk(w) && Same(st, cst, w, table, cx) && AreOperands(e, x, y) && Fits(e, w.order) && PortableExpr(e, cx)
    requires CheckExpr(x, table, w.arities) == Some((x', Scalar)) && CheckExpr(y, table, w.arities) == Some((y', Scalar))
    requires w.order.LeftFirst?
    ensures var r, cr := Eval(x, st, w.fns, fuel), CEval(GenExpr(x'), cst, w.cfns, w.order, fuel);
            && (r.Timeout? ==> cr.Timeout?)
            && (r.Ok? ==> cr.Ok? && cr.value.0 == r.value.0 && Same(r.value.1, cr.value.1, w, table, cx))
            && (r.Ok? && Eval(y, r.value.1, w.fns, fuel).Timeout? ==>
                  CEval(GenExpr(y'), cr.value.1, w.cfns, w.order, fuel).Timeout?)
    decreases fuel, e, 1
  {
    hide Same;
    hide WorldOk;
    hide Eval;
    hide CEval;
    hide CheckExpr;
    hide GenExpr;
    ExprPreserved(x, x', st, cst, w, table, cx, fuel);
    var r, cr := Eval(x, st, w.fns, fuel), CEval(GenExpr(x'), cst, w.cfns, w.order, fuel);
    if r.Ok? { ExprPreserved(y, y', r.value.1, cr.value.1, w, table, cx, fuel); }
  }

  /** The emitted index `(row) * cols + (col)`. */
  function IndexOf(row: CExpr, col: CExpr, cols: int): CExpr
  {
    CBinary(ADD, CBinary(MUL, row, CInt(cols)), col)
  }

  /** The order C takes for the emitted index: its last operand against the product before it. */
  predicate IndexSwaps(row: CExpr, col: CExpr, cols: int, cst: CState, order: Order)
  {
    order.Swaps([CBinary(MUL, row, CInt(cols)), col], cst)
  }

  /** A constant operand has no say in the order. */
  lemma RowEvaluates(row: CExpr, cols: int, cst: CState, fns: CFunctions, order: Order, fuel: nat)
    requires IsInt32(cols) && CEval(row, cst, fns, order, fuel).Ok?
    requires ApplyBinary(MUL, CEval(row, cst, fns, order, fuel).value.0, cols).Some?
    ensures var (r, cst1) := CEval(row, cst, fns, order, fuel).value;
            CEval(CBinary(MUL, row, CInt(cols)), cst, fns, order, fuel) == Ok((ApplyBinary(MUL, r, cols).value, cst1))
  {
    hide ApplyBinary;
    var cst1 := CEval(row, cst, fns, order, fuel).value.1;
    assert CEval(CInt(cols), cst, fns, order, fuel) == Ok((cols, cst));
    assert CEval(CInt(cols), cst1, fns, order, fuel) == Ok((cols, cst1));
  }

  lemma IndexEvaluates(row: CExpr, col: CExpr, cols: int, x: int, cst: CState, fns: CFunctions, order: Order, fuel: nat)
    requires InOrder(row, col, IndexSwaps(row, col, cols, cst, order), cst, fns, order, fuel).Ok?
    requires var ((r, c), _) := InOrder(row, col, IndexSwaps(row, col, cols, cst, order), cst, fns, order, fuel).value;
             IsInt32(cols) && ApplyBinary(MUL, r, cols) == Some(r * cols) && ApplyBinary(ADD, r * cols, c) == Some(x)
    ensures var (_, cst2) := InOrder(row, col, IndexSwaps(row, col, cols, cst, order), cst, fns, order, fuel).value;
            CEval(IndexOf(row, col, cols), cst, fns, order, fuel) == Ok((x, cst2))
  {
    hide ApplyBinary;
    var swapped := IndexSwaps(row, col, cols, cst, order);
    var rowFrom := if swapped then CEval(col, cst, fns, order, fuel).value.1 else cst;
    RowEvaluates(row, cols, rowFrom, fns, order, fuel);
    var product := CBinary(MUL, row, CInt(cols));
    assert CEvalOperands(CBinary(ADD, product, col), cst, fns, order, fuel)
        == InOrder(product, col, swapped, cst, fns, order, fuel);
  }

  lemma {:induction false} IndexPreserved(e: Expr, e': Expr, st: State, cst: CState, w: World, table: Table,
                                          cx: Context, fuel: nat)
    requires WorldOk(w) && Same(st, cst, w, table, cx) && e.TensorIndex?
             && CheckExpr(e, table, w.arities) == Some((e', Scalar))
    requires Fits(e, w.order) && PortableExpr(e, cx)
    ensures SameResult(Eval(e, st, w.fns, fuel), CEval(GenExpr(e'), cst, w.cfns, w.order, fuel), st, w, table, cx)
    decreases fuel, e, 3
  {
    hide Same;
    hide WorldOk;
    hide SameTensor;
    hide EvalPlace;
    hide Flat;
    hide OrderFree;
    hide IndexOf;
    GenIndex(e, e', table, w.arities);
    var r := EvalPlace(e, st, w.fns, fuel);
    if r.Ok? {
      PlacePreserved(e, e', st, cst, w, table, cx, fuel);
      PlaceHolds(e, r.value.0.0, r.value.0.1, r.value.1,
                 CEval(IndexOf(GenExpr(e'.row), GenExpr(e'.col), table[e.name].cols), cst, w.cfns, w.order, fuel).value.1,
                 w, table, cx);
    } else if r.Timeout? && w.order.LeftFirst? {
      PlaceGoesOn(e, e', st, cst, w, table, cx, fuel);
    }
  }

  /** An element in range is a word of its array. */
  lemma PlaceHolds(e: Expr, x: int, y: int, st: State, cst: CState, w: World, table: Table, cx: Context)
    requires Same(st, cst, w, table, cx) && e.TensorIndex? && e.name in table && InRange(st.Lookup(e.name), x, y)
    ensures table[e.name].Tensor? && table[e.name].cols > 0
    ensures var cols, v := table[e.name].cols, cst.Lookup(e.name);
            && IsInt32(cols) && ApplyBinary(MUL, x, cols) == Some(x * cols)
            && ApplyBinary(ADD, x * cols, y) == Some(Flat(x, y, cols))
            && v.Some? && v.value.Cells? && 0 <= Flat(x, y, cols) < |v.value.cells|
            && v.value.cells[Flat(x, y, cols)] == st.Lookup(e.name).value.grid[x][y]
  {
    hide Same;
    hide SameTensor;
    hide ApplyBinary;
    hide Flat;
    LookupSame(st, cst, w, table, cx, e.name);
    IndexSame(st.Lookup(e.name).value.grid, cst.Lookup(e.name).value.cells, table[e.name].rows, table[e.name].cols, x, y);
  }

  /** The emitted index evaluates to the word of the element. */
  lemma {:induction false} PlacePreserved(e: Expr, e': Expr, st: State, cst: CState, w: World, table: Table, cx: Context,
                                          fuel: nat)
    requires WorldOk(w) && Same(st, cst, w, table, cx) && e.TensorIndex?
             && CheckExpr(e, table, w.arities) == Some((e', Scalar))
    requires Fits(e, w.order) && PortableExpr(e, cx) && EvalPlace(e, st, w.fns, fuel).Ok?
    ensures e'.TensorIndex? && e.name in table && table[e.name].Tensor?
    ensures var ((x, y), st1) := EvalPlace(e, st, w.fns, fuel).value;
            var cols := table[e.name].cols;
            var cr := CEval(IndexOf(GenExpr(e'.row), GenExpr(e'.col), cols), cst, w.cfns, w.order, fuel);
            cr.Ok? && cr.value.0 == Flat(x, y, cols) && Same(st1, cr.value.1, w, table, cx) && SameNames(st, st1)
    decreases fuel, e, 2
  {
    hide Same;
    hide WorldOk;
    hide Eval;
    hide CEval;
    hide SameTensor;
    hide ApplyBinary;
    hide Flat;
    hide OrderFree;
    hide IndexOf;
    hide InOrder;
    hide IndexSwaps;
    GenIndex(e, e', table, w.arities);
    hide CheckExpr;
    hide GenExpr;
    var ((x, y), st1) := EvalPlace(e, st, w.fns, fuel).value;
    var row, col, cols := GenExpr(e'.row), GenExpr(e'.col), table[e.name].cols;
    var swapped := IndexSwaps(row, col, cols, cst, w.order);
    SwapsChosen(row, col, cols, cst, w.order);
    OperandsPreserved(e, e.row, e'.row, e.col, e'.col, swapped, st, cst, w, table, cx, fuel);
    var cst1 := InOrder(row, col, swapped, cst, w.cfns, w.order, fuel).value.1;
    PlaceHolds(e, x, y, st1, cst1, w, table, cx);
    IndexEvaluates(row, col, cols, Flat(x, y, cols), cst, w.cfns, w.order, fuel);
  }

  /** While TensorC evaluates the indexes, left to right, C evaluates the emitted index. */
  lemma {:induction false} PlaceGoesOn(e: Expr, e': Expr, st: State, cst: CState, w: World, table: Table, cx: Context,
                                       fuel: nat)
    requires WorldOk(w) && Same(st, cst, w, table, cx) && e.TensorIndex?
             && CheckExpr(e, table, w.arities) == Some((e', Scalar))
    requires Fits(e, w.order) && PortableExpr(e, cx) && EvalPlace(e, st, w.fns, fuel).Timeout? && w.order.LeftFirst?
    ensures e'.TensorIndex? && e.name in table && table[e.name].Tensor?
    ensures CEval(IndexOf(GenExpr(e'.row), GenExpr(e'.col), table[e.name].cols), cst, w.cfns, w.order, fuel).Timeout?
    decreases fuel, e, 2
  {
    hide Same;
    hide WorldOk;
    hide Eval;
    hide CEval;
    hide SameTensor;
    hide ApplyBinary;
    hide Flat;
    hide OrderFree;
    hide IndexOf;
    GenIndex(e, e', table, w.arities);
    hide CheckExpr;
    hide GenExpr;
    var row, col, cols := GenExpr(e'.row), GenExpr(e'.col), table[e.name].cols;
    OperandsGoOn(e, e.row, e'.row, e.col, e'.col, st, cst, w, table, cx, fuel);
    var r, cr := Eval(e.row, st, w.fns, fuel), CEval(row, cst, w.cfns, w.order, fuel);
    if r.Ok? { RowHolds(e, r.value.0, r.value.1, cr.value.1, w, table, cx); }
    SumGoesOn(row, col, cols, cst, w.cfns, w.order, fuel);
  }

  lemma RowHolds(e: Expr, x: int, st: State, cst: CState, w: World, table: Table, cx: Context)
    requires Same(st, cst, w, table, cx) && e.TensorIndex? && e.name in table && RowInRange(st.Lookup(e.name), x)
    ensures table[e.name].Tensor? && IsInt32(table[e.name].cols) && ApplyBinary(MUL, x, table[e.name].cols).Some?
  {
    hide Same;
    hide SameTensor;
    hide ApplyBinary;
    LookupSame(st, cst, w, table, cx, e.name);
    PlaceHolds(e, x, 0, st, cst, w, table, cx);
  }

  lemma SumGoesOn(row: CExpr, col: CExpr, cols: int, cst: CState, fns: CFunctions, order: Order, fuel: nat)
    requires order.LeftFirst?
    requires var r := CEval(row, cst, fns, order, fuel);
             || r.Timeout?
             || (r.Ok? && IsInt32(cols) && ApplyBinary(MUL, r.value.0, cols).Some?
                 && CEval(col, r.value.1, fns, order, fuel).Timeout?)
    ensures CEval(IndexOf(row, col, cols), cst, fns, order, fuel).Timeout?
  {
    hide ApplyBinary;
    var r := CEval(row, cst, fns, order, fuel);
    var product := CBinary(MUL, row, CInt(cols));
    if r.Ok? {
      RowEvaluates(row, cols, cst, fns, order, fuel);
    } else {
      assert CEvalOperands(product, cst, fns, order, fuel).Timeout?;
      assert CEval(product, cst, fns, order, fuel).Timeout?;
    }
    assert CEvalOperands(CBinary(ADD, product, col), cst, fns, order, fuel).Timeout?;
  }

  lemma {:induction false} CallPreserved(e: Expr, e': Expr, st: State, cst: CState, w: World, table: Table, cx: Context,
                                         fuel: nat)
    requires WorldOk(w) && Same(st, cst, w, table, cx) && e.Call? && CheckExpr(e, table, w.arities) == Some((e', Scalar))
    requires Fits(e, w.order)
    requires PortableExpr(e, cx)
    ensures SameResult(Eval(e, st, w.fns, fuel), CEval(GenExpr(e'), cst, w.cfns, w.order, fuel), st, w, table, cx)
    decreases fuel, e, 2
  {
    hide Same;
    hide SameGlobals;
    hide WorldOk;
    hide EvalArgs;
    hide CEvalArgs;
    hide CheckArgs;
    hide GenArgs;
    hide ExecBlock;
    hide CExecBlock;
    hide BindArgs;
    hide BindCArgs;
    hide FunctionOk;
    var f := e.name;
    ArgsPreserved(e.args, e'.args, st, cst, w, table, cx, fuel);
    var r := EvalArgs(e.args, st, w.fns, fuel);
    if r.Ok? {
      var cst1 := CEvalArgs(GenArgs(e'.args), cst, w.cfns, w.order, fuel).value.1;
      CallableSame(r.value.1, cst1, w, table, cx, f);
      if f in w.fns && |w.fns[f].params| == |r.value.0| {
        SameFunction(w, f);
        if fuel > 0 { BodyPreserved(f, r.value.0, r.value.1, cst1, w, table, cx, fuel - 1); }
      }
    }
  }

  lemma {:induction false} ArgsPreserved(args: seq<Expr>, args': seq<Expr>, st: State, cst: CState, w: World, table: Table,
                                         cx: Context, fuel: nat)
    requires WorldOk(w) && Same(st, cst, w, table, cx) && CheckArgs(args, table, w.arities) == Some(args')
    requires FitArgs(args, w.order)
    requires PortableArgs(args, cx)
    ensures SameResult(EvalArgs(args, st, w.fns, fuel), CEvalArgs(GenArgs(args'), cst, w.cfns, w.order, fuel), st, w, table, cx)
    decreases fuel, args, 1
  {
    hide Same;
    hide WorldOk;
    hide Eval;
    hide CEval;
    hide CheckExpr;
    hide GenExpr;
    hide OrderFree;
    hide Independent;
    if args != [] {
      FirstArg(args, args', table, cx, w.arities, w.order);
      if w.order.Swaps(GenArgs(args'), cst) {
        if EvalArgs(args, st, w.fns, fuel).Ok? { FirstArgLater(args, args', st, cst, w, table, cx, fuel); }
      } else {
        ExprPreserved(args[0], args'[0], st, cst, w, table, cx, fuel);
        var r, cr := Eval(args[0], st, w.fns, fuel), CEval(GenExpr(args'[0]), cst, w.cfns, w.order, fuel);
        if r.Ok? { ArgsPreserved(args[1..], args'[1..], r.value.1, cr.value.1, w, table, cx, fuel); }
      }
    }
  }

  /** The analysis and the generator on the first argument and on the others. */
  lemma FirstArg(args: seq<Expr>, args': seq<Expr>, table: Table, cx: Context, arities: Arities, order: Order)
    requires args != [] && CheckArgs(args, table, arities) == Some(args') && FitArgs(args, order) && PortableArgs(args, cx)
    ensures |args'| == |args| && CheckExpr(args[0], table, arities) == Some((args'[0], Scalar))
    ensures CheckArgs(args[1..], table, arities) == Some(args'[1..])
    ensures Fits(args[0], order) && FitArgs(args[1..], order) && (order.Chosen? ==> Independent([args[0]], args[1..]))
    ensures PortableExpr(args[0], cx) && PortableArgs(args[1..], cx)
    ensures GenArgs(args') == [GenExpr(args'[0])] + GenArgs(args'[1..]) && GenArgs(args')[1..] == GenArgs(args'[1..])
  {
    hide CheckExpr;
    hide GenExpr;
    hide OrderFree;
    hide Independent;
    hide PortableExpr;
    assert args'[1..] == CheckArgs(args[1..], table, arities).value;
  }

  /** C evaluates the first argument after the others. */
  lemma {:induction false} FirstArgLater(args: seq<Expr>, args': seq<Expr>, st: State, cst: CState, w: World, table: Table,
                                         cx: Context, fuel: nat)
    requires WorldOk(w) && Same(st, cst, w, table, cx) && CheckArgs(args, table, w.arities) == Some(args') && args != []
    requires FitArgs(args, w.order) && PortableArgs(args, cx)
    requires w.order.Swaps(GenArgs(args'), cst) && EvalArgs(args, st, w.fns, fuel).Ok?
    ensures SameResult(EvalArgs(args, st, w.fns, fuel), CEvalArgs(GenArgs(args'), cst, w.cfns, w.order, fuel), st, w, table, cx)
    decreases fuel, args, 0
  {
    hide Same;
    hide WorldOk;
    hide Eval;
    hide CEval;
    hide FitArgs;
    hide Fits;
    hide PortableArgs;
    hide CheckArgs;
    hide CheckExpr;
    FirstArg(args, args', table, cx, w.arities, w.order);
    hide GenArgs;
    hide GenExpr;
    var first, rest := GenExpr(args'[0]), GenArgs(args'[1..]);
    assert Eval(args[0], st, w.fns, fuel).Ok?;
    var r := Eval(args[0], st, w.fns, fuel).value;
    ExprPreserved(args[0], args'[0], st, cst, w, table, cx, fuel);
    SameOnlyMatrices(st, cst, w, table, cx);
    SameOnlyMatrices(r.1, CEval(first, cst, w.cfns, w.order, fuel).value.1, w, table, cx);
    SwappedFirst(args, st, w.fns, fuel);
    hide EvalArgs;
    ArgsPreserved(args[1..], args'[1..], st, cst, w, table, cx, fuel);
    ExprPreserved(args[0], args'[0], EvalArgs(args[1..], st, w.fns, fuel).value.1,
                  CEvalArgs(rest, cst, w.cfns, w.order, fuel).value.1, w, table, cx, fuel);
  }

  // ----- bodies -----

  lemma {:induction false} CBlockConcat(xs: seq<CStmt>, ys: seq<CStmt>, cst: CState, fns: CFunctions, order: Order,
                                        fuel: nat)
    ensures CExecBlock(xs + ys, cst, fns, order, fuel) ==
            var r := CExecBlock(xs, cst, fns, order, fuel);
            if r.Ok? && r.value.Next? then CExecBlock(ys, r.value.st, fns, order, fuel) else r
    decreases |xs|
  {
    if xs == [] {
      assert xs + ys == ys;
    } else {
      assert (xs + ys)[1..] == xs[1..] + ys;
      var r := CExec(xs[0], cst, fns, order, fuel);
      if r.Ok? && r.value.Next? { CBlockConcat(xs[1..], ys, r.value.st, fns, order, fuel); }
    }
  }

  /** A block with a return among its statements never runs off its end. */
  lemma {:induction false} ReturnEndsBlock(items: seq<Stmt>, cst: CState, fns: CFunctions, order: Order, fuel: nat)
    requires HasReturn(items)
    ensures var r := CExecBlock(GenItems(items), cst, fns, order, fuel); !(r.Ok? && r.value.Next?)
    decreases |items|
  {
    var r := CExec(GenStmt(items[0]), cst, fns, order, fuel);
    if r.Ok? && r.value.Next? && !items[0].Return? {
      var i :| 0 <= i < |items| && items[i].Return?;
      assert items[1..][i - 1].Return?;
      ReturnEndsBlock(items[1..], r.value.st, fns, order, fuel);
    }
  }

  /** An emitted body always returns: where the block would run off its end, it returns 0. */
  lemma BodyReturns(items: seq<Stmt>, cst: CState, fns: CFunctions, order: Order, fuel: nat)
    ensures var r := CExecBlock(GenItems(items), cst, fns, order, fuel);
            r.Ok? ==> CExecBlock(GenBody(items), cst, fns, order, fuel)
                        == Ok(Returned(if r.value.Returned? then r.value.value else 0, r.value.st))
    ensures var r := CExecBlock(GenItems(items), cst, fns, order, fuel);
            !r.Ok? ==> CExecBlock(GenBody(items), cst, fns, order, fuel) == r
  {
    var close := if HasReturn(items) then [] else [CReturn(CInt(0))];
    CBlockConcat(GenItems(items), close, cst, fns, order, fuel);
    var r := CExecBlock(GenItems(items), cst, fns, order, fuel);
    if HasReturn(items) {
      ReturnEndsBlock(items, cst, fns, order, fuel);
      assert GenItems(items) + [] == GenItems(items);
    } else if r.Ok? {
      assert CEval(CInt(0), r.value.st, fns, order, fuel) == Ok((0, r.value.st));
      assert CExec(CReturn(CInt(0)), r.value.st, fns, order, fuel) == Ok(Returned(0, r.value.st));
      assert CExecBlock([CReturn(CInt(0))], r.value.st, fns, order, fuel) == Ok(Returned(0, r.value.st));
    }
  }

  lemma SameFunction(w: World, f: string)
    requires WorldOk(w) && f in w.fns
    ensures f in w.cfns && w.cfns[f].params == w.fns[f].params
  {
    assert FunctionOk(w, f);
  }

  lemma {:induction false} BodyPreserved(f: string, args: seq<int>, st: State, cst: CState, w: World, table: Table,
                                         cx: Context, fuel: nat)
    requires WorldOk(w) && Same(st, cst, w, table, cx) && f in w.fns && |w.fns[f].params| == |args|
    ensures f in w.cfns && w.cfns[f].params == w.fns[f].params
    ensures var r := ExecBlock(w.fns[f].body, Store(st.globals, BindArgs(w.fns[f].params, args), st.out), w.fns, fuel);
            var cr := CExecBlock(w.cfns[f].body, Store(cst.globals, BindCArgs(w.cfns[f].params, args), cst.out), w.cfns,
                                 w.order, fuel);
            r.Ok? ==> cr.Ok? && cr.value.Returned? && cr.value.value == (if r.value.Returned? then r.value.value else 0)
                      && Same(r.value.st.Returning(st), cr.value.st.Returning(cst), w, table, cx)
                      && r.value.st.globals.Keys == st.globals.Keys
    ensures var r := ExecBlock(w.fns[f].body, Store(st.globals, BindArgs(w.fns[f].params, args), st.out), w.fns, fuel);
            var cr := CExecBlock(w.cfns[f].body, Store(cst.globals, BindCArgs(w.cfns[f].params, args), cst.out), w.cfns,
                                 w.order, fuel);
            r.Timeout? && w.order.LeftFirst? ==> cr.Timeout?
    decreases fuel, w.fns[f].body, 2
  {
    hide Same;
    hide SameGlobals;
    hide ExecBlock;
    hide CExecBlock;
    hide GenItems;
    hide CheckBlock;
    hide PlainItems;
    hide BindArgs;
    hide BindCArgs;
    var fn, scope := w.fns[f], w.scopes[f];
    assert FunctionOk(w, f);
    var callee, ccallee := Store(st.globals, BindArgs(fn.params, args), st.out),
                           Store(cst.globals, BindCArgs(fn.params, args), cst.out);
    CallSame(st, cst, w, table, cx, f, args);
    BlockPreserved(fn.body, w.bodies[f], callee, ccallee, w, scope, w.contexts[f], CheckBlock(fn.body, scope, w.arities).value.1,
                   fuel);
    BodyReturns(w.bodies[f], ccallee, w.cfns, w.order, fuel);
    var r, cr := ExecBlock(fn.body, callee, w.fns, fuel), CExecBlock(GenItems(w.bodies[f]), ccallee, w.cfns, w.order, fuel);
    if r.Ok? {
      if r.value.Next? {
        SameHasSameGlobals(r.value.st, cr.value.st, w, CheckBlock(fn.body, scope, w.arities).value.1,
                           DeclaredAll(fn.body, w.contexts[f]));
      }
      ReturnSame(st, cst, r.value.st, cr.value.st, w, table, cx);
    }
  }

  lemma SameHasSameGlobals(st: State, cst: CState, w: World, table: Table, cx: Context)
    requires Same(st, cst, w, table, cx)
    ensures SameGlobals(st, cst, w)
  {
  }

  // ----- statements -----

  lemma {:induction false} BlockPreserved(items: seq<Stmt>, items': seq<Stmt>, st: State, cst: CState, w: World,
                                          table: Table, cx: Context, table': Table, fuel: nat)
    requires WorldOk(w) && Same(st, cst, w, table, cx) && CheckBlock(items, table, w.arities) == Some((items', table'))
    requires PlainItems(items, w.order) && PortableItems(items, cx)
    ensures SameFlow(ExecBlock(items, st, w.fns, fuel), CExecBlock(GenItems(items'), cst, w.cfns, w.order, fuel), st, w, table',
                     DeclaredAll(items, cx))
    decreases fuel, items, 0
  {
    hide Exec;
    hide CExec;
    hide CheckStmt;
    hide GenStmt;
    hide PlainStmt;
    hide Same;
    hide SameGlobals;
    hide WorldOk;
    if items != [] {
      var (s', table1) := CheckStmt(items[0], table, w.arities).value;
      StmtPreserved(items[0], s', st, cst, w, table, cx, table1, fuel);
      var r, cr := Exec(items[0], st, w.fns, fuel), CExec(GenStmt(s'), cst, w.cfns, w.order, fuel);
      assert items'[0] == s' && items'[1..] == CheckBlock(items[1..], table1, w.arities).value.0;
      CheckStmtExtends(items[0], table, w.arities);
      CheckBlockExtends(items[1..], table1, w.arities);
      if r.Ok? && r.value.Next? {
        BlockPreserved(items[1..], items'[1..], r.value.st, cr.value.st, w, table1, Declared(items[0], cx), table', fuel);
      }
    }
  }

  lemma {:induction false} ScopedPreserved(items: seq<Stmt>, items': seq<Stmt>, st: State, cst: CState, w: World,
                                           table: Table, cx: Context, fuel: nat)
    requires WorldOk(w) && Same(st, cst, w, table, cx) && PlainItems(items, w.order) && PortableItems(items, cx)
    requires CheckBlock(items, table, w.arities).Some? && CheckBlock(items, table, w.arities).value.0 == items'
    ensures SameFlow(Scoped(items, st, w.fns, fuel), CScoped(GenItems(items'), cst, w.cfns, w.order, fuel), st, w, table, cx)
    decreases fuel, items, 1
  {
    hide Same;
    hide SameGlobals;
    hide WorldOk;
    var table' := CheckBlock(items, table, w.arities).value.1;
    BlockPreserved(items, items', st, cst, w, table, cx, table', fuel);
    CheckBlockExtends(items, table, w.arities);
    var r, cr := ExecBlock(items, st, w.fns, fuel), CExecBlock(GenItems(items'), cst, w.cfns, w.order, fuel);
    if r.Ok? { FlowLeaves(r.value, cr.value, st, cst, w, table, cx, table', DeclaredAll(items, cx)); }
  }

  /** Leaving the scope in which a flow ended. */
  lemma FlowLeaves(flow: Flow<Value>, cflow: Flow<CValue>, st: State, cst: CState, w: World, table: Table, cx: Context, table': Table,
                   cx': Context)
    requires Same(st, cst, w, table, cx) && Extends(table, table')
    requires SameFlow(Ok(flow), Ok(cflow), st, w, table', cx')
    ensures SameFlow(Ok(flow.(st := flow.st.Leaving(st))), Ok(cflow.(st := cflow.st.Leaving(cst))), st, w, table, cx)
  {
    hide Same;
    hide SameGlobals;
    if flow.Next? { LeaveSame(st, cst, flow.st, cflow.st, w, table, cx, table', cx'); }
    else { LeaveGlobals(st, cst, flow.st, cflow.st, w); }
  }

  lemma {:induction false} StmtPreserved(s: Stmt, s': Stmt, st: State, cst: CState, w: World, table: Table, cx: Context, table': Table,
                                         fuel: nat)
    requires WorldOk(w) && Same(st, cst, w, table, cx) && CheckStmt(s, table, w.arities) == Some((s', table'))
    requires PlainStmt(s, w.order) && PortableStmt(s, cx)
    ensures SameFlow(Exec(s, st, w.fns, fuel), CExec(GenStmt(s'), cst, w.cfns, w.order, fuel), st, w, table',
                     Declared(s, cx))
    decreases fuel, s, 4
  {
    hide Same;
    hide SameGlobals;
    hide WorldOk;
    hide Exec;
    hide CExec;
    hide GenStmt;
    match s
    case TensorDecl(_, _, _, _) => DeclPreserved(s, s', st, cst, w, table, cx, table', fuel);
    case VarDecl(_, _) => VarDeclPreserved(s, s', st, cst, w, table, cx, table', fuel);
    case Assign(_, _) => AssignStmtPreserved(s, s', st, cst, w, table, cx, fuel);
    case Gemm(_, _, _, _, _, _) => SimplePreserved(s, s', st, cst, w, table, cx, fuel);
    case Print(_) => SimplePreserved(s, s', st, cst, w, table, cx, fuel);
    case If(_, _, _) => IfPreserved(s, s', st, cst, w, table, cx, fuel);
    case While(_, _) => WhilePreserved(s, s', st, cst, w, table, cx, fuel);
    case For(_, _, _, _) => ForPreserved(s, s', st, cst, w, table, cx, fuel);
    case Return(_) => ReturnPreserved(s, s', st, cst, w, table, cx, fuel);
    case ExprStmt(_) => ExprStmtPreserved(s, s', st, cst, w, table, cx, fuel);
  }

  /** The emitted call prints the text exactly when it holds no NUL. */
  lemma PrintAgrees(text: string, cst: CState, fns: CFunctions, order: Order, fuel: nat)
    ensures var r := CExec(CPrint(Escape(text)), cst, fns, order, fuel);
            r.Ok? && r.value.Next? && (r.value.st.out == cst.out + text <==> '\0' !in text)
  {
    hide Escape;
    hide Unescape;
    hide BeforeNul;
    UnescapeEscape(text);
    BeforeNulOfPlainText(text);
    var out := cst.out + BeforeNul(text);
    assert out[|cst.out|..] == BeforeNul(text) && (cst.out + text)[|cst.out|..] == text;
  }

  lemma SimplePreserved(s: Stmt, s': Stmt, st: State, cst: CState, w: World, table: Table, cx: Context, fuel: nat)
    requires WorldOk(w) && Same(st, cst, w, table, cx) && CheckStmt(s, table, w.arities) == Some((s', table))
    requires PlainStmt(s, w.order) && PortableStmt(s, cx) && (s.Gemm? || s.Print?)
    ensures SameFlow(Exec(s, st, w.fns, fuel), CExec(GenStmt(s'), cst, w.cfns, w.order, fuel), st, w, table, cx)
  {
    hide Same;
    hide SameGlobals;
    hide WorldOk;
    hide Multiply;
    hide NpuGemm;
    if s.Gemm? {
      MultiplySame(st, cst, w, table, cx, s.a, s.b, s.c, s'.m, s'.n, s'.k);
    } else {
      UnescapeEscape(s.text);
      BeforeNulOfPlainText(s.text);
      PrintSame(st, cst, w, table, cx, s.text);
    }
  }

  lemma {:induction false} VarDeclPreserved(s: Stmt, s': Stmt, st: State, cst: CState, w: World, table: Table, cx: Context,
                                            table': Table, fuel: nat)
    requires WorldOk(w) && Same(st, cst, w, table, cx) && CheckStmt(s, table, w.arities) == Some((s', table'))
    requires s.VarDecl?
    requires Fits(s.value, w.order)
    requires PortableExpr(s.value, cx.Declare(s.name))
    ensures SameFlow(Exec(s, st, w.fns, fuel), CExec(GenStmt(s'), cst, w.cfns, w.order, fuel), st, w, table',
                     cx.Declare(s.name))
    decreases fuel, s, 2
  {
    hide Same;
    hide SameGlobals;
    hide WorldOk;
    var after := cx.Declare(s.name);
    SameBefore(st, cst, w, table, cx, s.name);
    ExprPreserved(s.value, s'.value, st, cst, w, table, after, fuel);
    hide Eval;
    hide CEval;
    hide CheckExpr;
    hide GenExpr;
    var r := Eval(s.value, st, w.fns, fuel);
    if r.Ok? {
      DeclareSame(r.value.1, CEval(GenExpr(s'.value), cst, w.cfns, w.order, fuel).value.1, w, table, after, s.name, Scalar,
                  Num(r.value.0), CTarget.CNum(r.value.0));
    }
  }

  lemma {:induction false} AssignStmtPreserved(s: Stmt, s': Stmt, st: State, cst: CState, w: World, table: Table,
                                               cx: Context, fuel: nat)
    requires WorldOk(w) && Same(st, cst, w, table, cx) && CheckStmt(s, table, w.arities) == Some((s', table)) && s.Assign?
    requires w.order.LeftFirst? || OrderFreeAssign(s.target, s.value)
    requires PortableExpr(s.target, cx) && PortableExpr(s.value, cx)
    ensures SameFlow(Exec(s, st, w.fns, fuel), CExec(GenStmt(s'), cst, w.cfns, w.order, fuel), st, w, table, cx)
    decreases fuel, s, 3
  {
    hide Same;
    hide SameGlobals;
    hide WorldOk;
    AssignPreserved(s.target, s'.target, s.value, s'.value, st, cst, w, table, cx, fuel);
    hide ExecAssign;
    hide CExecAssign;
    hide CheckExpr;
    hide GenExpr;
  }

  lemma {:induction false} IfPreserved(s: Stmt, s': Stmt, st: State, cst: CState, w: World, table: Table, cx: Context,
                                       fuel: nat)
    requires WorldOk(w) && Same(st, cst, w, table, cx) && CheckStmt(s, table, w.arities) == Some((s', table))
    requires PlainStmt(s, w.order) && PortableStmt(s, cx) && s.If?
    ensures SameFlow(Exec(s, st, w.fns, fuel), CExec(GenStmt(s'), cst, w.cfns, w.order, fuel), st, w, table, cx)
    decreases fuel, s, 2
  {
    hide Same;
    hide SameGlobals;
    hide WorldOk;
    hide Eval;
    hide CEval;
    hide CheckExpr;
    hide GenExpr;
    hide Scoped;
    hide CScoped;
    hide CheckBlock;
    hide GenItems;
    hide CheckStmt;
    hide GenStmt;
    hide PlainStmt;
    hide PortableStmt;
    IfParts(s, s', table, cx, w.arities, w.order);
    ExprPreserved(s.cond, s'.cond, st, cst, w, table, cx, fuel);
    var r := Eval(s.cond, st, w.fns, fuel);
    if r.Ok? {
      var cst1 := CEval(GenExpr(s'.cond), cst, w.cfns, w.order, fuel).value.1;
      ScopedPreserved(s.thn, s'.thn, r.value.1, cst1, w, table, cx, fuel);
      if s.els.ElseBlock? { ScopedPreserved(s.els.items, s'.els.items, r.value.1, cst1, w, table, cx, fuel); }
    }
  }

  /** The analysis and the generator on an if, part by part. */
  lemma IfParts(s: Stmt, s': Stmt, table: Table, cx: Context, arities: Arities, order: Order)
    requires CheckStmt(s, table, arities) == Some((s', table)) && s.If? && PlainStmt(s, order) && PortableStmt(s, cx)
    ensures s'.If? && CheckExpr(s.cond, table, arities) == Some((s'.cond, Scalar))
    ensures CheckBlock(s.thn, table, arities).Some? && CheckBlock(s.thn, table, arities).value.0 == s'.thn
    ensures s.els.NoElse? <==> s'.els.NoElse?
    ensures s.els.ElseBlock? ==>
              && CheckBlock(s.els.items, table, arities).Some? && CheckBlock(s.els.items, table, arities).value.0 == s'.els.items
              && PlainItems(s.els.items, order) && PortableItems(s.els.items, cx)
    ensures Fits(s.cond, order) && PortableExpr(s.cond, cx) && PlainItems(s.thn, order) && PortableItems(s.thn, cx)
    ensures GenStmt(s') == CIf(GenExpr(s'.cond), GenItems(s'.thn),
                               if s'.els.NoElse? then CNoElse else CElseBlock(GenItems(s'.els.items)))
  {
    hide CheckBlock;
    hide CheckExpr;
    hide GenItems;
    hide GenExpr;
    hide PortableExpr;
    hide PortableItems;
    hide PlainItems;
  }

  lemma {:induction false} ReturnPreserved(s: Stmt, s': Stmt, st: State, cst: CState, w: World, table: Table,
                                           cx: Context, fuel: nat)
    requires WorldOk(w) && Same(st, cst, w, table, cx) && CheckStmt(s, table, w.arities) == Some((s', table)) && s.Return?
    requires Fits(s.value, w.order)
    requires PortableExpr(s.value, cx)
    ensures SameFlow(Exec(s, st, w.fns, fuel), CExec(GenStmt(s'), cst, w.cfns, w.order, fuel), st, w, table, cx)
    decreases fuel, s, 2
  {
    hide Same;
    hide SameGlobals;
    hide WorldOk;
    hide Eval;
    hide CEval;
    hide CheckExpr;
    hide GenExpr;
    ExprPreserved(s.value, s'.value, st, cst, w, table, cx, fuel);
    var r := Eval(s.value, st, w.fns, fuel);
    if r.Ok? { SameHasSameGlobals(r.value.1, CEval(GenExpr(s'.value), cst, w.cfns, w.order, fuel).value.1, w, table, cx); }
  }

  lemma DeclPreserved(s: Stmt, s': Stmt, st: State, cst: CState, w: World, table: Table, cx: Context, table': Table,
                      fuel: nat)
    requires WorldOk(w) && Same(st, cst, w, table, cx) && CheckStmt(s, table, w.arities) == Some((s', table'))
    requires s.TensorDecl?
    ensures SameFlow(Exec(s, st, w.fns, fuel), CExec(GenStmt(s'), cst, w.cfns, w.order, fuel), st, w, table',
                     cx.Declare(s.name))
  {
    hide Same;
    hide SameTensor;
    hide FlattenInit;
    hide Declare;
    hide CheckStmt;
    hide GenStmt;
    hide ShapeOf;
    hide WorldOk;
    DeclParts(s, s', table, table', w.arities);
    if Declare(s.rows, s.cols, s.init).Some? {
      DeclaredTensorSame(s.rows, s.cols, s.init);
      var g := Declare(s.rows, s.cols, s.init).value;
      SameBefore(st, cst, w, table, cx, s.name);
      DeclareSame(st, cst, w, table, cx.Declare(s.name), s.name, table'[s.name], Matrix(g),
                  Cells(FlattenInit(s'.rows, s'.cols, s'.init)));
    }
  }

  lemma DeclParts(s: Stmt, s': Stmt, table: Table, table': Table, arities: Arities)
    requires CheckStmt(s, table, arities) == Some((s', table')) && s.TensorDecl?
    ensures s.name !in table && ShapeOf(s.rows, s.cols, s.init).Some?
    ensures var (r, c) := ShapeOf(s.rows, s.cols, s.init).value;
            && s' == TensorDecl(s.name, Some(r), Some(c), s.init) && table' == table[s.name := Tensor(r, c)]
            && GenStmt(s') == CArray(s.name, Count(Some(r), Some(c)), FlattenInit(Some(r), Some(c), s.init))
  {
    hide ShapeOf;
    hide FlattenInit;
  }

  lemma {:induction false} ExprStmtPreserved(s: Stmt, s': Stmt, st: State, cst: CState, w: World, table: Table,
                                             cx: Context, fuel: nat)
    requires WorldOk(w) && Same(st, cst, w, table, cx) && CheckStmt(s, table, w.arities) == Some((s', table)) && s.ExprStmt?
    requires Fits(s.expr, w.order)
    requires PortableExpr(s.expr, cx)
    ensures SameFlow(Exec(s, st, w.fns, fuel), CExec(GenStmt(s'), cst, w.cfns, w.order, fuel), st, w, table, cx)
    decreases fuel, s, 2
  {
    hide Same;
    hide SameGlobals;
    hide WorldOk;
    hide OrderFree;
    if s.expr.VarRef? {
      if st.Lookup(s.expr.name).Some? { LookupSame(st, cst, w, table, cx, s.expr.name); }
    } else {
      ExprPreserved(s.expr, s'.expr, st, cst, w, table, cx, fuel);
      OnlyVariablesStay(s.expr, table, w.arities);
      hide Eval;
      hide CEval;
      hide CheckExpr;
      hide GenExpr;
    }
  }

  /** Only a variable becomes a variable. */
  lemma OnlyVariablesStay(e: Expr, table: Table, arities: Arities)
    requires CheckExpr(e, table, arities).Some?
    ensures GenExpr(CheckExpr(e, table, arities).value.0).CVar? <==> e.VarRef?
  {
  }

  lemma {:induction false} AssignPreserved(target: Expr, target': Expr, value: Expr, value': Expr, st: State, cst: CState,
                                           w: World, table: Table, cx: Context, fuel: nat)
    requires WorldOk(w) && Same(st, cst, w, table, cx) && CheckExpr(target, table, w.arities) == Some((target', Scalar))
    requires CheckExpr(value, table, w.arities) == Some((value', Scalar))
    requires w.order.LeftFirst? || OrderFreeAssign(target, value)
    requires PortableExpr(target, cx) && PortableExpr(value, cx)
    ensures SameUpdate(ExecAssign(target, value, st, w.fns, fuel),
                       CExecAssign(GenExpr(target'), GenExpr(value'), cst, w.cfns, w.order, fuel), st, w, table, cx)
    decreases fuel, Assign(target, value), 2
  {
    hide Same;
    hide SameGlobals;
    hide WorldOk;
    hide SameTensor;
    hide ApplyBinary;
    hide Flat;
    hide ExecAssign;
    hide CExecAssign;
    hide GenExpr;
    match target
    case VarRef(_) => VarAssignPreserved(target, target', value, value', st, cst, w, table, cx, fuel);
    case TensorIndex(_, _, _, _) => ElementAssignPreserved(target, target', value, value', st, cst, w, table, cx, fuel);
    case _ => OnlyLvalues(target, value, st, w.fns, fuel);
  }

  lemma OnlyLvalues(target: Expr, value: Expr, st: State, fns: Functions, fuel: nat)
    requires !target.VarRef? && !target.TensorIndex?
    ensures ExecAssign(target, value, st, fns, fuel).Stuck?
  {
  }

  lemma {:induction false} VarAssignPreserved(target: Expr, target': Expr, value: Expr, value': Expr, st: State, cst: CState,
                                              w: World, table: Table, cx: Context, fuel: nat)
    requires WorldOk(w) && Same(st, cst, w, table, cx) && CheckExpr(target, table, w.arities) == Some((target', Scalar))
    requires CheckExpr(value, table, w.arities) == Some((value', Scalar)) && target.VarRef?
    requires w.order.LeftFirst? || OrderFreeAssign(target, value)
    requires PortableExpr(target, cx) && PortableExpr(value, cx)
    ensures SameUpdate(ExecAssign(target, value, st, w.fns, fuel),
                       CExecAssign(GenExpr(target'), GenExpr(value'), cst, w.cfns, w.order, fuel), st, w, table, cx)
    decreases fuel, Assign(target, value), 0
  {
    hide Same;
    hide WorldOk;
    hide Eval;
    hide CEval;
    if ExecAssign(target, value, st, w.fns, fuel).Ok? {
      ExprPreserved(value, value', st, cst, w, table, cx, fuel);
      var r := Eval(value, st, w.fns, fuel);
      var cst1 := CEval(GenExpr(value'), cst, w.cfns, w.order, fuel).value.1;
      LookupSame(r.value.1, cst1, w, table, cx, target.name);
      AssignSame(r.value.1, cst1, w, table, cx, target.name, Num(r.value.0), CTarget.CNum(r.value.0));
    } else if w.order.LeftFirst? {
      ExprPreserved(value, value', st, cst, w, table, cx, fuel);
    }
  }

  lemma {:induction false} ElementAssignPreserved(target: Expr, target': Expr, value: Expr, value': Expr, st: State,
                                                  cst: CState, w: World, table: Table, cx: Context, fuel: nat)
    requires WorldOk(w) && Same(st, cst, w, table, cx) && CheckExpr(target, table, w.arities) == Some((target', Scalar))
    requires CheckExpr(value, table, w.arities) == Some((value', Scalar)) && target.TensorIndex?
    requires w.order.LeftFirst? || OrderFreeAssign(target, value)
    requires PortableExpr(target, cx) && PortableExpr(value, cx)
    ensures SameUpdate(ExecAssign(target, value, st, w.fns, fuel),
                       CExecAssign(GenExpr(target'), GenExpr(value'), cst, w.cfns, w.order, fuel), st, w, table, cx)
    decreases fuel, Assign(target, value), 1
  {
    hide CheckExpr;
    hide GenExpr;
    hide CEvalSides;
    hide SameNames;
    hide Same;
    hide WorldOk;
    hide Eval;
    hide CEval;
    hide SameTensor;
    hide ApplyBinary;
    hide Flat;
    hide OrderFree;
    GenIndex(target, target', table, w.arities);
    if ExecAssign(target, value, st, w.fns, fuel).Ok? {
      assert EvalPlace(target, st, w.fns, fuel).Ok?;
      var (x, st1) := Eval(target.row, st, w.fns, fuel).value;
      var (y, st2) := Eval(target.col, st1, w.fns, fuel).value;
      var (v, st3) := Eval(value, st2, w.fns, fuel).value;
      ElementInRange(target, target', value, value', st, cst, w, table, cx, fuel);
      if w.order.Swaps([GenExpr(target'), GenExpr(value')], cst) {
        ValueFirst(target, target', value, value', st, cst, w, table, cx, fuel);
      } else {
        IndexFirst(target, target', value, value', st, cst, w, table, cx, fuel);
      }
      var cst3 := CEvalSides(GenExpr(target'), GenExpr(value'), cst, w.cfns, w.order, fuel).value.1;
      ElementAssigned(st3, cst3, w, table, cx, target.name, x, y, v);
      SameNamesTwice(st, st3, ExecAssign(target, value, st, w.fns, fuel).value);
    } else if ExecAssign(target, value, st, w.fns, fuel).Timeout? && w.order.LeftFirst? {
      ElementGoesOn(target, target', value, value', st, cst, w, table, cx, fuel);
    }
  }

  /** While TensorC evaluates the sides, left to right, so does C. */
  lemma {:induction false} ElementGoesOn(target: Expr, target': Expr, value: Expr, value': Expr, st: State, cst: CState,
                                         w: World, table: Table, cx: Context, fuel: nat)
    requires WorldOk(w) && Same(st, cst, w, table, cx) && CheckExpr(target, table, w.arities) == Some((target', Scalar))
    requires CheckExpr(value, table, w.arities) == Some((value', Scalar)) && target.TensorIndex? && w.order.LeftFirst?
    requires PortableExpr(target, cx) && PortableExpr(value, cx) && ExecAssign(target, value, st, w.fns, fuel).Timeout?
    ensures GenExpr(target').CIndex? && CEvalSides(GenExpr(target'), GenExpr(value'), cst, w.cfns, w.order, fuel).Timeout?
    decreases fuel, Assign(target, value), 0
  {
    hide Same;
    hide WorldOk;
    hide Eval;
    hide CEval;
    hide EvalPlace;
    hide CheckExpr;
    hide GenExpr;
    hide IndexOf;
    hide Flat;
    GenIndex(target, target', table, w.arities);
    var place := EvalPlace(target, st, w.fns, fuel);
    var index := IndexOf(GenExpr(target'.row), GenExpr(target'.col), table[target.name].cols);
    if place.Timeout? {
      PlaceGoesOn(target, target', st, cst, w, table, cx, fuel);
    } else {
      PlacePreserved(target, target', st, cst, w, table, cx, fuel);
      ExprPreserved(value, value', place.value.1, CEval(index, cst, w.cfns, w.order, fuel).value.1, w, table, cx, fuel);
    }
  }

  /** TensorC evaluates the indexes, then the value. */
  predicate SidesEvaluate(target: Expr, value: Expr, st: State, fns: Functions, fuel: nat)
  {
    && target.TensorIndex? && Eval(target.row, st, fns, fuel).Ok?
    && Eval(target.col, Eval(target.row, st, fns, fuel).value.1, fns, fuel).Ok?
    && Eval(value, Eval(target.col, Eval(target.row, st, fns, fuel).value.1, fns, fuel).value.1, fns, fuel).Ok?
  }

  /** The element assigned exists, so its index is exact: seen by taking the sides as TensorC does. */
  lemma {:induction false} ElementInRange(target: Expr, target': Expr, value: Expr, value': Expr, st: State, cst: CState,
                                          w: World, table: Table, cx: Context, fuel: nat)
    requires WorldOk(w) && Same(st, cst, w, table, cx) && CheckExpr(target, table, w.arities) == Some((target', Scalar))
    requires CheckExpr(value, table, w.arities) == Some((value', Scalar)) && SidesEvaluate(target, value, st, w.fns, fuel)
    requires w.order.LeftFirst? || OrderFreeAssign(target, value)
    requires ExecAssign(target, value, st, w.fns, fuel).Ok?
    requires PortableExpr(target, cx) && PortableExpr(value, cx)
    ensures var (x, st1) := Eval(target.row, st, w.fns, fuel).value;
            var (y, st2) := Eval(target.col, st1, w.fns, fuel).value;
            var cols := table[target.name].cols;
            && IsInt32(cols) && ApplyBinary(MUL, x, cols) == Some(x * cols)
            && ApplyBinary(ADD, x * cols, y) == Some(Flat(x, y, cols))
    decreases fuel, Assign(target, value), 0
  {
    hide Same;
    hide WorldOk;
    hide Eval;
    hide CEval;
    hide SameTensor;
    hide ApplyBinary;
    hide Flat;
    hide OrderFree;
    var (x, st1) := Eval(target.row, st, w.fns, fuel).value;
    var (y, st2) := Eval(target.col, st1, w.fns, fuel).value;
    var (v, st3) := Eval(value, st2, w.fns, fuel).value;
    OperandsPreserved(target, target.row, target'.row, target.col, target'.col, false, st, cst, w, table, cx, fuel);
    var cst2 := InOrder(GenExpr(target'.row), GenExpr(target'.col), false, cst, w.cfns, w.order, fuel).value.1;
    ExprPreserved(value, value', st2, cst2, w, table, cx, fuel);
    ElementAssigned(st3, CEval(GenExpr(value'), cst2, w.cfns, w.order, fuel).value.1, w, table, cx, target.name, x, y, v);
  }

  lemma GenIndex(target: Expr, target': Expr, table: Table, arities: Arities)
    requires target.TensorIndex? && CheckExpr(target, table, arities) == Some((target', Scalar))
    ensures target'.TensorIndex? && target.name in table && table[target.name].Tensor?
    ensures CheckExpr(target.row, table, arities) == Some((target'.row, Scalar))
    ensures CheckExpr(target.col, table, arities) == Some((target'.col, Scalar))
    ensures GenExpr(target')
         == CIndex(target.name, IndexOf(GenExpr(target'.row), GenExpr(target'.col), table[target.name].cols))
  {
  }

  /** C takes the value first, and has the index, the value and the state of TensorC. */
  lemma {:induction false} ValueFirst(target: Expr, target': Expr, value: Expr, value': Expr, st: State, cst: CState,
                                          w: World, table: Table, cx: Context, fuel: nat)
    requires WorldOk(w) && Same(st, cst, w, table, cx) && CheckExpr(target, table, w.arities) == Some((target', Scalar))
    requires CheckExpr(value, table, w.arities) == Some((value', Scalar)) && SidesEvaluate(target, value, st, w.fns, fuel)
    requires w.order.LeftFirst? || OrderFreeAssign(target, value)
    requires var (x, st1) := Eval(target.row, st, w.fns, fuel).value;
             var (y, st2) := Eval(target.col, st1, w.fns, fuel).value;
             var cols := table[target.name].cols;
             && IsInt32(cols) && ApplyBinary(MUL, x, cols) == Some(x * cols)
             && ApplyBinary(ADD, x * cols, y) == Some(Flat(x, y, cols))
    requires w.order.Swaps([GenExpr(target'), GenExpr(value')], cst)
    requires PortableExpr(target, cx) && PortableExpr(value, cx)
    ensures var (x, st1) := Eval(target.row, st, w.fns, fuel).value;
            var (y, st2) := Eval(target.col, st1, w.fns, fuel).value;
            var (v, st3) := Eval(value, st2, w.fns, fuel).value;
            var c := CEvalSides(GenExpr(target'), GenExpr(value'), cst, w.cfns, w.order, fuel);
            && c.Ok? && c.value.0 == (Flat(x, y, table[target.name].cols), v)
            && Same(st3, c.value.1, w, table, cx) && SameNames(st, st3)
    decreases fuel, Assign(target, value), 0
  {
    hide Same;
    hide WorldOk;
    hide Eval;
    hide CEval;
    hide ApplyBinary;
    hide Flat;
    hide OrderFree;
    hide InOrder;
    hide CheckExpr;
    hide GenExpr;
    hide IndexSwaps;
    hide SameNames;
    GenIndex(target, target', table, w.arities);
    var (x, st1) := Eval(target.row, st, w.fns, fuel).value;
    var (y, st2) := Eval(target.col, st1, w.fns, fuel).value;
    var row, col, cols := GenExpr(target'.row), GenExpr(target'.col), table[target.name].cols;
    OperandsPreserved(target, target.row, target'.row, target.col, target'.col, false, st, cst, w, table, cx, fuel);
    SameOnlyMatrices(st, cst, w, table, cx);
    SameOnlyMatrices(st2, InOrder(row, col, false, cst, w.cfns, w.order, fuel).value.1, w, table, cx);
    SwappedSides(target.row, target.col, value, st, w.fns, fuel);
    ExprPreserved(value, value', st, cst, w, table, cx, fuel);
    var from, cfrom := Eval(value, st, w.fns, fuel).value.1, CEval(GenExpr(value'), cst, w.cfns, w.order, fuel).value.1;
    SwapsChosen(row, col, cols, cfrom, w.order);
    OperandsPreserved(target, target.row, target'.row, target.col, target'.col,
                      IndexSwaps(row, col, cols, cfrom, w.order), from, cfrom, w, table, cx, fuel);
    IndexEvaluates(row, col, cols, Flat(x, y, cols), cfrom, w.cfns, w.order, fuel);
    SameNamesTwice(st, from, Eval(value, st2, w.fns, fuel).value.1);
  }

  lemma SameNamesTwice(st: State, st1: State, st2: State)
    requires SameNames(st, st1) && SameNames(st1, st2)
    ensures SameNames(st, st2)
  {
  }

  /** C takes the index first. */
  lemma {:induction false} IndexFirst(target: Expr, target': Expr, value: Expr, value': Expr, st: State, cst: CState,
                                          w: World, table: Table, cx: Context, fuel: nat)
    requires WorldOk(w) && Same(st, cst, w, table, cx) && CheckExpr(target, table, w.arities) == Some((target', Scalar))
    requires CheckExpr(value, table, w.arities) == Some((value', Scalar)) && SidesEvaluate(target, value, st, w.fns, fuel)
    requires w.order.LeftFirst? || OrderFreeAssign(target, value)
    requires var (x, st1) := Eval(target.row, st, w.fns, fuel).value;
             var (y, st2) := Eval(target.col, st1, w.fns, fuel).value;
             var cols := table[target.name].cols;
             && IsInt32(cols) && ApplyBinary(MUL, x, cols) == Some(x * cols)
             && ApplyBinary(ADD, x * cols, y) == Some(Flat(x, y, cols))
    requires !w.order.Swaps([GenExpr(target'), GenExpr(value')], cst)
    requires PortableExpr(target, cx) && PortableExpr(value, cx)
    ensures var (x, st1) := Eval(target.row, st, w.fns, fuel).value;
            var (y, st2) := Eval(target.col, st1, w.fns, fuel).value;
            var (v, st3) := Eval(value, st2, w.fns, fuel).value;
            var c := CEvalSides(GenExpr(target'), GenExpr(value'), cst, w.cfns, w.order, fuel);
            && c.Ok? && c.value.0 == (Flat(x, y, table[target.name].cols), v)
            && Same(st3, c.value.1, w, table, cx) && SameNames(st, st3)
    decreases fuel, Assign(target, value), 0
  {
    hide Same;
    hide WorldOk;
    hide Eval;
    hide CEval;
    hide ApplyBinary;
    hide Flat;
    hide OrderFree;
    hide InOrder;
    hide CheckExpr;
    hide GenExpr;
    hide IndexSwaps;
    hide SameNames;
    GenIndex(target, target', table, w.arities);
    var (x, st1) := Eval(target.row, st, w.fns, fuel).value;
    var (y, st2) := Eval(target.col, st1, w.fns, fuel).value;
    var row, col, cols := GenExpr(target'.row), GenExpr(target'.col), table[target.name].cols;
    var swapped := IndexSwaps(row, col, cols, cst, w.order);
    SwapsChosen(row, col, cols, cst, w.order);
    OperandsPreserved(target, target.row, target'.row, target.col, target'.col, swapped, st, cst, w, table, cx, fuel);
    IndexEvaluates(row, col, cols, Flat(x, y, cols), cst, w.cfns, w.order, fuel);
    ExprPreserved(value, value', st2, InOrder(row, col, swapped, cst, w.cfns, w.order, fuel).value.1, w, table, cx, fuel);
    SameNamesTwice(st, st2, Eval(value, st2, w.fns, fuel).value.1);
  }

  lemma SwapsChosen(row: CExpr, col: CExpr, cols: int, cst: CState, order: Order)
    ensures IndexSwaps(row, col, cols, cst, order) ==> order.Chosen?
  {
  }

  /** Writing element (r, c) of a tensor is writing word r * cols + c of its array. */
  lemma ElementAssigned(st: State, cst: CState, w: World, table: Table, cx: Context, name: string, r: int, c: int, v: int)
    requires Same(st, cst, w, table, cx) && name in table && table[name].Tensor? && st.Lookup(name).Some?
    requires st.Lookup(name).value.Matrix? && 0 <= r < |st.Lookup(name).value.grid|
    requires 0 <= c < |st.Lookup(name).value.grid[r]|
    ensures var cols := table[name].cols;
            && IsInt32(cols) && ApplyBinary(MUL, r, cols) == Some(r * cols)
            && ApplyBinary(ADD, r * cols, c) == Some(Flat(r, c, cols))
    ensures cst.Lookup(name).Some? && cst.Lookup(name).value.Cells?
    ensures var g, cells := st.Lookup(name).value.grid, cst.Lookup(name).value.cells;
            && 0 <= Flat(r, c, table[name].cols) < |cells|
            && Same(st.Assigned(name, Matrix(g[r := g[r][c := v]])),
                    cst.Assigned(name, Cells(cells[Flat(r, c, table[name].cols) := v])), w, table, cx)
            && SameNames(st, st.Assigned(name, Matrix(g[r := g[r][c := v]])))
  {
    hide Same;
    hide Flat;
    hide ApplyBinary;
    LookupSame(st, cst, w, table, cx, name);
    var g, cells, ty := st.Lookup(name).value.grid, cst.Lookup(name).value.cells, table[name];
    IndexSame(g, cells, ty.rows, ty.cols, r, c);
    UpdateSame(g, cells, ty.rows, ty.cols, r, c, v);
    AssignSame(st, cst, w, table, cx, name, Matrix(g[r := g[r][c := v]]), Cells(cells[Flat(r, c, ty.cols) := v]));
  }

  lemma {:induction false} WhilePreserved(s: Stmt, s': Stmt, st: State, cst: CState, w: World, table: Table,
                                          cx: Context, fuel: nat)
    requires WorldOk(w) && Same(st, cst, w, table, cx) && CheckStmt(s, table, w.arities) == Some((s', table))
    requires PlainStmt(s, w.order) && PortableStmt(s, cx) && s.While?
    ensures SameFlow(Exec(s, st, w.fns, fuel), CExec(GenStmt(s'), cst, w.cfns, w.order, fuel), st, w, table, cx)
    decreases fuel, s, 2
  {
    hide CheckStmt;
    hide GenStmt;
    hide PlainStmt;
    hide PortableStmt;
    hide Same;
    hide SameGlobals;
    hide WorldOk;
    hide Eval;
    hide CEval;
    hide CheckExpr;
    hide GenExpr;
    hide Scoped;
    hide CScoped;
    hide CheckBlock;
    hide GenItems;
    WhileParts(s, s', table, cx, w.arities, w.order);
    ExprPreserved(s.cond, s'.cond, st, cst, w, table, cx, fuel);
    var r := Eval(s.cond, st, w.fns, fuel);
    if r.Ok? && r.value.0 != 0 {
      var cst1 := CEval(GenExpr(s'.cond), cst, w.cfns, w.order, fuel).value.1;
      ScopedPreserved(s.body, s'.body, r.value.1, cst1, w, table, cx, fuel);
      var flow := Scoped(s.body, r.value.1, w.fns, fuel);
      if flow.Ok? && flow.value.Next? && fuel > 0 {
        var cflow := CScoped(GenItems(s'.body), cst1, w.cfns, w.order, fuel);
        StmtPreserved(s, s', flow.value.st, cflow.value.st, w, table, cx, table, fuel - 1);
      }
    }
  }

  lemma WhileParts(s: Stmt, s': Stmt, table: Table, cx: Context, arities: Arities, order: Order)
    requires CheckStmt(s, table, arities) == Some((s', table)) && s.While? && PlainStmt(s, order) && PortableStmt(s, cx)
    ensures s'.While? && CheckExpr(s.cond, table, arities) == Some((s'.cond, Scalar))
    ensures CheckBlock(s.body, table, arities).Some? && CheckBlock(s.body, table, arities).value.0 == s'.body
    ensures Fits(s.cond, order) && PortableExpr(s.cond, cx) && PlainItems(s.body, order) && PortableItems(s.body, cx)
    ensures Declared(s, cx) == cx && GenStmt(s') == CWhile(GenExpr(s'.cond), GenItems(s'.body))
  {
    hide CheckBlock;
    hide CheckExpr;
    hide GenItems;
    hide GenExpr;
    hide PortableExpr;
    hide PortableItems;
    hide PlainItems;
  }

  function DeclaredPart(part: Option<Stmt>, cx: Context): Context
  {
    if part.None? then cx else Declared(part.value, cx)
  }

  lemma {:induction false} PartPreserved(part: Option<Stmt>, part': Option<Stmt>, st: State, cst: CState, w: World,
                                         table: Table, cx: Context, table': Table, fuel: nat)
    requires WorldOk(w) && Same(st, cst, w, table, cx) && CheckPart(part, table, w.arities) == Some((part', table'))
    requires part.Some? ==> PlainStmt(part.value, w.order) && PortableStmt(part.value, cx)
    ensures SameFlow(ExecPart(part, st, w.fns, fuel), CExecPart(GenPart(part'), cst, w.cfns, w.order, fuel), st, w, table',
                     DeclaredPart(part, cx))
    decreases fuel, part, 0
  {
    hide Same;
    hide SameGlobals;
    hide WorldOk;
    if part.Some? { StmtPreserved(part.value, part'.value, st, cst, w, table, cx, table', fuel); }
  }

  lemma {:induction false} ForPreserved(s: Stmt, s': Stmt, st: State, cst: CState, w: World, table: Table, cx: Context,
                                        fuel: nat)
    requires WorldOk(w) && Same(st, cst, w, table, cx) && CheckStmt(s, table, w.arities) == Some((s', table))
    requires PlainStmt(s, w.order) && PortableStmt(s, cx) && s.For?
    ensures SameFlow(Exec(s, st, w.fns, fuel), CExec(GenStmt(s'), cst, w.cfns, w.order, fuel), st, w, table, cx)
    decreases fuel, s, 2
  {
    hide Same;
    hide SameGlobals;
    hide WorldOk;
    hide PlainItems;
    hide GenPart;
    hide Eval;
    hide CEval;
    hide CheckExpr;
    hide GenExpr;
    hide Scoped;
    hide CScoped;
    hide CheckBlock;
    hide GenItems;
    hide ExecPart;
    hide CExecPart;
    hide Repeat;
    hide CRepeat;
    ForParts(s, s', table, cx, w.arities, w.order);
    hide CheckStmt;
    hide GenStmt;
    hide PlainStmt;
    hide PortableStmt;
    hide PortableRound;
    hide CheckPart;
    var inside := DeclaredPart(s.start, cx);
    hide DeclaredPart;
    var local := CheckPart(s.start, table, w.arities).value.1;
    PartPreserved(s.start, s'.start, st, cst, w, table, cx, local, fuel);
    var flow, cflow := ExecPart(s.start, st, w.fns, fuel), CExecPart(GenPart(s'.start), cst, w.cfns, w.order, fuel);
    if flow.Ok? && flow.value.Next? {
      RepeatPreserved(s, s', flow.value.st, cflow.value.st, w, local, inside, fuel);
      var end, cend := Repeat(s, flow.value.st, w.fns, fuel), CRepeat(GenStmt(s'), cflow.value.st, w.cfns, w.order, fuel);
      if end.Ok? {
        FlowJoins(end.value, cend.value, st, flow.value.st, w, local, inside);
        FlowLeaves(end.value, cend.value, st, cst, w, table, cx, local, inside);
      }
    }
  }

  /** What a for loop asks of the places its rounds see. */
  predicate PortableRound(s: Stmt, cx: Context)
    requires s.For?
  {
    && (s.test.Some? ==> PortableExpr(s.test.value, cx))
    && (s.step.Some? ==> SimplePart(s.step.value) && PortableStmt(s.step.value, cx)) && PortableItems(s.body, cx)
  }

  /** The analysis and the generator on a for loop, part by part. */
  lemma ForParts(s: Stmt, s': Stmt, table: Table, cx: Context, arities: Arities, order: Order)
    requires CheckStmt(s, table, arities) == Some((s', table)) && s.For?
    requires PlainStmt(s, order) && PortableStmt(s, cx)
    ensures s'.For? && CheckPart(s.start, table, arities).Some? && CheckPart(s.start, table, arities).value.0 == s'.start
    ensures var local := CheckPart(s.start, table, arities).value.1;
            && CheckTest(s.test, local, arities) == Some(s'.test)
            && CheckPart(s.step, local, arities) == Some((s'.step, local))
            && CheckBlock(s.body, local, arities).Some? && CheckBlock(s.body, local, arities).value.0 == s'.body
            && Extends(table, local)
    ensures s.start.Some? ==> PlainStmt(s.start.value, order) && PortableStmt(s.start.value, cx)
    ensures PortableRound(s, DeclaredPart(s.start, cx))
    ensures Declared(s, cx) == cx
    ensures GenStmt(s') == GenFor(s')
  {
    hide CheckBlock;
    hide CheckExpr;
    hide GenExpr;
    hide GenItems;
    hide PlainItems;
    StepKeepsNames(s.step, CheckPart(s.start, table, arities).value.1, arities);
    if s.start.Some? { CheckStmtExtends(s.start.value, table, arities); }
  }

  function GenFor(s: Stmt): CStmt
    requires s.For?
  {
    CFor(GenPart(s.start), if s.test.None? then None else Some(GenExpr(s.test.value)), GenPart(s.step), GenItems(s.body))
  }

  lemma FlowJoins(flow: Flow<Value>, cflow: Flow<CValue>, outer: State, st: State, w: World, table: Table, cx: Context)
    requires SameFlow(Ok(flow), Ok(cflow), st, w, table, cx)
    requires outer.locals.Keys <= st.locals.Keys && outer.globals.Keys == st.globals.Keys
    ensures SameFlow(Ok(flow), Ok(cflow), outer, w, table, cx)
  {
    hide Same;
    hide SameGlobals;
  }

  lemma StepKeepsNames(step: Option<Stmt>, table: Table, arities: Arities)
    requires step.Some? ==> SimplePart(step.value)
    ensures CheckPart(step, table, arities).Some? ==> CheckPart(step, table, arities).value.1 == table
  {
  }

  lemma {:induction false} RepeatPreserved(s: Stmt, s': Stmt, st: State, cst: CState, w: World, local: Table,
                                           cx: Context, fuel: nat)
    requires WorldOk(w) && Same(st, cst, w, local, cx) && s.For? && s'.For?
    requires PlainStmt(s, w.order) && PortableRound(s, cx)
    requires CheckTest(s.test, local, w.arities) == Some(s'.test)
    requires CheckPart(s.step, local, w.arities) == Some((s'.step, local))
    requires CheckBlock(s.body, local, w.arities).Some? && CheckBlock(s.body, local, w.arities).value.0 == s'.body
    requires GenStmt(s') == GenFor(s')
    ensures SameFlow(Repeat(s, st, w.fns, fuel), CRepeat(GenStmt(s'), cst, w.cfns, w.order, fuel), st, w, local, cx)
    decreases fuel, s, 1
  {
    hide Same;
    hide SameGlobals;
    hide WorldOk;
    hide GenStmt;
    hide PlainStmt;
    hide PlainItems;
    hide PortableRound;
    hide PortableExpr;
    hide Fits;
    hide CheckPart;
    hide CheckTest;
    hide CheckBlock;
    hide EvalTest;
    hide CEvalTest;
    hide Round;
    hide CRound;
    var cs := GenStmt(s');
    PlainStep(s, w.order);
    PortableTest(s, cx);
    TestPreserved(s.test, s'.test, st, cst, w, local, cx, fuel);
    var r := EvalTest(s.test, st, w.fns, fuel);
    if r.Ok? && r.value.0 != 0 {
      var cst1 := CEvalTest(cs.test, cst, w.cfns, w.order, fuel).value.1;
      RoundPreserved(s, s', r.value.1, cst1, w, local, cx, fuel);
      var flow, cflow := Round(s, r.value.1, w.fns, fuel), CRound(cs, cst1, w.cfns, w.order, fuel);
      if flow.Ok? && flow.value.Next? && fuel > 0 {
        RepeatPreserved(s, s', flow.value.st, cflow.value.st, w, local, cx, fuel - 1);
      }
    }
  }

  lemma {:induction false} RoundPreserved(s: Stmt, s': Stmt, st: State, cst: CState, w: World, local: Table,
                                          cx: Context, fuel: nat)
    requires WorldOk(w) && Same(st, cst, w, local, cx) && s.For? && s'.For?
    requires PlainStmt(s, w.order) && PortableRound(s, cx)
    requires CheckPart(s.step, local, w.arities) == Some((s'.step, local))
    requires CheckBlock(s.body, local, w.arities).Some? && CheckBlock(s.body, local, w.arities).value.0 == s'.body
    requires GenStmt(s') == GenFor(s')
    ensures SameFlow(Round(s, st, w.fns, fuel), CRound(GenStmt(s'), cst, w.cfns, w.order, fuel), st, w, local, cx)
    decreases fuel, s, 0
  {
    hide Same;
    hide SameGlobals;
    hide WorldOk;
    hide GenStmt;
    hide CheckPart;
    hide CheckBlock;
    hide Scoped;
    hide CScoped;
    hide ExecPart;
    hide CExecPart;
    hide PlainItems;
    var cs := GenStmt(s');
    PlainStep(s, w.order);
    ScopedPreserved(s.body, s'.body, st, cst, w, local, cx, fuel);
    var flow, cflow := Scoped(s.body, st, w.fns, fuel), CScoped(cs.body, cst, w.cfns, w.order, fuel);
    if flow.Ok? && flow.value.Next? {
      PartPreserved(s.step, s'.step, flow.value.st, cflow.value.st, w, local, cx, local, fuel);
    }
  }

  lemma PortableTest(s: Stmt, cx: Context)
    requires s.For? && PortableRound(s, cx)
    ensures s.test.Some? ==> PortableExpr(s.test.value, cx)
  {
  }

  lemma PlainStep(s: Stmt, order: Order)
    requires s.For? && PlainStmt(s, order)
    ensures PlainItems(s.body, order) && (s.step.Some? ==> PlainStmt(s.step.value, order))
    ensures s.test.Some? ==> Fits(s.test.value, order)
  {
  }

  lemma {:induction false} TestPreserved(test: Option<Expr>, test': Option<Expr>, st: State, cst: CState, w: World,
                                         table: Table, cx: Context, fuel: nat)
    requires WorldOk(w) && Same(st, cst, w, table, cx) && CheckTest(test, table, w.arities) == Some(test')
    requires test.Some? ==> Fits(test.value, w.order)
    requires test.Some? ==> PortableExpr(test.value, cx)
    ensures SameResult(EvalTest(test, st, w.fns, fuel),
                       CEvalTest(if test'.None? then None else Some(GenExpr(test'.value)), cst, w.cfns, w.order, fuel),
                       st, w, table, cx)
    decreases fuel, test, 0
  {
    hide Same;
    hide WorldOk;
    if test.Some? { ExprPreserved(test.value, test'.value, st, cst, w, table, cx, fuel); }
  }
}
