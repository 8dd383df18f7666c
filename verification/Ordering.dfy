/** Expressions whose operands may be evaluated in any order: beside a call, only literals and variables. */
module Ordering {
  import opened TensorAst
  import opened Evaluation
  import opened TensorCSemantics

  /** A call may print and write tensors. */
  predicate Calls(e: Expr)
    decreases e, 1
  {
    match e
    case TensorIndex(_, row, col, _) => Calls(row) || Calls(col)
    case Unary(_, x) => Calls(x)
    case Binary(_, x, y) => Calls(x) || Calls(y)
    case Call(_, _) => true
    case _ => false
  }

  predicate AnyCalls(args: seq<Expr>)
    decreases args, 0
  {
    args != [] && (Calls(args[0]) || AnyCalls(args[1..]))
  }

  /** No call changes the value: the expression reads variables only, which belong to one function. */
  predicate Steady(e: Expr)
    decreases e, 1
  {
    match e
    case IntLiteral(_) => true
    case VarRef(_) => true
    case Unary(_, x) => Steady(x)
    case Binary(_, x, y) => Steady(x) && Steady(y)
    case _ => false
  }

  predicate AllSteady(args: seq<Expr>)
    decreases args, 0
  {
    args == [] || (Steady(args[0]) && AllSteady(args[1..]))
  }

  /** If one side calls, the other is steady. */
  predicate Independent(xs: seq<Expr>, ys: seq<Expr>)
  {
    (AnyCalls(xs) ==> AllSteady(ys)) && (AnyCalls(ys) ==> AllSteady(xs))
  }

  predicate OrderFree(e: Expr)
    decreases e, 1
  {
    match e
    case TensorIndex(_, row, col, _) => OrderFree(row) && OrderFree(col) && Independent([row], [col])
    case Unary(_, x) => OrderFree(x)
    case Binary(_, x, y) => OrderFree(x) && OrderFree(y) && Independent([x], [y])
    case Call(_, args) => AllOrderFree(args)
    case _ => true
  }

  predicate AllOrderFree(args: seq<Expr>)
    decreases args, 0
  {
    args == [] || (OrderFree(args[0]) && AllOrderFree(args[1..]) && Independent([args[0]], args[1..]))
  }

  /** An assignment writes after both sides have been evaluated; only the indexes of its target are evaluated. */
  predicate OrderFreeAssign(target: Expr, value: Expr)
  {
    OrderFree(target) && OrderFree(value) && (target.TensorIndex? ==> Independent([target.row, target.col], [value]))
  }

  // ----- why it does not matter -----

  /** Calls return to the caller's own variables. */
  lemma {:induction false} EvalKeepsLocals(e: Expr, st: State, fns: Functions, fuel: nat)
    ensures var r := Eval(e, st, fns, fuel); r.Ok? ==> r.value.1.locals == st.locals
    decreases e, 1
  {
    hide ApplyBinary;
    hide ApplyUnary;
    hide ExecBlock;
    match e
    case TensorIndex(_, row, col, _) =>
      EvalKeepsLocals(row, st, fns, fuel);
      var r := Eval(row, st, fns, fuel);
      if r.Ok? { EvalKeepsLocals(col, r.value.1, fns, fuel); }
    case Unary(_, x) => EvalKeepsLocals(x, st, fns, fuel);
    case Binary(_, x, y) =>
      EvalKeepsLocals(x, st, fns, fuel);
      var r := Eval(x, st, fns, fuel);
      if r.Ok? { EvalKeepsLocals(y, r.value.1, fns, fuel); }
    case Call(_, args) => ArgsKeepLocals(args, st, fns, fuel);
    case _ =>
  }

  lemma {:induction false} ArgsKeepLocals(args: seq<Expr>, st: State, fns: Functions, fuel: nat)
    ensures var r := EvalArgs(args, st, fns, fuel); r.Ok? ==> r.value.1.locals == st.locals
    decreases args, 0
  {
    if args != [] {
      EvalKeepsLocals(args[0], st, fns, fuel);
      var r := Eval(args[0], st, fns, fuel);
      if r.Ok? { ArgsKeepLocals(args[1..], r.value.1, fns, fuel); }
    }
  }

  lemma {:induction false} NoCallNoChange(e: Expr, st: State, fns: Functions, fuel: nat)
    requires !Calls(e)
    ensures var r := Eval(e, st, fns, fuel); r.Ok? ==> r.value.1 == st
    decreases e
  {
    hide ApplyBinary;
    hide ApplyUnary;
    match e
    case TensorIndex(_, row, col, _) => NoCallNoChange(row, st, fns, fuel); NoCallNoChange(col, st, fns, fuel);
    case Unary(_, x) => NoCallNoChange(x, st, fns, fuel);
    case Binary(_, x, y) => NoCallNoChange(x, st, fns, fuel); NoCallNoChange(y, st, fns, fuel);
    case _ =>
  }

  lemma {:induction false} NoCallsNoChange(args: seq<Expr>, st: State, fns: Functions, fuel: nat)
    requires !AnyCalls(args)
    ensures var r := EvalArgs(args, st, fns, fuel); r.Ok? ==> r.value.1 == st
    decreases |args|
  {
    if args != [] {
      NoCallNoChange(args[0], st, fns, fuel);
      NoCallsNoChange(args[1..], st, fns, fuel);
    }
  }

  ghost predicate OnlyMatrices(st: State)
  {
    forall n :: n in st.globals ==> st.globals[n].Matrix?
  }

  lemma {:induction false} SteadyEval(e: Expr, st: State, st': State, fns: Functions, fuel: nat)
    requires Steady(e) && st'.locals == st.locals && OnlyMatrices(st)
    ensures var r := Eval(e, st, fns, fuel); r.Ok? ==> r.value.1 == st && Eval(e, st', fns, fuel) == Ok((r.value.0, st'))
    decreases e
  {
    hide ApplyBinary;
    hide ApplyUnary;
    match e
    case Unary(_, x) => SteadyEval(x, st, st', fns, fuel);
    case Binary(_, x, y) => SteadyEval(x, st, st', fns, fuel); SteadyEval(y, st, st', fns, fuel);
    case _ =>
  }

  lemma {:induction false} SteadyArgs(args: seq<Expr>, st: State, st': State, fns: Functions, fuel: nat)
    requires AllSteady(args) && st'.locals == st.locals && OnlyMatrices(st)
    ensures var r := EvalArgs(args, st, fns, fuel); r.Ok? ==> EvalArgs(args, st', fns, fuel) == Ok((r.value.0, st'))
    decreases |args|
  {
    if args != [] {
      SteadyEval(args[0], st, st', fns, fuel);
      SteadyArgs(args[1..], st, st', fns, fuel);
      SteadyMakeNoCalls(args[1..]);
    }
  }

  lemma {:induction false} SteadyMakeNoCalls(args: seq<Expr>)
    requires AllSteady(args)
    ensures !AnyCalls(args)
    decreases |args|
  {
    if args != [] {
      SteadyNoCalls(args[0]);
      SteadyMakeNoCalls(args[1..]);
    }
  }

  lemma {:induction false} SteadyNoCalls(e: Expr)
    requires Steady(e)
    ensures !Calls(e)
  {
    match e
    case Unary(_, x) => SteadyNoCalls(x);
    case Binary(_, x, y) => SteadyNoCalls(x); SteadyNoCalls(y);
    case _ =>
  }

  /** Independent sides can be exchanged: same values, same final state. */
  lemma SwappedArgs(xs: seq<Expr>, ys: seq<Expr>, st: State, fns: Functions, fuel: nat)
    requires Independent(xs, ys) && EvalArgs(xs, st, fns, fuel).Ok?
    requires var st1 := EvalArgs(xs, st, fns, fuel).value.1;
             EvalArgs(ys, st1, fns, fuel).Ok? && OnlyMatrices(st) && OnlyMatrices(st1)
    ensures var (vs, st1) := EvalArgs(xs, st, fns, fuel).value;
            var (ws, st2) := EvalArgs(ys, st1, fns, fuel).value;
            var r := EvalArgs(ys, st, fns, fuel);
            r.Ok? && r.value.0 == ws && EvalArgs(xs, r.value.1, fns, fuel) == Ok((vs, st2))
  {
    hide EvalArgs;
    hide OnlyMatrices;
    var (vs, st1) := EvalArgs(xs, st, fns, fuel).value;
    var (ws, st2) := EvalArgs(ys, st1, fns, fuel).value;
    ArgsKeepLocals(xs, st, fns, fuel);
    ArgsKeepLocals(ys, st1, fns, fuel);
    if AnyCalls(xs) {
      SteadyMakeNoCalls(ys);
      NoCallsNoChange(ys, st1, fns, fuel);
      SteadyArgs(ys, st1, st, fns, fuel);
      assert EvalArgs(ys, st, fns, fuel) == Ok((ws, st));
    } else {
      NoCallsNoChange(xs, st, fns, fuel);
      assert EvalArgs(ys, st, fns, fuel) == Ok((ws, st2));
      if AnyCalls(ys) {
        SteadyArgs(xs, st, st2, fns, fuel);
      } else {
        NoCallsNoChange(ys, st, fns, fuel);
      }
      assert EvalArgs(xs, st2, fns, fuel) == Ok((vs, st2));
    }
  }

  /** One operand is a list of one. */
  lemma OneArg(e: Expr, st: State, fns: Functions, fuel: nat)
    ensures var r, rs := Eval(e, st, fns, fuel), EvalArgs([e], st, fns, fuel);
            (rs.Ok? <==> r.Ok?) && (r.Ok? ==> rs.value.0 == [r.value.0] && rs.value.1 == r.value.1)
  {
    hide Eval;
    var r := Eval(e, st, fns, fuel);
    assert [e][1..] == [];
    if r.Ok? {
      assert EvalArgs([], r.value.1, fns, fuel) == Ok(([], r.value.1));
      assert [r.value.0] + [] == [r.value.0];
    }
  }

  /** ... for two operands. */
  lemma SwappedOperands(x: Expr, y: Expr, st: State, fns: Functions, fuel: nat)
    requires Independent([x], [y]) && Eval(x, st, fns, fuel).Ok?
    requires var st1 := Eval(x, st, fns, fuel).value.1;
             Eval(y, st1, fns, fuel).Ok? && OnlyMatrices(st) && OnlyMatrices(st1)
    ensures var (v, st1) := Eval(x, st, fns, fuel).value;
            var (w, st2) := Eval(y, st1, fns, fuel).value;
            var r := Eval(y, st, fns, fuel);
            r.Ok? && r.value.0 == w && Eval(x, r.value.1, fns, fuel) == Ok((v, st2))
  {
    hide Eval;
    var st1 := Eval(x, st, fns, fuel).value.1;
    OneArg(x, st, fns, fuel);
    OneArg(y, st1, fns, fuel);
    SwappedArgs([x], [y], st, fns, fuel);
    OneArg(y, st, fns, fuel);
    OneArg(x, Eval(y, st, fns, fuel).value.1, fns, fuel);
  }

  /** ... for the first argument and the others. */
  lemma SwappedFirst(args: seq<Expr>, st: State, fns: Functions, fuel: nat)
    requires args != [] && Independent([args[0]], args[1..]) && EvalArgs(args, st, fns, fuel).Ok?
    requires OnlyMatrices(st) && OnlyMatrices(Eval(args[0], st, fns, fuel).value.1)
    ensures var (v, st1) := Eval(args[0], st, fns, fuel).value;
            var (vs, st2) := EvalArgs(args[1..], st1, fns, fuel).value;
            var r := EvalArgs(args[1..], st, fns, fuel);
            && EvalArgs(args, st, fns, fuel) == Ok(([v] + vs, st2))
            && r.Ok? && r.value.0 == vs && Eval(args[0], r.value.1, fns, fuel) == Ok((v, st2))
  {
    hide Eval;
    OneArg(args[0], st, fns, fuel);
    SwappedArgs([args[0]], args[1..], st, fns, fuel);
    OneArg(args[0], EvalArgs(args[1..], st, fns, fuel).value.1, fns, fuel);
  }

  /** ... for the indexes of an element and the value written to it. */
  lemma SwappedSides(row: Expr, col: Expr, value: Expr, st: State, fns: Functions, fuel: nat)
    requires Independent([row, col], [value]) && OnlyMatrices(st)
    requires Eval(row, st, fns, fuel).Ok? && Eval(col, Eval(row, st, fns, fuel).value.1, fns, fuel).Ok?
    requires var st2 := Eval(col, Eval(row, st, fns, fuel).value.1, fns, fuel).value.1;
             Eval(value, st2, fns, fuel).Ok? && OnlyMatrices(st2)
    ensures var (x, st1) := Eval(row, st, fns, fuel).value;
            var (y, st2) := Eval(col, st1, fns, fuel).value;
            var (v, st3) := Eval(value, st2, fns, fuel).value;
            var r := Eval(value, st, fns, fuel);
            && r.Ok? && r.value.0 == v && Eval(row, r.value.1, fns, fuel).Ok? && Eval(row, r.value.1, fns, fuel).value.0 == x
            && Eval(col, Eval(row, r.value.1, fns, fuel).value.1, fns, fuel) == Ok((y, st3))
  {
    hide Eval;
    hide EvalArgs;
    hide OnlyMatrices;
    hide Independent;
    var st2 := Eval(col, Eval(row, st, fns, fuel).value.1, fns, fuel).value.1;
    TwoArgs(row, col, st, fns, fuel);
    OneArg(value, st2, fns, fuel);
    SwappedArgs([row, col], [value], st, fns, fuel);
    OneArg(value, st, fns, fuel);
    var from := Eval(value, st, fns, fuel).value.1;
    TwoArgs(row, col, from, fns, fuel);
    var (x, st1) := Eval(row, st, fns, fuel).value;
    var (x', from1) := Eval(row, from, fns, fuel).value;
    var (vs, st3) := EvalArgs([row, col], from, fns, fuel).value;
    assert vs[0] == x && vs[0] == x';
    assert vs[1] == Eval(col, st1, fns, fuel).value.0 && vs[1] == Eval(col, from1, fns, fuel).value.0;
    assert Eval(col, from1, fns, fuel).value.1 == st3;
  }

  lemma TwoArgs(x: Expr, y: Expr, st: State, fns: Functions, fuel: nat)
    ensures var r := EvalArgs([x, y], st, fns, fuel);
            && (r.Ok? <==> Eval(x, st, fns, fuel).Ok? && Eval(y, Eval(x, st, fns, fuel).value.1, fns, fuel).Ok?)
            && (r.Ok? ==> var (v, st1) := Eval(x, st, fns, fuel).value;
                          var (w, st2) := Eval(y, st1, fns, fuel).value;
                          r.value == ([v, w], st2))
  {
    hide Eval;
    assert [x, y][1..] == [y];
    var r := Eval(x, st, fns, fuel);
    if r.Ok? {
      OneArg(y, r.value.1, fns, fuel);
      var s := Eval(y, r.value.1, fns, fuel);
      if s.Ok? { assert [r.value.0] + [s.value.0] == [r.value.0, s.value.0]; }
    }
  }
}
