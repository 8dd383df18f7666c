/** Type soundness: what the analysis accepts never runs into a name, a kind, an arity or a shape that does not fit
    (src/maps-compiler/tensorc/sema.py). */
module Safety {
  import opened Options
  import opened Words
  import opened TensorAst
  import opened Sema
  import opened Evaluation
  import opened TensorCSemantics
  import opened Shapes
  import opened Tokens
  import opened Grammar
  import opened Syntax
  import Simulation
  import Programs

  // ----- well-formed programs -----

  /** The step of every `for` declares nothing, as the grammar has it; if `places` is set, only variables and elements of
      tensors are assigned to. */
  predicate Formed(s: Stmt, places: bool)
    decreases s, 1
  {
    match s
    case Assign(target, _) => places ==> target.VarRef? || target.TensorIndex?
    case If(_, thn, els) => AllFormed(thn, places) && (els.ElseBlock? ==> AllFormed(els.items, places))
    case While(_, body) => AllFormed(body, places)
    case For(start, _, step, body) =>
      && (start.Some? ==> Formed(start.value, places)) && AllFormed(body, places)
      && (step.Some? ==> SimplePart(step.value) && Formed(step.value, places))
    case _ => true
  }

  predicate AllFormed(items: seq<Stmt>, places: bool)
    decreases items, 0
  {
    items == [] || (Formed(items[0], places) && AllFormed(items[1..], places))
  }

  predicate ProgramFormed(decls: seq<Decl>, places: bool)
  {
    forall i :: 0 <= i < |decls| ==>
      if decls[i].FunctionDecl? then AllFormed(decls[i].fn.body, places) else Formed(decls[i].stmt, places)
  }

  // ----- typed states -----

  /** The functions with the names each of them sees, the types of all top-level names, and the tensors that exist whenever
      a function runs.  `complete`: functions see no other names but their own; `places`: as in `Formed`. */
  datatype World = World(fns: Functions, arities: Arities, entry: map<string, Table>, globals: Table, sure: set<string>,
                         complete: bool, places: bool)

  ghost predicate FunctionOk(w: World, f: string)
    requires f in w.fns && f in w.arities && f in w.entry
  {
    var fn, table := w.fns[f], w.entry[f];
    && w.arities[f] == |fn.params| && CheckBlock(fn.body, table, w.arities).Some? && AllFormed(fn.body, w.places)
    && (forall p :: p in fn.params ==> p in table && table[p] == Scalar)
    && (forall n :: n in table && n !in fn.params ==>
          n in w.globals && w.globals[n] == table[n] && (w.complete ==> n in w.sure))
  }

  ghost predicate WorldOk(w: World)
  {
    w.fns.Keys == w.arities.Keys == w.entry.Keys && forall f :: f in w.fns ==> FunctionOk(w, f)
  }

  ghost predicate GlobalsTyped(globals: map<string, Value>, w: World)
  {
    && w.sure <= globals.Keys
    && forall n :: n in globals ==> n in w.globals && Simulation.HasType(globals[n], w.globals[n])
  }

  ghost predicate LocalsTyped(locals: map<string, Value>, table: Table)
  {
    forall n :: n in locals ==> n in table && Simulation.HasType(locals[n], table[n])
  }

  /** Names that are no locals are top-level names. */
  ghost predicate OthersKnown(st: State, w: World, table: Table)
  {
    forall n :: n in table && n !in st.locals ==>
      n in w.globals && w.globals[n] == table[n] && (w.complete ==> n in st.globals)
  }

  ghost predicate Typed(st: State, w: World, table: Table)
  {
    GlobalsTyped(st.globals, w) && LocalsTyped(st.locals, table) && OthersKnown(st, w, table)
  }

  // ----- safe outcomes -----

  predicate Safe<T>(r: Result<T>, w: World)
  {
    r.Stuck? ==> r.why != MISFIT && (w.complete ==> r.why != UNDECLARED) && (w.places ==> r.why != UNASSIGNABLE)
  }

  /** Expressions change values, and nothing about names. */
  ghost predicate Onward(st: State, st': State, w: World, table: Table)
  {
    Typed(st', w, table) && st'.locals.Keys == st.locals.Keys && st'.globals.Keys == st.globals.Keys
  }

  ghost predicate SafeValue<T>(r: Result<(T, State)>, st: State, w: World, table: Table)
  {
    Safe(r, w) && (r.Ok? ==> Onward(st, r.value.1, w, table))
  }

  ghost predicate SafeFlow(r: Result<Flow<Value>>, st: State, w: World, table: Table)
  {
    && Safe(r, w)
    && (r.Ok? ==>
          var st' := r.value.st;
          && GlobalsTyped(st'.globals, w) && st'.globals.Keys == st.globals.Keys
          && (r.value.Next? ==> Typed(st', w, table) && st.locals.Keys <= st'.locals.Keys))
  }

  // ----- operations -----

  lemma LookupTyped(st: State, w: World, table: Table, name: string)
    requires Typed(st, w, table) && name in table
    ensures st.Lookup(name).Some? ==> Simulation.HasType(st.Lookup(name).value, table[name])
    ensures w.complete ==> st.Lookup(name).Some?
  {
  }

  lemma AssignedTyped(st: State, w: World, table: Table, name: string, v: Value)
    requires Typed(st, w, table) && name in table && st.Lookup(name).Some? && Simulation.HasType(v, table[name])
    ensures Onward(st, st.Assigned(name, v), w, table)
  {
  }

  lemma DeclaredTyped(st: State, w: World, table: Table, name: string, v: Value, ty: Type)
    requires Typed(st, w, table) && name !in table && Simulation.HasType(v, ty)
    ensures Typed(st.Declared(name, v), w, table[name := ty])
  {
  }

  lemma PrintedTyped(st: State, w: World, table: Table, out: string)
    requires Typed(st, w, table)
    ensures Onward(st, st.(out := out), w, table)
  {
  }

  lemma LeavingTyped(st: State, st': State, w: World, table: Table, table': Table)
    requires Typed(st, w, table) && Typed(st', w, table') && Extends(table, table')
    requires st.locals.Keys <= st'.locals.Keys && st'.globals.Keys == st.globals.Keys
    ensures Onward(st, st'.Leaving(st), w, table)
  {
  }

  lemma ReturningTyped(st: State, st': State, w: World, table: Table)
    requires Typed(st, w, table) && GlobalsTyped(st'.globals, w) && st'.globals.Keys == st.globals.Keys
    ensures Onward(st, st'.Returning(st), w, table)
  {
  }

  lemma {:induction false} BoundArgs(params: seq<string>, args: seq<int>)
    requires |params| == |args|
    ensures var locals := BindArgs(params, args);
            locals.Keys == (set p | p in params) && forall n :: n in locals ==> locals[n].Num?
  {
    if params != [] {
      BoundArgs(params[1..], args[1..]);
      assert params == [params[0]] + params[1..];
    }
  }

  lemma CalleeTyped(st: State, w: World, table: Table, f: string, args: seq<int>)
    requires WorldOk(w) && Typed(st, w, table) && f in w.fns && |args| == w.arities[f]
    ensures Typed(Store(st.globals, BindArgs(w.fns[f].params, args), st.out), w, w.entry[f])
  {
    BoundArgs(w.fns[f].params, args);
    assert FunctionOk(w, f);
  }

  lemma MultiplySafe(st: State, w: World, table: Table, a: string, b: string, c: string)
    requires Typed(st, w, table) && CheckStmt(Gemm(a, b, c, 0, 0, 0), table, w.arities).Some?
    ensures Safe(Multiply(st, a, b, c), w)
    ensures Multiply(st, a, b, c).Ok? ==> Onward(st, Multiply(st, a, b, c).value, w, table)
  {
    hide Typed;
    hide Onward;
    LookupTyped(st, w, table, a);
    LookupTyped(st, w, table, b);
    LookupTyped(st, w, table, c);
    if Multiply(st, a, b, c).Ok? {
      var ga, gb := st.Lookup(a).value.grid, st.Lookup(b).value.grid;
      AssignedTyped(st, w, table, c, Matrix(Product(ga, gb, |ga|, |gb[0]|, |gb|)));
    }
  }

  lemma DeclaredGrid(rows: Option<int>, cols: Option<int>, init: Option<Grid>)
    requires ShapeOf(rows, cols, init).Some? && Declare(rows, cols, init).Some?
    ensures var (r, c) := ShapeOf(rows, cols, init).value;
            Simulation.HasType(Matrix(Declare(rows, cols, init).value), Tensor(r, c))
  {
    ShapeIsRight(rows, cols, init);
    hide ShapeOf;
  }

  lemma TensorSafe(s: Stmt, st: State, w: World, table: Table, fuel: nat)
    requires s.TensorDecl? && Typed(st, w, table) && CheckStmt(s, table, w.arities).Some?
    ensures SafeFlow(Exec(s, st, w.fns, fuel), st, w, CheckStmt(s, table, w.arities).value.1)
  {
    hide ShapeOf;
    hide Declare;
    hide Simulation.HasType;
    if Declare(s.rows, s.cols, s.init).Some? {
      var (r, c) := ShapeOf(s.rows, s.cols, s.init).value;
      DeclaredGrid(s.rows, s.cols, s.init);
      DeclaredTyped(st, w, table, s.name, Matrix(Declare(s.rows, s.cols, s.init).value), Tensor(r, c));
    }
  }

  // ----- expressions -----

  lemma {:induction false} EvalSafe(e: Expr, st: State, w: World, table: Table, fuel: nat)
    requires WorldOk(w) && Typed(st, w, table) && RequireInt(e, table, w.arities).Some?
    ensures SafeValue(Eval(e, st, w.fns, fuel), st, w, table)
    decreases fuel, e, 1
  {
    hide WorldOk;
    match e
    case IntLiteral(_) =>
    case VarRef(name) => LookupTyped(st, w, table, name);
    case TensorIndex(_, _, _, _) => PlaceSafe(e, st, w, table, fuel);
    case Unary(_, x) => EvalSafe(x, st, w, table, fuel);
    case Binary(_, x, y) =>
      EvalSafe(x, st, w, table, fuel);
      var r := Eval(x, st, w.fns, fuel);
      if r.Ok? { EvalSafe(y, r.value.1, w, table, fuel); }
    case Call(name, args) => CallSafe(e, st, w, table, fuel);
  }

  lemma {:induction false} CallSafe(e: Expr, st: State, w: World, table: Table, fuel: nat)
    requires e.Call? && WorldOk(w) && Typed(st, w, table) && RequireInt(e, table, w.arities).Some?
    ensures SafeValue(Eval(e, st, w.fns, fuel), st, w, table)
    decreases fuel, e, 0
  {
    hide Typed;
    hide GlobalsTyped;
    ArgsSafe(e.args, st, w, table, fuel);
    var r := EvalArgs(e.args, st, w.fns, fuel);
    if r.Ok? && fuel > 0 {
      var (vs, st1) := r.value;
      assert FunctionOk(w, e.name);
      var fn := w.fns[e.name];
      if |fn.params| == |vs| {
        CalleeTyped(st1, w, table, e.name, vs);
        var callee := Store(st1.globals, BindArgs(fn.params, vs), st1.out);
        BlockSafe(fn.body, callee, w, w.entry[e.name], fuel - 1);
        var flow := ExecBlock(fn.body, callee, w.fns, fuel - 1);
        if flow.Ok? { ReturningTyped(st1, flow.value.st, w, table); }
      }
    }
  }

  lemma {:induction false} PlaceSafe(e: Expr, st: State, w: World, table: Table, fuel: nat)
    requires WorldOk(w) && Typed(st, w, table) && e.TensorIndex? && RequireInt(e, table, w.arities).Some?
    ensures SafeValue(EvalPlace(e, st, w.fns, fuel), st, w, table)
    decreases fuel, e, 0
  {
    hide WorldOk;
    hide Typed;
    EvalSafe(e.row, st, w, table, fuel);
    var r := Eval(e.row, st, w.fns, fuel);
    if r.Ok? {
      LookupTyped(r.value.1, w, table, e.name);
      EvalSafe(e.col, r.value.1, w, table, fuel);
      var c := Eval(e.col, r.value.1, w.fns, fuel);
      if c.Ok? { LookupTyped(c.value.1, w, table, e.name); }
    }
  }

  lemma {:induction false} ArgsSafe(args: seq<Expr>, st: State, w: World, table: Table, fuel: nat)
    requires WorldOk(w) && Typed(st, w, table) && CheckArgs(args, table, w.arities).Some?
    ensures SafeValue(EvalArgs(args, st, w.fns, fuel), st, w, table)
    ensures EvalArgs(args, st, w.fns, fuel).Ok? ==> |EvalArgs(args, st, w.fns, fuel).value.0| == |args|
    decreases fuel, args, 0
  {
    hide WorldOk;
    hide Typed;
    if args != [] {
      EvalSafe(args[0], st, w, table, fuel);
      var r := Eval(args[0], st, w.fns, fuel);
      if r.Ok? { ArgsSafe(args[1..], r.value.1, w, table, fuel); }
    }
  }

  // ----- statements -----

  ghost predicate SafeUpdate(r: Result<State>, st: State, w: World, table: Table)
  {
    Safe(r, w) && (r.Ok? ==> Onward(st, r.value, w, table))
  }

  lemma {:induction false} AssignSafe(s: Stmt, st: State, w: World, table: Table, fuel: nat)
    requires s.Assign? && WorldOk(w) && Typed(st, w, table) && CheckStmt(s, table, w.arities).Some? && Formed(s, w.places)
    ensures SafeUpdate(ExecAssign(s.target, s.value, st, w.fns, fuel), st, w, table)
    decreases fuel, s, 1
  {
    hide WorldOk;
    hide Typed;
    match s.target
    case VarRef(name) =>
      EvalSafe(s.value, st, w, table, fuel);
      var r := Eval(s.value, st, w.fns, fuel);
      if r.Ok? {
        LookupTyped(r.value.1, w, table, name);
        if r.value.1.Lookup(name).Some? { AssignedTyped(r.value.1, w, table, name, Num(r.value.0)); }
      }
    case TensorIndex(_, _, _, _) => ElementSafe(s, st, w, table, fuel);
    case _ =>
  }

  lemma {:induction false} ElementSafe(s: Stmt, st: State, w: World, table: Table, fuel: nat)
    requires s.Assign? && s.target.TensorIndex?
    requires WorldOk(w) && Typed(st, w, table) && CheckStmt(s, table, w.arities).Some?
    ensures SafeUpdate(ExecAssign(s.target, s.value, st, w.fns, fuel), st, w, table)
    decreases fuel, s, 0
  {
    hide WorldOk;
    hide Typed;
    hide EvalPlace;
    hide InRange;
    hide Unplaced;
    PlaceSafe(s.target, st, w, table, fuel);
    var place := EvalPlace(s.target, st, w.fns, fuel);
    if place.Ok? {
      EvalSafe(s.value, place.value.1, w, table, fuel);
      var r := Eval(s.value, place.value.1, w.fns, fuel);
      if r.Ok? { ElementAssigned(r.value.1, w, table, s.target.name, place.value.0.0, place.value.0.1, r.value.0); }
    }
  }

  lemma ElementAssigned(st: State, w: World, table: Table, name: string, r: int, c: int, v: int)
    requires Typed(st, w, table) && name in table && table[name].Tensor?
    ensures !InRange(st.Lookup(name), r, c) ==>
              && Unplaced(st.Lookup(name)) != MISFIT && Unplaced(st.Lookup(name)) != UNASSIGNABLE
              && (w.complete ==> Unplaced(st.Lookup(name)) != UNDECLARED)
    ensures InRange(st.Lookup(name), r, c) ==>
              var g := st.Lookup(name).value.grid;
              Onward(st, st.Assigned(name, Matrix(g[r := g[r][c := v]])), w, table)
  {
    hide GlobalsTyped;
    hide LocalsTyped;
    hide OthersKnown;
    hide Onward;
    LookupTyped(st, w, table, name);
    if InRange(st.Lookup(name), r, c) {
      var g := st.Lookup(name).value.grid;
      AssignedTyped(st, w, table, name, Matrix(g[r := g[r][c := v]]));
    }
  }

  lemma {:induction false} StmtSafe(s: Stmt, st: State, w: World, table: Table, fuel: nat)
    requires WorldOk(w) && Typed(st, w, table) && CheckStmt(s, table, w.arities).Some? && Formed(s, w.places)
    ensures SafeFlow(Exec(s, st, w.fns, fuel), st, w, CheckStmt(s, table, w.arities).value.1)
    decreases fuel, s, 3
  {
    hide WorldOk;
    hide GlobalsTyped;
    hide LocalsTyped;
    hide OthersKnown;
    match s
    case TensorDecl(_, _, _, _) => TensorSafe(s, st, w, table, fuel);
    case VarDecl(_, _) => VarSafe(s, st, w, table, fuel);
    case Assign(_, _) => AssignSafe(s, st, w, table, fuel);
    case Gemm(a, b, c, _, _, _) => MultiplySafe(st, w, table, a, b, c);
    case Print(text) => PrintedTyped(st, w, table, st.out + text);
    case If(_, _, _) => IfSafe(s, st, w, table, fuel);
    case While(cond, body) => WhileSafe(s, st, w, table, fuel);
    case For(_, _, _, _) => ForSafe(s, st, w, table, fuel);
    case Return(value) => EvalSafe(value, st, w, table, fuel);
    case ExprStmt(expr) =>
      if expr.VarRef? { LookupTyped(st, w, table, expr.name); } else { EvalSafe(expr, st, w, table, fuel); }
  }

  lemma {:induction false} VarSafe(s: Stmt, st: State, w: World, table: Table, fuel: nat)
    requires s.VarDecl? && WorldOk(w) && Typed(st, w, table) && CheckStmt(s, table, w.arities).Some?
    ensures SafeFlow(Exec(s, st, w.fns, fuel), st, w, CheckStmt(s, table, w.arities).value.1)
    decreases fuel, s, 2
  {
    hide WorldOk;
    hide GlobalsTyped;
    hide LocalsTyped;
    hide OthersKnown;
    EvalSafe(s.value, st, w, table, fuel);
    var r := Eval(s.value, st, w.fns, fuel);
    if r.Ok? { DeclaredTyped(r.value.1, w, table, s.name, Num(r.value.0), Scalar); }
  }

  lemma {:induction false} IfSafe(s: Stmt, st: State, w: World, table: Table, fuel: nat)
    requires s.If? && WorldOk(w) && Typed(st, w, table) && CheckStmt(s, table, w.arities).Some? && Formed(s, w.places)
    ensures SafeFlow(Exec(s, st, w.fns, fuel), st, w, table)
    decreases fuel, s, 2
  {
    hide WorldOk;
    hide GlobalsTyped;
    hide LocalsTyped;
    hide OthersKnown;
    EvalSafe(s.cond, st, w, table, fuel);
    var r := Eval(s.cond, st, w.fns, fuel);
    if r.Ok? {
      ScopedSafe(s.thn, r.value.1, w, table, fuel);
      if s.els.ElseBlock? { ScopedSafe(s.els.items, r.value.1, w, table, fuel); }
    }
  }

  lemma {:induction false} WhileSafe(s: Stmt, st: State, w: World, table: Table, fuel: nat)
    requires s.While? && WorldOk(w) && Typed(st, w, table) && CheckStmt(s, table, w.arities).Some? && Formed(s, w.places)
    ensures SafeFlow(Exec(s, st, w.fns, fuel), st, w, table)
    decreases fuel, s, 2
  {
    hide WorldOk;
    hide GlobalsTyped;
    hide LocalsTyped;
    hide OthersKnown;
    EvalSafe(s.cond, st, w, table, fuel);
    var r := Eval(s.cond, st, w.fns, fuel);
    if r.Ok? && r.value.0 != 0 {
      ScopedSafe(s.body, r.value.1, w, table, fuel);
      var flow := Scoped(s.body, r.value.1, w.fns, fuel);
      if flow.Ok? && flow.value.Next? && fuel > 0 { WhileSafe(s, flow.value.st, w, table, fuel - 1); }
    }
  }

  lemma {:induction false} ForSafe(s: Stmt, st: State, w: World, table: Table, fuel: nat)
    requires s.For? && WorldOk(w) && Typed(st, w, table) && CheckStmt(s, table, w.arities).Some? && Formed(s, w.places)
    ensures SafeFlow(Exec(s, st, w.fns, fuel), st, w, table)
    decreases fuel, s, 2
  {
    hide WorldOk;
    hide GlobalsTyped;
    hide LocalsTyped;
    hide OthersKnown;
    hide Onward;
    hide CheckExpr;
    hide CheckBlock;
    hide Repeat;
    hide ExecPart;
    PartSafe(s.start, st, w, table, fuel);
    var start := ExecPart(s.start, st, w.fns, fuel);
    var local := CheckPart(s.start, table, w.arities).value.1;
    if s.start.Some? { CheckStmtExtends(s.start.value, table, w.arities); }
    if start.Ok? && start.value.Next? {
      RepeatSafe(s, start.value.st, w, local, fuel);
      var end := Repeat(s, start.value.st, w.fns, fuel);
      if end.Ok? && end.value.Next? { LeavingTyped(st, end.value.st, w, table, local); }
    }
  }

  lemma {:induction false} RoundSafe(s: Stmt, st: State, w: World, table: Table, fuel: nat)
    requires s.For? && WorldOk(w) && Typed(st, w, table) && Formed(s, w.places) && CheckPart(s.step, table, w.arities).Some?
    requires CheckBlock(s.body, CheckPart(s.step, table, w.arities).value.1, w.arities).Some?
    ensures SafeFlow(Round(s, st, w.fns, fuel), st, w, table)
    decreases fuel, s, 0
  {
    hide WorldOk;
    hide GlobalsTyped;
    hide LocalsTyped;
    hide OthersKnown;
    ScopedSafe(s.body, st, w, table, fuel);
    var flow := Scoped(s.body, st, w.fns, fuel);
    if flow.Ok? && flow.value.Next? { PartSafe(s.step, flow.value.st, w, table, fuel); }
  }

  lemma {:induction false} RepeatSafe(s: Stmt, st: State, w: World, table: Table, fuel: nat)
    requires s.For? && WorldOk(w) && Typed(st, w, table) && Formed(s, w.places)
    requires CheckTest(s.test, table, w.arities).Some? && CheckPart(s.step, table, w.arities).Some?
    requires CheckBlock(s.body, CheckPart(s.step, table, w.arities).value.1, w.arities).Some?
    ensures SafeFlow(Repeat(s, st, w.fns, fuel), st, w, table)
    decreases fuel, s, 1
  {
    hide WorldOk;
    hide GlobalsTyped;
    hide LocalsTyped;
    hide OthersKnown;
    hide Formed;
    hide Round;
    hide CheckExpr;
    hide CheckStmt;
    TestSafe(s, st, w, table, fuel);
    var r := EvalTest(s.test, st, w.fns, fuel);
    if r.Ok? && r.value.0 != 0 {
      RoundSafe(s, r.value.1, w, table, fuel);
      var round := Round(s, r.value.1, w.fns, fuel);
      if round.Ok? && round.value.Next? && fuel > 0 { RepeatSafe(s, round.value.st, w, table, fuel - 1); }
    }
  }

  lemma {:induction false} TestSafe(s: Stmt, st: State, w: World, table: Table, fuel: nat)
    requires s.For? && WorldOk(w) && Typed(st, w, table) && CheckTest(s.test, table, w.arities).Some?
    ensures SafeValue(EvalTest(s.test, st, w.fns, fuel), st, w, table)
    decreases fuel, s, 0
  {
    hide WorldOk;
    if s.test.Some? { EvalSafe(s.test.value, st, w, table, fuel); }
  }

  lemma {:induction false} PartSafe(part: Option<Stmt>, st: State, w: World, table: Table, fuel: nat)
    requires WorldOk(w) && Typed(st, w, table) && CheckPart(part, table, w.arities).Some?
    requires part.Some? ==> Formed(part.value, w.places)
    ensures SafeFlow(ExecPart(part, st, w.fns, fuel), st, w, CheckPart(part, table, w.arities).value.1)
    decreases fuel, part, 0
  {
    hide WorldOk;
    if part.Some? { StmtSafe(part.value, st, w, table, fuel); }
  }

  lemma {:induction false} ScopedSafe(items: seq<Stmt>, st: State, w: World, table: Table, fuel: nat)
    requires WorldOk(w) && Typed(st, w, table) && CheckBlock(items, table, w.arities).Some? && AllFormed(items, w.places)
    ensures SafeFlow(Scoped(items, st, w.fns, fuel), st, w, table)
    decreases fuel, items, 1
  {
    hide WorldOk;
    hide GlobalsTyped;
    hide LocalsTyped;
    hide OthersKnown;
    BlockSafe(items, st, w, table, fuel);
    CheckBlockExtends(items, table, w.arities);
    var flow := ExecBlock(items, st, w.fns, fuel);
    if flow.Ok? && flow.value.Next? {
      LeavingTyped(st, flow.value.st, w, table, CheckBlock(items, table, w.arities).value.1);
    }
  }

  lemma {:induction false} BlockSafe(items: seq<Stmt>, st: State, w: World, table: Table, fuel: nat)
    requires WorldOk(w) && Typed(st, w, table) && CheckBlock(items, table, w.arities).Some? && AllFormed(items, w.places)
    ensures SafeFlow(ExecBlock(items, st, w.fns, fuel), st, w, CheckBlock(items, table, w.arities).value.1)
    decreases fuel, items, 0
  {
    hide WorldOk;
    hide GlobalsTyped;
    hide LocalsTyped;
    hide OthersKnown;
    if items != [] {
      StmtSafe(items[0], st, w, table, fuel);
      var flow := Exec(items[0], st, w.fns, fuel);
      if flow.Ok? && flow.value.Next? {
        BlockSafe(items[1..], flow.value.st, w, CheckStmt(items[0], table, w.arities).value.1, fuel);
      }
    }
  }

  // ----- programs -----

  /** The tensors declared before any other statement. */
  function Leading(decls: seq<Decl>, table: Table): Table
  {
    if decls == [] then table
    else match decls[0]
      case FunctionDecl(_) => Leading(decls[1..], table)
      case Statement(TensorDecl(name, rows, cols, init)) =>
        (match ShapeOf(rows, cols, init)
         case Some((r, c)) => Leading(decls[1..], table[name := Tensor(r, c)])
         case None => table)
      case _ => table
  }

  /** Functions read no top-level names but these tensors. */
  ghost predicate SelfContained(decls: seq<Decl>)
  {
    && CollectArities(decls, map[]).Some?
    && forall i :: 0 <= i < |decls| && decls[i].FunctionDecl? ==>
         var fn := decls[i].fn;
         CheckBlock(fn.body, WithScalars(fn.params, Leading(decls, map[])), CollectArities(decls, map[]).value).Some?
  }

  lemma {:induction false} LeadingKeys(decls: seq<Decl>, table: Table)
    ensures Leading(decls, table).Keys == table.Keys + Leading(decls, map[]).Keys
    decreases |decls|
  {
    if decls != [] && decls[0].FunctionDecl? {
      LeadingKeys(decls[1..], table);
    } else if decls != [] && decls[0].stmt.TensorDecl? {
      var s := decls[0].stmt;
      if ShapeOf(s.rows, s.cols, s.init).Some? {
        var (r, c) := ShapeOf(s.rows, s.cols, s.init).value;
        LeadingKeys(decls[1..], table[s.name := Tensor(r, c)]);
        LeadingKeys(decls[1..], map[s.name := Tensor(r, c)]);
      }
    }
  }

  lemma {:induction false} LeadingInFinal(decls: seq<Decl>, table: Table, arities: Arities)
    requires CheckDecls(decls, table, arities).Some?
    ensures Extends(Leading(decls, table), CheckDecls(decls, table, arities).value.1)
    decreases |decls|
  {
    Programs.CheckDeclsExtends(decls, table, arities);
    if decls != [] && (decls[0].FunctionDecl? || decls[0].stmt.TensorDecl?) {
      LeadingInFinal(decls[1..], CheckDecl(decls[0], table, arities).value.1, arities);
    }
  }

  lemma {:induction false} FunctionFrom(decls: seq<Decl>, f: string) returns (i: nat)
    requires f in FunctionsOf(decls)
    ensures i < |decls| && decls[i] == FunctionDecl(FunctionsOf(decls)[f])
  {
    if decls[0].FunctionDecl? && decls[0].fn.name == f { return 0; }
    var j := FunctionFrom(decls[1..], f);
    i := j + 1;
  }

  /** A function is checked with its parameters and the names declared before it. */
  lemma {:induction false} ScopesRight(decls: seq<Decl>, table: Table, arities: Arities, f: string)
    requires CheckDecls(decls, table, arities).Some? && f in FunctionsOf(decls)
    ensures var scopes, fn, final :=
              Programs.ScopesOf(decls, table, arities), FunctionsOf(decls)[f], CheckDecls(decls, table, arities).value.1;
            && f in scopes && CheckBlock(fn.body, scopes[f], arities).Some?
            && (forall p :: p in fn.params ==> p in scopes[f] && scopes[f][p] == Scalar)
            && (forall n :: n in scopes[f] && n !in fn.params ==> n in final && final[n] == scopes[f][n])
  {
    hide CheckBlock;
    hide CheckStmt;
    Programs.CheckDeclsExtends(decls, table, arities);
    if decls[0].FunctionDecl? && decls[0].fn.name == f {
      ParamsBound(decls[0].fn.params, table);
    } else {
      ScopesRight(decls[1..], CheckDecl(decls[0], table, arities).value.1, arities, f);
    }
  }

  lemma {:induction false} ScopeKeys(decls: seq<Decl>, table: Table, arities: Arities)
    requires CheckDecls(decls, table, arities).Some?
    ensures Programs.ScopesOf(decls, table, arities).Keys == FunctionsOf(decls).Keys
  {
    if decls != [] { ScopeKeys(decls[1..], CheckDecl(decls[0], table, arities).value.1, arities); }
  }

  /** Every function as the analysis has seen it. */
  ghost function Plainly(decls: seq<Decl>, places: bool): World
    requires Analyze(decls).Some?
  {
    var arities := CollectArities(decls, map[]).value;
    World(FunctionsOf(decls), arities, Programs.ScopesOf(decls, map[], arities), Analyze(decls).value.1, {}, false, places)
  }

  lemma PlainlyOk(decls: seq<Decl>, places: bool)
    requires Analyze(decls).Some? && ProgramFormed(decls, places)
    ensures WorldOk(Plainly(decls, places))
  {
    var w := Plainly(decls, places);
    Programs.CollectedArities(decls, map[]);
    ScopeKeys(decls, map[], w.arities);
    forall f | f in w.fns ensures FunctionOk(w, f) {
      ScopesRight(decls, map[], w.arities, f);
      var i := FunctionFrom(decls, f);
    }
  }

  /** Every function with its parameters and the leading tensors. */
  ghost function Contained(decls: seq<Decl>, places: bool): World
    requires Analyze(decls).Some?
  {
    var arities, lead := CollectArities(decls, map[]).value, Leading(decls, map[]);
    var fns := FunctionsOf(decls);
    World(fns, arities, map f | f in fns :: WithScalars(fns[f].params, lead), Analyze(decls).value.1, lead.Keys, true, places)
  }

  lemma ContainedOk(decls: seq<Decl>, places: bool)
    requires Analyze(decls).Some? && ProgramFormed(decls, places) && SelfContained(decls)
    ensures WorldOk(Contained(decls, places))
  {
    var w := Contained(decls, places);
    Programs.CollectedArities(decls, map[]);
    LeadingInFinal(decls, map[], w.arities);
    forall f | f in w.fns ensures FunctionOk(w, f) {
      var i := FunctionFrom(decls, f);
    }
  }

  /** A state of the top level: the tensors a function may read exist or will before anything runs. */
  ghost predicate Reached(st: State, w: World, table: Table, decls: seq<Decl>)
  {
    && w.sure <= st.globals.Keys + Leading(decls, map[]).Keys
    && (forall n :: n in st.globals ==> n in w.globals && Simulation.HasType(st.globals[n], w.globals[n]))
    && LocalsTyped(st.locals, table) && OthersKnown(st, w, table)
  }

  lemma TensorJoins(s: Stmt, table: Table, arities: Arities)
    requires s.TensorDecl? && CheckStmt(s, table, arities).Some?
    ensures s.name !in table && ShapeOf(s.rows, s.cols, s.init).Some?
    ensures var (r, c) := ShapeOf(s.rows, s.cols, s.init).value;
            CheckStmt(s, table, arities).value.1 == table[s.name := Tensor(r, c)]
  {
    hide ShapeOf;
  }

  lemma GlobalReached(decls: seq<Decl>, st: State, w: World, table: Table, g: Grid)
    requires decls != [] && decls[0].Statement? && decls[0].stmt.TensorDecl?
    requires Reached(st, w, table, decls) && CheckDecls(decls, table, w.arities).Some?
    requires Extends(CheckDecls(decls, table, w.arities).value.1, w.globals)
    requires var s := decls[0].stmt; Declare(s.rows, s.cols, s.init) == Some(g)
    ensures Reached(st.(globals := st.globals[decls[0].stmt.name := Matrix(g)]), w,
                    CheckDecl(decls[0], table, w.arities).value.1, decls[1..])
  {
    hide Declare;
    hide ShapeOf;
    hide Simulation.HasType;
    hide CheckStmt;
    var s := decls[0].stmt;
    TensorJoins(s, table, w.arities);
    var (r, c) := ShapeOf(s.rows, s.cols, s.init).value;
    DeclaredGrid(s.rows, s.cols, s.init);
    LeadingKeys(decls[1..], map[s.name := Tensor(r, c)]);
    Programs.CheckDeclsExtends(decls[1..], table[s.name := Tensor(r, c)], w.arities);
  }

  /** A statement that is no tensor declaration runs when all leading tensors exist. */
  lemma ReachedTyped(decls: seq<Decl>, st: State, w: World, table: Table)
    requires decls != [] && decls[0].Statement? && !decls[0].stmt.TensorDecl? && Reached(st, w, table, decls)
    ensures Typed(st, w, table)
  {
    hide Simulation.HasType;
  }

  lemma TypedReached(decls: seq<Decl>, st: State, w: World, table: Table)
    requires Typed(st, w, table)
    ensures Reached(st, w, table, decls)
  {
    hide Simulation.HasType;
  }

  lemma RestFormed(decls: seq<Decl>, places: bool)
    requires decls != [] && ProgramFormed(decls, places)
    ensures ProgramFormed(decls[1..], places)
    ensures if decls[0].FunctionDecl? then AllFormed(decls[0].fn.body, places) else Formed(decls[0].stmt, places)
  {
    forall i | 0 <= i < |decls[1..]| ensures decls[1..][i] == decls[i + 1] {}
  }

  lemma {:induction false} TopSafe(decls: seq<Decl>, st: State, w: World, table: Table, fuel: nat)
    requires WorldOk(w) && Reached(st, w, table, decls) && ProgramFormed(decls, w.places)
    requires CheckDecls(decls, table, w.arities).Some? && Extends(CheckDecls(decls, table, w.arities).value.1, w.globals)
    ensures Safe(ExecTop(decls, st, w.fns, fuel), w)
    decreases |decls|, 1
  {
    hide WorldOk;
    hide GlobalsTyped;
    hide LocalsTyped;
    hide OthersKnown;
    hide ProgramFormed;
    hide Extends;
    hide Exec;
    hide CheckStmt;
    if decls != [] {
      RestFormed(decls, w.places);
      var table' := CheckDecl(decls[0], table, w.arities).value.1;
      if decls[0].FunctionDecl? {
        TopSafe(decls[1..], st, w, table, fuel);
      } else if decls[0].stmt.TensorDecl? {
        TopTensorSafe(decls, st, w, table, fuel);
      } else {
        ReachedTyped(decls, st, w, table);
        StmtSafe(decls[0].stmt, st, w, table, fuel);
        var flow := Exec(decls[0].stmt, st, w.fns, fuel);
        if flow.Ok? && flow.value.Next? {
          TypedReached(decls[1..], flow.value.st, w, table');
          TopSafe(decls[1..], flow.value.st, w, table', fuel);
        }
      }
    }
  }

  lemma {:induction false} TopTensorSafe(decls: seq<Decl>, st: State, w: World, table: Table, fuel: nat)
    requires decls != [] && decls[0].Statement? && decls[0].stmt.TensorDecl?
    requires WorldOk(w) && Reached(st, w, table, decls) && ProgramFormed(decls, w.places)
    requires CheckDecls(decls, table, w.arities).Some? && Extends(CheckDecls(decls, table, w.arities).value.1, w.globals)
    ensures Safe(ExecTop(decls, st, w.fns, fuel), w)
    decreases |decls|, 0
  {
    hide WorldOk;
    hide Reached;
    hide ProgramFormed;
    hide Extends;
    hide Declare;
    hide ShapeOf;
    RestFormed(decls, w.places);
    var s := decls[0].stmt;
    var g := Declare(s.rows, s.cols, s.init);
    if g.Some? {
      GlobalReached(decls, st, w, table, g.value);
      TopSafe(decls[1..], st.(globals := st.globals[s.name := Matrix(g.value)]), w,
              CheckDecl(decls[0], table, w.arities).value.1, fuel);
    }
  }

  /** Type soundness: no run of an accepted program meets a kind, an arity or a shape that does not fit. */
  lemma AcceptedNeverMisfits(decls: seq<Decl>, fuel: nat)
    requires Analyze(decls).Some? && ProgramFormed(decls, false)
    ensures Run(decls, fuel).Stuck? ==> Run(decls, fuel).why != MISFIT
  {
    PlainlyOk(decls, false);
    TopSafe(decls, Store(map[], map[], ""), Plainly(decls, false), map[], fuel);
  }

  /** ... and if its functions keep to themselves, and it assigns to variables and elements only, nothing stops it but
      arithmetic, an index out of range, or a product written over its own operand. */
  lemma ContainedRunsOn(decls: seq<Decl>, fuel: nat)
    requires Analyze(decls).Some? && ProgramFormed(decls, true) && SelfContained(decls)
    ensures Run(decls, fuel).Stuck? ==> Run(decls, fuel).why in {ARITHMETIC, INDEX, OVERWRITTEN}
  {
    ContainedOk(decls, true);
    TopSafe(decls, Store(map[], map[], ""), Contained(decls, true), map[], fuel);
  }

  // ----- what the parser reads is well formed -----

  lemma PartsFormed(toks: seq<Token>, pos: nat)
    requires ParseHead(toks, pos).Some?
    ensures var head := ParseHead(toks, pos).value.0;
            && (head.start.Some? ==> Formed(head.start.value, false))
            && (head.step.Some? ==> SimplePart(head.step.value) && Formed(head.step.value, false))
  {
    hide ParseLevel;
    hide KindsAt;
  }

  lemma OtherFormed(toks: seq<Token>, pos: nat)
    requires KindAt(toks, pos) != KW_IF && KindAt(toks, pos) != KW_WHILE && KindAt(toks, pos) != KW_FOR
    requires ParseStmt(toks, pos).Some?
    ensures Formed(ParseStmt(toks, pos).value.0, false)
  {
    hide ParseLevel;
    hide ParseShape;
    hide ParseInit;
    hide KindsAt;
  }

  lemma {:induction false} StmtFormed(toks: seq<Token>, pos: nat)
    requires ParseStmt(toks, pos).Some?
    ensures Formed(ParseStmt(toks, pos).value.0, false)
    decreases |toks| - pos, 0
  {
    hide ParseLevel;
    hide ParseCondition;
    hide ParseHead;
    match KindAt(toks, pos)
    case KW_IF =>
      var (_, next) := ParseCondition(toks, pos + 1).value;
      BlockFormed(toks, next);
      var (_, mid) := ParseBlock(toks, next).value;
      if KindAt(toks, mid) == KW_ELSE { BlockFormed(toks, mid + 1); }
    case KW_WHILE => BlockFormed(toks, ParseCondition(toks, pos + 1).value.1);
    case KW_FOR =>
      PartsFormed(toks, pos + 1);
      BlockFormed(toks, ParseHead(toks, pos + 1).value.1);
    case _ => OtherFormed(toks, pos);
  }

  lemma {:induction false} BlockFormed(toks: seq<Token>, pos: nat)
    requires ParseBlock(toks, pos).Some?
    ensures AllFormed(ParseBlock(toks, pos).value.0, false)
    decreases |toks| - pos, 2
  {
    ItemsFormed(toks, pos + 1);
  }

  lemma {:induction false} ItemsFormed(toks: seq<Token>, pos: nat)
    requires ParseItems(toks, pos).Some?
    ensures AllFormed(ParseItems(toks, pos).value.0, false)
    decreases |toks| - pos, 1
  {
    hide ParseStmt;
    hide Formed;
    if KindAt(toks, pos) != T_RBRACE {
      var (s, next) := ParseStmt(toks, pos).value;
      StmtFormed(toks, pos);
      ItemsFormed(toks, next);
      assert ([s] + ParseItems(toks, next).value.0)[1..] == ParseItems(toks, next).value.0;
    }
  }

  lemma DeclFormed(toks: seq<Token>, pos: nat)
    requires ParseDecl(toks, pos).Some?
    ensures var d := ParseDecl(toks, pos).value.0;
            if d.FunctionDecl? then AllFormed(d.fn.body, false) else Formed(d.stmt, false)
  {
    hide ParseStmt;
    hide ParseBlock;
    hide ParseParamList;
    hide KindsAt;
    if KindAt(toks, pos) == KW_FN {
      BlockFormed(toks, ParseParamList(toks, pos + 3).value.1 + 3);
    } else {
      StmtFormed(toks, pos);
    }
  }

  /** Every program the grammar reads is well formed. */
  lemma {:induction false} ReadIsFormed(toks: seq<Token>, pos: nat)
    requires pos <= |toks| && ParseDecls(toks, pos).Some?
    ensures ProgramFormed(ParseDecls(toks, pos).value.0, false)
    decreases |toks| - pos
  {
    hide ParseDecl;
    if KindAt(toks, pos) != EOF {
      DeclFormed(toks, pos);
      ReadIsFormed(toks, ParseDecl(toks, pos).value.1);
    }
  }

  // ----- why functions must keep to themselves -----

  const READS_TOO_FAR: seq<Decl> :=
    [Statement(VarDecl("x", IntLiteral(1))), FunctionDecl(Function("f", [], [Return(VarRef("x"))])),
     Statement(ExprStmt(Call("f", [])))]

  lemma ReadTooFarAccepted()
    ensures Analyze(READS_TOO_FAR).Some?
  {
    var decls, arities, table := READS_TOO_FAR, map["f" := 0], map["x" := Scalar];
    var fn := decls[1].fn;
    assert decls[1..] == [decls[1], decls[2]] && decls[1..][1..] == [decls[2]] && decls[1..][1..][1..] == [];
    assert fn.body[1..] == [];
    assert CollectArities(decls[1..][1..], arities) == Some(arities);
    assert CollectArities(decls[1..], map[]) == Some(arities);
    assert CollectArities(decls, map[]) == Some(arities);
    assert CheckDecl(decls[0], map[], arities) == Some((decls[0], table));
    assert CheckStmt(fn.body[0], table, arities) == Some((fn.body[0], table));
    assert CheckBlock([], table, arities) == Some(([], table));
    assert CheckBlock(fn.body, table, arities) == Some(([fn.body[0]] + [], table));
    assert CheckDecl(decls[1], table, arities).Some?;
    assert CheckDecl(decls[2], table, arities).Some?;
  }

  /** The analysis lets a function read a variable of the top level, which does not exist where the function runs. */
  lemma ReadTooFar(fuel: nat)
    requires fuel > 0
    ensures Analyze(READS_TOO_FAR).Some? && Run(READS_TOO_FAR, fuel) == Stuck(UNDECLARED)
  {
    ReadTooFarAccepted();
    hide Analyze;
    var decls, fns := READS_TOO_FAR, FunctionsOf(READS_TOO_FAR);
    assert decls[1..] == [decls[1], decls[2]] && decls[1..][1..] == [decls[2]] && decls[1..][1..][1..] == [];
    var fn := decls[1].fn;
    assert "f" in fns && fns["f"] == fn;
    var start: State := Store(map[], map[], "");
    assert Eval(VarRef("x"), start, fns, fuel - 1) == Stuck(UNDECLARED);
    assert Exec(fn.body[0], start, fns, fuel - 1) == Stuck(UNDECLARED);
    assert ExecBlock(fn.body, start, fns, fuel - 1) == Stuck(UNDECLARED);
    var st: State := start.Declared("x", Num(1));
    assert Exec(decls[0].stmt, start, fns, fuel) == Ok(Next(st));
    assert Eval(Call("f", []), st, fns, fuel) == Stuck(UNDECLARED);
    assert Exec(decls[2].stmt, st, fns, fuel) == Stuck(UNDECLARED);
    assert ExecTop(decls[1..][1..], st, fns, fuel) == Stuck(UNDECLARED);
    assert ExecTop(decls[1..], st, fns, fuel) == Stuck(UNDECLARED);
  }
}
