/** The relation between a TensorC state and a C state, and what each operation does to it. */
module Simulation {
  import opened Options
  import opened Words
  import opened RowMajor
  import opened TensorAst
  import opened Sema
  import opened Evaluation
  import opened TensorCSemantics
  import opened Ordering
  import opened CScopes
  import opened Portable
  import opened Shapes
  import opened CTarget
  import opened Codegen
  import opened TensorLayout

  // ----- the fragment -----

  /** What the emitted C needs beyond the analysis and portability: printed texts hold no NUL, and operands are independent
      unless C takes them left to right. */
  predicate PlainStmt(s: Stmt, order: Order)
    decreases s, 1
  {
    match s
    case VarDecl(_, value) => Fits(value, order)
    case Assign(target, value) => order.LeftFirst? || OrderFreeAssign(target, value)
    case Print(text) => '\0' !in text
    case If(cond, thn, els) =>
      Fits(cond, order) && PlainItems(thn, order) && (els.ElseBlock? ==> PlainItems(els.items, order))
    case While(cond, body) => Fits(cond, order) && PlainItems(body, order)
    case For(start, test, step, body) =>
      && (start.Some? ==> PlainStmt(start.value, order)) && (test.Some? ==> Fits(test.value, order))
      && (step.Some? ==> PlainStmt(step.value, order)) && PlainItems(body, order)
    case Return(value) => Fits(value, order)
    case ExprStmt(expr) => Fits(expr, order)
    case _ => true
  }

  predicate Fits(e: Expr, order: Order)
  {
    order.LeftFirst? || OrderFree(e)
  }

  predicate FitArgs(args: seq<Expr>, order: Order)
  {
    order.LeftFirst? || AllOrderFree(args)
  }

  predicate PlainItems(items: seq<Stmt>, order: Order)
    decreases items, 0
  {
    items == [] || (PlainStmt(items[0], order) && PlainItems(items[1..], order))
  }

  // ----- programs on both sides -----

  /** A program's functions before and after compilation, and its static tensors.  `scopes` and `bodies` are what the
      analysis saw and produced for each function, `contexts` what its body finds in C. */
  datatype World = World(fns: Functions, cfns: CFunctions, order: Order, arities: Arities, shapes: Table,
                         inits: map<string, seq<int>>, scopes: map<string, Table>, bodies: map<string, seq<Stmt>>,
                         contexts: map<string, Context>)

  ghost predicate FunctionOk(w: World, f: string)
    requires f in w.fns && f in w.cfns && f in w.arities && f in w.scopes && f in w.bodies && f in w.contexts
  {
    var fn, scope := w.fns[f], w.scopes[f];
    && w.arities[f] == |fn.params|
    && CheckBlock(fn.body, scope, w.arities).Some? && CheckBlock(fn.body, scope, w.arities).value.0 == w.bodies[f]
    && PlainItems(fn.body, w.order) && PortableItems(fn.body, w.contexts[f])
    && w.contexts[f].names == w.shapes.Keys + (set p | p in fn.params)
    && w.cfns[f].params == fn.params && w.cfns[f].body == GenBody(w.bodies[f])
    && (forall p :: p in fn.params ==> p in scope && scope[p] == Scalar)
    && (forall n :: n in scope && n !in fn.params && n in w.shapes ==> scope[n] == w.shapes[n])
  }

  ghost predicate WorldOk(w: World)
  {
    && w.cfns.Keys == w.fns.Keys && w.arities.Keys == w.fns.Keys && w.scopes.Keys == w.fns.Keys
    && w.bodies.Keys == w.fns.Keys && w.contexts.Keys == w.fns.Keys && w.shapes.Keys == w.inits.Keys
    && (forall n :: n in w.shapes ==> w.shapes[n].Tensor?)
    && forall f :: f in w.fns ==> FunctionOk(w, f)
  }

  // ----- states on both sides -----

  ghost predicate SameValue(v: Value, cv: CValue)
  {
    match (v, cv)
    case (Num(x), CNum(y)) => x == y
    case (Matrix(g), Cells(cells)) => SameTensor(g, cells)
    case _ => false
  }

  ghost predicate HasType(v: Value, ty: Type)
  {
    match (v, ty)
    case (Num(_), Scalar) => true
    case (Matrix(g), Tensor(rows, cols)) => rows > 0 && cols > 0 && Rectangular(g, rows, cols)
    case _ => false
  }

  /** Declared tensors agree; an array whose declaration has not run yet still holds its initializer. */
  ghost predicate SameGlobals(st: State, cst: CState, w: World)
  {
    && st.out == cst.out && st.globals.Keys <= w.shapes.Keys == cst.globals.Keys && w.inits.Keys == w.shapes.Keys
    && forall n :: n in w.shapes ==>
         if n in st.globals then HasType(st.globals[n], w.shapes[n]) && SameValue(st.globals[n], cst.globals[n])
         else cst.globals[n] == Cells(w.inits[n])
  }

  ghost predicate SameLocals(st: State, cst: CState)
  {
    && st.locals.Keys == cst.locals.Keys
    && forall n :: n in st.locals ==> SameValue(st.locals[n], cst.locals[n])
  }

  /** Whatever the analysis knows a name as, it is: a local of that type, or a static tensor of that shape. */
  ghost predicate Typed(st: State, w: World, table: Table)
  {
    forall n :: n in table ==>
      if n in st.locals then HasType(st.locals[n], table[n]) else n in w.shapes ==> w.shapes[n] == table[n]
  }

  /** ... and no variable exists but those the analysis knows and C finds in scope. */
  ghost predicate Same(st: State, cst: CState, w: World, table: Table, cx: Context)
  {
    && SameGlobals(st, cst, w) && SameLocals(st, cst) && Typed(st, w, table)
    && st.locals.Keys <= table.Keys && st.locals.Keys + w.shapes.Keys <= cx.names
  }

  /** No name has appeared or disappeared. */
  ghost predicate SameNames(st: State, st': State)
  {
    st'.locals.Keys == st.locals.Keys && st'.globals.Keys == st.globals.Keys
  }

  /** The C outcome of an expression (or of a list of them) reproduces the TensorC outcome; that a run goes on, only if C
      takes operands left to right. */
  ghost predicate SameResult<T(!new)>(r: Result<(T, State)>, cr: Result<(T, CState)>, st: State, w: World, table: Table,
                               cx: Context)
  {
    match r
    case Ok((v, st')) => cr.Ok? && cr.value.0 == v && Same(st', cr.value.1, w, table, cx) && SameNames(st, st')
    case Timeout => w.order.LeftFirst? ==> cr.Timeout?
    case Stuck(_) => true
  }

  ghost predicate SameUpdate(r: Result<State>, cr: Result<CState>, st: State, w: World, table: Table, cx: Context)
  {
    match r
    case Ok(st') => cr.Ok? && Same(st', cr.value, w, table, cx) && SameNames(st, st')
    case Timeout => w.order.LeftFirst? ==> cr.Timeout?
    case Stuck(_) => true
  }

  /** The C outcome of a statement reproduces the TensorC outcome; locals only join, and only under known names. */
  ghost predicate SameFlow(r: Result<Flow<Value>>, cr: Result<Flow<CValue>>, st: State, w: World, table: Table, cx: Context)
  {
    match r
    case Ok(Next(st')) => cr.Ok? && cr.value.Next? && Same(st', cr.value.st, w, table, cx)
                          && st.locals.Keys <= st'.locals.Keys
                          && st'.globals.Keys == st.globals.Keys
    case Ok(Returned(v, st')) => cr.Ok? && cr.value.Returned? && cr.value.value == v && SameGlobals(st', cr.value.st, w)
                                 && st'.globals.Keys == st.globals.Keys
    case Timeout => w.order.LeftFirst? ==> cr.Timeout?
    case Stuck(_) => true
  }

  // ----- operations -----

  lemma LookupSame(st: State, cst: CState, w: World, table: Table, cx: Context, name: string)
    requires Same(st, cst, w, table, cx) && name in table && st.Lookup(name).Some?
    ensures cst.Lookup(name).Some? && SameValue(st.Lookup(name).value, cst.Lookup(name).value)
    ensures HasType(st.Lookup(name).value, table[name])
  {
    hide SameValue;
    hide HasType;
  }

  lemma AssignSame(st: State, cst: CState, w: World, table: Table, cx: Context, name: string, v: Value, cv: CValue)
    requires Same(st, cst, w, table, cx) && name in table && st.Lookup(name).Some?
    requires SameValue(v, cv) && HasType(v, table[name])
    ensures Same(st.Assigned(name, v), cst.Assigned(name, cv), w, table, cx)
    ensures SameNames(st, st.Assigned(name, v))
  {
    hide SameValue;
    hide HasType;
    if name in st.locals {
      AssignLocal(st, cst, w, table, cx, name, v, cv);
    } else {
      AssignGlobal(st, cst, w, table, cx, name, v, cv);
    }
  }

  lemma AssignLocal(st: State, cst: CState, w: World, table: Table, cx: Context, name: string, v: Value, cv: CValue)
    requires Same(st, cst, w, table, cx) && name in table && name in st.locals
    requires SameValue(v, cv) && HasType(v, table[name])
    ensures Same(st.Assigned(name, v), cst.Assigned(name, cv), w, table, cx) && SameNames(st, st.Assigned(name, v))
  {
    hide SameValue;
    hide HasType;
  }

  lemma AssignGlobal(st: State, cst: CState, w: World, table: Table, cx: Context, name: string, v: Value, cv: CValue)
    requires Same(st, cst, w, table, cx) && name in table && name !in st.locals && name in st.globals
    requires SameValue(v, cv) && HasType(v, table[name])
    ensures Same(st.Assigned(name, v), cst.Assigned(name, cv), w, table, cx) && SameNames(st, st.Assigned(name, v))
  {
    hide SameValue;
    hide HasType;
  }

  lemma DeclareSame(st: State, cst: CState, w: World, table: Table, cx: Context, name: string, ty: Type, v: Value,
                    cv: CValue)
    requires Same(st, cst, w, table, cx) && name !in table && name in cx.names
    requires SameValue(v, cv) && HasType(v, ty)
    ensures Same(st.Declared(name, v), cst.Declared(name, cv), w, table[name := ty], cx) && name !in cst.locals
  {
    hide SameValue;
    hide HasType;
  }

  /** A name in scope need not be a variable yet. */
  lemma SameBefore(st: State, cst: CState, w: World, table: Table, cx: Context, name: string)
    requires Same(st, cst, w, table, cx)
    ensures Same(st, cst, w, table, cx.Declare(name))
  {
    hide SameValue;
    hide HasType;
  }

  lemma PrintSame(st: State, cst: CState, w: World, table: Table, cx: Context, text: string)
    requires Same(st, cst, w, table, cx)
    ensures Same(st.(out := st.out + text), cst.(out := cst.out + text), w, table, cx)
  {
    hide SameValue;
    hide HasType;
  }

  lemma LeaveSame(outer: State, couter: CState, st: State, cst: CState, w: World, table: Table, cx: Context, table': Table,
                  cx': Context)
    requires Same(outer, couter, w, table, cx) && Same(st, cst, w, table', cx') && Extends(table, table')
    requires outer.locals.Keys <= st.locals.Keys
    ensures Same(st.Leaving(outer), cst.Leaving(couter), w, table, cx)
    ensures st.Leaving(outer).locals.Keys == outer.locals.Keys
  {
    hide SameValue;
    hide HasType;
  }

  lemma LeaveGlobals(outer: State, couter: CState, st: State, cst: CState, w: World)
    requires SameGlobals(st, cst, w)
    ensures SameGlobals(st.Leaving(outer), cst.Leaving(couter), w)
  {
    hide SameValue;
    hide HasType;
  }

  lemma {:induction false} BindSame(params: seq<string>, args: seq<int>)
    requires |params| == |args|
    ensures var m, cm := BindArgs(params, args), BindCArgs(params, args);
            && m.Keys == cm.Keys == (set p | p in params)
            && forall p :: p in m ==> m[p].Num? && cm[p] == CTarget.CNum(m[p].n)
  {
    if params != [] {
      BindSame(params[1..], args[1..]);
      assert forall p :: p in params <==> p == params[0] || p in params[1..];
    }
  }

  /** The state a function body starts in, for any analysis that knows the parameters and does not contradict the shapes. */
  lemma EntrySame(st: State, cst: CState, w: World, params: seq<string>, args: seq<int>, scope: Table, cx: Context)
    requires SameGlobals(st, cst, w) && |params| == |args| && cx.names == w.shapes.Keys + (set p | p in params)
    requires forall p :: p in params ==> p in scope && scope[p] == Scalar
    requires forall n :: n in scope && n !in params && n in w.shapes ==> scope[n] == w.shapes[n]
    ensures Same(Store(st.globals, BindArgs(params, args), st.out), Store(cst.globals, BindCArgs(params, args), cst.out),
                 w, scope, cx)
  {
    BindSame(params, args);
    EntryGlobals(st, cst, w, BindArgs(params, args), BindCArgs(params, args));
  }

  lemma EntryGlobals(st: State, cst: CState, w: World, locals: map<string, Value>, clocals: map<string, CValue>)
    requires SameGlobals(st, cst, w)
    ensures SameGlobals(Store(st.globals, locals, st.out), Store(cst.globals, clocals, cst.out), w)
  {
    hide SameValue;
    hide HasType;
  }

  lemma CallSame(st: State, cst: CState, w: World, table: Table, cx: Context, f: string, args: seq<int>)
    requires WorldOk(w) && Same(st, cst, w, table, cx) && f in w.fns && |w.fns[f].params| == |args|
    ensures Same(Store(st.globals, BindArgs(w.fns[f].params, args), st.out),
                 Store(cst.globals, BindCArgs(w.cfns[f].params, args), cst.out), w, w.scopes[f], w.contexts[f])
  {
    hide PlainItems;
    hide PortableItems;
    hide CheckBlock;
    hide GenBody;
    hide SameGlobals;
    hide SameLocals;
    hide Typed;
    hide BindArgs;
    hide BindCArgs;
    assert FunctionOk(w, f);
    EntrySame(st, cst, w, w.fns[f].params, args, w.scopes[f], w.contexts[f]);
  }

  lemma ReturnSame(caller: State, ccaller: CState, st: State, cst: CState, w: World, table: Table, cx: Context)
    requires Same(caller, ccaller, w, table, cx) && SameGlobals(st, cst, w)
    ensures Same(st.Returning(caller), cst.Returning(ccaller), w, table, cx)
  {
    hide SameValue;
    hide HasType;
  }

  /** A function that C finds callable and not hidden is no variable. */
  lemma CallableSame(st: State, cst: CState, w: World, table: Table, cx: Context, f: string)
    requires WorldOk(w) && Same(st, cst, w, table, cx) && f !in cx.names
    ensures cst.Lookup(f).None?
  {
  }

  // ----- tensors -----

  /** In range in two dimensions is in range in one, with a 32-bit index. */
  lemma IndexSame(g: Grid, cells: seq<int>, rows: int, cols: int, r: int, c: int)
    requires SameTensor(g, cells) && Rectangular(g, rows, cols) && 0 <= r < |g| && 0 <= c < |g[r]|
    ensures IsInt32(cols) && ApplyBinary(MUL, r, cols) == Some(r * cols)
    ensures ApplyBinary(ADD, r * cols, c) == Some(Flat(r, c, cols))
    ensures 0 <= Flat(r, c, cols) < |cells| && cells[Flat(r, c, cols)] == g[r][c]
  {
    FlattenAt(g, cols, r, c);
    FlattenLength(g, cols);
    FlatInside(r, c, |g|, cols);
    assert 0 <= r * cols;
  }

  lemma UpdateSame(g: Grid, cells: seq<int>, rows: int, cols: int, r: int, c: int, v: int)
    requires SameTensor(g, cells) && Rectangular(g, rows, cols) && 0 <= r < |g| && 0 <= c < |g[r]|
    ensures 0 <= Flat(r, c, cols) < |cells|
    ensures SameTensor(g[r := g[r][c := v]], cells[Flat(r, c, cols) := v])
    ensures Rectangular(g[r := g[r][c := v]], rows, cols)
  {
    hide Flat;
    FlattenUpdate(g, cols, r, c, v);
  }

  lemma DeclaredTensorSame(rows: Option<int>, cols: Option<int>, init: Option<Grid>)
    requires Declare(rows, cols, init).Some?
    ensures var (r, c) := ShapeOf(rows, cols, init).value;
            var g, cells := Declare(rows, cols, init).value, FlattenInit(Some(r), Some(c), init);
            && |cells| == Count(Some(r), Some(c)) && SameTensor(g, cells) && Rectangular(g, r, c) && r > 0 && c > 0
  {
    var (r, c) := ShapeOf(rows, cols, init).value;
    var g := Declare(rows, cols, init).value;
    ShapeIsRight(rows, cols, init);
    FlattenLength(g, c);
    if init.None? { FlattenZeros(r, c); }
  }

  lemma MultiplySame(st: State, cst: CState, w: World, table: Table, cx: Context, a: string, b: string, c: string,
                     m: int, n: int, k: int)
    requires Same(st, cst, w, table, cx) && a in table && b in table && c in table
    requires table[a] == Tensor(m, k) && table[b] == Tensor(k, n) && table[c] == Tensor(m, n)
    ensures SameUpdate(Multiply(st, a, b, c), NpuGemm(cst, a, b, c, m, n, k), st, w, table, cx)
  {
    hide Same;
    hide SameTensor;
    hide FlatProduct;
    hide Product;
    hide AllInt32;
    var r := Multiply(st, a, b, c);
    if r.Ok? {
      LookupSame(st, cst, w, table, cx, a);
      LookupSame(st, cst, w, table, cx, b);
      LookupSame(st, cst, w, table, cx, c);
      var ga, gb, gc := st.Lookup(a).value.grid, st.Lookup(b).value.grid, st.Lookup(c).value.grid;
      var product := Product(ga, gb, m, n, k);
      ProductSame(ga, cst.Lookup(a).value.cells, gb, cst.Lookup(b).value.cells, gc, cst.Lookup(c).value.cells, m, n, k);
      assert r.value == st.Assigned(c, Matrix(product));
      AssignSame(st, cst, w, table, cx, c, Matrix(product), Cells(Flatten(product)));
    }
  }

  /** The product of three tensors and of their arrays. */
  lemma ProductSame(ga: Grid, xs: seq<int>, gb: Grid, ys: seq<int>, gc: Grid, zs: seq<int>, m: nat, n: nat, k: nat)
    requires SameTensor(ga, xs) && SameTensor(gb, ys) && SameTensor(gc, zs) && m > 0 && n > 0 && k > 0
    requires Rectangular(ga, m, k) && Rectangular(gb, k, n) && Rectangular(gc, m, n) && AllInt32(Product(ga, gb, m, n, k))
    ensures var product := Product(ga, gb, m, n, k);
            && Flatten(product) == FlatProduct(xs, ys, m, n, k) && Rectangular(product, m, n)
            && SameTensor(product, Flatten(product))
            && forall x :: 0 <= x < |Flatten(product)| ==> IsInt32(Flatten(product)[x])
    ensures |xs| == m * k && |ys| == k * n && |zs| == m * n
  {
    hide FlatProduct;
    hide AllInt32;
    FlattenLength(ga, k);
    FlattenLength(gb, n);
    FlattenLength(gc, n);
    assert ga[..m] == ga;
    ProductMatches(ga, gb, m, n, k);
    FlattenLength(Product(ga, gb, m, n, k), n);
    FlattenInt32(Product(ga, gb, m, n, k));
  }
}
