/** Whole programs: hoisting the tensors, emitting the functions, and running what is left as `user_main`. */
module Programs {
  import opened Options
  import opened TensorAst
  import opened Sema
  import opened Evaluation
  import opened TensorCSemantics
  import opened CTarget
  import opened Codegen
  import opened TensorLayout
  import opened Simulation
  import opened Preservation
  import opened CScopes
  import opened Portable

  /** The fragment of accepted portable programs for which the emitted C means the same. */
  predicate PlainProgram(decls: seq<Decl>, order: Order)
  {
    forall i :: 0 <= i < |decls| ==>
      match decls[i]
      case FunctionDecl(fn) => PlainItems(fn.body, order)
      case Statement(s) => PlainStmt(s, order)
  }

  // ----- what the analysis says about the pieces -----

  function ScopesOf(decls: seq<Decl>, table: Table, arities: Arities): map<string, Table>
    requires CheckDecls(decls, table, arities).Some?
  {
    if decls == [] then map[] else
    var rest := ScopesOf(decls[1..], CheckDecl(decls[0], table, arities).value.1, arities);
    if decls[0].FunctionDecl? then rest[decls[0].fn.name := BindParams(decls[0].fn.params, table).value] else rest
  }

  function BodiesOf(decls: seq<Decl>): map<string, seq<Stmt>>
  {
    if decls == [] then map[]
    else if decls[0].FunctionDecl? then BodiesOf(decls[1..])[decls[0].fn.name := decls[0].fn.body]
    else BodiesOf(decls[1..])
  }

  lemma {:induction false} CheckDeclsExtends(decls: seq<Decl>, table: Table, arities: Arities)
    requires CheckDecls(decls, table, arities).Some?
    ensures Extends(table, CheckDecls(decls, table, arities).value.1)
  {
    if decls != [] {
      if decls[0].Statement? { CheckStmtExtends(decls[0].stmt, table, arities); }
      CheckDeclsExtends(decls[1..], CheckDecl(decls[0], table, arities).value.1, arities);
    }
  }

  lemma {:induction false} CollectedArities(decls: seq<Decl>, arities: Arities)
    requires CollectArities(decls, arities).Some?
    ensures var all, fns := CollectArities(decls, arities).value, FunctionsOf(decls);
            && all.Keys == arities.Keys + fns.Keys && (forall f :: f in arities ==> all[f] == arities[f])
            && forall f :: f in fns ==> all[f] == |fns[f].params|
  {
    if decls != [] {
      CollectedArities(decls[1..], if decls[0].Statement? then arities
                                   else arities[decls[0].fn.name := |decls[0].fn.params|]);
    }
  }

  lemma {:induction false} ParamsBound(params: seq<string>, table: Table)
    requires BindParams(params, table).Some?
    ensures var local := BindParams(params, table).value;
            && (forall p :: p in params ==> p in local && local[p] == Scalar)
            && forall n :: n in local && n !in params ==> n in table && local[n] == table[n]
  {
    if params != [] {
      ParamsBound(params[1..], table[params[0] := Scalar]);
      ParamsStay(params[1..], table[params[0] := Scalar]);
      assert forall p :: p in params <==> p == params[0] || p in params[1..];
    }
  }

  lemma {:induction false} ParamsStay(params: seq<string>, table: Table)
    requires BindParams(params, table).Some?
    ensures Extends(table, BindParams(params, table).value)
  {
    if params != [] { ParamsStay(params[1..], table[params[0] := Scalar]); }
  }

  /** One function, as the analysis and the generator treat it. */
  ghost predicate EntryOk(fn: Function, cfn: CFunction, scope: Table, body: seq<Stmt>, arities: Arities,
                          order: Order, shapes: Table, cx: Context)
  {
    && CheckBlock(fn.body, scope, arities).Some? && CheckBlock(fn.body, scope, arities).value.0 == body
    && PlainItems(fn.body, order) && cfn.params == fn.params && cfn.body == GenBody(body)
    && PortableItems(fn.body, cx) && cx.names == shapes.Keys + (set p | p in fn.params)
    && (forall p :: p in fn.params ==> p in scope && scope[p] == Scalar)
    && (forall n :: n in scope && n !in fn.params && n in shapes ==> scope[n] == shapes[n])
  }

  /** What each function body finds in C, along the text. */
  function ContextsOf(decls: seq<Decl>, c: Context): map<string, Context>
  {
    if decls == [] then map[]
    else match decls[0]
      case FunctionDecl(fn) =>
        var c' := c.(callable := c.callable + {fn.name});
        ContextsOf(decls[1..], c')[fn.name := WithParams(fn.params, c')]
      case Statement(s) => ContextsOf(decls[1..], if s.VarDecl? then c.(hidden := c.hidden + {s.name}) else c)
  }

  lemma {:induction false} ParamNames(params: seq<string>, c: Context)
    ensures WithParams(params, c).names == c.names + (set p | p in params)
  {
    if params != [] {
      ParamNames(params[1..], c.Declare(params[0]));
      assert forall p :: p in params <==> p == params[0] || p in params[1..];
    }
  }

  lemma {:induction false} EntriesOk(decls: seq<Decl>, table: Table, arities: Arities, order: Order, shapes: Table,
                                     c: Context)
    requires CheckDecls(decls, table, arities).Some? && PlainProgram(decls, order)
    requires PortableFunctions(decls, c) && c.names == shapes.Keys
    requires forall n :: n in CheckDecls(decls, table, arities).value.1 && n in shapes ==>
               CheckDecls(decls, table, arities).value.1[n] == shapes[n]
    ensures var (decls', _) := CheckDecls(decls, table, arities).value;
            var fns, cfns := FunctionsOf(decls), CFunctionsOf(GenFunctions(decls'));
            var scopes, bodies, contexts := ScopesOf(decls, table, arities), BodiesOf(decls'), ContextsOf(decls, c);
            && cfns.Keys == scopes.Keys == bodies.Keys == contexts.Keys == fns.Keys
            && forall f :: f in fns ==> EntryOk(fns[f], cfns[f], scopes[f], bodies[f], arities, order, shapes, contexts[f])
  {
    hide CheckStmt;
    hide PlainItems;
    hide PlainStmt;
    hide BindParams;
    hide EntryOk;
    hide CheckBlock;
    hide GenBody;
    hide PortableItems;
    hide PortableParams;
    hide WithParams;
    hide FileName;
    if decls != [] {
      var (decls', final) := CheckDecls(decls, table, arities).value;
      var (d', table') := CheckDecl(decls[0], table, arities).value;
      assert decls' == [d'] + CheckDecls(decls[1..], table', arities).value.0;
      assert decls'[1..] == CheckDecls(decls[1..], table', arities).value.0;
      assert PlainProgram(decls[1..], order);
      match decls[0]
      case Statement(s) =>
        EntriesOk(decls[1..], table', arities, order, shapes, if s.VarDecl? then c.(hidden := c.hidden + {s.name}) else c);
      case FunctionDecl(fn) =>
        EntriesOk(decls[1..], table', arities, order, shapes, c.(callable := c.callable + {fn.name}));
        EntryHolds(decls, table, arities, order, shapes, c);
        assert GenFunctions(decls') == [GenFunction(d'.fn)] + GenFunctions(decls'[1..]);
        assert GenFunctions(decls')[1..] == GenFunctions(decls'[1..]);
    }
  }

  lemma EntryHolds(decls: seq<Decl>, table: Table, arities: Arities, order: Order, shapes: Table, c: Context)
    requires decls != [] && decls[0].FunctionDecl? && CheckDecls(decls, table, arities).Some?
    requires PlainProgram(decls, order) && PortableFunctions(decls, c) && c.names == shapes.Keys
    requires forall n :: n in CheckDecls(decls, table, arities).value.1 && n in shapes ==>
               CheckDecls(decls, table, arities).value.1[n] == shapes[n]
    ensures var fn, fn' := decls[0].fn, CheckDecl(decls[0], table, arities).value.0.fn;
            EntryOk(fn, GenFunction(fn'), BindParams(fn.params, table).value, fn'.body, arities, order, shapes,
                    WithParams(fn.params, c.(callable := c.callable + {fn.name})))
  {
    hide PortableParams;
    hide FileName;
    hide WithParams;
    hide PlainStmt;
    hide CheckBlock;
    hide GenBody;
    hide PortableItems;
    hide PlainItems;
    var fn := decls[0].fn;
    ParamsBound(fn.params, table);
    ParamNames(fn.params, c.(callable := c.callable + {fn.name}));
    CheckDeclsExtends(decls, table, arities);
  }

  /** The static arrays are exactly the tensors the rest of the program declares. */
  lemma {:induction false} StaticsAreTensors(decls: seq<Decl>, table: Table, arities: Arities)
    requires CheckDecls(decls, table, arities).Some?
    ensures var (decls', final) := CheckDecls(decls, table, arities).value;
            var statics := StaticArrays(GlobalsOf(decls'));
            && (forall n :: n in statics <==> n in final && final[n].Tensor? && n !in table)
            && (forall n :: n in statics <==> n in TensorNames(decls)) && (forall n :: n in statics ==> statics[n].Cells?)
  {
    hide CheckBlock;
    if decls != [] {
      var (decls', final) := CheckDecls(decls, table, arities).value;
      var (d', table') := CheckDecl(decls[0], table, arities).value;
      assert decls'[1..] == CheckDecls(decls[1..], table', arities).value.0;
      assert decls'[0] == d';
      StaticsAreTensors(decls[1..], table', arities);
      CheckDeclsExtends(decls[1..], table', arities);
      if decls[0].Statement? {
        TopNames(decls[0].stmt, table, arities);
        if decls[0].stmt.TensorDecl? {
          assert GlobalsOf(decls') == [GenStmt(d'.stmt)] + GlobalsOf(decls'[1..]);
          assert GlobalsOf(decls')[1..] == GlobalsOf(decls'[1..]);
        }
      }
    }
  }

  /** What one statement adds to the symbols. */
  lemma TopNames(s: Stmt, table: Table, arities: Arities)
    requires CheckStmt(s, table, arities).Some?
    ensures var (s', table') := CheckStmt(s, table, arities).value;
            && (s.TensorDecl? <==> s'.TensorDecl?)
            && (s.TensorDecl? ==> s.name !in table && s'.name == s.name && table' == table[s.name := table'[s.name]]
                                  && table'[s.name].Tensor?)
            && (s.VarDecl? ==> s.name !in table && table' == table[s.name := Scalar])
            && (!s.TensorDecl? && !s.VarDecl? ==> table' == table)
  {
  }

  // ----- the world of a program -----

  ghost function WorldOf(decls: seq<Decl>, order: Order): World
    requires Analyze(decls).Some?
  {
    var arities := CollectArities(decls, map[]).value;
    var (decls', final) := Analyze(decls).value;
    var statics := StaticArrays(GlobalsOf(decls'));
    World(FunctionsOf(decls), CFunctionsOf(GenFunctions(decls')), order, arities,
          map n | n in statics && n in final :: final[n], map n | n in statics && statics[n].Cells? :: statics[n].cells,
          ScopesOf(decls, map[], arities), BodiesOf(decls'), ContextsOf(decls, Context(TensorNames(decls), {}, {})))
  }

  lemma WorldOfIsOk(decls: seq<Decl>, order: Order)
    requires Analyze(decls).Some? && PlainProgram(decls, order)
    requires PortableFunctions(decls, Context(TensorNames(decls), {}, {}))
    ensures WorldOk(WorldOf(decls, order)) && StaticsAgree(decls, WorldOf(decls, order))
    ensures WorldOf(decls, order).shapes.Keys == TensorNames(decls)
  {
    hide PortableFunctions;
    hide ContextsOf;
    hide TensorNames;
    hide CheckBlock;
    hide GenBody;
    hide PlainItems;
    hide CheckDecls;
    hide CollectArities;
    hide EntryOk;
    hide FunctionOk;
    hide ScopesOf;
    hide BodiesOf;
    hide GenFunctions;
    hide CFunctionsOf;
    hide FunctionsOf;
    hide StaticArrays;
    hide GlobalsOf;
    hide PlainProgram;
    var w := WorldOf(decls, order);
    CollectedArities(decls, map[]);
    StaticsAreTensors(decls, map[], w.arities);
    assert w.shapes.Keys == TensorNames(decls);
    EntriesOk(decls, map[], w.arities, w.order, w.shapes, Context(TensorNames(decls), {}, {}));
    forall f | f in w.fns ensures FunctionOk(w, f) {
      EntryIsFunction(w, f);
    }
  }

  lemma EntryIsFunction(w: World, f: string)
    requires f in w.fns && f in w.cfns && f in w.arities && f in w.scopes && f in w.bodies && f in w.contexts
    requires w.arities[f] == |w.fns[f].params|
    requires EntryOk(w.fns[f], w.cfns[f], w.scopes[f], w.bodies[f], w.arities, w.order, w.shapes, w.contexts[f])
    ensures FunctionOk(w, f)
  {
    hide CheckBlock;
    hide GenBody;
    hide PlainItems;
  }

  /** The static arrays are the world's tensors, holding the world's initializers. */
  ghost predicate StaticsAgree(decls: seq<Decl>, w: World)
    requires Analyze(decls).Some?
  {
    var (decls', final) := Analyze(decls).value;
    var statics := StaticArrays(GlobalsOf(decls'));
    && statics.Keys == w.shapes.Keys == w.inits.Keys
    && forall n :: n in statics ==> n in final && w.shapes[n] == final[n] && statics[n] == Cells(w.inits[n])
  }

  // ----- the top level -----

  /** Declaring a tensor at the top level, which the C program has done before it started. */
  lemma HoistedTensor(st: State, cst: CState, w: World, table: Table, cx: Context, name: string, ty: Type, g: Grid)
    requires Same(st, cst, w, table, cx) && name !in table && st.globals.Keys <= table.Keys
    requires name in w.shapes && w.shapes[name] == ty && HasType(Matrix(g), ty) && SameTensor(g, w.inits[name])
    ensures Same(st.(globals := st.globals[name := Matrix(g)]), cst, w, table[name := ty], cx)
  {
    hide SameTensor;
    hide HasType;
  }

  lemma {:induction false} TopPreserved(decls: seq<Decl>, st: State, cst: CState, w: World, table: Table, cx: Context,
                                        fuel: nat)
    requires WorldOk(w) && Same(st, cst, w, table, cx) && PlainProgram(decls, w.order)
    requires PortableMain(decls, cx)
    requires CheckDecls(decls, table, w.arities).Some? && st.globals.Keys <= table.Keys
    requires StaticsRemain(decls, w, table)
    ensures var (decls', final) := CheckDecls(decls, table, w.arities).value;
            SameTop(ExecTop(decls, st, w.fns, fuel), CExecBlock(GenItems(MainItems(decls')), cst, w.cfns, w.order, fuel),
                    w)
    decreases |decls|
  {
    hide Same;
    hide SameGlobals;
    hide WorldOk;
    hide CheckStmt;
    hide Exec;
    hide CExec;
    hide GenStmt;
    hide PortableStmt;
    if decls == [] {
      SameHasSameGlobals(st, cst, w, table, cx);
    } else {
      var (d', table') := CheckDecl(decls[0], table, w.arities).value;
      var (decls', final) := CheckDecls(decls, table, w.arities).value;
      assert decls'[0] == d' && decls'[1..] == CheckDecls(decls[1..], table', w.arities).value.0;
      assert PlainProgram(decls[1..], w.order);
      StaticsRemainNext(decls, w, table);
      if decls[0].FunctionDecl? {
        TopPreserved(decls[1..], st, cst, w, table, cx, fuel);
      } else {
        TopNames(decls[0].stmt, table, w.arities);
        if decls[0].stmt.TensorDecl? {
          TopTensor(decls, st, cst, w, table, cx, fuel);
        } else {
          TopStmt(decls, st, cst, w, table, cx, fuel);
        }
      }
    }
  }

  /** The static array of every tensor still to be declared is that tensor's initializer, in its shape. */
  ghost predicate StaticsRemain(decls: seq<Decl>, w: World, table: Table)
    requires CheckDecls(decls, table, w.arities).Some?
  {
    var (decls', final) := CheckDecls(decls, table, w.arities).value;
    var statics := StaticArrays(GlobalsOf(decls'));
    forall n :: n in statics ==> n in w.shapes && n in w.inits && n in final && w.shapes[n] == final[n]
                                 && statics[n] == Cells(w.inits[n])
  }

  lemma StaticsRemainNext(decls: seq<Decl>, w: World, table: Table)
    requires decls != [] && CheckDecls(decls, table, w.arities).Some? && StaticsRemain(decls, w, table)
    ensures StaticsRemain(decls[1..], w, CheckDecl(decls[0], table, w.arities).value.1)
  {
    hide CheckBlock;
    hide CheckStmt;
    hide GenStmt;
    var (decls', final) := CheckDecls(decls, table, w.arities).value;
    var (d', table') := CheckDecl(decls[0], table, w.arities).value;
    assert decls'[0] == d' && decls'[1..] == CheckDecls(decls[1..], table', w.arities).value.0;
    StaticsAreTensors(decls[1..], table', w.arities);
    if decls[0].Statement? {
      TopNames(decls[0].stmt, table, w.arities);
      if decls[0].stmt.TensorDecl? {
        assert GlobalsOf(decls') == [GenStmt(d'.stmt)] + GlobalsOf(decls'[1..]);
        assert GlobalsOf(decls')[1..] == GlobalsOf(decls'[1..]);
        GenTensorIsArray(d'.stmt);
      }
    }
  }

  lemma GenTensorIsArray(s: Stmt)
    requires s.TensorDecl?
    ensures GenStmt(s) == GenTensor(s.name, s.rows, s.cols, s.init)
  {
  }

  /** The C block of the top level reproduces the TensorC run. */
  ghost predicate SameTop(r: Result<Flow<Value>>, cr: Result<Flow<CValue>>, w: World)
  {
    match r
    case Ok(Next(st)) => cr.Ok? && cr.value.Next? && SameGlobals(st, cr.value.st, w)
    case Ok(Returned(v, st)) => cr.Ok? && cr.value.Returned? && cr.value.value == v && SameGlobals(st, cr.value.st, w)
    case Timeout => w.order.LeftFirst? ==> cr.Timeout?
    case Stuck(_) => true
  }

  lemma {:induction false} TopTensor(decls: seq<Decl>, st: State, cst: CState, w: World, table: Table, cx: Context,
                                     fuel: nat)
    requires WorldOk(w) && Same(st, cst, w, table, cx) && PlainProgram(decls, w.order)
    requires PortableMain(decls, cx)
    requires decls != [] && decls[0].Statement? && decls[0].stmt.TensorDecl?
    requires CheckDecls(decls, table, w.arities).Some? && st.globals.Keys <= table.Keys
    requires StaticsRemain(decls, w, table) && PlainProgram(decls[1..], w.order)
    requires StaticsRemain(decls[1..], w, CheckDecl(decls[0], table, w.arities).value.1)
    ensures var (decls', final) := CheckDecls(decls, table, w.arities).value;
            SameTop(ExecTop(decls, st, w.fns, fuel), CExecBlock(GenItems(MainItems(decls')), cst, w.cfns, w.order, fuel),
                    w)
    decreases |decls|, 0
  {
    hide Same;
    hide SameGlobals;
    hide WorldOk;
    hide CExecBlock;
    hide GenItems;
    hide SameTensor;
    hide FlattenInit;
    var s := decls[0].stmt;
    var (d', table') := CheckDecl(decls[0], table, w.arities).value;
    var (decls', final) := CheckDecls(decls, table, w.arities).value;
    assert decls'[0] == d' && decls'[1..] == CheckDecls(decls[1..], table', w.arities).value.0;
    assert MainItems(decls') == MainItems(decls'[1..]);
    TopNames(s, table, w.arities);
    if Declare(s.rows, s.cols, s.init).Some? {
      var g := Declare(s.rows, s.cols, s.init).value;
      DeclaredTensorSame(s.rows, s.cols, s.init);
      StaticOfHead(decls, w, table);
      HoistedTensor(st, cst, w, table, cx, s.name, table'[s.name], g);
      TopPreserved(decls[1..], st.(globals := st.globals[s.name := Matrix(g)]), cst, w, table', cx, fuel);
    }
  }

  lemma StaticOfHead(decls: seq<Decl>, w: World, table: Table)
    requires decls != [] && decls[0].Statement? && decls[0].stmt.TensorDecl?
    requires CheckDecls(decls, table, w.arities).Some? && StaticsRemain(decls, w, table)
    ensures var (d', table') := CheckDecl(decls[0], table, w.arities).value;
            var name := decls[0].stmt.name;
            && name in w.shapes && name in w.inits && w.shapes[name] == table'[name]
            && w.inits[name] == FlattenInit(d'.stmt.rows, d'.stmt.cols, d'.stmt.init)
  {
    hide CheckBlock;
    hide FlattenInit;
    var (decls', final) := CheckDecls(decls, table, w.arities).value;
    var (d', table') := CheckDecl(decls[0], table, w.arities).value;
    assert decls'[0] == d' && decls'[1..] == CheckDecls(decls[1..], table', w.arities).value.0;
    CheckDeclsExtends(decls[1..], table', w.arities);
    assert GlobalsOf(decls') == [GenStmt(d'.stmt)] + GlobalsOf(decls'[1..]);
    var name := decls[0].stmt.name;
    assert StaticArrays(GlobalsOf(decls'))[name] == Cells(GenStmt(d'.stmt).values);
  }

  lemma {:induction false} TopStmt(decls: seq<Decl>, st: State, cst: CState, w: World, table: Table, cx: Context, fuel: nat)
    requires WorldOk(w) && Same(st, cst, w, table, cx) && PlainProgram(decls, w.order)
    requires PortableMain(decls, cx)
    requires decls != [] && decls[0].Statement? && !decls[0].stmt.TensorDecl?
    requires CheckDecls(decls, table, w.arities).Some? && st.globals.Keys <= table.Keys
    requires PlainProgram(decls[1..], w.order)
    requires StaticsRemain(decls[1..], w, CheckDecl(decls[0], table, w.arities).value.1)
    ensures var (decls', final) := CheckDecls(decls, table, w.arities).value;
            SameTop(ExecTop(decls, st, w.fns, fuel), CExecBlock(GenItems(MainItems(decls')), cst, w.cfns, w.order, fuel),
                    w)
    decreases |decls|, 0
  {
    hide PortableStmt;
    hide PlainStmt;
    hide Same;
    hide SameGlobals;
    hide WorldOk;
    hide Exec;
    hide CExec;
    hide GenStmt;
    hide CheckStmt;
    var s := decls[0].stmt;
    var (d', table') := CheckDecl(decls[0], table, w.arities).value;
    var (decls', final) := CheckDecls(decls, table, w.arities).value;
    assert decls'[0] == d' && decls'[1..] == CheckDecls(decls[1..], table', w.arities).value.0;
    TopNames(s, table, w.arities);
    CheckStmtExtends(s, table, w.arities);
    var items := MainItems(decls');
    assert items == [d'.stmt] + MainItems(decls'[1..]) && items[1..] == MainItems(decls'[1..]);
    StmtPreserved(s, d'.stmt, st, cst, w, table, cx, table', fuel);
    var r, cr := Exec(s, st, w.fns, fuel), CExec(GenStmt(d'.stmt), cst, w.cfns, w.order, fuel);
    assert GenItems(items)[1..] == GenItems(items[1..]);
    if r.Ok? && r.value.Next? {
      TopPreserved(decls[1..], r.value.st, cr.value.st, w, table', Declared(s, cx), fuel);
    }
  }

  /** The emitted C compiles; whatever order C takes operands in, it prints the same text, returns the same code and
      leaves every tensor that was declared in its static array, element (r, c) at word r * cols + c: for every accepted
      portable program of the fragment, every amount of fuel, and every run TensorC gives a meaning to. */
  lemma CompiledProgramAgrees(decls: seq<Decl>, order: Order, fuel: nat)
    requires Analyze(decls).Some? && PlainProgram(decls, order) && PortableProgram(decls)
    ensures CProgramOk(Generated(Analyze(decls).value.0))
    ensures var r, cr := Run(decls, fuel), CRun(Generated(Analyze(decls).value.0), order, fuel);
            r.Ok? ==>
              && cr.Ok? && cr.value.0 == r.value.0 && cr.value.1.out == r.value.1.out
              && forall n :: n in r.value.1.globals ==>
                   && n in cr.value.1.globals && cr.value.1.globals[n].Cells? && r.value.1.globals[n].Matrix?
                   && SameTensor(r.value.1.globals[n].grid, cr.value.1.globals[n].cells)
    ensures var r, cr := Run(decls, fuel), CRun(Generated(Analyze(decls).value.0), order, fuel);
            order.LeftFirst? && r.Timeout? ==> cr.Timeout?
  {
    hide CProgramOk;
    CompilesWhenPortable(decls);
    hide PortableTensors;
    hide PortableFunctions;
    hide PortableMain;
    hide TensorNames;
    hide FunctionNames;
    hide Same;
    hide WorldOk;
    hide CheckDecls;
    hide CollectArities;
    hide ExecTop;
    hide CExecBlock;
    hide GenItems;
    hide SameTensor;
    hide MainItems;
    hide StaticsRemain;
    var w := WorldOf(decls, order);
    var (decls', final) := Analyze(decls).value;
    WorldOfIsOk(decls, order);
    hide StaticsAgree;
    hide PlainProgram;
    hide StaticArrays;
    hide GlobalsOf;
    hide SameGlobals;
    hide FunctionsOf;
    hide GenFunctions;
    hide CFunctionsOf;
    hide GenBody;
    var st: State := Store(map[], map[], "");
    var cst: CState := Store(StaticArrays(GlobalsOf(decls')), map[], "");
    var cx := Context(TensorNames(decls), {}, FunctionNames(decls));
    StartSame(decls, w, cx);
    TopPreserved(decls, st, cst, w, map[], cx, fuel);
    BodyReturns(MainItems(decls'), cst, w.cfns, w.order, fuel);
    var r, cr := ExecTop(decls, st, w.fns, fuel), CExecBlock(GenItems(MainItems(decls')), cst, w.cfns, w.order, fuel);
    if r.Ok? {
      GlobalsAreTensors(r.value.st, cr.value.st, w);
      SameOutput(r.value.st, cr.value.st, w);
    }
  }

  /** A program that never ends is compiled to one that never ends, and the other way round unless TensorC gives it no
      meaning: with a C that takes operands left to right. */
  lemma CompiledProgramDiverges(decls: seq<Decl>)
    requires Analyze(decls).Some? && PlainProgram(decls, LeftFirst) && PortableProgram(decls)
    ensures var c := Generated(Analyze(decls).value.0);
            && ((forall fuel: nat :: Run(decls, fuel).Timeout?) ==> forall fuel: nat :: CRun(c, LeftFirst, fuel).Timeout?)
            && ((forall fuel: nat :: !Run(decls, fuel).Stuck?) ==>
                  forall fuel: nat :: Run(decls, fuel).Timeout? <==> CRun(c, LeftFirst, fuel).Timeout?)
  {
    hide Analyze;
    hide PlainProgram;
    hide PortableProgram;
    hide Generated;
    hide Run;
    hide CRun;
    hide CProgramOk;
    hide SameTensor;
    forall fuel: nat
      ensures var r, cr := Run(decls, fuel), CRun(Generated(Analyze(decls).value.0), LeftFirst, fuel);
              (r.Timeout? ==> cr.Timeout?) && (r.Ok? ==> cr.Ok?)
    {
      CompiledProgramAgrees(decls, LeftFirst, fuel);
    }
  }

  lemma SameOutput(st: State, cst: CState, w: World)
    requires SameGlobals(st, cst, w)
    ensures cst.out == st.out
  {
  }

  /** Before the first statement: nothing is declared, and the static arrays hold their initializers. */
  lemma StartSame(decls: seq<Decl>, w: World, cx: Context)
    requires Analyze(decls).Some? && CollectArities(decls, map[]) == Some(w.arities)
    requires WorldOk(w) && StaticsAgree(decls, w) && w.shapes.Keys <= cx.names
    ensures Same(Store(map[], map[], ""), Store(StaticArrays(GlobalsOf(Analyze(decls).value.0)), map[], ""), w, map[], cx)
    ensures CheckDecls(decls, map[], w.arities) == Analyze(decls) && StaticsRemain(decls, w, map[])
  {
    hide CheckDecls;
    hide CollectArities;
    hide FunctionOk;
    hide StaticArrays;
    hide GlobalsOf;
  }

  lemma GlobalsAreTensors(st: State, cst: CState, w: World)
    requires WorldOk(w) && SameGlobals(st, cst, w)
    ensures forall n :: n in st.globals ==>
              && n in cst.globals && cst.globals[n].Cells? && st.globals[n].Matrix?
              && SameTensor(st.globals[n].grid, cst.globals[n].cells)
  {
    hide SameTensor;
    hide FunctionOk;
  }
}
