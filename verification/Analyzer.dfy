/** The semantic analyser as it runs: scopes are dictionaries updated in place and copied at every block
    (src/maps-compiler/tensorc/sema.py).  Each method is proved against the functions of `Sema`. */
module Analyzer {
  import opened Options
  import opened Lists
  import opened TensorAst
  import opened Sema
  import opened Typing

  /** What checking a statement leaves behind, against the function's verdict; a refused one stops the analysis. */
  predicate Agrees(checked: Option<(Stmt, Table)>, r: Option<Stmt>, symbols: Table)
  {
    if checked.Some? then r == Some(checked.value.0) && symbols == checked.value.1 else r == None
  }

  class Scope {
    var symbols: Table

    constructor (symbols: Table)
      ensures this.symbols == symbols
    {
      this.symbols := symbols;
    }

    method CheckRows(init: seq<seq<int>>) returns (ragged: bool)
      ensures ragged == Ragged(init)
    {
      var cols := if init == [] then 0 else |init[0]|;
      for i := 0 to |init|
        invariant forall j :: 0 <= j < i ==> |init[j]| == |init[0]|
      {
        if |init[i]| != cols { return true; }
      }
      return false;
    }

    method DeclareTensor(s: Stmt) returns (r: Option<Stmt>)
      requires s.TensorDecl?
      modifies this
      ensures Agrees(old(CheckStmt(s, symbols, map[])), r, symbols)
    {
      if s.name in symbols { return None; }
      var rows, cols := s.rows, s.cols;
      if s.init.Some? {
        var init := s.init.value;
        var ragged := CheckRows(init);
        if ragged { return None; }
        var foundRows, foundCols := |init|, if init == [] then 0 else |init[0]|;
        if rows == None && cols == None {
          rows, cols := Some(foundRows), Some(foundCols);
        } else if rows != Some(foundRows) || cols != Some(foundCols) {
          return None;
        }
      }
      if rows == None || cols == None { return None; }
      if rows.value <= 0 || cols.value <= 0 { return None; }
      symbols := symbols[s.name := Tensor(rows.value, cols.value)];
      return Some(s.(rows := rows, cols := cols));
    }

    method CheckGemm(s: Stmt) returns (r: Option<Stmt>)
      requires s.Gemm?
      ensures Agrees(CheckStmt(s, symbols, map[]), r, symbols)
      ensures forall m, n, k :: r == Some(Gemm(s.a, s.b, s.c, m, n, k))
                <==> && s.a in symbols && s.b in symbols && s.c in symbols
                     && symbols[s.a] == Tensor(m, k) && symbols[s.b] == Tensor(k, n) && symbols[s.c] == Tensor(m, n)
      ensures r.Some? ==> r.value == s.(m := r.value.m, n := r.value.n, k := r.value.k)
    {
      var names := [s.a, s.b, s.c];
      for i := 0 to 3
        invariant forall j :: 0 <= j < i ==> names[j] in symbols && symbols[names[j]].Tensor?
      {
        if names[i] !in symbols || !symbols[names[i]].Tensor? { return None; }
      }
      assert names[0] == s.a && names[1] == s.b && names[2] == s.c;
      var a, b, c := symbols[s.a], symbols[s.b], symbols[s.c];
      if a.cols != b.rows || c.rows != a.rows || c.cols != b.cols { return None; }
      return Some(Gemm(s.a, s.b, s.c, a.rows, b.cols, a.cols));
    }

    method CheckStatement(s: Stmt, arities: Arities) returns (r: Option<Stmt>)
      modifies this
      ensures Agrees(old(CheckStmt(s, symbols, arities)), r, symbols)
      decreases s, 1
    {
      match s
      case TensorDecl(_, _, _, _) => r := DeclareTensor(s);
      case VarDecl(name, value) =>
        if name in symbols { return None; }
        var value' := RequireInt(value, symbols, arities);
        if value' == None { return None; }
        symbols := symbols[name := Scalar];
        return Some(VarDecl(name, value'.value));
      case Assign(target, value) =>
        var target', value' := CheckExpr(target, symbols, arities), CheckExpr(value, symbols, arities);
        if target' == None || value' == None || target'.value.1.Tensor? || value'.value.1.Tensor? { return None; }
        return Some(Assign(target'.value.0, value'.value.0));
      case Gemm(_, _, _, _, _, _) => r := CheckGemm(s);
      case Print(_) => r := Some(s);
      case If(cond, thn, els) =>
        var cond' := RequireInt(cond, symbols, arities);
        if cond' == None { return None; }
        var thn' := CheckStatements(thn, arities);
        if thn' == None { return None; }
        if els.NoElse? { return Some(If(cond'.value, thn'.value, NoElse)); }
        var els' := CheckStatements(els.items, arities);
        if els' == None { return None; }
        return Some(If(cond'.value, thn'.value, ElseBlock(els'.value)));
      case While(cond, body) =>
        var cond' := RequireInt(cond, symbols, arities);
        if cond' == None { return None; }
        var body' := CheckStatements(body, arities);
        if body' == None { return None; }
        return Some(While(cond'.value, body'.value));
      case For(_, _, _, _) =>
        r := CheckFor(s, arities);
      case Return(value) =>
        var value' := RequireInt(value, symbols, arities);
        r := if value' == None then None else Some(Return(value'.value));
      case ExprStmt(expr) =>
        var expr' := CheckExpr(expr, symbols, arities);
        r := if expr' == None then None else Some(ExprStmt(expr'.value.0));
    }

    /** The parts of a `for` share a copy of the scope. */
    method CheckFor(s: Stmt, arities: Arities) returns (r: Option<Stmt>)
      requires s.For?
      ensures Agrees(CheckStmt(s, symbols, arities), r, symbols)
      decreases s, 0
    {
      var local := new Scope(symbols);
      var start', test', step' := s.start, s.test, s.step;
      if s.start.Some? {
        start' := local.CheckStatement(s.start.value, arities);
        if start' == None { return None; }
      }
      assert CheckPart(s.start, symbols, arities) == Some((start', local.symbols));
      if s.test.Some? {
        test' := RequireInt(s.test.value, local.symbols, arities);
        if test' == None { return None; }
      }
      assert CheckTest(s.test, local.symbols, arities) == Some(test');
      ghost var between := local.symbols;
      if s.step.Some? {
        step' := local.CheckStatement(s.step.value, arities);
        if step' == None { return None; }
      }
      assert CheckPart(s.step, between, arities) == Some((step', local.symbols));
      var body' := local.CheckStatements(s.body, arities);
      if body' == None { return None; }
      return Some(For(start', test', step', body'.value));
    }

    /** A block works on a copy of the scope, so nothing it declares is visible after it. */
    method CheckStatements(items: seq<Stmt>, arities: Arities) returns (r: Option<seq<Stmt>>)
      ensures var checked := CheckBlock(items, symbols, arities);
              r == if checked.Some? then Some(checked.value.0) else None
      decreases items, 0
    {
      var local := new Scope(symbols);
      var done := [];
      ghost var whole := CheckBlock(items, symbols, arities);
      assert items[0..] == items;
      ContinuesBegin(whole);
      for i := 0 to |items|
        invariant fresh(local) && Continues(whole, done, CheckBlock(items[i..], local.symbols, arities))
      {
        ghost var rest := items[i..];
        assert rest[0] == items[i] && rest[1..] == items[i + 1..];
        var s := local.CheckStatement(items[i], arities);
        if s == None { return None; }
        ContinuesStep(whole, done, s.value, CheckBlock(items[i + 1..], local.symbols, arities));
        done := done + [s.value];
      }
      ContinuesEnd(whole, done, local.symbols);
      return Some(done);
    }
  }

  /** Both passes over the program: first the functions, then every declaration in order. */
  method AnalyzeProgram(decls: seq<Decl>) returns (r: Option<(seq<Decl>, Table)>)
    ensures r == Analyze(decls)
    ensures forall decls', table :: r == Some((decls', table)) <==> Accepts(decls, decls', table)
  {
    hide Accepts;
    forall decls', table
      ensures Analyze(decls) == Some((decls', table)) <==> Accepts(decls, decls', table)
    {
      AnalyzeExactly(decls, decls', table);
    }
    var arities: Arities := map[];
    for i := 0 to |decls|
      invariant CollectArities(decls, map[]) == CollectArities(decls[i..], arities)
    {
      ghost var rest := decls[i..];
      assert rest[0] == decls[i] && rest[1..] == decls[i + 1..];
      if decls[i].FunctionDecl? {
        if decls[i].fn.name in arities { return None; }
        arities := arities[decls[i].fn.name := |decls[i].fn.params|];
      }
    }
    var globals := new Scope(map[]);
    var done := [];
    ghost var whole := CheckDecls(decls, map[], arities);
    assert decls[0..] == decls;
    ContinuesBegin(whole);
    for i := 0 to |decls|
      invariant fresh(globals) && Continues(whole, done, CheckDecls(decls[i..], globals.symbols, arities))
    {
      ghost var rest := decls[i..];
      assert rest[0] == decls[i] && rest[1..] == decls[i + 1..];
      var d := CheckDeclaration(decls[i], globals, arities);
      if d == None { return None; }
      ContinuesStep(whole, done, d.value, CheckDecls(decls[i + 1..], globals.symbols, arities));
      done := done + [d.value];
    }
    ContinuesEnd(whole, done, globals.symbols);
    return Some((done, globals.symbols));
  }

  /** A function body is checked in a copy of the symbols known so far, joined by its parameters. */
  method CheckFunction(fn: Function, symbols: Table, arities: Arities) returns (r: Option<seq<Stmt>>)
    ensures CheckDecl(FunctionDecl(fn), symbols, arities)
         == if r.Some? then Some((FunctionDecl(fn.(body := r.value)), symbols)) else None
  {
    var local := new Scope(symbols);
    assert fn.params[0..] == fn.params;
    for i := 0 to |fn.params|
      invariant fresh(local) && BindParams(fn.params, symbols) == BindParams(fn.params[i..], local.symbols)
    {
      ghost var rest := fn.params[i..];
      assert rest[0] == fn.params[i] && rest[1..] == fn.params[i + 1..];
      if fn.params[i] in local.symbols { return None; }
      local.symbols := local.symbols[fn.params[i] := Scalar];
    }
    r := local.CheckStatements(fn.body, arities);
  }

  method CheckDeclaration(decl: Decl, globals: Scope, arities: Arities) returns (r: Option<Decl>)
    modifies globals
    ensures old(CheckDecl(decl, globals.symbols, arities)) == if r.Some? then Some((r.value, globals.symbols)) else None
  {
    match decl
    case FunctionDecl(fn) =>
      var body := CheckFunction(fn, globals.symbols, arities);
      r := if body == None then None else Some(FunctionDecl(fn.(body := body.value)));
    case Statement(stmt) =>
      var s := globals.CheckStatement(stmt, arities);
      r := if s == None then None else Some(Statement(s.value));
  }
}
