/** Inputs outside the hypotheses of the theorem about compiled programs, and what becomes of them. */
module Limits {
  import opened Options
  import opened TensorAst
  import opened Sema
  import opened Evaluation
  import opened TensorCSemantics
  import opened CTarget
  import opened CScopes
  import opened CStrings
  import opened Codegen
  import opened Portable
  import opened Programs

  /** `int32 x = 1; fn f() -> int32 { return x; }` */
  const TOP_VARIABLE := [Statement(VarDecl("x", IntLiteral(1))), FunctionDecl(Function("f", [], [Return(VarRef("x"))]))]

  /** `fn f() -> int32 { return g(); } fn g() -> int32 { return 1; }` */
  const LATER_FUNCTION := [FunctionDecl(Function("f", [], [Return(Call("g", []))])),
                           FunctionDecl(Function("g", [], [Return(IntLiteral(1))]))]

  /** `if (0) { 1 = 2; }` */
  const CONSTANT_ASSIGNED := [Statement(If(IntLiteral(0), [Assign(IntLiteral(1), IntLiteral(2))], NoElse))]

  /** `int32 int = 1;` */
  const KEYWORD_NAME := [Statement(VarDecl("int", IntLiteral(1)))]

  /** Accepted, in the fragment and meaningful, and yet the emitted C does not compile. */
  ghost predicate AcceptedInVain(decls: seq<Decl>)
  {
    && Analyze(decls).Some? && PlainProgram(decls, LeftFirst) && Run(decls, 0).Ok?
    && !PortableProgram(decls) && !CProgramOk(Generated(Analyze(decls).value.0))
  }

  /** Acceptance and meaning are checked apart from portability. */
  lemma InVain(decls: seq<Decl>)
    requires Analyze(decls).Some? && PlainProgram(decls, LeftFirst) && Run(decls, 0).Ok?
    requires !PortableProgram(decls)
    ensures AcceptedInVain(decls)
  {
    hide Analyze;
    hide PlainProgram;
    hide Run;
    hide PortableProgram;
    hide CProgramOk;
    hide Generated;
    CompilesWhenPortable(decls);
  }

  lemma TopVariableInFunction()
    ensures AcceptedInVain(TOP_VARIABLE)
  {
    hide IsKeyword;
    hide IsProvided;
    hide AcceptedInVain;
    hide CProgramOk;
    hide Generated;
    hide FileName;
    var decls, arities := TOP_VARIABLE, map["f" := 0];
    var f := decls[1].fn;
    assert decls[1..] == [decls[1]] && decls[1..][1..] == [];
    assert CollectArities(decls, map[]) == Some(arities);
    assert CheckDecl(decls[0], map[], arities) == Some((decls[0], map["x" := Scalar]));
    assert CheckStmt(f.body[0], map["x" := Scalar], arities).Some?;
    assert f.body[1..] == [];
    assert CheckDecl(decls[1], map["x" := Scalar], arities).Some?;
    InVain(decls);
  }

  lemma LaterFunctionCalled()
    ensures AcceptedInVain(LATER_FUNCTION)
  {
    hide AcceptedInVain;
    hide Analyze;
    hide PlainProgram;
    hide Run;
    hide PortableProgram;
    LaterFunctionAccepted();
    LaterFunctionRuns();
    LaterFunctionRefused();
    InVain(LATER_FUNCTION);
  }

  lemma LaterFunctionAccepted()
    ensures Analyze(LATER_FUNCTION).Some?
  {
    var decls, arities := LATER_FUNCTION, map["f" := 0, "g" := 0];
    assert decls[1..] == [decls[1]] && decls[1..][1..] == [];
    assert CollectArities(decls[1..], map["f" := 0]) == Some(arities);
    assert CheckExpr(Call("g", []), map[], arities) == Some((Call("g", []), Scalar));
    assert decls[0].fn.body[1..] == [] && decls[1].fn.body[1..] == [];
    assert CheckStmt(Return(Call("g", [])), map[], arities).Some?;
    assert CheckDecl(decls[0], map[], arities).Some?;
    assert CheckDecl(decls[1], map[], arities).Some?;
  }

  lemma LaterFunctionRuns()
    ensures PlainProgram(LATER_FUNCTION, LeftFirst) && Run(LATER_FUNCTION, 0).Ok?
  {
    var decls := LATER_FUNCTION;
    assert decls[1..] == [decls[1]] && decls[1..][1..] == [];
    assert decls[0].fn.body[1..] == [] && decls[1].fn.body[1..] == [];
  }

  lemma LaterFunctionRefused()
    ensures !PortableProgram(LATER_FUNCTION)
  {
    hide FileName;
    hide PortableTensors;
    hide PortableMain;
    var decls := LATER_FUNCTION;
    var c := Context(TensorNames(decls), {}, {"f"});
    assert !PortableExpr(Call("g", []), c) && !PortableItems(decls[0].fn.body, c);
    assert {} + {"f"} == {"f"};
  }

  lemma ConstantAssigned()
    ensures AcceptedInVain(CONSTANT_ASSIGNED)
  {
    hide IsKeyword;
    hide IsProvided;
    hide AcceptedInVain;
    hide CProgramOk;
    hide Generated;
    var decls := CONSTANT_ASSIGNED;
    var s := decls[0].stmt;
    assert decls[1..] == [] && s.thn[1..] == [];
    assert CheckStmt(s.thn[0], map[], map[]).Some?;
    assert CheckBlock(s.thn, map[], map[]).Some?;
    assert CheckStmt(s, map[], map[]).Some?;
    assert !PortableItems(s.thn, Context({}, {}, {}));
    InVain(decls);
  }

  lemma KeywordNamed()
    ensures AcceptedInVain(KEYWORD_NAME)
  {
    hide IsProvided;
    hide AcceptedInVain;
    hide CProgramOk;
    hide Generated;
    var decls := KEYWORD_NAME;
    assert decls[1..] == [];
    assert CheckStmt(decls[0].stmt, map[], map[]).Some?;
    IntIsKeyword();
    InVain(decls);
  }

  lemma IntIsKeyword()
    ensures IsKeyword("int")
  {
    var first := ["auto", "break", "case", "char", "const", "continue", "default", "do", "double", "else", "enum", "extern",
                  "float", "for", "goto", "if", "inline", "int"];
    assert first[17] == "int";
  }

  // ----- texts with a NUL -----

  const NUL_TEXT := "a\0b"

  /** `print` of that text. */
  const PRINTS_NUL := [Statement(Print(NUL_TEXT))]

  /** TensorC prints all three characters; the runtime of the emitted C stops at the second. */
  lemma NulCutsText(order: Order)
    ensures Analyze(PRINTS_NUL).Some? && PortableProgram(PRINTS_NUL)
    ensures var r, cr := Run(PRINTS_NUL, 0), CRun(Generated(Analyze(PRINTS_NUL).value.0), order, 0);
            r.Ok? && r.value.1.out == NUL_TEXT && cr.Ok? && cr.value.1.out == "a"
  {
    hide Analyze;
    hide PortableProgram;
    hide Run;
    hide CRun;
    hide Generated;
    NulAccepted();
    NulPortable();
    NulRun();
    NulCompiled(order);
  }

  lemma NulAccepted()
    ensures Analyze(PRINTS_NUL) == Some((PRINTS_NUL, map[]))
  {
    assert PRINTS_NUL[1..] == [] && PRINTS_NUL == [PRINTS_NUL[0]] + [];
    assert CollectArities(PRINTS_NUL[1..], map[]) == Some(map[]);
    assert CollectArities(PRINTS_NUL, map[]) == Some(map[]);
    assert CheckDecls(PRINTS_NUL[1..], map[], map[]) == Some(([], map[]));
    assert CheckDecl(PRINTS_NUL[0], map[], map[]) == Some((PRINTS_NUL[0], map[]));
  }

  lemma NulPortable()
    ensures PortableProgram(PRINTS_NUL)
  {
    hide IsKeyword;
    hide IsProvided;
    var c := Context({}, {}, {});
    NothingPortable(c);
    assert PRINTS_NUL[1..] == [];
    assert TensorNames(PRINTS_NUL) == TensorNames(PRINTS_NUL[1..]);
    assert FunctionNames(PRINTS_NUL) == FunctionNames(PRINTS_NUL[1..]);
    assert PortableStmt(PRINTS_NUL[0].stmt, c);
  }

  lemma NulRun()
    ensures Run(PRINTS_NUL, 0).Ok? && Run(PRINTS_NUL, 0).value.1.out == NUL_TEXT
  {
    var st: State := Store(map[], map[], "");
    var printed: State := Store(map[], map[], NUL_TEXT);
    assert PRINTS_NUL[1..] == [] && "" + NUL_TEXT == NUL_TEXT;
    assert FunctionsOf(PRINTS_NUL) == map[];
    assert Exec(PRINTS_NUL[0].stmt, st, map[], 0) == Ok(Next(printed));
    assert ExecTop(PRINTS_NUL[1..], printed, map[], 0) == Ok(Next(printed));
  }

  lemma NulCompiled(order: Order)
    ensures CRun(Generated(PRINTS_NUL), order, 0).Ok? && CRun(Generated(PRINTS_NUL), order, 0).value.1.out == "a"
  {
    hide CExecBlock;
    hide Escape;
    NulGenerated();
    NulPrinted(map[], order);
  }

  lemma NulGenerated()
    ensures Generated(PRINTS_NUL) == CProgram([], [], [CPrint(Escape(NUL_TEXT)), CReturn(CInt(0))])
  {
    hide Escape;
    var s := PRINTS_NUL[0].stmt;
    assert PRINTS_NUL[1..] == [] && MainItems(PRINTS_NUL) == [s] && GlobalsOf(PRINTS_NUL) == [];
    assert GenFunctions(PRINTS_NUL) == [];
    OneItem(s);
  }

  lemma NulPrinted(fns: CFunctions, order: Order)
    ensures var main := [CPrint(Escape(NUL_TEXT)), CReturn(CInt(0))];
            CExecBlock(main, Store(map[], map[], ""), fns, order, 0) == Ok(Returned(0, Store(map[], map[], "a")))
  {
    hide Escape;
    UnescapeEscape(NUL_TEXT);
    NulEnds();
    hide Unescape;
    hide BeforeNul;
    var st: CState := Store(map[], map[], "");
    var printed: CState := Store(map[], map[], "a");
    var main := [CPrint(Escape(NUL_TEXT)), CReturn(CInt(0))];
    assert "" + "a" == "a" && main[1..] == [main[1]];
    assert CExec(main[0], st, fns, order, 0) == Ok(Next(printed));
    assert CEval(CInt(0), printed, fns, order, 0) == Ok((0, printed));
    assert CExec(main[1], printed, fns, order, 0) == Ok(Returned(0, printed));
    assert CExecBlock(main[1..], printed, fns, order, 0) == Ok(Returned(0, printed));
  }

  lemma NulEnds()
    ensures BeforeNul(NUL_TEXT) == "a"
  {
    assert NUL_TEXT[1..][0] == '\0';
    assert BeforeNul(NUL_TEXT[1..]) == "";
    assert ['a'] + "" == "a";
  }

  // ----- operands that are not independent -----

  const PRINTS_A := Function("f", [], [Print("a"), Return(IntLiteral(1))])
  const PRINTS_B := Function("g", [], [Print("b"), Return(IntLiteral(1))])
  const BOTH := Binary(BinaryOp.ADD, Call("f", []), Call("g", []))

  /** Two functions that print, and `int32 x = f() + g();` */
  const TWO_CALLS := [FunctionDecl(PRINTS_A), FunctionDecl(PRINTS_B), Statement(VarDecl("x", BOTH))]

  const RIGHT_FIRST := Chosen((operands: seq<CExpr>, st: CState) => true)

  /** TensorC prints "ab"; a C compiler that takes right operands first prints "ba". */
  lemma OrderMatters()
    ensures Analyze(TWO_CALLS).Some? && PortableProgram(TWO_CALLS)
    ensures var r, cr := Run(TWO_CALLS, 1), CRun(Generated(Analyze(TWO_CALLS).value.0), RIGHT_FIRST, 1);
            r.Ok? && r.value.1.out == "ab" && cr.Ok? && cr.value.1.out == "ba"
  {
    hide Analyze;
    hide PortableProgram;
    hide Run;
    hide CRun;
    hide Generated;
    TwoCallsAccepted();
    TwoCallsPortable();
    TwoCallsRun();
    TwoCallsSwapped();
  }

  lemma TwoCallsAccepted()
    ensures Analyze(TWO_CALLS).Some? && Analyze(TWO_CALLS).value.0 == TWO_CALLS
  {
    hide CheckDecl;
    var decls, arities := TWO_CALLS, map["f" := 0, "g" := 0];
    var two, one, final := [decls[1], decls[2]], [decls[2]], map["x" := Scalar];
    assert decls[1..] == two && two[1..] == one && one[1..] == [];
    assert CollectArities(one, arities) == Some(arities);
    assert CollectArities(two, map["f" := 0]) == Some(arities);
    PrinterAccepted(PRINTS_A, arities);
    PrinterAccepted(PRINTS_B, arities);
    BothAccepted(arities);
    assert one == [decls[2]] + [] && two == [decls[1]] + one && decls == [decls[0]] + two;
    assert CheckDecls(one, map[], arities) == Some((one, final));
    assert CheckDecls(two, map[], arities) == Some((two, final));
  }

  lemma BothAccepted(arities: Arities)
    requires arities == map["f" := 0, "g" := 0]
    ensures CheckDecl(TWO_CALLS[2], map[], arities) == Some((TWO_CALLS[2], map["x" := Scalar]))
  {
    assert CheckExpr(Call("f", []), map[], arities) == Some((Call("f", []), Scalar));
    assert CheckExpr(Call("g", []), map[], arities) == Some((Call("g", []), Scalar));
    assert CheckExpr(BOTH, map[], arities) == Some((BOTH, Scalar));
  }

  predicate Printer(fn: Function)
  {
    fn.params == [] && |fn.body| == 2 && fn.body[0].Print? && fn.body[1] == Return(IntLiteral(1))
  }

  lemma PrinterAccepted(fn: Function, arities: Arities)
    requires Printer(fn)
    ensures CheckDecl(FunctionDecl(fn), map[], arities) == Some((FunctionDecl(fn), map[]))
  {
    var last := [fn.body[1]];
    assert CheckStmt(fn.body[1], map[], arities) == Some((fn.body[1], map[]));
    assert fn.body[1..] == last && last == [fn.body[1]] + [] && last[1..] == [];
    assert CheckBlock(last, map[], arities) == Some((last, map[]));
    assert CheckBlock(fn.body[1..], map[], arities) == Some((last, map[]));
    assert CheckStmt(fn.body[0], map[], arities) == Some((fn.body[0], map[]));
    assert fn.body == [fn.body[0]] + last;
    assert CheckBlock(fn.body, map[], arities) == Some((fn.body, map[]));
  }

  lemma TwoCallsPortable()
    ensures PortableProgram(TWO_CALLS)
  {
    hide IsKeyword;
    hide IsProvided;
    hide PortableItems;
    hide PortableStmt;
    hide PortableTensors;
    hide PortableFunctions;
    hide PortableMain;
    hide TensorNames;
    hide FunctionNames;
    var f, g, x := TWO_CALLS[0], TWO_CALLS[1], TWO_CALLS[2];
    var one, two := [x] + [], [g] + ([x] + []);
    assert TWO_CALLS == [f] + two;
    NotKeywords();
    var c := Context({}, {}, {"f", "g"});
    NothingPortable(c.Declare("x"));
    NothingPortable(c.(hidden := {} + {"x"}));
    BothPortable();
    FirstPortable(x, [], c);
    PrinterPortable(PRINTS_B, Context({}, {}, {"f"} + {"g"}));
    FirstPortable(g, one, Context({}, {}, {"f"}));
    PrinterPortable(PRINTS_A, Context({}, {}, {} + {"f"}));
    FirstPortable(f, two, Context({}, {}, {}));
    assert {} + {"f"} == {"f"} && {"f"} + {"g"} == {"f", "g"};
    assert {"g"} + {} == {"g"} && {"f"} + {"g"} == {"f", "g"};
    FirstPortable(g, one, c);
    FirstPortable(f, two, c);
  }

  lemma NothingPortable(c: Context)
    ensures TensorNames([]) == {} && FunctionNames([]) == {} && PortableTensors([])
    ensures PortableFunctions([], c) && PortableMain([], c)
  {
  }

  /** What the first of some declarations adds to each part of the condition: a printing function, or the variable. */
  lemma FirstPortable(d: Decl, rest: seq<Decl>, c: Context)
    requires (d.FunctionDecl? && Printer(d.fn)) || (d.Statement? && d.stmt.VarDecl?)
    ensures TensorNames([d] + rest) == TensorNames(rest) && (PortableTensors([d] + rest) <==> PortableTensors(rest))
    ensures FunctionNames([d] + rest) == (if d.FunctionDecl? then {d.fn.name} + FunctionNames(rest) else FunctionNames(rest))
    ensures d.FunctionDecl? ==> PortableMain([d] + rest, c) == PortableMain(rest, c)
    ensures d.FunctionDecl? ==>
              var inside := c.(callable := c.callable + {d.fn.name});
              PortableFunctions([d] + rest, c) <==>
                && FileName(d.fn.name) && d.fn.name !in c.names && PortableItems(d.fn.body, inside)
                && PortableFunctions(rest, inside)
    ensures d.Statement? ==> PortableMain([d] + rest, c) ==
                             (PortableStmt(d.stmt, c) && PortableMain(rest, c.Declare(d.stmt.name)))
    ensures d.Statement? ==> PortableFunctions([d] + rest, c) == PortableFunctions(rest, c.(hidden := c.hidden + {d.stmt.name}))
  {
    hide PortableItems;
    hide PortableStmt;
    hide FileName;
    assert ([d] + rest)[1..] == rest;
    if d.FunctionDecl? { NoParams(c.(callable := c.callable + {d.fn.name})); }
  }

  lemma NoParams(c: Context)
    ensures PortableParams([], c) && WithParams([], c) == c
  {
  }

  lemma BothPortable()
    ensures PortableStmt(TWO_CALLS[2].stmt, Context({}, {}, {"f", "g"}))
  {
    hide IsKeyword;
    NotKeywords();
    var c := Context({}, {}, {"f", "g"}).Declare("x");
    assert PortableArgs([], c);
    assert PortableExpr(Call("f", []), c) && PortableExpr(Call("g", []), c);
  }

  lemma PrinterPortable(fn: Function, c: Context)
    requires Printer(fn) && c.names == {}
    ensures PortableItems(fn.body, c)
  {
    assert fn.body[1..][1..] == [];
    assert PortableStmt(fn.body[1], c);
    assert PortableItems(fn.body[1..], c);
  }

  lemma NotKeywords()
    ensures FileName("f") && FileName("g") && !IsKeyword("x")
  {
    hide IsKeyword;
    hide IsProvided;
    forall name: string | |name| == 1 ensures !IsKeyword(name) && !IsProvided(name) {
      KeywordsLonger(name);
      ProvidedLonger(name);
    }
    assert |"f"| == |"g"| == |"x"| == 1;
  }

  lemma KeywordsLonger(name: string)
    ensures IsKeyword(name) ==> |name| > 1
  {
    assert forall i :: 0 <= i < |KEYWORDS| ==> |KEYWORDS[i]| > 1;
    if name in KEYWORDS { var i :| 0 <= i < |KEYWORDS| && KEYWORDS[i] == name; }
  }

  lemma ProvidedLonger(name: string)
    ensures IsProvided(name) ==> |name| > 1
  {
    assert forall i :: 0 <= i < |PROVIDED| ==> |PROVIDED[i]| > 1;
    if IsProvided(name) { var i :| 0 <= i < |PROVIDED| && PROVIDED[i] == name; }
  }

  lemma TwoCallsRun()
    ensures Run(TWO_CALLS, 1).Ok? && Run(TWO_CALLS, 1).value.1.out == "ab"
  {
    hide Eval;
    var decls := TWO_CALLS;
    assert decls[1..] == [decls[1], decls[2]] && decls[1..][1..] == [decls[2]] && [decls[2]][1..] == [];
    var fns := FunctionsOf(decls);
    assert FunctionsOf([decls[2]]) == map[];
    assert FunctionsOf([decls[1], decls[2]]) == map["g" := PRINTS_B];
    assert fns == map["g" := PRINTS_B, "f" := PRINTS_A];
    var st: State := Store(map[], map[], "");
    BothEvaluate(st, fns);
    assert ExecTop([], Store(map[], map["x" := Num(2)], "ab"), fns, 1).Ok?;
    assert Exec(decls[2].stmt, st, fns, 1) == Ok(Next(Store(map[], map["x" := Num(2)], "ab")));
    assert ExecTop([decls[2]], st, fns, 1).Ok? && ExecTop([decls[2]], st, fns, 1).value.st.out == "ab";
    assert ExecTop(decls[1..], st, fns, 1) == ExecTop([decls[2]], st, fns, 1);
  }

  lemma PrinterRuns(name: string, st: State, fns: Functions)
    requires name in fns && Printer(fns[name])
    ensures Eval(Call(name, []), st, fns, 1) == Ok((1, st.(out := st.out + fns[name].body[0].text)))
  {
    var fn := fns[name];
    var callee := Store(st.globals, map[], st.out);
    assert fn.body[1..] == [fn.body[1]];
    assert Eval(IntLiteral(1), callee.(out := st.out + fn.body[0].text), fns, 0).Ok?;
    assert Exec(fn.body[1], callee.(out := st.out + fn.body[0].text), fns, 0)
        == Ok(Returned(1, callee.(out := st.out + fn.body[0].text)));
    assert ExecBlock(fn.body[1..], callee.(out := st.out + fn.body[0].text), fns, 0).value
        == Returned(1, callee.(out := st.out + fn.body[0].text));
    assert ExecBlock(fn.body, callee, fns, 0) == Ok(Returned(1, callee.(out := st.out + fn.body[0].text)));
    assert EvalArgs([], st, fns, 1) == Ok(([], st));
  }

  lemma BothEvaluate(st: State, fns: Functions)
    requires fns == map["g" := PRINTS_B, "f" := PRINTS_A] && st.out == ""
    ensures Eval(BOTH, st, fns, 1) == Ok((2, st.(out := "ab")))
  {
    PrinterRuns("f", st, fns);
    PrinterRuns("g", st.(out := "a"), fns);
    assert "" + "a" == "a" && "a" + "b" == "ab";
  }

  lemma TwoCallsSwapped()
    ensures CRun(Generated(TWO_CALLS), RIGHT_FIRST, 1).Ok? && CRun(Generated(TWO_CALLS), RIGHT_FIRST, 1).value.1.out == "ba"
  {
    hide CEval;
    var p, stmt := Generated(TWO_CALLS), TWO_CALLS[2].stmt;
    GeneratedTwoCalls();
    var fns := CFunctionsOf(p.functions);
    var st: CState := Store(map[], map[], "");
    var st1: CState := Store(map[], map["x" := CTarget.CNum(2)], "ba");
    CBothEvaluate(st, fns);
    assert CExec(GenStmt(stmt), st, fns, RIGHT_FIRST, 1) == Ok(Next(st1));
    CReturnsZero(st1, fns);
    assert p.main[1..] == [CReturn(CInt(0))];
    assert CExecBlock(p.main, st, fns, RIGHT_FIRST, 1) == Ok(Returned(0, st1));
  }

  lemma GeneratedTwoCalls()
    ensures var p := Generated(TWO_CALLS);
            && p.globals == [] && p.main == [GenStmt(TWO_CALLS[2].stmt), CReturn(CInt(0))]
            && CFunctionsOf(p.functions) == map["g" := GenFunction(PRINTS_B), "f" := GenFunction(PRINTS_A)]
  {
    hide GlobalsOf;
    hide GenFunctions;
    hide MainItems;
    hide CFunctionsOf;
    hide GenFunction;
    hide GenStmt;
    var one, two := [TWO_CALLS[2]] + [], [TWO_CALLS[1]] + ([TWO_CALLS[2]] + []);
    assert TWO_CALLS == [TWO_CALLS[0]] + two;
    NothingGenerated();
    FirstGenerated(TWO_CALLS[2], []);
    FirstGenerated(TWO_CALLS[1], one);
    FirstGenerated(TWO_CALLS[0], two);
    var f, g, s := GenFunction(PRINTS_A), GenFunction(PRINTS_B), TWO_CALLS[2].stmt;
    GeneratedNames();
    FirstDefined(g, []);
    FirstDefined(f, [g] + []);
    assert MainItems(TWO_CALLS) == [s] && ![s][0].Return?;
    OneItem(s);
  }

  lemma NothingGenerated()
    ensures GlobalsOf([]) == [] && GenFunctions([]) == [] && MainItems([]) == [] && CFunctionsOf([]) == map[]
  {
  }

  lemma FirstGenerated(d: Decl, rest: seq<Decl>)
    requires d.FunctionDecl? || d.stmt.VarDecl?
    ensures GlobalsOf([d] + rest) == GlobalsOf(rest)
    ensures GenFunctions([d] + rest) == if d.FunctionDecl? then [GenFunction(d.fn)] + GenFunctions(rest) else GenFunctions(rest)
    ensures MainItems([d] + rest) == if d.FunctionDecl? then MainItems(rest) else [d.stmt] + MainItems(rest)
  {
    hide GenFunction;
    assert ([d] + rest)[1..] == rest;
  }

  lemma GeneratedNames()
    ensures GenFunction(PRINTS_A).name == "f" && GenFunction(PRINTS_B).name == "g"
  {
    hide GenBody;
  }

  lemma FirstDefined(f: CFunction, rest: seq<CFunction>)
    ensures CFunctionsOf([f] + rest) == CFunctionsOf(rest)[f.name := f]
  {
    assert ([f] + rest)[1..] == rest;
  }

  lemma OneItem(s: Stmt)
    requires !s.Return?
    ensures GenBody([s]) == [GenStmt(s), CReturn(CInt(0))]
  {
    hide GenStmt;
    assert [s][1..] == [] && GenItems([]) == [];
    assert GenItems([s]) == [GenStmt(s)] + GenItems([]);
  }

  lemma CReturnsZero(st: CState, fns: CFunctions)
    ensures CExecBlock([CReturn(CInt(0))], st, fns, RIGHT_FIRST, 1) == Ok(Returned(0, st))
  {
    assert CEval(CInt(0), st, fns, RIGHT_FIRST, 1) == Ok((0, st));
    assert CExec(CReturn(CInt(0)), st, fns, RIGHT_FIRST, 1) == Ok(Returned(0, st));
  }

  lemma CPrinterRuns(fn: Function, st: CState, fns: CFunctions)
    requires Printer(fn) && '\0' !in fn.body[0].text && fn.name in fns && fns[fn.name] == GenFunction(fn)
    requires st.Lookup(fn.name).None?
    ensures CEval(CCall(fn.name, []), st, fns, RIGHT_FIRST, 1) == Ok((1, st.(out := st.out + fn.body[0].text)))
  {
    var text := fn.body[0].text;
    var callee, printed := Store(st.globals, map[], st.out), Store(st.globals, map[], st.out + text);
    UnescapeEscape(text);
    BeforeNulOfPlainText(text);
    var items := [CPrint(Escape(text)), CReturn(CInt(1))];
    assert fn.body[1..] == [fn.body[1]] && fn.body[1..][1..] == [];
    assert GenStmt(fn.body[1]) == CReturn(CInt(1));
    assert GenItems(fn.body[1..]) == [CReturn(CInt(1))];
    assert GenItems(fn.body) == items;
    assert GenBody(fn.body) == items;
    assert CEval(CInt(1), printed, fns, RIGHT_FIRST, 0) == Ok((1, printed));
    assert CExec(items[1], printed, fns, RIGHT_FIRST, 0) == Ok(Returned(1, printed));
    assert items[1..] == [items[1]];
    assert CExecBlock(items[1..], printed, fns, RIGHT_FIRST, 0) == Ok(Returned(1, printed));
    assert CExec(items[0], callee, fns, RIGHT_FIRST, 0) == Ok(Next(printed));
    assert CExecBlock(items, callee, fns, RIGHT_FIRST, 0) == Ok(Returned(1, printed));
    assert CEvalArgs([], st, fns, RIGHT_FIRST, 1) == Ok(([], st));
  }

  lemma CBothEvaluate(st: CState, fns: CFunctions)
    requires fns == map["g" := GenFunction(PRINTS_B), "f" := GenFunction(PRINTS_A)] && st == Store(map[], map[], "")
    ensures CEval(GenExpr(BOTH), st, fns, RIGHT_FIRST, 1) == Ok((2, st.(out := "ba")))
  {
    hide GenFunction;
    CPrinterRuns(PRINTS_B, st, fns);
    CPrinterRuns(PRINTS_A, st.(out := "b"), fns);
    assert "" + "b" == "b" && "b" + "a" == "ba";
    assert GenArgs([]) == [];
    var f, g := CCall("f", []), CCall("g", []);
    assert GenExpr(BOTH) == CBinary(BinaryOp.ADD, f, g);
    assert CEvalOperands(GenExpr(BOTH), st, fns, RIGHT_FIRST, 1) == Ok(((1, 1), st.(out := "ba")));
  }
}
