/** The concrete syntax of TensorC, and the theorem that the parser reads it back: for every program, written with the
    parentheses its expressions need and any redundant ones, parsing its tokens returns exactly that program. */
module Writing {
  import opened Options
  import opened TensorAst
  import opened Tokens
  import opened Grammar
  import opened Syntax
  import Parser

  // ----- tensor literals -----

  /** A zero may have a sign. */
  function WriteNumber(n: int, style: Style): (r: seq<Token>)
    ensures r != [] && (r[0].kind == NUMBER || r[0].kind == T_MINUS)
  {
    if n < 0 || (n == 0 && style.extra > 0) then [Mark(T_MINUS), Token(NUMBER, Decimal(-n))] else [Token(NUMBER, Decimal(n))]
  }

  function WriteNumbers(row: seq<int>, style: Style): (r: seq<Token>)
    requires row != []
    decreases |row|, 1
  {
    WriteNumber(row[0], style.Part(0)) + WriteMoreNumbers(row[1..], style.Part(1))
  }

  function WriteMoreNumbers(row: seq<int>, style: Style): (r: seq<Token>)
    decreases |row|, 2
  {
    if row == [] then [] else [Mark(T_COMMA)] + WriteNumbers(row, style)
  }

  function WriteRow(row: seq<int>, style: Style): (r: seq<Token>)
    requires row != []
  {
    [Mark(T_LBRACKET)] + (WriteNumbers(row, style) + [Mark(T_RBRACKET)])
  }

  predicate FullRows(rows: seq<seq<int>>)
  {
    forall i :: 0 <= i < |rows| ==> rows[i] != []
  }

  function WriteRows(rows: seq<seq<int>>, style: Style): (r: seq<Token>)
    requires rows != [] && FullRows(rows)
    decreases |rows|, 1
  {
    WriteRow(rows[0], style.Part(0)) + WriteMoreRows(rows[1..], style.Part(1))
  }

  function WriteMoreRows(rows: seq<seq<int>>, style: Style): (r: seq<Token>)
    requires FullRows(rows)
    decreases |rows|, 2
  {
    if rows == [] then [] else [Mark(T_COMMA)] + WriteRows(rows, style)
  }

  function WriteMatrix(rows: seq<seq<int>>, style: Style): (r: seq<Token>)
    requires rows != [] && FullRows(rows)
  {
    [Mark(T_LBRACKET)] + (WriteRows(rows, style) + [Mark(T_RBRACKET)])
  }

  // ----- statements -----

  /** Statements as the parser builds them: literals have rows and columns, a shape is given whole, nothing is annotated,
      and the parts of a `for` are of the kinds its head allows. */
  predicate Writable(s: Stmt)
    decreases s, 1
  {
    match s
    case TensorDecl(_, rows, cols, init) =>
      (rows.Some? <==> cols.Some?) && (init.Some? ==> init.value != [] && FullRows(init.value))
    case VarDecl(_, value) => Printable(value)
    case Assign(target, value) => Printable(target) && Printable(value)
    case Gemm(_, _, _, m, n, k) => m == n == k == 0
    case Print(_) => true
    case If(cond, thn, els) => Printable(cond) && AllWritable(thn) && (els.ElseBlock? ==> AllWritable(els.items))
    case While(cond, body) => Printable(cond) && AllWritable(body)
    case For(start, test, step, body) => WritableHead(Head(start, test, step)) && AllWritable(body)
    case Return(value) => Printable(value)
    case ExprStmt(expr) => Printable(expr)
  }

  predicate AllWritable(items: seq<Stmt>)
    decreases items, 0
  {
    items == [] || (Writable(items[0]) && AllWritable(items[1..]))
  }

  /** An assignment or an expression, as the parts of a `for` are. */
  predicate Plain(s: Stmt)
  {
    match s
    case Assign(target, value) => Printable(target) && Printable(value)
    case ExprStmt(expr) => Printable(expr)
    case _ => false
  }

  predicate Declares(s: Stmt)
  {
    s.VarDecl? && Printable(s.value)
  }

  predicate WritableHead(head: Head)
  {
    && (head.start.Some? ==> Plain(head.start.value) || Declares(head.start.value))
    && (head.test.Some? ==> Printable(head.test.value)) && (head.step.Some? ==> Plain(head.step.value))
  }

  /** A token with which a statement begins. */
  predicate Begins(kind: Kind)
  {
    Starts(kind)
    || kind in {KW_TENSOR, KW_INT32, KW_GEMM, KW_PRINT, KW_IF, KW_WHILE, KW_FOR, KW_RETURN}
  }

  /** An initial zero may be left out. */
  function WriteVar(s: Stmt, style: Style): (r: seq<Token>)
    requires Declares(s)
    ensures r != [] && r[0].kind == KW_INT32
  {
    if s.value == IntLiteral(0) && style.extra > 0 then [Mark(KW_INT32), Token(IDENT, s.name)]
    else [Mark(KW_INT32), Token(IDENT, s.name), Mark(T_EQUAL)] + Grammar.Print(s.value, 0, style.Part(0))
  }

  function WritePlain(s: Stmt, style: Style): (r: seq<Token>)
    requires Plain(s)
    ensures r != [] && Starts(r[0].kind)
  {
    match s
    case Assign(target, value) =>
      Grammar.Print(target, 0, style.Part(0)) + ([Mark(T_EQUAL)] + Grammar.Print(value, 0, style.Part(1)))
    case ExprStmt(expr) => Grammar.Print(expr, 0, style)
  }

  function WriteShape(rows: Option<int>, cols: Option<int>, style: Style): (r: seq<Token>)
    requires rows.Some? <==> cols.Some?
  {
    if rows.None? then []
    else [Mark(T_COMMA)] + (WriteNumber(rows.value, style.Part(0)) + ([Mark(T_COMMA)] + WriteNumber(cols.value, style.Part(1))))
  }

  function WriteInit(init: Option<seq<seq<int>>>, style: Style): (r: seq<Token>)
    requires init.Some? ==> init.value != [] && FullRows(init.value)
  {
    if init.None? then [] else [Mark(T_EQUAL)] + WriteMatrix(init.value, style)
  }

  function WriteTensor(s: Stmt, style: Style): (r: seq<Token>)
    requires s.TensorDecl? && Writable(s)
  {
    [Mark(KW_TENSOR), Mark(T_LT), Mark(KW_INT32)]
    + (WriteShape(s.rows, s.cols, style.Part(0))
       + ([Mark(T_GT), Token(IDENT, s.name)] + (WriteInit(s.init, style.Part(1)) + [Mark(T_SEMI)])))
  }

  function WriteStart(start: Option<Stmt>, style: Style): (r: seq<Token>)
    requires start.Some? ==> Plain(start.value) || Declares(start.value)
  {
    if start.None? then [] else if start.value.VarDecl? then WriteVar(start.value, style) else WritePlain(start.value, style)
  }

  function WriteTest(test: Option<Expr>, style: Style): (r: seq<Token>)
    requires test.Some? ==> Printable(test.value)
  {
    if test.None? then [] else Grammar.Print(test.value, 0, style)
  }

  function WriteStep(step: Option<Stmt>, style: Style): (r: seq<Token>)
    requires step.Some? ==> Plain(step.value)
  {
    if step.None? then [] else WritePlain(step.value, style)
  }

  function WriteHead(head: Head, style: Style): (r: seq<Token>)
    requires WritableHead(head)
  {
    [Mark(T_LPAREN)] + (WriteStart(head.start, style.Part(0)) + ([Mark(T_SEMI)] + (WriteTest(head.test, style.Part(1))
    + ([Mark(T_SEMI)] + (WriteStep(head.step, style.Part(2)) + [Mark(T_RPAREN)])))))
  }

  function WriteCondition(cond: Expr, style: Style): (r: seq<Token>)
    requires Printable(cond)
  {
    [Mark(T_LPAREN)] + (Grammar.Print(cond, 0, style) + [Mark(T_RPAREN)])
  }

  function WriteGemm(s: Stmt): (r: seq<Token>)
    requires s.Gemm?
  {
    [Mark(KW_GEMM), Mark(T_LPAREN), Token(IDENT, s.a), Mark(T_COMMA), Token(IDENT, s.b), Mark(T_COMMA), Token(IDENT, s.c),
     Mark(T_RPAREN), Mark(T_SEMI)]
  }

  function WritePrint(s: Stmt): (r: seq<Token>)
    requires s.Print?
  {
    [Mark(KW_PRINT), Mark(T_LPAREN), Token(STRING, s.text), Mark(T_RPAREN), Mark(T_SEMI)]
  }

  function WriteStmt(s: Stmt, style: Style): (r: seq<Token>)
    requires Writable(s)
    ensures r != [] && Begins(r[0].kind)
    decreases s, 1
  {
    match s
    case TensorDecl(_, _, _, _) => WriteTensor(s, style)
    case VarDecl(_, _) => WriteVar(s, style) + [Mark(T_SEMI)]
    case Assign(_, _) => WritePlain(s, style) + [Mark(T_SEMI)]
    case Gemm(_, _, _, _, _, _) => WriteGemm(s)
    case Print(_) => WritePrint(s)
    case If(cond, thn, els) =>
      [Mark(KW_IF)] + (WriteCondition(cond, style.Part(0)) + (WriteBlock(thn, style.Part(1)) + WriteElse(els, style.Part(2))))
    case While(cond, body) => [Mark(KW_WHILE)] + (WriteCondition(cond, style.Part(0)) + WriteBlock(body, style.Part(1)))
    case For(start, test, step, body) =>
      [Mark(KW_FOR)] + (WriteHead(Head(start, test, step), style.Part(0)) + WriteBlock(body, style.Part(1)))
    case Return(value) => [Mark(KW_RETURN)] + (Grammar.Print(value, 0, style) + [Mark(T_SEMI)])
    case ExprStmt(_) => WritePlain(s, style) + [Mark(T_SEMI)]
  }

  function WriteElse(els: Else, style: Style): (r: seq<Token>)
    requires els.ElseBlock? ==> AllWritable(els.items)
    decreases els, 3
  {
    if els.NoElse? then [] else [Mark(KW_ELSE)] + WriteBlock(els.items, style)
  }

  function WriteBlock(items: seq<Stmt>, style: Style): (r: seq<Token>)
    requires AllWritable(items)
    decreases items, 2
  {
    [Mark(T_LBRACE)] + (WriteItems(items, style) + [Mark(T_RBRACE)])
  }

  function WriteItems(items: seq<Stmt>, style: Style): (r: seq<Token>)
    requires AllWritable(items)
    decreases items, 0
  {
    if items == [] then [] else WriteStmt(items[0], style.Part(0)) + WriteItems(items[1..], style.Part(1))
  }

  // ----- programs -----

  function WriteParam(p: string): (r: seq<Token>)
  {
    [Mark(KW_INT32), Token(IDENT, p)]
  }

  function WriteParams(params: seq<string>): (r: seq<Token>)
    requires params != []
    decreases |params|, 1
  {
    WriteParam(params[0]) + WriteMoreParams(params[1..])
  }

  function WriteMoreParams(params: seq<string>): (r: seq<Token>)
    decreases |params|, 2
  {
    if params == [] then [] else [Mark(T_COMMA)] + WriteParams(params)
  }

  function WriteParamList(params: seq<string>): (r: seq<Token>)
  {
    if params == [] then [] else WriteParams(params)
  }

  function WriteFunction(fn: Function, style: Style): (r: seq<Token>)
    requires AllWritable(fn.body)
  {
    [Mark(KW_FN), Token(IDENT, fn.name), Mark(T_LPAREN)]
    + (WriteParamList(fn.params) + ([Mark(T_RPAREN), Mark(T_ARROW), Mark(KW_INT32)] + WriteBlock(fn.body, style)))
  }

  predicate WritableDecl(d: Decl)
  {
    match d case FunctionDecl(fn) => AllWritable(fn.body) case Statement(stmt) => Writable(stmt)
  }

  function WriteDecl(d: Decl, style: Style): (r: seq<Token>)
    requires WritableDecl(d)
    ensures r != [] && (r[0].kind == KW_FN || Begins(r[0].kind))
  {
    match d case FunctionDecl(fn) => WriteFunction(fn, style) case Statement(stmt) => WriteStmt(stmt, style)
  }

  predicate WritableProgram(decls: seq<Decl>)
  {
    decls == [] || (WritableDecl(decls[0]) && WritableProgram(decls[1..]))
  }

  function WriteProgram(decls: seq<Decl>, style: Style): (r: seq<Token>)
    requires WritableProgram(decls)
  {
    if decls == [] then [] else WriteDecl(decls[0], style.Part(0)) + WriteProgram(decls[1..], style.Part(1))
  }

  // ----- reading back: literals -----

  lemma NumberReadsBack(n: int, toks: seq<Token>, pos: nat, style: Style)
    requires Stands(WriteNumber(n, style), toks, pos)
    ensures ParseNumber(toks, pos) == Some((n, pos + |WriteNumber(n, style)|))
  {
    hide Stands;
    DecimalReadBack(if n < 0 then -n else n);
    if |WriteNumber(n, style)| > 1 {
      TokenAt(WriteNumber(n, style), toks, pos, 0);
      NumberAt(WriteNumber(n, style), toks, pos, 1);
    } else {
      NumberAt(WriteNumber(n, style), toks, pos, 0);
    }
  }

  lemma {:induction false} NumbersReadBack(row: seq<int>, toks: seq<Token>, pos: nat, style: Style)
    requires row != [] && Stands(WriteNumbers(row, style), toks, pos)
             && KindAt(toks, pos + |WriteNumbers(row, style)|) != T_COMMA
    ensures ParseNumbers(toks, pos) == Some((row, pos + |WriteNumbers(row, style)|))
    decreases |row|
  {
    hide Stands;
    hide WriteNumber;
    hide ParseNumber;
    var first, more := WriteNumber(row[0], style.Part(0)), WriteMoreNumbers(row[1..], style.Part(1));
    TwoParts(first, more, toks, pos);
    NumberReadsBack(row[0], toks, pos, style.Part(0));
    var next := pos + |first|;
    assert row == [row[0]] + row[1..];
    if row[1..] != [] {
      TwoParts([Mark(T_COMMA)], WriteNumbers(row[1..], style.Part(1)), toks, next);
      TokenAt([Mark(T_COMMA)], toks, next, 0);
      NumbersReadBack(row[1..], toks, next + 1, style.Part(1));
    }
  }

  lemma RowReadsBack(row: seq<int>, toks: seq<Token>, pos: nat, style: Style)
    requires row != [] && Stands(WriteRow(row, style), toks, pos)
    ensures ParseRow(toks, pos) == Some((row, pos + |WriteRow(row, style)|))
  {
    hide Stands;
    hide WriteNumbers;
    hide ParseNumbers;
    var open, inner, close := [Mark(T_LBRACKET)], WriteNumbers(row, style), [Mark(T_RBRACKET)];
    ThreeParts(open, inner, close, toks, pos);
    TokenAt(open, toks, pos, 0);
    TokenAt(close, toks, pos + 1 + |inner|, 0);
    NumbersReadBack(row, toks, pos + 1, style);
  }

  lemma {:induction false} RowsReadBack(rows: seq<seq<int>>, toks: seq<Token>, pos: nat, style: Style)
    requires rows != [] && FullRows(rows) && Stands(WriteRows(rows, style), toks, pos)
    requires KindAt(toks, pos + |WriteRows(rows, style)|) != T_COMMA
    ensures ParseRows(toks, pos) == Some((rows, pos + |WriteRows(rows, style)|))
    decreases |rows|
  {
    hide Stands;
    hide WriteRow;
    hide ParseRow;
    var first, more := WriteRow(rows[0], style.Part(0)), WriteMoreRows(rows[1..], style.Part(1));
    TwoParts(first, more, toks, pos);
    RowReadsBack(rows[0], toks, pos, style.Part(0));
    var next := pos + |first|;
    assert rows == [rows[0]] + rows[1..];
    if rows[1..] != [] {
      TwoParts([Mark(T_COMMA)], WriteRows(rows[1..], style.Part(1)), toks, next);
      TokenAt([Mark(T_COMMA)], toks, next, 0);
      RowsReadBack(rows[1..], toks, next + 1, style.Part(1));
    }
  }

  lemma MatrixReadsBack(rows: seq<seq<int>>, toks: seq<Token>, pos: nat, style: Style)
    requires rows != [] && FullRows(rows) && Stands(WriteMatrix(rows, style), toks, pos)
    ensures ParseMatrix(toks, pos) == Some((rows, pos + |WriteMatrix(rows, style)|))
  {
    hide Stands;
    hide WriteRows;
    hide ParseRows;
    var open, inner, close := [Mark(T_LBRACKET)], WriteRows(rows, style), [Mark(T_RBRACKET)];
    ThreeParts(open, inner, close, toks, pos);
    TokenAt(open, toks, pos, 0);
    TokenAt(close, toks, pos + 1 + |inner|, 0);
    RowsReadBack(rows, toks, pos + 1, style);
  }

  // ----- reading back: simple statements -----

  /** The tokens that close a simple statement. */
  predicate Closes(kind: Kind)
  {
    kind == T_SEMI || kind == T_RPAREN
  }

  lemma ClosesStops(kind: Kind)
    requires Closes(kind)
    ensures Quiet(kind, 0) && kind != T_EQUAL
  {
    ClosersAreQuiet();
  }

  lemma PlainReadsBack(s: Stmt, toks: seq<Token>, pos: nat, style: Style)
    requires Plain(s) && Stands(WritePlain(s, style), toks, pos) && Closes(KindAt(toks, pos + |WritePlain(s, style)|))
    ensures ParseAssignOrExpr(toks, pos) == Some((s, pos + |WritePlain(s, style)|)) && Starts(KindAt(toks, pos))
  {
    hide Stands;
    hide ParseLevel;
    hide Grammar.Print;
    hide Printable;
    ClosesStops(KindAt(toks, pos + |WritePlain(s, style)|));
    hide Closes;
    hide Quiet;
    match s
    case Assign(_, _) => AssignReadsBack(s, toks, pos, style);
    case ExprStmt(expr) => ReadsBack(expr, toks, pos, 0, style);
  }

  lemma AssignReadsBack(s: Stmt, toks: seq<Token>, pos: nat, style: Style)
    requires s.Assign? && Plain(s) && Stands(WritePlain(s, style), toks, pos)
    requires Quiet(KindAt(toks, pos + |WritePlain(s, style)|), 0)
    ensures ParseAssignOrExpr(toks, pos) == Some((s, pos + |WritePlain(s, style)|)) && Starts(KindAt(toks, pos))
  {
    hide Stands;
    hide KindAt;
    hide ParseLevel;
    hide Grammar.Print;
    hide Printable;
    ClosersAreQuiet();
    hide Quiet;
    hide Starts;
    var left, sign := Grammar.Print(s.target, 0, style.Part(0)), [Mark(T_EQUAL)];
    var right := Grammar.Print(s.value, 0, style.Part(1));
    ThreeParts(left, sign, right, toks, pos);
    TokenAt(sign, toks, pos + |left|, 0);
    ReadsBack(s.target, toks, pos, 0, style.Part(0));
    ReadsBack(s.value, toks, pos + |left| + 1, 0, style.Part(1));
  }

  lemma VarReadsBack(s: Stmt, toks: seq<Token>, pos: nat, style: Style)
    requires Declares(s) && Stands(WriteVar(s, style), toks, pos) && Closes(KindAt(toks, pos + |WriteVar(s, style)|))
    ensures ParseVar(toks, pos) == Some((s, pos + |WriteVar(s, style)|)) && KindAt(toks, pos) == KW_INT32
  {
    hide Stands;
    hide ParseLevel;
    hide Grammar.Print;
    hide Printable;
    ClosesStops(KindAt(toks, pos + |WriteVar(s, style)|));
    hide Closes;
    hide Quiet;
    if s.value == IntLiteral(0) && style.extra > 0 {
      TokenAt(WriteVar(s, style), toks, pos, 0);
      TokenAt(WriteVar(s, style), toks, pos, 1);
    } else {
      InitialValueReadsBack(s, toks, pos, style);
    }
  }

  lemma InitialValueReadsBack(s: Stmt, toks: seq<Token>, pos: nat, style: Style)
    requires Declares(s) && (s.value == IntLiteral(0) ==> style.extra == 0)
    requires Stands(WriteVar(s, style), toks, pos) && Quiet(KindAt(toks, pos + |WriteVar(s, style)|), 0)
    ensures ParseVar(toks, pos) == Some((s, pos + |WriteVar(s, style)|)) && KindAt(toks, pos) == KW_INT32
  {
    hide Stands;
    hide ParseLevel;
    hide Grammar.Print;
    hide Printable;
    hide Quiet;
    var opening, value := [Mark(KW_INT32), Token(IDENT, s.name), Mark(T_EQUAL)], Grammar.Print(s.value, 0, style.Part(0));
    TwoParts(opening, value, toks, pos);
    TokenAt(opening, toks, pos, 0);
    TokenAt(opening, toks, pos, 1);
    TokenAt(opening, toks, pos, 2);
    ReadsBack(s.value, toks, pos + 3, 0, style.Part(0));
  }

  lemma ShapeReadsBack(rows: Option<int>, cols: Option<int>, toks: seq<Token>, pos: nat, style: Style)
    requires (rows.Some? <==> cols.Some?) && pos <= |toks| && Stands(WriteShape(rows, cols, style), toks, pos)
    requires KindAt(toks, pos + |WriteShape(rows, cols, style)|) == T_GT
    ensures ParseShape(toks, pos) == Some(((rows, cols), pos + |WriteShape(rows, cols, style)|))
  {
    hide Stands;
    hide WriteNumber;
    hide ParseNumber;
    hide KindAt;
    if rows.Some? {
      var first, second := WriteNumber(rows.value, style.Part(0)), WriteNumber(cols.value, style.Part(1));
      ShapeParts(first, second, toks, pos);
      NumberReadsBack(rows.value, toks, pos + 1, style.Part(0));
      NumberReadsBack(cols.value, toks, pos + 2 + |first|, style.Part(1));
    }
  }

  lemma ShapeParts(first: seq<Token>, second: seq<Token>, toks: seq<Token>, pos: nat)
    requires Stands([Mark(T_COMMA)] + (first + ([Mark(T_COMMA)] + second)), toks, pos)
    ensures KindAt(toks, pos) == T_COMMA && Stands(first, toks, pos + 1) && KindAt(toks, pos + 1 + |first|) == T_COMMA
    ensures Stands(second, toks, pos + 2 + |first|)
  {
    hide Stands;
    hide KindAt;
    var comma := [Mark(T_COMMA)];
    ThreeParts(comma, first, comma + second, toks, pos);
    TwoParts(comma, second, toks, pos + 1 + |first|);
    TokenAt(comma, toks, pos, 0);
    TokenAt(comma, toks, pos + 1 + |first|, 0);
  }

  lemma InitReadsBack(init: Option<seq<seq<int>>>, toks: seq<Token>, pos: nat, style: Style)
    requires (init.Some? ==> init.value != [] && FullRows(init.value)) && pos <= |toks|
             && Stands(WriteInit(init, style), toks, pos)
    requires KindAt(toks, pos + |WriteInit(init, style)|) == T_SEMI
    ensures ParseInit(toks, pos) == Some((init, pos + |WriteInit(init, style)|))
  {
    hide Stands;
    hide WriteMatrix;
    hide ParseMatrix;
    if init.Some? {
      var sign, rows := [Mark(T_EQUAL)], WriteMatrix(init.value, style);
      TwoParts(sign, rows, toks, pos);
      TokenAt(sign, toks, pos, 0);
      MatrixReadsBack(init.value, toks, pos + 1, style);
    }
  }

  lemma TensorParts(name: string, shape: seq<Token>, init: seq<Token>, toks: seq<Token>, pos: nat)
    requires Stands([Mark(KW_TENSOR), Mark(T_LT), Mark(KW_INT32)]
                    + (shape + ([Mark(T_GT), Token(IDENT, name)] + (init + [Mark(T_SEMI)]))), toks, pos)
    ensures var mid := pos + 3 + |shape|;
            && KindsAt(toks, pos, TENSOR_KINDS) && KindAt(toks, pos) == KW_TENSOR && KindAt(toks, pos + 2) == KW_INT32
            && Stands(shape, toks, pos + 3) && KindAt(toks, mid) == T_GT
            && mid + 1 < |toks| && KindAt(toks, mid + 1) == IDENT && toks[mid + 1].value == name
            && Stands(init, toks, mid + 2) && KindAt(toks, mid + 2 + |init|) == T_SEMI
  {
    hide Stands;
    hide KindAt;
    var opening, close := [Mark(KW_TENSOR), Mark(T_LT), Mark(KW_INT32)], [Mark(T_GT), Token(IDENT, name)];
    var semi := [Mark(T_SEMI)];
    FiveParts(opening, shape, close, init, semi, toks, pos);
    var mid := pos + 3 + |shape|;
    KindsStand(opening, TENSOR_KINDS, toks, pos);
    TokenAt(opening, toks, pos, 0);
    TokenAt(opening, toks, pos, 2);
    TokenAt(close, toks, mid, 0);
    TokenAt(close, toks, mid, 1);
    TokenAt(semi, toks, mid + 2 + |init|, 0);
  }

  lemma TensorReadsBack(s: Stmt, toks: seq<Token>, pos: nat, style: Style)
    requires s.TensorDecl? && Writable(s) && Stands(WriteTensor(s, style), toks, pos)
    ensures ParseTensor(toks, pos) == Some((s, pos + |WriteTensor(s, style)|)) && KindAt(toks, pos) == KW_TENSOR
  {
    hide Stands;
    hide KindAt;
    hide KindsAt;
    hide FullRows;
    hide WriteShape;
    hide WriteInit;
    hide ParseShape;
    hide ParseInit;
    var shape, init := WriteShape(s.rows, s.cols, style.Part(0)), WriteInit(s.init, style.Part(1));
    TensorParts(s.name, shape, init, toks, pos);
    StandsInside(WriteTensor(s, style), toks, pos);
    ShapeReadsBack(s.rows, s.cols, toks, pos + 3, style.Part(0));
    InitReadsBack(s.init, toks, pos + 5 + |shape|, style.Part(1));
  }

  lemma KindsStand(part: seq<Token>, kinds: seq<Kind>, toks: seq<Token>, pos: nat)
    requires Stands(part, toks, pos) && |part| == |kinds| && forall i :: 0 <= i < |kinds| ==> part[i].kind == kinds[i]
    ensures KindsAt(toks, pos, kinds)
  {
    hide Stands;
    forall i | 0 <= i < |kinds| ensures KindAt(toks, pos + i) == kinds[i] { TokenAt(part, toks, pos, i); }
  }

  lemma GemmReadsBack(s: Stmt, toks: seq<Token>, pos: nat)
    requires s.Gemm? && Writable(s) && Stands(WriteGemm(s), toks, pos)
    ensures ParseGemm(toks, pos) == Some((s, pos + |WriteGemm(s)|)) && KindAt(toks, pos) == KW_GEMM
  {
    hide Stands;
    var part := WriteGemm(s);
    KindsStand(part, GEMM_KINDS, toks, pos);
    hide KindsAt;
    TokenAt(part, toks, pos, 0);
    TokenAt(part, toks, pos, 2);
    TokenAt(part, toks, pos, 4);
    TokenAt(part, toks, pos, 6);
  }

  lemma PrintReadsBack(s: Stmt, toks: seq<Token>, pos: nat)
    requires s.Print? && Stands(WritePrint(s), toks, pos)
    ensures ParsePrint(toks, pos) == Some((s, pos + |WritePrint(s)|)) && KindAt(toks, pos) == KW_PRINT
  {
    hide Stands;
    var part := WritePrint(s);
    KindsStand(part, PRINT_KINDS, toks, pos);
    hide KindsAt;
    TokenAt(part, toks, pos, 0);
    TokenAt(part, toks, pos, 2);
  }

  lemma ReturnReadsBack(s: Stmt, toks: seq<Token>, pos: nat, style: Style)
    requires s.Return? && Writable(s) && Stands(WriteStmt(s, style), toks, pos)
    ensures ParseReturn(toks, pos) == Some((s, pos + |WriteStmt(s, style)|)) && KindAt(toks, pos) == KW_RETURN
  {
    hide Stands;
    hide ParseLevel;
    hide Grammar.Print;
    hide Printable;
    ClosersAreQuiet();
    hide Quiet;
    var kw, value, semi := [Mark(KW_RETURN)], Grammar.Print(s.value, 0, style), [Mark(T_SEMI)];
    ThreeParts(kw, value, semi, toks, pos);
    TokenAt(kw, toks, pos, 0);
    TokenAt(semi, toks, pos + 1 + |value|, 0);
    ReadsBack(s.value, toks, pos + 1, 0, style);
  }

  lemma ConditionReadsBack(cond: Expr, toks: seq<Token>, pos: nat, style: Style)
    requires Printable(cond) && Stands(WriteCondition(cond, style), toks, pos)
    ensures ParseCondition(toks, pos) == Some((cond, pos + |WriteCondition(cond, style)|))
  {
    hide Stands;
    hide KindAt;
    hide ParseLevel;
    hide Grammar.Print;
    hide Printable;
    hide Starts;
    ClosersAreQuiet();
    hide Quiet;
    EnclosedParts(Grammar.Print(cond, 0, style), toks, pos);
    ReadsBack(cond, toks, pos + 1, 0, style);
  }

  lemma StartReadsBack(start: Option<Stmt>, toks: seq<Token>, pos: nat, style: Style)
    requires (start.Some? ==> Plain(start.value) || Declares(start.value)) && pos <= |toks|
    requires Stands(WriteStart(start, style), toks, pos) && KindAt(toks, pos + |WriteStart(start, style)|) == T_SEMI
    ensures ParseStart(toks, pos) == Some((start, pos + |WriteStart(start, style)|))
  {
    hide Stands;
    hide WriteVar;
    hide WritePlain;
    hide ParseVar;
    hide ParseAssignOrExpr;
    if start.Some? {
      if start.value.VarDecl? { VarReadsBack(start.value, toks, pos, style); } else { PlainReadsBack(start.value, toks, pos, style); }
    }
  }

  lemma TestReadsBack(test: Option<Expr>, toks: seq<Token>, pos: nat, style: Style)
    requires (test.Some? ==> Printable(test.value)) && pos <= |toks|
    requires Stands(WriteTest(test, style), toks, pos) && KindAt(toks, pos + |WriteTest(test, style)|) == T_SEMI
    ensures ParseTest(toks, pos) == Some((test, pos + |WriteTest(test, style)|))
  {
    hide Stands;
    hide ParseLevel;
    hide Grammar.Print;
    ClosersAreQuiet();
    if test.Some? { ReadsBack(test.value, toks, pos, 0, style); }
  }

  lemma StepReadsBack(step: Option<Stmt>, toks: seq<Token>, pos: nat, style: Style)
    requires (step.Some? ==> Plain(step.value)) && pos <= |toks|
    requires Stands(WriteStep(step, style), toks, pos) && KindAt(toks, pos + |WriteStep(step, style)|) == T_RPAREN
    ensures ParseStep(toks, pos) == Some((step, pos + |WriteStep(step, style)|))
  {
    hide Stands;
    hide WritePlain;
    hide ParseAssignOrExpr;
    if step.Some? {
      PlainReadsBack(step.value, toks, pos, style);
      ClosingNeverStarts();
    }
  }

  lemma HeadParts(start: seq<Token>, test: seq<Token>, step: seq<Token>, toks: seq<Token>, pos: nat)
    requires Stands([Mark(T_LPAREN)] + (start + ([Mark(T_SEMI)] + (test + ([Mark(T_SEMI)] + (step + [Mark(T_RPAREN)]))))),
                    toks, pos)
    ensures var first := pos + 1 + |start|;
            var second := first + 1 + |test|;
            && KindAt(toks, pos) == T_LPAREN && Stands(start, toks, pos + 1)
            && KindAt(toks, first) == T_SEMI && Stands(test, toks, first + 1)
            && KindAt(toks, second) == T_SEMI && Stands(step, toks, second + 1)
            && KindAt(toks, second + 1 + |step|) == T_RPAREN
  {
    hide Stands;
    hide KindAt;
    var open, semi, close := [Mark(T_LPAREN)], [Mark(T_SEMI)], [Mark(T_RPAREN)];
    FiveParts(open, start, semi, test, semi + (step + close), toks, pos);
    var first := pos + 1 + |start|;
    var second := first + 1 + |test|;
    ThreeParts(semi, step, close, toks, second);
    TokenAt(open, toks, pos, 0);
    TokenAt(semi, toks, first, 0);
    TokenAt(semi, toks, second, 0);
    TokenAt(close, toks, second + 1 + |step|, 0);
  }

  lemma HeadReadsBack(head: Head, toks: seq<Token>, pos: nat, style: Style)
    requires WritableHead(head) && Stands(WriteHead(head, style), toks, pos)
    ensures ParseHead(toks, pos) == Some((head, pos + |WriteHead(head, style)|))
  {
    hide Stands;
    hide KindAt;
    hide Plain;
    hide Declares;
    hide Printable;
    hide Starts;
    hide WriteStart;
    hide WriteTest;
    hide WriteStep;
    hide ParseStart;
    hide ParseTest;
    hide ParseStep;
    var start, test := WriteStart(head.start, style.Part(0)), WriteTest(head.test, style.Part(1));
    var step := WriteStep(head.step, style.Part(2));
    HeadParts(start, test, step, toks, pos);
    StandsInside(WriteHead(head, style), toks, pos);
    var first := pos + 1 + |start|;
    var second := first + 1 + |test|;
    StartReadsBack(head.start, toks, pos + 1, style.Part(0));
    TestReadsBack(head.test, toks, first + 1, style.Part(1));
    StepReadsBack(head.step, toks, second + 1, style.Part(2));
  }

  // ----- reading back: statements -----

  lemma BeginsStatement(kind: Kind)
    requires Begins(kind)
    ensures kind != T_RBRACE && kind != KW_ELSE && kind != KW_FN && kind != EOF
  {
  }

  /** Wherever the tokens of a statement stand, not followed by an `else`, exactly that statement is read. */
  lemma {:induction false} StmtReadsBack(s: Stmt, toks: seq<Token>, pos: nat, style: Style)
    requires Writable(s) && Stands(WriteStmt(s, style), toks, pos) && KindAt(toks, pos + |WriteStmt(s, style)|) != KW_ELSE
    ensures ParseStmt(toks, pos) == Some((s, pos + |WriteStmt(s, style)|))
    ensures Begins(KindAt(toks, pos))
    decreases s, 2
  {
    hide Stands;
    hide WriteTensor;
    hide WriteGemm;
    hide WritePrint;
    hide ParseTensor;
    hide ParseGemm;
    hide ParsePrint;
    hide ParseReturn;
    hide Begins;
    TokenAt(WriteStmt(s, style), toks, pos, 0);
    match s
    case TensorDecl(_, _, _, _) => TensorReadsBack(s, toks, pos, style);
    case VarDecl(_, _) => DeclaredReadsBack(s, toks, pos, style);
    case Assign(_, _) => SimpleReadsBack(s, toks, pos, style);
    case Gemm(_, _, _, _, _, _) => GemmReadsBack(s, toks, pos);
    case Print(_) => PrintReadsBack(s, toks, pos);
    case If(_, _, _) => IfReadsBack(s, toks, pos, style);
    case While(_, _) => WhileReadsBack(s, toks, pos, style);
    case For(_, _, _, _) => ForReadsBack(s, toks, pos, style);
    case Return(_) => ReturnReadsBack(s, toks, pos, style);
    case ExprStmt(_) => SimpleReadsBack(s, toks, pos, style);
  }

  lemma DeclaredReadsBack(s: Stmt, toks: seq<Token>, pos: nat, style: Style)
    requires s.VarDecl? && Writable(s) && Stands(WriteStmt(s, style), toks, pos)
    ensures ParseStmt(toks, pos) == Some((s, pos + |WriteStmt(s, style)|))
  {
    hide Stands;
    hide WriteVar;
    hide ParseVar;
    TwoParts(WriteVar(s, style), [Mark(T_SEMI)], toks, pos);
    TokenAt([Mark(T_SEMI)], toks, pos + |WriteVar(s, style)|, 0);
    VarReadsBack(s, toks, pos, style);
  }

  lemma SimpleReadsBack(s: Stmt, toks: seq<Token>, pos: nat, style: Style)
    requires Plain(s) && Writable(s) && Stands(WriteStmt(s, style), toks, pos)
    ensures ParseStmt(toks, pos) == Some((s, pos + |WriteStmt(s, style)|))
  {
    hide Stands;
    hide WritePlain;
    hide ParseAssignOrExpr;
    assert WriteStmt(s, style) == WritePlain(s, style) + [Mark(T_SEMI)];
    hide WriteStmt;
    TwoParts(WritePlain(s, style), [Mark(T_SEMI)], toks, pos);
    TokenAt([Mark(T_SEMI)], toks, pos + |WritePlain(s, style)|, 0);
    PlainReadsBack(s, toks, pos, style);
  }

  lemma {:induction false} IfReadsBack(s: Stmt, toks: seq<Token>, pos: nat, style: Style)
    requires s.If? && Writable(s) && Stands(WriteStmt(s, style), toks, pos)
             && KindAt(toks, pos + |WriteStmt(s, style)|) != KW_ELSE
    ensures ParseStmt(toks, pos) == Some((s, pos + |WriteStmt(s, style)|))
    decreases s, 1
  {
    hide Stands;
    hide WriteCondition;
    hide WriteBlock;
    hide ParseCondition;
    hide ParseBlock;
    var kw, cond := [Mark(KW_IF)], WriteCondition(s.cond, style.Part(0));
    var thn, els := WriteBlock(s.thn, style.Part(1)), WriteElse(s.els, style.Part(2));
    ThreeParts(kw, cond, thn + els, toks, pos);
    var next := pos + 1 + |cond|;
    var mid := next + |thn|;
    TwoParts(thn, els, toks, next);
    TokenAt(kw, toks, pos, 0);
    ConditionReadsBack(s.cond, toks, pos + 1, style.Part(0));
    BlockReadsBack(s.thn, toks, next, style.Part(1));
    if s.els.ElseBlock? {
      TwoParts([Mark(KW_ELSE)], WriteBlock(s.els.items, style.Part(2)), toks, mid);
      TokenAt([Mark(KW_ELSE)], toks, mid, 0);
      BlockReadsBack(s.els.items, toks, mid + 1, style.Part(2));
    }
  }

  lemma {:induction false} WhileReadsBack(s: Stmt, toks: seq<Token>, pos: nat, style: Style)
    requires s.While? && Writable(s) && Stands(WriteStmt(s, style), toks, pos)
    ensures ParseStmt(toks, pos) == Some((s, pos + |WriteStmt(s, style)|))
    decreases s, 1
  {
    hide Stands;
    hide WriteCondition;
    hide WriteBlock;
    hide ParseCondition;
    hide ParseBlock;
    var kw, cond, body := [Mark(KW_WHILE)], WriteCondition(s.cond, style.Part(0)), WriteBlock(s.body, style.Part(1));
    ThreeParts(kw, cond, body, toks, pos);
    TokenAt(kw, toks, pos, 0);
    ConditionReadsBack(s.cond, toks, pos + 1, style.Part(0));
    BlockReadsBack(s.body, toks, pos + 1 + |cond|, style.Part(1));
  }

  lemma {:induction false} ForReadsBack(s: Stmt, toks: seq<Token>, pos: nat, style: Style)
    requires s.For? && Writable(s) && Stands(WriteStmt(s, style), toks, pos)
    ensures ParseStmt(toks, pos) == Some((s, pos + |WriteStmt(s, style)|))
    decreases s, 1
  {
    hide Stands;
    hide WriteHead;
    hide WritableHead;
    hide WriteBlock;
    hide ParseHead;
    hide ParseBlock;
    var parts := Head(s.start, s.test, s.step);
    var kw, head, body := [Mark(KW_FOR)], WriteHead(parts, style.Part(0)), WriteBlock(s.body, style.Part(1));
    ThreeParts(kw, head, body, toks, pos);
    TokenAt(kw, toks, pos, 0);
    HeadReadsBack(parts, toks, pos + 1, style.Part(0));
    BlockReadsBack(s.body, toks, pos + 1 + |head|, style.Part(1));
  }

  lemma {:induction false} BlockReadsBack(items: seq<Stmt>, toks: seq<Token>, pos: nat, style: Style)
    requires AllWritable(items) && Stands(WriteBlock(items, style), toks, pos)
    ensures ParseBlock(toks, pos) == Some((items, pos + |WriteBlock(items, style)|))
    decreases items, 4
  {
    hide Stands;
    hide WriteItems;
    hide ParseItems;
    hide AllWritable;
    var open, inner, close := [Mark(T_LBRACE)], WriteItems(items, style), [Mark(T_RBRACE)];
    ThreeParts(open, inner, close, toks, pos);
    TokenAt(open, toks, pos, 0);
    TokenAt(close, toks, pos + 1 + |inner|, 0);
    ItemsReadBack(items, toks, pos + 1, style);
  }

  lemma {:induction false} ItemsReadBack(items: seq<Stmt>, toks: seq<Token>, pos: nat, style: Style)
    requires AllWritable(items) && Stands(WriteItems(items, style), toks, pos)
             && KindAt(toks, pos + |WriteItems(items, style)|) == T_RBRACE
    ensures ParseItems(toks, pos) == Some((items, pos + |WriteItems(items, style)| + 1))
    ensures KindAt(toks, pos) != KW_ELSE
    decreases items, 3
  {
    hide Stands;
    hide WriteStmt;
    hide ParseStmt;
    hide Writable;
    hide Begins;
    if items != [] {
      var first, rest := WriteStmt(items[0], style.Part(0)), WriteItems(items[1..], style.Part(1));
      TwoParts(first, rest, toks, pos);
      ItemsReadBack(items[1..], toks, pos + |first|, style.Part(1));
      StmtReadsBack(items[0], toks, pos, style.Part(0));
      BeginsStatement(KindAt(toks, pos));
      assert items == [items[0]] + items[1..];
    }
  }

  // ----- reading back: programs -----

  lemma {:induction false} ParamsReadBack(params: seq<string>, toks: seq<Token>, pos: nat)
    requires params != [] && Stands(WriteParams(params), toks, pos) && KindAt(toks, pos + |WriteParams(params)|) != T_COMMA
    ensures ParseParams(toks, pos) == Some((params, pos + |WriteParams(params)|)) && KindAt(toks, pos) == KW_INT32
    decreases |params|
  {
    hide Stands;
    var first, more := WriteParam(params[0]), WriteMoreParams(params[1..]);
    TwoParts(first, more, toks, pos);
    TokenAt(first, toks, pos, 0);
    TokenAt(first, toks, pos, 1);
    assert params == [params[0]] + params[1..];
    if params[1..] != [] {
      TwoParts([Mark(T_COMMA)], WriteParams(params[1..]), toks, pos + 2);
      TokenAt([Mark(T_COMMA)], toks, pos + 2, 0);
      ParamsReadBack(params[1..], toks, pos + 3);
    }
  }

  lemma ParamListReadsBack(params: seq<string>, toks: seq<Token>, pos: nat)
    requires Stands(WriteParamList(params), toks, pos) && KindAt(toks, pos + |WriteParamList(params)|) == T_RPAREN
    requires pos <= |toks|
    ensures ParseParamList(toks, pos) == Some((params, pos + |WriteParamList(params)|))
  {
    hide Stands;
    hide WriteParams;
    hide ParseParams;
    if params != [] { ParamsReadBack(params, toks, pos); }
  }

  lemma FunctionReadsBack(fn: Function, toks: seq<Token>, pos: nat, style: Style)
    requires AllWritable(fn.body) && Stands(WriteFunction(fn, style), toks, pos)
    ensures ParseFunction(toks, pos) == Some((fn, pos + |WriteFunction(fn, style)|)) && KindAt(toks, pos) == KW_FN
  {
    hide Stands;
    hide WriteParamList;
    hide WriteBlock;
    hide ParseParamList;
    hide ParseBlock;
    var opening, params := [Mark(KW_FN), Token(IDENT, fn.name), Mark(T_LPAREN)], WriteParamList(fn.params);
    var closing, body := [Mark(T_RPAREN), Mark(T_ARROW), Mark(KW_INT32)], WriteBlock(fn.body, style);
    ThreeParts(opening, params, closing + body, toks, pos);
    var next := pos + 3 + |params|;
    TwoParts(closing, body, toks, next);
    KindsStand(opening, FUNCTION_KINDS, toks, pos);
    KindsStand(closing, RESULT_KINDS, toks, next);
    TokenAt(opening, toks, pos, 0);
    TokenAt(opening, toks, pos, 1);
    TokenAt(opening, toks, pos, 2);
    TokenAt(closing, toks, next, 0);
    hide KindsAt;
    ParamListReadsBack(fn.params, toks, pos + 3);
    BlockReadsBack(fn.body, toks, next + 3, style);
  }

  lemma DeclReadsBack(d: Decl, toks: seq<Token>, pos: nat, style: Style)
    requires WritableDecl(d) && Stands(WriteDecl(d, style), toks, pos)
             && KindAt(toks, pos + |WriteDecl(d, style)|) != KW_ELSE
    ensures ParseDecl(toks, pos) == Some((d, pos + |WriteDecl(d, style)|))
    ensures KindAt(toks, pos) != KW_ELSE && KindAt(toks, pos) != EOF
  {
    hide Stands;
    hide WriteFunction;
    hide WriteStmt;
    hide ParseFunction;
    hide ParseStmt;
    match d
    case FunctionDecl(fn) => FunctionReadsBack(fn, toks, pos, style);
    case Statement(stmt) =>
      StmtReadsBack(stmt, toks, pos, style);
      BeginsStatement(KindAt(toks, pos));
  }

  lemma {:induction false} DeclsReadBack(decls: seq<Decl>, toks: seq<Token>, pos: nat, style: Style)
    requires WritableProgram(decls) && Stands(WriteProgram(decls, style), toks, pos)
             && KindAt(toks, pos + |WriteProgram(decls, style)|) == EOF
    requires pos <= |toks|
    ensures ParseDecls(toks, pos) == Some((decls, pos + |WriteProgram(decls, style)|)) && KindAt(toks, pos) != KW_ELSE
    decreases decls
  {
    hide Stands;
    hide WriteDecl;
    hide KindAt;
    hide Begins;
    hide ParseDecl;
    hide WritableDecl;
    if decls != [] {
      var first, rest := WriteDecl(decls[0], style.Part(0)), WriteProgram(decls[1..], style.Part(1));
      TwoParts(first, rest, toks, pos);
      StandsInside(first, toks, pos);
      DeclsReadBack(decls[1..], toks, pos + |first|, style.Part(1));
      DeclReadsBack(decls[0], toks, pos, style.Part(0));
      assert decls == [decls[0]] + decls[1..];
    }
  }

  lemma StandsInside(part: seq<Token>, toks: seq<Token>, pos: nat)
    requires Stands(part, toks, pos)
    ensures pos + |part| <= |toks|
  {
  }

  /** The parser reads back every program from its concrete syntax, whatever its style. */
  lemma ProgramReadsBack(decls: seq<Decl>, style: Style)
    requires WritableProgram(decls)
    ensures var toks := WriteProgram(decls, style) + [Mark(EOF)];
            ParseDecls(toks, 0) == Some((decls, |toks| - 1))
  {
    hide Stands;
    hide WriteProgram;
    hide ParseDecls;
    hide WritableProgram;
    PrefixStands(WriteProgram(decls, style), Mark(EOF));
    DeclsReadBack(decls, WriteProgram(decls, style) + [Mark(EOF)], 0, style);
  }

  lemma PrefixStands(part: seq<Token>, last: Token)
    ensures Stands(part, part + [last], 0) && KindAt(part + [last], |part|) == last.kind
  {
  }

  /** Main result: run on the tokens of any program in any style, the parser returns exactly that program. */
  method WriteAndParse(decls: seq<Decl>, style: Style) returns (program: Option<seq<Decl>>)
    requires WritableProgram(decls)
    ensures program == Some(decls)
  {
    hide WriteProgram;
    hide ParseDecls;
    hide WritableProgram;
    var toks := WriteProgram(decls, style) + [Mark(EOF)];
    ProgramReadsBack(decls, style);
    var parser := new Parser.Parser(toks);
    program := parser.Parse();
  }
}
