/** Main result of the syntax: the parser accepts exactly the token lists that write a program, and returns the program they
    write.  `Writing` has one direction; here whatever is read has been written. */
module Acceptance {
  import opened Options
  import opened TensorAst
  import opened Tokens
  import opened Grammar
  import opened Syntax
  import opened Writing
  import opened Recognition
  import Parser

  /** The tokens from `pos` to `end` read `part`. */
  ghost predicate Written(part: seq<Token>, toks: seq<Token>, pos: nat, end: nat)
  {
    Stands(part, toks, pos) && end == pos + |part|
  }

  lemma JoinTwo(x: seq<Token>, y: seq<Token>, toks: seq<Token>, pos: nat, mid: nat, end: nat)
    requires Written(x, toks, pos, mid) && Written(y, toks, mid, end)
    ensures Written(x + y, toks, pos, end)
  {
    hide Stands;
    Joined(x, y, toks, pos);
  }

  lemma JoinThree(x: seq<Token>, y: seq<Token>, z: seq<Token>, toks: seq<Token>, pos: nat, first: nat, second: nat, end: nat)
    requires Written(x, toks, pos, first) && Written(y, toks, first, second) && Written(z, toks, second, end)
    ensures Written(x + (y + z), toks, pos, end)
  {
    hide Written;
    JoinTwo(y, z, toks, first, second, end);
    JoinTwo(x, y + z, toks, pos, first, end);
  }

  lemma MarkWritten(kind: Kind, toks: seq<Token>, pos: nat)
    requires KindAt(toks, pos) == kind && kind !in {IDENT, STRING, NUMBER, EOF}
    ensures Written([Mark(kind)], toks, pos, pos + 1)
  {
    MarkStands(kind, toks, pos);
  }

  /** Consecutive tokens of the right kinds and texts. */
  lemma KindsWritten(part: seq<Token>, kinds: seq<Kind>, toks: seq<Token>, pos: nat)
    requires KindsAt(toks, pos, kinds) && |part| == |kinds| && part != []
    requires forall i :: 0 <= i < |kinds| ==> part[i].kind == kinds[i] && kinds[i] != NUMBER && kinds[i] != EOF
    requires forall i :: 0 <= i < |kinds| && (kinds[i] == IDENT || kinds[i] == STRING) && pos + i < |toks| ==>
               part[i].value == toks[pos + i].value
    ensures Written(part, toks, pos, pos + |part|)
  {
    forall i | 0 <= i < |part| ensures pos + i < |toks| && Alike(toks[pos + i], part[i]) {
      assert KindAt(toks, pos + i) == kinds[i];
    }
    assert KindAt(toks, pos + (|kinds| - 1)) == kinds[|kinds| - 1];
  }

  lemma NothingWritten(toks: seq<Token>, pos: nat)
    requires pos <= |toks|
    ensures Written([], toks, pos, pos)
  {
  }

  // ----- literals -----

  lemma NumberIsWritten(toks: seq<Token>, pos: nat) returns (style: Style)
    requires ParseNumber(toks, pos).Some?
    ensures var (n, end) := ParseNumber(toks, pos).value; Written(WriteNumber(n, style), toks, pos, end)
  {
    var (n, end) := ParseNumber(toks, pos).value;
    DigitsWritten(toks, end - 1);
    if KindAt(toks, pos) == T_MINUS {
      style := Style(1, []);
      MarkWritten(T_MINUS, toks, pos);
      hide Written;
      hide Decimal;
      JoinTwo([Mark(T_MINUS)], [Token(NUMBER, Decimal(-n))], toks, pos, pos + 1, end);
      assert [Mark(T_MINUS)] + [Token(NUMBER, Decimal(-n))] == [Mark(T_MINUS), Token(NUMBER, Decimal(-n))];
    } else {
      style := TERSE;
    }
  }

  lemma DigitsWritten(toks: seq<Token>, pos: nat)
    requires pos < |toks| && KindAt(toks, pos) == NUMBER
    ensures var n := ToInt(toks[pos].value); n >= 0 && Written([Token(NUMBER, Decimal(n))], toks, pos, pos + 1)
  {
    ToIntIsNat(toks[pos].value);
    DecimalReadBack(ToInt(toks[pos].value));
  }

  lemma {:induction false} NumbersAreWritten(toks: seq<Token>, pos: nat) returns (style: Style)
    requires ParseNumbers(toks, pos).Some?
    ensures var (row, end) := ParseNumbers(toks, pos).value; row != [] && Written(WriteNumbers(row, style), toks, pos, end)
    decreases |toks| - pos
  {
    hide Written;
    hide KindAt;
    hide WriteNumber;
    hide ParseNumber;
    var first := NumberIsWritten(toks, pos);
    var (n, mid) := ParseNumber(toks, pos).value;
    var (row, end) := ParseNumbers(toks, pos).value;
    assert row == [n] + row[1..];
    if KindAt(toks, mid) == T_COMMA {
      var others := NumbersAreWritten(toks, mid + 1);
      style := Style(0, [first, others]);
      MarkWritten(T_COMMA, toks, mid);
      JoinTwo([Mark(T_COMMA)], WriteNumbers(row[1..], others), toks, mid, mid + 1, end);
    } else {
      style := Style(0, [first]);
      NothingWritten(toks, mid);
    }
    assert style.Part(0) == first;
    JoinTwo(WriteNumber(n, first), WriteMoreNumbers(row[1..], style.Part(1)), toks, pos, mid, end);
  }

  lemma RowIsWritten(toks: seq<Token>, pos: nat) returns (style: Style)
    requires ParseRow(toks, pos).Some?
    ensures var (row, end) := ParseRow(toks, pos).value; row != [] && Written(WriteRow(row, style), toks, pos, end)
  {
    hide Written;
    hide KindAt;
    hide ParseNumbers;
    hide WriteNumbers;
    style := NumbersAreWritten(toks, pos + 1);
    var (row, end) := ParseRow(toks, pos).value;
    MarkWritten(T_LBRACKET, toks, pos);
    MarkWritten(T_RBRACKET, toks, end - 1);
    JoinThree([Mark(T_LBRACKET)], WriteNumbers(row, style), [Mark(T_RBRACKET)], toks, pos, pos + 1, end - 1, end);
  }

  lemma {:induction false} RowsAreWritten(toks: seq<Token>, pos: nat) returns (style: Style)
    requires ParseRows(toks, pos).Some?
    ensures var (rows, end) := ParseRows(toks, pos).value;
            rows != [] && FullRows(rows) && Written(WriteRows(rows, style), toks, pos, end)
    decreases |toks| - pos
  {
    hide Written;
    hide KindAt;
    hide WriteRow;
    hide ParseRow;
    var first := RowIsWritten(toks, pos);
    var (row, mid) := ParseRow(toks, pos).value;
    var (rows, end) := ParseRows(toks, pos).value;
    assert rows == [row] + rows[1..];
    if KindAt(toks, mid) == T_COMMA {
      var others := RowsAreWritten(toks, mid + 1);
      style := Style(0, [first, others]);
      MarkWritten(T_COMMA, toks, mid);
      JoinTwo([Mark(T_COMMA)], WriteRows(rows[1..], others), toks, mid, mid + 1, end);
    } else {
      style := Style(0, [first]);
      NothingWritten(toks, mid);
    }
    assert style.Part(0) == first;
    JoinTwo(WriteRow(row, first), WriteMoreRows(rows[1..], style.Part(1)), toks, pos, mid, end);
  }

  lemma MatrixIsWritten(toks: seq<Token>, pos: nat) returns (style: Style)
    requires ParseMatrix(toks, pos).Some?
    ensures var (rows, end) := ParseMatrix(toks, pos).value;
            rows != [] && FullRows(rows) && Written(WriteMatrix(rows, style), toks, pos, end)
  {
    hide Written;
    hide KindAt;
    hide ParseRows;
    hide WriteRows;
    hide FullRows;
    style := RowsAreWritten(toks, pos + 1);
    var (rows, end) := ParseMatrix(toks, pos).value;
    MarkWritten(T_LBRACKET, toks, pos);
    MarkWritten(T_RBRACKET, toks, end - 1);
    JoinThree([Mark(T_LBRACKET)], WriteRows(rows, style), [Mark(T_RBRACKET)], toks, pos, pos + 1, end - 1, end);
  }

  // ----- simple statements -----

  lemma ShapeIsWritten(toks: seq<Token>, pos: nat) returns (style: Style)
    requires pos <= |toks| && ParseShape(toks, pos).Some?
    ensures var ((rows, cols), end) := ParseShape(toks, pos).value; Written(WriteShape(rows, cols, style), toks, pos, end)
  {
    hide Written;
    hide KindAt;
    hide ParseNumber;
    hide WriteNumber;
    if KindAt(toks, pos) != T_COMMA {
      style := TERSE;
      NothingWritten(toks, pos);
    } else {
      var first := NumberIsWritten(toks, pos + 1);
      var (rows, mid) := ParseNumber(toks, pos + 1).value;
      var second := NumberIsWritten(toks, mid + 1);
      var (cols, end) := ParseNumber(toks, mid + 1).value;
      style := Style(0, [first, second]);
      assert style.Part(0) == first && style.Part(1) == second;
      MarkWritten(T_COMMA, toks, pos);
      MarkWritten(T_COMMA, toks, mid);
      var comma, x, y := [Mark(T_COMMA)], WriteNumber(rows, first), WriteNumber(cols, second);
      JoinTwo(comma, y, toks, mid, mid + 1, end);
      JoinThree(comma, x, comma + y, toks, pos, pos + 1, mid, end);
    }
  }

  lemma InitIsWritten(toks: seq<Token>, pos: nat) returns (style: Style)
    requires pos <= |toks| && ParseInit(toks, pos).Some?
    ensures var (init, end) := ParseInit(toks, pos).value;
            && (init.Some? ==> init.value != [] && FullRows(init.value))
            && Written(WriteInit(init, style), toks, pos, end)
  {
    hide Written;
    hide KindAt;
    hide ParseMatrix;
    hide WriteMatrix;
    hide FullRows;
    if KindAt(toks, pos) != T_EQUAL {
      style := TERSE;
      NothingWritten(toks, pos);
    } else {
      style := MatrixIsWritten(toks, pos + 1);
      var (rows, end) := ParseMatrix(toks, pos + 1).value;
      MarkWritten(T_EQUAL, toks, pos);
      JoinTwo([Mark(T_EQUAL)], WriteMatrix(rows, style), toks, pos, pos + 1, end);
    }
  }

  lemma TensorIsWritten(toks: seq<Token>, pos: nat) returns (style: Style)
    requires ParseTensor(toks, pos).Some?
    ensures var (s, end) := ParseTensor(toks, pos).value;
            s.TensorDecl? && Writable(s) && Written(WriteTensor(s, style), toks, pos, end)
  {
    hide Written;
    hide ParseShape;
    hide ParseInit;
    hide WriteShape;
    hide WriteInit;
    hide FullRows;
    var (s, end) := ParseTensor(toks, pos).value;
    var opening := [Mark(KW_TENSOR), Mark(T_LT), Mark(KW_INT32)];
    KindsWritten(opening, TENSOR_KINDS, toks, pos);
    assert TENSOR_KINDS[2] == KW_INT32 && KindAt(toks, pos + 2) == KW_INT32;
    hide KindsAt;
    var x := ShapeIsWritten(toks, pos + 3);
    var mid := ParseShape(toks, pos + 3).value.1;
    NameWritten(T_GT, s.name, toks, mid);
    var y := InitIsWritten(toks, mid + 2);
    MarkWritten(T_SEMI, toks, end - 1);
    hide KindAt;
    style := Style(0, [x, y]);
    assert style.Part(0) == x && style.Part(1) == y;
    var shape, init := WriteShape(s.rows, s.cols, x), WriteInit(s.init, y);
    var name, semi := [Mark(T_GT), Token(IDENT, s.name)], [Mark(T_SEMI)];
    JoinThree(name, init, semi, toks, mid, mid + 2, end - 1, end);
    JoinThree(opening, shape, name + (init + semi), toks, pos, pos + 3, mid, end);
  }

  lemma NameWritten(kind: Kind, name: string, toks: seq<Token>, pos: nat)
    requires KindAt(toks, pos) == kind && kind !in {IDENT, STRING, NUMBER, EOF}
    requires pos + 1 < |toks| && KindAt(toks, pos + 1) == IDENT && toks[pos + 1].value == name
    ensures Written([Mark(kind), Token(IDENT, name)], toks, pos, pos + 2)
  {
  }

  lemma VarIsWritten(toks: seq<Token>, pos: nat) returns (style: Style)
    requires ParseVar(toks, pos).Some?
    ensures var (s, end) := ParseVar(toks, pos).value; Declares(s) && Written(WriteVar(s, style), toks, pos, end)
  {
    hide ParseLevel;
    hide Printable;
    hide Grammar.Print;
    hide Stands;
    var (s, end) := ParseVar(toks, pos).value;
    NameWritten(KW_INT32, s.name, toks, pos);
    if KindAt(toks, pos + 2) != T_EQUAL {
      style := Style(1, []);
      ZeroPrints();
    } else {
      var value := LevelIsWritten(toks, pos + 3, 0);
      style := Style(0, [value]);
      assert style.Part(0) == value;
      MarkWritten(T_EQUAL, toks, pos + 2);
      hide KindAt;
      hide Written;
      var opening := [Mark(KW_INT32), Token(IDENT, s.name)];
      JoinTwo(opening, [Mark(T_EQUAL)], toks, pos, pos + 2, pos + 3);
      assert opening + [Mark(T_EQUAL)] == [Mark(KW_INT32), Token(IDENT, s.name), Mark(T_EQUAL)];
      ExprWritten(s.value, value, toks, pos + 3, end);
      JoinTwo(opening + [Mark(T_EQUAL)], Grammar.Print(s.value, 0, value), toks, pos, pos + 3, end);
    }
  }

  lemma ZeroPrints()
    ensures Printable(IntLiteral(0))
  {
  }

  lemma ExprWritten(e: Expr, style: Style, toks: seq<Token>, pos: nat, end: nat)
    requires Writes(e, 0, style, toks, pos, end)
    ensures Printable(e) && Written(Grammar.Print(e, 0, style), toks, pos, end)
  {
  }

  lemma PlainIsWritten(toks: seq<Token>, pos: nat) returns (style: Style)
    requires ParseAssignOrExpr(toks, pos).Some?
    ensures var (s, end) := ParseAssignOrExpr(toks, pos).value; Plain(s) && Written(WritePlain(s, style), toks, pos, end)
  {
    hide ParseLevel;
    hide Printable;
    hide Grammar.Print;
    hide Written;
    hide Writes;
    hide KindAt;
    var (s, end) := ParseAssignOrExpr(toks, pos).value;
    var x := LevelIsWritten(toks, pos, 0);
    var (target, mid) := ParseLevel(toks, pos, 0).value;
    ExprWritten(target, x, toks, pos, mid);
    if KindAt(toks, mid) != T_EQUAL {
      style := x;
    } else {
      var y := LevelIsWritten(toks, mid + 1, 0);
      ExprWritten(s.value, y, toks, mid + 1, end);
      style := Style(0, [x, y]);
      assert style.Part(0) == x && style.Part(1) == y;
      MarkWritten(T_EQUAL, toks, mid);
      JoinThree(Grammar.Print(target, 0, x), [Mark(T_EQUAL)], Grammar.Print(s.value, 0, y), toks, pos, mid, mid + 1, end);
    }
  }

  lemma GemmIsWritten(toks: seq<Token>, pos: nat)
    requires ParseGemm(toks, pos).Some?
    ensures var (s, end) := ParseGemm(toks, pos).value; s.Gemm? && Writable(s) && Written(WriteGemm(s), toks, pos, end)
  {
    hide Written;
    var (s, end) := ParseGemm(toks, pos).value;
    KindsWritten(WriteGemm(s), GEMM_KINDS, toks, pos);
  }

  lemma PrintIsWritten(toks: seq<Token>, pos: nat)
    requires ParsePrint(toks, pos).Some?
    ensures var (s, end) := ParsePrint(toks, pos).value; s.Print? && Written(WritePrint(s), toks, pos, end)
  {
    hide Written;
    var (s, end) := ParsePrint(toks, pos).value;
    KindsWritten(WritePrint(s), PRINT_KINDS, toks, pos);
  }

  lemma ConditionIsWritten(toks: seq<Token>, pos: nat) returns (style: Style)
    requires ParseCondition(toks, pos).Some?
    ensures var (cond, end) := ParseCondition(toks, pos).value;
            Printable(cond) && Written(WriteCondition(cond, style), toks, pos, end)
  {
    hide ParseLevel;
    hide Printable;
    hide Grammar.Print;
    hide Written;
    hide Writes;
    hide KindAt;
    style := LevelIsWritten(toks, pos + 1, 0);
    var (cond, end) := ParseCondition(toks, pos).value;
    ExprWritten(cond, style, toks, pos + 1, end - 1);
    MarkWritten(T_LPAREN, toks, pos);
    MarkWritten(T_RPAREN, toks, end - 1);
    JoinThree([Mark(T_LPAREN)], Grammar.Print(cond, 0, style), [Mark(T_RPAREN)], toks, pos, pos + 1, end - 1, end);
  }

  // ----- the head of a for loop -----

  lemma StartIsWritten(toks: seq<Token>, pos: nat) returns (style: Style)
    requires pos <= |toks| && ParseStart(toks, pos).Some?
    ensures var (start, end) := ParseStart(toks, pos).value;
            && (start.Some? ==> Plain(start.value) || Declares(start.value))
            && Written(WriteStart(start, style), toks, pos, end)
  {
    hide Written;
    hide KindAt;
    hide ParseVar;
    hide ParseAssignOrExpr;
    hide WriteVar;
    hide WritePlain;
    if KindAt(toks, pos) == KW_INT32 {
      style := VarIsWritten(toks, pos);
    } else if KindAt(toks, pos) == T_SEMI {
      style := TERSE;
      NothingWritten(toks, pos);
    } else {
      style := PlainIsWritten(toks, pos);
    }
  }

  lemma TestIsWritten(toks: seq<Token>, pos: nat) returns (style: Style)
    requires pos <= |toks| && ParseTest(toks, pos).Some?
    ensures var (test, end) := ParseTest(toks, pos).value;
            (test.Some? ==> Printable(test.value)) && Written(WriteTest(test, style), toks, pos, end)
  {
    hide Written;
    hide KindAt;
    hide ParseLevel;
    hide Printable;
    hide Grammar.Print;
    hide Writes;
    if KindAt(toks, pos) == T_SEMI {
      style := TERSE;
      NothingWritten(toks, pos);
    } else {
      style := LevelIsWritten(toks, pos, 0);
      var (e, end) := ParseLevel(toks, pos, 0).value;
      ExprWritten(e, style, toks, pos, end);
    }
  }

  lemma StepIsWritten(toks: seq<Token>, pos: nat) returns (style: Style)
    requires pos <= |toks| && ParseStep(toks, pos).Some?
    ensures var (step, end) := ParseStep(toks, pos).value;
            (step.Some? ==> Plain(step.value)) && Written(WriteStep(step, style), toks, pos, end)
  {
    hide Written;
    hide KindAt;
    hide ParseAssignOrExpr;
    hide WritePlain;
    if KindAt(toks, pos) == T_RPAREN {
      style := TERSE;
      NothingWritten(toks, pos);
    } else {
      style := PlainIsWritten(toks, pos);
    }
  }

  lemma HeadIsWritten(toks: seq<Token>, pos: nat) returns (style: Style)
    requires ParseHead(toks, pos).Some?
    ensures var (head, end) := ParseHead(toks, pos).value;
            WritableHead(head) && Written(WriteHead(head, style), toks, pos, end)
  {
    hide Written;
    hide KindAt;
    hide Plain;
    hide Declares;
    hide Printable;
    hide ParseStart;
    hide ParseTest;
    hide ParseStep;
    hide WriteStart;
    hide WriteTest;
    hide WriteStep;
    var (head, end) := ParseHead(toks, pos).value;
    var x := StartIsWritten(toks, pos + 1);
    var first := ParseStart(toks, pos + 1).value.1;
    var y := TestIsWritten(toks, first + 1);
    var second := ParseTest(toks, first + 1).value.1;
    var z := StepIsWritten(toks, second + 1);
    style := Style(0, [x, y, z]);
    assert style.Part(0) == x && style.Part(1) == y && style.Part(2) == z;
    MarkWritten(T_LPAREN, toks, pos);
    MarkWritten(T_SEMI, toks, first);
    MarkWritten(T_SEMI, toks, second);
    MarkWritten(T_RPAREN, toks, end - 1);
    var open, semi, close := [Mark(T_LPAREN)], [Mark(T_SEMI)], [Mark(T_RPAREN)];
    var start, test, step := WriteStart(head.start, x), WriteTest(head.test, y), WriteStep(head.step, z);
    JoinThree(semi, step, close, toks, second, second + 1, end - 1, end);
    JoinThree(semi, test, semi + (step + close), toks, first, first + 1, second, end);
    JoinThree(open, start, semi + (test + (semi + (step + close))), toks, pos, pos + 1, first, end);
  }

  // ----- statements -----

  lemma {:induction false} StmtIsWritten(toks: seq<Token>, pos: nat) returns (style: Style)
    requires ParseStmt(toks, pos).Some?
    ensures var (s, end) := ParseStmt(toks, pos).value; Writable(s) && Written(WriteStmt(s, style), toks, pos, end)
    decreases |toks| - pos, 1
  {
    hide Written;
    hide KindAt;
    hide ParseTensor;
    hide ParseVar;
    hide ParseGemm;
    hide ParsePrint;
    hide ParseIf;
    hide ParseWhile;
    hide ParseFor;
    hide ParseReturn;
    hide ParseAssignOrExpr;
    hide WriteTensor;
    hide WriteGemm;
    hide WritePrint;
    hide AllWritable;
    hide Begins;
    match KindAt(toks, pos)
    case KW_TENSOR => style := TensorIsWritten(toks, pos);
    case KW_INT32 => style := DeclarationIsWritten(toks, pos);
    case KW_GEMM => GemmIsWritten(toks, pos); style := TERSE;
    case KW_PRINT => PrintIsWritten(toks, pos); style := TERSE;
    case KW_IF => style := IfIsWritten(toks, pos);
    case KW_WHILE => style := WhileIsWritten(toks, pos);
    case KW_FOR => style := ForIsWritten(toks, pos);
    case KW_RETURN => style := ReturnIsWritten(toks, pos);
    case _ => style := SimpleIsWritten(toks, pos);
  }

  lemma DeclarationIsWritten(toks: seq<Token>, pos: nat) returns (style: Style)
    requires ParseVar(toks, pos).Some? && KindAt(toks, ParseVar(toks, pos).value.1) == T_SEMI
    ensures var (s, end) := ParseVar(toks, pos).value; Writable(s) && Written(WriteStmt(s, style), toks, pos, end + 1)
  {
    hide Written;
    hide KindAt;
    hide ParseVar;
    hide WriteVar;
    style := VarIsWritten(toks, pos);
    var (s, end) := ParseVar(toks, pos).value;
    MarkWritten(T_SEMI, toks, end);
    JoinTwo(WriteVar(s, style), [Mark(T_SEMI)], toks, pos, end, end + 1);
  }

  lemma SimpleIsWritten(toks: seq<Token>, pos: nat) returns (style: Style)
    requires ParseAssignOrExpr(toks, pos).Some? && KindAt(toks, ParseAssignOrExpr(toks, pos).value.1) == T_SEMI
    ensures var (s, end) := ParseAssignOrExpr(toks, pos).value;
            Writable(s) && Written(WriteStmt(s, style), toks, pos, end + 1)
  {
    hide Written;
    hide KindAt;
    hide ParseAssignOrExpr;
    hide WritePlain;
    style := PlainIsWritten(toks, pos);
    var (s, end) := ParseAssignOrExpr(toks, pos).value;
    MarkWritten(T_SEMI, toks, end);
    JoinTwo(WritePlain(s, style), [Mark(T_SEMI)], toks, pos, end, end + 1);
  }

  lemma ReturnIsWritten(toks: seq<Token>, pos: nat) returns (style: Style)
    requires ParseReturn(toks, pos).Some? && KindAt(toks, pos) == KW_RETURN
    ensures var (s, end) := ParseReturn(toks, pos).value; Writable(s) && Written(WriteStmt(s, style), toks, pos, end)
  {
    hide ParseLevel;
    hide Printable;
    hide Grammar.Print;
    hide Written;
    hide Writes;
    hide KindAt;
    style := LevelIsWritten(toks, pos + 1, 0);
    var (s, end) := ParseReturn(toks, pos).value;
    ExprWritten(s.value, style, toks, pos + 1, end - 1);
    MarkWritten(KW_RETURN, toks, pos);
    MarkWritten(T_SEMI, toks, end - 1);
    JoinThree([Mark(KW_RETURN)], Grammar.Print(s.value, 0, style), [Mark(T_SEMI)], toks, pos, pos + 1, end - 1, end);
  }

  lemma {:induction false} IfIsWritten(toks: seq<Token>, pos: nat) returns (style: Style)
    requires pos < |toks| && ParseIf(toks, pos).Some? && KindAt(toks, pos) == KW_IF
    ensures var (s, end) := ParseIf(toks, pos).value; Writable(s) && Written(WriteStmt(s, style), toks, pos, end)
    decreases |toks| - pos, 0
  {
    hide Written;
    hide KindAt;
    hide Printable;
    hide AllWritable;
    hide ParseCondition;
    hide ParseBlock;
    hide WriteCondition;
    hide WriteBlock;
    var (s, end) := ParseIf(toks, pos).value;
    var x := ConditionIsWritten(toks, pos + 1);
    var next := ParseCondition(toks, pos + 1).value.1;
    var y := BlockIsWritten(toks, next);
    var mid := ParseBlock(toks, next).value.1;
    MarkWritten(KW_IF, toks, pos);
    var z := TERSE;
    if KindAt(toks, mid) == KW_ELSE {
      z := BlockIsWritten(toks, mid + 1);
      MarkWritten(KW_ELSE, toks, mid);
      JoinTwo([Mark(KW_ELSE)], WriteBlock(s.els.items, z), toks, mid, mid + 1, end);
    } else {
      NothingWritten(toks, mid);
    }
    style := Style(0, [x, y, z]);
    assert style.Part(0) == x && style.Part(1) == y && style.Part(2) == z;
    var kw, cond, thn, els := [Mark(KW_IF)], WriteCondition(s.cond, x), WriteBlock(s.thn, y), WriteElse(s.els, z);
    JoinTwo(thn, els, toks, next, mid, end);
    JoinThree(kw, cond, thn + els, toks, pos, pos + 1, next, end);
  }

  lemma {:induction false} WhileIsWritten(toks: seq<Token>, pos: nat) returns (style: Style)
    requires pos < |toks| && ParseWhile(toks, pos).Some? && KindAt(toks, pos) == KW_WHILE
    ensures var (s, end) := ParseWhile(toks, pos).value; Writable(s) && Written(WriteStmt(s, style), toks, pos, end)
    decreases |toks| - pos, 0
  {
    hide Written;
    hide KindAt;
    hide Printable;
    hide AllWritable;
    hide ParseCondition;
    hide ParseBlock;
    hide WriteCondition;
    hide WriteBlock;
    var (s, end) := ParseWhile(toks, pos).value;
    var x := ConditionIsWritten(toks, pos + 1);
    var next := ParseCondition(toks, pos + 1).value.1;
    var y := BlockIsWritten(toks, next);
    style := Style(0, [x, y]);
    assert style.Part(0) == x && style.Part(1) == y;
    MarkWritten(KW_WHILE, toks, pos);
    JoinThree([Mark(KW_WHILE)], WriteCondition(s.cond, x), WriteBlock(s.body, y), toks, pos, pos + 1, next, end);
  }

  lemma {:induction false} ForIsWritten(toks: seq<Token>, pos: nat) returns (style: Style)
    requires pos < |toks| && ParseFor(toks, pos).Some? && KindAt(toks, pos) == KW_FOR
    ensures var (s, end) := ParseFor(toks, pos).value; Writable(s) && Written(WriteStmt(s, style), toks, pos, end)
    decreases |toks| - pos, 0
  {
    hide Written;
    hide KindAt;
    hide WritableHead;
    hide AllWritable;
    hide ParseHead;
    hide ParseBlock;
    hide WriteHead;
    hide WriteBlock;
    var (s, end) := ParseFor(toks, pos).value;
    var x := HeadIsWritten(toks, pos + 1);
    var (head, next) := ParseHead(toks, pos + 1).value;
    assert head == Head(s.start, s.test, s.step);
    var y := BlockIsWritten(toks, next);
    style := Style(0, [x, y]);
    assert style.Part(0) == x && style.Part(1) == y;
    MarkWritten(KW_FOR, toks, pos);
    JoinThree([Mark(KW_FOR)], WriteHead(head, x), WriteBlock(s.body, y), toks, pos, pos + 1, next, end);
  }

  lemma {:induction false} BlockIsWritten(toks: seq<Token>, pos: nat) returns (style: Style)
    requires ParseBlock(toks, pos).Some?
    ensures var (items, end) := ParseBlock(toks, pos).value;
            AllWritable(items) && Written(WriteBlock(items, style), toks, pos, end)
    decreases |toks| - pos, 2
  {
    hide Written;
    hide KindAt;
    hide AllWritable;
    hide ParseItems;
    hide WriteItems;
    style := ItemsAreWritten(toks, pos + 1);
    var (items, end) := ParseBlock(toks, pos).value;
    MarkWritten(T_LBRACE, toks, pos);
    JoinThree([Mark(T_LBRACE)], WriteItems(items, style), [Mark(T_RBRACE)], toks, pos, pos + 1, end - 1, end);
  }

  lemma {:induction false} ItemsAreWritten(toks: seq<Token>, pos: nat) returns (style: Style)
    requires ParseItems(toks, pos).Some?
    ensures var (items, end) := ParseItems(toks, pos).value;
            && AllWritable(items) && Written(WriteItems(items, style), toks, pos, end - 1)
            && Written([Mark(T_RBRACE)], toks, end - 1, end)
    decreases |toks| - pos, 3
  {
    hide Written;
    hide KindAt;
    hide Writable;
    hide ParseStmt;
    hide WriteStmt;
    hide Begins;
    if KindAt(toks, pos) == T_RBRACE {
      style := TERSE;
      MarkWritten(T_RBRACE, toks, pos);
      KindInside(toks, pos);
      NothingWritten(toks, pos);
    } else {
      var (items, end) := ParseItems(toks, pos).value;
      var first := StmtIsWritten(toks, pos);
      var (s, mid) := ParseStmt(toks, pos).value;
      var others := ItemsAreWritten(toks, mid);
      assert items == [s] + items[1..];
      style := Style(0, [first, others]);
      assert style.Part(0) == first && style.Part(1) == others;
      JoinTwo(WriteStmt(s, first), WriteItems(items[1..], others), toks, pos, mid, end - 1);
    }
  }

  // ----- programs -----

  lemma {:induction false} ParamsAreWritten(toks: seq<Token>, pos: nat)
    requires ParseParams(toks, pos).Some?
    ensures var (params, end) := ParseParams(toks, pos).value; params != [] && Written(WriteParams(params), toks, pos, end)
    decreases |toks| - pos
  {
    hide Written;
    var (params, end) := ParseParams(toks, pos).value;
    var p := ParseParam(toks, pos).value.0;
    NameWritten(KW_INT32, p, toks, pos);
    hide KindAt;
    assert params == [p] + params[1..];
    if KindAt(toks, pos + 2) == T_COMMA {
      ParamsAreWritten(toks, pos + 3);
      MarkWritten(T_COMMA, toks, pos + 2);
      JoinTwo([Mark(T_COMMA)], WriteParams(params[1..]), toks, pos + 2, pos + 3, end);
    } else {
      NothingWritten(toks, pos + 2);
    }
    JoinTwo(WriteParam(p), WriteMoreParams(params[1..]), toks, pos, pos + 2, end);
  }

  lemma OpeningWritten(toks: seq<Token>, pos: nat)
    requires KindsAt(toks, pos, FUNCTION_KINDS)
    ensures pos + 3 <= |toks|
    ensures Written([Mark(KW_FN), Token(IDENT, toks[pos + 1].value), Mark(T_LPAREN)], toks, pos, pos + 3)
  {
    hide Written;
    assert FUNCTION_KINDS[1] == IDENT && FUNCTION_KINDS[2] == T_LPAREN && KindAt(toks, pos + 2) == T_LPAREN;
    KindsWritten([Mark(KW_FN), Token(IDENT, toks[pos + 1].value), Mark(T_LPAREN)], FUNCTION_KINDS, toks, pos);
  }

  lemma ClosingWritten(toks: seq<Token>, pos: nat)
    requires KindsAt(toks, pos, RESULT_KINDS)
    ensures Written([Mark(T_RPAREN), Mark(T_ARROW), Mark(KW_INT32)], toks, pos, pos + 3)
  {
    hide Written;
    KindsWritten([Mark(T_RPAREN), Mark(T_ARROW), Mark(KW_INT32)], RESULT_KINDS, toks, pos);
  }

  /** Where the parts of a function stand. */
  lemma FunctionParts(toks: seq<Token>, pos: nat) returns (next: nat)
    requires ParseFunction(toks, pos).Some?
    ensures var (fn, end) := ParseFunction(toks, pos).value;
            && pos + 3 <= next && next + 3 <= end <= |toks|
            && ParseParamList(toks, pos + 3) == Some((fn.params, next)) && ParseBlock(toks, next + 3) == Some((fn.body, end))
            && Written([Mark(KW_FN), Token(IDENT, fn.name), Mark(T_LPAREN)], toks, pos, pos + 3)
            && Written([Mark(T_RPAREN), Mark(T_ARROW), Mark(KW_INT32)], toks, next, next + 3)
  {
    hide Written;
    hide KindsAt;
    hide ParseParamList;
    hide ParseBlock;
    OpeningWritten(toks, pos);
    next := ParseParamList(toks, pos + 3).value.1;
    ClosingWritten(toks, next);
  }

  lemma FunctionIsWritten(toks: seq<Token>, pos: nat) returns (style: Style)
    requires ParseFunction(toks, pos).Some?
    ensures var (fn, end) := ParseFunction(toks, pos).value;
            AllWritable(fn.body) && Written(WriteFunction(fn, style), toks, pos, end)
  {
    hide Written;
    hide AllWritable;
    hide ParseFunction;
    hide ParseParams;
    hide ParseBlock;
    hide WriteParams;
    hide WriteBlock;
    hide KindAt;
    var (fn, end) := ParseFunction(toks, pos).value;
    var next := FunctionParts(toks, pos);
    if KindAt(toks, pos + 3) == T_RPAREN { NothingWritten(toks, pos + 3); } else { ParamsAreWritten(toks, pos + 3); }
    style := BlockIsWritten(toks, next + 3);
    var opening := [Mark(KW_FN), Token(IDENT, fn.name), Mark(T_LPAREN)];
    var closing := [Mark(T_RPAREN), Mark(T_ARROW), Mark(KW_INT32)];
    var params, body := WriteParamList(fn.params), WriteBlock(fn.body, style);
    JoinTwo(closing, body, toks, next, next + 3, end);
    JoinThree(opening, params, closing + body, toks, pos, pos + 3, next, end);
  }

  lemma DeclIsWritten(toks: seq<Token>, pos: nat) returns (style: Style)
    requires ParseDecl(toks, pos).Some?
    ensures var (d, end) := ParseDecl(toks, pos).value; WritableDecl(d) && Written(WriteDecl(d, style), toks, pos, end)
  {
    hide Written;
    hide KindAt;
    hide Writable;
    hide AllWritable;
    hide ParseFunction;
    hide ParseStmt;
    hide WriteFunction;
    hide WriteStmt;
    hide Begins;
    if KindAt(toks, pos) == KW_FN { style := FunctionIsWritten(toks, pos); } else { style := StmtIsWritten(toks, pos); }
  }

  lemma {:induction false} DeclsAreWritten(toks: seq<Token>, pos: nat) returns (style: Style)
    requires pos <= |toks| && ParseDecls(toks, pos).Some?
    ensures var (decls, end) := ParseDecls(toks, pos).value;
            && WritableProgram(decls) && Written(WriteProgram(decls, style), toks, pos, end)
            && KindAt(toks, end) == EOF
    decreases |toks| - pos
  {
    hide Written;
    hide KindAt;
    hide WritableDecl;
    hide ParseDecl;
    hide WriteDecl;
    hide Begins;
    if KindAt(toks, pos) == EOF {
      style := TERSE;
      NothingWritten(toks, pos);
    } else {
      var (decls, end) := ParseDecls(toks, pos).value;
      var first := DeclIsWritten(toks, pos);
      var (d, mid) := ParseDecl(toks, pos).value;
      var others := DeclsAreWritten(toks, mid);
      assert decls == [d] + decls[1..];
      style := Style(0, [first, others]);
      assert style.Part(0) == first && style.Part(1) == others;
      JoinTwo(WriteDecl(d, first), WriteProgram(decls[1..], others), toks, pos, mid, end);
    }
  }

  /** The tokens write the program, up to the first EOF. */
  ghost predicate WritesProgram(decls: seq<Decl>, style: Style, toks: seq<Token>, end: nat)
  {
    WritableProgram(decls) && Written(WriteProgram(decls, style), toks, 0, end) && KindAt(toks, end) == EOF
  }

  /** The grammar reads a program exactly where the tokens write it, in some style. */
  lemma ProgramReadsExactly(decls: seq<Decl>, toks: seq<Token>, end: nat)
    ensures ParseDecls(toks, 0) == Some((decls, end)) <==> exists style :: WritesProgram(decls, style, toks, end)
  {
    hide ParseDecls;
    hide KindAt;
    hide Stands;
    hide WritableProgram;
    hide WriteProgram;
    if ParseDecls(toks, 0) == Some((decls, end)) {
      var style := DeclsAreWritten(toks, 0);
      assert WritesProgram(decls, style, toks, end);
    }
    if style :| WritesProgram(decls, style, toks, end) {
      DeclsReadBack(decls, toks, 0, style);
    }
  }

  /** Main result: the parser accepts exactly the token lists that write a program, whatever stands after their first EOF,
      and it returns the program they write. */
  method ParseExactly(toks: seq<Token>) returns (program: Option<seq<Decl>>)
    requires EndsInEof(toks)
    ensures program.Some? <==> exists decls, style, end :: WritesProgram(decls, style, toks, end)
    ensures forall decls, style, end :: WritesProgram(decls, style, toks, end) ==> program == Some(decls)
  {
    hide ParseDecls;
    hide WritesProgram;
    var parser := new Parser.Parser(toks);
    program := parser.Parse();
    ghost var read := ParseDecls(toks, 0);
    if read.Some? { ProgramReadsExactly(read.value.0, toks, read.value.1); }
    forall decls, style, end: nat | WritesProgram(decls, style, toks, end) ensures read == Some((decls, end)) {
      ProgramReadsExactly(decls, toks, end);
    }
  }
}
