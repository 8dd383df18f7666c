/** What the parser computes for literals, statements and programs, as functions of the token list and the cursor. */
module Syntax {
  import opened Options
  import opened TensorAst
  import opened Tokens
  import opened Grammar

  type Read<T> = Option<(T, nat)>

  /** The kinds of consecutive tokens. */
  predicate KindsAt(toks: seq<Token>, pos: nat, kinds: seq<Kind>)
  {
    forall i :: 0 <= i < |kinds| ==> KindAt(toks, pos + i) == kinds[i]
  }

  const TENSOR_KINDS: seq<Kind> := [KW_TENSOR, T_LT, KW_INT32]
  const GEMM_KINDS: seq<Kind> := [KW_GEMM, T_LPAREN, IDENT, T_COMMA, IDENT, T_COMMA, IDENT, T_RPAREN, T_SEMI]
  const PRINT_KINDS: seq<Kind> := [KW_PRINT, T_LPAREN, STRING, T_RPAREN, T_SEMI]
  const FUNCTION_KINDS: seq<Kind> := [KW_FN, IDENT, T_LPAREN]
  const RESULT_KINDS: seq<Kind> := [T_RPAREN, T_ARROW, KW_INT32]

  // ----- tensor literals -----

  function ParseNumber(toks: seq<Token>, pos: nat): (r: Read<int>)
    ensures r.Some? ==> pos < r.value.1 <= |toks|
  {
    if KindAt(toks, pos) == T_MINUS then
      if KindAt(toks, pos + 1) == NUMBER then Some((-ToInt(toks[pos + 1].value), pos + 2)) else None
    else if KindAt(toks, pos) == NUMBER then Some((ToInt(toks[pos].value), pos + 1))
    else None
  }

  function ParseNumbers(toks: seq<Token>, pos: nat): (r: Read<seq<int>>)
    ensures r.Some? ==> pos < r.value.1 <= |toks| && r.value.0 != []
    decreases |toks| - pos
  {
    match ParseNumber(toks, pos)
    case Some((n, next)) =>
      (match MoreNumbers(toks, next)
       case Some((rest, end)) => Some(([n] + rest, end))
       case None => None)
    case None => None
  }

  function MoreNumbers(toks: seq<Token>, pos: nat): (r: Read<seq<int>>)
    requires pos <= |toks|
    ensures r.Some? ==> pos <= r.value.1 <= |toks|
    decreases |toks| - pos
  {
    if KindAt(toks, pos) == T_COMMA then ParseNumbers(toks, pos + 1) else Some(([], pos))
  }

  function ParseRow(toks: seq<Token>, pos: nat): (r: Read<seq<int>>)
    ensures r.Some? ==> pos < r.value.1 <= |toks| && r.value.0 != []
  {
    if KindAt(toks, pos) != T_LBRACKET then None else
    match ParseNumbers(toks, pos + 1)
    case Some((row, end)) => if KindAt(toks, end) == T_RBRACKET then Some((row, end + 1)) else None
    case None => None
  }

  function ParseRows(toks: seq<Token>, pos: nat): (r: Read<seq<seq<int>>>)
    ensures r.Some? ==> pos < r.value.1 <= |toks| && r.value.0 != []
    decreases |toks| - pos
  {
    match ParseRow(toks, pos)
    case Some((row, next)) =>
      (match MoreRows(toks, next)
       case Some((rest, end)) => Some(([row] + rest, end))
       case None => None)
    case None => None
  }

  function MoreRows(toks: seq<Token>, pos: nat): (r: Read<seq<seq<int>>>)
    requires pos <= |toks|
    ensures r.Some? ==> pos <= r.value.1 <= |toks|
    decreases |toks| - pos
  {
    if KindAt(toks, pos) == T_COMMA then ParseRows(toks, pos + 1) else Some(([], pos))
  }

  function ParseMatrix(toks: seq<Token>, pos: nat): (r: Read<seq<seq<int>>>)
    ensures r.Some? ==> pos < r.value.1 <= |toks| && r.value.0 != []
  {
    if KindAt(toks, pos) != T_LBRACKET then None else
    match ParseRows(toks, pos + 1)
    case Some((rows, end)) => if KindAt(toks, end) == T_RBRACKET then Some((rows, end + 1)) else None
    case None => None
  }

  // ----- simple statements -----

  function Ended(s: Stmt, toks: seq<Token>, pos: nat): (r: Read<Stmt>)
    ensures r.Some? ==> r.value.1 == pos + 1 <= |toks|
  {
    if KindAt(toks, pos) == T_SEMI then Some((s, pos + 1)) else None
  }

  /** An optional shape: a comma, the rows, a comma, the columns. */
  function ParseShape(toks: seq<Token>, pos: nat): (r: Read<(Option<int>, Option<int>)>)
    requires pos <= |toks|
    ensures r.Some? ==> pos <= r.value.1 <= |toks| && (r.value.0.0.Some? <==> r.value.0.1.Some?)
  {
    if KindAt(toks, pos) != T_COMMA then Some(((None, None), pos)) else
    match ParseNumber(toks, pos + 1)
    case Some((rows, next)) =>
      if KindAt(toks, next) != T_COMMA then None else
      (match ParseNumber(toks, next + 1)
       case Some((cols, end)) => Some(((Some(rows), Some(cols)), end))
       case None => None)
    case None => None
  }

  /** An optional initializer: an equals sign and a matrix. */
  function ParseInit(toks: seq<Token>, pos: nat): (r: Read<Option<seq<seq<int>>>>)
    requires pos <= |toks|
    ensures r.Some? ==> pos <= r.value.1 <= |toks| && (r.value.0.Some? ==> r.value.0.value != [])
  {
    if KindAt(toks, pos) != T_EQUAL then Some((None, pos)) else
    match ParseMatrix(toks, pos + 1)
    case Some((rows, end)) => Some((Some(rows), end))
    case None => None
  }

  function ParseTensor(toks: seq<Token>, pos: nat): (r: Read<Stmt>)
    ensures r.Some? ==> pos < r.value.1 <= |toks|
  {
    if !KindsAt(toks, pos, TENSOR_KINDS) then None else
    assert TENSOR_KINDS[2] == KW_INT32 && KindAt(toks, pos + 2) == KW_INT32;
    match ParseShape(toks, pos + 3)
    case Some(((rows, cols), next)) =>
      if KindAt(toks, next) != T_GT || KindAt(toks, next + 1) != IDENT then None else
      (match ParseInit(toks, next + 2)
       case Some((init, end)) => Ended(TensorDecl(toks[next + 1].value, rows, cols, init), toks, end)
       case None => None)
    case None => None
  }

  /** A scalar without an initializer starts at zero. */
  function ParseVar(toks: seq<Token>, pos: nat): (r: Read<Stmt>)
    ensures r.Some? ==> pos < r.value.1 <= |toks|
  {
    if KindAt(toks, pos) != KW_INT32 || KindAt(toks, pos + 1) != IDENT then None else
    var name := toks[pos + 1].value;
    if KindAt(toks, pos + 2) != T_EQUAL then Some((VarDecl(name, IntLiteral(0)), pos + 2)) else
    match ParseLevel(toks, pos + 3, 0)
    case Some((value, end)) => Some((VarDecl(name, value), end))
    case None => None
  }

  function ParseAssignOrExpr(toks: seq<Token>, pos: nat): (r: Read<Stmt>)
    ensures r.Some? ==> pos < r.value.1 <= |toks|
  {
    match ParseLevel(toks, pos, 0)
    case Some((target, next)) =>
      if KindAt(toks, next) != T_EQUAL then Some((ExprStmt(target), next)) else
      (match ParseLevel(toks, next + 1, 0)
       case Some((value, end)) => Some((Assign(target, value), end))
       case None => None)
    case None => None
  }

  /** Statements of a fixed sequence of token kinds. */
  function ParseGemm(toks: seq<Token>, pos: nat): (r: Read<Stmt>)
    ensures r.Some? ==> pos < r.value.1 <= |toks|
  {
    if !KindsAt(toks, pos, GEMM_KINDS) then None else
    assert GEMM_KINDS[8] == T_SEMI && KindAt(toks, pos + 8) == T_SEMI;
    Some((Gemm(toks[pos + 2].value, toks[pos + 4].value, toks[pos + 6].value, 0, 0, 0), pos + 9))
  }

  function ParsePrint(toks: seq<Token>, pos: nat): (r: Read<Stmt>)
    ensures r.Some? ==> pos < r.value.1 <= |toks|
  {
    if !KindsAt(toks, pos, PRINT_KINDS) then None else
    assert PRINT_KINDS[4] == T_SEMI && KindAt(toks, pos + 4) == T_SEMI;
    Some((Print(toks[pos + 2].value), pos + 5))
  }

  function ParseReturn(toks: seq<Token>, pos: nat): (r: Read<Stmt>)
    ensures r.Some? ==> pos < r.value.1 <= |toks|
  {
    match ParseLevel(toks, pos + 1, 0)
    case Some((value, end)) => Ended(Return(value), toks, end)
    case None => None
  }

  function ParseCondition(toks: seq<Token>, pos: nat): (r: Read<Expr>)
    ensures r.Some? ==> pos < r.value.1 <= |toks|
  {
    if KindAt(toks, pos) != T_LPAREN then None else
    match ParseLevel(toks, pos + 1, 0)
    case Some((cond, end)) => if KindAt(toks, end) == T_RPAREN then Some((cond, end + 1)) else None
    case None => None
  }

  // ----- the head of a for loop -----

  function ParseStart(toks: seq<Token>, pos: nat): (r: Read<Option<Stmt>>)
    requires pos <= |toks|
    ensures r.Some? ==> pos <= r.value.1 <= |toks|
  {
    if KindAt(toks, pos) == KW_INT32 then
      match ParseVar(toks, pos) { case Some((s, end)) => Some((Some(s), end)) case None => None }
    else if KindAt(toks, pos) == T_SEMI then Some((None, pos))
    else match ParseAssignOrExpr(toks, pos) { case Some((s, end)) => Some((Some(s), end)) case None => None }
  }

  function ParseTest(toks: seq<Token>, pos: nat): (r: Read<Option<Expr>>)
    requires pos <= |toks|
    ensures r.Some? ==> pos <= r.value.1 <= |toks|
  {
    if KindAt(toks, pos) == T_SEMI then Some((None, pos))
    else match ParseLevel(toks, pos, 0) { case Some((e, end)) => Some((Some(e), end)) case None => None }
  }

  function ParseStep(toks: seq<Token>, pos: nat): (r: Read<Option<Stmt>>)
    requires pos <= |toks|
    ensures r.Some? ==> pos <= r.value.1 <= |toks|
  {
    if KindAt(toks, pos) == T_RPAREN then Some((None, pos))
    else match ParseAssignOrExpr(toks, pos) { case Some((s, end)) => Some((Some(s), end)) case None => None }
  }

  datatype Head = Head(start: Option<Stmt>, test: Option<Expr>, step: Option<Stmt>)

  /** From the opening to the closing parenthesis. */
  function ParseHead(toks: seq<Token>, pos: nat): (r: Read<Head>)
    ensures r.Some? ==> pos < r.value.1 <= |toks|
  {
    if KindAt(toks, pos) != T_LPAREN then None else
    match ParseStart(toks, pos + 1)
    case Some((start, first)) =>
      if KindAt(toks, first) != T_SEMI then None else
      (match ParseTest(toks, first + 1)
       case Some((test, second)) =>
         if KindAt(toks, second) != T_SEMI then None else
         (match ParseStep(toks, second + 1)
          case Some((step, end)) => if KindAt(toks, end) == T_RPAREN then Some((Head(start, test, step), end + 1)) else None
          case None => None)
       case None => None)
    case None => None
  }

  // ----- statements -----

  function ParseStmt(toks: seq<Token>, pos: nat): (r: Read<Stmt>)
    ensures r.Some? ==> pos < r.value.1 <= |toks|
    decreases |toks| - pos, 1
  {
    match KindAt(toks, pos)
    case KW_TENSOR => ParseTensor(toks, pos)
    case KW_INT32 =>
      (match ParseVar(toks, pos) case Some((s, end)) => Ended(s, toks, end) case None => None)
    case KW_GEMM => ParseGemm(toks, pos)
    case KW_PRINT => ParsePrint(toks, pos)
    case KW_IF => ParseIf(toks, pos)
    case KW_WHILE => ParseWhile(toks, pos)
    case KW_FOR => ParseFor(toks, pos)
    case KW_RETURN => ParseReturn(toks, pos)
    case _ =>
      (match ParseAssignOrExpr(toks, pos) case Some((s, end)) => Ended(s, toks, end) case None => None)
  }

  function ParseIf(toks: seq<Token>, pos: nat): (r: Read<Stmt>)
    requires pos < |toks|
    ensures r.Some? ==> pos < r.value.1 <= |toks|
    decreases |toks| - pos, 0
  {
    match ParseCondition(toks, pos + 1)
    case Some((cond, next)) =>
      (match ParseBlock(toks, next)
       case Some((thn, mid)) =>
         if KindAt(toks, mid) != KW_ELSE then Some((If(cond, thn, NoElse), mid)) else
         (match ParseBlock(toks, mid + 1)
          case Some((els, end)) => Some((If(cond, thn, ElseBlock(els)), end))
          case None => None)
       case None => None)
    case None => None
  }

  function ParseWhile(toks: seq<Token>, pos: nat): (r: Read<Stmt>)
    requires pos < |toks|
    ensures r.Some? ==> pos < r.value.1 <= |toks|
    decreases |toks| - pos, 0
  {
    match ParseCondition(toks, pos + 1)
    case Some((cond, next)) =>
      (match ParseBlock(toks, next)
       case Some((body, end)) => Some((While(cond, body), end))
       case None => None)
    case None => None
  }

  function ParseFor(toks: seq<Token>, pos: nat): (r: Read<Stmt>)
    requires pos < |toks|
    ensures r.Some? ==> pos < r.value.1 <= |toks|
    decreases |toks| - pos, 0
  {
    match ParseHead(toks, pos + 1)
    case Some((head, next)) =>
      (match ParseBlock(toks, next)
       case Some((body, end)) => Some((For(head.start, head.test, head.step, body), end))
       case None => None)
    case None => None
  }

  function ParseBlock(toks: seq<Token>, pos: nat): (r: Read<seq<Stmt>>)
    ensures r.Some? ==> pos < r.value.1 <= |toks|
    decreases |toks| - pos, 2
  {
    if KindAt(toks, pos) == T_LBRACE then ParseItems(toks, pos + 1) else None
  }

  /** The statements up to the closing brace. */
  function ParseItems(toks: seq<Token>, pos: nat): (r: Read<seq<Stmt>>)
    ensures r.Some? ==> pos < r.value.1 <= |toks|
    decreases |toks| - pos, 3
  {
    if KindAt(toks, pos) == T_RBRACE then Some(([], pos + 1)) else
    match ParseStmt(toks, pos)
    case Some((s, next)) =>
      (match ParseItems(toks, next)
       case Some((rest, end)) => Some(([s] + rest, end))
       case None => None)
    case None => None
  }

  // ----- programs -----

  function ParseParam(toks: seq<Token>, pos: nat): (r: Read<string>)
    ensures r.Some? ==> pos < r.value.1 <= |toks|
  {
    if KindAt(toks, pos) == KW_INT32 && KindAt(toks, pos + 1) == IDENT then Some((toks[pos + 1].value, pos + 2)) else None
  }

  function ParseParams(toks: seq<Token>, pos: nat): (r: Read<seq<string>>)
    ensures r.Some? ==> pos < r.value.1 <= |toks|
    decreases |toks| - pos
  {
    match ParseParam(toks, pos)
    case Some((p, next)) =>
      (match MoreParams(toks, next)
       case Some((rest, end)) => Some(([p] + rest, end))
       case None => None)
    case None => None
  }

  function MoreParams(toks: seq<Token>, pos: nat): (r: Read<seq<string>>)
    requires pos <= |toks|
    ensures r.Some? ==> pos <= r.value.1 <= |toks|
    decreases |toks| - pos
  {
    if KindAt(toks, pos) == T_COMMA then ParseParams(toks, pos + 1) else Some(([], pos))
  }

  /** The parameters up to the closing parenthesis. */
  function ParseParamList(toks: seq<Token>, pos: nat): (r: Read<seq<string>>)
    requires pos <= |toks|
    ensures r.Some? ==> pos <= r.value.1 <= |toks|
  {
    if KindAt(toks, pos) == T_RPAREN then Some(([], pos)) else ParseParams(toks, pos)
  }

  function ParseFunction(toks: seq<Token>, pos: nat): (r: Read<Function>)
    ensures r.Some? ==> pos < r.value.1 <= |toks|
  {
    if !KindsAt(toks, pos, FUNCTION_KINDS) then None else
    assert FUNCTION_KINDS[1] == IDENT && FUNCTION_KINDS[2] == T_LPAREN;
    assert KindAt(toks, pos + 1) == IDENT && KindAt(toks, pos + 2) == T_LPAREN;
    match ParseParamList(toks, pos + 3)
    case Some((params, next)) =>
      if !KindsAt(toks, next, RESULT_KINDS) then None else
      (match ParseBlock(toks, next + 3)
       case Some((body, end)) => Some((Function(toks[pos + 1].value, params, body), end))
       case None => None)
    case None => None
  }

  function ParseDecl(toks: seq<Token>, pos: nat): (r: Read<Decl>)
    ensures r.Some? ==> pos < r.value.1 <= |toks|
  {
    if KindAt(toks, pos) == KW_FN then
      match ParseFunction(toks, pos) { case Some((fn, end)) => Some((FunctionDecl(fn), end)) case None => None }
    else match ParseStmt(toks, pos) { case Some((s, end)) => Some((Decl.Statement(s), end)) case None => None }
  }

  /** The declarations up to EOF. */
  function ParseDecls(toks: seq<Token>, pos: nat): (r: Read<seq<Decl>>)
    requires pos <= |toks|
    decreases |toks| - pos
  {
    if KindAt(toks, pos) == EOF then Some(([], pos)) else
    match ParseDecl(toks, pos)
    case Some((d, next)) =>
      (match ParseDecls(toks, next)
       case Some((rest, end)) => Some(([d] + rest, end))
       case None => None)
    case None => None
  }

  // ----- what the tokens decide -----

  /** The first token decides the kind of statement. */
  lemma KeywordsDecide(toks: seq<Token>, pos: nat)
    requires ParseStmt(toks, pos).Some?
    ensures var s, kind := ParseStmt(toks, pos).value.0, KindAt(toks, pos);
            && (kind == KW_TENSOR <==> s.TensorDecl?) && (kind == KW_INT32 <==> s.VarDecl?) && (kind == KW_GEMM <==> s.Gemm?)
            && (kind == KW_PRINT <==> s.Print?) && (kind == KW_IF <==> s.If?) && (kind == KW_WHILE <==> s.While?)
            && (kind == KW_FOR <==> s.For?) && (kind == KW_RETURN <==> s.Return?)
  {
    hide ParseLevel;
    hide ParseBlock;
    hide ParseHead;
    hide ParseCondition;
    hide ParseShape;
    hide ParseInit;
    hide KindsAt;
  }

  /** Names and texts stand where the grammar has them. */
  lemma NamesInPlace(toks: seq<Token>, pos: nat)
    requires ParseStmt(toks, pos).Some?
    ensures var s := ParseStmt(toks, pos).value.0;
            && (s.VarDecl? ==> pos + 1 < |toks| && s.name == toks[pos + 1].value)
            && (s.Print? ==> pos + 2 < |toks| && s.text == toks[pos + 2].value)
            && (s.Gemm? ==> pos + 6 < |toks| && s.a == toks[pos + 2].value && s.b == toks[pos + 4].value
                            && s.c == toks[pos + 6].value)
  {
    hide ParseLevel;
    hide ParseTensor;
    hide ParseIf;
    hide ParseWhile;
    hide ParseFor;
    hide ParseReturn;
    KeywordsDecide(toks, pos);
    if ParseGemm(toks, pos).Some? { assert GEMM_KINDS[8] == T_SEMI && KindAt(toks, pos + 8) == T_SEMI; }
    if ParsePrint(toks, pos).Some? { assert PRINT_KINDS[4] == T_SEMI && KindAt(toks, pos + 4) == T_SEMI; }
  }

  /** The shape of a tensor: first the rows, then the columns, before the name. */
  lemma ShapeInPlace(toks: seq<Token>, pos: nat)
    requires KindAt(toks, pos) == KW_TENSOR && ParseStmt(toks, pos).Some?
    requires KindAt(toks, pos + 3) == T_COMMA && KindAt(toks, pos + 4) == NUMBER
    ensures var s := ParseStmt(toks, pos).value.0;
            && KindAt(toks, pos + 1) == T_LT && KindAt(toks, pos + 2) == KW_INT32 && KindAt(toks, pos + 5) == T_COMMA
            && s.TensorDecl? && s.rows == Some(ToInt(toks[pos + 4].value))
            && (KindAt(toks, pos + 6) == NUMBER ==>
                  && s.cols == Some(ToInt(toks[pos + 6].value)) && KindAt(toks, pos + 7) == T_GT
                  && KindAt(toks, pos + 8) == IDENT && s.name == toks[pos + 8].value)
  {
    hide ParseInit;
    assert TENSOR_KINDS[1] == T_LT && TENSOR_KINDS[2] == KW_INT32;
    assert KindAt(toks, pos + 1) == TENSOR_KINDS[1] && KindAt(toks, pos + 2) == TENSOR_KINDS[2];
  }

  /** The condition and the blocks of an `if`, in the order in which they stand. */
  lemma IfInOrder(toks: seq<Token>, pos: nat)
    requires KindAt(toks, pos) == KW_IF && ParseStmt(toks, pos).Some?
    ensures ParseCondition(toks, pos + 1).Some? && ParseBlock(toks, ParseCondition(toks, pos + 1).value.1).Some?
    ensures var s, cond := ParseStmt(toks, pos).value.0, ParseCondition(toks, pos + 1).value;
            var thn := ParseBlock(toks, cond.1).value;
            && s.If? && s.cond == cond.0 && s.thn == thn.0 && (s.els.ElseBlock? <==> KindAt(toks, thn.1) == KW_ELSE)
            && (s.els.ElseBlock? ==>
                  var els := ParseBlock(toks, thn.1 + 1);
                  els.Some? && s.els.items == els.value.0)
  {
    hide ParseBlock;
    hide ParseCondition;
  }

  lemma WhileInOrder(toks: seq<Token>, pos: nat)
    requires KindAt(toks, pos) == KW_WHILE && ParseStmt(toks, pos).Some?
    ensures ParseCondition(toks, pos + 1).Some? && ParseBlock(toks, ParseCondition(toks, pos + 1).value.1).Some?
    ensures var s, cond := ParseStmt(toks, pos).value.0, ParseCondition(toks, pos + 1).value;
            s.While? && s.cond == cond.0 && s.body == ParseBlock(toks, cond.1).value.0
  {
    hide ParseBlock;
    hide ParseCondition;
  }

  /** Start, test and step of a `for`, each before its own token. */
  lemma HeadInOrder(toks: seq<Token>, pos: nat, start: Option<Stmt>, first: nat, test: Option<Expr>, second: nat,
                    step: Option<Stmt>, end: nat)
    requires KindAt(toks, pos) == T_LPAREN && ParseStart(toks, pos + 1) == Some((start, first))
    requires KindAt(toks, first) == T_SEMI && ParseTest(toks, first + 1) == Some((test, second))
    requires KindAt(toks, second) == T_SEMI && ParseStep(toks, second + 1) == Some((step, end))
    ensures ParseHead(toks, pos) == if KindAt(toks, end) == T_RPAREN then Some((Head(start, test, step), end + 1)) else None
  {
    hide ParseStart;
    hide ParseTest;
    hide ParseStep;
  }

  /** The head of a `for` and then its body. */
  lemma ForInOrder(toks: seq<Token>, pos: nat)
    requires KindAt(toks, pos) == KW_FOR && ParseStmt(toks, pos).Some?
    ensures ParseHead(toks, pos + 1).Some? && ParseBlock(toks, ParseHead(toks, pos + 1).value.1).Some?
    ensures var s, head := ParseStmt(toks, pos).value.0, ParseHead(toks, pos + 1).value;
            && s.For? && s.start == head.0.start && s.test == head.0.test && s.step == head.0.step
            && s.body == ParseBlock(toks, head.1).value.0
  {
    hide ParseHead;
    hide ParseBlock;
  }
}
