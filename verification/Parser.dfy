/** The recursive-descent parser with its cursor (src/maps-compiler/tensorc/parser.py).  A compile error is `None`.  Every
    method terminates on every token list, leaves the cursor at or before EOF and reads exactly what the grammar's
    function for it reads. */
module Parser {
  import opened Options
  import opened Lists
  import opened TensorAst
  import opened Tokens
  import opened Grammar
  import opened Syntax

  class Parser {
    const tokens: seq<Token>
    var pos: nat

    ghost predicate Valid()
      reads this
    {
      EndsInEof(tokens) && pos < |tokens|
    }

    /** The outcome the grammar gives: its value with the cursor behind it, or an error. */
    predicate Gives<T(==)>(r: Option<T>, parsed: Option<(T, nat)>)
      reads this
    {
      if parsed.Some? then r == Some(parsed.value.0) && pos == parsed.value.1 else r == None
    }

    constructor (tokens: seq<Token>)
      requires EndsInEof(tokens)
      ensures Valid() && this.tokens == tokens && pos == 0
    {
      this.tokens, pos := tokens, 0;
    }

    // ----- the cursor -----

    predicate Check(kind: Kind)
      reads this
    {
      KindAt(tokens, pos) == kind
    }

    method Match(kind: Kind) returns (matched: bool)
      requires Valid() && kind != EOF
      modifies this
      ensures Valid() && matched == old(Check(kind)) && pos == old(pos) + if matched then 1 else 0
    {
      if !Check(kind) { return false; }
      pos := pos + 1;
      return true;
    }

    method Expect(kind: Kind) returns (token: Option<Token>)
      requires Valid() && kind != EOF
      modifies this
      ensures Valid() && (token.Some? <==> old(Check(kind)))
      ensures if token.Some? then token == Some(tokens[old(pos)]) && pos == old(pos) + 1 else pos == old(pos)
    {
      if !Check(kind) { return None; }
      token := Some(tokens[pos]);
      pos := pos + 1;
    }

    /** Consecutive tokens of given kinds. */
    method ExpectAll(kinds: seq<Kind>) returns (values: Option<seq<string>>)
      requires Valid() && EOF !in kinds
      modifies this
      ensures Valid() && (values.Some? <==> KindsAt(tokens, old(pos), kinds))
      ensures values.Some? ==> pos == old(pos) + |kinds| && |values.value| == |kinds|
      ensures values.Some? ==> forall i :: 0 <= i < |kinds| ==> values.value[i] == tokens[old(pos) + i].value
    {
      var list := [];
      for i := 0 to |kinds|
        invariant Valid() && pos == old(pos) + i && |list| == i
        invariant forall j :: 0 <= j < i ==>
                    KindAt(tokens, old(pos) + j) == kinds[j] && list[j] == tokens[old(pos) + j].value
      {
        var token := Expect(kinds[i]);
        if token.None? { return None; }
        list := list + [token.value.value];
      }
      values := Some(list);
    }

    // ----- expressions -----

    /** The four rungs of binary operators, and the unary rung. */
    method Level(level: nat) returns (e: Option<Expr>)
      requires Valid() && level <= UNARY
      modifies this
      ensures Valid() && Gives(e, ParseLevel(tokens, old(pos), level))
      decreases |tokens| - pos, UNARY - level + 2
    {
      hide ParseUnary;
      if level == UNARY {
        e := UnaryExpr();
        return;
      }
      e := Level(level + 1);
      if e.None? { return; }
      while OperatorAt(KindAt(tokens, pos), level).Some?
        invariant Valid() && old(pos) < pos && e.Some?
        invariant ParseLevel(tokens, old(pos), level) == ParseMore(tokens, pos, level, e.value)
        decreases |tokens| - pos
      {
        var op := OperatorAt(KindAt(tokens, pos), level).value;
        pos := pos + 1;
        var right := Level(level + 1);
        if right.None? { return None; }
        e := Some(Binary(op, e.value, right.value));
      }
    }

    method Expression() returns (e: Option<Expr>)
      requires Valid()
      modifies this
      ensures Valid() && Gives(e, ParseLevel(tokens, old(pos), 0))
      decreases |tokens| - pos, UNARY + 3
    {
      e := Level(0);
    }

    method UnaryExpr() returns (e: Option<Expr>)
      requires Valid()
      modifies this
      ensures Valid() && Gives(e, ParseUnary(tokens, old(pos)))
      decreases |tokens| - pos, 1
    {
      var op := UnaryOfKind(KindAt(tokens, pos));
      if op.None? {
        e := Primary();
        return;
      }
      pos := pos + 1;
      var x := UnaryExpr();
      e := if x.Some? then Some(Unary(op.value, x.value)) else None;
    }

    method Primary() returns (e: Option<Expr>)
      requires Valid()
      modifies this
      ensures Valid() && Gives(e, ParsePrimary(tokens, old(pos)))
      decreases |tokens| - pos, 0
    {
      hide ParseLevel;
      hide ParseArgs;
      var first := tokens[pos];
      if first.kind == NUMBER {
        pos := pos + 1;
        return Some(IntLiteral(ToInt(first.value)));
      }
      if first.kind == T_LPAREN {
        pos := pos + 1;
        e := Expression();
        if e.None? { return; }
        var close := Expect(T_RPAREN);
        if close.None? { return None; }
        return;
      }
      if first.kind != IDENT { return None; }
      pos := pos + 1;
      var call := Match(T_LPAREN);
      if call {
        e := CallRest(first.value);
        return;
      }
      var index := Match(T_LBRACKET);
      if index {
        e := IndexRest(first.value);
        return;
      }
      return Some(VarRef(first.value));
    }

    /** The arguments of a call whose opening parenthesis has been read. */
    method CallRest(name: string) returns (e: Option<Expr>)
      requires Valid() && pos >= 2 && tokens[pos - 2] == Token(IDENT, name) && tokens[pos - 1].kind == T_LPAREN
      modifies this
      ensures Valid() && Gives(e, ParsePrimary(tokens, old(pos) - 2))
      decreases |tokens| - pos, UNARY + 5
    {
      hide ParseLevel;
      hide ParseArgs;
      var empty := Match(T_RPAREN);
      if empty { return Some(Call(name, [])); }
      var args := Arguments();
      if args.None? { return None; }
      var close := Expect(T_RPAREN);
      e := if close.Some? then Some(Call(name, args.value)) else None;
    }

    method Arguments() returns (args: Option<seq<Expr>>)
      requires Valid()
      modifies this
      ensures Valid() && Gives(args, ParseArgs(tokens, old(pos)))
      decreases |tokens| - pos, UNARY + 4
    {
      hide ParseLevel;
      hide ParseArgs;
      hide Continues;
      ghost var whole := ParseArgs(tokens, pos);
      ArgsUnfold(tokens, pos);
      ContinuesBegin(whole);
      var first := Expression();
      if first.None? { return None; }
      ContinuesStep(whole, [], first.value, MoreArgs(tokens, pos));
      var list := [] + [first.value];
      while Check(T_COMMA)
        invariant Valid() && old(pos) < pos && Continues(whole, list, MoreArgs(tokens, pos))
        decreases |tokens| - pos
      {
        pos := pos + 1;
        ArgsUnfold(tokens, pos);
        var next := Expression();
        if next.None? {
          ContinuesFails(whole, list);
          return None;
        }
        ContinuesStep(whole, list, next.value, MoreArgs(tokens, pos));
        list := list + [next.value];
      }
      ContinuesEnd(whole, list, pos);
      args := Some(list);
    }

    /** The two indices of a tensor element, after its first opening bracket. */
    method IndexRest(name: string) returns (e: Option<Expr>)
      requires Valid() && pos >= 2 && tokens[pos - 2] == Token(IDENT, name) && tokens[pos - 1].kind == T_LBRACKET
      modifies this
      ensures Valid() && Gives(e, ParsePrimary(tokens, old(pos) - 2))
      decreases |tokens| - pos, UNARY + 4
    {
      hide ParseLevel;
      hide ParseArgs;
      var row := Expression();
      if row.None? { return None; }
      var close := Expect(T_RBRACKET);
      if close.None? { return None; }
      var open := Expect(T_LBRACKET);
      if open.None? { return None; }
      var col := Expression();
      if col.None? { return None; }
      close := Expect(T_RBRACKET);
      e := if close.Some? then Some(TensorIndex(name, row.value, col.value, 0)) else None;
    }

    // ----- tensor literals -----

    method Number() returns (n: Option<int>)
      requires Valid()
      modifies this
      ensures Valid() && Gives(n, ParseNumber(tokens, old(pos)))
    {
      var minus := Match(T_MINUS);
      var token := Expect(NUMBER);
      if token.None? { return None; }
      n := Some(if minus then -ToInt(token.value.value) else ToInt(token.value.value));
    }

    method RowLiteral() returns (row: Option<seq<int>>)
      requires Valid()
      modifies this
      ensures Valid() && Gives(row, ParseRow(tokens, old(pos)))
    {
      hide ParseNumber;
      hide Continues;
      var open := Expect(T_LBRACKET);
      if open.None? { return None; }
      ghost var whole := ParseNumbers(tokens, pos);
      ContinuesBegin(whole);
      var n := Number();
      if n.None? { return None; }
      ContinuesStep(whole, [], n.value, MoreNumbers(tokens, pos));
      var list := [] + [n.value];
      while Check(T_COMMA)
        invariant Valid() && old(pos) < pos && Continues(whole, list, MoreNumbers(tokens, pos))
        decreases |tokens| - pos
      {
        pos := pos + 1;
        n := Number();
        if n.None? {
          ContinuesFails(whole, list);
          return None;
        }
        ContinuesStep(whole, list, n.value, MoreNumbers(tokens, pos));
        list := list + [n.value];
      }
      ContinuesEnd(whole, list, pos);
      var close := Expect(T_RBRACKET);
      row := if close.Some? then Some(list) else None;
    }

    method MatrixLiteral() returns (rows: Option<seq<seq<int>>>)
      requires Valid()
      modifies this
      ensures Valid() && Gives(rows, ParseMatrix(tokens, old(pos)))
    {
      hide ParseRow;
      hide Continues;
      var open := Expect(T_LBRACKET);
      if open.None? { return None; }
      ghost var whole := ParseRows(tokens, pos);
      ContinuesBegin(whole);
      var row := RowLiteral();
      if row.None? { return None; }
      ContinuesStep(whole, [], row.value, MoreRows(tokens, pos));
      var list := [] + [row.value];
      while Check(T_COMMA)
        invariant Valid() && old(pos) < pos && Continues(whole, list, MoreRows(tokens, pos))
        decreases |tokens| - pos
      {
        pos := pos + 1;
        row := RowLiteral();
        if row.None? {
          ContinuesFails(whole, list);
          return None;
        }
        ContinuesStep(whole, list, row.value, MoreRows(tokens, pos));
        list := list + [row.value];
      }
      ContinuesEnd(whole, list, pos);
      var close := Expect(T_RBRACKET);
      rows := if close.Some? then Some(list) else None;
    }

    // ----- statements -----

    method Statement() returns (s: Option<Stmt>)
      requires Valid()
      modifies this
      ensures Valid() && Gives(s, ParseStmt(tokens, old(pos)))
      decreases |tokens| - pos, 1
    {
      hide KindAt;
      hide Ended;
      hide ParseTensor;
      hide ParseVar;
      hide ParseGemm;
      hide ParsePrint;
      hide ParseIf;
      hide ParseWhile;
      hide ParseFor;
      hide ParseReturn;
      hide ParseAssignOrExpr;
      if Check(KW_TENSOR) { s := TensorDeclaration(); return; }
      if Check(KW_INT32) {
        s := VarDeclaration();
        if s.Some? { s := Terminated(s.value); }
        return;
      }
      if Check(KW_GEMM) { s := GemmStatement(); return; }
      if Check(KW_PRINT) { s := PrintStatement(); return; }
      if Check(KW_IF) { s := IfStatement(); return; }
      if Check(KW_WHILE) { s := WhileStatement(); return; }
      if Check(KW_FOR) { s := ForStatement(); return; }
      if Check(KW_RETURN) { s := ReturnStatement(); return; }
      s := AssignmentOrExpr();
      if s.Some? { s := Terminated(s.value); }
    }

    method Terminated(s: Stmt) returns (r: Option<Stmt>)
      requires Valid()
      modifies this
      ensures Valid() && Gives(r, Ended(s, tokens, old(pos)))
    {
      var semi := Expect(T_SEMI);
      r := if semi.Some? then Some(s) else None;
    }

    method TensorDeclaration() returns (s: Option<Stmt>)
      requires Valid()
      modifies this
      ensures Valid() && Gives(s, ParseTensor(tokens, old(pos)))
    {
      hide ParseShape;
      hide ParseInit;
      hide KindsAt;
      hide Ended;
      var opening := ExpectAll(TENSOR_KINDS);
      if opening.None? { return None; }
      var shape := Shape();
      if shape.None? { return None; }
      var token := Expect(T_GT);
      if token.None? { return None; }
      var name := Expect(IDENT);
      if name.None? { return None; }
      var init := Initializer();
      if init.None? { return None; }
      s := Terminated(TensorDecl(name.value.value, shape.value.0, shape.value.1, init.value));
    }

    method Shape() returns (shape: Option<(Option<int>, Option<int>)>)
      requires Valid()
      modifies this
      ensures Valid() && Gives(shape, ParseShape(tokens, old(pos)))
    {
      hide ParseNumber;
      var shaped := Match(T_COMMA);
      if !shaped { return Some((None, None)); }
      var rows := Number();
      if rows.None? { return None; }
      var comma := Expect(T_COMMA);
      if comma.None? { return None; }
      var cols := Number();
      shape := if cols.Some? then Some((rows, cols)) else None;
    }

    method Initializer() returns (init: Option<Option<seq<seq<int>>>>)
      requires Valid()
      modifies this
      ensures Valid() && Gives(init, ParseInit(tokens, old(pos)))
    {
      hide ParseMatrix;
      var equal := Match(T_EQUAL);
      if !equal { return Some(None); }
      var rows := MatrixLiteral();
      init := if rows.Some? then Some(rows) else None;
    }

    method VarDeclaration() returns (s: Option<Stmt>)
      requires Valid()
      modifies this
      ensures Valid() && Gives(s, ParseVar(tokens, old(pos)))
    {
      hide ParseLevel;
      var kw := Expect(KW_INT32);
      if kw.None? { return None; }
      var name := Expect(IDENT);
      if name.None? { return None; }
      var equal := Match(T_EQUAL);
      if !equal { return Some(VarDecl(name.value.value, IntLiteral(0))); }
      var init := Expression();
      s := if init.Some? then Some(VarDecl(name.value.value, init.value)) else None;
    }

    method AssignmentOrExpr() returns (s: Option<Stmt>)
      requires Valid()
      modifies this
      ensures Valid() && Gives(s, ParseAssignOrExpr(tokens, old(pos)))
    {
      hide ParseLevel;
      var target := Expression();
      if target.None? { return None; }
      var equal := Match(T_EQUAL);
      if !equal { return Some(ExprStmt(target.value)); }
      var value := Expression();
      s := if value.Some? then Some(Assign(target.value, value.value)) else None;
    }

    method GemmStatement() returns (s: Option<Stmt>)
      requires Valid()
      modifies this
      ensures Valid() && Gives(s, ParseGemm(tokens, old(pos)))
    {
      var values := ExpectAll(GEMM_KINDS);
      if values.None? { return None; }
      s := Some(Gemm(values.value[2], values.value[4], values.value[6], 0, 0, 0));
    }

    method PrintStatement() returns (s: Option<Stmt>)
      requires Valid()
      modifies this
      ensures Valid() && Gives(s, ParsePrint(tokens, old(pos)))
    {
      var values := ExpectAll(PRINT_KINDS);
      if values.None? { return None; }
      s := Some(Print(values.value[2]));
    }

    method ReturnStatement() returns (s: Option<Stmt>)
      requires Valid() && Check(KW_RETURN)
      modifies this
      ensures Valid() && Gives(s, ParseReturn(tokens, old(pos)))
    {
      hide ParseLevel;
      pos := pos + 1;
      var value := Expression();
      if value.None? { return None; }
      s := Terminated(Return(value.value));
    }

    method Block() returns (items: Option<seq<Stmt>>)
      requires Valid()
      modifies this
      ensures Valid() && Gives(items, ParseBlock(tokens, old(pos)))
      decreases |tokens| - pos, 2
    {
      hide ParseStmt;
      hide Continues;
      var open := Expect(T_LBRACE);
      if open.None? { return None; }
      ghost var whole := ParseItems(tokens, pos);
      var list := [];
      ContinuesBegin(whole);
      while !Check(T_RBRACE)
        invariant Valid() && old(pos) < pos && Continues(whole, list, ParseItems(tokens, pos))
        decreases |tokens| - pos
      {
        var s := Statement();
        if s.None? {
          ContinuesFails(whole, list);
          return None;
        }
        ContinuesStep(whole, list, s.value, ParseItems(tokens, pos));
        list := list + [s.value];
      }
      ContinuesEnd<Stmt, nat>(whole, list, pos + 1);
      pos := pos + 1;
      items := Some(list);
    }

    method Condition() returns (e: Option<Expr>)
      requires Valid()
      modifies this
      ensures Valid() && Gives(e, ParseCondition(tokens, old(pos)))
    {
      hide ParseLevel;
      var open := Expect(T_LPAREN);
      if open.None? { return None; }
      e := Expression();
      if e.None? { return; }
      var close := Expect(T_RPAREN);
      if close.None? { return None; }
    }

    method IfStatement() returns (s: Option<Stmt>)
      requires Valid() && Check(KW_IF)
      modifies this
      ensures Valid() && Gives(s, ParseIf(tokens, old(pos)))
      decreases |tokens| - pos, 0
    {
      hide ParseCondition;
      hide ParseBlock;
      pos := pos + 1;
      var cond := Condition();
      if cond.None? { return None; }
      var thn := Block();
      if thn.None? { return None; }
      var hasElse := Match(KW_ELSE);
      if !hasElse { return Some(If(cond.value, thn.value, NoElse)); }
      var els := Block();
      s := if els.Some? then Some(If(cond.value, thn.value, ElseBlock(els.value))) else None;
    }

    method WhileStatement() returns (s: Option<Stmt>)
      requires Valid() && Check(KW_WHILE)
      modifies this
      ensures Valid() && Gives(s, ParseWhile(tokens, old(pos)))
      decreases |tokens| - pos, 0
    {
      hide ParseCondition;
      hide ParseBlock;
      pos := pos + 1;
      var cond := Condition();
      if cond.None? { return None; }
      var body := Block();
      s := if body.Some? then Some(While(cond.value, body.value)) else None;
    }

    method ForStatement() returns (s: Option<Stmt>)
      requires Valid() && Check(KW_FOR)
      modifies this
      ensures Valid() && Gives(s, ParseFor(tokens, old(pos)))
      decreases |tokens| - pos, 0
    {
      hide ParseHead;
      hide ParseBlock;
      pos := pos + 1;
      var head := ForHead();
      if head.None? { return None; }
      var body := Block();
      s := if body.Some? then Some(For(head.value.start, head.value.test, head.value.step, body.value)) else None;
    }

    method ForHead() returns (head: Option<Head>)
      requires Valid()
      modifies this
      ensures Valid() && Gives(head, ParseHead(tokens, old(pos)))
    {
      hide ParseStart;
      hide ParseTest;
      hide ParseStep;
      var token := Expect(T_LPAREN);
      if token.None? { return None; }
      var start := ForStart();
      if start.None? { return None; }
      token := Expect(T_SEMI);
      if token.None? { return None; }
      var test := ForTest();
      if test.None? { return None; }
      token := Expect(T_SEMI);
      if token.None? { return None; }
      var step := ForStep();
      if step.None? { return None; }
      token := Expect(T_RPAREN);
      head := if token.Some? then Some(Head(start.value, test.value, step.value)) else None;
    }

    method ForStart() returns (start: Option<Option<Stmt>>)
      requires Valid()
      modifies this
      ensures Valid() && Gives(start, ParseStart(tokens, old(pos)))
    {
      hide ParseVar;
      hide ParseAssignOrExpr;
      if Check(T_SEMI) { return Some(None); }
      var s;
      if Check(KW_INT32) { s := VarDeclaration(); } else { s := AssignmentOrExpr(); }
      start := if s.Some? then Some(s) else None;
    }

    method ForTest() returns (test: Option<Option<Expr>>)
      requires Valid()
      modifies this
      ensures Valid() && Gives(test, ParseTest(tokens, old(pos)))
    {
      hide ParseLevel;
      if Check(T_SEMI) { return Some(None); }
      var e := Expression();
      test := if e.Some? then Some(e) else None;
    }

    method ForStep() returns (step: Option<Option<Stmt>>)
      requires Valid()
      modifies this
      ensures Valid() && Gives(step, ParseStep(tokens, old(pos)))
    {
      hide ParseAssignOrExpr;
      if Check(T_RPAREN) { return Some(None); }
      var s := AssignmentOrExpr();
      step := if s.Some? then Some(s) else None;
    }

    // ----- programs -----

    method Param() returns (name: Option<string>)
      requires Valid()
      modifies this
      ensures Valid() && Gives(name, ParseParam(tokens, old(pos)))
    {
      var kw := Expect(KW_INT32);
      if kw.None? { return None; }
      var token := Expect(IDENT);
      name := if token.Some? then Some(token.value.value) else None;
    }

    method ParamList() returns (params: Option<seq<string>>)
      requires Valid()
      modifies this
      ensures Valid() && Gives(params, ParseParamList(tokens, old(pos)))
    {
      hide ParseParam;
      hide Continues;
      if Check(T_RPAREN) { return Some([]); }
      ghost var whole := ParseParams(tokens, pos);
      ContinuesBegin(whole);
      var p := Param();
      if p.None? { return None; }
      ContinuesStep(whole, [], p.value, MoreParams(tokens, pos));
      var list := [] + [p.value];
      while Check(T_COMMA)
        invariant Valid() && old(pos) < pos && Continues(whole, list, MoreParams(tokens, pos))
        decreases |tokens| - pos
      {
        pos := pos + 1;
        p := Param();
        if p.None? {
          ContinuesFails(whole, list);
          return None;
        }
        ContinuesStep(whole, list, p.value, MoreParams(tokens, pos));
        list := list + [p.value];
      }
      ContinuesEnd(whole, list, pos);
      params := Some(list);
    }

    method FunctionDeclaration() returns (fn: Option<Function>)
      requires Valid()
      modifies this
      ensures Valid() && Gives(fn, ParseFunction(tokens, old(pos)))
    {
      hide ParseParamList;
      hide ParseBlock;
      hide KindsAt;
      var opening := ExpectAll(FUNCTION_KINDS);
      if opening.None? { return None; }
      var params := ParamList();
      if params.None? { return None; }
      var closing := ExpectAll(RESULT_KINDS);
      if closing.None? { return None; }
      var body := Block();
      fn := if body.Some? then Some(Function(opening.value[1], params.value, body.value)) else None;
    }

    method Declaration() returns (d: Option<Decl>)
      requires Valid()
      modifies this
      ensures Valid() && Gives(d, ParseDecl(tokens, old(pos)))
    {
      hide ParseFunction;
      hide ParseStmt;
      if Check(KW_FN) {
        var fn := FunctionDeclaration();
        return if fn.Some? then Some(FunctionDecl(fn.value)) else None;
      }
      var s := Statement();
      d := if s.Some? then Some(Decl.Statement(s.value)) else None;
    }

    /** A program read up to EOF, or a compile error. */
    method Parse() returns (program: Option<seq<Decl>>)
      requires Valid()
      modifies this
      ensures Valid() && Gives(program, ParseDecls(tokens, old(pos))) && (program.Some? ==> Check(EOF))
    {
      hide ParseDecl;
      hide Continues;
      ghost var whole := ParseDecls(tokens, pos);
      var decls := [];
      ContinuesBegin(whole);
      while !Check(EOF)
        invariant Valid() && Continues(whole, decls, ParseDecls(tokens, pos))
        decreases |tokens| - pos
      {
        var d := Declaration();
        if d.None? {
          ContinuesFails(whole, decls);
          return None;
        }
        ContinuesStep(whole, decls, d.value, ParseDecls(tokens, pos));
        decls := decls + [d.value];
      }
      ContinuesEnd(whole, decls, pos);
      program := Some(decls);
    }
  }

  /** What an argument list still holds after some of its arguments: nothing, or a comma and more. */
  function MoreArgs(toks: seq<Token>, pos: nat): Option<(seq<Expr>, nat)>
  {
    if KindAt(toks, pos) != T_COMMA then Some(([], pos)) else ParseArgs(toks, pos + 1)
  }

  lemma ArgsUnfold(toks: seq<Token>, pos: nat)
    ensures var e := ParseLevel(toks, pos, 0);
            ParseArgs(toks, pos) ==
              if e.None? then None
              else var rest := MoreArgs(toks, e.value.1);
                   if rest.Some? then Some(([e.value.0] + rest.value.0, rest.value.1)) else None
  {
    hide ParseLevel;
    var e := ParseLevel(toks, pos, 0);
    if e.Some? { assert [e.value.0] + [] == [e.value.0]; }
  }
}
