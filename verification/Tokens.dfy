/** Tokens of TensorC (src/maps-compiler/tensorc/tokens.py, src/maps-compiler/tensorc/lexer.py) and their decimal numbers. */
module Tokens {
  import opened Options
  import opened TensorAst

  /** One name for each token kind; an operator's text is determined by its kind. */
  datatype Kind =
    | EOF | NUMBER | IDENT | STRING
    | KW_TENSOR | KW_INT32 | KW_GEMM | KW_PRINT | KW_RETURN | KW_IF | KW_ELSE | KW_WHILE | KW_FOR | KW_FN
    | T_LT | T_GT | T_COMMA | T_SEMI | T_EQUAL | T_LBRACKET | T_RBRACKET | T_LPAREN | T_RPAREN | T_LBRACE | T_RBRACE
    | T_PLUS | T_MINUS | T_STAR | T_SLASH | T_PERCENT | T_BANG | T_ARROW | T_EQEQ | T_NEQ | T_LTE | T_GTE

  datatype Token = Token(kind: Kind, value: string)

  /** What the parser needs of the lexer: an EOF at the end.  (A number's text is a string of ASCII digits.) */
  predicate EndsInEof(toks: seq<Token>)
  {
    |toks| > 0 && toks[|toks| - 1].kind == EOF
  }

  predicate IsDigit(ch: char)
  {
    '0' <= ch <= '9'
  }

  predicate IsDecimal(s: string)
  {
    s != "" && forall i :: 0 <= i < |s| ==> IsDigit(s[i])
  }

  /** `int` of a string of digits. */
  function ToInt(s: string): int
  {
    if s == "" then 0
    else ToInt(s[..|s| - 1]) * 10 + (if IsDigit(s[|s| - 1]) then s[|s| - 1] as int - '0' as int else 0)
  }

  /** `str` of a number that is not negative. */
  function Decimal(n: nat): (s: string)
    ensures IsDecimal(s)
  {
    var last := ['0' + (n % 10) as char];
    if n < 10 then last else Decimal(n / 10) + last
  }

  lemma {:induction false} DecimalReadBack(n: nat)
    ensures ToInt(Decimal(n)) == n
  {
    var s := Decimal(n);
    assert s[|s| - 1] as int - '0' as int == n % 10;
    if n >= 10 {
      DecimalReadBack(n / 10);
      assert s[..|s| - 1] == Decimal(n / 10);
    } else {
      assert s[..|s| - 1] == "";
    }
  }

  // ----- operators -----

  function BinaryKind(op: BinaryOp): Kind
  {
    match op
    case ADD => T_PLUS case SUB => T_MINUS case MUL => T_STAR case DIV => T_SLASH case MOD => T_PERCENT
    case EQ => T_EQEQ case NE => T_NEQ case LT => T_LT case GT => T_GT case LE => T_LTE case GE => T_GTE
  }

  function BinaryOfKind(kind: Kind): Option<BinaryOp>
  {
    match kind
    case T_PLUS => Some(ADD) case T_MINUS => Some(SUB) case T_STAR => Some(MUL) case T_SLASH => Some(DIV)
    case T_PERCENT => Some(MOD) case T_EQEQ => Some(EQ) case T_NEQ => Some(NE) case T_LT => Some(LT)
    case T_GT => Some(GT) case T_LTE => Some(LE) case T_GTE => Some(GE)
    case _ => None
  }

  function UnaryKind(op: UnaryOp): Kind
  {
    match op case NEG => T_MINUS case NOT => T_BANG
  }

  function UnaryOfKind(kind: Kind): Option<UnaryOp>
  {
    match kind case T_MINUS => Some(NEG) case T_BANG => Some(NOT) case _ => None
  }

  /** The rung of the precedence ladder an operator belongs to: equality, comparison, term, factor. */
  function Rung(op: BinaryOp): nat
  {
    match op
    case EQ => 0 case NE => 0
    case LT => 1 case GT => 1 case LE => 1 case GE => 1
    case ADD => 2 case SUB => 2
    case MUL => 3 case DIV => 3 case MOD => 3
  }

  /** The operator of rung `level` that a kind stands for. */
  function OperatorAt(kind: Kind, level: nat): Option<BinaryOp>
  {
    var op := BinaryOfKind(kind);
    if op.Some? && Rung(op.value) == level then op else None
  }

  /** Digits count tens to the left: 42 is four tens and two. */
  lemma DigitsCount(s: string, digit: char)
    requires IsDigit(digit)
    ensures ToInt(s + [digit]) == 10 * ToInt(s) + (digit as int - 48) && ToInt("") == 0
    ensures Decimal(42) == "42" && ToInt("42") == 42
  {
    assert (s + [digit])[..|s|] == s;
    assert Decimal(4) == "4";
    assert "42"[..1] == "4" && "4"[..0] == "";
    assert ToInt("4") == 4;
  }
}
