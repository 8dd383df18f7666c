/** What the expression parser computes, as functions of the token list and the cursor, and how expressions are written:
    with any redundant parentheses, and as the code generator prints them.  Parsing undoes writing. */
module Grammar {
  import opened Options
  import opened TensorAst
  import opened Tokens

  const UNARY: nat := 4

  function KindAt(toks: seq<Token>, pos: nat): Kind
  {
    if pos < |toks| then toks[pos].kind else EOF
  }

  /** An expression and the cursor after it, `None` for a compile error. */
  type Parsed = Option<(Expr, nat)>

  /** Rung `level` of the ladder; rung 4 is the unary operators. */
  function ParseLevel(toks: seq<Token>, pos: nat, level: nat): (r: Parsed)
    requires level <= UNARY
    ensures r.Some? ==> pos < r.value.1 <= |toks|
    decreases |toks| - pos, UNARY - level + 2, 0
  {
    if level == UNARY then ParseUnary(toks, pos) else
    match ParseLevel(toks, pos, level + 1)
    case Some((left, next)) => ParseMore(toks, next, level, left)
    case None => None
  }

  /** The loop of a rung: as long as one of its operators follows, it takes another operand. */
  function ParseMore(toks: seq<Token>, pos: nat, level: nat, left: Expr): (r: Parsed)
    requires level < UNARY && pos <= |toks|
    ensures r.Some? ==> pos <= r.value.1 <= |toks|
    decreases |toks| - pos, UNARY - level + 2, 1
  {
    var op := OperatorAt(KindAt(toks, pos), level);
    if op.None? then Some((left, pos)) else
    match ParseLevel(toks, pos + 1, level + 1)
    case Some((right, next)) => ParseMore(toks, next, level, Binary(op.value, left, right))
    case None => None
  }

  function ParseUnary(toks: seq<Token>, pos: nat): (r: Parsed)
    ensures r.Some? ==> pos < r.value.1 <= |toks|
    decreases |toks| - pos, 1, 0
  {
    var op := UnaryOfKind(KindAt(toks, pos));
    if op.None? then ParsePrimary(toks, pos) else
    match ParseUnary(toks, pos + 1)
    case Some((x, next)) => Some((Unary(op.value, x), next))
    case None => None
  }

  function ParsePrimary(toks: seq<Token>, pos: nat): (r: Parsed)
    ensures r.Some? ==> pos < r.value.1 <= |toks|
    decreases |toks| - pos, 0, 0
  {
    match KindAt(toks, pos)
    case NUMBER => Some((IntLiteral(ToInt(toks[pos].value)), pos + 1))
    case T_LPAREN =>
      (match ParseLevel(toks, pos + 1, 0)
       case Some((e, next)) => if KindAt(toks, next) == T_RPAREN then Some((e, next + 1)) else None
       case None => None)
    case IDENT =>
      var name := toks[pos].value;
      if KindAt(toks, pos + 1) == T_LPAREN then
        if KindAt(toks, pos + 2) == T_RPAREN then Some((Call(name, []), pos + 3)) else
        (match ParseArgs(toks, pos + 2)
         case Some((args, next)) => if KindAt(toks, next) == T_RPAREN then Some((Call(name, args), next + 1)) else None
         case None => None)
      else if KindAt(toks, pos + 1) == T_LBRACKET then
        (match ParseLevel(toks, pos + 2, 0)
         case Some((row, next)) =>
           if KindAt(toks, next) != T_RBRACKET || KindAt(toks, next + 1) != T_LBRACKET then None else
           (match ParseLevel(toks, next + 2, 0)
            case Some((col, end)) =>
              if KindAt(toks, end) == T_RBRACKET then Some((TensorIndex(name, row, col, 0), end + 1)) else None
            case None => None)
         case None => None)
      else Some((VarRef(name), pos + 1))
    case _ => None
  }

  /** One or more arguments, separated by commas. */
  function ParseArgs(toks: seq<Token>, pos: nat): (r: Option<(seq<Expr>, nat)>)
    ensures r.Some? ==> pos < r.value.1 <= |toks| && r.value.0 != []
    decreases |toks| - pos, UNARY + 3, 0
  {
    match ParseLevel(toks, pos, 0)
    case Some((e, next)) =>
      if KindAt(toks, next) != T_COMMA then Some(([e], next)) else
      (match ParseArgs(toks, next + 1)
       case Some((rest, end)) => Some(([e] + rest, end))
       case None => None)
    case None => None
  }

  /** A token with which a written expression begins. */
  predicate Starts(kind: Kind)
  {
    kind == NUMBER || kind == IDENT || kind == T_LPAREN || kind == T_MINUS || kind == T_BANG
  }

  /** A token that does not go on with an expression of rung `level` or higher: none of their operators, no opening
      bracket and no opening parenthesis. */
  ghost predicate Quiet(kind: Kind, level: nat)
  {
    kind != T_LPAREN && kind != T_LBRACKET && forall l :: level <= l ==> OperatorAt(kind, l).None?
  }

  /** A token that goes on with no expression. */
  predicate Stops(kind: Kind)
  {
    BinaryOfKind(kind).None? && kind != T_LPAREN && kind != T_LBRACKET
  }

  lemma StopsIsQuiet(kind: Kind)
    requires Stops(kind)
    ensures Quiet(kind, 0)
  {
  }

  /** After an operand stands an operator of a lower rung, or its own. */
  lemma OperatorIsQuiet(op: BinaryOp)
    ensures OperatorAt(BinaryKind(op), Rung(op)) == Some(op) && Rung(op) < UNARY && Quiet(BinaryKind(op), Rung(op) + 1)
    ensures Quiet(T_RPAREN, 0)
  {
  }

  lemma ClosersAreQuiet()
    ensures Quiet(T_RPAREN, 0) && Quiet(T_RBRACKET, 0) && Quiet(T_COMMA, 0) && Quiet(T_SEMI, 0) && Quiet(T_EQUAL, 0)
  {
  }

  // ----- printing -----

  function Mark(kind: Kind): Token { Token(kind, "") }

  /** Expressions as the parser builds them: no negative literal, and no index annotated yet. */
  predicate Printable(e: Expr)
    decreases e, 1
  {
    match e
    case IntLiteral(v) => v >= 0
    case VarRef(_) => true
    case TensorIndex(_, row, col, cols) => Printable(row) && Printable(col) && cols == 0
    case Unary(_, x) => Printable(x)
    case Binary(_, x, y) => Printable(x) && Printable(y)
    case Call(_, args) => AllPrintable(args)
  }

  predicate AllPrintable(args: seq<Expr>)
    decreases args, 0
  {
    args == [] || (Printable(args[0]) && AllPrintable(args[1..]))
  }

  /** What a programmer is free to choose, place by place: `extra` is, at an expression, how many pairs of parentheses stand
      around it beyond those it needs; at a zero of a literal, whether it has a sign; at a declaration, whether an initial
      zero is left out.  `parts` are the choices within the parts; where none is recorded, none is made. */
  datatype Style = Style(extra: nat, parts: seq<Style>)
  {
    function Part(i: nat): Style
    {
      if i < |parts| then parts[i] else TERSE
    }
  }

  /** No redundant parentheses. */
  const TERSE: Style := Style(0, [])

  const PRIMARY: nat := 5

  function RungOf(e: Expr): nat
  {
    match e
    case Binary(op, _, _) => Rung(op)
    case Unary(_, _) => UNARY
    case _ => PRIMARY
  }

  function Enclose(pairs: nat, part: seq<Token>): (r: seq<Token>)
    ensures |r| == 2 * pairs + |part|
  {
    if pairs == 0 then part else [Mark(T_LPAREN)] + (Enclose(pairs - 1, part) + [Mark(T_RPAREN)])
  }

  /** The parentheses of an expression written where rung `level` is expected: one pair if its operator is of a lower
      rung, and the redundant ones. */
  function Pairs(e: Expr, level: nat, style: Style): nat
  {
    style.extra + if RungOf(e) < level then 1 else 0
  }

  /** The tokens of an expression written where rung `level` is expected. */
  function Print(e: Expr, level: nat, style: Style): (r: seq<Token>)
    requires Printable(e)
    ensures r != [] && Starts(r[0].kind)
    decreases e, 2
  {
    EnclosedStarts(Pairs(e, level, style), Bare(e, style));
    Enclose(Pairs(e, level, style), Bare(e, style))
  }

  lemma EnclosedStarts(pairs: nat, part: seq<Token>)
    requires part != [] && Starts(part[0].kind)
    ensures Enclose(pairs, part) != [] && Starts(Enclose(pairs, part)[0].kind)
  {
  }

  /** An operator leaves its own rung to its left operand, and the next one to its right operand. */
  function Bare(e: Expr, style: Style): (r: seq<Token>)
    requires Printable(e)
    ensures r != [] && Starts(r[0].kind)
    decreases e, 1
  {
    match e
    case IntLiteral(v) => [Token(NUMBER, Decimal(v))]
    case VarRef(name) => [Token(IDENT, name)]
    case TensorIndex(name, row, col, _) =>
      [Token(IDENT, name), Mark(T_LBRACKET)]
      + (Print(row, 0, style.Part(0))
         + ([Mark(T_RBRACKET), Mark(T_LBRACKET)] + (Print(col, 0, style.Part(1)) + [Mark(T_RBRACKET)])))
    case Unary(op, x) => [Mark(UnaryKind(op))] + Print(x, UNARY, style.Part(0))
    case Binary(op, x, y) =>
      Print(x, Rung(op), style.Part(0)) + ([Mark(BinaryKind(op))] + Print(y, Rung(op) + 1, style.Part(1)))
    case Call(name, args) => [Token(IDENT, name), Mark(T_LPAREN)] + (PrintArgs(args, style) + [Mark(T_RPAREN)])
  }

  function PrintArgs(args: seq<Expr>, style: Style): (r: seq<Token>)
    requires AllPrintable(args)
    decreases args, 0
  {
    if args == [] then []
    else if |args| == 1 then Print(args[0], 0, style.Part(0))
    else Print(args[0], 0, style.Part(0)) + ([Mark(T_COMMA)] + PrintArgs(args[1..], style.Part(1)))
  }

  // ----- parts of a token list -----

  /** The parser looks at the kind of a token, at the text of a name or a string and at the value of a number. */
  predicate Alike(t: Token, u: Token)
  {
    && t.kind == u.kind && (t.kind == IDENT || t.kind == STRING ==> t.value == u.value)
    && (t.kind == NUMBER ==> ToInt(t.value) == ToInt(u.value))
  }

  /** The token list reads `part` at `pos`. */
  ghost predicate Stands(part: seq<Token>, toks: seq<Token>, pos: nat)
  {
    pos + |part| <= |toks| && forall i :: 0 <= i < |part| ==> Alike(toks[pos + i], part[i])
  }

  lemma TokenAt(part: seq<Token>, toks: seq<Token>, pos: nat, i: nat)
    requires Stands(part, toks, pos) && i < |part|
    ensures pos + i < |toks| && KindAt(toks, pos + i) == part[i].kind
    ensures part[i].kind == IDENT || part[i].kind == STRING ==> toks[pos + i].value == part[i].value
  {
    assert Alike(toks[pos + i], part[i]);
  }

  lemma NumberAt(part: seq<Token>, toks: seq<Token>, pos: nat, i: nat)
    requires Stands(part, toks, pos) && i < |part| && part[i].kind == NUMBER
    ensures pos + i < |toks| && KindAt(toks, pos + i) == NUMBER && ToInt(toks[pos + i].value) == ToInt(part[i].value)
  {
    assert Alike(toks[pos + i], part[i]);
  }

  lemma TwoParts(x: seq<Token>, y: seq<Token>, toks: seq<Token>, pos: nat)
    requires Stands(x + y, toks, pos)
    ensures Stands(x, toks, pos) && Stands(y, toks, pos + |x|) && |x + y| == |x| + |y|
  {
    hide Alike;
    assert forall i :: 0 <= i < |x| ==> (x + y)[i] == x[i];
    forall i | 0 <= i < |y| ensures Alike(toks[pos + |x| + i], y[i]) {
      assert (x + y)[|x| + i] == y[i];
    }
  }

  lemma ThreeParts(x: seq<Token>, y: seq<Token>, z: seq<Token>, toks: seq<Token>, pos: nat)
    requires Stands(x + (y + z), toks, pos)
    ensures Stands(x, toks, pos) && Stands(y, toks, pos + |x|) && Stands(z, toks, pos + |x| + |y|)
    ensures |x + (y + z)| == |x| + |y| + |z|
  {
    hide Stands;
    TwoParts(x, y + z, toks, pos);
    TwoParts(y, z, toks, pos + |x|);
  }

  lemma FiveParts(x: seq<Token>, y: seq<Token>, z: seq<Token>, u: seq<Token>, v: seq<Token>, toks: seq<Token>, pos: nat)
    requires Stands(x + (y + (z + (u + v))), toks, pos)
    ensures Stands(x, toks, pos) && Stands(y, toks, pos + |x|) && Stands(z, toks, pos + |x| + |y|)
    ensures Stands(u, toks, pos + |x| + |y| + |z|) && Stands(v, toks, pos + |x| + |y| + |z| + |u|)
    ensures |x + (y + (z + (u + v)))| == |x| + |y| + |z| + |u| + |v|
  {
    hide Stands;
    ThreeParts(x, y, z + (u + v), toks, pos);
    ThreeParts(z, u, v, toks, pos + |x| + |y|);
  }

  // ----- reading back -----

  /** What a rung reads, the rungs below it read too, unless one of their operators follows. */
  lemma {:induction false} Climbs(toks: seq<Token>, pos: nat, level: nat, from: nat, e: Expr, end: nat)
    requires level <= from <= UNARY && ParseLevel(toks, pos, from) == Some((e, end)) && Quiet(KindAt(toks, end), level)
    ensures ParseLevel(toks, pos, level) == Some((e, end))
    decreases from - level
  {
    hide KindAt;
    hide OperatorAt;
    if level < from {
      Climbs(toks, pos, level + 1, from, e, end);
      NothingFollows(toks, end, level, e);
      hide ParseMore;
    }
  }

  lemma NothingFollows(toks: seq<Token>, pos: nat, level: nat, x: Expr)
    requires level < UNARY && pos <= |toks| && OperatorAt(KindAt(toks, pos), level).None?
    ensures ParseMore(toks, pos, level, x) == Some((x, pos))
  {
  }

  /** A primary expression is one of every rung. */
  lemma PrimaryClimbs(toks: seq<Token>, pos: nat, level: nat, e: Expr, end: nat)
    requires level <= UNARY && UnaryOfKind(KindAt(toks, pos)).None? && ParsePrimary(toks, pos) == Some((e, end))
    requires Quiet(KindAt(toks, end), level)
    ensures ParseLevel(toks, pos, level) == Some((e, end))
  {
    hide ParsePrimary;
    hide Quiet;
    assert ParseLevel(toks, pos, UNARY) == Some((e, end));
    Climbs(toks, pos, level, UNARY, e, end);
  }

  /** A written expression, with any redundant parentheses, is read back where it is expected, before a token that does
      not go on with it. */
  lemma ReadsBack(e: Expr, toks: seq<Token>, pos: nat, level: nat, style: Style)
    requires Printable(e) && level <= UNARY && Stands(Print(e, level, style), toks, pos)
    requires Quiet(KindAt(toks, pos + |Print(e, level, style)|), level)
    ensures ParseLevel(toks, pos, level) == Some((e, pos + |Print(e, level, style)|)) && pos < |toks|
    ensures Starts(KindAt(toks, pos))
    decreases e, 4
  {
    hide Stands;
    hide ParseLevel;
    hide Quiet;
    hide Bare;
    hide Enclose;
    TokenAt(Print(e, level, style), toks, pos, 0);
    EnclosedReadsBack(e, Pairs(e, level, style), toks, pos, level, style);
  }

  lemma {:induction false} EnclosedReadsBack(e: Expr, pairs: nat, toks: seq<Token>, pos: nat, level: nat, style: Style)
    requires Printable(e) && level <= UNARY && Stands(Enclose(pairs, Bare(e, style)), toks, pos)
    requires (pairs == 0 ==> level <= RungOf(e)) && Quiet(KindAt(toks, pos + |Enclose(pairs, Bare(e, style))|), level)
    ensures ParseLevel(toks, pos, level) == Some((e, pos + |Enclose(pairs, Bare(e, style))|))
    decreases e, 3, pairs
  {
    hide Stands;
    hide ParseLevel;
    hide ParsePrimary;
    hide Quiet;
    hide Bare;
    var end := pos + |Enclose(pairs, Bare(e, style))|;
    if pairs > 0 {
      var inner := Enclose(pairs - 1, Bare(e, style));
      EnclosedParts(inner, toks, pos);
      hide KindAt;
      OperatorIsQuiet(ADD);
      EnclosedReadsBack(e, pairs - 1, toks, pos + 1, 0, style);
      Parenthesized(toks, pos, e, pos + 1 + |inner|);
      PrimaryClimbs(toks, pos, level, e, end);
    } else {
      match e
      case Binary(_, _, _) => BinaryReadsBack(e, toks, pos, level, style);
      case Unary(_, _) => UnaryReadsBack(e, toks, pos, level, style);
      case _ => PrimaryReadsBack(e, toks, pos, level, style);
    }
  }

  /** Where the parts of a parenthesized expression stand. */
  lemma EnclosedParts(inner: seq<Token>, toks: seq<Token>, pos: nat)
    requires Stands([Mark(T_LPAREN)] + (inner + [Mark(T_RPAREN)]), toks, pos)
    ensures KindAt(toks, pos) == T_LPAREN && Stands(inner, toks, pos + 1) && KindAt(toks, pos + 1 + |inner|) == T_RPAREN
  {
    hide Stands;
    hide KindAt;
    var open, close := [Mark(T_LPAREN)], [Mark(T_RPAREN)];
    ThreeParts(open, inner, close, toks, pos);
    TokenAt(open, toks, pos, 0);
    TokenAt(close, toks, pos + 1 + |inner|, 0);
  }

  lemma Parenthesized(toks: seq<Token>, pos: nat, e: Expr, end: nat)
    requires KindAt(toks, pos) == T_LPAREN && ParseLevel(toks, pos + 1, 0) == Some((e, end)) && KindAt(toks, end) == T_RPAREN
    ensures ParsePrimary(toks, pos) == Some((e, end + 1)) && UnaryOfKind(KindAt(toks, pos)).None?
  {
    hide ParseLevel;
  }

  // ----- operators -----

  /** The loop of a rung, having read an operand of its own rung, goes on with it: operators of one rung group from the
      left. */
  lemma {:induction false} LoopGoesOn(e: Expr, pairs: nat, toks: seq<Token>, pos: nat, level: nat, style: Style)
    requires Printable(e) && level < UNARY && Stands(Enclose(pairs, Bare(e, style)), toks, pos)
    requires pairs == 0 ==> level <= RungOf(e)
    requires Quiet(KindAt(toks, pos + |Enclose(pairs, Bare(e, style))|), level + 1)
    ensures pos + |Enclose(pairs, Bare(e, style))| <= |toks|
    ensures ParseLevel(toks, pos, level) == ParseMore(toks, pos + |Enclose(pairs, Bare(e, style))|, level, e)
    decreases e, 4
  {
    hide ParseMore;
    hide Quiet;
    hide Bare;
    hide KindAt;
    if pairs == 0 && RungOf(e) == level {
      hide Stands;
      hide ParseLevel;
      OperatorTaken(e, toks, pos, style);
    } else {
      EnclosedReadsBack(e, pairs, toks, pos, level + 1, style);
    }
  }

  /** Where the parts of a binary expression stand. */
  lemma BinaryParts(e: Expr, toks: seq<Token>, pos: nat, style: Style)
    requires e.Binary? && Printable(e) && Stands(Bare(e, style), toks, pos)
    ensures var mid := pos + |Print(e.left, Rung(e.bop), style.Part(0))|;
            && Printable(e.left) && Printable(e.right)
            && Stands(Print(e.left, Rung(e.bop), style.Part(0)), toks, pos)
            && mid < |toks| && KindAt(toks, mid) == BinaryKind(e.bop)
            && Stands(Print(e.right, Rung(e.bop) + 1, style.Part(1)), toks, mid + 1)
            && pos + |Bare(e, style)| == mid + 1 + |Print(e.right, Rung(e.bop) + 1, style.Part(1))|
  {
    hide Stands;
    hide BinaryKind;
    hide KindAt;
    hide Print;
    var x, y := Print(e.left, Rung(e.bop), style.Part(0)), Print(e.right, Rung(e.bop) + 1, style.Part(1));
    var op := [Mark(BinaryKind(e.bop))];
    ThreeParts(x, op, y, toks, pos);
    TokenAt(op, toks, pos + |x|, 0);
  }

  lemma {:induction false} OperatorTaken(e: Expr, toks: seq<Token>, pos: nat, style: Style)
    requires e.Binary? && Printable(e) && Stands(Bare(e, style), toks, pos)
    requires Quiet(KindAt(toks, pos + |Bare(e, style)|), Rung(e.bop) + 1)
    ensures pos + |Bare(e, style)| <= |toks| && Rung(e.bop) < UNARY
    ensures ParseLevel(toks, pos, Rung(e.bop)) == ParseMore(toks, pos + |Bare(e, style)|, Rung(e.bop), e)
    decreases e, 0
  {
    hide Stands;
    hide ParseLevel;
    hide Quiet;
    hide Bare;
    hide BinaryKind;
    hide OperatorAt;
    hide Enclose;
    hide Printable;
    hide Rung;
    var level := Rung(e.bop);
    BinaryParts(e, toks, pos, style);
    hide KindAt;
    OperatorIsQuiet(e.bop);
    var mid := pos + |Print(e.left, level, style.Part(0))|;
    LoopGoesOn(e.left, Pairs(e.left, level, style.Part(0)), toks, pos, level, style.Part(0));
    EnclosedReadsBack(e.right, Pairs(e.right, level + 1, style.Part(1)), toks, mid + 1, level + 1, style.Part(1));
    OperandAdded(toks, mid, level, e, pos + |Bare(e, style)|);
  }

  lemma OperandAdded(toks: seq<Token>, mid: nat, level: nat, e: Expr, end: nat)
    requires e.Binary? && level < UNARY && mid < |toks| && OperatorAt(KindAt(toks, mid), level) == Some(e.bop)
    requires ParseLevel(toks, mid + 1, level + 1) == Some((e.right, end))
    ensures end <= |toks| && ParseMore(toks, mid, level, e.left) == ParseMore(toks, end, level, e)
  {
    hide ParseLevel;
    hide KindAt;
    hide OperatorAt;
  }

  lemma {:induction false} BinaryReadsBack(e: Expr, toks: seq<Token>, pos: nat, level: nat, style: Style)
    requires e.Binary? && Printable(e) && level <= Rung(e.bop) && Stands(Bare(e, style), toks, pos)
    requires Quiet(KindAt(toks, pos + |Bare(e, style)|), level)
    ensures ParseLevel(toks, pos, level) == Some((e, pos + |Bare(e, style)|))
    decreases e, 2
  {
    hide Stands;
    hide ParseLevel;
    hide ParseMore;
    hide Bare;
    hide KindAt;
    hide Rung;
    OperatorIsQuiet(e.bop);
    OperatorTaken(e, toks, pos, style);
    NothingFollows(toks, pos + |Bare(e, style)|, Rung(e.bop), e);
    Climbs(toks, pos, level, Rung(e.bop), e, pos + |Bare(e, style)|);
  }

  lemma {:induction false} UnaryReadsBack(e: Expr, toks: seq<Token>, pos: nat, level: nat, style: Style)
    requires e.Unary? && Printable(e) && level <= UNARY && Stands(Bare(e, style), toks, pos)
    requires Quiet(KindAt(toks, pos + |Bare(e, style)|), level)
    ensures ParseLevel(toks, pos, level) == Some((e, pos + |Bare(e, style)|))
    decreases e, 2
  {
    hide Stands;
    hide ParsePrimary;
    hide KindAt;
    hide Quiet;
    hide Print;
    hide UnaryKind;
    var sign, x := [Mark(UnaryKind(e.uop))], Print(e.operand, UNARY, style.Part(0));
    TwoParts(sign, x, toks, pos);
    TokenAt(sign, toks, pos, 0);
    QuietAbove(KindAt(toks, pos + 1 + |x|), level, UNARY);
    UnaryOperand(e.operand, toks, pos + 1, style.Part(0));
    SignRead(toks, pos, e, pos + 1 + |x|);
    hide ParseLevel;
    Climbs(toks, pos, level, UNARY, e, pos + |Bare(e, style)|);
  }

  lemma QuietAbove(kind: Kind, level: nat, higher: nat)
    requires Quiet(kind, level) && level <= higher
    ensures Quiet(kind, higher)
  {
  }

  lemma {:induction false} UnaryOperand(x: Expr, toks: seq<Token>, pos: nat, style: Style)
    requires Printable(x) && Stands(Print(x, UNARY, style), toks, pos)
    requires Quiet(KindAt(toks, pos + |Print(x, UNARY, style)|), UNARY)
    ensures ParseUnary(toks, pos) == Some((x, pos + |Print(x, UNARY, style)|))
    decreases x, 4
  {
    hide Stands;
    hide ParseUnary;
    hide KindAt;
    hide Quiet;
    hide Bare;
    hide Enclose;
    EnclosedReadsBack(x, Pairs(x, UNARY, style), toks, pos, UNARY, style);
  }

  lemma SignRead(toks: seq<Token>, pos: nat, e: Expr, end: nat)
    requires e.Unary? && KindAt(toks, pos) == UnaryKind(e.uop) && ParseUnary(toks, pos + 1) == Some((e.operand, end))
    ensures ParseLevel(toks, pos, UNARY) == Some((e, end))
  {
    hide ParsePrimary;
    hide KindAt;
    assert UnaryOfKind(UnaryKind(e.uop)) == Some(e.uop);
  }

  // ----- primaries -----

  lemma {:induction false} PrimaryReadsBack(e: Expr, toks: seq<Token>, pos: nat, level: nat, style: Style)
    requires RungOf(e) == PRIMARY && Printable(e) && level <= UNARY && Stands(Bare(e, style), toks, pos)
    requires Quiet(KindAt(toks, pos + |Bare(e, style)|), level)
    ensures ParseLevel(toks, pos, level) == Some((e, pos + |Bare(e, style)|))
    decreases e, 2
  {
    hide Stands;
    hide ParseLevel;
    hide ParsePrimary;
    hide KindAt;
    hide UnaryOfKind;
    hide Bare;
    hide Printable;
    assert KindAt(toks, pos + |Bare(e, style)|) != T_LPAREN && KindAt(toks, pos + |Bare(e, style)|) != T_LBRACKET;
    hide Quiet;
    match e {
      case IntLiteral(_) => WordReadsBack(e, toks, pos, style);
      case VarRef(_) => WordReadsBack(e, toks, pos, style);
      case TensorIndex(_, _, _, _) => IndexReadsBack(e, toks, pos, style);
      case Call(_, _) => CallReadsBack(e, toks, pos, style);
    }
    PrimaryClimbs(toks, pos, level, e, pos + |Bare(e, style)|);
  }

  lemma WordReadsBack(e: Expr, toks: seq<Token>, pos: nat, style: Style)
    requires (e.IntLiteral? || e.VarRef?) && Printable(e) && Stands(Bare(e, style), toks, pos)
    requires KindAt(toks, pos + |Bare(e, style)|) != T_LPAREN && KindAt(toks, pos + |Bare(e, style)|) != T_LBRACKET
    ensures ParsePrimary(toks, pos) == Some((e, pos + |Bare(e, style)|)) && UnaryOfKind(KindAt(toks, pos)).None?
  {
    hide Stands;
    hide ParseLevel;
    TokenAt(Bare(e, style), toks, pos, 0);
    if e.IntLiteral? {
      NumberAt(Bare(e, style), toks, pos, 0);
      DecimalReadBack(e.value);
    }
  }

  /** Where the parts of an index stand. */
  lemma IndexParts(e: Expr, toks: seq<Token>, pos: nat, style: Style)
    requires e.TensorIndex? && Printable(e) && Stands(Bare(e, style), toks, pos)
    ensures Printable(e.row) && Printable(e.col) && e.cols == 0
    ensures var mid := pos + 2 + |Print(e.row, 0, style.Part(0))|;
            var end := mid + 2 + |Print(e.col, 0, style.Part(1))|;
            && pos < |toks| && KindAt(toks, pos) == IDENT && toks[pos].value == e.name
            && KindAt(toks, pos + 1) == T_LBRACKET && Stands(Print(e.row, 0, style.Part(0)), toks, pos + 2)
            && KindAt(toks, mid) == T_RBRACKET && KindAt(toks, mid + 1) == T_LBRACKET
            && Stands(Print(e.col, 0, style.Part(1)), toks, mid + 2)
            && KindAt(toks, end) == T_RBRACKET && pos + |Bare(e, style)| == end + 1
  {
    hide Stands;
    hide Print;
    hide KindAt;
    var head, close := [Token(IDENT, e.name), Mark(T_LBRACKET)], [Mark(T_RBRACKET)];
    var between := [Mark(T_RBRACKET), Mark(T_LBRACKET)];
    var row, col := Print(e.row, 0, style.Part(0)), Print(e.col, 0, style.Part(1));
    IndexUnfolds(e, style);
    hide Bare;
    FiveParts(head, row, between, col, close, toks, pos);
    var mid := pos + 2 + |row|;
    TokenAt(head, toks, pos, 0);
    TokenAt(head, toks, pos, 1);
    TokenAt(between, toks, mid, 0);
    TokenAt(between, toks, mid, 1);
    TokenAt(close, toks, mid + 2 + |col|, 0);
  }

  lemma IndexUnfolds(e: Expr, style: Style)
    requires e.TensorIndex? && Printable(e)
    ensures Printable(e.row) && Printable(e.col) && e.cols == 0
    ensures Bare(e, style)
         == [Token(IDENT, e.name), Mark(T_LBRACKET)]
            + (Print(e.row, 0, style.Part(0))
               + ([Mark(T_RBRACKET), Mark(T_LBRACKET)] + (Print(e.col, 0, style.Part(1)) + [Mark(T_RBRACKET)])))
  {
    hide Print;
  }

  lemma {:induction false} IndexReadsBack(e: Expr, toks: seq<Token>, pos: nat, style: Style)
    requires e.TensorIndex? && Printable(e) && Stands(Bare(e, style), toks, pos)
    ensures ParsePrimary(toks, pos) == Some((e, pos + |Bare(e, style)|)) && UnaryOfKind(KindAt(toks, pos)).None?
    decreases e, 0
  {
    hide Stands;
    hide ParseLevel;
    hide ParsePrimary;
    hide Printable;
    hide Print;
    hide Bare;
    hide Quiet;
    hide KindAt;
    hide Starts;
    IndexParts(e, toks, pos, style);
    ClosersAreQuiet();
    var mid := pos + 2 + |Print(e.row, 0, style.Part(0))|;
    ReadsBack(e.row, toks, pos + 2, 0, style.Part(0));
    ReadsBack(e.col, toks, mid + 2, 0, style.Part(1));
    Indexed(toks, pos, e, mid, mid + 2 + |Print(e.col, 0, style.Part(1))|);
  }

  lemma Indexed(toks: seq<Token>, pos: nat, e: Expr, mid: nat, end: nat)
    requires e.TensorIndex? && e.cols == 0 && pos < |toks| && KindAt(toks, pos) == IDENT && toks[pos].value == e.name
    requires KindAt(toks, pos + 1) == T_LBRACKET && ParseLevel(toks, pos + 2, 0) == Some((e.row, mid))
    requires KindAt(toks, mid) == T_RBRACKET && KindAt(toks, mid + 1) == T_LBRACKET
    requires ParseLevel(toks, mid + 2, 0) == Some((e.col, end)) && KindAt(toks, end) == T_RBRACKET
    ensures ParsePrimary(toks, pos) == Some((e, end + 1))
  {
    hide ParseLevel;
    hide ParseArgs;
  }

  lemma {:induction false} CallReadsBack(e: Expr, toks: seq<Token>, pos: nat, style: Style)
    requires e.Call? && Printable(e) && Stands(Bare(e, style), toks, pos)
    ensures ParsePrimary(toks, pos) == Some((e, pos + |Bare(e, style)|)) && UnaryOfKind(KindAt(toks, pos)).None?
    decreases e, 0
  {
    hide Stands;
    hide ParseLevel;
    hide ParseArgs;
    var head, args, close := [Token(IDENT, e.name), Mark(T_LPAREN)], PrintArgs(e.args, style), [Mark(T_RPAREN)];
    ThreeParts(head, args, close, toks, pos);
    TokenAt(head, toks, pos, 0);
    TokenAt(head, toks, pos, 1);
    TokenAt(close, toks, pos + 2 + |args|, 0);
    if e.args != [] { ArgsReadBack(e.args, toks, pos + 2, style); }
  }

  /** Where the first part, the comma and the rest stand. */
  lemma Separated(first: seq<Token>, rest: seq<Token>, toks: seq<Token>, pos: nat)
    requires Stands(first + ([Mark(T_COMMA)] + rest), toks, pos)
    ensures Stands(first, toks, pos) && KindAt(toks, pos + |first|) == T_COMMA && Stands(rest, toks, pos + |first| + 1)
    ensures |first + ([Mark(T_COMMA)] + rest)| == |first| + 1 + |rest|
  {
    hide Stands;
    hide KindAt;
    var comma := [Mark(T_COMMA)];
    ThreeParts(first, comma, rest, toks, pos);
    TokenAt(comma, toks, pos + |first|, 0);
  }

  lemma ArgsPrinted(args: seq<Expr>, style: Style)
    requires AllPrintable(args) && |args| > 1
    ensures PrintArgs(args, style)
         == Print(args[0], 0, style.Part(0)) + ([Mark(T_COMMA)] + PrintArgs(args[1..], style.Part(1)))
  {
    hide Print;
  }

  lemma {:induction false} ArgsReadBack(args: seq<Expr>, toks: seq<Token>, pos: nat, style: Style)
    requires AllPrintable(args) && args != [] && Stands(PrintArgs(args, style), toks, pos)
    requires KindAt(toks, pos + |PrintArgs(args, style)|) == T_RPAREN
    ensures ParseArgs(toks, pos) == Some((args, pos + |PrintArgs(args, style)|)) && KindAt(toks, pos) != T_RPAREN
    decreases args, 0
  {
    hide Stands;
    hide ParseLevel;
    hide ParseArgs;
    hide KindAt;
    hide Printable;
    hide Print;
    hide Quiet;
    hide Starts;
    ClosersAreQuiet();
    ClosingNeverStarts();
    if |args| == 1 {
      ReadsBack(args[0], toks, pos, 0, style.Part(0));
      LastArgument(args, toks, pos, pos + |PrintArgs(args, style)|);
    } else {
      ArgsPrinted(args, style);
      hide PrintArgs;
      Separated(Print(args[0], 0, style.Part(0)), PrintArgs(args[1..], style.Part(1)), toks, pos);
      ReadsBack(args[0], toks, pos, 0, style.Part(0));
      ArgsReadBack(args[1..], toks, pos + |Print(args[0], 0, style.Part(0))| + 1, style.Part(1));
      NextArgument(args, toks, pos, pos + |Print(args[0], 0, style.Part(0))|);
    }
  }

  lemma LastArgument(args: seq<Expr>, toks: seq<Token>, pos: nat, end: nat)
    requires |args| == 1 && ParseLevel(toks, pos, 0) == Some((args[0], end)) && KindAt(toks, end) == T_RPAREN
    ensures ParseArgs(toks, pos) == Some((args, end))
  {
    hide ParseLevel;
    hide KindAt;
    assert args == [args[0]];
  }

  lemma NextArgument(args: seq<Expr>, toks: seq<Token>, pos: nat, mid: nat)
    requires args != [] && ParseLevel(toks, pos, 0) == Some((args[0], mid)) && KindAt(toks, mid) == T_COMMA
    requires ParseArgs(toks, mid + 1).Some? && ParseArgs(toks, mid + 1).value.0 == args[1..]
    ensures ParseArgs(toks, pos) == Some((args, ParseArgs(toks, mid + 1).value.1))
  {
    hide ParseLevel;
    hide KindAt;
    assert args == [args[0]] + args[1..];
  }

  lemma ClosingNeverStarts()
    ensures !Starts(T_RPAREN)
  {
  }

  // ----- precedence, operator by operator -----

  /** Which operator binds tighter, told from the groups of the language and not from the rungs of the parser. */
  predicate Tighter(p: BinaryOp, q: BinaryOp)
  {
    || (p in {MUL, DIV, MOD} && q !in {MUL, DIV, MOD})
    || (p in {ADD, SUB} && q in {LT, GT, LE, GE, EQ, NE})
    || (p in {LT, GT, LE, GE} && q in {EQ, NE})
  }

  lemma TighterIsHigher(p: BinaryOp, q: BinaryOp)
    ensures Tighter(p, q) <==> Rung(p) > Rung(q)
  {
  }

  /** `x p y q z` without parentheses, for operands that are no operations. */
  function Mixed(x: Expr, p: BinaryOp, y: Expr, q: BinaryOp, z: Expr): seq<Token>
    requires Printable(x) && Printable(y) && Printable(z)
  {
    Bare(x, TERSE) + ([Mark(BinaryKind(p))] + (Bare(y, TERSE) + ([Mark(BinaryKind(q))] + Bare(z, TERSE))))
  }

  /** The operator that binds tighter takes the middle operand; of two that bind alike, the left one does. */
  lemma MixedOperators(x: Expr, p: BinaryOp, y: Expr, q: BinaryOp, z: Expr, toks: seq<Token>, pos: nat)
    requires Printable(x) && Printable(y) && Printable(z) && RungOf(x) == RungOf(y) == RungOf(z) == PRIMARY
    requires Stands(Mixed(x, p, y, q, z), toks, pos) && Stops(KindAt(toks, pos + |Mixed(x, p, y, q, z)|))
    ensures var e := if Tighter(q, p) then Binary(p, x, Binary(q, y, z)) else Binary(q, Binary(p, x, y), z);
            ParseLevel(toks, pos, 0) == Some((e, pos + |Mixed(x, p, y, q, z)|))
  {
    hide Stands;
    hide ParseLevel;
    hide KindAt;
    hide Quiet;
    hide Tighter;
    hide Rung;
    hide Print;
    hide Bare;
    hide Mixed;
    StopsIsQuiet(KindAt(toks, pos + |Mixed(x, p, y, q, z)|));
    hide Stops;
    TighterIsHigher(q, p);
    if Tighter(q, p) { RightFirst(x, p, y, q, z); } else { LeftFirst(x, p, y, q, z); }
    var e := if Tighter(q, p) then Binary(p, x, Binary(q, y, z)) else Binary(q, Binary(p, x, y), z);
    ReadsBack(e, toks, pos, 0, TERSE);
  }

  lemma PrimaryPrint(e: Expr, level: nat)
    requires Printable(e) && RungOf(e) == PRIMARY && level <= PRIMARY
    ensures Print(e, level, TERSE) == Bare(e, TERSE)
  {
    hide Bare;
  }

  lemma EnclosedNone(part: seq<Token>)
    ensures Enclose(0, part) == part
  {
  }

  lemma OperationPrint(op: BinaryOp, x: Expr, y: Expr, level: nat)
    requires Printable(x) && Printable(y) && level <= Rung(op) < UNARY
    ensures var e := Binary(op, x, y);
            && Printable(e) && Print(e, level, TERSE) == Bare(e, TERSE)
            && Bare(e, TERSE) == Print(x, Rung(op), TERSE) + ([Mark(BinaryKind(op))] + Print(y, Rung(op) + 1, TERSE))
  {
    EnclosedNone(Bare(Binary(op, x, y), TERSE));
    hide Enclose;
    hide Rung;
    hide BinaryKind;
  }

  lemma RightFirst(x: Expr, p: BinaryOp, y: Expr, q: BinaryOp, z: Expr)
    requires Printable(x) && Printable(y) && Printable(z) && RungOf(x) == RungOf(y) == RungOf(z) == PRIMARY
    requires Rung(q) > Rung(p)
    ensures var e := Binary(p, x, Binary(q, y, z)); Printable(e) && Print(e, 0, TERSE) == Mixed(x, p, y, q, z)
  {
    hide Printable;
    hide RungOf;
    hide Starts;
    hide Print;
    hide Bare;
    hide BinaryKind;
    hide Mark;
    OperatorIsQuiet(p);
    OperatorIsQuiet(q);
    OperationPrint(q, y, z, Rung(p) + 1);
    OperationPrint(p, x, Binary(q, y, z), 0);
    PrimaryPrint(x, Rung(p));
    PrimaryPrint(y, Rung(q));
    PrimaryPrint(z, Rung(q) + 1);
  }

  lemma LeftFirst(x: Expr, p: BinaryOp, y: Expr, q: BinaryOp, z: Expr)
    requires Printable(x) && Printable(y) && Printable(z) && RungOf(x) == RungOf(y) == RungOf(z) == PRIMARY
    requires Rung(q) <= Rung(p)
    ensures var e := Binary(q, Binary(p, x, y), z); Printable(e) && Print(e, 0, TERSE) == Mixed(x, p, y, q, z)
  {
    hide Printable;
    hide RungOf;
    hide Starts;
    hide Print;
    hide Bare;
    hide BinaryKind;
    OperatorIsQuiet(p);
    OperatorIsQuiet(q);
    OperationPrint(p, x, y, Rung(q));
    OperationPrint(q, Binary(p, x, y), z, 0);
    PrimaryPrint(x, Rung(p));
    PrimaryPrint(y, Rung(p) + 1);
    PrimaryPrint(z, Rung(q) + 1);
    Regrouped(Bare(x, TERSE), [Mark(BinaryKind(p))], Bare(y, TERSE), [Mark(BinaryKind(q))] + Bare(z, TERSE));
  }

  lemma Regrouped(a: seq<Token>, b: seq<Token>, c: seq<Token>, d: seq<Token>)
    ensures (a + (b + c)) + d == a + (b + (c + d))
  {
  }

  /** `-x op y` without parentheses. */
  function Signed(sign: UnaryOp, x: Expr, op: BinaryOp, y: Expr): seq<Token>
    requires Printable(x) && Printable(y)
  {
    [Mark(UnaryKind(sign))] + (Bare(x, TERSE) + ([Mark(BinaryKind(op))] + Bare(y, TERSE)))
  }

  /** A sign binds tighter than every operator. */
  lemma SignBindsTightest(sign: UnaryOp, x: Expr, op: BinaryOp, y: Expr, toks: seq<Token>, pos: nat)
    requires Printable(x) && Printable(y) && RungOf(x) == RungOf(y) == PRIMARY
    requires Stands(Signed(sign, x, op, y), toks, pos) && Stops(KindAt(toks, pos + |Signed(sign, x, op, y)|))
    ensures ParseLevel(toks, pos, 0) == Some((Binary(op, Unary(sign, x), y), pos + |Signed(sign, x, op, y)|))
  {
    hide Stands;
    hide ParseLevel;
    hide KindAt;
    hide Quiet;
    hide Print;
    hide Signed;
    StopsIsQuiet(KindAt(toks, pos + |Signed(sign, x, op, y)|));
    hide Stops;
    SignedPrint(sign, x, op, y);
    ReadsBack(Binary(op, Unary(sign, x), y), toks, pos, 0, TERSE);
  }

  lemma SignedPrint(sign: UnaryOp, x: Expr, op: BinaryOp, y: Expr)
    requires Printable(x) && Printable(y) && RungOf(x) == RungOf(y) == PRIMARY
    ensures var e := Binary(op, Unary(sign, x), y); Printable(e) && Print(e, 0, TERSE) == Signed(sign, x, op, y)
  {
    hide Printable;
    hide RungOf;
    hide Starts;
    hide Print;
    hide Bare;
    hide BinaryKind;
    hide UnaryKind;
    hide Rung;
    OperatorIsQuiet(op);
    SignPrint(sign, x, Rung(op));
    OperationPrint(op, Unary(sign, x), y, 0);
    PrimaryPrint(y, Rung(op) + 1);
    Regrouped([Mark(UnaryKind(sign))], Bare(x, TERSE), [], [Mark(BinaryKind(op))] + Bare(y, TERSE));
    assert Bare(x, TERSE) + [] == Bare(x, TERSE);
    assert [] + ([Mark(BinaryKind(op))] + Bare(y, TERSE)) == [Mark(BinaryKind(op))] + Bare(y, TERSE);
  }

  lemma SignPrint(sign: UnaryOp, x: Expr, level: nat)
    requires Printable(x) && RungOf(x) == PRIMARY && level <= UNARY
    ensures Printable(Unary(sign, x)) && Print(Unary(sign, x), level, TERSE) == [Mark(UnaryKind(sign))] + Bare(x, TERSE)
  {
    hide UnaryKind;
    PrimaryPrint(x, UNARY);
  }

  // ----- the printer of the code generator -----

  /** No tensor is indexed: the C text of an index is not an index of TensorC. */
  predicate IndexFree(e: Expr)
    decreases e, 1
  {
    match e
    case TensorIndex(_, _, _, _) => false
    case Unary(_, x) => IndexFree(x)
    case Binary(_, x, y) => IndexFree(x) && IndexFree(y)
    case Call(_, args) => AllIndexFree(args)
    case _ => true
  }

  predicate AllIndexFree(args: seq<Expr>)
    decreases args, 0
  {
    args == [] || (IndexFree(args[0]) && AllIndexFree(args[1..]))
  }

  /** The tokens of the text the code generator prints for an expression: a pair of parentheses around every operation. */
  function Emitted(e: Expr): seq<Token>
    requires Printable(e) && IndexFree(e)
    decreases e, 1
  {
    match e
    case IntLiteral(v) => [Token(NUMBER, Decimal(v))]
    case VarRef(name) => [Token(IDENT, name)]
    case Unary(op, x) => [Mark(T_LPAREN)] + (([Mark(UnaryKind(op))] + Emitted(x)) + [Mark(T_RPAREN)])
    case Binary(op, x, y) => [Mark(T_LPAREN)] + ((Emitted(x) + ([Mark(BinaryKind(op))] + Emitted(y))) + [Mark(T_RPAREN)])
    case Call(name, args) => [Token(IDENT, name), Mark(T_LPAREN)] + (EmittedArgs(args) + [Mark(T_RPAREN)])
  }

  /** The arguments, joined by commas. */
  function EmittedArgs(args: seq<Expr>): seq<Token>
    requires AllPrintable(args) && AllIndexFree(args)
    decreases args, 0
  {
    if args == [] then []
    else if |args| == 1 then Emitted(args[0])
    else Emitted(args[0]) + ([Mark(T_COMMA)] + EmittedArgs(args[1..]))
  }

  /** The style in which that text is written: one pair around every operation, needed or not. */
  function EveryPair(e: Expr, level: nat): Style
    decreases e, 1
  {
    var extra := if level <= RungOf(e) then 1 else 0;
    match e
    case Unary(_, x) => Style(extra, [EveryPair(x, UNARY)])
    case Binary(op, x, y) => Style(extra, [EveryPair(x, Rung(op)), EveryPair(y, Rung(op) + 1)])
    case Call(_, args) => EveryArgument(args)
    case _ => TERSE
  }

  function EveryArgument(args: seq<Expr>): (r: Style)
    ensures r.extra == 0
    decreases args, 0
  {
    if args == [] then TERSE else Style(0, [EveryPair(args[0], 0), EveryArgument(args[1..])])
  }

  lemma {:induction false} EmittedIsPrinted(e: Expr, level: nat)
    requires Printable(e) && IndexFree(e) && level <= PRIMARY
    ensures Print(e, level, EveryPair(e, level)) == Emitted(e)
    decreases e, 1
  {
    var style := EveryPair(e, level);
    assert Pairs(e, level, style) == if e.Unary? || e.Binary? then 1 else 0;
    EnclosedNone(Bare(e, style));
    match e
    case Unary(_, x) =>
      EmittedIsPrinted(x, UNARY);
      assert style.Part(0) == EveryPair(x, UNARY);
    case Binary(op, x, y) =>
      EmittedIsPrinted(x, Rung(op));
      EmittedIsPrinted(y, Rung(op) + 1);
      assert style.Part(0) == EveryPair(x, Rung(op)) && style.Part(1) == EveryPair(y, Rung(op) + 1);
    case Call(_, args) => EmittedArgsArePrinted(args);
    case _ =>
  }

  lemma {:induction false} EmittedArgsArePrinted(args: seq<Expr>)
    requires AllPrintable(args) && AllIndexFree(args)
    ensures PrintArgs(args, EveryArgument(args)) == EmittedArgs(args)
    decreases args, 0
  {
    hide Print;
    if args != [] {
      var style := EveryArgument(args);
      assert style.Part(0) == EveryPair(args[0], 0) && style.Part(1) == EveryArgument(args[1..]);
      EmittedIsPrinted(args[0], 0);
      EmittedArgsArePrinted(args[1..]);
    }
  }

  /** Printing and parsing undo each other: wherever the printed tokens of an expression stand, before a token that goes on
      with no expression, exactly that expression is read. */
  lemma EmittedReadsBack(e: Expr, toks: seq<Token>, pos: nat)
    requires Printable(e) && IndexFree(e) && Stands(Emitted(e), toks, pos) && Stops(KindAt(toks, pos + |Emitted(e)|))
    ensures ParseLevel(toks, pos, 0) == Some((e, pos + |Emitted(e)|))
  {
    hide Stands;
    hide ParseLevel;
    hide Print;
    hide Quiet;
    StopsIsQuiet(KindAt(toks, pos + |Emitted(e)|));
    EmittedIsPrinted(e, 0);
    ReadsBack(e, toks, pos, 0, EveryPair(e, 0));
  }

  // ----- operators, token by token -----

  /** `x kind y` without parentheses. */
  function Infix(x: Expr, kind: Kind, y: Expr): seq<Token>
    requires Printable(x) && Printable(y)
  {
    Bare(x, TERSE) + ([Mark(kind)] + Bare(y, TERSE))
  }

  lemma InfixPrint(op: BinaryOp, x: Expr, y: Expr)
    requires Printable(x) && Printable(y) && RungOf(x) == RungOf(y) == PRIMARY
    ensures Printable(Binary(op, x, y)) && Print(Binary(op, x, y), 0, TERSE) == Infix(x, BinaryKind(op), y)
  {
    hide RungOf;
    hide Starts;
    hide Print;
    hide Bare;
    hide BinaryKind;
    OperatorIsQuiet(op);
    OperationPrint(op, x, y, 0);
    PrimaryPrint(x, Rung(op));
    PrimaryPrint(y, Rung(op) + 1);
  }

  lemma InfixRead(op: BinaryOp, x: Expr, y: Expr, toks: seq<Token>, pos: nat)
    requires Printable(x) && Printable(y) && RungOf(x) == RungOf(y) == PRIMARY
    requires Stands(Infix(x, BinaryKind(op), y), toks, pos)
    requires Stops(KindAt(toks, pos + |Infix(x, BinaryKind(op), y)|))
    ensures ParseLevel(toks, pos, 0) == Some((Binary(op, x, y), pos + |Infix(x, BinaryKind(op), y)|))
  {
    hide Stands;
    hide ParseLevel;
    hide KindAt;
    hide Quiet;
    hide Print;
    hide Infix;
    hide Printable;
    hide RungOf;
    hide BinaryKind;
    StopsIsQuiet(KindAt(toks, pos + |Infix(x, BinaryKind(op), y)|));
    hide Stops;
    InfixPrint(op, x, y);
    ReadsBack(Binary(op, x, y), toks, pos, 0, TERSE);
  }

  /** Which operation each operator token is, between two operands that are no operations. */
  lemma OperatorsAreRead(x: Expr, kind: Kind, y: Expr, toks: seq<Token>, pos: nat)
    requires Printable(x) && Printable(y) && RungOf(x) == RungOf(y) == PRIMARY
    requires Stands(Infix(x, kind, y), toks, pos) && Stops(KindAt(toks, pos + |Infix(x, kind, y)|))
    ensures var r, end := ParseLevel(toks, pos, 0), pos + |Infix(x, kind, y)|;
            && (kind == T_PLUS ==> r == Some((Binary(ADD, x, y), end)))
            && (kind == T_MINUS ==> r == Some((Binary(SUB, x, y), end)))
            && (kind == T_STAR ==> r == Some((Binary(MUL, x, y), end)))
            && (kind == T_SLASH ==> r == Some((Binary(DIV, x, y), end)))
            && (kind == T_PERCENT ==> r == Some((Binary(MOD, x, y), end)))
            && (kind == T_EQEQ ==> r == Some((Binary(EQ, x, y), end)))
            && (kind == T_NEQ ==> r == Some((Binary(NE, x, y), end)))
            && (kind == T_LT ==> r == Some((Binary(LT, x, y), end)))
            && (kind == T_GT ==> r == Some((Binary(GT, x, y), end)))
            && (kind == T_LTE ==> r == Some((Binary(LE, x, y), end)))
            && (kind == T_GTE ==> r == Some((Binary(GE, x, y), end)))
  {
    OperatorKinds();
    hide Stands;
    hide ParseLevel;
    hide KindAt;
    hide Infix;
    hide Printable;
    hide RungOf;
    hide BinaryKind;
    hide Stops;
    match kind
    case T_PLUS => InfixRead(ADD, x, y, toks, pos);
    case T_MINUS => InfixRead(SUB, x, y, toks, pos);
    case T_STAR => InfixRead(MUL, x, y, toks, pos);
    case T_SLASH => InfixRead(DIV, x, y, toks, pos);
    case T_PERCENT => InfixRead(MOD, x, y, toks, pos);
    case T_EQEQ => InfixRead(EQ, x, y, toks, pos);
    case T_NEQ => InfixRead(NE, x, y, toks, pos);
    case T_LT => InfixRead(LT, x, y, toks, pos);
    case T_GT => InfixRead(GT, x, y, toks, pos);
    case T_LTE => InfixRead(LE, x, y, toks, pos);
    case T_GTE => InfixRead(GE, x, y, toks, pos);
    case _ =>
  }

  lemma OperatorKinds()
    ensures BinaryKind(ADD) == T_PLUS && BinaryKind(SUB) == T_MINUS && BinaryKind(MUL) == T_STAR
    ensures BinaryKind(DIV) == T_SLASH && BinaryKind(MOD) == T_PERCENT && BinaryKind(EQ) == T_EQEQ
    ensures BinaryKind(NE) == T_NEQ && BinaryKind(LT) == T_LT && BinaryKind(GT) == T_GT
    ensures BinaryKind(LE) == T_LTE && BinaryKind(GE) == T_GTE
  {
  }

  /** Which operation each sign token is. */
  lemma SignsAreRead(x: Expr, kind: Kind, toks: seq<Token>, pos: nat)
    requires Printable(x) && RungOf(x) == PRIMARY
    requires Stands([Mark(kind)] + Bare(x, TERSE), toks, pos) && Stops(KindAt(toks, pos + 1 + |Bare(x, TERSE)|))
    ensures var r, end := ParseLevel(toks, pos, 0), pos + 1 + |Bare(x, TERSE)|;
            && (kind == T_MINUS ==> r == Some((Unary(NEG, x), end)))
            && (kind == T_BANG ==> r == Some((Unary(NOT, x), end)))
  {
    StopsIsQuiet(KindAt(toks, pos + 1 + |Bare(x, TERSE)|));
    if kind == T_MINUS {
      SignIsRead(NEG, x, toks, pos);
    } else if kind == T_BANG {
      SignIsRead(NOT, x, toks, pos);
    }
  }

  lemma SignIsRead(sign: UnaryOp, x: Expr, toks: seq<Token>, pos: nat)
    requires Printable(x) && RungOf(x) == PRIMARY && Stands([Mark(UnaryKind(sign))] + Bare(x, TERSE), toks, pos)
    requires Quiet(KindAt(toks, pos + 1 + |Bare(x, TERSE)|), 0)
    ensures ParseLevel(toks, pos, 0) == Some((Unary(sign, x), pos + 1 + |Bare(x, TERSE)|))
  {
    hide Stands;
    hide ParseLevel;
    hide KindAt;
    hide Quiet;
    hide Print;
    hide Bare;
    SignPrint(sign, x, 0);
    ReadsBack(Unary(sign, x), toks, pos, 0, TERSE);
  }

  /** Of an index the row comes first, of a call the arguments stand in order. */
  lemma OperandsInOrder(toks: seq<Token>, pos: nat)
    requires KindAt(toks, pos) == IDENT && ParsePrimary(toks, pos).Some?
    ensures var e := ParsePrimary(toks, pos).value.0;
            && (KindAt(toks, pos + 1) == T_LBRACKET ==>
                  && e.TensorIndex? && e.name == toks[pos].value && ParseLevel(toks, pos + 2, 0).Some?
                  && var row := ParseLevel(toks, pos + 2, 0).value;
                  && e.row == row.0 && KindAt(toks, row.1) == T_RBRACKET && KindAt(toks, row.1 + 1) == T_LBRACKET
                  && ParseLevel(toks, row.1 + 2, 0).Some? && e.col == ParseLevel(toks, row.1 + 2, 0).value.0)
            && (KindAt(toks, pos + 1) == T_LPAREN ==>
                  && e.Call? && e.name == toks[pos].value && (e.args == [] <==> KindAt(toks, pos + 2) == T_RPAREN)
                  && (e.args != [] ==>
                        ParseLevel(toks, pos + 2, 0).Some? && e.args[0] == ParseLevel(toks, pos + 2, 0).value.0))
            && (KindAt(toks, pos + 1) != T_LBRACKET && KindAt(toks, pos + 1) != T_LPAREN ==>
                  e == VarRef(toks[pos].value))
  {
    hide ParseLevel;
  }
}
