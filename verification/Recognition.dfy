/** The other direction of `Writing`: whatever the grammar reads has been written.  So the parser accepts exactly the token
    lists that write a program, and returns the program they write. */
module Recognition {
  import opened Options
  import opened TensorAst
  import opened Tokens
  import opened Grammar

  // ----- expressions -----

  /** The tokens from `pos` to `end` write e where rung `level` is expected. */
  ghost predicate Writes(e: Expr, level: nat, style: Style, toks: seq<Token>, pos: nat, end: nat)
  {
    Printable(e) && Stands(Grammar.Print(e, level, style), toks, pos) && end == pos + |Grammar.Print(e, level, style)|
  }

  ghost predicate WritesBare(e: Expr, style: Style, toks: seq<Token>, pos: nat, end: nat)
  {
    Printable(e) && Stands(Bare(e, style), toks, pos) && end == pos + |Bare(e, style)|
  }

  ghost predicate WritesArgs(args: seq<Expr>, style: Style, toks: seq<Token>, pos: nat, end: nat)
  {
    AllPrintable(args) && Stands(PrintArgs(args, style), toks, pos) && end == pos + |PrintArgs(args, style)|
  }

  lemma Joined(x: seq<Token>, y: seq<Token>, toks: seq<Token>, pos: nat)
    requires Stands(x, toks, pos) && Stands(y, toks, pos + |x|)
    ensures Stands(x + y, toks, pos) && |x + y| == |x| + |y|
  {
    hide Alike;
    forall i | 0 <= i < |x + y| ensures Alike(toks[pos + i], (x + y)[i]) {
      if i >= |x| { assert toks[pos + |x| + (i - |x|)] == toks[pos + i]; }
    }
  }

  lemma MarkStands(kind: Kind, toks: seq<Token>, pos: nat)
    requires KindAt(toks, pos) == kind && pos < |toks| && kind != IDENT && kind != STRING && kind != NUMBER
    ensures Stands([Mark(kind)], toks, pos)
  {
  }

  lemma NameStands(name: string, toks: seq<Token>, pos: nat)
    requires pos < |toks| && KindAt(toks, pos) == IDENT && toks[pos].value == name
    ensures Stands([Token(IDENT, name)], toks, pos)
  {
  }

  /** An expression that needs no parentheses at its rung, and one with a pair around it. */
  lemma BareWrites(e: Expr, level: nat, style: Style, toks: seq<Token>, pos: nat, end: nat)
    requires WritesBare(e, style, toks, pos, end) && level <= RungOf(e) && style.extra == 0
    ensures Writes(e, level, style, toks, pos, end)
  {
    hide Bare;
    hide Stands;
    EnclosedNone(Bare(e, style));
  }

  /** The same expression with another number of redundant pairs. */
  function WithExtra(style: Style, extra: nat): (r: Style)
  {
    style.(extra := extra)
  }

  lemma BareKeeps(e: Expr, style: Style, extra: nat)
    requires Printable(e)
    ensures Bare(e, style) == Bare(e, WithExtra(style, extra))
  {
    hide Grammar.Print;
    if e.Call? { ArgsKeep(e.args, style, extra); }
  }

  lemma ArgsKeep(args: seq<Expr>, style: Style, extra: nat)
    requires AllPrintable(args)
    ensures PrintArgs(args, style) == PrintArgs(args, WithExtra(style, extra))
  {
    hide Grammar.Print;
  }

  /** Where an expression stands in parentheses it is written, with one more pair, on every rung. */
  lemma ParenthesizedWrites(e: Expr, style: Style, toks: seq<Token>, pos: nat, end: nat)
    requires Writes(e, 0, style, toks, pos + 1, end)
    requires KindAt(toks, pos) == T_LPAREN && KindAt(toks, end) == T_RPAREN
    ensures RungOf(e) < UNARY ==> Writes(e, UNARY, style, toks, pos, end + 1)
    ensures RungOf(e) >= UNARY ==> Writes(e, UNARY, WithExtra(style, style.extra + 1), toks, pos, end + 1)
  {
    hide Bare;
    hide Stands;
    hide KindAt;
    KindInside(toks, pos);
    KindInside(toks, end);
    MarkStands(T_LPAREN, toks, pos);
    MarkStands(T_RPAREN, toks, end);
    var inner := Grammar.Print(e, 0, style);
    Joined(inner, [Mark(T_RPAREN)], toks, pos + 1);
    Joined([Mark(T_LPAREN)], inner + [Mark(T_RPAREN)], toks, pos);
    BareKeeps(e, style, style.extra + 1);
    assert Enclose(style.extra + 1, Bare(e, style)) == [Mark(T_LPAREN)] + (inner + [Mark(T_RPAREN)]);
  }

  lemma KindInside(toks: seq<Token>, pos: nat)
    requires KindAt(toks, pos) != EOF
    ensures pos < |toks|
  {
  }

  /** One rung down, a pair that was needed is redundant. */
  lemma Descend(e: Expr, level: nat, style: Style, toks: seq<Token>, pos: nat, end: nat) returns (style': Style)
    requires Writes(e, level + 1, style, toks, pos, end)
    ensures Writes(e, level, style', toks, pos, end)
  {
    hide Bare;
    hide Stands;
    style' := WithExtra(style, if RungOf(e) == level then style.extra + 1 else style.extra);
    BareKeeps(e, style, style'.extra);
    assert Pairs(e, level, style') == Pairs(e, level + 1, style);
  }

  /** What a rung reads is written on that rung. */
  lemma {:induction false} LevelIsWritten(toks: seq<Token>, pos: nat, level: nat) returns (style: Style)
    requires level <= UNARY && ParseLevel(toks, pos, level).Some?
    ensures var (e, end) := ParseLevel(toks, pos, level).value; Writes(e, level, style, toks, pos, end)
    decreases |toks| - pos, UNARY - level + 2, 0
  {
    hide Writes;
    hide KindAt;
    hide OperatorAt;
    if level == UNARY {
      hide ParseUnary;
      style := UnaryIsWritten(toks, pos);
    } else {
      var higher := LevelIsWritten(toks, pos, level + 1);
      var (left, mid) := ParseLevel(toks, pos, level + 1).value;
      var lower := Descend(left, level, higher, toks, pos, mid);
      style := MoreIsWritten(toks, pos, mid, level, left, lower);
    }
  }

  lemma {:induction false} MoreIsWritten(toks: seq<Token>, pos: nat, mid: nat, level: nat, left: Expr, before: Style)
      returns (style: Style)
    requires level < UNARY && pos < mid <= |toks| && ParseMore(toks, mid, level, left).Some?
    requires Writes(left, level, before, toks, pos, mid)
    ensures var (e, end) := ParseMore(toks, mid, level, left).value; Writes(e, level, style, toks, pos, end)
    decreases |toks| - mid, UNARY - level + 2, 1
  {
    hide Writes;
    hide KindAt;
    hide OperatorAt;
    hide ParseLevel;
    var op := OperatorAt(KindAt(toks, mid), level);
    if op.None? {
      style := before;
    } else {
      var right := LevelIsWritten(toks, mid + 1, level + 1);
      var (y, next) := ParseLevel(toks, mid + 1, level + 1).value;
      OperatorWritten(op.value, left, before, y, right, toks, pos, mid, next, level);
      style := MoreIsWritten(toks, pos, next, level, Binary(op.value, left, y), Style(0, [before, right]));
    }
  }

  lemma OperatorWritten(op: BinaryOp, x: Expr, before: Style, y: Expr, after: Style, toks: seq<Token>, pos: nat, mid: nat,
                        end: nat, level: nat)
    requires OperatorAt(KindAt(toks, mid), level) == Some(op)
    requires Writes(x, level, before, toks, pos, mid) && Writes(y, level + 1, after, toks, mid + 1, end)
    ensures Writes(Binary(op, x, y), level, Style(0, [before, after]), toks, pos, end)
  {
    var e, style := Binary(op, x, y), Style(0, [before, after]);
    assert Rung(op) == level && KindAt(toks, mid) == BinaryKind(op);
    hide KindAt;
    hide Stands;
    hide OperatorAt;
    hide BinaryKind;
    hide Rung;
    hide Grammar.Print;
    OperatorIsMark(op);
    KindInside(toks, mid);
    MarkStands(BinaryKind(op), toks, mid);
    Joined([Mark(BinaryKind(op))], Grammar.Print(y, level + 1, after), toks, mid);
    Joined(Grammar.Print(x, level, before), [Mark(BinaryKind(op))] + Grammar.Print(y, level + 1, after), toks, pos);
    assert style.Part(0) == before && style.Part(1) == after;
    assert WritesBare(e, style, toks, pos, end);
    BareWrites(e, level, style, toks, pos, end);
  }

  lemma OperatorIsMark(op: BinaryOp)
    ensures BinaryKind(op) !in {IDENT, STRING, NUMBER, EOF}
  {
  }

  lemma {:induction false} UnaryIsWritten(toks: seq<Token>, pos: nat) returns (style: Style)
    requires ParseUnary(toks, pos).Some?
    ensures var (e, end) := ParseUnary(toks, pos).value; Writes(e, UNARY, style, toks, pos, end)
    decreases |toks| - pos, 1, 0
  {
    hide Writes;
    hide KindAt;
    hide UnaryOfKind;
    var op := UnaryOfKind(KindAt(toks, pos));
    if op.None? {
      hide ParsePrimary;
      style := PrimaryIsWritten(toks, pos);
    } else {
      var part := UnaryIsWritten(toks, pos + 1);
      var (x, end) := ParseUnary(toks, pos + 1).value;
      SignWritten(op.value, x, part, toks, pos, end);
      style := Style(0, [part]);
    }
  }

  lemma SignWritten(op: UnaryOp, x: Expr, part: Style, toks: seq<Token>, pos: nat, end: nat)
    requires UnaryOfKind(KindAt(toks, pos)) == Some(op) && Writes(x, UNARY, part, toks, pos + 1, end)
    ensures Writes(Unary(op, x), UNARY, Style(0, [part]), toks, pos, end)
  {
    var e, style := Unary(op, x), Style(0, [part]);
    assert KindAt(toks, pos) == UnaryKind(op) && UnaryKind(op) !in {IDENT, STRING, NUMBER, EOF};
    hide KindAt;
    hide Stands;
    hide UnaryKind;
    hide UnaryOfKind;
    hide Grammar.Print;
    KindInside(toks, pos);
    MarkStands(UnaryKind(op), toks, pos);
    Joined([Mark(UnaryKind(op))], Grammar.Print(x, UNARY, part), toks, pos);
    assert style.Part(0) == part;
    assert WritesBare(e, style, toks, pos, end);
    BareWrites(e, UNARY, style, toks, pos, end);
  }

  lemma {:induction false} PrimaryIsWritten(toks: seq<Token>, pos: nat) returns (style: Style)
    requires ParsePrimary(toks, pos).Some?
    ensures var (e, end) := ParsePrimary(toks, pos).value; Writes(e, UNARY, style, toks, pos, end)
    decreases |toks| - pos, 0, 0
  {
    hide Writes;
    hide KindAt;
    hide ParseLevel;
    hide ParseArgs;
    var (e, end) := ParsePrimary(toks, pos).value;
    KindInside(toks, pos);
    match KindAt(toks, pos)
    case NUMBER =>
      NumberWritten(toks, pos);
      style := TERSE;
    case T_LPAREN =>
      var inner := LevelIsWritten(toks, pos + 1, 0);
      ParenthesizedWrites(e, inner, toks, pos, end - 1);
      style := if RungOf(e) < UNARY then inner else WithExtra(inner, inner.extra + 1);
    case IDENT =>
      if KindAt(toks, pos + 1) == T_LPAREN {
        if KindAt(toks, pos + 2) == T_RPAREN {
          style := TERSE;
          NoArgsWritten(style, toks, pos + 2);
        } else {
          style := ArgsAreWritten(toks, pos + 2);
        }
        CallWritten(e, style, toks, pos, end);
      } else if KindAt(toks, pos + 1) == T_LBRACKET {
        var row := LevelIsWritten(toks, pos + 2, 0);
        var mid := ParseLevel(toks, pos + 2, 0).value.1;
        var col := LevelIsWritten(toks, mid + 2, 0);
        style := Style(0, [row, col]);
        IndexWritten(e, row, col, toks, pos, mid, end);
      } else {
        VariableWritten(toks, pos);
        style := TERSE;
      }
    case _ => assert false;
  }

  lemma NumberWritten(toks: seq<Token>, pos: nat)
    requires pos < |toks| && KindAt(toks, pos) == NUMBER
    ensures Writes(IntLiteral(ToInt(toks[pos].value)), UNARY, TERSE, toks, pos, pos + 1)
  {
    ToIntIsNat(toks[pos].value);
    DecimalReadBack(ToInt(toks[pos].value));
    var e := IntLiteral(ToInt(toks[pos].value));
    assert WritesBare(e, TERSE, toks, pos, pos + 1);
    BareWrites(e, UNARY, TERSE, toks, pos, pos + 1);
  }

  lemma ToIntIsNat(s: string)
    ensures ToInt(s) >= 0
  {
  }

  lemma VariableWritten(toks: seq<Token>, pos: nat)
    requires pos < |toks| && KindAt(toks, pos) == IDENT
    ensures Writes(VarRef(toks[pos].value), UNARY, TERSE, toks, pos, pos + 1)
  {
    NameStands(toks[pos].value, toks, pos);
    var e := VarRef(toks[pos].value);
    assert WritesBare(e, TERSE, toks, pos, pos + 1);
    BareWrites(e, UNARY, TERSE, toks, pos, pos + 1);
  }

  lemma NoArgsWritten(style: Style, toks: seq<Token>, pos: nat)
    requires pos <= |toks|
    ensures WritesArgs([], style, toks, pos, pos)
  {
  }

  lemma CallWritten(e: Expr, style: Style, toks: seq<Token>, pos: nat, end: nat)
    requires e.Call? && style.extra == 0 && end > 0 && WritesArgs(e.args, style, toks, pos + 2, end - 1)
    requires pos < |toks| && KindAt(toks, pos) == IDENT && toks[pos].value == e.name && KindAt(toks, pos + 1) == T_LPAREN
    requires KindAt(toks, end - 1) == T_RPAREN
    ensures Writes(e, UNARY, style, toks, pos, end)
  {
    hide Stands;
    hide KindAt;
    hide PrintArgs;
    KindInside(toks, pos + 1);
    KindInside(toks, end - 1);
    NameStands(e.name, toks, pos);
    MarkStands(T_LPAREN, toks, pos + 1);
    MarkStands(T_RPAREN, toks, end - 1);
    var args := PrintArgs(e.args, style);
    Joined([Token(IDENT, e.name)], [Mark(T_LPAREN)], toks, pos);
    assert [Token(IDENT, e.name)] + [Mark(T_LPAREN)] == [Token(IDENT, e.name), Mark(T_LPAREN)];
    Joined(args, [Mark(T_RPAREN)], toks, pos + 2);
    Joined([Token(IDENT, e.name), Mark(T_LPAREN)], args + [Mark(T_RPAREN)], toks, pos);
    assert WritesBare(e, style, toks, pos, end);
    BareWrites(e, UNARY, style, toks, pos, end);
  }

  lemma IndexWritten(e: Expr, row: Style, col: Style, toks: seq<Token>, pos: nat, mid: nat, end: nat)
    requires e.TensorIndex? && e.cols == 0 && end > 0
    requires Writes(e.row, 0, row, toks, pos + 2, mid) && Writes(e.col, 0, col, toks, mid + 2, end - 1)
    requires pos < |toks| && KindAt(toks, pos) == IDENT && toks[pos].value == e.name && KindAt(toks, pos + 1) == T_LBRACKET
    requires KindAt(toks, mid) == T_RBRACKET && KindAt(toks, mid + 1) == T_LBRACKET && KindAt(toks, end - 1) == T_RBRACKET
    ensures Writes(e, UNARY, Style(0, [row, col]), toks, pos, end)
  {
    hide Stands;
    hide KindAt;
    hide Grammar.Print;
    var style := Style(0, [row, col]);
    assert style.Part(0) == row && style.Part(1) == col;
    KindInside(toks, pos + 1);
    KindInside(toks, mid);
    KindInside(toks, mid + 1);
    KindInside(toks, end - 1);
    NameStands(e.name, toks, pos);
    MarkStands(T_LBRACKET, toks, pos + 1);
    MarkStands(T_RBRACKET, toks, mid);
    MarkStands(T_LBRACKET, toks, mid + 1);
    MarkStands(T_RBRACKET, toks, end - 1);
    var open, close := [Mark(T_LBRACKET)], [Mark(T_RBRACKET)];
    var x, y := Grammar.Print(e.row, 0, row), Grammar.Print(e.col, 0, col);
    Joined(y, close, toks, mid + 2);
    Joined(close, open, toks, mid);
    assert close + open == [Mark(T_RBRACKET), Mark(T_LBRACKET)];
    Joined([Mark(T_RBRACKET), Mark(T_LBRACKET)], y + close, toks, mid);
    Joined(x, [Mark(T_RBRACKET), Mark(T_LBRACKET)] + (y + close), toks, pos + 2);
    Joined([Token(IDENT, e.name)], open, toks, pos);
    assert [Token(IDENT, e.name)] + open == [Token(IDENT, e.name), Mark(T_LBRACKET)];
    Joined([Token(IDENT, e.name), Mark(T_LBRACKET)], x + ([Mark(T_RBRACKET), Mark(T_LBRACKET)] + (y + close)), toks, pos);
    IndexUnfolds(e, style);
    hide Bare;
    assert WritesBare(e, style, toks, pos, end);
    BareWrites(e, UNARY, style, toks, pos, end);
  }

  lemma {:induction false} ArgsAreWritten(toks: seq<Token>, pos: nat) returns (style: Style)
    requires ParseArgs(toks, pos).Some?
    ensures var (args, end) := ParseArgs(toks, pos).value; WritesArgs(args, style, toks, pos, end)
    ensures style.extra == 0
    decreases |toks| - pos, UNARY + 3, 0
  {
    hide WritesArgs;
    hide Writes;
    hide KindAt;
    hide ParseLevel;
    var first := LevelIsWritten(toks, pos, 0);
    var (e, mid) := ParseLevel(toks, pos, 0).value;
    if KindAt(toks, mid) != T_COMMA {
      style := Style(0, [first]);
      OneArgWritten(e, first, toks, pos, mid);
    } else {
      var others := ArgsAreWritten(toks, mid + 1);
      style := Style(0, [first, others]);
      var (rest, end) := ParseArgs(toks, mid + 1).value;
      MoreArgsWritten(e, first, rest, others, toks, pos, mid, end);
    }
  }

  lemma OneArgWritten(e: Expr, first: Style, toks: seq<Token>, pos: nat, end: nat)
    requires Writes(e, 0, first, toks, pos, end)
    ensures WritesArgs([e], Style(0, [first]), toks, pos, end)
  {
    hide Grammar.Print;
    hide Stands;
    var style, args := Style(0, [first]), [e];
    assert style.Part(0) == first && args[0] == e && args[1..] == [];
    assert AllPrintable(args);
    assert PrintArgs(args, style) == Grammar.Print(e, 0, first);
  }

  lemma MoreArgsWritten(e: Expr, first: Style, rest: seq<Expr>, others: Style, toks: seq<Token>, pos: nat, mid: nat,
                        end: nat)
    requires Writes(e, 0, first, toks, pos, mid) && rest != [] && WritesArgs(rest, others, toks, mid + 1, end)
    requires KindAt(toks, mid) == T_COMMA
    ensures WritesArgs([e] + rest, Style(0, [first, others]), toks, pos, end)
  {
    hide Grammar.Print;
    hide Stands;
    hide KindAt;
    var style, args := Style(0, [first, others]), [e] + rest;
    assert style.Part(0) == first && style.Part(1) == others && args[1..] == rest && args[0] == e;
    KindInside(toks, mid);
    MarkStands(T_COMMA, toks, mid);
    Joined([Mark(T_COMMA)], PrintArgs(rest, others), toks, mid);
    Joined(Grammar.Print(e, 0, first), [Mark(T_COMMA)] + PrintArgs(rest, others), toks, pos);
  }

  /** A rung reads as far as its operators go. */
  lemma {:induction false} LevelReadsOn(toks: seq<Token>, pos: nat, level: nat)
    requires level <= UNARY && ParseLevel(toks, pos, level).Some?
    ensures forall l :: level <= l ==> OperatorAt(KindAt(toks, ParseLevel(toks, pos, level).value.1), l).None?
    decreases |toks| - pos, UNARY - level + 2, 0
  {
    hide KindAt;
    hide ParseUnary;
    if level < UNARY {
      LevelReadsOn(toks, pos, level + 1);
      var (left, mid) := ParseLevel(toks, pos, level + 1).value;
      MoreReadsOn(toks, mid, level, left);
    }
  }

  lemma {:induction false} MoreReadsOn(toks: seq<Token>, pos: nat, level: nat, left: Expr)
    requires level < UNARY && pos <= |toks| && ParseMore(toks, pos, level, left).Some?
    requires forall l :: level < l ==> OperatorAt(KindAt(toks, pos), l).None?
    ensures forall l :: level <= l ==> OperatorAt(KindAt(toks, ParseMore(toks, pos, level, left).value.1), l).None?
    decreases |toks| - pos, UNARY - level + 2, 1
  {
    hide KindAt;
    hide ParseLevel;
    hide OperatorAt;
    var op := OperatorAt(KindAt(toks, pos), level);
    if op.Some? {
      LevelReadsOn(toks, pos + 1, level + 1);
      var (right, next) := ParseLevel(toks, pos + 1, level + 1).value;
      MoreReadsOn(toks, next, level, Binary(op.value, left, right));
    }
  }

  /** Main result for expressions: before a token that opens no bracket, a rung reads e exactly where the tokens write e in
      some style and do not go on. */
  lemma ReadsExactly(e: Expr, toks: seq<Token>, pos: nat, level: nat, end: nat)
    requires level <= UNARY && KindAt(toks, end) != T_LPAREN && KindAt(toks, end) != T_LBRACKET
    ensures ParseLevel(toks, pos, level) == Some((e, end))
       <==> Quiet(KindAt(toks, end), level) && exists style :: Writes(e, level, style, toks, pos, end)
  {
    hide ParseLevel;
    hide KindAt;
    hide OperatorAt;
    hide Stands;
    hide Grammar.Print;
    if ParseLevel(toks, pos, level) == Some((e, end)) {
      LevelReadsOn(toks, pos, level);
      var style := LevelIsWritten(toks, pos, level);
    }
    if style :| Quiet(KindAt(toks, end), level) && Writes(e, level, style, toks, pos, end) {
      ReadsBack(e, toks, pos, level, style);
    }
  }
}
