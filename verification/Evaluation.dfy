/** What both interpreters share: outcomes, stores, and C's int32 operators as partial functions. */
module Evaluation {
  import opened Options
  import opened Words
  import opened TensorAst

  /** Why a run has no meaning: a name that nothing has declared yet; a kind, an arity or a shape that does not fit; a value
      outside 32 bits or a division by zero; an index out of range; a product written over its own operand; an assignment to
      what is no variable. */
  datatype Cause = UNDECLARED | MISFIT | ARITHMETIC | INDEX | OVERWRITTEN | UNASSIGNABLE

  /** `Stuck` is a run the language gives no meaning to; `Timeout` is a run that needs more fuel. */
  datatype Result<+T> = Ok(value: T) | Stuck(why: Cause) | Timeout
  {
    predicate IsFailure() { !Ok? }

    function PropagateFailure<U>(): Result<U>
      requires IsFailure()
    {
      if Stuck? then Stuck(why) else Timeout
    }

    function Extract(): T
      requires Ok?
    {
      value
    }
  }

  datatype Store<V> = Store(globals: map<string, V>, locals: map<string, V>, out: string)
  {
    /** Locals hide globals. */
    function Lookup(name: string): Option<V>
    {
      if name in locals then Some(locals[name]) else if name in globals then Some(globals[name]) else None
    }

    function Assigned(name: string, v: V): Store<V>
    {
      if name in locals then Store(globals, locals[name := v], out) else Store(globals[name := v], locals, out)
    }

    function Declared(name: string, v: V): Store<V>
    {
      Store(globals, locals[name := v], out)
    }

    /** Leaving a block drops the names it declared. */
    function Leaving(outer: Store<V>): Store<V>
    {
      Store(globals, map name | name in locals && name in outer.locals :: locals[name], out)
    }

    /** Returning from a call restores the caller's locals. */
    function Returning(caller: Store<V>): Store<V>
    {
      Store(globals, caller.locals, out)
    }
  }

  /** A statement either goes on to the next one or returns from its function. */
  datatype Flow<V> = Next(st: Store<V>) | Returned(value: int, st: Store<V>)

  /** Integer division truncating toward zero. */
  function Quotient(x: int, y: int): int
    requires y != 0
  {
    if x >= 0 then x / y else -((-x) / y)
  }

  function Int32(x: int): Option<int>
  {
    if IsInt32(x) then Some(x) else None
  }

  function Bool(b: bool): Option<int>
  {
    Some(if b then 1 else 0)
  }

  /** C leaves overflow and division by zero undefined. */
  function ApplyBinary(op: BinaryOp, x: int, y: int): Option<int>
  {
    match op
    case ADD => Int32(x + y)
    case SUB => Int32(x - y)
    case MUL => Int32(x * y)
    case DIV => if y == 0 then None else Int32(Quotient(x, y))
    case MOD => if y == 0 || Int32(Quotient(x, y)).None? then None else Int32(x - Quotient(x, y) * y)
    case EQ => Bool(x == y)
    case NE => Bool(x != y)
    case LT => Bool(x < y)
    case GT => Bool(x > y)
    case LE => Bool(x <= y)
    case GE => Bool(x >= y)
  }

  function ApplyUnary(op: UnaryOp, x: int): Option<int>
  {
    match op
    case NEG => Int32(-x)
    case NOT => Bool(x == 0)
  }

  /** How far a gemm may write its own operands: over A if its rows are single tiles of the accelerator, over B if its
      columns are. */
  predicate GemmDefined(a: string, b: string, c: string, m: int, n: int, k: int)
  {
    (c == a ==> n == k && k <= 16) && (c == b ==> m == k && k <= 16)
  }

  function Lift<T>(x: Option<T>, why: Cause): Result<T>
  {
    if x.Some? then Ok(x.value) else Stuck(why)
  }

  // ----- what the operators mean -----

  /** The operators as arithmetic: each is undone or bounded by what it came from. */
  lemma OperatorsMean(x: int, y: int)
    ensures var sum := ApplyBinary(ADD, x, y); (sum.Some? <==> IsInt32(x + y)) && (sum.Some? ==> sum.value - y == x)
    ensures var rest := ApplyBinary(SUB, x, y); (rest.Some? <==> IsInt32(x - y)) && (rest.Some? ==> rest.value + y == x)
    ensures var product := ApplyBinary(MUL, x, y);
            (product.Some? <==> IsInt32(y * x)) && (product.Some? ==> product.value == y * x)
    ensures ApplyBinary(EQ, x, y) == Some(if x == y then 1 else 0) && ApplyBinary(NE, x, y) == Some(if x == y then 0 else 1)
    ensures ApplyBinary(LT, x, y) == Some(if x < y then 1 else 0) && ApplyBinary(GE, x, y) == Some(if x < y then 0 else 1)
    ensures ApplyBinary(GT, x, y) == Some(if y < x then 1 else 0) && ApplyBinary(LE, x, y) == Some(if y < x then 0 else 1)
    ensures var opposite := ApplyUnary(NEG, x);
            (opposite.Some? <==> IsInt32(-x)) && (opposite.Some? ==> opposite.value + x == 0)
    ensures ApplyUnary(NOT, x) == Some(if x == 0 then 1 else 0)
  {
  }

  /** Division truncates toward zero: the remainder is smaller than the divisor and has the sign of the dividend. */
  lemma DivisionTruncates(x: int, y: int)
    requires IsInt32(x) && IsInt32(y)
    ensures ApplyBinary(DIV, x, y).Some? <==> y != 0 && !(x == -0x8000_0000 && y == -1)
    ensures ApplyBinary(MOD, x, y).Some? <==> ApplyBinary(DIV, x, y).Some?
    ensures ApplyBinary(DIV, x, y).Some? ==>
              var q, r := ApplyBinary(DIV, x, y).value, ApplyBinary(MOD, x, y).value;
              x == q * y + r && Abs(r) < Abs(y) && (r == 0 || (r < 0 <==> x < 0))
  {
    if y != 0 { QuotientBounds(x, y); }
  }

  lemma QuotientBounds(x: int, y: int)
    requires y != 0
    ensures var q := Quotient(x, y); var r := x - q * y;
            && Abs(r) < Abs(y) && (r == 0 || (r < 0 <==> x < 0)) && Abs(q) <= Abs(x)
            && (Abs(y) > 1 && x != 0 ==> Abs(q) < Abs(x)) && (y == 1 ==> q == x) && (y == -1 ==> q == -x)
  {
    var a := Abs(x);
    SmallQuotient(a, y);
    Truncated(x, y, a / y, a % y);
  }

  lemma Truncated(x: int, y: int, q: int, r: int)
    requires y != 0 && Abs(x) == q * y + r && 0 <= r < Abs(y)
    ensures x == (if x >= 0 then q else -q) * y + if x >= 0 then r else -r
    ensures (y == 1 ==> q == Abs(x)) && (y == -1 ==> -q == Abs(x))
  {
    assert (-q) * y == -(q * y);
    assert q * 1 == q && q * -1 == -q;
  }

  lemma SmallQuotient(a: int, y: int)
    requires a >= 0 && y != 0
    ensures Abs(a / y) <= a && (Abs(y) > 1 && a > 0 ==> Abs(a / y) < a)
  {
    var q, r := a / y, a % y;
    assert a == q * y + r;
    if y > 0 {
      QuotientOf(a, q, y, r);
    } else {
      assert (-q) * (-y) == q * y;
      QuotientOf(a, -q, -y, r);
    }
  }

  lemma QuotientOf(a: int, q: int, b: int, r: int)
    requires a >= 0 && b > 0 && a == q * b + r && 0 <= r < b
    ensures 0 <= q <= a && (b > 1 && a > 0 ==> q < a)
  {
    if q >= 0 {
      assert q * b >= q * 1;
      if b > 1 { assert q * b >= q * 2; }
    }
  }

  /** Locals hide globals, assigning changes one variable, blocks and calls give the outer variables back. */
  lemma StoreLaws<V>(st: Store<V>, outer: Store<V>, name: string, v: V, other: string)
    ensures other in st.locals ==> st.Lookup(other) == Some(st.locals[other])
    ensures other !in st.locals && other in st.globals ==> st.Lookup(other) == Some(st.globals[other])
    ensures other !in st.locals && other !in st.globals ==> st.Lookup(other) == None
    ensures st.Assigned(name, v).Lookup(name) == Some(v)
    ensures other != name ==> st.Assigned(name, v).Lookup(other) == st.Lookup(other)
    ensures st.Assigned(name, v).out == st.out && (name in st.locals ==> st.Assigned(name, v).globals == st.globals)
    ensures name !in st.locals ==> st.Assigned(name, v).locals == st.locals
    ensures name in st.Declared(name, v).locals && st.Declared(name, v).Lookup(name) == Some(v)
    ensures other != name ==> st.Declared(name, v).Lookup(other) == st.Lookup(other)
    ensures st.Declared(name, v).globals == st.globals && st.Declared(name, v).out == st.out
    ensures other in st.locals && other in outer.locals ==> st.Leaving(outer).Lookup(other) == st.Lookup(other)
    ensures other in st.Leaving(outer).locals ==> other in outer.locals
    ensures st.Leaving(outer).globals == st.globals == st.Returning(outer).globals
    ensures st.Leaving(outer).out == st.out == st.Returning(outer).out && st.Returning(outer).locals == outer.locals
  {
  }
}
