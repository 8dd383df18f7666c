/** The emitted C on the computer: static arrays and the stack are words of DRAM, and every NPU call is a run of the device on
    that DRAM.  It runs as the C does over arrays with names, unless the stack is too small. */
module DramRuns {
  import opened Options
  import opened Words
  import opened RowMajor
  import opened TensorAst
  import opened Descriptors
  import opened TiledGemm
  import opened Evaluation
  import opened CStrings
  import opened CTarget
  import opened Driver
  import opened UserRuntime

  // ----- the machine -----

  /** A number in a register, or where an array stands. */
  datatype Slot = Number(n: int) | Array(base: int, length: nat)
  {
    predicate Covers(w: int)
    {
      Array? && base / WORD_BYTES <= w < base / WORD_BYTES + length
    }
  }

  /** What the names of the running function stand for, DRAM, and the lowest word of the stack in use. */
  datatype Machine = Machine(names: Store<Slot>, dram: seq<int>, sp: int)

  /** Where the driver's descriptor block stands, and the lowest word the stack may take. */
  datatype Board = Board(block: int, low: int)

  /** `Wrong` is a run C gives no meaning to, `Exhausted` one that needs more fuel, `NoRoom` one whose stack is full. */
  datatype Fate<+T> = Done(value: T) | Wrong | Exhausted | NoRoom
  {
    predicate IsFailure() { !Done? }

    function PropagateFailure<U>(): Fate<U>
      requires IsFailure()
    {
      if Wrong? then Wrong else if Exhausted? then Exhausted else NoRoom
    }

    function Extract(): T
      requires Done?
    {
      value
    }
  }

  datatype Stage = MNext(m: Machine) | MReturned(value: int, m: Machine)

  function Given<T>(x: Option<T>): Fate<T>
  {
    if x.Some? then Done(x.value) else Wrong
  }

  function ArrayOf(slot: Option<Slot>): Fate<Slot>
  {
    if slot.Some? && slot.value.Array? then Done(slot.value) else Wrong
  }

  // ----- what the machine shows -----

  function WordsAt(dram: seq<int>, base: int, length: nat): (cells: seq<int>)
    ensures |cells| == length
  {
    seq(length, x => Peek(dram, base / WORD_BYTES + x))
  }

  function Shown(slot: Slot, dram: seq<int>): CValue
  {
    match slot case Number(n) => CTarget.CNum(n) case Array(base, length) => Cells(WordsAt(dram, base, length))
  }

  function ShownAll(slots: map<string, Slot>, dram: seq<int>): map<string, CValue>
  {
    map n | n in slots :: Shown(slots[n], dram)
  }

  /** The C state a machine stands for. */
  function View(m: Machine): CState
  {
    Store(ShownAll(m.names.globals, m.dram), ShownAll(m.names.locals, m.dram), m.names.out)
  }

  // ----- where things stand -----

  predicate InBlock(b: Board, w: int)
  {
    b.block / WORD_BYTES <= w < b.block / WORD_BYTES + WORD_COUNT
  }

  ghost predicate BoardOk(b: Board, size: int)
  {
    && b.block > 0 && b.block % WORD_BYTES == 0 && b.block / WORD_BYTES + WORD_COUNT <= b.low <= size <= 0x2000_0000
  }

  ghost predicate PairsApart(slots: map<string, Slot>)
  {
    forall n, n' :: n in slots && n' in slots && n != n' && slots[n].Array? && slots[n'].Array? ==>
      Apart(slots[n].base, slots[n].length, slots[n'].base, slots[n'].length)
  }

  /** The static arrays stand below the stack, beside the descriptor block. */
  ghost predicate StaticsLaid(b: Board, slots: map<string, Slot>)
  {
    forall n :: n in slots ==>
      && slots[n].Array? && slots[n].base > 0 && slots[n].base % WORD_BYTES == 0
      && slots[n].base / WORD_BYTES + slots[n].length <= b.low
      && Apart(slots[n].base, slots[n].length, b.block, WORD_COUNT)
  }

  ghost predicate StackLaid(slots: map<string, Slot>, sp: int, size: int)
  {
    forall n :: n in slots && slots[n].Array? ==>
      && slots[n].base > 0 && slots[n].base % WORD_BYTES == 0
      && sp <= slots[n].base / WORD_BYTES && slots[n].base / WORD_BYTES + slots[n].length <= size
  }

  ghost predicate WellLaid(b: Board, m: Machine)
  {
    && BoardOk(b, |m.dram|) && b.low <= m.sp <= |m.dram|
    && StaticsLaid(b, m.names.globals) && StackLaid(m.names.locals, m.sp, |m.dram|)
    && PairsApart(m.names.globals) && PairsApart(m.names.locals)
  }

  /** The words the running function may change: the descriptor block, the arrays it knows, and the free stack. */
  ghost predicate Touchable(b: Board, m: Machine, w: int)
  {
    || InBlock(b, w) || b.low <= w < m.sp
    || (exists n :: n in m.names.globals && m.names.globals[n].Covers(w))
    || (exists n :: n in m.names.locals && m.names.locals[n].Covers(w))
  }

  /** From m the machine has come to m': no array has moved, new ones stand on what was free stack, and no other word of DRAM
      has changed. */
  ghost predicate Frame(b: Board, m: Machine, m': Machine)
  {
    && |m'.dram| == |m.dram| && m'.names.globals == m.names.globals && m'.sp <= m.sp
    && (forall w :: 0 <= w < |m.dram| && !Touchable(b, m, w) ==> m'.dram[w] == m.dram[w])
    && SlotsKept(m.names.locals, m'.names.locals) && SlotsBelow(m.names.locals, m'.names.locals, m.sp)
  }

  ghost predicate SlotsKept(slots: map<string, Slot>, slots': map<string, Slot>)
  {
    forall n :: n in slots ==> n in slots' && (slots[n].Array? || slots'[n].Array? ==> slots'[n] == slots[n])
  }

  ghost predicate SlotsBelow(slots: map<string, Slot>, slots': map<string, Slot>, sp: int)
  {
    forall n :: n in slots' && slots'[n].Array? ==>
      (n in slots && slots'[n] == slots[n]) || slots'[n].base / WORD_BYTES + slots'[n].length <= sp
  }

  ghost predicate Reaches(b: Board, m: Machine, m': Machine, st: CState)
  {
    WellLaid(b, m') && Frame(b, m, m') && View(m') == st
  }

  // ----- running -----

  function BindSlots(params: seq<string>, args: seq<int>): map<string, Slot>
    requires |params| == |args|
  {
    if params == [] then map[] else BindSlots(params[1..], args[1..])[params[0] := Number(args[0])]
  }

  ghost function MEval(e: CExpr, m: Machine, fns: CFunctions, order: Order, b: Board, fuel: nat): Fate<(int, Machine)>
    decreases fuel, e, 1
  {
    match e
    case CInt(v) => if IsInt32(v) then Done((v, m)) else Wrong
    case CVar(name) =>
      var slot := m.names.Lookup(name);
      if slot.Some? && slot.value.Number? then Done((slot.value.n, m)) else Wrong
    case CIndex(name, index) =>
      var (x, m1) :- MEval(index, m, fns, order, b, fuel);
      var slot :- ArrayOf(m1.names.Lookup(name));
      if 0 <= x < slot.length then Done((Peek(m1.dram, slot.base / WORD_BYTES + x), m1)) else Wrong
    case CUnary(op, x) =>
      var (v, m1) :- MEval(x, m, fns, order, b, fuel);
      var r :- Given(ApplyUnary(op, v));
      Done((r, m1))
    case CBinary(op, x, y) =>
      var ((v, w), m1) :- MEvalOperands(e, m, fns, order, b, fuel);
      var r :- Given(ApplyBinary(op, v, w));
      Done((r, m1))
    case CCall(name, args) =>
      var (vs, m1) :- MEvalArgs(args, m, fns, order, b, fuel);
      if m1.names.Lookup(name).Some? || name !in fns || |fns[name].params| != |vs| then Wrong
      else if fuel == 0 then Exhausted
      else
        var stage :- MExecBlock(fns[name].body, Entered(m1, fns[name].params, vs), fns, order, b, fuel - 1);
        if stage.MReturned? then Done((stage.value, BackIn(stage.m, m1))) else Wrong
  }

  /** A function starts with its parameters and the static arrays. */
  function Entered(m: Machine, params: seq<string>, args: seq<int>): Machine
    requires |params| == |args|
  {
    m.(names := Store(m.names.globals, BindSlots(params, args), m.names.out))
  }

  /** The caller finds its own variables and its own stack. */
  function BackIn(m: Machine, caller: Machine): Machine
  {
    m.(names := m.names.Returning(caller.names), sp := caller.sp)
  }

  ghost function MEvalOperands(e: CExpr, m: Machine, fns: CFunctions, order: Order, b: Board, fuel: nat)
    : Fate<((int, int), Machine)>
    requires e.CBinary?
    decreases fuel, e, 0
  {
    if order.Swaps([e.left, e.right], View(m)) then
      var (w, m1) :- MEval(e.right, m, fns, order, b, fuel);
      var (v, m2) :- MEval(e.left, m1, fns, order, b, fuel);
      Done(((v, w), m2))
    else
      var (v, m1) :- MEval(e.left, m, fns, order, b, fuel);
      var (w, m2) :- MEval(e.right, m1, fns, order, b, fuel);
      Done(((v, w), m2))
  }

  ghost function MEvalArgs(args: seq<CExpr>, m: Machine, fns: CFunctions, order: Order, b: Board, fuel: nat)
    : Fate<(seq<int>, Machine)>
    decreases fuel, args, 0
  {
    if args == [] then Done(([], m)) else
    if order.Swaps(args, View(m)) then
      var (vs, m1) :- MEvalArgs(args[1..], m, fns, order, b, fuel);
      var (v, m2) :- MEval(args[0], m1, fns, order, b, fuel);
      Done(([v] + vs, m2))
    else
      var (v, m1) :- MEval(args[0], m, fns, order, b, fuel);
      var (vs, m2) :- MEvalArgs(args[1..], m1, fns, order, b, fuel);
      Done(([v] + vs, m2))
  }

  ghost function MEvalSides(target: CExpr, value: CExpr, m: Machine, fns: CFunctions, order: Order, b: Board, fuel: nat)
    : Fate<((int, int), Machine)>
    requires target.CIndex?
    decreases fuel, CAssign(target, value), 0
  {
    if order.Swaps([target, value], View(m)) then
      var (v, m1) :- MEval(value, m, fns, order, b, fuel);
      var (x, m2) :- MEval(target.index, m1, fns, order, b, fuel);
      Done(((x, v), m2))
    else
      var (x, m1) :- MEval(target.index, m, fns, order, b, fuel);
      var (v, m2) :- MEval(value, m1, fns, order, b, fuel);
      Done(((x, v), m2))
  }

  ghost function MExecAssign(target: CExpr, value: CExpr, m: Machine, fns: CFunctions, order: Order, b: Board, fuel: nat)
    : Fate<Machine>
    decreases fuel, CAssign(target, value), 1
  {
    match target
    case CVar(name) =>
      var (v, m1) :- MEval(value, m, fns, order, b, fuel);
      var before := m1.names.Lookup(name);
      if before.Some? && before.value.Number? then Done(m1.(names := m1.names.Assigned(name, Number(v)))) else Wrong
    case CIndex(name, index) =>
      var ((x, v), m2) :- MEvalSides(target, value, m, fns, order, b, fuel);
      var slot :- ArrayOf(m2.names.Lookup(name));
      if 0 <= x < slot.length then Done(m2.(dram := Stored(m2.dram, slot.base / WORD_BYTES + x, v))) else Wrong
    case _ => Wrong
  }

  /** A word is stored. */
  function Stored(dram: seq<int>, w: int, v: int): seq<int>
  {
    if 0 <= w < |dram| then dram[w := v] else dram
  }

  /** An array on the stack. */
  function Pushed(m: Machine, name: string, values: seq<int>): Machine
    requires 0 <= m.sp - |values|
  {
    var sp := m.sp - |values|;
    Machine(m.names.Declared(name, Array(sp * WORD_BYTES, |values|)), Overlaid(m.dram, sp, values), sp)
  }

  /** The NPU call: the device is started on DRAM as it is. */
  ghost function MGemm(m: Machine, b: Board, x: string, y: string, z: string, rows: int, cols: int, inner: int): Fate<Machine>
  {
    var p :- ArrayOf(m.names.Lookup(x));
    var q :- ArrayOf(m.names.Lookup(y));
    var r :- ArrayOf(m.names.Lookup(z));
    var d := GemmDescriptor(p.base, q.base, r.base, rows, cols, inner);
    if !d.Words() || !BoardOk(b, |m.dram|) then Wrong else
    var dram :- Given(CallOutcome(m.dram, b.block, d));
    Done(m.(dram := dram))
  }

  ghost function MExec(s: CStmt, m: Machine, fns: CFunctions, order: Order, b: Board, fuel: nat): Fate<Stage>
    decreases fuel, s, 2
  {
    match s
    case CArray(name, count, values) =>
      if |values| != count || name in m.names.locals then Wrong
      else if m.sp - |values| < b.low || m.sp - |values| < 0 then NoRoom
      else Done(MNext(Pushed(m, name, values)))
    case CDeclare(name, value) =>
      var (v, m1) :- MEval(value, m, fns, order, b, fuel);
      if name in m1.names.locals then Wrong else Done(MNext(m1.(names := m1.names.Declared(name, Number(v)))))
    case CAssign(target, value) =>
      var m1 :- MExecAssign(target, value, m, fns, order, b, fuel);
      Done(MNext(m1))
    case CGemm(x, y, z, rows, cols, inner) =>
      var m1 :- MGemm(m, b, x, y, z, rows, cols, inner);
      Done(MNext(m1))
    case CPrint(literal) =>
      var text :- Given(Unescape(literal));
      Done(MNext(m.(names := m.names.(out := m.names.out + BeforeNul(text)))))
    case CIf(cond, thn, els) =>
      var (v, m1) :- MEval(cond, m, fns, order, b, fuel);
      if v != 0 then MScoped(thn, m1, fns, order, b, fuel)
      else if els.CNoElse? then Done(MNext(m1)) else MScoped(els.items, m1, fns, order, b, fuel)
    case CWhile(cond, body) =>
      var (v, m1) :- MEval(cond, m, fns, order, b, fuel);
      if v == 0 then Done(MNext(m1)) else
      var stage :- MScoped(body, m1, fns, order, b, fuel);
      if stage.MReturned? then Done(stage) else if fuel == 0 then Exhausted
      else MExec(s, stage.m, fns, order, b, fuel - 1)
    case CFor(start, test, step, body) =>
      var stage :- MExecPart(start, m, fns, order, b, fuel);
      if stage.MReturned? then Done(stage) else
      var end :- MRepeat(s, stage.m, fns, order, b, fuel);
      Done(end.(m := LeftFor(end.m, m)))
    case CReturn(value) =>
      var (v, m1) :- MEval(value, m, fns, order, b, fuel);
      Done(MReturned(v, m1))
    case CExprStmt(expr) =>
      if expr.CVar? && m.names.Lookup(expr.name).Some? then Done(MNext(m)) else
      var (_, m1) :- MEval(expr, m, fns, order, b, fuel);
      Done(MNext(m1))
  }

  /** Leaving a block frees its part of the stack. */
  function LeftFor(m: Machine, outer: Machine): Machine
  {
    m.(names := m.names.Leaving(outer.names), sp := outer.sp)
  }

  ghost function MRepeat(s: CStmt, m: Machine, fns: CFunctions, order: Order, b: Board, fuel: nat): Fate<Stage>
    requires s.CFor?
    decreases fuel, s, 1
  {
    var (v, m1) :- MEvalTest(s.test, m, fns, order, b, fuel);
    if v == 0 then Done(MNext(m1)) else
    var stage :- MRound(s, m1, fns, order, b, fuel);
    if stage.MReturned? then Done(stage) else if fuel == 0 then Exhausted
    else MRepeat(s, stage.m, fns, order, b, fuel - 1)
  }

  ghost function MRound(s: CStmt, m: Machine, fns: CFunctions, order: Order, b: Board, fuel: nat): Fate<Stage>
    requires s.CFor?
    decreases fuel, s, 0
  {
    var stage :- MScoped(s.body, m, fns, order, b, fuel);
    if stage.MReturned? then Done(stage) else MExecPart(s.step, stage.m, fns, order, b, fuel)
  }

  ghost function MEvalTest(test: Option<CExpr>, m: Machine, fns: CFunctions, order: Order, b: Board, fuel: nat)
    : Fate<(int, Machine)>
    decreases fuel, test, 0
  {
    if test.None? then Done((1, m)) else MEval(test.value, m, fns, order, b, fuel)
  }

  ghost function MExecPart(part: Option<CStmt>, m: Machine, fns: CFunctions, order: Order, b: Board, fuel: nat): Fate<Stage>
    decreases fuel, part, 0
  {
    if part.None? then Done(MNext(m)) else MExec(part.value, m, fns, order, b, fuel)
  }

  ghost function MScoped(items: seq<CStmt>, m: Machine, fns: CFunctions, order: Order, b: Board, fuel: nat): Fate<Stage>
    decreases fuel, items, 1
  {
    var stage :- MExecBlock(items, m, fns, order, b, fuel);
    Done(stage.(m := LeftFor(stage.m, m)))
  }

  ghost function MExecBlock(items: seq<CStmt>, m: Machine, fns: CFunctions, order: Order, b: Board, fuel: nat): Fate<Stage>
    decreases fuel, items, 0
  {
    if items == [] then Done(MNext(m)) else
    var stage :- MExec(items[0], m, fns, order, b, fuel);
    if stage.MReturned? then Done(stage) else MExecBlock(items[1..], stage.m, fns, order, b, fuel)
  }

  // ----- single steps -----

  lemma LookupShown(m: Machine, name: string)
    ensures var slot := m.names.Lookup(name);
            View(m).Lookup(name) == if slot.Some? then Some(Shown(slot.value, m.dram)) else None
    ensures View(m).locals.Keys == m.names.locals.Keys
  {
    hide Shown;
  }

  lemma StaysPut(b: Board, m: Machine)
    requires WellLaid(b, m)
    ensures Reaches(b, m, m, View(m))
  {
    hide View;
  }

  /** A step after a step. */
  lemma Onward(b: Board, m: Machine, m1: Machine, m2: Machine, st: CState)
    requires WellLaid(b, m1) && Frame(b, m, m1) && Reaches(b, m1, m2, st)
    ensures Reaches(b, m, m2, st)
  {
    hide View;
    hide PairsApart;
    hide StaticsLaid;
    forall w | 0 <= w < |m.dram| && !Touchable(b, m, w) ensures !Touchable(b, m1, w) {
      if n :| n in m1.names.locals && m1.names.locals[n].Covers(w) {
        assert false;
      }
    }
  }

  lemma NumberAssigned(b: Board, m: Machine, name: string, v: int)
    requires WellLaid(b, m) && m.names.Lookup(name).Some? && m.names.Lookup(name).value.Number?
    ensures Reaches(b, m, m.(names := m.names.Assigned(name, Number(v))), View(m).Assigned(name, CTarget.CNum(v)))
  {
    hide WordsAt;
    var m' := m.(names := m.names.Assigned(name, Number(v)));
    assert name in m.names.locals;
    assert View(m').locals == View(m).locals[name := CTarget.CNum(v)];
  }

  lemma NumberDeclared(b: Board, m: Machine, name: string, v: int)
    requires WellLaid(b, m) && name !in m.names.locals
    ensures Reaches(b, m, m.(names := m.names.Declared(name, Number(v))), View(m).Declared(name, CTarget.CNum(v)))
  {
    hide WordsAt;
    var m' := m.(names := m.names.Declared(name, Number(v)));
    assert View(m').locals == View(m).locals[name := CTarget.CNum(v)];
  }

  lemma TextPrinted(b: Board, m: Machine, text: string)
    requires WellLaid(b, m)
    ensures Reaches(b, m, m.(names := m.names.(out := m.names.out + text)), View(m).(out := View(m).out + text))
  {
    hide ShownAll;
  }

  /** Words that are kept show the same array. */
  lemma SameWords(slot: Slot, dram: seq<int>, dram': seq<int>)
    requires |dram'| == |dram| && forall w :: 0 <= w < |dram| && slot.Covers(w) ==> dram'[w] == dram[w]
    ensures Shown(slot, dram') == Shown(slot, dram)
  {
    if slot.Array? {
      var u, v := WordsAt(dram, slot.base, slot.length), WordsAt(dram', slot.base, slot.length);
      forall x | 0 <= x < slot.length ensures u[x] == v[x] {
        var w := slot.base / WORD_BYTES + x;
        assert slot.Covers(w) && u[x] == Peek(dram, w) && v[x] == Peek(dram', w);
      }
      assert u == v;
    }
  }

  lemma SameWordsAll(slots: map<string, Slot>, dram: seq<int>, dram': seq<int>)
    requires |dram'| == |dram|
    requires forall n, w :: n in slots && 0 <= w < |dram| && slots[n].Covers(w) ==> dram'[w] == dram[w]
    ensures ShownAll(slots, dram') == ShownAll(slots, dram)
  {
    forall n | n in slots ensures Shown(slots[n], dram') == Shown(slots[n], dram) {
      SameWords(slots[n], dram, dram');
    }
  }

  ghost predicate CoveredAtMostOnce(slots: map<string, Slot>, w: int)
  {
    forall n, n' :: n in slots && n' in slots && slots[n].Covers(w) && slots[n'].Covers(w) ==> n == n'
  }

  /** No word is covered twice, and none is covered that belongs to the descriptor block or to the free stack. */
  lemma CoveredOnce(b: Board, m: Machine, w: int)
    requires WellLaid(b, m)
    ensures forall n :: n in m.names.globals && m.names.globals[n].Covers(w) ==> 0 <= w < b.low && !InBlock(b, w)
    ensures forall n :: n in m.names.locals && m.names.locals[n].Covers(w) ==> m.sp <= w < |m.dram| && !InBlock(b, w)
    ensures CoveredAtMostOnce(m.names.globals, w) && CoveredAtMostOnce(m.names.locals, w)
  {
  }

  /** Only the array `name` and the descriptor block have changed. */
  ghost predicate ChangesArray(b: Board, m: Machine, name: string, dram: seq<int>)
    requires m.names.Lookup(name).Some?
  {
    && |dram| == |m.dram|
    && forall w :: 0 <= w < |dram| && !InBlock(b, w) && !m.names.Lookup(name).value.Covers(w) ==> dram[w] == m.dram[w]
  }

  lemma ArrayWritten(b: Board, m: Machine, name: string, dram: seq<int>)
    requires WellLaid(b, m) && ArrayOf(m.names.Lookup(name)).Done? && ChangesArray(b, m, name, dram)
    ensures Reaches(b, m, m.(dram := dram), View(m).Assigned(name, Shown(m.names.Lookup(name).value, dram)))
  {
    hide WordsAt;
    hide Shown;
    hide PairsApart;
    hide StackLaid;
    hide StaticsLaid;
    var names, slot := m.names, m.names.Lookup(name).value;
    if name in names.locals {
      OthersShown(b, m, name, names.locals, dram);
      KeptShown(b, m, name, names.globals, dram);
    } else {
      OthersShown(b, m, name, names.globals, dram);
      KeptShown(b, m, name, names.locals, dram);
    }
  }

  lemma OthersShown(b: Board, m: Machine, name: string, slots: map<string, Slot>, dram: seq<int>)
    requires WellLaid(b, m) && (slots == m.names.globals || slots == m.names.locals)
    requires name in slots && slots[name].Array? && m.names.Lookup(name) == Some(slots[name])
             && ChangesArray(b, m, name, dram)
    ensures ShownAll(slots, dram) == ShownAll(slots, m.dram)[name := Shown(slots[name], dram)]
  {
    hide Shown;
    forall n | n in slots && n != name ensures Shown(slots[n], dram) == Shown(slots[n], m.dram) {
      forall w | 0 <= w < |dram| && slots[n].Covers(w) ensures dram[w] == m.dram[w] { CoveredOnce(b, m, w); }
      SameWords(slots[n], m.dram, dram);
    }
  }

  lemma KeptShown(b: Board, m: Machine, name: string, slots: map<string, Slot>, dram: seq<int>)
    requires WellLaid(b, m) && ArrayOf(m.names.Lookup(name)).Done? && ChangesArray(b, m, name, dram)
    requires (slots == m.names.globals && name in m.names.locals) || (slots == m.names.locals && name !in m.names.locals)
    ensures ShownAll(slots, dram) == ShownAll(slots, m.dram)
  {
    forall n, w | n in slots && 0 <= w < |dram| && slots[n].Covers(w) ensures dram[w] == m.dram[w] { CoveredOnce(b, m, w); }
    SameWordsAll(slots, m.dram, dram);
  }

  lemma ElementStored(b: Board, m: Machine, name: string, x: int, v: int)
    requires WellLaid(b, m) && ArrayOf(m.names.Lookup(name)).Done? && 0 <= x < m.names.Lookup(name).value.length
    ensures var slot := m.names.Lookup(name).value;
            && View(m).Lookup(name) == Some(Cells(WordsAt(m.dram, slot.base, slot.length)))
            && Reaches(b, m, m.(dram := Stored(m.dram, slot.base / WORD_BYTES + x, v)),
                       View(m).Assigned(name, Cells(WordsAt(m.dram, slot.base, slot.length)[x := v])))
  {
    hide View;
    hide ShownAll;
    var slot := m.names.Lookup(name).value;
    var w := slot.base / WORD_BYTES + x;
    var dram := Stored(m.dram, w, v);
    LookupShown(m, name);
    assert slot.Covers(w);
    CoveredOnce(b, m, w);
    var cells, cells' := WordsAt(m.dram, slot.base, slot.length), WordsAt(dram, slot.base, slot.length);
    forall i | 0 <= i < slot.length ensures cells'[i] == cells[x := v][i] {
      assert slot.Covers(slot.base / WORD_BYTES + i);
      assert cells'[i] == Peek(dram, slot.base / WORD_BYTES + i) && cells[i] == Peek(m.dram, slot.base / WORD_BYTES + i);
    }
    assert cells' == cells[x := v];
    ArrayWritten(b, m, name, dram);
  }

  lemma ArrayPushed(b: Board, m: Machine, name: string, values: seq<int>)
    requires WellLaid(b, m) && name !in m.names.locals && b.low <= m.sp - |values|
    ensures Reaches(b, m, Pushed(m, name, values), View(m).Declared(name, Cells(values)))
  {
    hide Shown;
    hide ShownAll;
    hide Overlaid;
    var m' := Pushed(m, name, values);
    assert |m'.dram| == |m.dram|;
    PushKeeps(b, m, values);
    PushShown(m, name, values);
    NewSlot(b, m, name, values);
  }

  /** What stood on the stack and below it still stands. */
  lemma PushKeeps(b: Board, m: Machine, values: seq<int>)
    requires WellLaid(b, m) && b.low <= m.sp - |values|
    ensures var dram := Overlaid(m.dram, m.sp - |values|, values);
            && ShownAll(m.names.globals, dram) == ShownAll(m.names.globals, m.dram)
            && ShownAll(m.names.locals, dram) == ShownAll(m.names.locals, m.dram)
            && forall w :: 0 <= w < |m.dram| && !Touchable(b, m, w) ==> dram[w] == m.dram[w]
  {
    hide ShownAll;
    var dram := Overlaid(m.dram, m.sp - |values|, values);
    forall n, w | n in m.names.globals && 0 <= w < |dram| && m.names.globals[n].Covers(w) ensures dram[w] == m.dram[w] {
      CoveredOnce(b, m, w);
    }
    forall n, w | n in m.names.locals && 0 <= w < |dram| && m.names.locals[n].Covers(w) ensures dram[w] == m.dram[w] {
      CoveredOnce(b, m, w);
    }
    SameWordsAll(m.names.globals, m.dram, dram);
    SameWordsAll(m.names.locals, m.dram, dram);
  }

  lemma PushShown(m: Machine, name: string, values: seq<int>)
    requires 0 <= m.sp - |values| && m.sp <= |m.dram|
    ensures var m' := Pushed(m, name, values);
            && Shown(m'.names.locals[name], m'.dram) == Cells(values)
            && ShownAll(m'.names.locals, m'.dram) == ShownAll(m.names.locals, m'.dram)[name := Cells(values)]
  {
    var m', sp := Pushed(m, name, values), m.sp - |values|;
    assert (sp * WORD_BYTES) / WORD_BYTES == sp;
    var cells := WordsAt(m'.dram, sp * WORD_BYTES, |values|);
    forall x | 0 <= x < |values| ensures cells[x] == values[x] { assert cells[x] == Peek(m'.dram, sp + x); }
    assert cells == values;
    hide WordsAt;
  }

  lemma NewSlot(b: Board, m: Machine, name: string, values: seq<int>)
    requires WellLaid(b, m) && name !in m.names.locals && b.low <= m.sp - |values|
    ensures var m' := Pushed(m, name, values);
            && WellLaid(b, m') && m'.names.globals == m.names.globals
            && SlotsKept(m.names.locals, m'.names.locals) && SlotsBelow(m.names.locals, m'.names.locals, m.sp)
  {
    hide Overlaid;
    var sp := m.sp - |values|;
    assert (sp * WORD_BYTES) / WORD_BYTES == sp && (sp * WORD_BYTES) % WORD_BYTES == 0;
  }

  // ----- calls and blocks -----

  lemma {:induction false} BindShown(params: seq<string>, args: seq<int>, dram: seq<int>)
    requires |params| == |args|
    ensures ShownAll(BindSlots(params, args), dram) == BindCArgs(params, args)
    ensures forall n :: n in BindSlots(params, args) ==> BindSlots(params, args)[n].Number?
  {
    if params != [] { BindShown(params[1..], args[1..], dram); }
  }

  lemma FunctionEntered(b: Board, m: Machine, params: seq<string>, args: seq<int>)
    requires WellLaid(b, m) && |params| == |args|
    ensures WellLaid(b, Entered(m, params, args))
    ensures View(Entered(m, params, args)) == Store(View(m).globals, BindCArgs(params, args), View(m).out)
  {
    hide ShownAll;
    BindShown(params, args, m.dram);
  }

  /** A call leaves the caller's variables and its stack as they were. */
  lemma CameBack(b: Board, m: Machine, params: seq<string>, args: seq<int>, end: Machine)
    requires WellLaid(b, m) && |params| == |args| && WellLaid(b, end) && Frame(b, Entered(m, params, args), end)
    ensures Reaches(b, m, BackIn(end, m), View(end).Returning(View(m)))
  {
    hide ShownAll;
    var start := Entered(m, params, args);
    BindShown(params, args, m.dram);
    forall w | 0 <= w < |m.dram| && Touchable(b, start, w) ensures Touchable(b, m, w) {}
    forall n, w | n in m.names.locals && 0 <= w < |m.dram| && m.names.locals[n].Covers(w) ensures end.dram[w] == m.dram[w] {
      CoveredOnce(b, m, w);
      assert !Touchable(b, start, w);
    }
    SameWordsAll(m.names.locals, m.dram, end.dram);
  }

  /** A block leaves the variables around it, and gives its stack back. */
  lemma BlockLeft(b: Board, m: Machine, end: Machine)
    requires WellLaid(b, m) && WellLaid(b, end) && Frame(b, m, end)
    ensures Reaches(b, m, LeftFor(end, m), View(end).Leaving(View(m)))
  {
    hide WordsAt;
    hide Shown;
    hide Touchable;
    var left := LeftFor(end, m);
    assert View(left).locals == View(end).Leaving(View(m)).locals;
  }

  // ----- the NPU call -----

  /** Where the arrays the running function knows stand. */
  function Places(m: Machine): map<string, int>
  {
    map n | n in m.names.locals.Keys + m.names.globals.Keys && m.names.Lookup(n).value.Array? :: m.names.Lookup(n).value.base
  }

  lemma ArraysShown(m: Machine, n: string)
    ensures n in ArraysOf(View(m)) <==> n in Places(m)
    ensures n in Places(m) ==>
              var slot := m.names.Lookup(n).value;
              Places(m)[n] == slot.base && ArraysOf(View(m))[n] == WordsAt(m.dram, slot.base, slot.length)
  {
    hide WordsAt;
    hide View;
    LookupShown(m, n);
  }

  lemma PlacesApart(b: Board, m: Machine, n: string, n': string)
    requires WellLaid(b, m) && n in Places(m) && n' in Places(m)
    ensures var slot, slot' := m.names.Lookup(n).value, m.names.Lookup(n').value;
            && slot.base > 0 && slot.base % WORD_BYTES == 0 && slot.base / WORD_BYTES + slot.length <= |m.dram|
            && Apart(slot.base, slot.length, b.block, WORD_COUNT)
            && (n != n' ==> Apart(slot.base, slot.length, slot'.base, slot'.length))
  {
  }

  lemma MachineLaid(b: Board, m: Machine)
    requires WellLaid(b, m)
    ensures Laid(ArraysOf(View(m)), Places(m), m.dram)
    ensures forall n :: n in ArraysOf(View(m)) ==> Apart(Places(m)[n], |ArraysOf(View(m))[n]|, b.block, WORD_COUNT)
  {
    hide WellLaid;
    hide ArraysOf;
    hide View;
    hide Places;
    hide Apart;
    var arrays, at := ArraysOf(View(m)), Places(m);
    forall n | n in arrays
      ensures n in at && Placed(m.dram, at[n], arrays[n]) && Apart(at[n], |arrays[n]|, b.block, WORD_COUNT)
    {
      ArraysShown(m, n);
      PlacesApart(b, m, n, n);
    }
    forall n, n' | n in arrays && n' in arrays && n != n' ensures Apart(at[n], |arrays[n]|, at[n'], |arrays[n']|) {
      ArraysShown(m, n);
      ArraysShown(m, n');
      PlacesApart(b, m, n, n');
    }
  }

  /** Sizes of products of arrays in memory are small. */
  lemma SizesAreSmall(m: int, n: int, k: int, size: int)
    requires m > 0 && n > 0 && k > 0 && m * k <= size && k * n <= size
    ensures m <= size && n <= size && k <= size && m * k > 0 && k * n > 0 && m * n > 0
  {
    assert (m - 1) * k >= 0 && (k - 1) * m >= 0 && (k - 1) * n >= 0;
  }

  lemma AddressIsSmall(slot: Slot, size: int)
    requires slot.Array? && slot.length > 0 && slot.base / WORD_BYTES + slot.length <= size <= 0x2000_0000
    ensures slot.base < TWO31
  {
  }

  lemma DescriptorFits(p: int, q: int, r: int, rows: int, cols: int, inner: int)
    requires 0 < p < TWO31 && 0 < q < TWO31 && 0 < r < TWO31 && 0 < rows < TWO31 && 0 < cols < TWO31 && 0 < inner < TWO31
    ensures var d := GemmDescriptor(p, q, r, rows, cols, inner); d.Words() && d.NonNegativeWords()
  {
  }

  /** What the C asks of a call makes its descriptor one the device can run. */
  lemma CallIsReady(b: Board, m: Machine, x: string, y: string, z: string, rows: int, cols: int, inner: int)
    requires WellLaid(b, m) && NpuGemm(View(m), x, y, z, rows, cols, inner).Ok?
    ensures x in Places(m) && y in Places(m) && z in Places(m)
    ensures var d := GemmDescriptor(Places(m)[x], Places(m)[y], Places(m)[z], rows, cols, inner);
            && rows > 0 && cols > 0 && inner > 0 && d.aBase > 0 && d.bBase > 0 && d.cBase > 0
            && d.Words() && d.NonNegativeWords()
  {
    hide WordsAt;
    hide View;
    hide Places;
    hide ArraysOf;
    hide FlatProduct;
    LookupShown(m, x);
    LookupShown(m, y);
    LookupShown(m, z);
    ArraysNamed(m, x);
    ArraysNamed(m, y);
    ArraysNamed(m, z);
    PlacesApart(b, m, x, x);
    PlacesApart(b, m, y, y);
    PlacesApart(b, m, z, z);
    SizesAreSmall(rows, cols, inner, |m.dram|);
    AddressIsSmall(m.names.Lookup(x).value, |m.dram|);
    AddressIsSmall(m.names.Lookup(y).value, |m.dram|);
    AddressIsSmall(m.names.Lookup(z).value, |m.dram|);
    DescriptorFits(Places(m)[x], Places(m)[y], Places(m)[z], rows, cols, inner);
  }

  lemma ArraysNamed(m: Machine, n: string)
    ensures ArrayOf(m.names.Lookup(n)).Done? <==> n in Places(m)
    ensures n in Places(m) ==> Places(m)[n] == m.names.Lookup(n).value.base
  {
  }

  lemma GemmStored(b: Board, m: Machine, x: string, y: string, z: string, rows: int, cols: int, inner: int)
    requires WellLaid(b, m) && NpuGemm(View(m), x, y, z, rows, cols, inner).Ok?
    ensures var r := MGemm(m, b, x, y, z, rows, cols, inner);
            r.Done? && Reaches(b, m, r.value, NpuGemm(View(m), x, y, z, rows, cols, inner).value)
  {
    hide View;
    hide Places;
    hide ArraysOf;
    hide FlatProduct;
    hide NpuGemm;
    hide Overlaid;
    hide Loaded;
    hide Laid;
    hide StackLaid;
    hide StaticsLaid;
    hide PairsApart;
    hide HazardFree;
    hide Reaches;
    var st, at := View(m), Places(m);
    CallIsReady(b, m, x, y, z, rows, cols, inner);
    ArraysNamed(m, x);
    ArraysNamed(m, y);
    ArraysNamed(m, z);
    var d := GemmDescriptor(at[x], at[y], at[z], rows, cols, inner);
    MachineLaid(b, m);
    CallStartable(d, m.dram, b.block, st, at, x, y, z);
    var mem := Overlaid(m.dram, b.block / WORD_BYTES, Encode(d));
    ProductLeft(b, m, d, mem, x, y, z);
  }

  /** The product the device leaves is the new contents of its array. */
  lemma ProductLeft(b: Board, m: Machine, d: Descriptor, mem: seq<int>, x: string, y: string, z: string)
    requires WellLaid(b, m) && x in Places(m) && y in Places(m) && z in Places(m)
    requires d == GemmDescriptor(Places(m)[x], Places(m)[y], Places(m)[z], d.m, d.n, d.k) && d.Words()
    requires mem == Overlaid(m.dram, b.block / WORD_BYTES, Encode(d)) && Laid(ArraysOf(View(m)), Places(m), mem)
    requires d.m > 0 && d.n > 0 && d.k > 0 && NpuGemm(View(m), x, y, z, d.m, d.n, d.k).Ok?
    ensures HazardFree(d)
    ensures Reaches(b, m, m.(dram := Multiplied(d, mem)), NpuGemm(View(m), x, y, z, d.m, d.n, d.k).value)
  {
    hide View;
    hide ArraysOf;
    hide FlatProduct;
    hide NpuGemm;
    hide Laid;
    hide StackLaid;
    hide StaticsLaid;
    hide PairsApart;
    hide HazardFree;
    hide Reaches;
    hide WordsAt;
    hide Flat;
    var st, at, arrays := View(m), Places(m), ArraysOf(View(m));
    LaidNames(arrays, at, mem);
    CallAsks(st, at, x, y, z, d.m, d.n, d.k);
    CallIsHazardFree(d, mem, arrays, at, x, y, z);
    PlacesApart(b, m, z, z);
    var dram := Multiplied(d, mem);
    ArraysShown(m, z);
    MultipliedExactly(d, mem, dram);
    PlacedAll(arrays, at, mem, x);
    PlacedAll(arrays, at, mem, y);
    ProductPlaced(d, mem, dram, arrays[x], arrays[y]);
    FlatProductAt(arrays[x], arrays[y], d.m, d.n, d.k);
    PlacedShown(m.names.Lookup(z).value, dram, FlatProduct(arrays[x], arrays[y], d.m, d.n, d.k));
    assert ChangesArray(b, m, z, dram);
    ArrayWritten(b, m, z, dram);
  }

  lemma PlacedAll(arrays: map<string, seq<int>>, at: map<string, int>, mem: seq<int>, n: string)
    requires Laid(arrays, at, mem) && n in arrays
    ensures n in at && Placed(mem, at[n], arrays[n])
  {
  }

  lemma PlacedShown(slot: Slot, dram: seq<int>, cells: seq<int>)
    requires slot.Array? && slot.length == |cells| && Placed(dram, slot.base, cells)
    ensures Shown(slot, dram) == Cells(cells)
  {
    assert WordsAt(dram, slot.base, slot.length) == cells;
  }

  // ----- runs -----

  /** No array is declared on the stack. */
  predicate Lean(items: seq<CStmt>)
    decreases items, 0
  {
    items == [] || (LeanStmt(items[0]) && Lean(items[1..]))
  }

  predicate LeanStmt(s: CStmt)
    decreases s, 1
  {
    match s
    case CArray(_, _, _) => false
    case CIf(_, thn, els) => Lean(thn) && (els.CElseBlock? ==> Lean(els.items))
    case CWhile(_, body) => Lean(body)
    case CFor(start, _, step, body) =>
      (start.Some? ==> LeanStmt(start.value)) && (step.Some? ==> LeanStmt(step.value)) && Lean(body)
    case _ => true
  }

  ghost predicate LeanFunctions(fns: CFunctions)
  {
    forall f :: f in fns ==> Lean(fns[f].body)
  }

  /** What the machine does is what the C does, unless its stack is full, which it never is if the program is lean. */
  ghost predicate EvalAgrees<T(!new)>(r: Result<(T, CState)>, f: Fate<(T, Machine)>, b: Board, lean: bool, m: Machine)
  {
    match r
    case Ok((v, st)) => (f.NoRoom? && !lean) || (f.Done? && f.value.0 == v && Reaches(b, m, f.value.1, st))
    case Timeout => (f.NoRoom? && !lean) || f.Exhausted?
    case Stuck(_) => true
  }

  ghost predicate StepAgrees(r: Result<CState>, f: Fate<Machine>, b: Board, lean: bool, m: Machine)
  {
    match r
    case Ok(st) => (f.NoRoom? && !lean) || (f.Done? && Reaches(b, m, f.value, st))
    case Timeout => (f.NoRoom? && !lean) || f.Exhausted?
    case Stuck(_) => true
  }

  ghost predicate FlowAgrees(r: Result<Flow<CValue>>, f: Fate<Stage>, b: Board, lean: bool, m: Machine)
  {
    match r
    case Ok(Next(st)) => (f.NoRoom? && !lean) || (f.Done? && f.value.MNext? && Reaches(b, m, f.value.m, st))
    case Ok(Returned(v, st)) =>
      (f.NoRoom? && !lean) || (f.Done? && f.value.MReturned? && f.value.value == v && Reaches(b, m, f.value.m, st))
    case Timeout => (f.NoRoom? && !lean) || f.Exhausted?
    case Stuck(_) => true
  }

  lemma EvalOnward<T(!new)>(r: Result<(T, CState)>, f: Fate<(T, Machine)>, b: Board, lean: bool, m: Machine,
                     m1: Machine, st1: CState)
    requires Reaches(b, m, m1, st1) && EvalAgrees(r, f, b, lean, m1)
    ensures EvalAgrees(r, f, b, lean, m)
  {
    hide View;
    hide WellLaid;
    hide Frame;
    if r.Ok? && f.Done? { ReachesOn(b, m, m1, st1, f.value.1, r.value.1); }
  }

  lemma FlowOnward(r: Result<Flow<CValue>>, f: Fate<Stage>, b: Board, lean: bool, m: Machine, m1: Machine, st1: CState)
    requires Reaches(b, m, m1, st1) && FlowAgrees(r, f, b, lean, m1)
    ensures FlowAgrees(r, f, b, lean, m)
  {
    hide View;
    hide WellLaid;
    hide Frame;
    if r.Ok? && f.Done? { ReachesOn(b, m, m1, st1, f.value.m, r.value.st); }
  }

  lemma ReachesOn(b: Board, m: Machine, m1: Machine, st1: CState, m2: Machine, st: CState)
    requires Reaches(b, m, m1, st1) && Reaches(b, m1, m2, st)
    ensures Reaches(b, m, m2, st)
  {
    hide View;
    hide WellLaid;
    hide Frame;
    Onward(b, m, m1, m2, st);
  }

  lemma ReachedView(b: Board, m: Machine, m1: Machine, st1: CState)
    requires Reaches(b, m, m1, st1)
    ensures View(m1) == st1 && WellLaid(b, m1)
  {
  }

  lemma {:induction false} EvalRuns(e: CExpr, m: Machine, fns: CFunctions, order: Order, b: Board, lean: bool, fuel: nat)
    requires WellLaid(b, m)
    requires lean ==> LeanFunctions(fns)
    ensures EvalAgrees(CEval(e, View(m), fns, order, fuel), MEval(e, m, fns, order, b, fuel), b, lean, m)
    decreases fuel, e, 1
  {
    hide View;
    hide WellLaid;
    hide Reaches;
    hide Shown;
    hide CEvalOperands;
    hide MEvalOperands;
    hide ApplyUnary;
    hide ApplyBinary;
    match e
    case CInt(_) => StaysPut(b, m);
    case CVar(name) =>
      StaysPut(b, m);
      NumberRead(m, name);
    case CIndex(_, _) => IndexRuns(e, m, fns, order, b, lean, fuel);
    case CUnary(_, x) => EvalRuns(x, m, fns, order, b, lean, fuel);
    case CBinary(_, _, _) => OperandsRun(e, m, fns, order, b, lean, fuel);
    case CCall(_, _) => CallRuns(e, m, fns, order, b, lean, fuel);
  }

  lemma {:induction false} IndexRuns(e: CExpr, m: Machine, fns: CFunctions, order: Order, b: Board, lean: bool, fuel: nat)
    requires WellLaid(b, m) && e.CIndex?
    requires lean ==> LeanFunctions(fns)
    ensures EvalAgrees(CEval(e, View(m), fns, order, fuel), MEval(e, m, fns, order, b, fuel), b, lean, m)
    decreases fuel, e, 0
  {
    hide View;
    hide WellLaid;
    hide Reaches;
    hide Store.Lookup;
    hide Peek;
    hide LeanFunctions;
    hide CExecBlock;
    hide CExec;
    hide MExec;
    EvalRuns(e.index, m, fns, order, b, lean, fuel);
    var r, f := CEval(e.index, View(m), fns, order, fuel), MEval(e.index, m, fns, order, b, fuel);
    if r.Ok? && f.Done? {
      ReachedView(b, m, f.value.1, r.value.1);
      ElementRead(f.value.1, e.name);
    }
  }

  lemma NumberRead(m: Machine, name: string)
    ensures var slot, v := m.names.Lookup(name), View(m).Lookup(name);
            && (v.Some? <==> slot.Some?)
            && (v.Some? && v.value.CNum? ==> slot.value.Number? && slot.value.n == v.value.n)
  {
    hide View;
    LookupShown(m, name);
  }

  lemma ElementRead(m: Machine, name: string)
    ensures var slot, v := m.names.Lookup(name), View(m).Lookup(name);
            v.Some? && v.value.Cells? ==>
              && slot.Some? && slot.value.Array? && slot.value.length == |v.value.cells|
              && forall x :: 0 <= x < slot.value.length ==>
                   v.value.cells[x] == Peek(m.dram, slot.value.base / WORD_BYTES + x)
  {
    hide View;
    LookupShown(m, name);
  }

  lemma {:induction false} OperandsRun(e: CExpr, m: Machine, fns: CFunctions, order: Order, b: Board, lean: bool, fuel: nat)
    requires WellLaid(b, m) && e.CBinary?
    requires lean ==> LeanFunctions(fns)
    ensures EvalAgrees(CEvalOperands(e, View(m), fns, order, fuel), MEvalOperands(e, m, fns, order, b, fuel), b, lean, m)
    decreases fuel, e, 0
  {
    hide View;
    hide WellLaid;
    hide Reaches;
    hide CEval;
    hide MEval;
    var (x, y) := if order.Swaps([e.left, e.right], View(m)) then (e.right, e.left) else (e.left, e.right);
    EvalRuns(x, m, fns, order, b, lean, fuel);
    var r, f := CEval(x, View(m), fns, order, fuel), MEval(x, m, fns, order, b, fuel);
    if r.Ok? && f.Done? {
      var (st1, m1) := (r.value.1, f.value.1);
      ReachedView(b, m, m1, st1);
      EvalRuns(y, m1, fns, order, b, lean, fuel);
      EvalOnward(CEval(y, st1, fns, order, fuel), MEval(y, m1, fns, order, b, fuel), b, lean, m, m1, st1);
    }
  }

  lemma {:induction false} ArgsRun(args: seq<CExpr>, m: Machine, fns: CFunctions, order: Order, b: Board,
                                   lean: bool, fuel: nat)
    requires WellLaid(b, m)
    requires lean ==> LeanFunctions(fns)
    ensures EvalAgrees(CEvalArgs(args, View(m), fns, order, fuel), MEvalArgs(args, m, fns, order, b, fuel), b, lean, m)
    decreases fuel, args, 0
  {
    hide View;
    hide WellLaid;
    hide Reaches;
    hide CEval;
    hide MEval;
    if args == [] {
      StaysPut(b, m);
    } else if order.Swaps(args, View(m)) {
      ArgsRun(args[1..], m, fns, order, b, lean, fuel);
      var r, f := CEvalArgs(args[1..], View(m), fns, order, fuel), MEvalArgs(args[1..], m, fns, order, b, fuel);
      if r.Ok? && f.Done? {
        var (st1, m1) := (r.value.1, f.value.1);
        ReachedView(b, m, m1, st1);
        EvalRuns(args[0], m1, fns, order, b, lean, fuel);
        EvalOnward(CEval(args[0], st1, fns, order, fuel), MEval(args[0], m1, fns, order, b, fuel), b, lean, m, m1, st1);
      }
    } else {
      EvalRuns(args[0], m, fns, order, b, lean, fuel);
      var r, f := CEval(args[0], View(m), fns, order, fuel), MEval(args[0], m, fns, order, b, fuel);
      if r.Ok? && f.Done? {
        var (st1, m1) := (r.value.1, f.value.1);
        ReachedView(b, m, m1, st1);
        ArgsRun(args[1..], m1, fns, order, b, lean, fuel);
        EvalOnward(CEvalArgs(args[1..], st1, fns, order, fuel), MEvalArgs(args[1..], m1, fns, order, b, fuel), b, lean,
                   m, m1, st1);
      }
    }
  }

  lemma {:induction false} CallRuns(e: CExpr, m: Machine, fns: CFunctions, order: Order, b: Board, lean: bool, fuel: nat)
    requires WellLaid(b, m) && e.CCall?
    requires lean ==> LeanFunctions(fns)
    ensures EvalAgrees(CEval(e, View(m), fns, order, fuel), MEval(e, m, fns, order, b, fuel), b, lean, m)
    decreases fuel, e, 0
  {
    hide View;
    hide WellLaid;
    hide Reaches;
    hide CEvalArgs;
    hide MEvalArgs;
    hide CExecBlock;
    hide MExecBlock;
    hide Entered;
    hide BackIn;
    hide BindCArgs;
    ArgsRun(e.args, m, fns, order, b, lean, fuel);
    var r, f := CEvalArgs(e.args, View(m), fns, order, fuel), MEvalArgs(e.args, m, fns, order, b, fuel);
    if r.Ok? && f.Done? {
      var (vs, st1) := r.value;
      var m1 := f.value.1;
      ReachedView(b, m, m1, st1);
      NumberRead(m1, e.name);
      if e.name in fns && |fns[e.name].params| == |vs| && fuel > 0 {
        var fn := fns[e.name];
        FunctionRuns(fn, vs, m1, fns, order, b, lean, fuel - 1);
        var callee := Store(st1.globals, BindCArgs(fn.params, vs), st1.out);
        var flow := CExecBlock(fn.body, callee, fns, order, fuel - 1);
        var stage := MExecBlock(fn.body, Entered(m1, fn.params, vs), fns, order, b, fuel - 1);
        if flow.Ok? && flow.value.Returned? && stage.Done? {
          ReachesOn(b, m, m1, st1, BackIn(stage.value.m, m1), flow.value.st.Returning(st1));
        }
      }
    }
  }

  lemma {:induction false} FunctionRuns(fn: CFunction, vs: seq<int>, m: Machine, fns: CFunctions, order: Order, b: Board,
                                        lean: bool, fuel: nat)
    requires WellLaid(b, m) && |fn.params| == |vs|
    requires lean ==> LeanFunctions(fns) && Lean(fn.body)
    ensures var callee := Store(View(m).globals, BindCArgs(fn.params, vs), View(m).out);
            var r := CExecBlock(fn.body, callee, fns, order, fuel);
            var f := MExecBlock(fn.body, Entered(m, fn.params, vs), fns, order, b, fuel);
            && FlowAgrees(r, f, b, lean, Entered(m, fn.params, vs))
            && (r.Ok? && f.Done? ==> Reaches(b, m, BackIn(f.value.m, m), r.value.st.Returning(View(m))))
    decreases fuel, fn.body, 1
  {
    hide View;
    hide WellLaid;
    hide Frame;
    hide CExecBlock;
    hide MExecBlock;
    hide Entered;
    hide BackIn;
    hide BindCArgs;
    FunctionEntered(b, m, fn.params, vs);
    var start := Entered(m, fn.params, vs);
    BlockRuns(fn.body, start, fns, order, b, lean, fuel);
    var r, f := CExecBlock(fn.body, View(start), fns, order, fuel), MExecBlock(fn.body, start, fns, order, b, fuel);
    if r.Ok? && f.Done? { CameBack(b, m, fn.params, vs, f.value.m); }
  }

  // ----- statements -----

  lemma {:induction false} SidesRun(target: CExpr, value: CExpr, m: Machine, fns: CFunctions, order: Order, b: Board,
                                    lean: bool, fuel: nat)
    requires WellLaid(b, m) && target.CIndex?
    requires lean ==> LeanFunctions(fns)
    ensures EvalAgrees(CEvalSides(target, value, View(m), fns, order, fuel),
                       MEvalSides(target, value, m, fns, order, b, fuel), b, lean, m)
    decreases fuel, CAssign(target, value), 0
  {
    hide View;
    hide WellLaid;
    hide Reaches;
    hide CEval;
    hide MEval;
    var (x, y) := if order.Swaps([target, value], View(m)) then (value, target.index) else (target.index, value);
    assert x == value || x == target.index;
    EvalRuns(x, m, fns, order, b, lean, fuel);
    var r, f := CEval(x, View(m), fns, order, fuel), MEval(x, m, fns, order, b, fuel);
    if r.Ok? && f.Done? {
      var (st1, m1) := (r.value.1, f.value.1);
      ReachedView(b, m, m1, st1);
      EvalRuns(y, m1, fns, order, b, lean, fuel);
      EvalOnward(CEval(y, st1, fns, order, fuel), MEval(y, m1, fns, order, b, fuel), b, lean, m, m1, st1);
    }
  }

  lemma {:induction false} AssignRuns(target: CExpr, value: CExpr, m: Machine, fns: CFunctions, order: Order, b: Board,
                                      lean: bool, fuel: nat)
    requires WellLaid(b, m)
    requires lean ==> LeanFunctions(fns)
    ensures StepAgrees(CExecAssign(target, value, View(m), fns, order, fuel),
                       MExecAssign(target, value, m, fns, order, b, fuel), b, lean, m)
    decreases fuel, CAssign(target, value), 2
  {
    hide View;
    hide WellLaid;
    hide Reaches;
    hide CEval;
    hide MEval;
    if target.CVar? {
      EvalRuns(value, m, fns, order, b, lean, fuel);
      var r, f := CEval(value, View(m), fns, order, fuel), MEval(value, m, fns, order, b, fuel);
      if r.Ok? && f.Done? { NumberStepped(b, m, f.value.1, r.value.1, target.name, r.value.0); }
    } else if target.CIndex? {
      ElementAssignRuns(target, value, m, fns, order, b, lean, fuel);
    }
  }

  lemma {:induction false} ElementAssignRuns(target: CExpr, value: CExpr, m: Machine, fns: CFunctions, order: Order,
                                             b: Board, lean: bool, fuel: nat)
    requires WellLaid(b, m) && target.CIndex?
    requires lean ==> LeanFunctions(fns)
    ensures StepAgrees(CExecAssign(target, value, View(m), fns, order, fuel),
                       MExecAssign(target, value, m, fns, order, b, fuel), b, lean, m)
    decreases fuel, CAssign(target, value), 1
  {
    hide View;
    hide WellLaid;
    hide Reaches;
    hide CExecAssign;
    hide MExecAssign;
    hide CEvalSides;
    hide MEvalSides;
    hide Stored;
    ElementAssigned(target, value, View(m), fns, order, fuel);
    ElementAssignedThere(target, value, m, fns, order, b, fuel);
    SidesRun(target, value, m, fns, order, b, lean, fuel);
    var r, f := CEvalSides(target, value, View(m), fns, order, fuel), MEvalSides(target, value, m, fns, order, b, fuel);
    if r.Ok? && f.Done? { ElementStepped(b, m, f.value.1, r.value.1, target.name, r.value.0.0, r.value.0.1); }
  }

  lemma ElementAssigned(target: CExpr, value: CExpr, st: CState, fns: CFunctions, order: Order, fuel: nat)
    requires target.CIndex?
    ensures var sides, r := CEvalSides(target, value, st, fns, order, fuel), CExecAssign(target, value, st, fns, order, fuel);
            match sides
            case Ok(((x, v), st2)) =>
              var before := st2.Lookup(target.name);
              r == if before.Some? && before.value.Cells? && 0 <= x < |before.value.cells|
                   then Ok(st2.Assigned(target.name, Cells(before.value.cells[x := v])))
                   else Stuck(if before.None? then UNDECLARED else if before.value.CNum? then MISFIT else INDEX)
            case Timeout => r.Timeout?
            case Stuck(_) => r.Stuck?
  {
    hide CEvalSides;
  }

  lemma ElementAssignedThere(target: CExpr, value: CExpr, m: Machine, fns: CFunctions, order: Order, b: Board, fuel: nat)
    requires target.CIndex?
    ensures var sides, f := MEvalSides(target, value, m, fns, order, b, fuel), MExecAssign(target, value, m, fns, order, b, fuel);
            match sides
            case Done(((x, v), m2)) =>
              var slot := m2.names.Lookup(target.name);
              f == if slot.Some? && slot.value.Array? && 0 <= x < slot.value.length
                   then Done(m2.(dram := Stored(m2.dram, slot.value.base / WORD_BYTES + x, v))) else Wrong
            case Wrong => f.Wrong?
            case Exhausted => f.Exhausted?
            case NoRoom => f.NoRoom?
  {
    hide MEvalSides;
    hide Stored;
  }

  lemma NumberStepped(b: Board, m: Machine, m1: Machine, st1: CState, name: string, v: int)
    requires Reaches(b, m, m1, st1)
    ensures var before := st1.Lookup(name);
            before.Some? && before.value.CNum? ==>
              && m1.names.Lookup(name).Some? && m1.names.Lookup(name).value.Number?
              && Reaches(b, m, m1.(names := m1.names.Assigned(name, Number(v))), st1.Assigned(name, CTarget.CNum(v)))
  {
    hide View;
    hide WellLaid;
    hide Reaches;
    ReachedView(b, m, m1, st1);
    NumberRead(m1, name);
    if st1.Lookup(name).Some? && st1.Lookup(name).value.CNum? {
      NumberAssigned(b, m1, name, v);
      ReachesOn(b, m, m1, st1, m1.(names := m1.names.Assigned(name, Number(v))), st1.Assigned(name, CTarget.CNum(v)));
    }
  }

  lemma ElementStepped(b: Board, m: Machine, m1: Machine, st1: CState, name: string, x: int, v: int)
    requires Reaches(b, m, m1, st1)
    ensures var before := st1.Lookup(name);
            before.Some? && before.value.Cells? && 0 <= x < |before.value.cells| ==>
              && ArrayOf(m1.names.Lookup(name)).Done? && x < m1.names.Lookup(name).value.length
              && Reaches(b, m, m1.(dram := Stored(m1.dram, m1.names.Lookup(name).value.base / WORD_BYTES + x, v)),
                         st1.Assigned(name, Cells(before.value.cells[x := v])))
  {
    hide View;
    hide WellLaid;
    hide Reaches;
    hide Stored;
    hide WordsAt;
    ReachedView(b, m, m1, st1);
    ElementRead(m1, name);
    var before := st1.Lookup(name);
    if before.Some? && before.value.Cells? && 0 <= x < |before.value.cells| {
      ElementStored(b, m1, name, x, v);
      ReachesOn(b, m, m1, st1, m1.(dram := Stored(m1.dram, m1.names.Lookup(name).value.base / WORD_BYTES + x, v)),
                st1.Assigned(name, Cells(before.value.cells[x := v])));
    }
  }

  lemma {:induction false} BlockRuns(items: seq<CStmt>, m: Machine, fns: CFunctions, order: Order, b: Board,
                                     lean: bool, fuel: nat)
    requires WellLaid(b, m)
    requires lean ==> LeanFunctions(fns) && Lean(items)
    ensures FlowAgrees(CExecBlock(items, View(m), fns, order, fuel), MExecBlock(items, m, fns, order, b, fuel), b, lean, m)
    decreases fuel, items, 0
  {
    hide View;
    hide WellLaid;
    hide Reaches;
    hide CExec;
    hide MExec;
    if items == [] {
      StaysPut(b, m);
    } else {
      StmtRuns(items[0], m, fns, order, b, lean, fuel);
      var r, f := CExec(items[0], View(m), fns, order, fuel), MExec(items[0], m, fns, order, b, fuel);
      if r.Ok? && r.value.Next? && f.Done? {
        var (st1, m1) := (r.value.st, f.value.m);
        ReachedView(b, m, m1, st1);
        BlockRuns(items[1..], m1, fns, order, b, lean, fuel);
        FlowOnward(CExecBlock(items[1..], st1, fns, order, fuel), MExecBlock(items[1..], m1, fns, order, b, fuel), b, lean,
                   m, m1, st1);
      }
    }
  }

  lemma {:induction false} ScopedRuns(items: seq<CStmt>, m: Machine, fns: CFunctions, order: Order, b: Board,
                                      lean: bool, fuel: nat)
    requires WellLaid(b, m)
    requires lean ==> LeanFunctions(fns) && Lean(items)
    ensures FlowAgrees(CScoped(items, View(m), fns, order, fuel), MScoped(items, m, fns, order, b, fuel), b, lean, m)
    decreases fuel, items, 1
  {
    hide View;
    hide WellLaid;
    hide CExecBlock;
    hide MExecBlock;
    hide LeftFor;
    hide Frame;
    BlockRuns(items, m, fns, order, b, lean, fuel);
    var f := MExecBlock(items, m, fns, order, b, fuel);
    if CExecBlock(items, View(m), fns, order, fuel).Ok? && f.Done? { BlockLeft(b, m, f.value.m); }
  }

  lemma {:induction false} StmtRuns(s: CStmt, m: Machine, fns: CFunctions, order: Order, b: Board, lean: bool, fuel: nat)
    requires WellLaid(b, m)
    requires lean ==> LeanFunctions(fns) && LeanStmt(s)
    ensures FlowAgrees(CExec(s, View(m), fns, order, fuel), MExec(s, m, fns, order, b, fuel), b, lean, m)
    decreases fuel, s, 3
  {
    hide View;
    hide WellLaid;
    hide Reaches;
    hide CExecAssign;
    hide MExecAssign;
    hide NpuGemm;
    hide MGemm;
    hide Unescape;
    hide Pushed;
    match s
    case CArray(name, count, values) =>
      LookupShown(m, name);
      if name !in m.names.locals && b.low <= m.sp - |values| { ArrayPushed(b, m, name, values); }
    case CDeclare(_, _) => DeclareRuns(s, m, fns, order, b, lean, fuel);
    case CAssign(target, value) => AssignRuns(target, value, m, fns, order, b, lean, fuel);
    case CGemm(x, y, z, rows, cols, inner) =>
      if NpuGemm(View(m), x, y, z, rows, cols, inner).Ok? { GemmStored(b, m, x, y, z, rows, cols, inner); }
      NpuGemmEnds(View(m), x, y, z, rows, cols, inner);
    case CPrint(literal) =>
      if Unescape(literal).Some? { TextPrinted(b, m, BeforeNul(Unescape(literal).value)); }
    case CIf(_, _, _) => IfRuns(s, m, fns, order, b, lean, fuel);
    case CWhile(_, _) => WhileRuns(s, m, fns, order, b, lean, fuel);
    case CFor(_, _, _, _) => ForRuns(s, m, fns, order, b, lean, fuel);
    case CReturn(value) => EvalRuns(value, m, fns, order, b, lean, fuel);
    case CExprStmt(_) => ExprStmtRuns(s, m, fns, order, b, lean, fuel);
  }

  lemma NpuGemmEnds(st: CState, x: string, y: string, z: string, rows: int, cols: int, inner: int)
    ensures !NpuGemm(st, x, y, z, rows, cols, inner).Timeout?
  {
  }

  lemma {:induction false} DeclareRuns(s: CStmt, m: Machine, fns: CFunctions, order: Order, b: Board, lean: bool, fuel: nat)
    requires WellLaid(b, m) && s.CDeclare?
    requires lean ==> LeanFunctions(fns)
    ensures FlowAgrees(CExec(s, View(m), fns, order, fuel), MExec(s, m, fns, order, b, fuel), b, lean, m)
    decreases fuel, s, 1
  {
    hide View;
    hide WellLaid;
    hide Reaches;
    hide CEval;
    hide MEval;
    EvalRuns(s.value, m, fns, order, b, lean, fuel);
    var r, f := CEval(s.value, View(m), fns, order, fuel), MEval(s.value, m, fns, order, b, fuel);
    if r.Ok? && f.Done? {
      var (st1, m1) := (r.value.1, f.value.1);
      ReachedView(b, m, m1, st1);
      LookupShown(m1, s.name);
      if s.name !in m1.names.locals {
        NumberDeclared(b, m1, s.name, r.value.0);
        ReachesOn(b, m, m1, st1, m1.(names := m1.names.Declared(s.name, Number(r.value.0))),
                  st1.Declared(s.name, CTarget.CNum(r.value.0)));
      }
    }
  }

  lemma {:induction false} ExprStmtRuns(s: CStmt, m: Machine, fns: CFunctions, order: Order, b: Board, lean: bool, fuel: nat)
    requires WellLaid(b, m) && s.CExprStmt?
    requires lean ==> LeanFunctions(fns)
    ensures FlowAgrees(CExec(s, View(m), fns, order, fuel), MExec(s, m, fns, order, b, fuel), b, lean, m)
    decreases fuel, s, 1
  {
    hide View;
    hide WellLaid;
    hide Reaches;
    hide CEval;
    hide MEval;
    StaysPut(b, m);
    if s.expr.CVar? { NumberRead(m, s.expr.name); }
    EvalRuns(s.expr, m, fns, order, b, lean, fuel);
  }

  lemma {:induction false} IfRuns(s: CStmt, m: Machine, fns: CFunctions, order: Order, b: Board, lean: bool, fuel: nat)
    requires WellLaid(b, m) && s.CIf?
    requires lean ==> LeanFunctions(fns) && LeanStmt(s)
    ensures FlowAgrees(CExec(s, View(m), fns, order, fuel), MExec(s, m, fns, order, b, fuel), b, lean, m)
    decreases fuel, s, 1
  {
    hide View;
    hide WellLaid;
    hide Reaches;
    hide CEval;
    hide MEval;
    hide CScoped;
    hide MScoped;
    EvalRuns(s.cond, m, fns, order, b, lean, fuel);
    var r, f := CEval(s.cond, View(m), fns, order, fuel), MEval(s.cond, m, fns, order, b, fuel);
    if r.Ok? && f.Done? {
      var (st1, m1) := (r.value.1, f.value.1);
      ReachedView(b, m, m1, st1);
      if r.value.0 != 0 || s.els.CElseBlock? {
        var items := if r.value.0 != 0 then s.thn else s.els.items;
        ScopedRuns(items, m1, fns, order, b, lean, fuel);
        FlowOnward(CScoped(items, st1, fns, order, fuel), MScoped(items, m1, fns, order, b, fuel), b, lean, m, m1, st1);
      }
    }
  }

  lemma {:induction false} WhileRuns(s: CStmt, m: Machine, fns: CFunctions, order: Order, b: Board, lean: bool, fuel: nat)
    requires WellLaid(b, m) && s.CWhile?
    requires lean ==> LeanFunctions(fns) && LeanStmt(s)
    ensures FlowAgrees(CExec(s, View(m), fns, order, fuel), MExec(s, m, fns, order, b, fuel), b, lean, m)
    decreases fuel, s, 1
  {
    hide View;
    hide WellLaid;
    hide Reaches;
    hide CEval;
    hide MEval;
    hide CScoped;
    hide MScoped;
    EvalRuns(s.cond, m, fns, order, b, lean, fuel);
    var r, f := CEval(s.cond, View(m), fns, order, fuel), MEval(s.cond, m, fns, order, b, fuel);
    if r.Ok? && f.Done? && r.value.0 != 0 {
      var (st1, m1) := (r.value.1, f.value.1);
      ReachedView(b, m, m1, st1);
      ScopedRuns(s.body, m1, fns, order, b, lean, fuel);
      var flow, stage := CScoped(s.body, st1, fns, order, fuel), MScoped(s.body, m1, fns, order, b, fuel);
      FlowOnward(flow, stage, b, lean, m, m1, st1);
      if flow.Ok? && flow.value.Next? && stage.Done? && fuel > 0 {
        var (st2, m2) := (flow.value.st, stage.value.m);
        ReachedView(b, m, m2, st2);
        StmtRuns(s, m2, fns, order, b, lean, fuel - 1);
        FlowOnward(CExec(s, st2, fns, order, fuel - 1), MExec(s, m2, fns, order, b, fuel - 1), b, lean, m, m2, st2);
      }
    }
  }

  lemma {:induction false} ForRuns(s: CStmt, m: Machine, fns: CFunctions, order: Order, b: Board, lean: bool, fuel: nat)
    requires WellLaid(b, m) && s.CFor?
    requires lean ==> LeanFunctions(fns) && LeanStmt(s)
    ensures FlowAgrees(CExec(s, View(m), fns, order, fuel), MExec(s, m, fns, order, b, fuel), b, lean, m)
    decreases fuel, s, 1
  {
    hide View;
    hide WellLaid;
    hide Frame;
    hide CExecPart;
    hide MExecPart;
    hide CRepeat;
    hide MRepeat;
    hide LeftFor;
    PartRuns(s.start, m, fns, order, b, lean, fuel);
    var r, f := CExecPart(s.start, View(m), fns, order, fuel), MExecPart(s.start, m, fns, order, b, fuel);
    if r.Ok? && r.value.Next? && f.Done? {
      var (st1, m1) := (r.value.st, f.value.m);
      RepeatRuns(s, m1, fns, order, b, lean, fuel);
      var end, last := CRepeat(s, st1, fns, order, fuel), MRepeat(s, m1, fns, order, b, fuel);
      FlowOnward(end, last, b, lean, m, m1, st1);
      if end.Ok? && last.Done? { BlockLeft(b, m, last.value.m); }
    }
  }

  lemma {:induction false} RepeatRuns(s: CStmt, m: Machine, fns: CFunctions, order: Order, b: Board, lean: bool, fuel: nat)
    requires WellLaid(b, m) && s.CFor?
    requires lean ==> LeanFunctions(fns) && LeanStmt(s)
    ensures FlowAgrees(CRepeat(s, View(m), fns, order, fuel), MRepeat(s, m, fns, order, b, fuel), b, lean, m)
    decreases fuel, s, 0, 1
  {
    hide View;
    hide WellLaid;
    hide Reaches;
    hide CEvalTest;
    hide MEvalTest;
    hide CRound;
    hide MRound;
    TestRuns(s.test, m, fns, order, b, lean, fuel);
    var r, f := CEvalTest(s.test, View(m), fns, order, fuel), MEvalTest(s.test, m, fns, order, b, fuel);
    if r.Ok? && f.Done? && r.value.0 != 0 {
      var (st1, m1) := (r.value.1, f.value.1);
      ReachedView(b, m, m1, st1);
      RoundRuns(s, m1, fns, order, b, lean, fuel);
      var flow, stage := CRound(s, st1, fns, order, fuel), MRound(s, m1, fns, order, b, fuel);
      FlowOnward(flow, stage, b, lean, m, m1, st1);
      if flow.Ok? && flow.value.Next? && stage.Done? && fuel > 0 {
        var (st2, m2) := (flow.value.st, stage.value.m);
        ReachedView(b, m, m2, st2);
        RepeatRuns(s, m2, fns, order, b, lean, fuel - 1);
        FlowOnward(CRepeat(s, st2, fns, order, fuel - 1), MRepeat(s, m2, fns, order, b, fuel - 1), b, lean, m, m2, st2);
      }
    }
  }

  lemma {:induction false} RoundRuns(s: CStmt, m: Machine, fns: CFunctions, order: Order, b: Board, lean: bool, fuel: nat)
    requires WellLaid(b, m) && s.CFor?
    requires lean ==> LeanFunctions(fns) && LeanStmt(s)
    ensures FlowAgrees(CRound(s, View(m), fns, order, fuel), MRound(s, m, fns, order, b, fuel), b, lean, m)
    decreases fuel, s, 0, 0
  {
    hide View;
    hide WellLaid;
    hide Reaches;
    hide CScoped;
    hide MScoped;
    hide CExecPart;
    hide MExecPart;
    ScopedRuns(s.body, m, fns, order, b, lean, fuel);
    var r, f := CScoped(s.body, View(m), fns, order, fuel), MScoped(s.body, m, fns, order, b, fuel);
    if r.Ok? && r.value.Next? && f.Done? {
      var (st1, m1) := (r.value.st, f.value.m);
      ReachedView(b, m, m1, st1);
      PartRuns(s.step, m1, fns, order, b, lean, fuel);
      FlowOnward(CExecPart(s.step, st1, fns, order, fuel), MExecPart(s.step, m1, fns, order, b, fuel), b, lean, m, m1, st1);
    }
  }

  lemma {:induction false} TestRuns(test: Option<CExpr>, m: Machine, fns: CFunctions, order: Order, b: Board,
                                    lean: bool, fuel: nat)
    requires WellLaid(b, m)
    requires lean ==> LeanFunctions(fns)
    ensures EvalAgrees(CEvalTest(test, View(m), fns, order, fuel), MEvalTest(test, m, fns, order, b, fuel), b, lean, m)
    decreases fuel, test, 0
  {
    hide View;
    hide WellLaid;
    hide Reaches;
    hide CEval;
    hide MEval;
    StaysPut(b, m);
    if test.Some? { EvalRuns(test.value, m, fns, order, b, lean, fuel); }
  }

  lemma {:induction false} PartRuns(part: Option<CStmt>, m: Machine, fns: CFunctions, order: Order, b: Board,
                                    lean: bool, fuel: nat)
    requires WellLaid(b, m)
    requires lean ==> LeanFunctions(fns) && (part.Some? ==> LeanStmt(part.value))
    ensures FlowAgrees(CExecPart(part, View(m), fns, order, fuel), MExecPart(part, m, fns, order, b, fuel), b, lean, m)
    decreases fuel, part, 0
  {
    hide View;
    hide WellLaid;
    hide Reaches;
    hide CExec;
    hide MExec;
    StaysPut(b, m);
    if part.Some? { StmtRuns(part.value, m, fns, order, b, lean, fuel); }
  }

  // ----- programs -----

  /** `user_main` on a machine. */
  ghost function MRun(p: CProgram, m: Machine, order: Order, b: Board, fuel: nat): Fate<(int, Machine)>
  {
    var stage :- MExecBlock(p.main, m, CFunctionsOf(p.functions), order, b, fuel);
    if stage.MReturned? then Done((stage.value, stage.m)) else Wrong
  }

  /** The program is loaded: its static arrays stand in DRAM with their initializers. */
  ghost predicate Booted(p: CProgram, m: Machine, b: Board)
  {
    WellLaid(b, m) && View(m) == Store(StaticArrays(p.globals), map[], "")
  }

  /** Where the linker has put the static arrays: below the stack, beside the descriptor block, apart from each other, and
      with their initializers. */
  ghost predicate Linked(p: CProgram, at: map<string, int>, dram: seq<int>, b: Board)
  {
    var statics := StaticArrays(p.globals);
    && BoardOk(b, |dram|) && statics.Keys <= at.Keys
    && (forall n :: n in statics ==>
          && statics[n].Cells? && at[n] > 0 && Placed(dram, at[n], statics[n].cells)
          && at[n] / WORD_BYTES + |statics[n].cells| <= b.low && Apart(at[n], |statics[n].cells|, b.block, WORD_COUNT))
    && (forall n, n' :: n in statics && n' in statics && n != n' ==>
          Apart(at[n], |statics[n].cells|, at[n'], |statics[n'].cells|))
  }

  /** The machine before the first statement: an empty stack. */
  ghost function StartOf(p: CProgram, at: map<string, int>, dram: seq<int>, b: Board): Machine
    requires Linked(p, at, dram, b)
  {
    var statics := StaticArrays(p.globals);
    Machine(Store(map n | n in statics :: Array(at[n], |statics[n].cells|), map[], ""), dram, |dram|)
  }

  lemma LinkedIsBooted(p: CProgram, at: map<string, int>, dram: seq<int>, b: Board)
    requires Linked(p, at, dram, b)
    ensures Booted(p, StartOf(p, at, dram, b), b)
  {
    var m, statics := StartOf(p, at, dram, b), StaticArrays(p.globals);
    hide StaticArrays;
    forall n | n in statics ensures Shown(m.names.globals[n], dram) == statics[n] {
      PlacedShown(m.names.globals[n], dram, statics[n].cells);
    }
    hide Shown;
    assert View(m).globals == statics;
  }

  ghost predicate LeanProgram(p: CProgram)
  {
    Lean(p.main) && LeanFunctions(CFunctionsOf(p.functions))
  }

  /** Main result: whatever order C takes operands in, the machine prints the same text, returns the same code and ends with
      the same arrays as the C does over arrays with names, each where it stood; of the other words of DRAM only the descriptor
      block and the stack have changed.  Only a full stack ends it early, and a lean program never fills it. */
  lemma ProgramRuns(p: CProgram, m: Machine, order: Order, b: Board, fuel: nat)
    requires Booted(p, m, b)
    ensures EvalAgrees(CRun(p, order, fuel), MRun(p, m, order, b, fuel), b, LeanProgram(p), m)
  {
    hide View;
    hide WellLaid;
    hide Reaches;
    hide CExecBlock;
    hide MExecBlock;
    BlockRuns(p.main, m, CFunctionsOf(p.functions), order, b, LeanProgram(p), fuel);
  }
}
