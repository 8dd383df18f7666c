/** The systolic grid as a pure machine: one simultaneous step of unboundedly many cells, the
    wavefront each dataflow produces, and the bound that keeps every register in 32 bits. */
module Systolic {
  import opened Words

  type Matrix = (int, int) -> int

  /** `Invalid` is a value of the source's enumeration outside its three names. */
  datatype Dataflow = WS | OS | IS | Invalid(code: nat)

  /** The registers of one processing element. */
  datatype Cell = Cell(mode: Dataflow, input0: int, input1: int, output0: int, output1: int,
                       weight: int, input: int, psum: int)

  const BlankCell: Cell := Cell(OS, 0, 0, 0, 0, 0, 0, 0)

  /** One clock of a cell that sees `lhs` on its left and `rhs` above. */
  function Tick(c: Cell, lhs: int, rhs: int): Cell
  {
    var d := c.(input0 := lhs, input1 := rhs);
    match c.mode
    case OS => d.(psum := c.psum + lhs * rhs, output0 := lhs, output1 := rhs)
    case WS => var s := lhs * c.weight + rhs; d.(psum := s, output0 := lhs, output1 := s)
    case IS => var s := lhs + c.input * rhs; d.(psum := s, output0 := s, output1 := rhs)
    case Invalid(_) => d
  }

  /** One clock on the inputs already latched. */
  function Stepped(c: Cell): Cell
  {
    Tick(c, c.input0, c.input1)
  }

  lemma SteppedOnInputs(c: Cell, lhs: int, rhs: int)
    ensures Stepped(c.(input0 := lhs, input1 := rhs)) == Tick(c, lhs, rhs)
  {
  }

  /** The product a cell formed on its last clock. */
  function LastProduct(c: Cell): int
  {
    match c.mode
    case OS => c.input0 * c.input1
    case WS => c.input0 * c.weight
    case IS => c.input * c.input1
    case Invalid(_) => 0
  }

  /** One tile product: `c + a * b` with `a` of m by k, `b` of k by n and `c` of m by n. */
  datatype Job = Job(mode: Dataflow, a: Matrix, b: Matrix, c: Matrix, m: nat, n: nat, k: nat)
  {
    ghost function A(i: int, p: int): int { if 0 <= i < m && 0 <= p < k then a(i, p) else 0 }

    ghost function B(p: int, j: int): int { if 0 <= p < k && 0 <= j < n then b(p, j) else 0 }

    ghost function C(i: int, j: int): int { if 0 <= i < m && 0 <= j < n then c(i, j) else 0 }

    /** The first `count` products of row i and column j. */
    ghost function Dot(i: int, j: int, count: int): int
      decreases if count < 0 then 0 else count
    {
      if count <= 0 then 0 else Dot(i, j, count - 1) + A(i, count - 1) * B(count - 1, j)
    }

    ghost function Result(i: int, j: int): int { C(i, j) + Dot(i, j, k) }

    function Cycles(): int { m + n + k - 2 }

    /** The job whose operands trade places: its result is the transpose. */
    ghost function Transposed(mode': Dataflow): Job
    {
      Job(mode', (i, j) => b(j, i), (i, j) => a(j, i), (i, j) => c(j, i), n, m, k)
    }

    /** A cell of the grid once the mode and the stationary operand are loaded. */
    ghost function Loaded(i: int, j: int): Cell
    {
      var blank := BlankCell.(mode := mode);
      match mode
      case OS => blank.(psum := C(i, j))
      case WS => blank.(weight := B(i, j))
      case IS => blank.(input := A(i, j))
      case Invalid(_) => blank
    }

    /** What enters row i from the left on clock t. */
    ghost function Left(t: int, i: int): int
    {
      match mode
      case OS => A(i, t - i)
      case WS => A(t - i, i)
      case IS => C(i, t - i)
      case Invalid(_) => 0
    }

    /** What enters column j from above on clock t. */
    ghost function Top(t: int, j: int): int
    {
      match mode
      case OS => B(t - j, j)
      case WS => C(t - j, j)
      case IS => B(j, t - j)
      case Invalid(_) => 0
    }

    /** Cell (i, j) after `t` clocks of the whole grid, all cells stepping at once. */
    ghost function At(t: nat, i: nat, j: nat): Cell
      decreases t
    {
      if t == 0 then Loaded(i, j) else
        Tick(At(t - 1, i, j),
             if j == 0 then Left(t - 1, i) else At(t - 1, i, j - 1).output0,
             if i == 0 then Top(t - 1, j) else At(t - 1, i - 1, j).output1)
    }
  }

  // ----- sums of products -----

  lemma {:induction false} DotBeyond(job: Job, i: int, j: int, count: int)
    requires count >= job.k
    ensures job.Dot(i, j, count) == job.Dot(i, j, job.k)
    decreases count
  {
    if count > job.k {
      DotBeyond(job, i, j, count - 1);
    }
  }

  lemma {:induction false} DotOutside(job: Job, i: int, j: int, count: int)
    requires !(0 <= i < job.m) || !(0 <= j < job.n)
    ensures job.Dot(i, j, count) == 0
    decreases if count < 0 then 0 else count
  {
    if count > 0 {
      DotOutside(job, i, j, count - 1);
    }
  }

  lemma {:induction false} DotTransposed(job: Job, mode': Dataflow, i: int, j: int, count: int)
    ensures job.Transposed(mode').Dot(j, i, count) == job.Dot(i, j, count)
    decreases if count < 0 then 0 else count
  {
    if count > 0 {
      DotTransposed(job, mode', i, j, count - 1);
    }
  }

  // ----- wavefronts -----

  /** Output stationary: after t clocks cell (i, j) forwards A(i, s) and B(s, j) with
      s = t - 1 - i - j and has accumulated the first t - i - j products. */
  ghost function OutputStationaryCell(job: Job, t: int, i: int, j: int): Cell
  {
    var s := t - 1 - i - j;
    var x, y := job.A(i, s), job.B(s, j);
    Cell(OS, x, y, x, y, 0, 0, job.C(i, j) + job.Dot(i, j, s + 1))
  }

  lemma OutputStationaryClock(job: Job, t: int, i: int, j: int)
    ensures OutputStationaryCell(job, t + 1, i, j)
         == Tick(OutputStationaryCell(job, t, i, j), job.A(i, t - i - j), job.B(t - i - j, j))
  {
  }

  lemma {:induction false} OutputStationaryWavefront(job: Job, t: nat, i: nat, j: nat)
    requires job.mode == OS
    ensures job.At(t, i, j) == OutputStationaryCell(job, t, i, j)
    decreases t
  {
    hide Tick;
    if t > 0 {
      OutputStationaryWavefront(job, t - 1, i, j);
      if j > 0 { OutputStationaryWavefront(job, t - 1, i, j - 1); }
      if i > 0 { OutputStationaryWavefront(job, t - 1, i - 1, j); }
      OutputStationaryClock(job, t - 1, i, j);
    }
  }

  /** Weight stationary: after t clocks cell (p, j) holds weight B(p, j) and emits downward row
      r = t - 1 - p - j of C plus the products up to and including p. */
  ghost function WeightStationaryCell(job: Job, t: int, p: int, j: int): Cell
  {
    var r := t - 1 - p - j;
    var x, s := job.A(r, p), job.C(r, j) + job.Dot(r, j, p + 1);
    var above := if t == 0 then 0 else job.C(r, j) + job.Dot(r, j, p);
    Cell(WS, x, above, x, s, job.B(p, j), 0, s)
  }

  lemma WeightStationaryClock(job: Job, t: nat, p: nat, j: nat)
    ensures WeightStationaryCell(job, t + 1, p, j)
         == Tick(WeightStationaryCell(job, t, p, j), job.A(t - p - j, p),
                 job.C(t - p - j, j) + job.Dot(t - p - j, j, p))
  {
  }

  lemma {:induction false} WeightStationaryWavefront(job: Job, t: nat, p: nat, j: nat)
    requires job.mode == WS
    ensures job.At(t, p, j) == WeightStationaryCell(job, t, p, j)
    decreases t
  {
    hide Tick;
    if t == 0 {
      DotOutside(job, -1 - p - j, j, p + 1);
    } else {
      WeightStationaryWavefront(job, t - 1, p, j);
      if j > 0 { WeightStationaryWavefront(job, t - 1, p, j - 1); }
      if p > 0 { WeightStationaryWavefront(job, t - 1, p - 1, j); }
      WeightStationaryClock(job, t - 1, p, j);
    }
  }

  /** A cell with its two ports, and its two stationary registers, exchanged. */
  function Mirrored(c: Cell): Cell
  {
    var mode := match c.mode case WS => IS case IS => WS case OS => OS case Invalid(x) => Invalid(x);
    Cell(mode, c.input1, c.input0, c.output1, c.output0, c.input, c.weight, c.psum)
  }

  lemma MirroredTick(c: Cell, lhs: int, rhs: int)
    ensures Mirrored(Tick(c, lhs, rhs)) == Tick(Mirrored(c), rhs, lhs)
  {
  }

  /** Input stationary is weight stationary on the transposed job, clock by clock and cell by cell. */
  lemma {:induction false} InputStationaryMirrorsWeightStationary(job: Job, t: nat, i: nat, j: nat)
    requires job.mode == IS
    ensures job.At(t, i, j) == Mirrored(job.Transposed(WS).At(t, j, i))
    decreases t
  {
    hide Tick;
    if t > 0 {
      var flipped := job.Transposed(WS);
      InputStationaryMirrorsWeightStationary(job, t - 1, i, j);
      if j > 0 { InputStationaryMirrorsWeightStationary(job, t - 1, i, j - 1); }
      if i > 0 { InputStationaryMirrorsWeightStationary(job, t - 1, i - 1, j); }
      MirroredTick(flipped.At(t - 1, j, i),
                   if i == 0 then flipped.Left(t - 1, j) else flipped.At(t - 1, j, i - 1).output0,
                   if j == 0 then flipped.Top(t - 1, i) else flipped.At(t - 1, j - 1, i).output1);
    }
  }

  lemma InputStationaryWavefront(job: Job, t: nat, i: nat, p: nat)
    requires job.mode == IS
    ensures var r := t - 1 - i - p;
            var y, s := job.B(p, r), job.C(i, r) + job.Dot(i, r, p + 1);
            var before := if t == 0 then 0 else job.C(i, r) + job.Dot(i, r, p);
            job.At(t, i, p) == Cell(IS, before, y, s, y, 0, job.A(i, p), s)
  {
    hide Tick;
    hide Job.Dot;
    var r := t - 1 - i - p;
    InputStationaryMirrorsWeightStationary(job, t, i, p);
    WeightStationaryWavefront(job.Transposed(WS), t, p, i);
    DotTransposed(job, WS, i, r, p + 1);
    DotTransposed(job, WS, i, r, p);
  }

  // ----- what the host reads -----

  /** The cell, port and clock at which each mode's result element (i, j) is collected. */
  ghost function Collected(job: Job, i: nat, j: nat): int
    requires i < job.m && j < job.n && job.k > 0
  {
    match job.mode
    case OS => job.At(job.Cycles(), i, j).psum
    case WS => job.At(i + j + job.k, job.k - 1, j).output1
    case IS => job.At(i + j + job.k, i, job.k - 1).output0
    case Invalid(_) => 0
  }

  /** All three dataflows deliver `c + a * b`, within the same number of clocks. */
  lemma AllModesAgree(job: Job, i: nat, j: nat)
    requires !job.mode.Invalid? && i < job.m && j < job.n && job.k > 0
    ensures Collected(job, i, j) == job.Result(i, j)
    ensures i + j + job.k <= job.Cycles()
  {
    hide Tick;
    match job.mode
    case OS =>
      OutputStationaryWavefront(job, job.Cycles(), i, j);
      DotBeyond(job, i, j, job.Cycles() - i - j);
    case WS => WeightStationaryWavefront(job, i + j + job.k, job.k - 1, j);
    case IS => InputStationaryWavefront(job, i + j + job.k, i, job.k - 1);
  }

  /** The clock count is tight: one clock earlier the last corner of the output-stationary grid
      still lacks exactly its last product. */
  lemma OneClockShort(job: Job)
    requires job.mode == OS && job.m > 0 && job.n > 0 && job.k > 0
    ensures var i, j := job.m - 1, job.n - 1;
            job.At(job.Cycles() - 1, i, j).psum + job.A(i, job.k - 1) * job.B(job.k - 1, j)
              == job.Result(i, j)
  {
    hide Tick;
    OutputStationaryWavefront(job, job.Cycles() - 1, job.m - 1, job.n - 1);
  }

  /** So it is in the other modes: the port from which the last element is collected shows one row (one column) of sums a
      clock, and its last one on the last clock and on no other; one clock earlier it shows the one before. */
  lemma LastPortIsLate(job: Job, t: nat)
    requires (job.mode == WS || job.mode == IS) && job.m > 0 && job.n > 0 && job.k > 0 && t > 0
    ensures job.mode == WS ==>
              var row := t - job.k - job.n + 1;
              job.At(t, job.k - 1, job.n - 1).output1 == job.Result(row, job.n - 1)
              && (row == job.m - 1 <==> t == job.Cycles())
    ensures job.mode == IS ==>
              var column := t - job.k - job.m + 1;
              job.At(t, job.m - 1, job.k - 1).output0 == job.Result(job.m - 1, column)
              && (column == job.n - 1 <==> t == job.Cycles())
  {
    hide Tick;
    hide Job.Dot;
    if job.mode == WS { WeightStationaryWavefront(job, t, job.k - 1, job.n - 1); }
    else { InputStationaryWavefront(job, t, job.m - 1, job.k - 1); }
  }

  // ----- 32-bit range -----

  /** Entries bounded by alpha, beta and gamma, with room for gamma and all k products. */
  ghost predicate Bounded(job: Job, alpha: nat, beta: nat, gamma: nat)
  {
    && job.k > 0 && alpha < TWO31 && beta < TWO31 && gamma + Times(job.k, Times(alpha, beta)) < TWO31
    && (forall i, p :: Abs(job.A(i, p)) <= alpha)
    && (forall p, j :: Abs(job.B(p, j)) <= beta)
    && (forall i, j :: Abs(job.C(i, j)) <= gamma)
  }

  lemma ProductBound(x: int, y: int, alpha: nat, beta: nat)
    requires Abs(x) <= alpha && Abs(y) <= beta
    ensures Abs(x * y) <= Times(alpha, beta)
  {
    var ax, ay := Abs(x), Abs(y);
    assert Abs(x * y) == ax * ay;
    assert ax * ay <= alpha * ay by { assert (alpha - ax) * ay >= 0; }
    assert alpha * ay <= alpha * beta by { assert alpha * (beta - ay) >= 0; }
  }

  /** A partial sum of products is within as many times the largest product. */
  lemma {:induction false} DotBound(job: Job, w: nat, i: int, j: int, count: nat)
    requires count <= job.k
    requires forall p :: Abs(job.A(i, p) * job.B(p, j)) <= w
    ensures Abs(job.Dot(i, j, count)) <= Times(count, w)
  {
    if count > 0 {
      DotBound(job, w, i, j, count - 1);
      MultiplesGrow(count - 1, count, w);
      var product := job.A(i, count - 1) * job.B(count - 1, j);
      assert job.Dot(i, j, count) == job.Dot(i, j, count - 1) + product;
      assert Abs(product) <= w;
    }
  }

  lemma AnyDotBound(job: Job, w: nat, i: int, j: int, count: int)
    requires forall p :: Abs(job.A(i, p) * job.B(p, j)) <= w
    ensures Abs(job.Dot(i, j, count)) <= Times(job.k, w)
  {
    if count >= job.k {
      DotBeyond(job, i, j, count);
      DotBound(job, w, i, j, job.k);
    } else if count >= 0 {
      DotBound(job, w, i, j, count);
      MultiplesGrow(count, job.k, w);
    } else {
      MultiplesGrow(0, job.k, w);
    }
  }

  ghost predicate CellInRange(c: Cell)
  {
    && IsInt32(c.input0) && IsInt32(c.input1) && IsInt32(c.output0) && IsInt32(c.output1)
    && IsInt32(c.weight) && IsInt32(c.input) && IsInt32(c.psum) && IsInt32(LastProduct(c))
  }

  lemma PartialSumBound(job: Job, alpha: nat, beta: nat, gamma: nat, i: int, j: int, p: int, count: int)
    requires Bounded(job, alpha, beta, gamma)
    ensures IsInt32(job.C(i, j) + job.Dot(i, j, count)) && IsInt32(job.A(i, p) * job.B(p, j))
  {
    hide Job.Dot;
    hide Times;
    var w := Times(alpha, beta);
    forall q ensures Abs(job.A(i, q) * job.B(q, j)) <= w {
      ProductBound(job.A(i, q), job.B(q, j), alpha, beta);
    }
    AnyDotBound(job, w, i, j, count);
    MultiplesGrow(0, 1, w);
    MultiplesGrow(1, job.k, w);
  }

  lemma WeightStationaryInRange(job: Job, alpha: nat, beta: nat, gamma: nat, t: nat, p: nat, j: nat)
    requires job.mode == WS && Bounded(job, alpha, beta, gamma)
    ensures CellInRange(job.At(t, p, j))
  {
    hide Tick;
    hide Job.Dot;
    var r := t - 1 - p - j;
    WeightStationaryWavefront(job, t, p, j);
    PartialSumBound(job, alpha, beta, gamma, r, j, p, p + 1);
    PartialSumBound(job, alpha, beta, gamma, r, j, p, p);
    assert Abs(job.A(r, p)) <= alpha && Abs(job.B(p, j)) <= beta;
  }

  /** No register and no product of any cell leaves the 32-bit range, idle cells included. */
  lemma EveryCellInRange(job: Job, alpha: nat, beta: nat, gamma: nat, t: nat, i: nat, j: nat)
    requires !job.mode.Invalid? && Bounded(job, alpha, beta, gamma)
    ensures CellInRange(job.At(t, i, j))
  {
    hide Tick;
    hide Job.Dot;
    match job.mode
    case WS => WeightStationaryInRange(job, alpha, beta, gamma, t, i, j);
    case OS =>
      var s := t - 1 - i - j;
      OutputStationaryWavefront(job, t, i, j);
      PartialSumBound(job, alpha, beta, gamma, i, j, s, s + 1);
      assert Abs(job.A(i, s)) <= alpha && Abs(job.B(s, j)) <= beta;
    case IS =>
      var flipped := job.Transposed(WS);
      assert forall p, q :: flipped.A(p, q) == job.B(q, p);
      assert forall p, q :: flipped.B(p, q) == job.A(q, p);
      assert forall p, q :: flipped.C(p, q) == job.C(q, p);
      assert Times(beta, alpha) == Times(alpha, beta);
      assert Bounded(flipped, beta, alpha, gamma);
      InputStationaryMirrorsWeightStationary(job, t, i, j);
      WeightStationaryInRange(flipped, beta, alpha, gamma, t, j, i);
  }
}
