/** The grid of processing elements, clocked in place (src/maps-sim/src/npu/array.cpp). */
module SystolicArray {
  import opened Options
  import opened Systolic
  import opened RowMajor
  import opened ProcessingElement

  /** The job a tile call describes: flat row-major operands, `None` for the null C operand. */
  ghost function TileJob(mode: Dataflow, a: seq<int>, b: seq<int>, c: Option<seq<int>>, m: nat, n: nat, k: nat): Job
  {
    Job(mode, (i, p) => Element(Some(a), m, k, i, p), (p, j) => Element(Some(b), k, n, p, j),
        (i, j) => Element(c, m, n, i, j), m, n, k)
  }

  /** The first `m` rows of an output tile of width `n` hold the job's result. */
  ghost predicate HoldsResult(s: seq<int>, job: Job)
  {
    forall i, j :: 0 <= i < job.m && 0 <= j < job.n ==> Peek(s, Flat(i, j, job.n)) == job.Result(i, j)
  }

  class Array {
    const rows: nat
    const cols: nat
    const pe: array2<PE>
    ghost const cells: set<PE>

    ghost predicate Valid()
      reads pe
    {
      && pe.Length0 == rows && pe.Length1 == cols
      && forall i, j :: 0 <= i < rows && 0 <= j < cols ==> pe[i, j] in cells && pe[i, j].row == i && pe[i, j].col == j
    }

    ghost function At(i: int, j: int): Cell
      requires Valid() && 0 <= i < rows && 0 <= j < cols
      reads pe, cells
    {
      pe[i, j].View()
    }

    /** Every cell shows the pure grid of `job` after `t` clocks. */
    ghost predicate Shows(job: Job, t: nat)
      requires Valid()
      reads pe, cells
    {
      forall i, j :: 0 <= i < rows && 0 <= j < cols ==> At(i, j) == job.At(t, i, j)
    }

    predicate DimsFit(mode: Dataflow, m: nat, n: nat, k: nat)
    {
      match mode
      case OS => m <= rows && n <= cols
      case WS => k <= rows && n <= cols
      case IS => m <= rows && k <= cols
      case Invalid(_) => false
    }

    constructor (rows: nat, cols: nat)
      ensures Valid() && fresh(pe) && fresh(cells)
      ensures this.rows == rows && this.cols == cols
    {
      this.rows, this.cols := rows, cols;
      var first := new PE(0, 0);
      var grid := new PE[rows, cols]((_, _) => first);
      ghost var made: set<PE> := {first};
      for i := 0 to rows
        invariant fresh(grid) && fresh(made)
        invariant forall x, y :: 0 <= x < i && 0 <= y < cols ==>
          grid[x, y] in made && grid[x, y].row == x && grid[x, y].col == y
      {
        for j := 0 to cols
          invariant fresh(grid) && fresh(made)
          invariant forall x, y :: 0 <= x <= i && 0 <= y < cols && (x < i || y < j) ==>
            grid[x, y] in made && grid[x, y].row == x && grid[x, y].col == y
        {
          var cell := new PE(i, j);
          grid[i, j] := cell;
          made := made + {cell};
        }
      }
      pe, cells := grid, made;
    }

    method Reset()
      requires Valid()
      modifies cells
      ensures forall i, j :: 0 <= i < rows && 0 <= j < cols ==> At(i, j) == BlankCell.(mode := old(At(i, j)).mode)
    {
      for i := 0 to rows
        invariant forall x, y :: 0 <= x < rows && 0 <= y < cols ==>
          At(x, y) == if x < i then BlankCell.(mode := old(At(x, y)).mode) else old(At(x, y))
      {
        for j := 0 to cols
          invariant forall x, y :: 0 <= x < rows && 0 <= y < cols ==>
            At(x, y) == if x < i || (x == i && y < j) then BlankCell.(mode := old(At(x, y)).mode) else old(At(x, y))
        {
          pe[i, j].Reset();
        }
      }
    }

    method SetArrayMode(mode: Dataflow)
      requires Valid()
      modifies cells
      ensures forall i, j :: 0 <= i < rows && 0 <= j < cols ==> At(i, j) == old(At(i, j)).(mode := mode)
    {
      for i := 0 to rows
        invariant forall x, y :: 0 <= x < rows && 0 <= y < cols ==>
          At(x, y) == if x < i then old(At(x, y)).(mode := mode) else old(At(x, y))
      {
        for j := 0 to cols
          invariant forall x, y :: 0 <= x < rows && 0 <= y < cols ==>
            At(x, y) == if x < i || (x == i && y < j) then old(At(x, y)).(mode := mode) else old(At(x, y))
        {
          pe[i, j].SetMode(mode);
        }
      }
    }

    ghost function LeftOf(left: array<int>, i: int, j: int): int
      requires Valid() && left.Length == rows && 0 <= i < rows && 0 <= j < cols
      reads pe, cells, left
    {
      if j == 0 then left[i] else At(i, j - 1).output0
    }

    ghost function Above(top: array<int>, i: int, j: int): int
      requires Valid() && top.Length == cols && 0 <= i < rows && 0 <= j < cols
      reads pe, cells, top
    {
      if i == 0 then top[j] else At(i - 1, j).output1
    }

    /** One synchronous step: every cell ticks on what its neighbours showed before the step. */
    method TickGrid(left: array<int>, top: array<int>)
      requires Valid() && left.Length == rows && top.Length == cols
      modifies cells
      ensures forall i, j :: 0 <= i < rows && 0 <= j < cols ==>
        At(i, j) == Systolic.Tick(old(At(i, j)), old(LeftOf(left, i, j)), old(Above(top, i, j)))
    {
      hide Systolic.Tick;
      var lhs, rhs := Gather(left, top);
      ApplyInputs(lhs, rhs);
      TickAll();
      forall i, j | 0 <= i < rows && 0 <= j < cols
        ensures At(i, j) == Systolic.Tick(old(At(i, j)), lhs[i, j], rhs[i, j])
      {
        SteppedOnInputs(old(At(i, j)), lhs[i, j], rhs[i, j]);
      }
    }

    /** First phase: both inputs of every cell, read before any cell changes. */
    method Gather(left: array<int>, top: array<int>) returns (lhs: array2<int>, rhs: array2<int>)
      requires Valid() && left.Length == rows && top.Length == cols
      ensures lhs.Length0 == rhs.Length0 == rows && lhs.Length1 == rhs.Length1 == cols
      ensures forall i, j :: 0 <= i < rows && 0 <= j < cols ==>
        lhs[i, j] == LeftOf(left, i, j) && rhs[i, j] == Above(top, i, j)
    {
      lhs, rhs := new int[rows, cols], new int[rows, cols];
      for i := 0 to rows
        invariant forall x, y :: 0 <= x < i && 0 <= y < cols ==>
          lhs[x, y] == LeftOf(left, x, y) && rhs[x, y] == Above(top, x, y)
      {
        for j := 0 to cols
          invariant forall x, y :: 0 <= x <= i && 0 <= y < cols && (x < i || y < j) ==>
            lhs[x, y] == LeftOf(left, x, y) && rhs[x, y] == Above(top, x, y)
        {
          lhs[i, j] := if j == 0 then left[i] else pe[i, j - 1].output0;
          rhs[i, j] := if i == 0 then top[j] else pe[i - 1, j].output1;
        }
      }
    }

    /** Second phase: all input registers are set before any cell ticks. */
    method ApplyInputs(lhs: array2<int>, rhs: array2<int>)
      requires Valid()
      requires lhs.Length0 == rhs.Length0 == rows && lhs.Length1 == rhs.Length1 == cols
      modifies cells
      ensures forall i, j :: 0 <= i < rows && 0 <= j < cols ==>
        At(i, j) == old(At(i, j)).(input0 := lhs[i, j], input1 := rhs[i, j])
    {
      for i := 0 to rows
        invariant forall x, y :: 0 <= x < rows && 0 <= y < cols ==>
          At(x, y) == if x < i then old(At(x, y)).(input0 := lhs[x, y], input1 := rhs[x, y]) else old(At(x, y))
      {
        for j := 0 to cols
          invariant forall x, y :: 0 <= x < rows && 0 <= y < cols ==>
            At(x, y) == if x < i || (x == i && y < j) then old(At(x, y)).(input0 := lhs[x, y], input1 := rhs[x, y])
                        else old(At(x, y))
        {
          pe[i, j].SetInputs(lhs[i, j], rhs[i, j]);
        }
      }
    }

    /** Third phase: every cell ticks on its own input registers. */
    method TickAll()
      requires Valid()
      modifies cells
      ensures forall i, j :: 0 <= i < rows && 0 <= j < cols ==> At(i, j) == Stepped(old(At(i, j)))
    {
      hide Stepped;
      for i := 0 to rows
        invariant forall x, y :: 0 <= x < rows && 0 <= y < cols ==>
          At(x, y) == if x < i then Stepped(old(At(x, y))) else old(At(x, y))
      {
        for j := 0 to cols
          invariant forall x, y :: 0 <= x < rows && 0 <= y < cols ==>
            At(x, y) == if x < i || (x == i && y < j) then Stepped(old(At(x, y))) else old(At(x, y))
        {
          pe[i, j].Tick();
        }
      }
    }

    /** A step of the grid is a step of the pure grid of any job whose boundary is being fed. */
    method Clock(ghost job: Job, ghost t: nat, left: array<int>, top: array<int>)
      requires Valid() && left.Length == rows && top.Length == cols
      requires Shows(job, t)
      requires forall i :: 0 <= i < rows ==> left[i] == job.Left(t, i)
      requires forall j :: 0 <= j < cols ==> top[j] == job.Top(t, j)
      modifies cells
      ensures Shows(job, t + 1)
    {
      hide Tick;
      TickGrid(left, top);
    }

    /** The edge of the grid on clock `cyc`: lane l carries element (l, cyc - l) of a flat operand of `lanes`
        lanes (or element (cyc - l, l), when the lanes are its columns), and nothing outside the operand. */
    method Feed(cyc: nat, lanes: nat, steps: nat, size: nat, x: Option<seq<int>>, lanesAreRows: bool)
      returns (edge: array<int>)
      requires lanes <= size && (x.Some? ==> |x.value| >= lanes * steps)
      ensures fresh(edge) && edge.Length == size
      ensures forall l :: 0 <= l < size ==> edge[l] == Lane(cyc, lanes, steps, x, lanesAreRows, l)
    {
      edge := new int[size](_ => 0);
      hide Flat;
      FlatIsBijective(lanes, steps);
      FlatIsBijective(steps, lanes);
      assert lanes * steps == steps * lanes;
      for l := 0 to lanes
        invariant forall y :: 0 <= y < size ==>
          edge[y] == if y < l then Lane(cyc, lanes, steps, x, lanesAreRows, y) else 0
      {
        if cyc >= l {
          var s := cyc - l;
          if s < steps && x.Some? {
            edge[l] := x.value[if lanesAreRows then Flat(l, s, steps) else Flat(s, l, lanes)];
          }
        }
      }
    }

    /** Reset, select the mode and load the stationary operand, cell by cell. */
    method Preload(ghost job: Job, mode: Dataflow, x: Option<seq<int>>, height: nat, width: nat)
      requires Valid() && height <= rows && width <= cols && (x.Some? ==> |x.value| >= height * width)
      requires job.mode == mode && !mode.Invalid?
      requires forall i, j :: job.Loaded(i, j) == WithStationary(BlankCell.(mode := mode), Element(x, height, width, i, j))
      modifies cells
      ensures Shows(job, 0)
    {
      hide Flat;
      FlatIsBijective(height, width);
      Reset();
      SetArrayMode(mode);
      for i := 0 to height
        invariant forall p, q :: 0 <= p < rows && 0 <= q < cols ==>
          At(p, q) == if p < i then job.Loaded(p, q) else BlankCell.(mode := mode)
      {
        for j := 0 to width
          invariant forall p, q :: 0 <= p < rows && 0 <= q < cols ==>
            At(p, q) == if p < i || (p == i && q < j) then job.Loaded(p, q) else BlankCell.(mode := mode)
        {
          LoadStationary(i, j, if x.None? then 0 else x.value[Flat(i, j, width)]);
        }
      }
    }

    method LoadStationary(i: nat, j: nat, value: int)
      requires Valid() && i < rows && j < cols
      modifies cells
      ensures forall p, q :: 0 <= p < rows && 0 <= q < cols ==>
        At(p, q) == if p == i && q == j then WithStationary(old(At(p, q)), value) else old(At(p, q))
    {
      var cell := pe[i, j];
      match cell.currentMode {
        case OS => cell.LoadPsum(value);
        case WS => cell.LoadWeight(value);
        case IS => cell.LoadInput(value);
        case Invalid(_) =>
      }
      assert cell.View() == WithStationary(old(At(i, j)), value);
    }

    ghost predicate TileFits(mode: Dataflow, a: seq<int>, b: seq<int>, c: Option<seq<int>>, m: nat, n: nat, k: nat)
    {
      && m > 0 && n > 0 && k > 0 && DimsFit(mode, m, n, k)
      && |a| >= m * k && |b| >= k * n && (c.Some? ==> |c.value| >= m * n)
    }

    /** One clock of a tile run: feed both edges for this mode, then step the grid. */
    method Cycle(mode: Dataflow, a: seq<int>, b: seq<int>, c: Option<seq<int>>, m: nat, n: nat, k: nat, cyc: nat)
      requires Valid() && TileFits(mode, a, b, c, m, n, k)
      requires Shows(TileJob(mode, a, b, c, m, n, k), cyc)
      modifies cells
      ensures Shows(TileJob(mode, a, b, c, m, n, k), cyc + 1)
    {
      hide Tick;
      hide Flat;
      assert k * m == m * k && n * k == k * n && n * m == m * n;
      var left, top;
      match mode {
        case OS =>
          left := Feed(cyc, m, k, rows, Some(a), true);
          top := Feed(cyc, n, k, cols, Some(b), false);
        case WS =>
          left := Feed(cyc, k, m, rows, Some(a), false);
          top := Feed(cyc, n, m, cols, c, false);
        case IS =>
          left := Feed(cyc, m, n, rows, c, true);
          top := Feed(cyc, k, n, cols, Some(b), true);
      }
      Clock(TileJob(mode, a, b, c, m, n, k), cyc, left, top);
    }

    method RunOsTile(a: seq<int>, b: seq<int>, c: Option<seq<int>>, m: nat, n: nat, k: nat, out: array<int>)
      returns (cycles: nat)
      requires Valid() && TileFits(OS, a, b, c, m, n, k) && out.Length >= m * n
      modifies cells, out
      ensures var job := TileJob(OS, a, b, c, m, n, k); HoldsResult(out[..], job) && cycles == job.Cycles()
    {
      ghost var job := TileJob(OS, a, b, c, m, n, k);
      hide Tick;
      hide Flat;
      Preload(job, OS, c, m, n);
      cycles := m + n + k - 2;
      for cyc := 0 to cycles
        invariant Shows(job, cyc)
      {
        Cycle(OS, a, b, c, m, n, k, cyc);
      }
      Collect(job, m, n, out);
    }

    /** The readout of the accumulators once the last clock is over. */
    method Collect(ghost job: Job, m: nat, n: nat, out: array<int>)
      requires Valid() && job.mode == OS && job.m == m && job.n == n && job.k > 0 && m <= rows && n <= cols
      requires out.Length >= m * n && 0 <= job.Cycles() && Shows(job, job.Cycles())
      modifies out
      ensures HoldsResult(out[..], job)
    {
      hide Flat;
      hide Job.At;
      hide Job.Result;
      FlatIsBijective(m, n);
      for i := 0 to m
        invariant forall x, y :: 0 <= x < i && 0 <= y < n ==> Peek(out[..], Flat(x, y, n)) == job.Result(x, y)
      {
        for j := 0 to n
          invariant forall x, y :: 0 <= x <= i && 0 <= y < n && (x < i || y < j) ==>
            Peek(out[..], Flat(x, y, n)) == job.Result(x, y)
        {
          AllModesAgree(job, i, j);
          out[Flat(i, j, n)] := pe[i, j].psumReg;
        }
      }
    }

    /** Which outputs a stationary-operand run has written before clock `cyc`: each one once, on its own clock. */
    ghost predicate Drained(out: seq<int>, job: Job, cyc: int, lanes: int)
    {
      forall i, j :: 0 <= i < job.m && 0 <= j < job.n ==>
        var lane := if job.mode == WS then j else i;
        var due := i + j + job.k - 1;
        Peek(out, Flat(i, j, job.n)) == if due < cyc || (due == cyc && lane < lanes) then job.Result(i, j) else 0
    }

    /** The readout of the bottom row after clock `cyc`. */
    method DrainBottom(ghost job: Job, m: nat, n: nat, k: nat, cyc: nat, out: array<int>)
      requires Valid() && job.mode == WS && job.m == m && job.n == n && job.k == k && 0 < k <= rows && n <= cols
      requires out.Length >= m * n
      requires Shows(job, cyc + 1) && Drained(out[..], job, cyc, 0)
      modifies out
      ensures Drained(out[..], job, cyc + 1, 0)
    {
      hide Flat;
      hide Job.At;
      hide Job.Result;
      FlatIsBijective(m, n);
      for j := 0 to n
        invariant Drained(out[..], job, cyc, j)
      {
        var ready := j + k - 1;
        if cyc >= ready {
          var r := cyc - ready;
          if r < m {
            AllModesAgree(job, r, j);
            out[Flat(r, j, n)] := pe[k - 1, j].output1;
          }
        }
      }
    }

    method RunWsTile(a: seq<int>, b: seq<int>, c: Option<seq<int>>, m: nat, n: nat, k: nat, out: array<int>)
      returns (cycles: nat)
      requires Valid() && TileFits(WS, a, b, c, m, n, k) && out.Length >= m * n
      modifies cells, out
      ensures var job := TileJob(WS, a, b, c, m, n, k); HoldsResult(out[..], job) && cycles == job.Cycles()
    {
      ghost var job := TileJob(WS, a, b, c, m, n, k);
      hide Tick;
      hide Flat;
      FlatIsBijective(m, n);
      forall x | 0 <= x < m * n { out[x] := 0; }
      Preload(job, WS, Some(b), k, n);
      cycles := m + n + k - 2;
      for cyc := 0 to cycles
        invariant Shows(job, cyc) && Drained(out[..], job, cyc, 0)
      {
        Cycle(WS, a, b, c, m, n, k, cyc);
        DrainBottom(job, m, n, k, cyc, out);
      }
    }

    /** The readout of the last column after clock `cyc`. */
    method DrainRight(ghost job: Job, m: nat, n: nat, k: nat, cyc: nat, out: array<int>)
      requires Valid() && job.mode == IS && job.m == m && job.n == n && job.k == k && 0 < k <= cols && m <= rows
      requires out.Length >= m * n
      requires Shows(job, cyc + 1) && Drained(out[..], job, cyc, 0)
      modifies out
      ensures Drained(out[..], job, cyc + 1, 0)
    {
      hide Flat;
      hide Job.At;
      hide Job.Result;
      FlatIsBijective(m, n);
      for i := 0 to m
        invariant Drained(out[..], job, cyc, i)
      {
        var ready := i + k - 1;
        if cyc >= ready {
          var r := cyc - ready;
          if r < n {
            AllModesAgree(job, i, r);
            out[Flat(i, r, n)] := pe[i, k - 1].output0;
          }
        }
      }
    }

    method RunIsTile(a: seq<int>, b: seq<int>, c: Option<seq<int>>, m: nat, n: nat, k: nat, out: array<int>)
      returns (cycles: nat)
      requires Valid() && TileFits(IS, a, b, c, m, n, k) && out.Length >= m * n
      modifies cells, out
      ensures var job := TileJob(IS, a, b, c, m, n, k); HoldsResult(out[..], job) && cycles == job.Cycles()
    {
      ghost var job := TileJob(IS, a, b, c, m, n, k);
      hide Tick;
      hide Flat;
      FlatIsBijective(m, n);
      forall x | 0 <= x < m * n { out[x] := 0; }
      Preload(job, IS, Some(a), m, k);
      cycles := m + n + k - 2;
      for cyc := 0 to cycles
        invariant Shows(job, cyc) && Drained(out[..], job, cyc, 0)
      {
        Cycle(IS, a, b, c, m, n, k, cyc);
        DrainRight(job, m, n, k, cyc, out);
      }
    }

    /** Refuses missing arrays and empty or oversized tiles; otherwise leaves `c + a * b` in `out`, whatever the mode. */
    method RunGemmTile(mode: Dataflow, a: Option<seq<int>>, b: Option<seq<int>>, c: Option<seq<int>>,
                       m: nat, n: nat, k: nat, out: array?<int>)
      returns (ok: bool, cycles: nat)
      requires Valid()
      requires (a.Some? ==> |a.value| >= m * k) && (b.Some? ==> |b.value| >= k * n) && (c.Some? ==> |c.value| >= m * n)
      requires out != null ==> out.Length >= m * n
      modifies cells, if out == null then {} else {out}
      ensures ok <==> a.Some? && b.Some? && out != null && m > 0 && n > 0 && k > 0 && DimsFit(mode, m, n, k)
      ensures ok ==> HoldsResult(out[..], TileJob(mode, a.value, b.value, c, m, n, k)) && cycles == m + n + k - 2
      ensures !ok ==> cycles == 0 && (out != null ==> out[..] == old(out[..]))
    {
      if a.None? || b.None? || out == null || m == 0 || n == 0 || k == 0 || !DimsFit(mode, m, n, k) {
        return false, 0;
      }
      match mode {
        case OS => cycles := RunOsTile(a.value, b.value, c, m, n, k, out);
        case WS => cycles := RunWsTile(a.value, b.value, c, m, n, k, out);
        case IS => cycles := RunIsTile(a.value, b.value, c, m, n, k, out);
      }
      ok := true;
    }
  }

  /** Element (i, j) of a flat operand, 0 when it is outside or the operand is null. */
  function Element(x: Option<seq<int>>, height: nat, width: nat, i: int, j: int): int
  {
    if x.Some? && 0 <= i < height && 0 <= j < width then Peek(x.value, Flat(i, j, width)) else 0
  }

  function Lane(cyc: nat, lanes: nat, steps: nat, x: Option<seq<int>>, lanesAreRows: bool, l: int): int
  {
    if lanesAreRows then Element(x, lanes, steps, l, cyc - l) else Element(x, steps, lanes, cyc - l, l)
  }

  /** A blank cell with the register that stays put in its mode loaded. */
  function WithStationary(c: Cell, value: int): Cell
  {
    match c.mode
    case OS => c.(psum := value)
    case WS => c.(weight := value)
    case IS => c.(input := value)
    case Invalid(_) => c
  }
}
