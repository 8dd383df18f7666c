/** The tiled GEMM controller (src/maps-sim/src/npu/controller.cpp). */
module Control {
  import opened Words
  import opened Options
  import opened RowMajor
  import opened Systolic
  import opened SystolicArray
  import opened Storage
  import opened Descriptors
  import opened Schedule
  import opened TiledGemm
  import opened Hazards
  import opened Costs
  import Dma

  datatype NpuState = IDLE | BUSY | DONE | ERROR
  datatype NpuError = NONE | INVALID_DESC | OUT_OF_RANGE | BUFFER_FAIL

  /** The three operands of a tile fit the scratch buffers. */
  predicate TileElemsFit(t: GemmTile)
  {
    && Flat(t.mLen, 0, t.kLen) <= BUFFER_SIZE && Flat(t.kLen, 0, t.nLen) <= BUFFER_SIZE
    && Flat(t.mLen, 0, t.nLen) <= BUFFER_SIZE
  }

  predicate FirstTileFits(d: Descriptor)
  {
    var mLen, nLen, kLen := Min(d.tileM, d.m), Min(d.tileN, d.n), Min(d.tileK, d.k);
    && Flat(mLen, 0, kLen) <= BUFFER_SIZE && Flat(kLen, 0, nLen) <= BUFFER_SIZE && Flat(mLen, 0, nLen) <= BUFFER_SIZE
  }

  /** No tile is larger than the first. */
  lemma FirstTileDominates(d: Descriptor, p: Position)
    requires Tileable(d) && Inside(d, p)
    ensures FirstTileFits(d) ==> TileElemsFit(TileOf(d, p))
    ensures p == Position(0, 0, 0) ==> (FirstTileFits(d) <==> TileElemsFit(TileOf(d, p)))
  {
    hide Flat;
    TileInBox(d, p);
    FlatNextRow(0, 0, d.tileM);
    FlatNextRow(0, 0, d.tileN);
    FlatNextRow(0, 0, d.tileK);
    var t := TileOf(d, p);
    AreaMonotone(t.mLen, t.kLen, Min(d.tileM, d.m), Min(d.tileK, d.k));
    AreaMonotone(t.kLen, t.nLen, Min(d.tileK, d.k), Min(d.tileN, d.n));
    AreaMonotone(t.mLen, t.nLen, Min(d.tileM, d.m), Min(d.tileN, d.n));
  }

  lemma AreaMonotone(h: int, w: int, h': int, w': int)
    requires 0 <= h <= h' && 0 <= w <= w'
    ensures 0 <= Flat(h, 0, w) <= Flat(h', 0, w')
  {
    assert h * w <= h' * w by { assert (h' - h) * w >= 0; }
    assert h' * w <= h' * w' by { assert h' * (w' - w) >= 0; }
    assert 0 <= h * w;
  }

  /** The end of a matrix in bytes, as `check_matrix_range` computes it: the true end up to multiples of 2^64. */
  function MatrixEnd64(base: int, rows: int, cols: int): (r: int)
    requires IsUint32(base) && IsUint32(rows) && IsUint32(cols)
    ensures r == U64(MatrixEnd(base, rows, cols))
    ensures r == MatrixEnd(base, rows, cols) <==> MatrixEnd(base, rows, cols) < TWO64
  {
    EndModulo(base, rows, cols);
    hide Flat;
    hide U64;
    U64(base + U64(U64(rows * cols) * WORD_BYTES))
  }

  lemma EndModulo(base: int, rows: int, cols: int)
    requires IsUint32(base) && IsUint32(rows) && IsUint32(cols)
    ensures U64(base + U64(U64(rows * cols) * WORD_BYTES)) == U64(MatrixEnd(base, rows, cols))
    ensures U64(MatrixEnd(base, rows, cols)) == MatrixEnd(base, rows, cols) <==> MatrixEnd(base, rows, cols) < TWO64
  {
    AreaMonotone(rows, cols, TWO32 - 1, TWO32 - 1);
    var area := rows * cols;
    assert area == Flat(rows, 0, cols) && 0 <= area < TWO64;
    hide Flat;
    assert U64(area) == area;
    SumModulo(base, area * WORD_BYTES);
  }

  lemma SumModulo(x: int, y: int)
    ensures U64(x + U64(y)) == U64(x + y)
  {
  }

  function MatrixEnd(base: int, rows: int, cols: int): int
  {
    base + WORD_BYTES * Flat(rows, 0, cols)
  }

  /** No end of a matrix wraps in 64 bits. */
  predicate EndsFit(d: Descriptor)
  {
    MatrixEnd(d.aBase, d.m, d.k) < TWO64 && MatrixEnd(d.bBase, d.k, d.n) < TWO64 && MatrixEnd(d.cBase, d.m, d.n) < TWO64
  }

  /** Every descriptor the device loads from memory is of this kind. */
  lemma EndsFitBelowHalf(d: Descriptor)
    requires d.Words() && d.NonNegativeWords()
    ensures EndsFit(d)
  {
    AreaMonotone(d.m, d.k, TWO31 - 1, TWO31 - 1);
    AreaMonotone(d.k, d.n, TWO31 - 1, TWO31 - 1);
    AreaMonotone(d.m, d.n, TWO31 - 1, TWO31 - 1);
  }

  const HUGE: Descriptor := Descriptor(TWO31, TWO31, TWO31, 4, 4, 4, OS, 16, 16, 16)

  /** Where an end does wrap the check lets through what no memory holds: matrices of 2^31 by 2^31 words end, in 64 bits,
      where they start. */
  lemma RangeCheckWraps(size: int)
    requires 1 <= size <= MAX_WORDS
    ensures HUGE.Words() && HUGE.Validate() && !EndsFit(HUGE) && !InMemory(HUGE, size)
    ensures MatrixEnd64(4, TWO31, TWO31) == 4 <= size * WORD_BYTES
  {
    assert Flat(TWO31, 0, TWO31) == TWO31 * TWO31;
  }

  /** Matrices that end within DRAM are small: the counters of the loops do not wrap. */
  lemma CountersFitInMemory(d: Descriptor, size: int)
    requires Tileable(d) && d.Words() && InMemory(d, size) && size <= MAX_WORDS
    ensures CountersFit(d)
  {
    DimensionsFit(d.m, d.k);
    DimensionsFit(d.k, d.n);
    hide Flat;
    hide Tiles;
    hide Start;
    CounterFits(d.m, d.tileM);
    CounterFits(d.n, d.tileN);
    CounterFits(d.k, d.tileK);
  }

  lemma CounterFits(dim: int, tile: int)
    requires 0 < dim <= MAX_WORDS && 0 < tile < TWO32
    ensures Start(Tiles(dim, tile), tile) < TWO32
  {
    hide Flat;
    hide Tiles;
    hide Start;
    TilesRoundUp(dim, tile);
    StartInside(0, dim, tile);
    StartInside(1, dim, tile);
    assert Start(1, tile) == tile;
  }

  lemma DimensionsFit(rows: int, cols: int)
    requires rows > 0 && cols > 0
    ensures rows <= Flat(rows, 0, cols) && cols <= Flat(rows, 0, cols)
  {
    FlatInside(0, 0, rows, cols);
  }

  /** The byte address of matrix element (row, col), as `byte_offset_*` and the caller compute it in 32 bits. */
  function ElementAddress(base: int, row: int, col: int, stride: int): int
  {
    U32(base + U32(U32(Flat(row, col, stride)) * WORD_BYTES))
  }

  lemma ElementAddressExact(base: int, row: int, col: int, stride: int)
    requires 0 <= base && base % WORD_BYTES == 0 && 0 <= Flat(row, col, stride)
    requires base / WORD_BYTES + Flat(row, col, stride) < MAX_WORDS
    ensures var r := ElementAddress(base, row, col, stride);
            IsUint32(r) && r % WORD_BYTES == 0 && r / WORD_BYTES == base / WORD_BYTES + Flat(row, col, stride)
  {
  }

  /** A window of a matrix: `height` rows of `width` words from element (row0, col0). */
  datatype Window = Window(base: int, rows: int, stride: int, row0: int, col0: int, height: int, width: int)
  {
    predicate Within(size: int)
    {
      && IsUint32(base) && base % WORD_BYTES == 0 && 0 <= row0 && 0 < height && row0 + height <= rows
      && 0 <= col0 && 0 < width && col0 + width <= stride && size <= MAX_WORDS && EndsWithin(base, rows, stride, size)
      && Flat(height, 0, width) <= BUFFER_SIZE
    }

    function Word(r: int, c: int): int { base / WORD_BYTES + Flat(row0 + r, col0 + c, stride) }

    ghost predicate Covers(x: int)
    {
      exists r, c :: 0 <= r < height && 0 <= c < width && x == Word(r, c)
    }

    function Fetch(): Dma.DmaRequest
    {
      Dma.DmaRequest(Dma.DRAM_TO_BUFFER, ElementAddress(base, row0, col0, stride), 0, width, height, stride, width)
    }

    function Store(): Dma.DmaRequest
    {
      Dma.DmaRequest(Dma.BUFFER_TO_DRAM, ElementAddress(base, row0, col0, stride), 0, width, height, width, stride)
    }
  }

  lemma FlatAdd(r: int, c: int, r': int, c': int, width: int)
    ensures Flat(r + r', c + c', width) == Flat(r, c, width) + Flat(r', c', width)
  {
  }

  /** A window inside memory addresses words of memory. */
  lemma WindowInside(w: Window, size: int, r: int, c: int)
    requires w.Within(size) && 0 <= r < w.height && 0 <= c < w.width
    ensures 0 <= w.Word(r, c) < size
    ensures w.rows <= MAX_WORDS && w.stride <= MAX_WORDS && w.height <= BUFFER_SIZE && w.width <= BUFFER_SIZE
    ensures 0 <= Flat(r, c, w.width) < BUFFER_SIZE
  {
    hide Flat;
    FlatInside(w.row0 + r, w.col0 + c, w.rows, w.stride);
    FlatInside(r, c, w.height, w.width);
  }

  /** The first word of the DRAM side of both requests; the other words follow row by row. */
  lemma WindowBase(w: Window, size: int)
    requires w.Within(size)
    ensures w.Fetch().Words() && w.Fetch().WellFormed() && w.Store().Words() && w.Store().WellFormed()
    ensures w.Fetch().SrcBase() == w.Store().DstBase() == w.Word(0, 0)
  {
    hide Flat;
    hide ElementAddress;
    WindowInside(w, size, 0, 0);
    FlatInside(w.row0, w.col0, w.rows, w.stride);
    ElementAddressExact(w.base, w.row0, w.col0, w.stride);
  }

  /** The requests for a window inside memory are always accepted. */
  lemma WindowRequests(w: Window, size: int)
    requires w.Within(size)
    ensures w.Fetch().Words() && w.Fetch().WellFormed() && w.Fetch().Fits(size, BUFFER_SIZE)
    ensures w.Store().Words() && w.Store().WellFormed() && w.Store().Fits(size, BUFFER_SIZE)
  {
    hide Flat;
    hide ElementAddress;
    WindowBase(w, size);
    WindowInside(w, size, w.height - 1, w.width - 1);
    FlatAdd(w.row0, w.col0, w.height - 1, w.width - 1, w.stride);
  }

  /** An executed fetch request leaves the window, row by row, at the start of the buffer. */
  lemma WindowFetched(w: Window, mem: seq<int>, dst: seq<int>, dst': seq<int>)
    requires w.Within(|mem|) && |dst| == BUFFER_SIZE && Dma.Transferred(w.Fetch(), mem, dst, dst')
    ensures forall r, c :: 0 <= r < w.height && 0 <= c < w.width ==>
              Peek(dst', Flat(r, c, w.width)) == Peek(mem, w.Word(r, c))
  {
    hide Flat;
    var req := w.Fetch();
    WindowRequests(w, |mem|);
    WindowBase(w, |mem|);
    forall r, c | 0 <= r < w.height && 0 <= c < w.width
      ensures Peek(dst', Flat(r, c, w.width)) == Peek(mem, w.Word(r, c))
    {
      Dma.WordCopied(req, mem, dst, dst', r, c);
      FlatAdd(w.row0, w.col0, r, c, w.stride);
      FlatNextRow(0, 0, w.stride);
    }
  }

  /** An executed store request leaves the start of the buffer in the window, and all other words alone. */
  lemma WindowStored(w: Window, src: seq<int>, mem: seq<int>, mem': seq<int>)
    requires w.Within(|mem|) && |src| == BUFFER_SIZE && Dma.Transferred(w.Store(), src, mem, mem')
    ensures forall r, c :: 0 <= r < w.height && 0 <= c < w.width ==>
              Peek(mem', w.Word(r, c)) == Peek(src, Flat(r, c, w.width))
    ensures forall x | 0 <= x < |mem| && !w.Covers(x) :: mem'[x] == mem[x]
  {
    hide Flat;
    var req := w.Store();
    WindowRequests(w, |mem|);
    WindowBase(w, |mem|);
    FlatNextRow(0, 0, w.stride);
    forall r, c | 0 <= r < w.height && 0 <= c < w.width
      ensures Peek(mem', w.Word(r, c)) == Peek(src, Flat(r, c, w.width))
    {
      Dma.WordCopied(req, src, mem, mem', r, c);
      FlatAdd(w.row0, w.col0, r, c, w.stride);
    }
    forall x | 0 <= x < |mem| && !w.Covers(x) ensures mem'[x] == mem[x] {
      forall r, c | 0 <= r < w.height && 0 <= c < w.width ensures x != req.DstBase() + Flat(r, c, w.stride) {
        FlatAdd(w.row0, w.col0, r, c, w.stride);
        assert x != w.Word(r, c);
      }
      Dma.WordKept(req, src, mem, mem', x);
    }
  }

  function Wrapped(p: Perf): Perf
  {
    Perf(U64(p.cycles), U64(p.dmaReads), U64(p.dmaWrites), U64(p.macs))
  }

  lemma WrappedAdds(x: int, y: int)
    ensures U64(U64(x) + y) == U64(x + y)
  {
  }

  class Controller {
    const grid: Array
    const inputBuffer: Storage.Buffer
    const weightBuffer: Storage.Buffer
    const outputBuffer: Storage.Buffer
    const dma: Dma.DmaEngine
    var plan: seq<GemmTile>
    var memory: Memory?
    var desc: Descriptor
    var state: NpuState
    var error: NpuError
    var perf: Perf

    ghost predicate Valid()
      reads this`memory, this`desc, dma, grid.pe
    {
      && grid.Valid() && grid.rows == ARRAY_ROWS && grid.cols == ARRAY_COLS
      && inputBuffer.data.Length == BUFFER_SIZE && weightBuffer.data.Length == BUFFER_SIZE
      && outputBuffer.data.Length == BUFFER_SIZE
      && inputBuffer.data != weightBuffer.data && inputBuffer.data != outputBuffer.data
      && weightBuffer.data != outputBuffer.data
      && dma.Valid() && dma.state != Dma.BUSY
      && (dma.buffer == inputBuffer || dma.buffer == weightBuffer || dma.buffer == outputBuffer)
      && (dma.memory != null ==> dma.memory.data !in Buffers())
      && (memory != null ==> memory.Valid() && dma.memory == memory)
      && desc.Words()
    }

    constructor ()
      ensures Valid() && memory == null && desc == DefaultDescriptor && state == IDLE && error == NONE
      ensures perf == Perf(0, 0, 0, 0) && fresh(Scratch() - {this})
    {
      grid := new Array(ARRAY_ROWS, ARRAY_COLS);
      var input := new Storage.Buffer(BUFFER_SIZE);
      var engine := new Dma.DmaEngine();
      inputBuffer := input;
      weightBuffer := new Storage.Buffer(BUFFER_SIZE);
      outputBuffer := new Storage.Buffer(BUFFER_SIZE);
      dma := engine;
      engine.BindBuffer(input);
      plan, memory, desc := [], null, DefaultDescriptor;
      state, error, perf := IDLE, NONE, Perf(0, 0, 0, 0);
    }

    ghost function Buffers(): set<array<int>>
    {
      {inputBuffer.data, weightBuffer.data, outputBuffer.data}
    }

    /** The objects a run may change beside DRAM. */
    ghost function Scratch(): set<object>
    {
      {this, dma, inputBuffer.data, weightBuffer.data, outputBuffer.data} + grid.cells
    }

    ghost function Dram(): set<object>
      reads this
    {
      if memory == null then {} else {memory.data}
    }

    /** `check_matrix_range`: with 64-bit sums that do not wrap, exactly that all three matrices end in memory. */
    predicate MatrixRangeOk(): (r: bool)
      requires Valid() && desc.Validate() && EndsFit(desc)
      reads this, dma, grid.pe
      ensures r <==> memory != null && InMemory(desc, memory.data.Length)
    {
      hide Flat;
      hide MatrixEnd64;
      memory != null &&
      var size := memory.data.Length * WORD_BYTES;
      && MatrixEnd64(desc.aBase, desc.m, desc.k) <= size
      && MatrixEnd64(desc.bBase, desc.k, desc.n) <= size
      && MatrixEnd64(desc.cBase, desc.m, desc.n) <= size
    }

    /** Brings a window of DRAM into a scratch buffer and from there into a fresh tile; none of the calls can fail. */
    method FetchTile(buffer: Storage.Buffer, w: Window) returns (tile: array<int>)
      requires Valid() && memory != null && w.Within(memory.data.Length)
      requires buffer == inputBuffer || buffer == weightBuffer || buffer == outputBuffer
      modifies dma, buffer.data
      ensures Valid() && dma.buffer == buffer && fresh(tile) && Holds(tile[..], w, memory.Contents())
    {
      hide Flat;
      hide Dma.Transferred;
      hide Window.Fetch;
      hide Window.Word;
      WindowRequests(w, memory.data.Length);
      FetchIsToBuffer(w);
      AreaNonNegative(w.height, w.width);
      ghost var dst := buffer.Contents();
      dma.BindBuffer(buffer);
      var ok := dma.Submit(w.Fetch());
      assert ok;
      ok := dma.RunSync();
      assert ok;
      var elems := Flat(w.height, 0, w.width);
      tile := new int[elems](_ => 0);
      ok := buffer.Dump(tile, elems);
      assert ok;
      WindowFetched(w, memory.Contents(), dst, buffer.Contents());
      forall r, c | 0 <= r < w.height && 0 <= c < w.width { FlatInside(r, c, w.height, w.width); }
    }

    /** Writes a finished tile back to its window of DRAM, and to nothing else; none of the calls can fail. */
    method StoreTile(tile: array<int>, w: Window)
      requires Valid() && memory != null && w.Within(memory.data.Length) && dma.buffer == outputBuffer
      requires tile.Length == Flat(w.height, 0, w.width) && tile !in Buffers() && tile != memory.data
      modifies dma, outputBuffer.data, memory.data
      ensures Valid() && tile[..] == old(tile[..]) && Holds(tile[..], w, memory.Contents())
      ensures forall x | 0 <= x < memory.data.Length && !w.Covers(x) ::
                memory.Contents()[x] == old(memory.Contents())[x]
    {
      hide Flat;
      hide Dma.Transferred;
      hide Window.Store;
      hide Window.Word;
      hide Window.Covers;
      WindowRequests(w, memory.data.Length);
      StoreIsFromBuffer(w);
      outputBuffer.Reset();
      var ok := outputBuffer.Load(tile, tile.Length);
      assert ok;
      ghost var src := outputBuffer.Contents();
      ok := dma.Submit(w.Store());
      assert ok;
      ok := dma.RunSync();
      assert ok;
      WindowStored(w, src, old(memory.Contents()), memory.Contents());
      forall r, c | 0 <= r < w.height && 0 <= c < w.width { FlatInside(r, c, w.height, w.width); }
    }

    /** The reads of a tile: A, B, and C unless the block is new. */
    method FetchOperands(t: GemmTile) returns (a: seq<int>, b: seq<int>, c: Option<seq<int>>)
      requires Valid() && memory != null && TileReady(desc, t, memory.data.Length)
      modifies this`perf, dma, inputBuffer.data, weightBuffer.data, outputBuffer.data
      ensures Valid() && dma.buffer == outputBuffer && HoldsOperands(desc, t, memory.Contents(), a, b, c)
      ensures perf == AfterReads(old(perf), t)
    {
      hide Flat;
      hide Holds;
      hide Window.Within;
      var aTile := FetchTile(inputBuffer, AWindow(desc, t));
      perf := perf.(dmaReads := U64(perf.dmaReads + t.kLen * t.mLen));
      var bTile := FetchTile(weightBuffer, BWindow(desc, t));
      perf := perf.(dmaReads := U64(perf.dmaReads + t.nLen * t.kLen));
      dma.BindBuffer(outputBuffer);
      a, b, c := aTile[..], bTile[..], None;
      if t.k0 != 0 {
        var cTile := FetchTile(outputBuffer, CWindow(desc, t));
        perf := perf.(dmaReads := U64(perf.dmaReads + t.nLen * t.mLen));
        c := Some(cTile[..]);
      }
    }

    /** The read half of a tile, and the multiplication. */
    method ComputeTile(t: GemmTile) returns (cOut: array<int>)
      requires Valid() && memory != null && TileReady(desc, t, memory.data.Length)
      modifies this`perf, dma, inputBuffer.data, weightBuffer.data, outputBuffer.data, grid.cells
      ensures Valid() && dma.buffer == outputBuffer
      ensures fresh(cOut) && cOut.Length == Flat(t.mLen, 0, t.nLen)
      ensures HoldsResult(cOut[..], TileProduct(desc, memory.Contents(), t))
      ensures perf == AfterCompute(old(perf), t)
    {
      hide Holds;
      hide TileJob;
      hide TileProduct;
      hide HoldsResult;
      TileShape(desc, t, memory.data.Length);
      var a, b, c := FetchOperands(t);
      OperandLengths(desc, t, memory.Contents(), a, b, c);
      hide HoldsOperands;
      cOut := new int[Flat(t.mLen, 0, t.nLen)](_ => 0);
      var multiplied, cycles := grid.RunGemmTile(desc.mode, Some(a), Some(b), c, t.mLen, t.nLen, t.kLen, cOut);
      assert multiplied;
      perf := perf.(cycles := U64(perf.cycles + cycles), macs := U64(perf.macs + t.mLen * t.nLen * t.kLen));
      TileResult(desc, t, memory.Contents(), a, b, c, cOut[..]);
    }

    /** A tile that passed its size check: none of the calls it makes can fail. */
    method ExecuteTile(t: GemmTile)
      requires Valid() && memory != null && TileReady(desc, t, memory.data.Length)
      modifies this`perf, dma, inputBuffer.data, weightBuffer.data, outputBuffer.data, grid.cells, memory.data
      ensures Valid() && perf == Wrapped(Add(old(perf), TileCost(t)))
      ensures t.mLen >= 0 && t.nLen >= 0 && t.kLen >= 0
      ensures TileApplied(desc, t, old(memory.Contents()), memory.Contents())
    {
      hide Flat;
      hide TileProduct;
      hide HoldsResult;
      hide TileApplied;
      hide TileCost;
      hide AfterCompute;
      hide Holds;
      hide Window.Covers;
      hide Window.Within;
      TileShape(desc, t, memory.data.Length);
      ghost var before, mem := perf, memory.Contents();
      var cOut := ComputeTile(t);
      StoreTile(cOut, CWindow(desc, t));
      perf := perf.(dmaWrites := U64(perf.dmaWrites + t.nLen * t.mLen));
      ComputeThenStoreCost(before, t);
      StoredTileApplied(desc, t, mem, cOut[..], memory.Contents());
    }

    /** One tile of the plan.  A tile that fails the size check changes neither DRAM nor a counter. */
    method RunTile(t: GemmTile, ghost p: Position) returns (ok: bool)
      requires Valid() && memory != null && desc.Validate()
      requires InMemory(desc, memory.data.Length) && Inside(desc, p) && t == TileOf(desc, p)
      modifies this`perf, this`error, dma, inputBuffer.data, weightBuffer.data, outputBuffer.data, grid.cells, memory.data
      ensures Valid()
      ensures ok <==> TileElemsFit(t)
      ensures !ok ==> error == OUT_OF_RANGE && perf == old(perf) && memory.Contents() == old(memory.Contents())
      ensures ok ==> error == old(error) && perf == Wrapped(Add(old(perf), TileCost(t)))
      ensures t.mLen >= 0 && t.nLen >= 0 && t.kLen >= 0
      ensures ok ==> TileApplied(desc, t, old(memory.Contents()), memory.Contents())
    {
      hide TileApplied;
      hide TileCost;
      TileInBox(desc, p);
      TileAreas(desc, t, memory.data.Length);
      var aElems, bElems, cElems := U32(t.mLen * t.kLen), U32(t.kLen * t.nLen), U32(t.mLen * t.nLen);
      if aElems > inputBuffer.data.Length || bElems > weightBuffer.data.Length || cElems > outputBuffer.data.Length {
        error := OUT_OF_RANGE;
        return false;
      }
      ReadyTile(desc, t, memory.data.Length);
      ExecuteTile(t);
      ok := true;
    }

    /** Clears the three buffers. */
    method ResetBuffers()
      requires Valid()
      modifies inputBuffer.data, weightBuffer.data, outputBuffer.data
      ensures Valid()
      ensures forall x :: 0 <= x < BUFFER_SIZE ==> inputBuffer.Contents()[x] == 0
      ensures forall x :: 0 <= x < BUFFER_SIZE ==> weightBuffer.Contents()[x] == 0
      ensures forall x :: 0 <= x < BUFFER_SIZE ==> outputBuffer.Contents()[x] == 0
    {
      weightBuffer.Reset();
      inputBuffer.Reset();
      outputBuffer.Reset();
    }

    method Reset()
      requires Valid()
      modifies Scratch()
      ensures Valid() && memory == old(memory) && desc == DefaultDescriptor && state == IDLE && error == NONE
      ensures perf == Perf(0, 0, 0, 0)
    {
      hide Storage.Buffer.Contents;
      hide Array.At;
      grid.Reset();
      ResetBuffers();
      ResetDma();
      plan, desc := [], DefaultDescriptor;
      state, error, perf := IDLE, NONE, Perf(0, 0, 0, 0);
    }

    /** The engine starts again on the same memory and the input buffer. */
    method ResetDma()
      requires Valid()
      modifies dma
      ensures Valid()
    {
      hide Storage.Buffer.Contents;
      dma.Reset();
      if memory != null { dma.BindMemory(memory); }
      dma.BindBuffer(inputBuffer);
    }

    method BindMemory(mem: Memory?)
      requires Valid() && (mem != null ==> mem.Valid() && mem.data !in Buffers())
      modifies this`memory, dma
      ensures Valid() && memory == mem
    {
      memory := mem;
      if mem != null { dma.BindMemory(mem); }
    }

    /** A descriptor that does not validate is refused and leaves the previous one in place. */
    method Submit(d: Descriptor) returns (ok: bool)
      requires Valid() && d.Words()
      modifies this`desc, this`state, this`error
      ensures Valid() && ok == d.Validate() && desc == if ok then d else old(desc)
      ensures (state, error) == if ok then (IDLE, NONE) else (ERROR, INVALID_DESC)
    {
      if !d.Validate() {
        state, error := ERROR, INVALID_DESC;
        return false;
      }
      desc, state, error := d, IDLE, NONE;
      return true;
    }

    /** The exact condition for a run to succeed. */
    ghost predicate Runnable()
      reads this
    {
      && desc.Validate() && memory != null && InMemory(desc, memory.data.Length) && FirstTileFits(desc)
    }

    /** Runs the submitted descriptor.  It succeeds exactly when it is runnable; a failed run changes no word of DRAM
        and no counter; a successful one changes nothing outside C, and leaves A * B in C for every content of DRAM
        if, and only if, no tile reads an operand that an earlier tile has overwritten. */
    method Run() returns (ok: bool)
      requires Valid() && EndsFit(desc)
      modifies Scratch(), Dram()
      ensures Valid() && memory == old(memory) && desc == old(desc)
      ensures ok <==> Runnable()
      ensures ok ==> state == DONE && error == NONE
      ensures ok ==> Tileable(desc) && IsPlan(desc, plan) && perf == Wrapped(Add(old(perf), RunGain(desc)))
      ensures ok ==> RunOutcome(desc, old(memory.Contents()), memory.Contents())
      ensures !ok ==> state == ERROR && perf == old(perf) && (memory != null ==> memory.Contents() == old(memory.Contents()))
      ensures !ok ==> error == if !desc.Validate() then INVALID_DESC else OUT_OF_RANGE
    {
      hide Flat;
      hide RunOutcome;
      hide IsPlan;
      hide Wrapped;
      hide CostOf;
      hide PlanLength;
      hide RunGain;
      ValidIsTileable(desc);
      if desc.Validate() { RunCost(desc); }
      if !desc.Validate() {
        state, error := ERROR, INVALID_DESC;
        return false;
      }
      if !MatrixRangeOk() {
        state, error := ERROR, OUT_OF_RANGE;
        return false;
      }
      hide InMemory;
      hide FirstTileFits;
      ok := RunChecked();
    }

    /** A run whose descriptor and ranges have passed their checks. */
    method RunChecked() returns (ok: bool)
      requires Valid() && desc.Validate() && memory != null && Tileable(desc)
      requires InMemory(desc, memory.data.Length)
      modifies this`plan, this`perf, this`error, this`state, dma
      modifies inputBuffer.data, weightBuffer.data, outputBuffer.data, grid.cells, memory.data
      ensures Valid() && ok == FirstTileFits(desc)
      ensures ok ==> state == DONE && error == NONE && 0 <= PlanLength(desc) && IsPlan(desc, plan)
                     && perf == Wrapped(Add(old(perf), CostOf(desc, PlanLength(desc))))
      ensures ok ==> RunOutcome(desc, old(memory.Contents()), memory.Contents())
      ensures !ok ==> state == ERROR && error == OUT_OF_RANGE && perf == old(perf)
      ensures !ok ==> memory.Contents() == old(memory.Contents())
    {
      hide Flat;
      hide PlanLength;
      hide CostOf;
      hide Wrapped;
      hide InMemory;
      hide IsPlan;
      hide RunOutcome;
      hide FirstTileFits;
      hide Descriptor.Validate;
      state, error := BUSY, NONE;
      PrepareRun();
      ok := RunPlan();
      if ok { state := DONE; }
    }

    /** Builds the plan, which cannot fail here, and clears the grid. */
    method PrepareRun()
      requires Valid() && desc.Validate() && Tileable(desc) && memory != null && InMemory(desc, memory.data.Length)
      modifies this`plan, grid.cells
      ensures Valid() && IsPlan(desc, plan)
    {
      hide Flat;
      hide Descriptor.Validate;
      hide IsPlan;
      CountersFitInMemory(desc, memory.data.Length);
      var built;
      built, plan := BuildPlan(desc);
      assert built;
      grid.Reset();
    }

    /** The loop over the plan: the first tile decides, and from then on the invariant over the plan holds. */
    method RunPlan() returns (ok: bool)
      requires Valid() && desc.Validate() && memory != null
      requires InMemory(desc, memory.data.Length) && Tileable(desc) && IsPlan(desc, plan) && error == NONE
      modifies this`perf, this`error, this`state, dma
      modifies inputBuffer.data, weightBuffer.data, outputBuffer.data, grid.cells, memory.data
      ensures Valid() && ok == FirstTileFits(desc)
      ensures ok ==> state == old(state) && error == NONE && 0 <= PlanLength(desc)
                     && perf == Wrapped(Add(old(perf), CostOf(desc, PlanLength(desc))))
      ensures ok ==> RunOutcome(desc, old(memory.Contents()), memory.Contents())
      ensures !ok ==> state == ERROR && error == OUT_OF_RANGE && perf == old(perf)
      ensures !ok ==> memory.Contents() == old(memory.Contents())
    {
      hide Flat;
      hide Descriptor.Validate;
      hide PositionAt;
      hide RunInvariant;
      hide RunOutcome;
      hide TileOf;
      hide TileElemsFit;
      hide FirstTileFits;
      hide TileApplied;
      hide TileCost;
      hide Wrapped;
      hide CostOf;
      hide IsPlan;
      hide InMemory;
      ghost var d, mem0 := desc, memory.Contents();
      PlanEnds(d);
      RunStart(d, mem0);
      PlanStart(d, plan);
      for s := 0 to |plan|
        invariant Valid() && error == NONE && state == old(state)
        invariant s > 0 ==> FirstTileFits(d)
        invariant s == 0 ==> perf == old(perf) && memory.Contents() == mem0
        invariant s > 0 ==> perf == Wrapped(Add(old(perf), CostOf(d, s)))
        invariant RunInvariant(d, mem0, memory.Contents(), PositionAt(d, s))
      {
        ghost var p, mem := PositionAt(d, s), memory.Contents();
        PlanPositionInside(d, s);
        FirstTileDominates(d, p);
        PlanTile(d, plan, s);
        var ran := RunTile(plan[s], p);
        if !ran {
          state := ERROR;
          assert error != NONE;
          return false;
        }
        AfterTile(d, mem0, mem, memory.Contents(), s);
        CostAdds(d, old(perf), s);
      }
      RunEnd(d, mem0, memory.Contents(), PositionAt(d, |plan|));
      return true;
    }
  }

  /** A tile of a valid plan whose matrices are in memory and whose operands fit the buffers. */
  ghost predicate TileReady(d: Descriptor, t: GemmTile, size: int)
  {
    && Tileable(d) && DimsAllowed(d.mode, t) && AWindow(d, t).Within(size) && BWindow(d, t).Within(size)
    && CWindow(d, t).Within(size)
  }

  predicate DimsAllowed(mode: Dataflow, t: GemmTile)
  {
    match mode
    case OS => t.mLen <= ARRAY_ROWS && t.nLen <= ARRAY_COLS
    case WS => t.kLen <= ARRAY_ROWS && t.nLen <= ARRAY_COLS
    case IS => t.mLen <= ARRAY_ROWS && t.kLen <= ARRAY_COLS
    case Invalid(_) => false
  }

  function AWindow(d: Descriptor, t: GemmTile): Window { Window(d.aBase, d.m, d.k, t.m0, t.k0, t.mLen, t.kLen) }

  function BWindow(d: Descriptor, t: GemmTile): Window { Window(d.bBase, d.k, d.n, t.k0, t.n0, t.kLen, t.nLen) }

  function CWindow(d: Descriptor, t: GemmTile): Window { Window(d.cBase, d.m, d.n, t.m0, t.n0, t.mLen, t.nLen) }

  /** A tile holds its window of `mem`. */
  ghost predicate Holds(tile: seq<int>, w: Window, mem: seq<int>)
  {
    && |tile| == Flat(w.height, 0, w.width)
    && forall r, c :: 0 <= r < w.height && 0 <= c < w.width ==>
         Peek(tile, Flat(r, c, w.width)) == Peek(mem, w.Word(r, c))
  }

  ghost predicate HoldsOperands(d: Descriptor, t: GemmTile, mem: seq<int>, a: seq<int>, b: seq<int>, c: Option<seq<int>>)
  {
    && Holds(a, AWindow(d, t), mem) && Holds(b, BWindow(d, t), mem)
    && (c.None? <==> t.k0 == 0) && (c.Some? ==> Holds(c.value, CWindow(d, t), mem))
  }

  /** The array multiplies the very operands the tile has in DRAM. */
  lemma FetchedOperandsAgree(d: Descriptor, t: GemmTile, mem: seq<int>, a: seq<int>, b: seq<int>, c: Option<seq<int>>)
    requires t.mLen > 0 && t.nLen > 0 && t.kLen > 0 && HoldsOperands(d, t, mem, a, b, c)
    ensures var u, v := TileJob(d.mode, a, b, c, t.mLen, t.nLen, t.kLen), TileProduct(d, mem, t);
            && (forall i, p :: u.A(i, p) == v.A(i, p)) && (forall p, j :: u.B(p, j) == v.B(p, j))
            && (forall i, j :: u.C(i, j) == v.C(i, j))
  {
    hide Flat;
    forall i, p | 0 <= i < t.mLen && 0 <= p < t.kLen
      ensures Peek(a, Flat(i, p, t.kLen)) == Peek(mem, AWord(d, t.m0 + i, t.k0 + p))
    {
      assert Peek(a, Flat(i, p, t.kLen)) == Peek(mem, AWindow(d, t).Word(i, p));
    }
    forall p, j | 0 <= p < t.kLen && 0 <= j < t.nLen
      ensures Peek(b, Flat(p, j, t.nLen)) == Peek(mem, BWord(d, t.k0 + p, t.n0 + j))
    {
      assert Peek(b, Flat(p, j, t.nLen)) == Peek(mem, BWindow(d, t).Word(p, j));
    }
    if c.Some? {
      forall i, j | 0 <= i < t.mLen && 0 <= j < t.nLen
        ensures Peek(c.value, Flat(i, j, t.nLen)) == Peek(mem, CWord(d, t.m0 + i, t.n0 + j))
      {
        assert Peek(c.value, Flat(i, j, t.nLen)) == Peek(mem, CWindow(d, t).Word(i, j));
      }
    }
  }

  lemma TileResult(d: Descriptor, t: GemmTile, mem: seq<int>, a: seq<int>, b: seq<int>, c: Option<seq<int>>, out: seq<int>)
    requires t.mLen > 0 && t.nLen > 0 && t.kLen > 0 && HoldsOperands(d, t, mem, a, b, c)
    requires HoldsResult(out, TileJob(d.mode, a, b, c, t.mLen, t.nLen, t.kLen))
    ensures HoldsResult(out, TileProduct(d, mem, t))
  {
    hide Flat;
    hide Job.Dot;
    hide HoldsOperands;
    FetchedOperandsAgree(d, t, mem, a, b, c);
    var u, v := TileJob(d.mode, a, b, c, t.mLen, t.nLen, t.kLen), TileProduct(d, mem, t);
    forall i, j | 0 <= i < t.mLen && 0 <= j < t.nLen ensures u.Result(i, j) == v.Result(i, j) {
      SameOperandsSameDot(u, v, i, j, i, j, 0, t.kLen);
      EmptyDot(v, i, j);
      assert u.C(i, j) == v.C(i, j);
    }
  }

  /** No overflow in the grid itself: for the operands the controller fetches at any state a run of a plan free of hazards
      passes through, every register and product of every cell stays within 32 bits at every clock, if K * alpha * beta
      stays below 2^31. */
  lemma EveryFetchedTileInRange(d: Descriptor, mem0: seq<int>, mem: seq<int>, p: Position, alpha: nat, beta: nat,
                                a: seq<int>, b: seq<int>, c: Option<seq<int>>, clock: nat, i: nat, j: nat)
    requires Reachable(d, mem0, mem, p) && !d.mode.Invalid? && OperandsBounded(d, mem0, alpha, beta)
    requires HoldsOperands(d, TileOf(d, p), mem, a, b, c)
    ensures var t := TileOf(d, p);
            CellInRange(TileJob(d.mode, a, b, c, t.mLen, t.nLen, t.kLen).At(clock, i, j))
  {
    hide Flat;
    hide Job.At;
    hide Times;
    hide HoldsOperands;
    TileInBox(d, p);
    var t := TileOf(d, p);
    FetchedOperandsAgree(d, t, mem, a, b, c);
    ReachableTileBounded(d, mem0, mem, p, alpha, beta);
    var gamma := Times(t.k0, Times(alpha, beta));
    var job := TileJob(d.mode, a, b, c, t.mLen, t.nLen, t.kLen);
    assert Bounded(job, alpha, beta, gamma);
    EveryCellInRange(job, alpha, beta, gamma, clock, i, j);
  }

  /** Storing a tile's product in its window of C is the tile's whole effect. */
  lemma StoredTileApplied(d: Descriptor, t: GemmTile, mem: seq<int>, out: seq<int>, mem': seq<int>)
    requires TileReady(d, t, |mem|) && |mem'| == |mem| && HoldsResult(out, TileProduct(d, mem, t))
    requires Holds(out, CWindow(d, t), mem')
    requires forall x | 0 <= x < |mem| && !CWindow(d, t).Covers(x) :: mem'[x] == mem[x]
    ensures TileApplied(d, t, mem, mem')
  {
    hide Flat;
    hide Job.Result;
    var w, job := CWindow(d, t), TileProduct(d, mem, t);
    forall x, y | InTile(t, x, y) ensures Peek(mem', CWord(d, x, y)) == job.Result(x - t.m0, y - t.n0) {
      assert w.Word(x - t.m0, y - t.n0) == CWord(d, x, y);
      assert Peek(out, Flat(x - t.m0, y - t.n0, t.nLen)) == job.Result(x - t.m0, y - t.n0);
    }
    forall x | 0 <= x < |mem| && !TileWrites(d, t, x) ensures mem'[x] == mem[x] {
      forall r, c | 0 <= r < t.mLen && 0 <= c < t.nLen ensures w.Word(r, c) != x {
        assert InTile(t, t.m0 + r, t.n0 + c);
        assert w.Word(r, c) == CWord(d, t.m0 + r, t.n0 + c);
      }
    }
  }

  /** The counters after the read half of a tile, in the order the controller adds them. */
  function AfterReads(before: Perf, t: GemmTile): Perf
  {
    var r1 := U64(before.dmaReads + t.kLen * t.mLen);
    var r2 := U64(r1 + t.nLen * t.kLen);
    before.(dmaReads := if t.k0 != 0 then U64(r2 + t.nLen * t.mLen) else r2)
  }

  function AfterCompute(before: Perf, t: GemmTile): Perf
  {
    AfterReads(before, t).(cycles := U64(before.cycles + (t.mLen + t.nLen + t.kLen - 2)),
                           macs := U64(before.macs + t.mLen * t.nLen * t.kLen))
  }

  /** A planned tile of a valid descriptor that passes the size check is ready. */
  lemma ReadyTile(d: Descriptor, t: GemmTile, size: int)
    requires d.Words() && d.Validate() && InMemory(d, size) && size <= MAX_WORDS && TileElemsFit(t)
    requires 0 <= t.m0 && 0 <= t.n0 && 0 <= t.k0 && t.mLen > 0 && t.nLen > 0 && t.kLen > 0
    requires t.m0 + t.mLen <= d.m && t.n0 + t.nLen <= d.n && t.k0 + t.kLen <= d.k
    requires t.mLen <= d.tileM && t.nLen <= d.tileN && t.kLen <= d.tileK
    ensures TileReady(d, t, size)
  {
    hide Flat;
  }

  lemma ValidIsTileable(d: Descriptor)
    requires d.Words()
    ensures d.Validate() ==> Tileable(d)
  {
  }

  lemma PlanStart(d: Descriptor, plan: seq<GemmTile>)
    requires Tileable(d) && IsPlan(d, plan)
    ensures PositionAt(d, 0) == Position(0, 0, 0) && |plan| == PlanLength(d)
  {
  }

  lemma PlanTile(d: Descriptor, plan: seq<GemmTile>, s: nat)
    requires Tileable(d) && IsPlan(d, plan) && s < |plan|
    ensures plan[s] == TileOf(d, PositionAt(d, s))
    ensures s > 0 <==> PositionAt(d, s) != Position(0, 0, 0)
  {
    hide Flat;
    RankOfPositionAt(d, s);
    FlatNextRow(0, 0, TilesN(d));
    FlatNextRow(0, 0, TilesK(d));
  }

  /** What holds of DRAM when the loop over the plan stands at position p. */
  ghost predicate RunInvariant(d: Descriptor, mem0: seq<int>, mem: seq<int>, p: Position)
    requires Tileable(d)
  {
    && OutsideCKept(d, mem0, mem) && (HazardFree(d) ==> Progress(d, mem0, mem, p)) && (AllTwos(d, mem0) ==> Heavy(d, mem, p))
  }

  lemma RunStart(d: Descriptor, mem: seq<int>)
    requires Tileable(d) && InMemory(d, |mem|) && d.aBase >= 0 && d.bBase >= 0 && d.cBase >= 0
    ensures RunInvariant(d, mem, mem, PositionAt(d, 0))
  {
    hide Flat;
    ProgressStart(d, mem);
    if AllTwos(d, mem) { HeavyStart(d, mem); }
  }

  /** One iteration of the loop over the plan. */
  lemma AfterTile(d: Descriptor, mem0: seq<int>, mem: seq<int>, mem': seq<int>, s: nat)
    requires Tileable(d) && Inside(d, PositionAt(d, s)) && RunInvariant(d, mem0, mem, PositionAt(d, s))
    requires var t := TileOf(d, PositionAt(d, s)); t.mLen >= 0 && t.nLen >= 0 && t.kLen >= 0 && TileApplied(d, t, mem, mem')
    ensures RunInvariant(d, mem0, mem', PositionAt(d, s + 1))
  {
    hide Flat;
    hide Progress;
    hide Heavy;
    hide HazardFree;
    hide TileApplied;
    var p := PositionAt(d, s);
    TileInBox(d, p);
    TileStaysInC(d, TileOf(d, p), mem0, mem, mem');
    if HazardFree(d) { ProgressStep(d, mem0, mem, mem', p); }
    if AllTwos(d, mem0) { HeavyStep(d, mem, mem', p); }
  }

  /** What a successful run does to DRAM.  Nothing changes outside C.  Without a hazard C receives the product of A and
      B; with one, there are contents (matrices of twos) for which it does not: `HazardFree` is the exact condition. */
  ghost predicate RunOutcome(d: Descriptor, mem0: seq<int>, mem: seq<int>)
    requires Tileable(d)
  {
    && OutsideCKept(d, mem0, mem)
    && (HazardFree(d) ==> ProductStored(d, mem0, mem))
    && (!HazardFree(d) && AllTwos(d, mem0) ==> !ProductStored(d, mem0, mem))
  }

  lemma RunEnd(d: Descriptor, mem0: seq<int>, mem: seq<int>, p: Position)
    requires Tileable(d) && p.i == TilesM(d) && RunInvariant(d, mem0, mem, p)
    ensures RunOutcome(d, mem0, mem)
  {
    hide Flat;
    hide Progress;
    hide Heavy;
    hide HazardFree;
    if HazardFree(d) { ProgressEnd(d, mem0, mem, p); } else if AllTwos(d, mem0) { HazardSpoilsProduct(d, mem0, mem, p); }
  }

  lemma CostAdds(d: Descriptor, before: Perf, s: nat)
    requires Tileable(d)
    ensures var cost := TileCost(TileOf(d, PositionAt(d, s)));
            && Wrapped(Add(Wrapped(Add(before, CostOf(d, s))), cost)) == Wrapped(Add(before, CostOf(d, s + 1)))
            && (s == 0 ==> Wrapped(Add(before, cost)) == Wrapped(Add(before, CostOf(d, s + 1))))
  {
    hide TileCost;
    hide U64;
    var cost, sum := TileCost(TileOf(d, PositionAt(d, s))), Add(before, CostOf(d, s));
    WrappedAdds(sum.cycles, cost.cycles);
    WrappedAdds(sum.dmaReads, cost.dmaReads);
    WrappedAdds(sum.dmaWrites, cost.dmaWrites);
    WrappedAdds(sum.macs, cost.macs);
  }

  /** The sizes a ready tile has in the array. */
  lemma TileShape(d: Descriptor, t: GemmTile, size: int)
    requires TileReady(d, t, size)
    ensures t.mLen > 0 && t.nLen > 0 && t.kLen > 0 && 0 <= Flat(t.mLen, 0, t.nLen) == t.mLen * t.nLen
  {
    AreaNonNegative(t.mLen, t.nLen);
  }

  lemma OperandLengths(d: Descriptor, t: GemmTile, mem: seq<int>, a: seq<int>, b: seq<int>, c: Option<seq<int>>)
    requires HoldsOperands(d, t, mem, a, b, c)
    ensures |a| == t.mLen * t.kLen && |b| == t.kLen * t.nLen && (c.Some? ==> |c.value| == t.mLen * t.nLen)
  {
  }

  lemma ComputeThenStoreCost(before: Perf, t: GemmTile)
    ensures var p := AfterCompute(before, t);
            p.(dmaWrites := U64(p.dmaWrites + t.nLen * t.mLen)) == Wrapped(Add(before, TileCost(t)))
  {
    hide U64;
    var x, y, z := t.kLen * t.mLen, t.nLen * t.kLen, t.nLen * t.mLen;
    WrappedAdds(before.dmaReads + x, y);
    WrappedAdds(before.dmaReads + x + y, z);
  }

  lemma TileAreas(d: Descriptor, t: GemmTile, size: int)
    requires InMemory(d, size) && size <= MAX_WORDS && d.aBase >= 0 && d.bBase >= 0 && d.cBase >= 0
    requires 0 <= t.m0 && 0 <= t.n0 && 0 <= t.k0 && t.mLen > 0 && t.nLen > 0 && t.kLen > 0
    requires t.m0 + t.mLen <= d.m && t.n0 + t.nLen <= d.n && t.k0 + t.kLen <= d.k
    ensures U32(t.mLen * t.kLen) == t.mLen * t.kLen == Flat(t.mLen, 0, t.kLen)
    ensures U32(t.kLen * t.nLen) == t.kLen * t.nLen == Flat(t.kLen, 0, t.nLen)
    ensures U32(t.mLen * t.nLen) == t.mLen * t.nLen == Flat(t.mLen, 0, t.nLen)
  {
    AreaMonotone(t.mLen, t.kLen, d.m, d.k);
    AreaMonotone(t.kLen, t.nLen, d.k, d.n);
    AreaMonotone(t.mLen, t.nLen, d.m, d.n);
  }

  lemma FetchIsToBuffer(w: Window)
    ensures w.Fetch().direction == Dma.DRAM_TO_BUFFER && w.Fetch().rows == w.height
  {
  }

  lemma StoreIsFromBuffer(w: Window)
    ensures w.Store().direction == Dma.BUFFER_TO_DRAM && w.Store().rows == w.height
  {
  }

  lemma AreaNonNegative(rows: nat, width: nat)
    ensures 0 <= Flat(rows, 0, width)
  {
  }
}
