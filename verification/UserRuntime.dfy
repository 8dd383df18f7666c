/** The call the emitted C makes for gemm (src/maps-os/user/runtime.c, src/maps-os/drivers/npu.c), down to the device:
    arrays laid out in DRAM end as `CTarget.NpuGemm` says. */
module UserRuntime {
  import opened Options
  import opened Words
  import opened RowMajor
  import opened Storage
  import opened Descriptors
  import opened Schedule
  import opened TiledGemm
  import opened InPlace
  import opened Control
  import opened Device
  import opened Driver
  import opened Evaluation
  import opened CTarget

  // ----- arrays in DRAM -----

  /** The array `cells` stands at byte address `base`. */
  ghost predicate Placed(mem: seq<int>, base: int, cells: seq<int>)
  {
    && base >= 0 && base % WORD_BYTES == 0 && base / WORD_BYTES + |cells| <= |mem|
    && forall x :: 0 <= x < |cells| ==> Peek(mem, base / WORD_BYTES + x) == cells[x]
  }

  predicate Apart(base: int, length: int, base': int, length': int)
  {
    base / WORD_BYTES + length <= base' / WORD_BYTES || base' / WORD_BYTES + length' <= base / WORD_BYTES
  }

  ghost predicate Laid(arrays: map<string, seq<int>>, at: map<string, int>, mem: seq<int>)
  {
    && arrays.Keys <= at.Keys && (forall n :: n in arrays ==> Placed(mem, at[n], arrays[n]))
    && forall n, n' :: n in arrays && n' in arrays && n != n' ==> Apart(at[n], |arrays[n]|, at[n'], |arrays[n']|)
  }

  /** The arrays a C state shows. */
  function ArraysOf(st: CState): map<string, seq<int>>
  {
    map n | n in st.locals.Keys + st.globals.Keys && st.Lookup(n).value.Cells? :: st.Lookup(n).value.cells
  }

  // ----- the product, word by word -----

  lemma {:induction false} DotPlaced(d: Descriptor, mem: seq<int>, xs: seq<int>, ys: seq<int>, i: int, j: int, count: nat)
    requires Tileable(d) && Placed(mem, d.aBase, xs) && Placed(mem, d.bBase, ys)
    requires Flat(d.m, 0, d.k) <= |xs| && Flat(d.k, 0, d.n) <= |ys| && InBox(d, i, j) && count <= d.k
    ensures Whole(d, mem).Dot(i, j, count) == FlatDot(xs, ys, i, j, d.n, d.k, count)
  {
    hide Flat;
    if count > 0 {
      DotPlaced(d, mem, xs, ys, i, j, count - 1);
      FlatInside(i, count - 1, d.m, d.k);
      FlatInside(count - 1, j, d.k, d.n);
    }
  }

  lemma {:induction false} FlatProductAt(xs: seq<int>, ys: seq<int>, m: nat, n: nat, k: nat)
    ensures |FlatProduct(xs, ys, m, n, k)| == Flat(m, 0, n)
    ensures forall i, j :: 0 <= i < m && 0 <= j < n ==>
              && 0 <= Flat(i, j, n) < Flat(m, 0, n)
              && FlatProduct(xs, ys, m, n, k)[Flat(i, j, n)] == FlatDot(xs, ys, i, j, n, k, k)
  {
    hide Flat;
    FlatNextRow(m - 1, 0, n);
    if m > 0 { FlatProductAt(xs, ys, m - 1, n, k); } else { FlatNextRow(0, 0, n); }
    forall i, j | 0 <= i < m && 0 <= j < n
      ensures 0 <= Flat(i, j, n) < Flat(m, 0, n)
      ensures FlatProduct(xs, ys, m, n, k)[Flat(i, j, n)] == FlatDot(xs, ys, i, j, n, k, k)
    {
      FlatInside(i, j, m, n);
      FlatNextRow(i, j, n);
      if i < m - 1 { FlatInside(i, j, m - 1, n); }
    }
  }

  lemma ProductPlaced(d: Descriptor, mem0: seq<int>, mem: seq<int>, xs: seq<int>, ys: seq<int>)
    requires Tileable(d) && Placed(mem0, d.aBase, xs) && Placed(mem0, d.bBase, ys) && ProductStored(d, mem0, mem)
    requires Flat(d.m, 0, d.k) <= |xs| && Flat(d.k, 0, d.n) <= |ys|
    requires d.cBase >= 0 && d.cBase % WORD_BYTES == 0 && d.cBase / WORD_BYTES + Flat(d.m, 0, d.n) <= |mem|
    ensures Placed(mem, d.cBase, FlatProduct(xs, ys, d.m, d.n, d.k))
  {
    hide Flat;
    hide FlatProduct;
    hide FlatDot;
    hide Whole;
    FlatProductAt(xs, ys, d.m, d.n, d.k);
    var product := FlatProduct(xs, ys, d.m, d.n, d.k);
    forall x | 0 <= x < |product| ensures Peek(mem, d.cBase / WORD_BYTES + x) == product[x] {
      var i, j := x / d.n, x % d.n;
      ElementAt(x, d.m, d.n);
      DotPlaced(d, mem0, xs, ys, i, j, d.k);
      assert InBox(d, i, j) && Peek(mem, CWord(d, i, j)) == Whole(d, mem0).Dot(i, j, d.k);
    }
  }

  /** The descriptor asks for the product of the arrays named a and b in the array named c. */
  predicate Asks(d: Descriptor, arrays: map<string, seq<int>>, at: map<string, int>, a: string, b: string, c: string)
  {
    && Tileable(d) && a in arrays && b in arrays && c in arrays && arrays.Keys <= at.Keys
    && d.aBase == at[a] && d.bBase == at[b] && d.cBase == at[c]
    && Flat(d.m, 0, d.k) <= |arrays[a]| && Flat(d.k, 0, d.n) <= |arrays[b]| && |arrays[c]| == Flat(d.m, 0, d.n)
  }

  /** A stored product is the new contents of its array, and no other array has changed. */
  lemma GemmLaid(d: Descriptor, mem0: seq<int>, mem: seq<int>, arrays: map<string, seq<int>>, at: map<string, int>,
                 a: string, b: string, c: string)
    requires Asks(d, arrays, at, a, b, c) && Laid(arrays, at, mem0) && ProductStored(d, mem0, mem)
    ensures Laid(arrays[c := FlatProduct(arrays[a], arrays[b], d.m, d.n, d.k)], at, mem)
  {
    hide Flat;
    hide FlatProduct;
    hide Whole;
    ProductPlaced(d, mem0, mem, arrays[a], arrays[b]);
    FlatProductAt(arrays[a], arrays[b], d.m, d.n, d.k);
    forall n | n in arrays && n != c ensures Placed(mem, at[n], arrays[n]) {
      forall x | 0 <= x < |arrays[n]| ensures Peek(mem, at[n] / WORD_BYTES + x) == arrays[n][x] {
        assert Apart(at[n], |arrays[n]|, at[c], |arrays[c]|);
        assert !InC(d, at[n] / WORD_BYTES + x);
      }
    }
  }

  /** Different arrays never meet; over an operand, rows or columns of single tiles are enough. */
  lemma CallIsHazardFree(d: Descriptor, mem: seq<int>, arrays: map<string, seq<int>>, at: map<string, int>,
                         a: string, b: string, c: string)
    requires Asks(d, arrays, at, a, b, c) && Laid(arrays, at, mem) && d.tileM == d.tileN == d.tileK == 16
    requires GemmDefined(a, b, c, d.m, d.n, d.k)
    ensures HazardFree(d)
  {
    hide Flat;
    hide HazardFree;
    assert c != a ==> Apart(at[a], |arrays[a]|, at[c], |arrays[c]|);
    assert c != b ==> Apart(at[b], |arrays[b]|, at[c], |arrays[c]|);
    if c == a && c == b { OneTileIsHazardFree(d); }
    else if c == a { OverA(d); }
    else if c == b { OverB(d); }
    else { DisjointIsHazardFree(d); }
  }

  // ----- the call -----

  /** DRAM with the product in the place of C. */
  ghost function Multiplied(d: Descriptor, mem: seq<int>): (r: seq<int>)
    requires Tileable(d)
    ensures |r| == |mem|
  {
    var c, product := d.cBase / WORD_BYTES, Whole(d, mem);
    seq(|mem|, w => if InC(d, w) then product.Dot((w - c) / d.n, (w - c) % d.n, d.k) else Peek(mem, w))
  }

  /** It is what a run without hazards leaves, and nothing else is. */
  lemma MultipliedExactly(d: Descriptor, mem0: seq<int>, mem: seq<int>)
    requires Tileable(d) && d.cBase >= 0 && d.cBase / WORD_BYTES + Flat(d.m, 0, d.n) <= |mem0|
    ensures ProductStored(d, mem0, mem) <==> mem == Multiplied(d, mem0)
  {
    hide Flat;
    var c, product := d.cBase / WORD_BYTES, Multiplied(d, mem0);
    forall w | InC(d, w) ensures InBox(d, (w - c) / d.n, (w - c) % d.n) && CWord(d, (w - c) / d.n, (w - c) % d.n) == w {
      ElementAt(w - c, d.m, d.n);
    }
    forall x, y | InBox(d, x, y) ensures Peek(product, CWord(d, x, y)) == Whole(d, mem0).Dot(x, y, d.k) {
      ElementIs(x, y, d.m, d.n);
    }
    if ProductStored(d, mem0, mem) {
      forall w | 0 <= w < |mem| ensures mem[w] == product[w] {
        if InC(d, w) { assert Peek(mem, CWord(d, (w - c) / d.n, (w - c) % d.n)) == product[w]; }
      }
      assert mem == product;
    }
  }

  /** What `npu_gemm` leaves in DRAM, `None` for a run that depends on the order of overlapping reads and writes: the stored
      descriptor and, if the device can run it, the product. */
  ghost function CallOutcome(mem: seq<int>, descAddr: int, d: Descriptor): Option<seq<int>>
    requires d.Words() && descAddr >= 0
  {
    var mem0 := Overlaid(mem, descAddr / WORD_BYTES, Encode(d));
    if descAddr == 0 || !Startable(mem0, descAddr) then Some(mem0) else
    var loaded := Loaded(mem0, descAddr).1;
    if Tileable(loaded) && HazardFree(loaded) then Some(Multiplied(loaded, mem0)) else None
  }

  /** Storing the descriptor leaves arrays that stand elsewhere. */
  lemma BlockLaid(mem: seq<int>, descAddr: int, raw: seq<int>, arrays: map<string, seq<int>>, at: map<string, int>)
    requires Laid(arrays, at, mem) && descAddr >= 0
    requires forall n :: n in arrays ==> Apart(at[n], |arrays[n]|, descAddr, |raw|)
    ensures Laid(arrays, at, Overlaid(mem, descAddr / WORD_BYTES, raw))
  {
  }

  lemma AssignedArrays(st: CState, c: string, cells: seq<int>)
    requires c in ArraysOf(st)
    ensures ArraysOf(st.Assigned(c, Cells(cells))) == ArraysOf(st)[c := cells]
  {
  }

  /** What `NpuGemm` asks of its arrays is what the descriptor needs. */
  lemma CallAsks(st: CState, at: map<string, int>, a: string, b: string, c: string, m: int, n: int, k: int)
    requires NpuGemm(st, a, b, c, m, n, k).Ok? && m > 0 && n > 0 && k > 0 && ArraysOf(st).Keys <= at.Keys
    ensures a in ArraysOf(st) && b in ArraysOf(st) && c in ArraysOf(st) && GemmDefined(a, b, c, m, n, k)
    ensures Asks(GemmDescriptor(at[a], at[b], at[c], m, n, k), ArraysOf(st), at, a, b, c)
    ensures var arrays := ArraysOf(st);
            NpuGemm(st, a, b, c, m, n, k) == Ok(st.Assigned(c, Cells(FlatProduct(arrays[a], arrays[b], m, n, k))))
  {
    hide FlatProduct;
    assert m * k == Flat(m, 0, k) && k * n == Flat(k, 0, n) && m * n == Flat(m, 0, n);
  }

  /** A tile of the driver's descriptor always fits its buffers, and laid out arrays end within DRAM. */
  lemma CallFits(d: Descriptor, mem: seq<int>, arrays: map<string, seq<int>>, at: map<string, int>,
                 a: string, b: string, c: string)
    requires Asks(d, arrays, at, a, b, c) && Laid(arrays, at, mem) && d.tileM == d.tileN == d.tileK == 16
    ensures InMemory(d, |mem|) && FirstTileFits(d)
  {
    var m, n, k := Min(16, d.m), Min(16, d.n), Min(16, d.k);
    SmallArea(m, k);
    SmallArea(k, n);
    SmallArea(m, n);
    hide Flat;
  }

  lemma SmallArea(rows: int, cols: int)
    requires 0 <= rows <= 16 && 0 <= cols <= 16
    ensures Flat(rows, 0, cols) <= BUFFER_SIZE
  {
    assert rows * cols <= 16 * cols;
  }

  /** `npu_submit`: 0 exactly when the device can run the stored descriptor, the negated error code otherwise; the poll
      never runs out. */
  method NpuSubmit(device: NpuDevice, descAddr: int) returns (code: int)
    requires device.Valid() && device.Settled() && device.memory != null && IsUint32(descAddr)
    modifies device`descAddr, device.controller.Scratch(), device.memory.data
    ensures device.Valid() && device.Settled() && device.memory == old(device.memory)
    ensures code == 0 <==> descAddr != 0 && Startable(old(device.memory.Contents()), descAddr)
    ensures code != 0 ==> -4 < code < 0 && device.memory.Contents() == old(device.memory.Contents())
    ensures code != 0 && descAddr != 0 ==> code == -ErrorCode(device.controller.error)
    ensures code == 0 ==> var d := Loaded(old(device.memory.Contents()), descAddr).1;
                          Tileable(d) && RunOutcome(d, old(device.memory.Contents()), device.memory.Contents())
  {
    hide RunOutcome;
    hide Startable;
    hide Loaded;
    if descAddr == 0 { return -1; }
    var ok := device.Write32(DESC_ADDR, descAddr);
    ok := device.Write32(CMD, CMD_START);
    code := Poll(device);
  }

  /** The loop that ends `npu_submit`: a settled device that was started is decided by its first poll. */
  method Poll(device: NpuDevice) returns (code: int)
    requires device.Valid() && device.Settled()
    ensures code == match device.controller.state
                    case DONE => 0 case ERROR => -ErrorCode(device.controller.error) case IDLE => -2 case BUSY => -2
  {
    for i := 0 to 1000000
      invariant i > 0 ==> device.controller.state == IDLE
    {
      var _, status := device.Read32(STATUS);
      if status == 2 { return 0; }
      if status == 3 {
        var _, error := device.Read32(ERROR_CODE);
        return -error;
      }
    }
    return -2;
  }

  /** `npu_gemm`: whatever stands in DRAM, it leaves what `CallOutcome` says, and 0 says that the product has been stored. */
  method NpuGemmCall(device: NpuDevice, descAddr: int, d: Descriptor) returns (code: int)
    requires device.Valid() && device.Settled() && device.memory != null && IsUint32(descAddr) && d.Words()
    requires descAddr / WORD_BYTES + WORD_COUNT <= device.memory.data.Length
    modifies device`descAddr, device.controller.Scratch(), device.memory.data
    ensures device.Valid() && device.Settled() && device.memory == old(device.memory)
    ensures var mem0 := Overlaid(old(device.memory.Contents()), descAddr / WORD_BYTES, Encode(d));
            code == 0 <==> descAddr != 0 && Startable(mem0, descAddr)
    ensures var outcome := CallOutcome(old(device.memory.Contents()), descAddr, d);
            outcome.Some? ==> device.memory.Contents() == outcome.value
  {
    hide RunOutcome;
    hide Overlaid;
    hide Loaded;
    hide Startable;
    hide CallOutcome;
    hide Encode;
    ghost var mem := device.memory.Contents();
    InitDescriptor(device.memory, descAddr / WORD_BYTES, d);
    code := NpuSubmit(device, descAddr);
    OutcomeReached(mem, descAddr, d, device.memory.Contents(), code == 0);
  }

  lemma OutcomeReached(mem: seq<int>, descAddr: int, d: Descriptor, mem': seq<int>, ok: bool)
    requires d.Words() && descAddr >= 0
    requires var mem0 := Overlaid(mem, descAddr / WORD_BYTES, Encode(d));
             && (ok <==> descAddr != 0 && Startable(mem0, descAddr)) && (!ok ==> mem' == mem0)
             && (ok ==> Tileable(Loaded(mem0, descAddr).1) && RunOutcome(Loaded(mem0, descAddr).1, mem0, mem'))
    ensures CallOutcome(mem, descAddr, d).Some? ==> mem' == CallOutcome(mem, descAddr, d).value
  {
    hide HazardFree;
    hide Multiplied;
    hide ProductStored;
    hide Overlaid;
    hide Loaded;
    hide FirstTileFits;
    var mem0 := Overlaid(mem, descAddr / WORD_BYTES, Encode(d));
    if ok && CallOutcome(mem, descAddr, d).Some? { MultipliedExactly(Loaded(mem0, descAddr).1, mem0, mem'); }
  }

  /** `user_npu_gemm` on arrays laid out in DRAM beside its descriptor: it succeeds, and DRAM ends holding the arrays of
      the state `NpuGemm` leads to. */
  method UserNpuGemm(device: NpuDevice, descAddr: int, a: int, b: int, c: int, m: int, n: int, k: int,
                     ghost st: CState, ghost at: map<string, int>, ghost x: string, ghost y: string, ghost z: string)
      returns (code: int)
    requires device.Valid() && device.Settled() && device.memory != null
    requires 0 < descAddr < TWO32 && descAddr % WORD_BYTES == 0
    requires descAddr / WORD_BYTES + WORD_COUNT <= device.memory.data.Length
    requires 0 < a < TWO31 && 0 < b < TWO31 && 0 < c < TWO31 && 0 < m < TWO31 && 0 < n < TWO31 && 0 < k < TWO31
    requires x in at && y in at && z in at && at[x] == a && at[y] == b && at[z] == c
    requires Laid(ArraysOf(st), at, device.memory.Contents()) && NpuGemm(st, x, y, z, m, n, k).Ok?
    requires forall s :: s in ArraysOf(st) ==> Apart(at[s], |ArraysOf(st)[s]|, descAddr, WORD_COUNT)
    modifies device`descAddr, device.controller.Scratch(), device.memory.data
    ensures device.Valid() && device.Settled() && device.memory == old(device.memory)
    ensures code == 0
    ensures Laid(ArraysOf(NpuGemm(st, x, y, z, m, n, k).value), at, device.memory.Contents())
  {
    hide Overlaid;
    hide Loaded;
    hide Laid;
    hide ArraysOf;
    hide NpuGemm;
    hide Apart;
    hide Startable;
    hide Multiplied;
    hide HazardFree;
    var d := GemmDescriptor(a, b, c, m, n, k);
    ghost var mem := device.memory.Contents();
    CallStartable(d, mem, descAddr, st, at, x, y, z);
    CallEnds(d, Overlaid(mem, descAddr / WORD_BYTES, Encode(d)), st, at, x, y, z);
    code := NpuGemmCall(device, descAddr, d);
  }

  lemma CallStartable(d: Descriptor, mem: seq<int>, descAddr: int, st: CState, at: map<string, int>,
                      a: string, b: string, c: string)
    requires a in at && b in at && c in at && d == GemmDescriptor(at[a], at[b], at[c], d.m, d.n, d.k) && d.Words()
    requires d.NonNegativeWords() && at[a] > 0 && at[b] > 0 && at[c] > 0 && d.m > 0 && d.n > 0 && d.k > 0
    requires Laid(ArraysOf(st), at, mem) && NpuGemm(st, a, b, c, d.m, d.n, d.k).Ok?
    requires IsUint32(descAddr) && descAddr % WORD_BYTES == 0 && descAddr / WORD_BYTES + WORD_COUNT <= |mem|
    requires forall s :: s in ArraysOf(st) ==> Apart(at[s], |ArraysOf(st)[s]|, descAddr, WORD_COUNT)
    ensures var mem0 := Overlaid(mem, descAddr / WORD_BYTES, Encode(d));
            Startable(mem0, descAddr) && Loaded(mem0, descAddr).1 == d && Laid(ArraysOf(st), at, mem0)
  {
    hide Overlaid;
    hide Loaded;
    hide Laid;
    hide ArraysOf;
    hide NpuGemm;
    hide Apart;
    hide InMemory;
    hide FirstTileFits;
    var arrays := ArraysOf(st);
    LaidNames(arrays, at, mem);
    CallAsks(st, at, a, b, c, d.m, d.n, d.k);
    StoredThenLoaded(d, mem, descAddr);
    BlockLaid(mem, descAddr, Encode(d), arrays, at);
    CallFits(d, Overlaid(mem, descAddr / WORD_BYTES, Encode(d)), arrays, at, a, b, c);
  }

  lemma CallEnds(d: Descriptor, mem0: seq<int>, st: CState, at: map<string, int>, a: string, b: string, c: string)
    requires a in at && b in at && c in at && d == GemmDescriptor(at[a], at[b], at[c], d.m, d.n, d.k)
    requires d.m > 0 && d.n > 0 && d.k > 0 && Laid(ArraysOf(st), at, mem0) && NpuGemm(st, a, b, c, d.m, d.n, d.k).Ok?
    ensures HazardFree(d) && Laid(ArraysOf(NpuGemm(st, a, b, c, d.m, d.n, d.k).value), at, Multiplied(d, mem0))
  {
    hide ArraysOf;
    hide NpuGemm;
    hide FlatProduct;
    hide HazardFree;
    hide ProductStored;
    hide Multiplied;
    var arrays := ArraysOf(st);
    CallAsks(st, at, a, b, c, d.m, d.n, d.k);
    CallIsHazardFree(d, mem0, arrays, at, a, b, c);
    assert Placed(mem0, at[c], arrays[c]);
    hide Laid;
    MultipliedExactly(d, mem0, Multiplied(d, mem0));
    GemmLaid(d, mem0, Multiplied(d, mem0), arrays, at, a, b, c);
    AssignedArrays(st, c, FlatProduct(arrays[a], arrays[b], d.m, d.n, d.k));
  }

  lemma LaidNames(arrays: map<string, seq<int>>, at: map<string, int>, mem: seq<int>)
    requires Laid(arrays, at, mem)
    ensures arrays.Keys <= at.Keys && forall n :: n in arrays ==> at[n] >= 0 && at[n] % WORD_BYTES == 0
  {
  }
}
