/** What a tiled product does to DRAM, tile by tile: the invariant over the plan and the sums it costs. */
module TiledGemm {
  import opened Words
  import opened RowMajor
  import opened Systolic
  import opened Descriptors
  import opened Schedule

  /** Word addresses of the three row-major matrices. */
  function AWord(d: Descriptor, i: int, p: int): int { d.aBase / WORD_BYTES + Flat(i, p, d.k) }

  function BWord(d: Descriptor, p: int, j: int): int { d.bBase / WORD_BYTES + Flat(p, j, d.n) }

  function CWord(d: Descriptor, i: int, j: int): int { d.cBase / WORD_BYTES + Flat(i, j, d.n) }

  /** A matrix of `rows` by `cols` words from byte address `base` ends within `size` words. */
  predicate EndsWithin(base: int, rows: int, cols: int, size: int)
  {
    base / WORD_BYTES + Flat(rows, 0, cols) <= size
  }

  predicate InMemory(d: Descriptor, size: int)
  {
    EndsWithin(d.aBase, d.m, d.k, size) && EndsWithin(d.bBase, d.k, d.n, size) && EndsWithin(d.cBase, d.m, d.n, size)
  }

  predicate InC(d: Descriptor, x: int)
  {
    d.cBase / WORD_BYTES <= x < d.cBase / WORD_BYTES + Flat(d.m, 0, d.n)
  }

  /** C shares no word with A or B. */
  predicate Disjoint(d: Descriptor)
  {
    var a, b, c := d.aBase / WORD_BYTES, d.bBase / WORD_BYTES, d.cBase / WORD_BYTES;
    var aEnd, bEnd, cEnd := a + Flat(d.m, 0, d.k), b + Flat(d.k, 0, d.n), c + Flat(d.m, 0, d.n);
    (cEnd <= a || aEnd <= c) && (cEnd <= b || bEnd <= c)
  }

  /** The whole product over the A and B found in `mem`. */
  ghost function Whole(d: Descriptor, mem: seq<int>): Job
    requires Tileable(d)
  {
    Job(d.mode, (i, p) => Peek(mem, AWord(d, i, p)), (p, j) => Peek(mem, BWord(d, p, j)), (i, j) => 0, d.m, d.n, d.k)
  }

  /** The product of one tile, with the partial sums it finds in C unless it is the first of its block. */
  ghost function TileProduct(d: Descriptor, mem: seq<int>, t: GemmTile): Job
    requires t.mLen >= 0 && t.nLen >= 0 && t.kLen >= 0
  {
    Job(d.mode, (i, p) => Peek(mem, AWord(d, t.m0 + i, t.k0 + p)), (p, j) => Peek(mem, BWord(d, t.k0 + p, t.n0 + j)),
        (i, j) => if t.k0 == 0 then 0 else Peek(mem, CWord(d, t.m0 + i, t.n0 + j)), t.mLen, t.nLen, t.kLen)
  }

  predicate InTile(t: GemmTile, x: int, y: int)
  {
    t.m0 <= x < t.m0 + t.mLen && t.n0 <= y < t.n0 + t.nLen
  }

  /** Word w of DRAM is an element of the tile's window of C. */
  ghost predicate TileWrites(d: Descriptor, t: GemmTile, w: int)
  {
    exists x, y :: InTile(t, x, y) && w == CWord(d, x, y)
  }

  /** One tile's whole effect on DRAM. */
  ghost predicate TileApplied(d: Descriptor, t: GemmTile, mem: seq<int>, mem': seq<int>)
    requires t.mLen >= 0 && t.nLen >= 0 && t.kLen >= 0
  {
    && |mem'| == |mem|
    && (forall x, y :: InTile(t, x, y) ==>
          Peek(mem', CWord(d, x, y)) == TileProduct(d, mem, t).Result(x - t.m0, y - t.n0))
    && (forall w :: 0 <= w < |mem| && !TileWrites(d, t, w) ==> mem'[w] == mem[w])
  }

  ghost predicate InBox(d: Descriptor, x: int, y: int)
  {
    0 <= x < d.m && 0 <= y < d.n
  }

  /** How many products of C element (x, y) are in DRAM when the loops stand at p. */
  function Depth(d: Descriptor, p: Position, x: int, y: int): int
    requires Tileable(d)
  {
    var i, j := x / d.tileM, y / d.tileN;
    if i < p.i || (i == p.i && j < p.j) then d.k else if i == p.i && j == p.j then Start(p.l, d.tileK) else 0
  }

  /** Some tile before position p has written word w. */
  ghost predicate Written(d: Descriptor, p: Position, w: int)
    requires Tileable(d)
  {
    exists x, y :: InBox(d, x, y) && Depth(d, p, x, y) > 0 && w == CWord(d, x, y)
  }

  /** For C element (x, y), the tile at p reads an operand that an earlier tile has overwritten. */
  ghost predicate Hits(d: Descriptor, p: Position, x: int, y: int)
    requires Tileable(d)
  {
    var t := TileOf(d, p);
    exists q :: t.k0 <= q < t.k0 + t.kLen && (Written(d, p, AWord(d, x, q)) || Written(d, p, BWord(d, q, y)))
  }

  /** No tile of the plan reads an operand that an earlier tile has overwritten. */
  ghost predicate HazardFree(d: Descriptor)
    requires Tileable(d)
  {
    forall p, x, y :: Inside(d, p) && InTile(TileOf(d, p), x, y) ==> !Hits(d, p, x, y)
  }

  /** The invariant over the plan: finished blocks are final, the current one holds the sum over k < k0,
      and every word no tile has written is as it was. */
  ghost predicate Progress(d: Descriptor, mem0: seq<int>, mem: seq<int>, p: Position)
    requires Tileable(d)
  {
    && |mem| == |mem0|
    && (forall x, y :: InBox(d, x, y) && Depth(d, p, x, y) > 0 ==>
          Peek(mem, CWord(d, x, y)) == Whole(d, mem0).Dot(x, y, Depth(d, p, x, y)))
    && (forall w :: 0 <= w < |mem| && !Written(d, p, w) ==> mem[w] == mem0[w])
  }

  /** The C region is the product of the A and B of `mem0`; nothing else differs from `mem0`. */
  ghost predicate ProductStored(d: Descriptor, mem0: seq<int>, mem: seq<int>)
    requires Tileable(d)
  {
    && OutsideCKept(d, mem0, mem)
    && forall x, y :: InBox(d, x, y) ==> Peek(mem, CWord(d, x, y)) == Whole(d, mem0).Dot(x, y, d.k)
  }

  ghost predicate OutsideCKept(d: Descriptor, mem0: seq<int>, mem: seq<int>)
  {
    |mem| == |mem0| && forall w :: 0 <= w < |mem| && !InC(d, w) ==> mem[w] == mem0[w]
  }

  // ----- products over equal operands -----

  lemma {:induction false} SameOperandsSameDot(u: Job, v: Job, i: int, j: int, i': int, j': int, from: int, count: nat)
    requires forall p :: 0 <= p < count ==> u.A(i, p) == v.A(i', from + p) && u.B(p, j) == v.B(from + p, j')
    requires 0 <= from
    ensures u.Dot(i, j, count) == v.Dot(i', j', from + count) - v.Dot(i', j', from)
  {
    if count > 0 {
      SameOperandsSameDot(u, v, i, j, i', j', from, count - 1);
    }
  }

  /** A tile whose operands are those of `mem0` continues the whole sum from k0 to k0 + kLen. */
  lemma TileContinuesSum(d: Descriptor, mem0: seq<int>, mem: seq<int>, t: GemmTile, x: int, y: int)
    requires Tileable(d) && t.mLen >= 0 && t.nLen >= 0 && t.kLen >= 0 && t.k0 >= 0
    requires t.m0 >= 0 && t.n0 >= 0 && t.m0 + t.mLen <= d.m && t.n0 + t.nLen <= d.n && t.k0 + t.kLen <= d.k
    requires InTile(t, x, y)
    requires forall q :: t.k0 <= q < t.k0 + t.kLen ==> Peek(mem, AWord(d, x, q)) == Peek(mem0, AWord(d, x, q))
    requires forall q :: t.k0 <= q < t.k0 + t.kLen ==> Peek(mem, BWord(d, q, y)) == Peek(mem0, BWord(d, q, y))
    ensures TileProduct(d, mem, t).Result(x - t.m0, y - t.n0)
         == (if t.k0 == 0 then 0 else Peek(mem, CWord(d, x, y)))
            + Whole(d, mem0).Dot(x, y, t.k0 + t.kLen) - Whole(d, mem0).Dot(x, y, t.k0)
  {
    hide Job.Dot;
    hide Flat;
    var u, v, i, j := TileProduct(d, mem, t), Whole(d, mem0), x - t.m0, y - t.n0;
    forall p | 0 <= p < t.kLen ensures u.A(i, p) == v.A(x, t.k0 + p) && u.B(p, j) == v.B(t.k0 + p, y)
    {
      assert Peek(mem, AWord(d, x, t.k0 + p)) == Peek(mem0, AWord(d, x, t.k0 + p));
      assert Peek(mem, BWord(d, t.k0 + p, y)) == Peek(mem0, BWord(d, t.k0 + p, y));
    }
    SameOperandsSameDot(u, v, i, j, x, y, t.k0, t.kLen);
  }

  lemma EmptyDot(job: Job, i: int, j: int)
    ensures job.Dot(i, j, 0) == 0
  {
  }

  // ----- the invariant -----

  lemma TileInBox(d: Descriptor, p: Position)
    requires Tileable(d) && Inside(d, p)
    ensures var t := TileOf(d, p);
            && 0 <= t.m0 && 0 <= t.n0 && 0 <= t.k0 && t.mLen > 0 && t.nLen > 0 && t.kLen > 0
            && t.mLen <= d.tileM && t.nLen <= d.tileN && t.kLen <= d.tileK
            && t.m0 + t.mLen <= d.m && t.n0 + t.nLen <= d.n && t.k0 + t.kLen <= d.k
            && (t.k0 == 0 <==> p.l == 0)
            && t.k0 + t.kLen == if p.l + 1 < TilesK(d) then Start(p.l + 1, d.tileK) else d.k
  {
    hide Flat;
    StartInside(p.i, d.m, d.tileM);
    StartInside(p.j, d.n, d.tileN);
    StartInside(p.l, d.k, d.tileK);
    if p.l > 0 {
      FlatMonotone(1, p.l, 0, d.tileK);
      FlatNextRow(0, 0, d.tileK);
    }
  }

  /** Running the tile at p moves every element's depth to the next position. */
  lemma DepthAdvances(d: Descriptor, p: Position, x: int, y: int)
    requires Tileable(d) && Inside(d, p) && 0 <= x < d.m && 0 <= y < d.n
    ensures var t := TileOf(d, p);
            if InTile(t, x, y) then Depth(d, p, x, y) == t.k0 && Depth(d, Next(d, p), x, y) == t.k0 + t.kLen
            else Depth(d, Next(d, p), x, y) == Depth(d, p, x, y)
  {
    hide Flat;
    TileInBox(d, p);
    TileOfCoordinate(x, d.m, d.tileM);
    TileOfCoordinate(y, d.n, d.tileN);
    FlatNextRow(0, 0, d.tileK);
  }

  /** Outside its own window a tile leaves every element of C alone. */
  lemma OtherElementsKept(d: Descriptor, t: GemmTile, mem: seq<int>, mem': seq<int>, x: int, y: int)
    requires t.mLen >= 0 && t.nLen >= 0 && t.kLen >= 0 && TileApplied(d, t, mem, mem')
    requires InBox(d, x, y) && !InTile(t, x, y) && 0 <= t.n0 && t.n0 + t.nLen <= d.n
    ensures Peek(mem', CWord(d, x, y)) == Peek(mem, CWord(d, x, y))
  {
    hide Flat;
    hide Job.Result;
    forall x', y' | InTile(t, x', y') ensures CWord(d, x', y') != CWord(d, x, y) {
      FlatDistinct(x', y', x, y, d.n);
    }
  }

  /** What a tile writes, and what was written before it, is what is written after it. */
  lemma WrittenAdvances(d: Descriptor, p: Position, w: int)
    requires Tileable(d) && Inside(d, p)
    ensures Written(d, Next(d, p), w) <==> Written(d, p, w) || TileWrites(d, TileOf(d, p), w)
  {
    hide Flat;
    hide Depth;
    hide TileOf;
    hide Inside;
    var t := TileOf(d, p);
    TileInBox(d, p);
    forall x, y | InBox(d, x, y)
      ensures Depth(d, Next(d, p), x, y) > 0 <==> Depth(d, p, x, y) > 0 || InTile(t, x, y)
    {
      DepthAdvances(d, p, x, y);
    }
    if TileWrites(d, t, w) {
      var x, y :| InTile(t, x, y) && w == CWord(d, x, y);
      assert InBox(d, x, y) && Depth(d, Next(d, p), x, y) > 0;
    }
    if Written(d, p, w) {
      var x, y :| InBox(d, x, y) && Depth(d, p, x, y) > 0 && w == CWord(d, x, y);
      assert Depth(d, Next(d, p), x, y) > 0;
    }
  }

  /** The operands of a tile that hits nothing are those of the initial DRAM. */
  lemma OperandsUntouched(d: Descriptor, mem0: seq<int>, mem: seq<int>, p: Position, x: int, y: int, q: int)
    requires Tileable(d) && Progress(d, mem0, mem, p) && !Hits(d, p, x, y)
    requires TileOf(d, p).k0 <= q < TileOf(d, p).k0 + TileOf(d, p).kLen
    ensures Peek(mem, AWord(d, x, q)) == Peek(mem0, AWord(d, x, q))
    ensures Peek(mem, BWord(d, q, y)) == Peek(mem0, BWord(d, q, y))
  {
  }

  lemma ProgressStep(d: Descriptor, mem0: seq<int>, mem: seq<int>, mem': seq<int>, p: Position)
    requires Tileable(d) && Inside(d, p) && HazardFree(d)
    requires TileOf(d, p).mLen >= 0 && TileOf(d, p).nLen >= 0 && TileOf(d, p).kLen >= 0
    requires Progress(d, mem0, mem, p) && TileApplied(d, TileOf(d, p), mem, mem')
    ensures Progress(d, mem0, mem', Next(d, p))
  {
    hide Job.Dot;
    hide Flat;
    hide Depth;
    hide Whole;
    hide Job.Result;
    hide TileProduct;
    hide TileOf;
    hide Hits;
    hide Written;
    hide TileWrites;
    var t := TileOf(d, p);
    TileInBox(d, p);
    forall x, y | InBox(d, x, y) && Depth(d, Next(d, p), x, y) > 0
      ensures Peek(mem', CWord(d, x, y)) == Whole(d, mem0).Dot(x, y, Depth(d, Next(d, p), x, y))
    {
      DepthAdvances(d, p, x, y);
      if InTile(t, x, y) {
        forall q | t.k0 <= q < t.k0 + t.kLen
          ensures Peek(mem, AWord(d, x, q)) == Peek(mem0, AWord(d, x, q))
          ensures Peek(mem, BWord(d, q, y)) == Peek(mem0, BWord(d, q, y))
        {
          OperandsUntouched(d, mem0, mem, p, x, y, q);
        }
        TileContinuesSum(d, mem0, mem, t, x, y);
        EmptyDot(Whole(d, mem0), x, y);
      } else {
        OtherElementsKept(d, t, mem, mem', x, y);
      }
    }
    forall w | 0 <= w < |mem'| && !Written(d, Next(d, p), w) ensures mem'[w] == mem0[w] {
      WrittenAdvances(d, p, w);
    }
  }

  lemma DepthStart(d: Descriptor, x: int, y: int)
    requires Tileable(d) && InBox(d, x, y)
    ensures Depth(d, Position(0, 0, 0), x, y) == 0
  {
    hide Flat;
    TileOfCoordinate(x, d.m, d.tileM);
    TileOfCoordinate(y, d.n, d.tileN);
    FlatNextRow(0, 0, d.tileK);
  }

  lemma ProgressStart(d: Descriptor, mem: seq<int>)
    requires Tileable(d)
    ensures Progress(d, mem, mem, Position(0, 0, 0))
  {
    hide Job.Dot;
    hide Depth;
    forall x, y | InBox(d, x, y) ensures Depth(d, Position(0, 0, 0), x, y) == 0 {
      DepthStart(d, x, y);
    }
  }

  lemma DepthEnd(d: Descriptor, p: Position, x: int, y: int)
    requires Tileable(d) && p.i == TilesM(d) && InBox(d, x, y)
    ensures Depth(d, p, x, y) == d.k
  {
    hide Flat;
    TileOfCoordinate(x, d.m, d.tileM);
  }

  lemma WrittenInC(d: Descriptor, p: Position, w: int)
    requires Tileable(d) && Written(d, p, w)
    ensures InC(d, w)
  {
    hide Flat;
    hide Depth;
    var x, y :| InBox(d, x, y) && Depth(d, p, x, y) > 0 && w == CWord(d, x, y);
    FlatInside(x, y, d.m, d.n);
  }

  lemma ProgressEnd(d: Descriptor, mem0: seq<int>, mem: seq<int>, p: Position)
    requires Tileable(d) && p.i == TilesM(d) && Progress(d, mem0, mem, p)
    ensures ProductStored(d, mem0, mem)
  {
    hide Job.Dot;
    hide Depth;
    hide InC;
    hide Written;
    forall x, y | InBox(d, x, y) ensures Depth(d, p, x, y) == d.k {
      DepthEnd(d, p, x, y);
    }
    forall w | 0 <= w < |mem| && !InC(d, w) ensures mem[w] == mem0[w] {
      if Written(d, p, w) { WrittenInC(d, p, w); }
    }
  }

  /** Whatever the operands overlap, one tile changes nothing outside C. */
  lemma TileStaysInC(d: Descriptor, t: GemmTile, mem0: seq<int>, mem: seq<int>, mem': seq<int>)
    requires t.mLen >= 0 && t.nLen >= 0 && t.kLen >= 0 && TileApplied(d, t, mem, mem') && OutsideCKept(d, mem0, mem)
    requires t.m0 >= 0 && t.n0 >= 0 && t.m0 + t.mLen <= d.m && t.n0 + t.nLen <= d.n
    ensures OutsideCKept(d, mem0, mem')
  {
    hide Flat;
    hide Job.Result;
    forall w | 0 <= w < |mem'| && !InC(d, w) ensures mem'[w] == mem0[w] {
      forall x, y | InTile(t, x, y) ensures w != CWord(d, x, y) {
        FlatInside(x, y, d.m, d.n);
      }
    }
  }

  // ----- when no tile reads what another has written -----

  lemma DisjointIsHazardFree(d: Descriptor)
    requires Tileable(d) && Disjoint(d)
    ensures HazardFree(d)
  {
    hide Flat;
    hide Depth;
    hide TileOf;
    hide Written;
    forall p, x, y | Inside(d, p) && InTile(TileOf(d, p), x, y) ensures !Hits(d, p, x, y) {
      var t := TileOf(d, p);
      TileInBox(d, p);
      forall q | t.k0 <= q < t.k0 + t.kLen
        ensures !Written(d, p, AWord(d, x, q)) && !Written(d, p, BWord(d, q, y))
      {
        FlatInside(x, q, d.m, d.k);
        FlatInside(q, y, d.k, d.n);
        if Written(d, p, AWord(d, x, q)) { WrittenInC(d, p, AWord(d, x, q)); }
        if Written(d, p, BWord(d, q, y)) { WrittenInC(d, p, BWord(d, q, y)); }
      }
    }
  }

  /** A run of a single tile reads everything before it writes anything. */
  lemma OneTileIsHazardFree(d: Descriptor)
    requires Tileable(d) && TilesM(d) == 1 && TilesN(d) == 1 && TilesK(d) == 1
    ensures HazardFree(d)
  {
    hide Flat;
    hide Depth;
    hide TileOf;
    forall p, x, y | Inside(d, p) && InTile(TileOf(d, p), x, y) ensures !Hits(d, p, x, y) {
      assert p == Position(0, 0, 0);
      forall x', y' | InBox(d, x', y') ensures Depth(d, p, x', y') == 0 {
        DepthStart(d, x', y');
      }
    }
  }

  // ----- 32-bit range of a whole run -----

  ghost predicate OperandsBounded(d: Descriptor, mem: seq<int>, alpha: nat, beta: nat)
    requires Tileable(d)
  {
    && alpha < TWO31 && beta < TWO31 && Times(d.k, Times(alpha, beta)) < TWO31
    && (forall i, p :: Abs(Whole(d, mem).A(i, p)) <= alpha)
    && (forall p, j :: Abs(Whole(d, mem).B(p, j)) <= beta)
  }

  lemma PartialSumsBounded(d: Descriptor, mem0: seq<int>, alpha: nat, beta: nat, x: int, y: int, count: nat)
    requires Tileable(d) && OperandsBounded(d, mem0, alpha, beta) && count <= d.k
    ensures Abs(Whole(d, mem0).Dot(x, y, count)) <= Times(count, Times(alpha, beta))
  {
    hide Job.Dot;
    hide Times;
    var job := Whole(d, mem0);
    forall p ensures Abs(job.A(x, p) * job.B(p, y)) <= Times(alpha, beta) {
      ProductBound(job.A(x, p), job.B(p, y), alpha, beta);
    }
    DotBound(job, Times(alpha, beta), x, y, count);
  }

  /** A DRAM state a run on `mem0` passes through, standing at position p. */
  ghost predicate Reachable(d: Descriptor, mem0: seq<int>, mem: seq<int>, p: Position)
  {
    && Tileable(d) && Inside(d, p) && HazardFree(d)
    && TileOf(d, p).mLen >= 0 && TileOf(d, p).nLen >= 0 && TileOf(d, p).kLen >= 0 && TileOf(d, p).k0 >= 0
    && Progress(d, mem0, mem, p)
  }

  /** The operands a reachable tile reads are those of the initial DRAM. */
  lemma ReachableOperands(d: Descriptor, mem0: seq<int>, mem: seq<int>, p: Position, alpha: nat, beta: nat)
    requires Reachable(d, mem0, mem, p) && OperandsBounded(d, mem0, alpha, beta)
    ensures forall i, q :: Abs(TileProduct(d, mem, TileOf(d, p)).A(i, q)) <= alpha
    ensures forall q, j :: Abs(TileProduct(d, mem, TileOf(d, p)).B(q, j)) <= beta
  {
    hide Flat;
    hide Depth;
    hide Times;
    hide Hits;
    hide Progress;
    hide TileOf;
    var t := TileOf(d, p);
    var job, whole := TileProduct(d, mem, t), Whole(d, mem0);
    TileInBox(d, p);
    forall i, q ensures Abs(job.A(i, q)) <= alpha {
      if 0 <= i < t.mLen && 0 <= q < t.kLen {
        assert InTile(t, t.m0 + i, t.n0);
        OperandsUntouched(d, mem0, mem, p, t.m0 + i, t.n0, t.k0 + q);
        assert job.A(i, q) == whole.A(t.m0 + i, t.k0 + q);
      }
    }
    forall q, j ensures Abs(job.B(q, j)) <= beta {
      if 0 <= q < t.kLen && 0 <= j < t.nLen {
        assert InTile(t, t.m0, t.n0 + j);
        OperandsUntouched(d, mem0, mem, p, t.m0, t.n0 + j, t.k0 + q);
        assert job.B(q, j) == whole.B(t.k0 + q, t.n0 + j);
      }
    }
  }

  /** What a reachable tile reloads from C is a partial sum over k < k0. */
  lemma ReachablePartialSums(d: Descriptor, mem0: seq<int>, mem: seq<int>, p: Position, alpha: nat, beta: nat)
    requires Reachable(d, mem0, mem, p) && OperandsBounded(d, mem0, alpha, beta)
    ensures var t := TileOf(d, p);
            forall i, j :: Abs(TileProduct(d, mem, t).C(i, j)) <= Times(t.k0, Times(alpha, beta))
  {
    hide Job.Dot;
    hide Flat;
    hide Times;
    hide OperandsBounded;
    var t := TileOf(d, p);
    TileInBox(d, p);
    forall i, j ensures Abs(TileProduct(d, mem, t).C(i, j)) <= Times(t.k0, Times(alpha, beta)) {
      if 0 <= i < t.mLen && 0 <= j < t.nLen && t.k0 != 0 {
        DepthAdvances(d, p, t.m0 + i, t.n0 + j);
        PartialSumsBounded(d, mem0, alpha, beta, t.m0 + i, t.n0 + j, t.k0);
      }
    }
  }

  /** The operands of any tile of a run without hazards, the partial sums it reloads included, leave room for all its
      products. */
  lemma ReachableTileBounded(d: Descriptor, mem0: seq<int>, mem: seq<int>, p: Position, alpha: nat, beta: nat)
    requires Reachable(d, mem0, mem, p) && OperandsBounded(d, mem0, alpha, beta)
    ensures var t := TileOf(d, p); Bounded(TileProduct(d, mem, t), alpha, beta, Times(t.k0, Times(alpha, beta)))
  {
    hide Times;
    hide Flat;
    ReachableOperands(d, mem0, mem, p, alpha, beta);
    ReachablePartialSums(d, mem0, mem, p, alpha, beta);
    TileInBox(d, p);
    var t, w := TileOf(d, p), Times(alpha, beta);
    MultiplesGrow(t.k0, t.k0 + t.kLen, w);
    MultiplesGrow(t.k0 + t.kLen, d.k, w);
  }
}
