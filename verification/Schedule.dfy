/** The tiling loop nest (src/maps-sim/src/npu/schedule.cpp) as an exact cover of the M x N x K box. */
module Schedule {
  import opened Words
  import opened RowMajor
  import opened Descriptors

  datatype GemmTile = GemmTile(m0: int, n0: int, k0: int, mLen: int, nLen: int, kLen: int)
  {
    predicate Contains(x: int, y: int, z: int)
    {
      m0 <= x < m0 + mLen && n0 <= y < n0 + nLen && k0 <= z < k0 + kLen
    }
  }

  /** A position of the three loops, counted in tiles. */
  datatype Position = Position(i: int, j: int, l: int)

  /** How many tiles of size `tile` a dimension takes. */
  function Tiles(dim: int, tile: int): int
    requires tile > 0
  {
    (dim + tile - 1) / tile
  }

  predicate Tileable(d: Descriptor)
  {
    d.m > 0 && d.n > 0 && d.k > 0 && d.tileM > 0 && d.tileN > 0 && d.tileK > 0
  }

  function TilesM(d: Descriptor): int requires Tileable(d) { Tiles(d.m, d.tileM) }

  function TilesN(d: Descriptor): int requires Tileable(d) { Tiles(d.n, d.tileN) }

  function TilesK(d: Descriptor): int requires Tileable(d) { Tiles(d.k, d.tileK) }

  function Start(i: int, tile: int): int { Flat(i, 0, tile) }

  function Length(i: int, dim: int, tile: int): int { Min(tile, dim - Start(i, tile)) }

  function TileOf(d: Descriptor, p: Position): GemmTile
  {
    GemmTile(Start(p.i, d.tileM), Start(p.j, d.tileN), Start(p.l, d.tileK),
             Length(p.i, d.m, d.tileM), Length(p.j, d.n, d.tileN), Length(p.l, d.k, d.tileK))
  }

  ghost predicate Inside(d: Descriptor, p: Position)
    requires Tileable(d)
  {
    0 <= p.i < TilesM(d) && 0 <= p.j < TilesN(d) && 0 <= p.l < TilesK(d)
  }

  /** The index of a position in the plan. */
  function Rank(d: Descriptor, p: Position): int
    requires Tileable(d)
  {
    Flat(Flat(p.i, p.j, TilesN(d)), p.l, TilesK(d))
  }

  /** The position after p: the innermost loop is over K. */
  function Next(d: Descriptor, p: Position): Position
    requires Tileable(d)
  {
    if p.l + 1 < TilesK(d) then Position(p.i, p.j, p.l + 1)
    else if p.j + 1 < TilesN(d) then Position(p.i, p.j + 1, 0)
    else Position(p.i + 1, 0, 0)
  }

  function PositionAt(d: Descriptor, s: nat): Position
    requires Tileable(d)
  {
    if s == 0 then Position(0, 0, 0) else Next(d, PositionAt(d, s - 1))
  }

  function PlanLength(d: Descriptor): int
    requires Tileable(d)
  {
    Flat(Flat(TilesM(d), 0, TilesN(d)), 0, TilesK(d))
  }

  ghost predicate IsPlan(d: Descriptor, plan: seq<GemmTile>)
    requires Tileable(d)
  {
    |plan| == PlanLength(d) && IsPrefix(d, plan)
  }

  /** The tiles pushed so far are the first ones of the plan. */
  ghost predicate IsPrefix(d: Descriptor, plan: seq<GemmTile>)
    requires Tileable(d)
  {
    forall s :: 0 <= s < |plan| ==> plan[s] == TileOf(d, PositionAt(d, s))
  }

  /** No loop counter, rounded up to whole tiles, leaves 32 bits. */
  predicate CountersFit(d: Descriptor)
    requires Tileable(d)
  {
    && Start(TilesM(d), d.tileM) < TWO32 && Start(TilesN(d), d.tileN) < TWO32 && Start(TilesK(d), d.tileK) < TWO32
  }

  // ----- one dimension -----

  lemma TilesRoundUp(dim: int, tile: int)
    requires dim > 0 && tile > 0
    ensures 0 < Tiles(dim, tile) && Start(Tiles(dim, tile) - 1, tile) < dim <= Start(Tiles(dim, tile), tile)
    ensures Start(Tiles(dim, tile), tile) <= dim + tile - 1
  {
    assert dim + tile - 1 == Tiles(dim, tile) * tile + (dim + tile - 1) % tile;
  }

  /** A tile starts inside the dimension exactly when its index is below the tile count. */
  lemma StartInside(i: int, dim: int, tile: int)
    requires dim > 0 && tile > 0
    ensures Start(i, tile) < dim <==> i < Tiles(dim, tile)
    ensures Start(i + 1, tile) == Start(i, tile) + tile && Start(0, tile) == 0
    ensures 0 <= i ==> 0 <= Start(i, tile)
    ensures i < Tiles(dim, tile) ==> 0 < Length(i, dim, tile) <= tile && Start(i, tile) + Length(i, dim, tile) <= dim
    ensures i + 1 < Tiles(dim, tile) ==> Length(i, dim, tile) == tile
    ensures i + 1 == Tiles(dim, tile) ==> Start(i, tile) + Length(i, dim, tile) == dim
  {
    hide Flat;
    TilesRoundUp(dim, tile);
    FlatNextRow(i, 0, tile);
    if i < Tiles(dim, tile) {
      FlatMonotone(i, Tiles(dim, tile) - 1, 0, tile);
    } else {
      FlatMonotone(Tiles(dim, tile), i, 0, tile);
    }
    if i + 1 < Tiles(dim, tile) {
      FlatMonotone(i + 1, Tiles(dim, tile) - 1, 0, tile);
    }
    if 0 <= i { FlatMonotone(0, i, 0, tile); }
  }

  /** Coordinate x lies in exactly one tile of its dimension, number x / tile. */
  lemma TileOfCoordinate(x: int, dim: int, tile: int)
    requires 0 <= x < dim && tile > 0
    ensures 0 <= x / tile < Tiles(dim, tile)
    ensures forall i :: Start(i, tile) <= x < Start(i, tile) + Length(i, dim, tile) <==> i == x / tile
  {
    var q := x / tile;
    assert x == q * tile + x % tile && Start(q, tile) == q * tile;
    hide Flat;
    if q < 0 {
      FlatMonotone(q, -1, 0, tile);
      FlatNextRow(-1, 0, tile);
      assert false;
    }
    StartInside(q, dim, tile);
    forall i ensures Start(i, tile) <= x < Start(i, tile) + Length(i, dim, tile) <==> i == q {
      if i < q {
        FlatMonotone(i + 1, q, 0, tile);
        FlatNextRow(i, 0, tile);
      } else if q < i {
        FlatMonotone(q + 1, i, 0, tile);
        FlatNextRow(q, 0, tile);
      }
    }
  }

  lemma CountersFitBelowHalf(d: Descriptor)
    requires Tileable(d) && d.Words() && d.NonNegativeWords()
    ensures CountersFit(d)
  {
    hide Flat;
    TilesRoundUp(d.m, d.tileM);
    TilesRoundUp(d.n, d.tileN);
    TilesRoundUp(d.k, d.tileK);
  }

  /** The counter of one loop after s steps, in 32 bits. */
  function LoopCounter(s: nat, tile: int): (c: int)
    ensures IsUint32(c)
  {
    if s == 0 then 0 else U32(LoopCounter(s - 1, tile) + tile)
  }

  /** The loop over one dimension leaves after exactly n rounds. */
  ghost predicate StopsAfter(n: nat, dim: int, tile: int)
  {
    LoopCounter(n, tile) >= dim && forall s: nat :: s < n ==> LoopCounter(s, tile) < dim
  }

  lemma {:induction false} CounterIsStart(s: nat, tile: int)
    requires 0 <= tile && Start(s, tile) < TWO32
    ensures LoopCounter(s, tile) == Start(s, tile)
    decreases s
  {
    hide Flat;
    if s > 0 {
      FlatMonotone(s - 1, s, 0, tile);
      FlatNextRow(s - 1, 0, tile);
      CounterIsStart(s - 1, tile);
    } else {
      FlatNextRow(0, 0, tile);
    }
  }

  /** A loop takes exactly the tiles of its dimension if, and only if, the last start rounded up stays in 32 bits. */
  lemma LoopIsExact(dim: int, tile: int)
    requires 0 < dim < TWO32 && 0 < tile < TWO32
    ensures StopsAfter(Tiles(dim, tile), dim, tile) <==> Start(Tiles(dim, tile), tile) < TWO32
  {
    hide Flat;
    hide LoopCounter;
    var n := Tiles(dim, tile);
    TilesRoundUp(dim, tile);
    FlatNextRow(n - 1, 0, tile);
    CounterIsStart(n - 1, tile);
    if Start(n, tile) < TWO32 {
      CounterIsStart(n, tile);
      forall s: nat | s < n ensures LoopCounter(s, tile) < dim {
        FlatMonotone(s, n - 1, 0, tile);
        CounterIsStart(s, tile);
      }
    } else {
      LastStep(n, tile);
    }
  }

  lemma LastStep(n: nat, tile: int)
    requires n > 0
    ensures LoopCounter(n, tile) == U32(LoopCounter(n - 1, tile) + tile)
  {
  }

  /** All three loops take exactly the tiles of the plan if, and only if, the counters fit. */
  lemma LoopsAreExact(d: Descriptor)
    requires d.Words() && Tileable(d)
    ensures (StopsAfter(TilesM(d), d.m, d.tileM) && StopsAfter(TilesN(d), d.n, d.tileN) && StopsAfter(TilesK(d), d.k, d.tileK))
       <==> CountersFit(d)
  {
    hide Start;
    LoopIsExact(d.m, d.tileM);
    LoopIsExact(d.n, d.tileN);
    LoopIsExact(d.k, d.tileK);
  }

  /** A valid descriptor whose first loop never ends. */
  lemma LoopNeverEnds()
    ensures var d := Descriptor(TWO32 - 1, 1, 1, 4, 4, 4, Systolic.OS, 16, 16, 16);
            d.Words() && d.Validate() && !CountersFit(d) && forall n: nat :: !StopsAfter(n, d.m, d.tileM)
  {
    forall n: nat ensures LoopCounter(n, 16) % 16 == 0 { SixteenthCounter(n); }
  }

  lemma {:induction false} SixteenthCounter(n: nat)
    ensures LoopCounter(n, 16) % 16 == 0
  {
    if n > 0 { SixteenthCounter(n - 1); }
  }

  // ----- three dimensions -----

  lemma RankNext(d: Descriptor, p: Position)
    requires Tileable(d) && p.j < TilesN(d) && p.l < TilesK(d)
    ensures Rank(d, Next(d, p)) == Rank(d, p) + 1
  {
    hide Flat;
    var tn, tk := TilesN(d), TilesK(d);
    FlatNextRow(p.i, p.j, tn);
    FlatNextRow(p.i, p.j + 1, tn);
    FlatNextRow(p.i, 0, tn);
    FlatNextRow(Flat(p.i, p.j, tn), 0, tk);
    FlatNextRow(Flat(p.i, p.j, tn), p.l, tk);
    FlatNextRow(Flat(p.i, p.j, tn), p.l + 1, tk);
  }

  lemma {:induction false} RankOfPositionAt(d: Descriptor, s: nat)
    requires Tileable(d)
    ensures var p := PositionAt(d, s); Rank(d, p) == s && p.i >= 0 && 0 <= p.j < TilesN(d) && 0 <= p.l < TilesK(d)
  {
    hide Flat;
    TilesRoundUp(d.n, d.tileN);
    TilesRoundUp(d.k, d.tileK);
    if s == 0 {
      FlatNextRow(0, 0, TilesN(d));
      FlatNextRow(0, 0, TilesK(d));
    } else {
      RankOfPositionAt(d, s - 1);
      RankNext(d, PositionAt(d, s - 1));
    }
  }

  /** Positions and plan indices are in one-to-one correspondence. */
  lemma PositionAtRank(d: Descriptor, p: Position)
    requires Tileable(d) && 0 <= p.i && 0 <= p.j < TilesN(d) && 0 <= p.l < TilesK(d)
    ensures 0 <= Rank(d, p) && PositionAt(d, Rank(d, p)) == p
    ensures p.i < TilesM(d) <==> Rank(d, p) < PlanLength(d)
  {
    hide Flat;
    hide PositionAt;
    var tm, tn, tk := TilesM(d), TilesN(d), TilesK(d);
    FlatBound(p.i, p.j, p.i + 1, tn);
    FlatBound(Flat(p.i, p.j, tn), p.l, Flat(p.i, p.j, tn) + 1, tk);
    RankOfPositionAt(d, Rank(d, p));
    var q := PositionAt(d, Rank(d, p));
    FlatDistinct(Flat(p.i, p.j, tn), p.l, Flat(q.i, q.j, tn), q.l, tk);
    FlatDistinct(p.i, p.j, q.i, q.j, tn);
    if p.i < tm {
      FlatRowsApart(p.i, tm, p.j, 0, tn);
      FlatRowsApart(Flat(p.i, p.j, tn), Flat(tm, 0, tn), p.l, 0, tk);
    } else {
      FlatMonotone(tm, p.i, 0, tn);
      FlatNextRow(p.i, p.j, tn);
      FlatMonotone(Flat(tm, 0, tn), Flat(p.i, p.j, tn), 0, tk);
      FlatNextRow(Flat(p.i, p.j, tn), p.l, tk);
    }
  }

  /** Every point of the box lies in exactly one tile of the plan. */
  lemma ExactCover(d: Descriptor, plan: seq<GemmTile>, x: int, y: int, z: int)
    requires Tileable(d) && IsPlan(d, plan) && 0 <= x < d.m && 0 <= y < d.n && 0 <= z < d.k
    ensures exists s :: 0 <= s < |plan| && plan[s].Contains(x, y, z)
    ensures forall s, s' :: 0 <= s < |plan| && 0 <= s' < |plan| && plan[s].Contains(x, y, z) && plan[s'].Contains(x, y, z)
              ==> s == s'
  {
    hide Flat;
    hide PositionAt;
    TileOfCoordinate(x, d.m, d.tileM);
    TileOfCoordinate(y, d.n, d.tileN);
    TileOfCoordinate(z, d.k, d.tileK);
    var p := Position(x / d.tileM, y / d.tileN, z / d.tileK);
    PositionAtRank(d, p);
    assert plan[Rank(d, p)].Contains(x, y, z);
    forall s | 0 <= s < |plan| && plan[s].Contains(x, y, z) ensures s == Rank(d, p) {
      RankOfPositionAt(d, s);
      assert PositionAt(d, s) == p;
    }
  }

  /** The K tiles of a block come one after the other, in ascending order from k0 = 0. */
  lemma BlockIsConsecutive(d: Descriptor, plan: seq<GemmTile>, s: nat)
    requires Tileable(d) && IsPlan(d, plan) && s < |plan|
    ensures plan[s].k0 == 0 || (s > 0 && plan[s].m0 == plan[s - 1].m0 && plan[s].n0 == plan[s - 1].n0
                                && plan[s].k0 == plan[s - 1].k0 + plan[s - 1].kLen)
  {
    hide Flat;
    RankOfPositionAt(d, s);
    FlatNextRow(0, 0, d.tileK);
    if s > 0 {
      RankOfPositionAt(d, s - 1);
      StartInside(PositionAt(d, s - 1).l, d.k, d.tileK);
    }
  }

  // ----- the loops -----

  method BuildPlan(d: Descriptor) returns (ok: bool, plan: seq<GemmTile>)
    requires d.Words() && (d.Validate() ==> CountersFit(d))
    ensures ok == d.Validate()
    ensures ok ==> IsPlan(d, plan)
    ensures !ok ==> plan == []
  {
    plan := [];
    if !d.Validate() { return false, plan; }
    FlatNextRow(0, 0, TilesN(d));
    FlatNextRow(0, 0, TilesK(d));
    StartInside(0, d.m, d.tileM);
    hide Flat;
    hide Start;
    hide Length;
    hide Rank;
    hide IsPrefix;
    hide Descriptor.Validate;
    ghost var i := 0;
    var m0 := 0;
    while m0 < d.m
      invariant m0 == Start(i, d.tileM) && 0 <= i <= TilesM(d)
      invariant |plan| == Rank(d, Position(i, 0, 0))
      invariant IsPrefix(d, plan)
      decreases d.m - m0
    {
      StepInside(d.m, d.tileM, i);
      var mLen := if U32(m0 + d.tileM) <= d.m then d.tileM else U32(d.m - m0);
      StartInside(0, d.n, d.tileN);
      ghost var j := 0;
      var n0 := 0;
      while n0 < d.n
        invariant n0 == Start(j, d.tileN) && 0 <= j <= TilesN(d)
        invariant |plan| == Rank(d, Position(i, j, 0))
        invariant IsPrefix(d, plan)
        decreases d.n - n0
      {
        StepInside(d.n, d.tileN, j);
        var nLen := if U32(n0 + d.tileN) <= d.n then d.tileN else U32(d.n - n0);
        StartInside(0, d.k, d.tileK);
        ghost var l := 0;
        var k0 := 0;
        while k0 < d.k
          invariant k0 == Start(l, d.tileK) && 0 <= l <= TilesK(d)
          invariant |plan| == Rank(d, Position(i, j, l))
          invariant IsPrefix(d, plan)
          decreases d.k - k0
        {
          StepInside(d.k, d.tileK, l);
          var kLen := if U32(k0 + d.tileK) <= d.k then d.tileK else U32(d.k - k0);
          StartInside(j, d.n, d.tileN);
          PushTile(d, plan, Position(i, j, l));
          plan := plan + [GemmTile(m0, n0, k0, mLen, nLen, kLen)];
          k0, l := U32(k0 + d.tileK), l + 1;
        }
        StartInside(l, d.k, d.tileK);
        BlockEnds(d, i, j);
        n0, j := U32(n0 + d.tileN), j + 1;
      }
      StartInside(j, d.n, d.tileN);
      RowEnds(d, i);
      m0, i := U32(m0 + d.tileM), i + 1;
    }
    StartInside(i, d.m, d.tileM);
    ok := true;
  }

  lemma PushTile(d: Descriptor, plan: seq<GemmTile>, p: Position)
    requires Tileable(d) && Inside(d, p) && IsPrefix(d, plan) && |plan| == Rank(d, p)
    ensures IsPrefix(d, plan + [TileOf(d, p)])
    ensures |plan| + 1 == Rank(d, p.(l := p.l + 1))
  {
    hide Flat;
    hide PositionAt;
    PositionAtRank(d, p);
    FlatNextRow(Flat(p.i, p.j, TilesN(d)), p.l, TilesK(d));
    FlatNextRow(Flat(p.i, p.j, TilesN(d)), p.l + 1, TilesK(d));
  }

  /** Inside a loop body: the tile length the 32-bit comparison picks, and the counter's next value. */
  lemma StepInside(dim: int, tile: int, i: int)
    requires dim > 0 && tile > 0 && 0 <= i && Start(i, tile) < dim < TWO32 && Start(Tiles(dim, tile), tile) < TWO32
    ensures i < Tiles(dim, tile)
    ensures U32(Start(i, tile) + tile) == Start(i + 1, tile)
    ensures (if U32(Start(i, tile) + tile) <= dim then tile else U32(dim - Start(i, tile))) == Length(i, dim, tile)
  {
    hide Flat;
    StartInside(i, dim, tile);
    FlatMonotone(i + 1, Tiles(dim, tile), 0, tile);
  }

  lemma BlockEnds(d: Descriptor, i: int, j: int)
    requires Tileable(d)
    ensures Rank(d, Position(i, j, TilesK(d))) == Rank(d, Position(i, j + 1, 0))
  {
    hide Flat;
    FlatNextRow(i, j, TilesN(d));
    FlatNextRow(i, j + 1, TilesN(d));
    FlatNextRow(Flat(i, j, TilesN(d)), 0, TilesK(d));
    FlatNextRow(Flat(i, j, TilesN(d)), TilesK(d), TilesK(d));
  }

  lemma RowEnds(d: Descriptor, i: int)
    requires Tileable(d)
    ensures Rank(d, Position(i, TilesN(d), 0)) == Rank(d, Position(i + 1, 0, 0))
  {
    hide Flat;
    FlatNextRow(i, 0, TilesN(d));
    FlatNextRow(i, TilesN(d), TilesN(d));
  }
}
