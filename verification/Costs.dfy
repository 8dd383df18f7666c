/** The performance counters of a run: sums over the plan in closed form. */
module Costs {
  import opened Words
  import opened RowMajor
  import opened Descriptors
  import opened Schedule

  datatype Perf = Perf(cycles: int, dmaReads: int, dmaWrites: int, macs: int)
  {
    /** Every counter is a 64-bit word. */
    predicate Words()
    {
      0 <= cycles < TWO64 && 0 <= dmaReads < TWO64 && 0 <= dmaWrites < TWO64 && 0 <= macs < TWO64
    }
  }

  function Add(u: Perf, v: Perf): Perf
  {
    Perf(u.cycles + v.cycles, u.dmaReads + v.dmaReads, u.dmaWrites + v.dmaWrites, u.macs + v.macs)
  }

  /** What the counters gain in one tile. */
  function TileCost(t: GemmTile): Perf
  {
    Perf(t.mLen + t.nLen + t.kLen - 2,
         t.kLen * t.mLen + t.nLen * t.kLen + (if t.k0 != 0 then t.nLen * t.mLen else 0),
         t.nLen * t.mLen,
         t.mLen * t.nLen * t.kLen)
  }

  /** What the counters gain in the first s tiles. */
  function CostOf(d: Descriptor, s: nat): Perf
    requires Tileable(d)
  {
    if s == 0 then Perf(0, 0, 0, 0) else Add(CostOf(d, s - 1), TileCost(TileOf(d, PositionAt(d, s - 1))))
  }

  // ----- sums of products of one factor per loop -----

  /** A factor contributed by one loop: the tile length, one, or one except for the first tile. */
  datatype Factor = LENGTH | ONE | NOT_FIRST

  function Value(f: Factor, i: int, dim: int, tile: int): int
  {
    match f
    case LENGTH => Length(i, dim, tile)
    case ONE => 1
    case NOT_FIRST => if i == 0 then 0 else 1
  }

  /** The sum of the first i values. */
  function Prefix(f: Factor, i: int, dim: int, tile: int): int
  {
    match f
    case LENGTH => Min(Start(i, tile), dim)
    case ONE => i
    case NOT_FIRST => if i == 0 then 0 else i - 1
  }

  function Whole(f: Factor, dim: int, tile: int): int
    requires tile > 0
  {
    match f case LENGTH => dim case ONE => Tiles(dim, tile) case NOT_FIRST => Tiles(dim, tile) - 1
  }

  lemma PrefixStep(f: Factor, i: int, dim: int, tile: int)
    requires dim > 0 && tile > 0 && 0 <= i < Tiles(dim, tile)
    ensures Prefix(f, i + 1, dim, tile) == Prefix(f, i, dim, tile) + Value(f, i, dim, tile)
    ensures Prefix(f, 0, dim, tile) == 0
    ensures i + 1 == Tiles(dim, tile) ==> Prefix(f, i + 1, dim, tile) == Whole(f, dim, tile)
  {
    hide Flat;
    StartInside(i, dim, tile);
    TilesRoundUp(dim, tile);
  }

  function TermAt(d: Descriptor, f: Factor, g: Factor, h: Factor, p: Position): int
  {
    Product(Value(f, p.i, d.m, d.tileM), Value(g, p.j, d.n, d.tileN), Value(h, p.l, d.k, d.tileK))
  }

  function SumTo(d: Descriptor, f: Factor, g: Factor, h: Factor, s: nat): int
    requires Tileable(d)
  {
    if s == 0 then 0 else SumTo(d, f, g, h, s - 1) + TermAt(d, f, g, h, PositionAt(d, s - 1))
  }

  function Product(x: int, y: int, z: int): int { x * y * z }

  lemma ProductDistributes(x: int, x': int, y: int, y': int, z: int, z': int)
    ensures Product(x + x', y, z) == Product(x, y, z) + Product(x', y, z)
    ensures Product(x, y + y', z) == Product(x, y, z) + Product(x, y', z)
    ensures Product(x, y, z + z') == Product(x, y, z) + Product(x, y, z')
    ensures Product(0, y, z) == 0 && Product(x, 0, z) == 0 && Product(x, y, 0) == 0
  {
    assert (x + x') * y == x * y + x' * y && x * (y + y') == x * y + x * y';
    assert (x * y + x' * y) * z == x * y * z + x' * y * z && (x * y + x * y') * z == x * y * z + x * y' * z;
  }

  /** The sum so far at position p: whole planes, then whole rows, then part of a row. */
  function Accrued(d: Descriptor, f: Factor, g: Factor, h: Factor, p: Position): int
    requires Tileable(d)
  {
    var gAll, hAll := Whole(g, d.n, d.tileN), Whole(h, d.k, d.tileK);
    var fNow, gNow := Value(f, p.i, d.m, d.tileM), Value(g, p.j, d.n, d.tileN);
    Product(Prefix(f, p.i, d.m, d.tileM), gAll, hAll) + Product(fNow, Prefix(g, p.j, d.n, d.tileN), hAll)
    + Product(fNow, gNow, Prefix(h, p.l, d.k, d.tileK))
  }

  lemma AccruedStep(d: Descriptor, f: Factor, g: Factor, h: Factor, p: Position)
    requires Tileable(d) && Inside(d, p)
    ensures Accrued(d, f, g, h, Next(d, p)) == Accrued(d, f, g, h, p) + TermAt(d, f, g, h, p)
  {
    hide Product;
    hide Value;
    hide Prefix;
    hide Whole;
    PrefixStep(f, p.i, d.m, d.tileM);
    PrefixStep(g, p.j, d.n, d.tileN);
    PrefixStep(h, p.l, d.k, d.tileK);
    var fNow, gNow, hNow := Value(f, p.i, d.m, d.tileM), Value(g, p.j, d.n, d.tileN), Value(h, p.l, d.k, d.tileK);
    var fPre, gPre, hPre := Prefix(f, p.i, d.m, d.tileM), Prefix(g, p.j, d.n, d.tileN), Prefix(h, p.l, d.k, d.tileK);
    var gAll, hAll := Whole(g, d.n, d.tileN), Whole(h, d.k, d.tileK);
    ProductDistributes(fNow, 0, gNow, 0, hPre, hNow);
    ProductDistributes(fNow, 0, gPre, gNow, hAll, 0);
    ProductDistributes(fPre, fNow, gAll, 0, hAll, 0);
    var q := Next(d, p);
    ProductDistributes(Value(f, q.i, d.m, d.tileM), 0, Value(g, q.j, d.n, d.tileN), 0, hAll, 0);
  }

  lemma {:induction false} SumIsAccrued(d: Descriptor, f: Factor, g: Factor, h: Factor, s: nat)
    requires Tileable(d) && s <= PlanLength(d)
    ensures SumTo(d, f, g, h, s) == Accrued(d, f, g, h, PositionAt(d, s))
  {
    hide Product;
    TilesRoundUp(d.m, d.tileM);
    TilesRoundUp(d.n, d.tileN);
    TilesRoundUp(d.k, d.tileK);
    if s == 0 {
      PrefixStep(f, 0, d.m, d.tileM);
      PrefixStep(g, 0, d.n, d.tileN);
      PrefixStep(h, 0, d.k, d.tileK);
      ProductDistributes(0, 0, Whole(g, d.n, d.tileN), 0, Whole(h, d.k, d.tileK), 0);
      ProductDistributes(Value(f, 0, d.m, d.tileM), 0, 0, 0, Whole(h, d.k, d.tileK), 0);
      ProductDistributes(Value(f, 0, d.m, d.tileM), 0, Value(g, 0, d.n, d.tileN), 0, 0, 0);
    } else {
      SumIsAccrued(d, f, g, h, s - 1);
      PlanPositionInside(d, s - 1);
      AccruedStep(d, f, g, h, PositionAt(d, s - 1));
    }
  }

  lemma PlanPositionInside(d: Descriptor, s: nat)
    requires Tileable(d) && s < PlanLength(d)
    ensures Inside(d, PositionAt(d, s))
  {
    hide Flat;
    RankOfPositionAt(d, s);
    PositionAtRank(d, PositionAt(d, s));
  }

  /** A sum over the whole plan is the product of the three loops' sums. */
  lemma SumOverPlan(d: Descriptor, f: Factor, g: Factor, h: Factor)
    requires Tileable(d)
    ensures 0 <= PlanLength(d)
    ensures SumTo(d, f, g, h, PlanLength(d))
         == Product(Whole(f, d.m, d.tileM), Whole(g, d.n, d.tileN), Whole(h, d.k, d.tileK))
  {
    hide Product;
    PlanEnds(d);
    SumIsAccrued(d, f, g, h, PlanLength(d));
    PrefixStep(f, TilesM(d) - 1, d.m, d.tileM);
    TilesRoundUp(d.n, d.tileN);
    TilesRoundUp(d.k, d.tileK);
    PrefixStep(g, 0, d.n, d.tileN);
    PrefixStep(h, 0, d.k, d.tileK);
    var fNow, gNow := Value(f, TilesM(d), d.m, d.tileM), Value(g, 0, d.n, d.tileN);
    ProductDistributes(fNow, 0, 0, 0, Whole(h, d.k, d.tileK), 0);
    ProductDistributes(fNow, 0, gNow, 0, 0, 0);
  }

  /** After the last tile the loops stand just past the last row of blocks. */
  lemma PlanEnds(d: Descriptor)
    requires Tileable(d)
    ensures 0 < TilesM(d) && 0 < PlanLength(d) && PositionAt(d, PlanLength(d)) == Position(TilesM(d), 0, 0)
  {
    hide Flat;
    TilesRoundUp(d.m, d.tileM);
    TilesRoundUp(d.n, d.tileN);
    TilesRoundUp(d.k, d.tileK);
    PositionAtRank(d, Position(TilesM(d), 0, 0));
    PositionAtRank(d, Position(0, 0, 0));
  }

  // ----- the four counters -----

  lemma {:induction false} CostIsFourSums(d: Descriptor, s: nat)
    requires Tileable(d) && s <= PlanLength(d)
    ensures CostOf(d, s) == Perf(
      SumTo(d, LENGTH, ONE, ONE, s) + SumTo(d, ONE, LENGTH, ONE, s) + SumTo(d, ONE, ONE, LENGTH, s) - 2 * s,
      SumTo(d, LENGTH, ONE, LENGTH, s) + SumTo(d, ONE, LENGTH, LENGTH, s) + SumTo(d, LENGTH, LENGTH, NOT_FIRST, s),
      SumTo(d, LENGTH, LENGTH, ONE, s),
      SumTo(d, LENGTH, LENGTH, LENGTH, s))
  {
    if s > 0 {
      CostIsFourSums(d, s - 1);
      PlanPositionInside(d, s - 1);
      TileCostIsFourTerms(d, PositionAt(d, s - 1));
    }
  }

  lemma TileCostIsFourTerms(d: Descriptor, p: Position)
    requires Tileable(d) && Inside(d, p)
    ensures TileCost(TileOf(d, p)) == Perf(
      TermAt(d, LENGTH, ONE, ONE, p) + TermAt(d, ONE, LENGTH, ONE, p) + TermAt(d, ONE, ONE, LENGTH, p) - 2,
      TermAt(d, LENGTH, ONE, LENGTH, p) + TermAt(d, ONE, LENGTH, LENGTH, p) + TermAt(d, LENGTH, LENGTH, NOT_FIRST, p),
      TermAt(d, LENGTH, LENGTH, ONE, p),
      TermAt(d, LENGTH, LENGTH, LENGTH, p))
  {
    hide Length;
    assert Start(p.l, d.tileK) == 0 <==> p.l == 0;
  }

  /** What one successful run adds to the counters, in closed form. */
  function RunGain(d: Descriptor): Perf
    requires Tileable(d)
  {
    var tm, tn, tk := TilesM(d), TilesN(d), TilesK(d);
    Perf(d.m * tn * tk + tm * d.n * tk + tm * tn * d.k - 2 * (tm * tn * tk),
         d.m * tn * d.k + tm * d.n * d.k + d.m * d.n * (tk - 1),
         d.m * d.n * tk,
         d.m * d.n * d.k)
  }

  /** The sum over the tiles is the closed form, for all dimensions and tile sizes. */
  lemma RunCost(d: Descriptor)
    requires Tileable(d)
    ensures 0 <= PlanLength(d) && CostOf(d, PlanLength(d)) == RunGain(d)
  {
    hide SumTo;
    PlanEnds(d);
    CostIsFourSums(d, PlanLength(d));
    SumOverPlan(d, LENGTH, ONE, ONE);
    SumOverPlan(d, ONE, LENGTH, ONE);
    SumOverPlan(d, ONE, ONE, LENGTH);
    SumOverPlan(d, LENGTH, ONE, LENGTH);
    SumOverPlan(d, ONE, LENGTH, LENGTH);
    SumOverPlan(d, LENGTH, LENGTH, NOT_FIRST);
    SumOverPlan(d, LENGTH, LENGTH, ONE);
    SumOverPlan(d, LENGTH, LENGTH, LENGTH);
    assert PlanLength(d) == TilesM(d) * TilesN(d) * TilesK(d);
  }
}
