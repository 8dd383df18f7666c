/** Why C must not overlap what later tiles still read: on matrices filled with twos, a run that hits an overwritten
    operand stores too large a sum.  With `TiledGemm.ProgressStep` this makes `HazardFree` the exact condition under
    which runs store the product. */
module Hazards {
  import opened Words
  import opened RowMajor
  import opened Systolic
  import opened Descriptors
  import opened Schedule
  import opened TiledGemm

  /** Word w belongs to A, B or C. */
  predicate InMatrices(d: Descriptor, w: int)
  {
    || d.aBase / WORD_BYTES <= w < d.aBase / WORD_BYTES + Flat(d.m, 0, d.k)
    || d.bBase / WORD_BYTES <= w < d.bBase / WORD_BYTES + Flat(d.k, 0, d.n)
    || InC(d, w)
  }

  /** Every word of the three matrices is a two; the rest of DRAM, where the descriptor may stand, is arbitrary. */
  ghost predicate AllTwos(d: Descriptor, mem: seq<int>)
  {
    forall w :: 0 <= w < |mem| && InMatrices(d, w) ==> mem[w] == 2
  }

  /** How many K tiles of the block of (x, y) precede position p. */
  function Level(d: Descriptor, p: Position, x: int, y: int): int
    requires Tileable(d)
  {
    var i, j := x / d.tileM, y / d.tileN;
    if i < p.i || (i == p.i && j < p.j) then TilesK(d) else if i == p.i && j == p.j then p.l else 0
  }

  /** One of the first `level` K tiles of the block of (x, y) reads an overwritten operand for it. */
  ghost predicate WasHit(d: Descriptor, x: int, y: int, level: int)
    requires Tileable(d)
  {
    exists l :: 0 <= l < level && Hits(d, Position(x / d.tileM, y / d.tileN, l), x, y)
  }

  /** A lower bound for element (x, y): four for each product, and four more after a hit. */
  ghost function Weight(d: Descriptor, p: Position, x: int, y: int): int
    requires Tileable(d)
  {
    4 * Depth(d, p, x, y) + if WasHit(d, x, y, Level(d, p, x, y)) then 4 else 0
  }

  /** The invariant of a run that starts from matrices of twos. */
  ghost predicate Heavy(d: Descriptor, mem: seq<int>, p: Position)
    requires Tileable(d)
  {
    && (forall w :: 0 <= w < |mem| && InMatrices(d, w) ==> mem[w] >= 2)
    && (forall x, y :: InBox(d, x, y) && Depth(d, p, x, y) > 0 ==> Peek(mem, CWord(d, x, y)) >= Weight(d, p, x, y))
    && InMemory(d, |mem|) && d.aBase >= 0 && d.bBase >= 0 && d.cBase >= 0
  }

  lemma LevelAdvances(d: Descriptor, p: Position, x: int, y: int)
    requires Tileable(d) && Inside(d, p) && InBox(d, x, y)
    ensures var t := TileOf(d, p);
            if InTile(t, x, y) then p == Position(x / d.tileM, y / d.tileN, p.l) && Level(d, p, x, y) == p.l
                                    && Level(d, Next(d, p), x, y) == p.l + 1
            else Level(d, Next(d, p), x, y) == Level(d, p, x, y)
  {
    hide Flat;
    TileInBox(d, p);
    TileOfCoordinate(x, d.m, d.tileM);
    TileOfCoordinate(y, d.n, d.tileN);
  }

  /** Sums of products of operands that are at least two, one of them perhaps at least four. */
  lemma {:induction false} HeavyDot(job: Job, i: int, j: int, count: nat, hit: int)
    requires forall p :: 0 <= p < count ==> job.A(i, p) >= 2 && job.B(p, j) >= 2
    requires 0 <= hit < count ==> job.A(i, hit) >= 4 || job.B(hit, j) >= 4
    ensures job.Dot(i, j, count) >= 4 * count + if 0 <= hit < count then 4 else 0
  {
    if count > 0 {
      HeavyDot(job, i, j, count - 1, hit);
      HeavyProduct(job.A(i, count - 1), job.B(count - 1, j));
    }
  }

  lemma HeavyProduct(x: int, y: int)
    requires x >= 2 && y >= 2
    ensures x * y >= 4 && (x >= 4 || y >= 4 ==> x * y >= 8)
  {
    assert (x - 2) * (y - 2) >= 0;
    if x >= 4 { assert (x - 4) * (y - 2) >= 0; }
    if y >= 4 { assert (x - 2) * (y - 4) >= 0; }
  }

  lemma {:induction false} TwosDot(job: Job, i: int, j: int, count: nat)
    requires forall p :: 0 <= p < count ==> job.A(i, p) == 2 && job.B(p, j) == 2
    ensures job.Dot(i, j, count) == 4 * count
  {
    if count > 0 {
      TwosDot(job, i, j, count - 1);
    }
  }

  /** Every operand of a heavy state is at least two, and at least four once overwritten. */
  lemma HeavyOperand(d: Descriptor, mem: seq<int>, p: Position, w: int)
    requires Tileable(d) && Heavy(d, mem, p) && 0 <= w < |mem| && InMatrices(d, w)
    ensures Peek(mem, w) >= 2 && (Written(d, p, w) ==> Peek(mem, w) >= 4)
  {
    hide Flat;
    hide Depth;
    hide WasHit;
    if Written(d, p, w) {
      var x, y :| InBox(d, x, y) && Depth(d, p, x, y) > 0 && w == CWord(d, x, y);
      assert Peek(mem, CWord(d, x, y)) >= Weight(d, p, x, y);
    }
  }

  /** The tile's sum for one element in a heavy state. */
  lemma HeavyTile(d: Descriptor, mem: seq<int>, p: Position, x: int, y: int)
    requires Tileable(d) && Inside(d, p) && Heavy(d, mem, p)
    requires var t := TileOf(d, p); t.mLen >= 0 && t.nLen >= 0 && t.kLen >= 0 && InTile(t, x, y)
    ensures var t := TileOf(d, p);
            TileProduct(d, mem, t).Result(x - t.m0, y - t.n0)
              >= (if t.k0 == 0 then 0 else Peek(mem, CWord(d, x, y))) + 4 * t.kLen + if Hits(d, p, x, y) then 4 else 0
  {
    hide Flat;
    hide Job.Dot;
    hide TileOf;
    hide Heavy;
    hide Written;
    assert InMemory(d, |mem|) && d.aBase >= 0 && d.bBase >= 0 by { HeavyInMemory(d, mem, p); }
    var t := TileOf(d, p);
    TileInBox(d, p);
    var job, i, j := TileProduct(d, mem, t), x - t.m0, y - t.n0;
    forall q | 0 <= q < t.kLen
      ensures job.A(i, q) >= 2 && (Written(d, p, AWord(d, x, t.k0 + q)) ==> job.A(i, q) >= 4)
      ensures job.B(q, j) >= 2 && (Written(d, p, BWord(d, t.k0 + q, y)) ==> job.B(q, j) >= 4)
    {
      FlatInside(x, t.k0 + q, d.m, d.k);
      FlatInside(t.k0 + q, y, d.k, d.n);
      HeavyOperand(d, mem, p, AWord(d, x, t.k0 + q));
      HeavyOperand(d, mem, p, BWord(d, t.k0 + q, y));
    }
    var hit := -1;
    if Hits(d, p, x, y) {
      var q :| t.k0 <= q < t.k0 + t.kLen && (Written(d, p, AWord(d, x, q)) || Written(d, p, BWord(d, q, y)));
      hit := q - t.k0;
      assert t.k0 + hit == q;
    }
    HeavyDot(job, i, j, t.kLen, hit);
  }

  lemma HeavyInMemory(d: Descriptor, mem: seq<int>, p: Position)
    requires Tileable(d) && Heavy(d, mem, p)
    ensures InMemory(d, |mem|) && d.aBase >= 0 && d.bBase >= 0 && d.cBase >= 0
  {
  }

  lemma HeavyStep(d: Descriptor, mem: seq<int>, mem': seq<int>, p: Position)
    requires Tileable(d) && Inside(d, p) && Heavy(d, mem, p)
    requires var t := TileOf(d, p); t.mLen >= 0 && t.nLen >= 0 && t.kLen >= 0 && TileApplied(d, t, mem, mem')
    ensures Heavy(d, mem', Next(d, p))
  {
    hide Flat;
    hide Depth;
    hide Level;
    hide TileOf;
    hide Hits;
    hide TileProduct;
    hide Job.Result;
    hide Next;
    var t := TileOf(d, p);
    TileInBox(d, p);
    forall x, y | InTile(t, x, y) ensures Peek(mem', CWord(d, x, y)) >= Weight(d, Next(d, p), x, y) >= 4 {
      HeavyElement(d, mem, mem', p, x, y);
    }
    forall w | 0 <= w < |mem'| && InMatrices(d, w) ensures mem'[w] >= 2 {
      if TileWrites(d, t, w) {
        var x, y :| InTile(t, x, y) && w == CWord(d, x, y);
        assert Peek(mem', CWord(d, x, y)) >= 4;
      }
    }
    forall x, y | InBox(d, x, y) && Depth(d, Next(d, p), x, y) > 0
      ensures Peek(mem', CWord(d, x, y)) >= Weight(d, Next(d, p), x, y)
    {
      DepthAdvances(d, p, x, y);
      LevelAdvances(d, p, x, y);
      if !InTile(t, x, y) { OtherElementsKept(d, t, mem, mem', x, y); }
    }
  }

  lemma HeavyElement(d: Descriptor, mem: seq<int>, mem': seq<int>, p: Position, x: int, y: int)
    requires Tileable(d) && Inside(d, p) && Heavy(d, mem, p)
    requires var t := TileOf(d, p);
             t.mLen >= 0 && t.nLen >= 0 && t.kLen >= 0 && TileApplied(d, t, mem, mem') && InTile(t, x, y)
    ensures Peek(mem', CWord(d, x, y)) >= Weight(d, Next(d, p), x, y) >= 4
  {
    hide Flat;
    hide Depth;
    hide Level;
    hide TileOf;
    hide Hits;
    hide TileProduct;
    hide Job.Result;
    hide Next;
    var t := TileOf(d, p);
    TileInBox(d, p);
    DepthAdvances(d, p, x, y);
    LevelAdvances(d, p, x, y);
    HeavyTile(d, mem, p, x, y);
    assert InBox(d, x, y);
    assert WasHit(d, x, y, p.l + 1) ==> WasHit(d, x, y, p.l) || Hits(d, p, x, y);
    if t.k0 != 0 {
      assert Peek(mem, CWord(d, x, y)) >= Weight(d, p, x, y);
    }
  }

  lemma HeavyStart(d: Descriptor, mem: seq<int>)
    requires Tileable(d) && AllTwos(d, mem) && InMemory(d, |mem|) && d.aBase >= 0 && d.bBase >= 0 && d.cBase >= 0
    ensures Heavy(d, mem, Position(0, 0, 0))
  {
    hide Depth;
    forall x, y | InBox(d, x, y) ensures Depth(d, Position(0, 0, 0), x, y) == 0 {
      DepthStart(d, x, y);
    }
  }

  /** From matrices of twos, a plan with a hazard ends with a wrong element in C. */
  lemma HazardSpoilsProduct(d: Descriptor, mem0: seq<int>, mem: seq<int>, p: Position)
    requires Tileable(d) && AllTwos(d, mem0) && |mem| == |mem0| && p.i == TilesM(d) && Heavy(d, mem, p) && !HazardFree(d)
    ensures !ProductStored(d, mem0, mem)
  {
    hide Flat;
    hide TileOf;
    hide Hits;
    hide Job.Dot;
    hide Depth;
    hide Level;
    var q, x, y :| Inside(d, q) && InTile(TileOf(d, q), x, y) && Hits(d, q, x, y);
    TileInBox(d, q);
    LevelAdvances(d, q, x, y);
    LevelEnd(d, p, x, y);
    DepthEnd(d, p, x, y);
    assert WasHit(d, x, y, TilesK(d));
    assert Peek(mem, CWord(d, x, y)) >= Weight(d, p, x, y) == 4 * d.k + 4;
    var job := Whole(d, mem0);
    forall r | 0 <= r < d.k ensures job.A(x, r) == 2 && job.B(r, y) == 2 {
      FlatInside(x, r, d.m, d.k);
      FlatInside(r, y, d.k, d.n);
    }
    TwosDot(job, x, y, d.k);
  }

  lemma LevelEnd(d: Descriptor, p: Position, x: int, y: int)
    requires Tileable(d) && p.i == TilesM(d) && InBox(d, x, y)
    ensures Level(d, p, x, y) == TilesK(d)
  {
    hide Flat;
    TileOfCoordinate(x, d.m, d.tileM);
  }

  /** Every valid descriptor is stored next to matrices of twos, wherever its block does not meet them: so the hazard
      shows on a DRAM from which the device loads the descriptor itself. */
  lemma TwosBesideDescriptor(d: Descriptor, mem: seq<int>, base: int)
    requires d.Words() && d.Validate() && d.NonNegativeWords() && AllTwos(d, mem)
    requires IsUint32(base) && base % WORD_BYTES == 0 && base / WORD_BYTES + WORD_COUNT <= |mem|
    requires forall w :: base / WORD_BYTES <= w < base / WORD_BYTES + WORD_COUNT ==> !InMatrices(d, w)
    ensures var mem' := Overlaid(mem, base / WORD_BYTES, Encode(d)); AllTwos(d, mem') && Loaded(mem', base) == (true, d)
  {
    hide Flat;
    hide InMatrices;
    hide Loaded;
    hide Descriptor.Validate;
    hide Descriptor.NonNegativeWords;
    StoredThenLoaded(d, mem, base);
  }

  /** A one-row product that writes its second tile over the first operand of the first: C at byte 4 is A. */
  const OVERLAPPING: Descriptor := Descriptor(1, 17, 1, 4, 400, 4, OS, 16, 16, 16)

  /** A hazard is reachable: this descriptor validates, lies in a memory of 1000 words and has one. */
  lemma HazardExists()
    ensures var d := OVERLAPPING;
            && d.Words() && d.NonNegativeWords() && d.Validate() && Tileable(d) && InMemory(d, 1000) && !HazardFree(d)
  {
    var d, p := OVERLAPPING, Position(0, 1, 0);
    OverlappingTile();
    hide TileOf;
    hide Depth;
    hide Inside;
    assert Written(d, p, AWord(d, 0, 0));
    assert Hits(d, p, 0, 16);
  }

  /** Its second tile, when the first has been stored. */
  lemma OverlappingTile()
    ensures var d, p := OVERLAPPING, Position(0, 1, 0);
            && Tileable(d) && Inside(d, p) && InTile(TileOf(d, p), 0, 16) && TileOf(d, p).k0 == 0 && TileOf(d, p).kLen == 1
            && InBox(d, 0, 0) && Depth(d, p, 0, 0) == 1 && AWord(d, 0, 0) == CWord(d, 0, 0)
  {
    var d := OVERLAPPING;
    assert TilesM(d) == 1 && TilesN(d) == 2 && TilesK(d) == 1;
  }
}
