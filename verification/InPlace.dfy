/** Products written over one of their own operands: exactly how far tiling allows it. */
module InPlace {
  import opened Words
  import opened RowMajor
  import opened Descriptors
  import opened Schedule
  import opened TiledGemm

  /** C shares no word with A, or with B. */
  predicate ApartFromA(d: Descriptor)
  {
    var a, c := d.aBase / WORD_BYTES, d.cBase / WORD_BYTES;
    c + Flat(d.m, 0, d.n) <= a || a + Flat(d.m, 0, d.k) <= c
  }

  predicate ApartFromB(d: Descriptor)
  {
    var b, c := d.bBase / WORD_BYTES, d.cBase / WORD_BYTES;
    c + Flat(d.m, 0, d.n) <= b || b + Flat(d.k, 0, d.n) <= c
  }

  /** Where the loops stand at the second tile along N or K, and along M or K. */
  function SecondColumn(d: Descriptor): Position
    requires Tileable(d)
  {
    if TilesN(d) > 1 then Position(0, 1, 0) else Position(0, 0, 1)
  }

  function SecondRow(d: Descriptor): Position
    requires Tileable(d)
  {
    if TilesM(d) > 1 then Position(1, 0, 0) else Position(0, 0, 1)
  }

  /** C in the place of A: a row of tiles must be one tile, for the next tile of the row would read what it stored. */
  lemma OverA(d: Descriptor)
    requires Tileable(d) && d.cBase == d.aBase && d.n == d.k && ApartFromB(d)
    ensures HazardFree(d) <==> TilesN(d) == 1 && TilesK(d) == 1
  {
    hide HazardFree;
    hide ApartFromB;
    hide Tiles;
    TilesRoundUp(d.n, d.tileN);
    TilesRoundUp(d.k, d.tileK);
    if TilesN(d) == 1 && TilesK(d) == 1 { OverAFree(d); } else { OverAHit(d); }
  }

  lemma OverAFree(d: Descriptor)
    requires Tileable(d) && d.cBase == d.aBase && d.n == d.k && ApartFromB(d) && TilesN(d) == 1 && TilesK(d) == 1
    ensures HazardFree(d)
  {
    hide Flat;
    hide TileOf;
    hide Written;
    forall p, x, y | Inside(d, p) && InTile(TileOf(d, p), x, y) ensures !Hits(d, p, x, y) {
      var t := TileOf(d, p);
      TileInBox(d, p);
      forall q | t.k0 <= q < t.k0 + t.kLen
        ensures !Written(d, p, AWord(d, x, q)) && !Written(d, p, BWord(d, q, y))
      {
        OwnRowUnwritten(d, p, x, y, q);
        FlatInside(q, y, d.k, d.n);
        if Written(d, p, BWord(d, q, y)) { WrittenInC(d, p, BWord(d, q, y)); }
      }
    }
  }

  lemma OwnRowUnwritten(d: Descriptor, p: Position, x: int, y: int, q: int)
    requires Tileable(d) && d.cBase == d.aBase && d.n == d.k && TilesN(d) == 1 && TilesK(d) == 1
    requires Inside(d, p) && InTile(TileOf(d, p), x, y) && 0 <= q < d.k && 0 <= x < d.m
    ensures !Written(d, p, AWord(d, x, q))
  {
    hide Flat;
    if Written(d, p, AWord(d, x, q)) {
      var x', y' :| InBox(d, x', y') && Depth(d, p, x', y') > 0 && AWord(d, x, q) == CWord(d, x', y');
      FlatDistinct(x, q, x', y', d.n);
      TileOfCoordinate(x, d.m, d.tileM);
      TileOfCoordinate(q, d.n, d.tileN);
      FlatNextRow(0, 0, d.tileK);
      assert false;
    }
  }

  lemma OverAHit(d: Descriptor)
    requires Tileable(d) && d.cBase == d.aBase && d.n == d.k && (TilesN(d) > 1 || TilesK(d) > 1)
    ensures !HazardFree(d)
  {
    hide Flat;
    var p := SecondColumn(d);
    TilesRoundUp(d.m, d.tileM);
    TilesRoundUp(d.n, d.tileN);
    TilesRoundUp(d.k, d.tileK);
    hide Tiles;
    assert Inside(d, p);
    TileInBox(d, p);
    var t := TileOf(d, p);
    var q := t.k0;
    TileOfCoordinate(0, d.m, d.tileM);
    TileOfCoordinate(q, d.n, d.tileN);
    StartInside(0, d.k, d.tileK);
    StartInside(p.i, d.m, d.tileM);
    assert InTile(t, 0, t.n0) && InBox(d, 0, q) && Depth(d, p, 0, q) > 0 && AWord(d, 0, q) == CWord(d, 0, q);
    assert Written(d, p, AWord(d, 0, q));
    assert Hits(d, p, 0, t.n0);
  }

  /** C in the place of B: a column of tiles must be one tile. */
  lemma OverB(d: Descriptor)
    requires Tileable(d) && d.cBase == d.bBase && d.m == d.k && ApartFromA(d)
    ensures HazardFree(d) <==> TilesM(d) == 1 && TilesK(d) == 1
  {
    hide HazardFree;
    hide ApartFromA;
    hide Tiles;
    TilesRoundUp(d.m, d.tileM);
    TilesRoundUp(d.k, d.tileK);
    if TilesM(d) == 1 && TilesK(d) == 1 { OverBFree(d); } else { OverBHit(d); }
  }

  lemma OverBFree(d: Descriptor)
    requires Tileable(d) && d.cBase == d.bBase && d.m == d.k && ApartFromA(d) && TilesM(d) == 1 && TilesK(d) == 1
    ensures HazardFree(d)
  {
    hide Flat;
    hide TileOf;
    hide Written;
    forall p, x, y | Inside(d, p) && InTile(TileOf(d, p), x, y) ensures !Hits(d, p, x, y) {
      var t := TileOf(d, p);
      TileInBox(d, p);
      forall q | t.k0 <= q < t.k0 + t.kLen
        ensures !Written(d, p, AWord(d, x, q)) && !Written(d, p, BWord(d, q, y))
      {
        OwnColumnUnwritten(d, p, x, y, q);
        FlatInside(x, q, d.m, d.k);
        if Written(d, p, AWord(d, x, q)) { WrittenInC(d, p, AWord(d, x, q)); }
      }
    }
  }

  lemma OwnColumnUnwritten(d: Descriptor, p: Position, x: int, y: int, q: int)
    requires Tileable(d) && d.cBase == d.bBase && d.m == d.k && TilesM(d) == 1 && TilesK(d) == 1
    requires Inside(d, p) && InTile(TileOf(d, p), x, y) && 0 <= q < d.k && 0 <= y < d.n
    ensures !Written(d, p, BWord(d, q, y))
  {
    hide Flat;
    if Written(d, p, BWord(d, q, y)) {
      var x', y' :| InBox(d, x', y') && Depth(d, p, x', y') > 0 && BWord(d, q, y) == CWord(d, x', y');
      FlatDistinct(q, y, x', y', d.n);
      TileOfCoordinate(q, d.m, d.tileM);
      TileOfCoordinate(y, d.n, d.tileN);
      FlatNextRow(0, 0, d.tileK);
      assert false;
    }
  }

  lemma OverBHit(d: Descriptor)
    requires Tileable(d) && d.cBase == d.bBase && d.m == d.k && (TilesM(d) > 1 || TilesK(d) > 1)
    ensures !HazardFree(d)
  {
    hide Flat;
    var p := SecondRow(d);
    TilesRoundUp(d.m, d.tileM);
    TilesRoundUp(d.n, d.tileN);
    TilesRoundUp(d.k, d.tileK);
    hide Tiles;
    assert Inside(d, p);
    TileInBox(d, p);
    var t := TileOf(d, p);
    var q := t.k0;
    TileOfCoordinate(q, d.m, d.tileM);
    TileOfCoordinate(0, d.n, d.tileN);
    StartInside(0, d.k, d.tileK);
    StartInside(p.j, d.n, d.tileN);
    assert InTile(t, t.m0, 0) && InBox(d, q, 0) && Depth(d, p, q, 0) > 0 && BWord(d, q, 0) == CWord(d, q, 0);
    assert Written(d, p, BWord(d, q, 0));
    assert Hits(d, p, t.m0, 0);
  }

  // ----- any overlap -----

  /** The tile that writes C element (x, y) first comes no earlier than the tile at p. */
  predicate FirstWrittenFrom(d: Descriptor, x: int, y: int, p: Position)
    requires Tileable(d)
  {
    p.i < x / d.tileM || (p.i == x / d.tileM && (p.j < y / d.tileN || (p.j == y / d.tileN && p.l == 0)))
  }

  /** The last tile that reads element (i, q) of A, and the last one that reads element (q, j) of B. */
  function LastReaderOfA(d: Descriptor, i: int, q: int): Position
    requires Tileable(d)
  {
    Position(i / d.tileM, TilesN(d) - 1, q / d.tileK)
  }

  function LastReaderOfB(d: Descriptor, q: int, j: int): Position
    requires Tileable(d)
  {
    Position(TilesM(d) - 1, j / d.tileN, q / d.tileK)
  }

  /** Word w of A, if it is also one of C, is read for the last time before it is written, or by the tile that writes it. */
  predicate AReadFirst(d: Descriptor, w: int)
    requires Tileable(d)
  {
    var a, c := d.aBase / WORD_BYTES, d.cBase / WORD_BYTES;
    InC(d, w) ==> FirstWrittenFrom(d, (w - c) / d.n, (w - c) % d.n, LastReaderOfA(d, (w - a) / d.k, (w - a) % d.k))
  }

  predicate BReadFirst(d: Descriptor, w: int)
    requires Tileable(d)
  {
    var b, c := d.bBase / WORD_BYTES, d.cBase / WORD_BYTES;
    InC(d, w) ==> FirstWrittenFrom(d, (w - c) / d.n, (w - c) % d.n, LastReaderOfB(d, (w - b) / d.n, (w - b) % d.n))
  }

  /** A test on the descriptor alone, word by word of A and of B. */
  predicate ReadsComeFirst(d: Descriptor)
    requires Tileable(d)
  {
    var a, b := d.aBase / WORD_BYTES, d.bBase / WORD_BYTES;
    && (forall w :: a <= w < a + Flat(d.m, 0, d.k) ==> AReadFirst(d, w))
    && (forall w :: b <= w < b + Flat(d.k, 0, d.n) ==> BReadFirst(d, w))
  }

  /** Every overlap, whatever its bases, sizes and tile sizes: the plan is free of hazards exactly if the test holds. */
  lemma OverlapExactly(d: Descriptor)
    requires Tileable(d)
    ensures HazardFree(d) <==> ReadsComeFirst(d)
  {
    hide HazardFree;
    hide ReadsComeFirst;
    if ReadsComeFirst(d) { ReadsFirstIsFree(d); }
    if HazardFree(d) { FreeReadsFirst(d); }
  }

  /** Element (x, y) of C holds a sum at p exactly if its first writer comes earlier. */
  lemma DepthIsWritten(d: Descriptor, p: Position, x: int, y: int)
    requires Tileable(d) && Inside(d, p)
    ensures Depth(d, p, x, y) > 0 <==> !FirstWrittenFrom(d, x, y, p)
  {
    hide Flat;
    TileInBox(d, p);
  }

  lemma WrittenExactly(d: Descriptor, p: Position, w: int)
    requires Tileable(d) && Inside(d, p)
    ensures var c := d.cBase / WORD_BYTES;
            Written(d, p, w) <==> InC(d, w) && !FirstWrittenFrom(d, (w - c) / d.n, (w - c) % d.n, p)
  {
    hide Flat;
    hide Depth;
    hide FirstWrittenFrom;
    var c := d.cBase / WORD_BYTES;
    var x, y := (w - c) / d.n, (w - c) % d.n;
    ElementAt(w - c, d.m, d.n);
    DepthIsWritten(d, p, x, y);
    if InC(d, w) && Depth(d, p, x, y) > 0 { assert InBox(d, x, y) && w == CWord(d, x, y); }
    if Written(d, p, w) {
      var x', y' :| InBox(d, x', y') && Depth(d, p, x', y') > 0 && w == CWord(d, x', y');
      ElementIs(x', y', d.m, d.n);
    }
  }

  lemma ReadsFirstIsFree(d: Descriptor)
    requires Tileable(d) && ReadsComeFirst(d)
    ensures HazardFree(d)
  {
    hide ReadsComeFirst;
    hide Written;
    forall p, x, y | Inside(d, p) && InTile(TileOf(d, p), x, y) ensures !Hits(d, p, x, y) {
      var t := TileOf(d, p);
      forall q | t.k0 <= q < t.k0 + t.kLen
        ensures !Written(d, p, AWord(d, x, q)) && !Written(d, p, BWord(d, q, y))
      {
        OperandsUnwritten(d, p, x, y, q);
      }
    }
  }

  /** The tile at p covers x, y and q, so its indices are theirs. */
  lemma TileIndices(d: Descriptor, p: Position, x: int, y: int, q: int)
    requires Tileable(d) && Inside(d, p) && TileOf(d, p).Contains(x, y, q)
    ensures 0 <= x < d.m && 0 <= y < d.n && 0 <= q < d.k
    ensures p == Position(x / d.tileM, y / d.tileN, q / d.tileK)
  {
    hide Flat;
    TileInBox(d, p);
    TileOfCoordinate(x, d.m, d.tileM);
    TileOfCoordinate(y, d.n, d.tileN);
    TileOfCoordinate(q, d.k, d.tileK);
  }

  lemma OperandsUnwritten(d: Descriptor, p: Position, x: int, y: int, q: int)
    requires Tileable(d) && ReadsComeFirst(d) && Inside(d, p) && TileOf(d, p).Contains(x, y, q)
    ensures !Written(d, p, AWord(d, x, q)) && !Written(d, p, BWord(d, q, y))
  {
    hide Written;
    hide TileOf;
    hide Flat;
    TileIndices(d, p, x, y, q);
    var v, w := AWord(d, x, q), BWord(d, q, y);
    ElementIs(x, q, d.m, d.k);
    ElementIs(q, y, d.k, d.n);
    assert AReadFirst(d, v) && BReadFirst(d, w);
    WrittenExactly(d, p, v);
    WrittenExactly(d, p, w);
    hide ReadsComeFirst;
    var c := d.cBase / WORD_BYTES;
    if InC(d, v) { ReadEarlier(d, p, LastReaderOfA(d, x, q), (v - c) / d.n, (v - c) % d.n); }
    if InC(d, w) { ReadEarlier(d, p, LastReaderOfB(d, q, y), (w - c) / d.n, (w - c) % d.n); }
  }

  lemma ReadEarlier(d: Descriptor, p: Position, last: Position, x: int, y: int)
    requires Tileable(d) && Inside(d, p) && FirstWrittenFrom(d, x, y, last) && p.l == last.l
    requires (p.i == last.i && p.j <= last.j) || (p.i <= last.i && p.j == last.j)
    ensures FirstWrittenFrom(d, x, y, p)
  {
  }

  lemma FreeReadsFirst(d: Descriptor)
    requires Tileable(d) && HazardFree(d)
    ensures ReadsComeFirst(d)
  {
    hide HazardFree;
    hide FirstWrittenFrom;
    hide Flat;
    var a, b := d.aBase / WORD_BYTES, d.bBase / WORD_BYTES;
    forall w | a <= w < a + Flat(d.m, 0, d.k) ensures AReadFirst(d, w) {
      ElementAt(w - a, d.m, d.k);
      LastReadOfA(d, (w - a) / d.k, (w - a) % d.k);
      WrittenExactly(d, LastReaderOfA(d, (w - a) / d.k, (w - a) % d.k), w);
    }
    forall w | b <= w < b + Flat(d.k, 0, d.n) ensures BReadFirst(d, w) {
      ElementAt(w - b, d.k, d.n);
      LastReadOfB(d, (w - b) / d.n, (w - b) % d.n);
      WrittenExactly(d, LastReaderOfB(d, (w - b) / d.n, (w - b) % d.n), w);
    }
  }

  /** In a plan free of hazards no earlier tile has written what the last reader reads. */
  lemma LastReadOfA(d: Descriptor, i: int, q: int)
    requires Tileable(d) && HazardFree(d) && 0 <= i < d.m && 0 <= q < d.k
    ensures var p := LastReaderOfA(d, i, q); Inside(d, p) && !Written(d, p, AWord(d, i, q))
  {
    hide Flat;
    hide Written;
    var p := LastReaderOfA(d, i, q);
    TilesRoundUp(d.n, d.tileN);
    TileOfCoordinate(i, d.m, d.tileM);
    TileOfCoordinate(q, d.k, d.tileK);
    TileInBox(d, p);
    var t := TileOf(d, p);
    assert InTile(t, i, t.n0) && t.k0 <= q < t.k0 + t.kLen;
    assert !Hits(d, p, i, t.n0);
  }

  lemma LastReadOfB(d: Descriptor, q: int, j: int)
    requires Tileable(d) && HazardFree(d) && 0 <= j < d.n && 0 <= q < d.k
    ensures var p := LastReaderOfB(d, q, j); Inside(d, p) && !Written(d, p, BWord(d, q, j))
  {
    hide Flat;
    hide Written;
    var p := LastReaderOfB(d, q, j);
    TilesRoundUp(d.m, d.tileM);
    TileOfCoordinate(j, d.n, d.tileN);
    TileOfCoordinate(q, d.k, d.tileK);
    TileInBox(d, p);
    var t := TileOf(d, p);
    assert InTile(t, t.m0, j) && t.k0 <= q < t.k0 + t.kLen;
    assert !Hits(d, p, t.m0, j);
  }
}
