/** Two-dimensional tensors and the row-major arrays that stand for them. */
module TensorLayout {
  import opened Words
  import opened RowMajor
  import opened TensorCSemantics
  import opened CTarget
  import opened Codegen

  /** A tensor and the array that holds it: rectangular, not empty, below 2^31 elements. */
  ghost predicate SameTensor(g: Grid, cells: seq<int>)
  {
    && |g| > 0 && |g[0]| > 0 && Rectangular(g, |g|, |g[0]|) && cells == Flatten(g) && |cells| < TWO31
  }

  lemma {:induction false} FlattenLength(g: Grid, cols: nat)
    requires forall r :: 0 <= r < |g| ==> |g[r]| == cols
    ensures |Flatten(g)| == |g| * cols == Flat(|g|, 0, cols)
  {
    if g != [] {
      FlattenLength(g[1..], cols);
      assert |g| * cols == (|g| - 1) * cols + cols;
    }
  }

  /** Element (r, c) is word r * cols + c. */
  lemma {:induction false} FlattenAt(g: Grid, cols: nat, r: nat, c: nat)
    requires (forall x :: 0 <= x < |g| ==> |g[x]| == cols) && r < |g| && c < cols
    ensures 0 <= Flat(r, c, cols) < |Flatten(g)| && Flatten(g)[Flat(r, c, cols)] == g[r][c]
  {
    hide Flat;
    FlattenLength(g, cols);
    FlatInside(r, c, |g|, cols);
    FlatNextRow(0, c, cols);
    if r > 0 {
      FlattenAt(g[1..], cols, r - 1, c);
      FlatNextRow(r - 1, c, cols);
    }
  }

  /** Writing one element writes one word. */
  lemma {:induction false} FlattenUpdate(g: Grid, cols: nat, r: nat, c: nat, v: int)
    requires (forall x :: 0 <= x < |g| ==> |g[x]| == cols) && r < |g| && c < cols
    ensures 0 <= Flat(r, c, cols) < |Flatten(g)|
    ensures Flatten(g[r := g[r][c := v]]) == Flatten(g)[Flat(r, c, cols) := v]
  {
    hide Flat;
    FlattenAt(g, cols, r, c);
    FlatNextRow(0, c, cols);
    var g' := g[r := g[r][c := v]];
    if r == 0 {
      assert g'[1..] == g[1..];
      assert Flatten(g') == g[0][c := v] + Flatten(g[1..]);
    } else {
      FlattenUpdate(g[1..], cols, r - 1, c, v);
      FlatNextRow(r - 1, c, cols);
      assert g'[1..] == g[1..][r - 1 := g[r][c := v]];
      assert Flatten(g') == g[0] + Flatten(g[1..])[Flat(r - 1, c, cols) := v];
    }
  }

  lemma {:induction false} FlattenZeros(rows: nat, cols: nat)
    ensures Flatten(Zeros(rows, cols)) == seq(rows * cols, _ => 0)
  {
    var g := Zeros(rows, cols);
    if rows > 0 {
      FlattenZeros(rows - 1, cols);
      assert g[1..] == Zeros(rows - 1, cols);
      assert rows * cols == cols + (rows - 1) * cols;
    }
  }

  // ----- products -----

  lemma {:induction false} DotMatches(a: Grid, b: Grid, i: nat, j: nat, k: nat, n: nat, count: nat)
    requires Rectangular(a, |a|, k) && Rectangular(b, k, n) && i < |a| && j < n && count <= k
    ensures GridDot(a, b, i, j, count) == FlatDot(Flatten(a), Flatten(b), i, j, n, k, count)
  {
    hide Flat;
    if count > 0 {
      DotMatches(a, b, i, j, k, n, count - 1);
      FlattenAt(a, k, i, count - 1);
      FlattenAt(b, n, count - 1, j);
    }
  }

  lemma {:induction false} FlattenAppend(g: Grid, row: seq<int>)
    ensures Flatten(g + [row]) == Flatten(g) + row
  {
    if g == [] {
      assert [row][1..] == [];
    } else {
      FlattenAppend(g[1..], row);
      assert (g + [row])[1..] == g[1..] + [row];
    }
  }

  /** Row-major product of row-major arrays is the row-major product: the first m rows of it. */
  lemma {:induction false} ProductMatches(a: Grid, b: Grid, m: nat, n: nat, k: nat)
    requires Rectangular(a, |a|, k) && Rectangular(b, k, n) && m <= |a|
    ensures Rectangular(a[..m], m, k)
    ensures Flatten(Product(a[..m], b, m, n, k)) == FlatProduct(Flatten(a), Flatten(b), m, n, k)
  {
    hide Flat;
    if m > 0 {
      ProductMatches(a, b, m - 1, n, k);
      var before, now := Product(a[..m - 1], b, m - 1, n, k), Product(a[..m], b, m, n, k);
      var row := seq(n, j requires 0 <= j < n => FlatDot(Flatten(a), Flatten(b), m - 1, j, n, k, k));
      var both := before + [row];
      forall i | 0 <= i < m ensures now[i] == both[i] {
        forall j | 0 <= j < n ensures now[i][j] == both[i][j] {
          DotMatches(a, b, i, j, k, n, k);
          SameRowSameDot(a, m, b, i, j, k);
          if i < m - 1 {
            SameRowSameDot(a, m - 1, b, i, j, k);
            assert both[i] == before[i];
          } else {
            assert both[i] == row;
          }
        }
        assert |now[i]| == n && |both[i]| == n;
      }
      assert now == before + [row];
      FlattenAppend(before, row);
    }
  }

  lemma {:induction false} SameRowSameDot(a: Grid, m: nat, b: Grid, i: nat, j: nat, count: nat)
    requires i < m <= |a| && count <= |a[i]| && count <= |b| && Wider(b, j)
    ensures GridDot(a[..m], b, i, j, count) == GridDot(a, b, i, j, count)
  {
    if count > 0 {
      SameRowSameDot(a, m, b, i, j, count - 1);
    }
  }

  /** Elements and words have the same range. */
  lemma {:induction false} FlattenInt32(g: Grid)
    ensures AllInt32(g) ==> forall x :: 0 <= x < |Flatten(g)| ==> IsInt32(Flatten(g)[x])
  {
    if g != [] && AllInt32(g) {
      assert forall r, c :: 0 <= r < |g[1..]| && 0 <= c < |g[1..][r]| ==> g[1..][r][c] == g[r + 1][c];
      FlattenInt32(g[1..]);
    }
  }
}
