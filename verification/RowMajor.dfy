/** Row-major indexing: the address arithmetic of matrices, tiles and strided transfers. */
module RowMajor {
  function Flat(row: int, col: int, width: int): int
  {
    row * width + col
  }

  /** Word x of a flat store, 0 outside it. */
  function Peek(s: seq<int>, x: int): int
  {
    if 0 <= x < |s| then s[x] else 0
  }

  lemma FlatNextRow(row: int, col: int, width: int)
    ensures Flat(row + 1, col, width) == Flat(row, col, width) + width
    ensures Flat(0, col, width) == col
    ensures Flat(row, col, width) == Flat(row, 0, width) + col
  {
  }

  /** Later rows start at higher addresses. */
  lemma FlatMonotone(row: int, row': int, col: int, width: int)
    requires row <= row' && 0 <= width
    ensures Flat(row, col, width) <= Flat(row', col, width)
  {
    assert (row' - row) * width >= 0;
  }

  /** Rows that are at least one row width apart do not meet. */
  lemma FlatRowsApart(row: int, row': int, col: int, col': int, width: int)
    requires row < row' && col - col' < width && 0 <= width
    ensures Flat(row, col, width) < Flat(row', col', width)
  {
    hide Flat;
    FlatMonotone(row + 1, row', col', width);
    FlatNextRow(row, col', width);
    FlatNextRow(row, col, width);
  }

  lemma FlatDistinct(row: int, col: int, row': int, col': int, width: int)
    requires 0 <= col < width && 0 <= col' < width
    ensures Flat(row, col, width) == Flat(row', col', width) ==> row == row' && col == col'
  {
    hide Flat;
    FlatNextRow(row, col, width);
    FlatNextRow(row', col', width);
    if row < row' {
      FlatRowsApart(row, row', col, col', width);
    } else if row' < row {
      FlatRowsApart(row', row, col', col, width);
    }
  }

  lemma FlatBound(row: int, col: int, rows: int, width: int)
    requires 0 <= row < rows && 0 <= col < width
    ensures 0 <= Flat(row, col, width) < rows * width
  {
    FlatMonotone(0, row, 0, width);
    FlatMonotone(row + 1, rows, 0, width);
  }

  /** An element of a matrix lies before the matrix ends. */
  lemma FlatInside(row: int, col: int, rows: int, width: int)
    requires 0 <= row < rows && 0 <= col < width
    ensures 0 <= Flat(row, col, width) < Flat(rows, 0, width)
    ensures rows <= Flat(rows, 0, width) && width <= Flat(rows, 0, width)
  {
    FlatBound(row, col, rows, width);
    assert rows * (width - 1) >= 0 && (rows - 1) * width >= 0;
  }

  /** A word of a matrix of `rows` by `width` words is one of its elements. */
  lemma ElementAt(w: int, rows: int, width: int)
    requires width > 0 && rows > 0
    ensures 0 <= w < Flat(rows, 0, width) ==> 0 <= w / width < rows && 0 <= w % width < width
    ensures Flat(w / width, w % width, width) == w
  {
    var row := w / width;
    if 0 <= w < Flat(rows, 0, width) && row >= rows { FlatMonotone(rows, row, 0, width); }
  }

  lemma ElementIs(row: int, col: int, rows: int, width: int)
    requires 0 <= row < rows && 0 <= col < width
    ensures var w := Flat(row, col, width); 0 <= w < Flat(rows, 0, width) && w / width == row && w % width == col
  {
    var w := Flat(row, col, width);
    FlatInside(row, col, rows, width);
    ElementAt(w, rows, width);
    FlatDistinct(row, col, w / width, w % width, width);
  }

  /** Row-major order is a bijection between a `rows` by `width` box and its flat indices. */
  lemma FlatIsBijective(rows: int, width: int)
    ensures forall i, j :: 0 <= i < rows && 0 <= j < width ==> 0 <= Flat(i, j, width) < rows * width
    ensures forall i, j, i', j' | 0 <= j < width && 0 <= j' < width && Flat(i, j, width) == Flat(i', j', width) ::
              i == i' && j == j'
  {
    hide Flat;
    forall i, j | 0 <= i < rows && 0 <= j < width ensures 0 <= Flat(i, j, width) < rows * width {
      FlatBound(i, j, rows, width);
    }
    forall i, j, i', j' | 0 <= j < width && 0 <= j' < width && Flat(i, j, width) == Flat(i', j', width)
      ensures i == i' && j == j'
    {
      FlatDistinct(i, j, i', j', width);
    }
  }
}
