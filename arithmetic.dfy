/** Facts about multiplication, division and remainder that the index
    arithmetic of the ring buffers and image buffers relies on. */
module Arithmetic {

  lemma MulAtLeast(a: int, b: int)
    requires b > 0
    ensures a >= 1 ==> a * b >= b
    ensures a >= 0 ==> a * b >= 0
    ensures a == 0 ==> a * b == 0
  {
  }

  /** Quotient and remainder are unique. */
  lemma DivModUnique(x: int, q: int, r: int, d: int)
    requires d > 0 && x == q * d + r && 0 <= r < d
    ensures x / d == q && x % d == r
  {
    var q', r' := x / d, x % d;
    assert (q - q') * d == r' - r;
    assert (q' - q) * d == r - r';
    MulAtLeast(q - q', d);
    MulAtLeast(q' - q, d);
  }

  /** The row-major offset of a cell lies inside the buffer, and division by
      the row width recovers its row and column. */
  lemma RowMajor(row: nat, col: nat, width: nat, rows: nat)
    requires row < rows && col < width
    ensures row * width + col < rows * width
    ensures (row * width + col) / width == row && (row * width + col) % width == col
  {
    assert rows * width - row * width == (rows - row) * width;
    MulAtLeast(rows - row, width);
    DivModUnique(row * width + col, row, col, width);
  }

  /** Every offset inside a buffer of `rows` rows of `width` cells is a
      row-major cell. */
  lemma RowMajorSplit(k: nat, width: nat, rows: nat)
    requires k < rows * width
    ensures width > 0 && k / width < rows && k == (k / width) * width + k % width
  {
    if width > 0 {
      var q := k / width;
      assert (q - rows) * width == q * width - rows * width;
      MulAtLeast(q - rows, width);
    }
  }
}
