/**
 Pure arithmetic over the flat `real` buffers of the network: row-major
 indexing, finite sums, the column and row dot products the two layers use,
 and the maximum taken before the softmax. Every loop of the network is
 specified against these definitions.
 */
module LinearAlgebra {

  /**
   Row-major position of entry (row, col) in a matrix with `cols` columns:
   `row` whole rows of width `cols` come before it. Defined by adding one row
   width per row so that the verifier unfolds it only where asked;
   `FlatIsProduct` shows it is row * cols + col.
   */
  function Flat(row: nat, col: nat, cols: nat): nat
  {
    if row == 0 then col else Flat(row - 1, col, cols) + cols
  }

  /** The index expression `row * cols + col` of the source. */
  lemma {:induction false} FlatIsProduct(row: nat, col: nat, cols: nat)
    ensures Flat(row, col, cols) == row * cols + col
  {
    if row > 0 {
      FlatIsProduct(row - 1, col, cols);
      assert (row - 1) * cols + cols == row * cols;
    }
  }

  /** A row-major index of an in-range (row, col) lies inside the buffer. */
  lemma FlatInBounds(row: nat, col: nat, rows: nat, cols: nat)
    requires row < rows && col < cols
    ensures Flat(row, col, cols) < rows * cols
    ensures row * cols + cols <= rows * cols
  {
    FlatIsProduct(row, col, cols);
    assert (row + 1) * cols == row * cols + cols;
    MulMonotone(row + 1, rows, cols);
  }

  lemma MulMonotone(a: nat, b: nat, c: nat)
    requires a <= b
    ensures a * c <= b * c
  {
    var k := b - a;
    assert b * c == a * c + k * c;
  }

  /** Sum of a sequence, accumulated front to back as the source's loops do. */
  function Sum(s: seq<real>): real
  {
    if |s| == 0 then 0.0 else Sum(s[..|s| - 1]) + s[|s| - 1]
  }

  /** Every entry multiplied by `c`. */
  function Scale(s: seq<real>, c: real): (r: seq<real>)
    ensures |r| == |s|
    ensures forall i :: 0 <= i < |s| ==> r[i] == s[i] * c
  {
    seq(|s|, i requires 0 <= i < |s| => s[i] * c)
  }

  /** Every entry increased by `c`. */
  function Shift(s: seq<real>, c: real): (r: seq<real>)
    ensures |r| == |s|
    ensures forall i :: 0 <= i < |s| ==> r[i] == s[i] + c
  {
    seq(|s|, i requires 0 <= i < |s| => s[i] + c)
  }

  /** A sequence of `n` copies of `c`. */
  function Constant(n: nat, c: real): (r: seq<real>)
    ensures |r| == n
    ensures forall i :: 0 <= i < n ==> r[i] == c
  {
    seq(n, _ => c)
  }

  lemma {:induction false} SumPositive(s: seq<real>)
    requires |s| > 0
    requires forall i :: 0 <= i < |s| ==> s[i] > 0.0
    ensures Sum(s) > 0.0
    decreases |s|
  {
    if |s| > 1 {
      SumPositive(s[..|s| - 1]);
    }
  }

  lemma {:induction false} SumScale(s: seq<real>, c: real)
    ensures Sum(Scale(s, c)) == Sum(s) * c
    decreases |s|
  {
    if |s| > 0 {
      var n := |s| - 1;
      var t := Scale(s, c);
      ScalePrefix(s, c, n);
      SumScale(s[..n], c);
      assert Sum(t) == Sum(s[..n]) * c + s[n] * c;
      Distributes(Sum(s[..n]), s[n], c);
    }
  }

  /** A sequence that matches `Scale(s, c)` entry by entry is `Scale(s, c)`. */
  lemma ScaleByEntries(s: seq<real>, c: real, r: seq<real>)
    requires |r| == |s|
    requires forall i :: 0 <= i < |s| ==> r[i] == s[i] * c
    ensures r == Scale(s, c)
  {
    var t := Scale(s, c);
    forall i | 0 <= i < |s|
      ensures r[i] == t[i]
    {
    }
  }

  lemma ScalePrefix(s: seq<real>, c: real, n: nat)
    requires n <= |s|
    ensures Scale(s, c)[..n] == Scale(s[..n], c)
  {
    var t, u := Scale(s, c), Scale(s[..n], c);
    forall i | 0 <= i < n
      ensures t[..n][i] == u[i]
    {
      assert t[i] == s[i] * c;
      assert u[i] == s[..n][i] * c;
    }
  }

  lemma Distributes(a: real, b: real, c: real)
    ensures a * c + b * c == (a + b) * c
  {
  }

  lemma {:induction false} SumConstant(n: nat, c: real)
    ensures Sum(Constant(n, c)) == n as real * c
  {
    if n > 0 {
      assert Constant(n, c)[..n - 1] == Constant(n - 1, c);
      SumConstant(n - 1, c);
    }
  }

  /** Changing one entry by `d` changes the sum by exactly `d`. */
  lemma {:induction false} SumPointUpdate(s: seq<real>, k: nat, d: real)
    requires k < |s|
    ensures Sum(s[k := s[k] + d]) == Sum(s) + d
    decreases |s|
  {
    var n := |s| - 1;
    var t := s[k := s[k] + d];
    if k == n {
      assert t[..n] == s[..n];
    } else {
      assert t[..n] == s[..n][k := s[k] + d];
      SumPointUpdate(s[..n], k, d);
    }
  }

  /** Largest entry of a non-empty sequence. */
  function Max(s: seq<real>): (m: real)
    requires |s| > 0
    ensures forall i :: 0 <= i < |s| ==> s[i] <= m
    ensures exists i :: 0 <= i < |s| && s[i] == m
  {
    if |s| == 1 then s[0]
    else
      var m0 := Max(s[..|s| - 1]);
      if m0 >= s[|s| - 1] then m0 else s[|s| - 1]
  }

  /** Adding a constant to every entry adds it to the maximum. */
  lemma MaxShift(s: seq<real>, c: real)
    requires |s| > 0
    ensures Max(Shift(s, c)) == Max(s) + c
  {
    var m := Max(s);
    var k :| 0 <= k < |s| && s[k] == m;
    var t := Shift(s, c);
    assert t[k] == m + c;
    var mt := Max(t);
    var kt :| 0 <= kt < |t| && t[kt] == mt;
    assert s[kt] <= m;
  }

  /** sum over j < len of v[j] * w[j, col] in a row-major matrix with `cols` columns. */
  function ColumnDot(v: seq<real>, w: seq<real>, cols: nat, col: nat, len: nat): real
    requires len <= |v| && col < cols && len * cols <= |w|
  {
    if len == 0 then 0.0
    else
      FlatInBounds(len - 1, col, len, cols);
      ColumnDot(v, w, cols, col, len - 1) + v[len - 1] * w[Flat(len - 1, col, cols)]
  }

  /**
   sum over j < len of w[row, j] * v[j], where w is a row-major matrix of
   `rows` rows and `cols` columns.
   */
  function RowDot(w: seq<real>, rows: nat, cols: nat, row: nat, v: seq<real>, len: nat): real
    requires row < rows && rows * cols <= |w|
    requires len <= cols && len <= |v|
  {
    if len == 0 then 0.0
    else
      FlatInBounds(row, len - 1, rows, cols);
      RowDot(w, rows, cols, row, v, len - 1) + w[Flat(row, len - 1, cols)] * v[len - 1]
  }

  /** Every in-range (row, col) pair indexes inside a rows * cols buffer. */
  lemma FlatCovers(rows: nat, cols: nat)
    ensures forall a, b :: 0 <= a < rows && 0 <= b < cols ==> Flat(a, b, cols) < rows * cols
  {
    forall a, b | 0 <= a < rows && 0 <= b < cols
      ensures Flat(a, b, cols) < rows * cols
    {
      FlatInBounds(a, b, rows, cols);
    }
  }

  /** Row i of a rows * cols buffer ends inside the buffer. */
  lemma FlatRowFits(i: nat, rows: nat, cols: nat)
    requires i < rows
    ensures Flat(i, 0, cols) + cols <= rows * cols
  {
    FlatIsProduct(i, 0, cols);
    MulMonotone(i + 1, rows, cols);
  }

  /**
   Row i of a row-major matrix is the block of `cols` positions starting at
   Flat(i, 0, cols): earlier rows lie before it, later rows after it, and
   entry (i, b) sits b places into it.
   */
  lemma FlatRowsApart(i: nat, cols: nat)
    ensures forall b :: Flat(i, b, cols) == Flat(i, 0, cols) + b
    ensures forall a, b :: 0 <= a < i && 0 <= b < cols ==> Flat(a, b, cols) < Flat(i, 0, cols)
    ensures forall a, b :: i < a && 0 <= b ==> Flat(i, 0, cols) + cols <= Flat(a, b, cols)
  {
    FlatIsProduct(i, 0, cols);
    forall b: nat
      ensures Flat(i, b, cols) == Flat(i, 0, cols) + b
    {
      FlatIsProduct(i, b, cols);
    }
    forall a, b | 0 <= a < i && 0 <= b < cols
      ensures Flat(a, b, cols) < Flat(i, 0, cols)
    {
      FlatInBounds(a, b, i, cols);
    }
    forall a, b | i < a && 0 <= b
      ensures Flat(i, 0, cols) + cols <= Flat(a, b, cols)
    {
      FlatIsProduct(a, b, cols);
      MulMonotone(i + 1, a, cols);
    }
  }

  /** Subtracting lr * d entrywise lowers the sum by lr times the sum of d. */
  lemma {:induction false} SumStep(b: seq<real>, d: seq<real>, lr: real, r: seq<real>)
    requires |r| == |b| == |d|
    requires forall i :: 0 <= i < |b| ==> r[i] == b[i] - lr * d[i]
    ensures Sum(r) == Sum(b) - lr * Sum(d)
    decreases |b|
  {
    if |b| > 0 {
      var n := |b| - 1;
      SumStep(b[..n], d[..n], lr, r[..n]);
      Distributes(Sum(d[..n]), d[n], lr);
      assert lr * Sum(d) == lr * Sum(d[..n]) + lr * d[n];
    }
  }

  lemma PositiveProduct(a: real, b: real)
    requires a > 0.0 && b > 0.0
    ensures a * b > 0.0
  {
  }

  lemma DivideByMultiplying(a: real, s: real)
    requires s != 0.0
    ensures a / s == a * (1.0 / s)
  {
  }

  /** Multiplying numerator and denominator by the same non-zero factor. */
  lemma CancelFactor(a: real, s: real, k: real, x: real, t: real)
    requires s != 0.0 && k != 0.0
    requires x == a * k && t == s * k
    ensures x * (1.0 / t) == a * (1.0 / s)
  {
  }

  lemma Inverse(s: real)
    requires s > 0.0
    ensures 1.0 / s > 0.0
    ensures s * (1.0 / s) == 1.0
  {
  }
}
