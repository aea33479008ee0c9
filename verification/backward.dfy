/**
 The backward pass: the softmax/cross-entropy gradient at the output, the
 hidden gradient through tanh, and the plain SGD updates of the weight
 matrices and bias vectors.
 */
module BackwardPass {
  import opened LinearAlgebra

  /**
   Gradient of the loss with respect to the output scores: the predicted
   probabilities with one subtracted at the target. A target outside the
   output range matches no entry, so the probabilities come back unchanged.
   */
  function DeltaProbs(probs: seq<real>, target: nat): (d: seq<real>)
    ensures |d| == |probs|
    ensures target < |probs| ==> d == probs[target := probs[target] - 1.0]
    ensures target >= |probs| ==> d == probs
    ensures target < |probs| ==> Sum(d) == Sum(probs) - 1.0
  {
    var d := seq(|probs|, i requires 0 <= i < |probs| => if i == target then probs[i] - 1.0 else probs[i]);
    if target < |probs| then
      assert d == probs[target := probs[target] + -1.0];
      SumPointUpdate(probs, target, -1.0);
      d
    else
      assert d == probs;
      d
  }

  /** When the probabilities sum to one and the target is in range, the output gradient sums to zero. */
  lemma OutputGradientSumsToZero(probs: seq<real>, target: nat)
    requires target < |probs|
    requires Sum(probs) == 1.0
    ensures Sum(DeltaProbs(probs, target)) == 0.0
  {
  }

  /**
   Reference definition of the hidden gradient: entry i is row i of w2
   dotted with the output gradient, times the tanh derivative 1 - hidden[i]^2.
   */
  function HiddenDelta(w2: seq<real>, d: seq<real>, hidden: seq<real>): (r: seq<real>)
    requires |w2| == |hidden| * |d|
    ensures |r| == |hidden|
  {
    seq(|hidden|, i requires 0 <= i < |hidden| =>
      RowDot(w2, |hidden|, |d|, i, d, |d|) * (1.0 - hidden[i] * hidden[i]))
  }

  /**
   The hidden-gradient loop: for each hidden unit, accumulate
   w2[i * outputSize + j] * d[j] over the outputs, then multiply by
   1 - hidden[i]^2. Reads only w2, d and hidden.
   */
  method HiddenGradient(w2: seq<real>, d: seq<real>, hidden: seq<real>) returns (dh: seq<real>)
    requires |w2| == |hidden| * |d|
    ensures dh == HiddenDelta(w2, d, hidden)
  {
    var rows, cols := |hidden|, |d|;
    dh := Constant(rows, 0.0);
    var i := 0;
    while i < rows
      invariant 0 <= i <= rows
      invariant |dh| == rows
      invariant forall k :: 0 <= k < i ==> dh[k] == HiddenDelta(w2, d, hidden)[k]
    {
      var acc := 0.0;
      var j := 0;
      while j < cols
        invariant 0 <= j <= cols
        invariant acc == RowDot(w2, rows, cols, i, d, j)
      {
        FlatInBounds(i, j, rows, cols);
        acc := acc + w2[Flat(i, j, cols)] * d[j];
        j := j + 1;
      }
      acc := acc * (1.0 - hidden[i] * hidden[i]);
      dh := dh[i := acc];
      i := i + 1;
    }
  }

  /** The SGD step lr * x * y on one weight. */
  function Step(lr: real, x: real, y: real): real
  {
    lr * x * y
  }

  /** The SGD step lr * g on one bias. */
  function BiasStep(lr: real, g: real): real
  {
    lr * g
  }

  /**
   In-place SGD step on a row-major weight matrix with one row per entry of
   u and one column per entry of v: entry (a, b) decreases by lr * u[a] * v[b].
   Every entry is touched exactly once and only with its own pre-update value.
   */
  method RankOneUpdate(w: seq<real>, u: seq<real>, v: seq<real>, lr: real) returns (r: seq<real>)
    requires |w| == |u| * |v|
    ensures |r| == |w|
    ensures forall a, b :: 0 <= a < |u| && 0 <= b < |v| ==>
      Flat(a, b, |v|) < |r| && r[Flat(a, b, |v|)] == w[Flat(a, b, |v|)] - Step(lr, u[a], v[b])
  {
    var rows, cols := |u|, |v|;
    FlatCovers(rows, cols);
    r := w;
    var i := 0;
    while i < rows
      invariant 0 <= i <= rows
      invariant |r| == |w|
      invariant forall a, b :: 0 <= a < i && 0 <= b < cols ==>
        r[Flat(a, b, cols)] == w[Flat(a, b, cols)] - Step(lr, u[a], v[b])
      invariant forall a, b :: i <= a < rows && 0 <= b < cols ==>
        r[Flat(a, b, cols)] == w[Flat(a, b, cols)]
    {
      FlatRowFits(i, rows, cols);
      r := UpdateRow(r, i, u[i], v, lr);
      i := i + 1;
    }
  }

  /** Rows whose factor u[a] is zero come out of the update unchanged. */
  lemma ZeroRowsUnchanged(w: seq<real>, u: seq<real>, v: seq<real>, lr: real, r: seq<real>)
    requires |r| == |w|
    requires forall a, b :: 0 <= a < |u| && 0 <= b < |v| ==>
      Flat(a, b, |v|) < |r| && r[Flat(a, b, |v|)] == w[Flat(a, b, |v|)] - Step(lr, u[a], v[b])
    ensures forall a, b :: 0 <= a < |u| && u[a] == 0.0 && 0 <= b < |v| ==>
      Flat(a, b, |v|) < |r| && r[Flat(a, b, |v|)] == w[Flat(a, b, |v|)]
  {
  }

  /**
   The inner loop of the matrix update: each entry of row i decreases by
   lr * c * v[b]; the rest of the buffer is unchanged.
   */
  method UpdateRow(w: seq<real>, i: nat, c: real, v: seq<real>, lr: real) returns (r: seq<real>)
    requires Flat(i, 0, |v|) + |v| <= |w|
    ensures |r| == |w|
    ensures forall b :: 0 <= b < |v| ==>
      Flat(i, b, |v|) < |r| && r[Flat(i, b, |v|)] == w[Flat(i, b, |v|)] - Step(lr, c, v[b])
    ensures forall a, b :: 0 <= a && a != i && 0 <= b < |v| && Flat(a, b, |v|) < |w| ==>
      r[Flat(a, b, |v|)] == w[Flat(a, b, |v|)]
  {
    FlatRowsApart(i, |v|);
    var base := Flat(i, 0, |v|);
    r := w;
    var j := 0;
    while j < |v|
      invariant 0 <= j <= |v|
      invariant |r| == |w|
      invariant forall b :: 0 <= b < j ==> r[Flat(i, b, |v|)] == w[Flat(i, b, |v|)] - Step(lr, c, v[b])
      invariant forall k :: 0 <= k < |w| && (k < base || base + j <= k) ==> r[k] == w[k]
    {
      r := r[Flat(i, j, |v|) := r[Flat(i, j, |v|)] - Step(lr, c, v[j])];
      j := j + 1;
    }
  }

  /**
   In-place SGD step on a bias vector: entry i decreases by lr * d[i], so
   the total decreases by lr times the total of d.
   */
  method BiasUpdate(b: seq<real>, d: seq<real>, lr: real) returns (r: seq<real>)
    requires |d| == |b|
    ensures |r| == |b|
    ensures forall i :: 0 <= i < |b| ==> r[i] == b[i] - BiasStep(lr, d[i])
    ensures Sum(r) == Sum(b) - lr * Sum(d)
  {
    r := b;
    var i := 0;
    while i < |r|
      invariant 0 <= i <= |r| == |b|
      invariant forall k :: 0 <= k < i ==> r[k] == b[k] - BiasStep(lr, d[k])
      invariant forall k :: i <= k < |r| ==> r[k] == b[k]
    {
      r := r[i := r[i] - BiasStep(lr, d[i])];
      i := i + 1;
    }
    SumStep(b, d, lr, r);
  }
}
