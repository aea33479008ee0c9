/**
 The forward pass: a dense layer over a flat row-major weight matrix,
 followed by an activation, and the max-shifted softmax that turns the
 output scores into probabilities.
 */
module ForwardPass {
  import opened LinearAlgebra
  import opened Activations

  /**
   Reference definition of a dense layer before its activation: entry i is
   sum over j of v[j] * w[j, i], plus b[i], where w has one row per entry of
   v and one column per entry of b.
   */
  function Affine(v: seq<real>, w: seq<real>, b: seq<real>): (r: seq<real>)
    requires |w| == |v| * |b|
    ensures |r| == |b|
  {
    seq(|b|, i requires 0 <= i < |b| => ColumnDot(v, w, |b|, i, |v|) + b[i])
  }

  /**
   One dense layer as the network computes it: for every output i, an
   accumulator runs over the input with index j * cols + i into the weights,
   the bias is added, and the activation is applied. Every entry of the
   previous buffer `prev` is overwritten.
   */
  method Layer(v: seq<real>, w: seq<real>, b: seq<real>, act: real -> real, prev: seq<real>)
    returns (r: seq<real>)
    requires |w| == |v| * |b|
    requires |prev| == |b|
    ensures |r| == |b|
    ensures forall i :: 0 <= i < |b| ==> r[i] == act(Affine(v, w, b)[i])
  {
    var cols := |b|;
    r := prev;
    var i := 0;
    while i < cols
      invariant 0 <= i <= cols
      invariant |r| == cols
      invariant forall k :: 0 <= k < i ==> r[k] == act(Affine(v, w, b)[k])
    {
      var acc := 0.0;
      var j := 0;
      while j < |v|
        invariant 0 <= j <= |v|
        invariant acc == ColumnDot(v, w, cols, i, j)
      {
        FlatInBounds(j, i, |v|, cols);
        acc := acc + v[j] * w[Flat(j, i, cols)];
        j := j + 1;
      }
      acc := acc + b[i];
      r := r[i := act(acc)];
      i := i + 1;
    }
  }

  /** exp(l[i] - m) for every score. */
  function Exps(l: seq<real>, m: real, exp: real -> real): (r: seq<real>)
    ensures |r| == |l|
    ensures forall i :: 0 <= i < |l| ==> r[i] == exp(l[i] - m)
  {
    seq(|l|, i requires 0 <= i < |l| => exp(l[i] - m))
  }

  /** Probabilities: all strictly positive and summing to one. */
  ghost predicate IsDistribution(p: seq<real>)
  {
    && (forall i :: 0 <= i < |p| ==> p[i] > 0.0)
    && Sum(p) == 1.0
  }

  /**
   The softmax as the network computes it: shift every score by the largest
   one, exponentiate, and divide by the sum of the exponentials. The result is
   a probability distribution.
   */
  function Softmax(l: seq<real>, exp: real -> real): (p: seq<real>)
    requires |l| > 0
    requires ExpPositive(exp)
    ensures |p| == |l|
    ensures IsDistribution(p)
  {
    var e := Exps(l, Max(l), exp);
    NormalizeIsDistribution(e);
    Scale(e, 1.0 / Sum(e))
  }

  /** Dividing positive weights by their total gives a distribution. */
  lemma NormalizeIsDistribution(e: seq<real>)
    requires |e| > 0
    requires forall i :: 0 <= i < |e| ==> e[i] > 0.0
    ensures Sum(e) > 0.0
    ensures IsDistribution(Scale(e, 1.0 / Sum(e)))
  {
    SumPositive(e);
    Inverse(Sum(e));
    NormalizeSumsToOne(e, Sum(e));
    ScalePositive(e, 1.0 / Sum(e));
  }

  lemma ScalePositive(e: seq<real>, c: real)
    requires c > 0.0
    requires forall i :: 0 <= i < |e| ==> e[i] > 0.0
    ensures forall i :: 0 <= i < |e| ==> Scale(e, c)[i] > 0.0
  {
    forall i | 0 <= i < |e|
      ensures Scale(e, c)[i] > 0.0
    {
      PositiveProduct(e[i], c);
    }
  }

  lemma NormalizeSumsToOne(e: seq<real>, s: real)
    requires s == Sum(e) && s > 0.0
    ensures Sum(Scale(e, 1.0 / s)) == 1.0
  {
    SumScale(e, 1.0 / s);
    Inverse(s);
  }


  /** The textbook softmax without the max shift: exp(l[i]) / sum of exp(l[k]). */
  function NaiveSoftmax(l: seq<real>, exp: real -> real): (p: seq<real>)
    requires |l| > 0
    requires ExpPositive(exp)
    ensures |p| == |l|
  {
    var e := Exps(l, 0.0, exp);
    SumPositive(e);
    Scale(e, 1.0 / Sum(e))
  }

  /** The running maximum the network folds over the scores. */
  method LargestScore(l: seq<real>) returns (m: real)
    requires |l| > 0
    ensures m == Max(l)
  {
    m := l[0];
    var i := 1;
    while i < |l|
      invariant 1 <= i <= |l|
      invariant m == Max(l[..i])
    {
      assert l[..i + 1][..i] == l[..i];
      if l[i] > m {
        m := l[i];
      }
      i := i + 1;
    }
    assert l[..|l|] == l;
  }

  /**
   The in-place softmax of the network: the scores are replaced by their
   shifted exponentials while their sum is accumulated, then each is divided
   by that sum.
   */
  method SoftmaxInPlace(l: seq<real>, exp: real -> real) returns (p: seq<real>)
    requires |l| > 0
    requires ExpPositive(exp)
    ensures p == Softmax(l, exp)
    ensures IsDistribution(p)
  {
    var m := LargestScore(l);
    var sum;
    p, sum := ExponentiateShifted(l, m, exp);
    SumPositive(p);
    p := Normalize(p, sum);
  }

  /**
   Replaces every score by exp(score - m) and returns the sum of the
   replaced values alongside.
   */
  method ExponentiateShifted(l: seq<real>, m: real, exp: real -> real) returns (p: seq<real>, sum: real)
    ensures p == Exps(l, m, exp)
    ensures sum == Sum(p)
  {
    p := l;
    sum := 0.0;
    var i := 0;
    while i < |p|
      invariant 0 <= i <= |p| == |l|
      invariant forall k :: 0 <= k < i ==> p[k] == exp(l[k] - m)
      invariant forall k :: i <= k < |p| ==> p[k] == l[k]
      invariant sum == Sum(p[..i])
    {
      ghost var done := p[..i];
      p := p[i := exp(p[i] - m)];
      assert p[..i + 1][..i] == done;
      sum := sum + p[i];
      i := i + 1;
    }
    assert p[..|p|] == p;
  }

  /** Divides every entry by `sum` in place. */
  method Normalize(e: seq<real>, sum: real) returns (p: seq<real>)
    requires sum != 0.0
    ensures p == Scale(e, 1.0 / sum)
  {
    p := e;
    var i := 0;
    while i < |p|
      invariant 0 <= i <= |p| == |e|
      invariant forall k :: 0 <= k < i ==> p[k] == e[k] * (1.0 / sum)
      invariant forall k :: i <= k < |p| ==> p[k] == e[k]
    {
      DivideByMultiplying(p[i], sum);
      p := p[i := p[i] / sum];
      i := i + 1;
    }
    ScaleByEntries(e, 1.0 / sum, p);
  }


  /**
   Adding the same constant to every score leaves the probabilities exactly
   unchanged: the max shift absorbs it, with no law of the exponential needed.
   */
  lemma SoftmaxShiftInvariant(l: seq<real>, c: real, exp: real -> real)
    requires |l| > 0
    requires ExpPositive(exp)
    ensures Softmax(Shift(l, c), exp) == Softmax(l, exp)
  {
    ExpsShift(l, c, exp);
  }

  /** The shifted exponentials of the shifted scores are those of the original scores. */
  lemma ExpsShift(l: seq<real>, c: real, exp: real -> real)
    requires |l| > 0
    ensures Exps(Shift(l, c), Max(Shift(l, c)), exp) == Exps(l, Max(l), exp)
  {
    var t := Shift(l, c);
    MaxShift(l, c);
    var m, mt := Max(l), Max(t);
    forall i | 0 <= i < |l|
      ensures t[i] - mt == l[i] - m
    {
    }
    ExpsAgree(t, mt, l, m, exp);
  }

  /** Scores at the same distance from their shifts have the same exponentials. */
  lemma ExpsAgree(t: seq<real>, mt: real, l: seq<real>, m: real, exp: real -> real)
    requires |t| == |l|
    requires forall i :: 0 <= i < |l| ==> t[i] - mt == l[i] - m
    ensures Exps(t, mt, exp) == Exps(l, m, exp)
  {
    var x, y := Exps(t, mt, exp), Exps(l, m, exp);
    forall i | 0 <= i < |l|
      ensures x[i] == y[i]
    {
      assert t[i] - mt == l[i] - m;
    }
  }

  /**
   Given exp(a - b) * exp(b) == exp(a), subtracting the largest score before
   exponentiating yields exactly the textbook softmax.
   */
  lemma StableSoftmaxMatchesNaive(l: seq<real>, exp: real -> real)
    requires |l| > 0
    requires ExpPositive(exp)
    requires ExpShiftLaw(exp)
    ensures Softmax(l, exp) == NaiveSoftmax(l, exp)
  {
    var m := Max(l);
    var e := Exps(l, m, exp);
    ExpsFactor(l, m, exp);
    SumPositive(e);
    NormalizeIgnoresScale(e, exp(m));
  }

  /** Under the shift law, exp(l[i]) == exp(l[i] - m) * exp(m) for every score. */
  lemma ExpsFactor(l: seq<real>, m: real, exp: real -> real)
    requires ExpShiftLaw(exp)
    ensures Exps(l, 0.0, exp) == Scale(Exps(l, m, exp), exp(m))
  {
    var e := Exps(l, m, exp);
    var f := Exps(l, 0.0, exp);
    forall i | 0 <= i < |l|
      ensures f[i] == e[i] * exp(m)
    {
      assert ShiftHolds(exp, l[i], m);
      assert l[i] - 0.0 == l[i];
    }
    ScaleByEntries(e, exp(m), f);
  }

  /** Normalizing positive weights gives the same result after scaling them all by k > 0. */
  lemma NormalizeIgnoresScale(e: seq<real>, k: real)
    requires k > 0.0 && Sum(e) > 0.0
    ensures Sum(Scale(e, k)) != 0.0
    ensures Scale(Scale(e, k), 1.0 / Sum(Scale(e, k))) == Scale(e, 1.0 / Sum(e))
  {
    var f := Scale(e, k);
    SumScale(e, k);
    PositiveProduct(Sum(e), k);
    CancelEntries(e, k, f, Sum(e), Sum(f));
  }

  lemma CancelEntries(e: seq<real>, k: real, f: seq<real>, s: real, t: real)
    requires k != 0.0 && s != 0.0 && t == s * k
    requires f == Scale(e, k)
    ensures Scale(f, 1.0 / t) == Scale(e, 1.0 / s)
  {
    var g := Scale(f, 1.0 / t);
    forall i | 0 <= i < |e|
      ensures g[i] == e[i] * (1.0 / s)
    {
      CancelFactor(e[i], s, k, f[i], t);
    }
    ScaleByEntries(e, 1.0 / s, g);
  }
}
