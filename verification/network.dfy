/**
 The legacy rock-paper-scissors network: a history window of the last
 `historySize` inputs feeds a tanh hidden layer and a softmax output layer,
 trained one sample at a time by stochastic gradient descent. All state
 lives in flat row-major buffers.
 */
module Network {
  import opened LinearAlgebra
  import opened Activations
  import opened History
  import opened ForwardPass
  import opened BackwardPass

  /**
   The network state. `w1` has one row per history value and one column per
   hidden unit; `w2` has one row per hidden unit and one column per output.
   */
  datatype Net = Net(
    inputSize: nat, historySize: nat, hiddenSize: nat, outputSize: nat,
    history: seq<real>,
    w1: seq<real>, b1: seq<real>, hidden: seq<real>,
    w2: seq<real>, b2: seq<real>, probs: seq<real>)
  {
    /** Every buffer has the length the constructor gives it. */
    predicate Valid()
    {
      && inputSize >= 1 && historySize >= 1 && hiddenSize >= 1 && outputSize >= 1
      && |history| == inputSize * historySize
      && |w1| == inputSize * historySize * hiddenSize
      && |b1| == hiddenSize && |hidden| == hiddenSize
      && |w2| == hiddenSize * outputSize
      && |b2| == outputSize && |probs| == outputSize
    }

    /**
     The state every public operation keeps: the buffers have their lengths,
     the probabilities form a distribution, and every hidden activation lies
     strictly between -1 and 1.
     */
    ghost predicate Invariant()
    {
      && Valid()
      && IsDistribution(probs)
      && (forall i :: 0 <= i < |hidden| ==> -1.0 < hidden[i] < 1.0)
    }
  }

  /** Draws of a uniform generator on [0, 1). */
  predicate UnitDraws(draws: seq<real>)
  {
    forall i :: 0 <= i < |draws| ==> 0.0 <= draws[i] < 1.0
  }

  /** One random weight as the constructor scales it from a draw. */
  function InitialWeights(draws: seq<real>): (w: seq<real>)
    ensures |w| == |draws|
    ensures forall i :: 0 <= i < |draws| ==> w[i] == draws[i] * 0.2 - 0.1
    ensures UnitDraws(draws) ==> forall i :: 0 <= i < |w| ==> -0.1 <= w[i] < 0.1
  {
    seq(|draws|, i requires 0 <= i < |draws| => draws[i] * 0.2 - 0.1)
  }

  /**
   The constructor. The random generator is replaced by the sequences of its
   draws, one per weight, in the order the weights are filled.
   */
  function New(inputSize: nat, historySize: nat, hiddenSize: nat, outputSize: nat,
               draws1: seq<real>, draws2: seq<real>): (n: Net)
    requires inputSize >= 1 && historySize >= 1 && hiddenSize >= 1 && outputSize >= 1
    requires |draws1| == inputSize * historySize * hiddenSize
    requires |draws2| == hiddenSize * outputSize
    ensures n.Valid()
    ensures n.inputSize == inputSize && n.historySize == historySize
    ensures n.hiddenSize == hiddenSize && n.outputSize == outputSize
    ensures forall k :: 0 <= k < |n.history| ==> n.history[k] == 0.0
    ensures forall k :: 0 <= k < hiddenSize ==> n.b1[k] == 0.0 && n.hidden[k] == 0.0
    ensures forall k :: 0 <= k < outputSize ==> n.b2[k] == 0.0
    ensures forall k :: 0 <= k < |draws1| ==> n.w1[k] == draws1[k] * 0.2 - 0.1
    ensures forall k :: 0 <= k < |draws2| ==> n.w2[k] == draws2[k] * 0.2 - 0.1
    ensures forall k :: 0 <= k < outputSize ==> n.probs[k] == 1.0 / outputSize as real
    ensures n.Invariant()
  {
    var probs := Constant(outputSize, 1.0 / outputSize as real);
    UniformIsDistribution(outputSize);
    Net(inputSize, historySize, hiddenSize, outputSize,
        Constant(inputSize * historySize, 0.0),
        InitialWeights(draws1), Constant(hiddenSize, 0.0), Constant(hiddenSize, 0.0),
        InitialWeights(draws2), Constant(outputSize, 0.0), probs)
  }

  /** n copies of 1/n form a distribution. */
  lemma UniformIsDistribution(n: nat)
    requires n >= 1
    ensures IsDistribution(Constant(n, 1.0 / n as real))
  {
    var c := 1.0 / n as real;
    SumConstant(n, c);
    Inverse(n as real);
  }

  /** Under the invariant, the tanh derivative 1 - h^2 of every hidden unit lies in (0, 1]. */
  lemma TanhGateInRange(n: Net, i: nat)
    requires n.Invariant()
    requires i < n.hiddenSize
    ensures 0.0 < 1.0 - n.hidden[i] * n.hidden[i] <= 1.0
  {
    var h := n.hidden[i];
    if h >= 0.0 {
      assert h * h <= h;
    } else {
      assert h * h <= -h;
    }
  }

  /**
   One forward pass: the input is pushed into the history window, the
   hidden layer is recomputed through tanh, and the output scores pass
   through the max-shifted softmax. The weights and biases are untouched.
   */
  method Forward(net: Net, input: seq<real>, exp: real -> real, tanh: real -> real)
    returns (next: Net)
    requires net.Valid()
    requires |input| >= net.inputSize
    requires ExpPositive(exp)
    ensures next.Valid()
    ensures next == net.(history := next.history, hidden := next.hidden, probs := next.probs)
    ensures next.history == Push(net.history, input, net.inputSize)
    ensures forall i :: 0 <= i < net.hiddenSize ==>
      next.hidden[i] == tanh(Affine(next.history, net.w1, net.b1)[i])
    ensures next.probs == Softmax(Affine(next.hidden, net.w2, net.b2), exp)
    ensures IsDistribution(next.probs)
    ensures TanhBounded(tanh) ==> next.Invariant()
  {
    var history := ShiftIn(net.history, input, net.inputSize, net.historySize);
    var hidden := Layer(history, net.w1, net.b1, tanh, net.hidden);
    var scores := Layer(hidden, net.w2, net.b2, x => x, net.probs);
    assert scores == Affine(hidden, net.w2, net.b2);
    var probs := SoftmaxInPlace(scores, exp);
    next := net.(history := history, hidden := hidden, probs := probs);
  }

  /**
   One training step on the sample whose answer is `target`: the output
   gradient, the hidden gradient from the weights as they were before the
   step, then the SGD updates of both weight matrices and both bias vectors.
   History, activations and probabilities are untouched.
   */
  method Backward(net: Net, target: nat, lr: real) returns (next: Net)
    requires net.Valid()
    ensures next.Valid()
    ensures next == net.(w1 := next.w1, b1 := next.b1, w2 := next.w2, b2 := next.b2)
    ensures var d := DeltaProbs(net.probs, target);
      forall a, b :: 0 <= a < net.hiddenSize && 0 <= b < net.outputSize ==>
        Flat(a, b, net.outputSize) < |next.w2| &&
        next.w2[Flat(a, b, net.outputSize)] == net.w2[Flat(a, b, net.outputSize)] - Step(lr, net.hidden[a], d[b])
    ensures var dh := HiddenDelta(net.w2, DeltaProbs(net.probs, target), net.hidden);
      forall a, b :: 0 <= a < |net.history| && 0 <= b < net.hiddenSize ==>
        Flat(a, b, net.hiddenSize) < |next.w1| &&
        next.w1[Flat(a, b, net.hiddenSize)] == net.w1[Flat(a, b, net.hiddenSize)] - Step(lr, net.history[a], dh[b])
    ensures forall i :: 0 <= i < net.hiddenSize ==>
      next.b1[i] == net.b1[i] - BiasStep(lr, HiddenDelta(net.w2, DeltaProbs(net.probs, target), net.hidden)[i])
    ensures forall i :: 0 <= i < net.outputSize ==>
      next.b2[i] == net.b2[i] - BiasStep(lr, DeltaProbs(net.probs, target)[i])
    ensures forall a, b :: 0 <= a < |net.history| && net.history[a] == 0.0 && 0 <= b < net.hiddenSize ==>
      Flat(a, b, net.hiddenSize) < |next.w1| &&
      next.w1[Flat(a, b, net.hiddenSize)] == net.w1[Flat(a, b, net.hiddenSize)]
    ensures target < net.outputSize && Sum(net.probs) == 1.0 ==> Sum(next.b2) == Sum(net.b2)
    ensures net.Invariant() ==> next.Invariant()
  {
    var d := DeltaProbs(net.probs, target);
    var dh := HiddenGradient(net.w2, d, net.hidden);
    var w2 := RankOneUpdate(net.w2, net.hidden, d, lr);
    var w1 := RankOneUpdate(net.w1, net.history, dh, lr);
    ZeroRowsUnchanged(net.w1, net.history, dh, lr, w1);
    var b1 := BiasUpdate(net.b1, dh, lr);
    var b2 := BiasUpdate(net.b2, d, lr);
    if target < net.outputSize && Sum(net.probs) == 1.0 {
      OutputGradientSumsToZero(net.probs, target);
    }
    next := net.(w1 := w1, b1 := b1, w2 := w2, b2 := b2);
  }
}
