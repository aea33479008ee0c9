# A verified model of the legacy rock-paper-scissors network

This project models `LegacyRPSNetwork`, the hand-written two-layer classifier
in `rps-network/src/legacy_lib.rs`. The network keeps a sliding window of its
last `history_size` inputs, each `input_size` values wide. The window feeds a
tanh hidden layer and then a softmax output layer. Training runs one sample
at a time by plain stochastic gradient descent. All state lives in flat
`Vec<f32>` buffers indexed row-major (`j * hidden_size + i`).

The model keeps that layout. Each buffer is a `seq<real>`. Every loop of the
source except one becomes a Dafny loop over a local copy. The exception is the
output-gradient loop at lines 113-119, which is modelled as the sequence
comprehension `BackwardPass.DeltaProbs`. The index arithmetic `row * cols + col`
is written as the recursive `LinearAlgebra.Flat`, which adds one row width per
row; `LinearAlgebra.FlatIsProduct` proves it equal to `row * cols + col`. The
loops are specified against pure reference definitions:

- `Sum`, `ColumnDot`, `RowDot` and `Max` in `LinearAlgebra`;
- `Push` in `History`;
- `Affine`, `Softmax` and `Exps` in `ForwardPass`;
- `DeltaProbs` and `HiddenDelta` in `BackwardPass`.

`Network` puts the pieces together into the constructor, `forward` and
`backward`. It also states the invariant they keep: the buffers have their
constructor lengths, `probs` is a probability distribution, and every hidden
activation lies strictly between -1 and 1.

Modelling choices:

- `f32` is modelled as `real`. No rounding is modelled.
- `exp` and `tanh` are function-valued parameters. Each proof assumes only the facts it names:
  - `ExpPositive`: `exp(x) > 0`.
  - `TanhBounded`: `-1 < tanh(x) < 1`.
  - `ExpShiftLaw`: `exp(a - b) * exp(b) == exp(a)`. Only the comparison with the textbook softmax uses it.
- The random generator of the constructor is replaced by the sequences of its draws, one per weight. Each weight is `draw * 0.2 - 0.1`, as in the source.
- `label` is a Dafny keyword, so the class label of `backward` is called `target`.
- The weight steps `lr * x * y` and the bias step `lr * g` are written through the small functions `BackwardPass.Step` and `BackwardPass.BiasStep`.

Where the code and its documentation differ, the model follows the code:

- `backward` has no guard on the label. A label of `output_size` or more matches no output, so the output gradient is the probabilities themselves. `DeltaProbs` states this case.
- A short input is not reported as an error. `input[i]` panics at line 74, so `Forward` requires `|input| >= input_size`. Extra values are ignored.
- Nothing stops `backward` from running before any `forward`. It then trains on the constructor's uniform probabilities and zero activations, and `Backward` allows this.

## Model

| member | source | states |
|---|---|---|
| Network.New | rps-network/src/legacy_lib.rs:38-48 | every buffer gets its constructor length; history, b1, hidden and b2 are zero; every weight is draw * 0.2 - 0.1; probs is 1/output_size everywhere; the state satisfies the network invariant |
| Network.InitialWeights | rps-network/src/legacy_lib.rs:39-46 | one weight per draw, each draw * 0.2 - 0.1, and inside [-0.1, 0.1) when the draws lie in [0, 1) |
| Network.UniformIsDistribution | rps-network/src/legacy_lib.rs:48 | output_size copies of 1/output_size are positive and sum to one |
| Network.Forward | rps-network/src/legacy_lib.rs:66-107 | the input is pushed into the window; every hidden unit is tanh of its affine input; probs is the max-shifted softmax of the output scores and a distribution; weights and biases are unchanged; with a bounded tanh the network invariant holds afterwards |
| Network.Backward | rps-network/src/legacy_lib.rs:110-149 | every weight and bias moves by minus lr times its gradient, with both gradients taken from the state before the step; history, hidden and probs are unchanged; w1 rows of zero history values keep their weights; with a target in range and probs summing to one, the total of b2 is unchanged; the network invariant is preserved |
| Network.TanhGateInRange | rps-network/src/legacy_lib.rs:128 | under the network invariant the tanh derivative 1 - h^2 of every hidden unit lies in (0, 1] |
| History.ShiftIn | rps-network/src/legacy_lib.rs:68-75 | new slot i - 1 is old slot i, the last slot holds input[0..input_size], and the buffer is the reference push |
| History.MoveSlot | rps-network/src/legacy_lib.rs:69-71 | one slot is copied over the slot before it, from values not yet overwritten; every other position is unchanged |
| History.WriteSlot | rps-network/src/legacy_lib.rs:73-75 | the slot starting at the given offset receives the input's first values; every position before or after that slot is unchanged |
| History.PushAllWindow | rps-network/src/legacy_lib.rs:68-75 | after k pushes the window is its surviving old contents followed by the k inputs, oldest first |
| History.PushAllFillsWindow | rps-network/src/legacy_lib.rs:68-75 | after history_size pushes the window is exactly the concatenation of those inputs, oldest first |
| History.OneHotWindowExample | rps-network/src/lib.rs:140-152 | pushing [1,0,0], [0,1,0], [0,0,1] into an empty 3-by-3 window gives [1,0,0,0,1,0,0,0,1] |
| ForwardPass.Layer | rps-network/src/legacy_lib.rs:78-95 | entry i is the activation of the bias plus the sum over j of v[j] * w[j * cols + i], for both layers |
| ForwardPass.Softmax | rps-network/src/legacy_lib.rs:98-106 | the max-shifted softmax of non-empty scores is a probability distribution: every entry positive, total one |
| ForwardPass.SoftmaxInPlace | rps-network/src/legacy_lib.rs:98-106 | the three loops (max fold, shifted exponentials with their running sum, division) produce the softmax distribution |
| ForwardPass.LargestScore | rps-network/src/legacy_lib.rs:98 | the fold returns the largest score |
| ForwardPass.ExponentiateShifted | rps-network/src/legacy_lib.rs:99-103 | every score becomes exp(score - max), and the accumulated sum is the total of those values |
| ForwardPass.Normalize | rps-network/src/legacy_lib.rs:104-106 | every entry is divided by the sum |
| ForwardPass.NormalizeIsDistribution | rps-network/src/legacy_lib.rs:104-106 | dividing positive weights by their total gives a distribution |
| ForwardPass.SoftmaxShiftInvariant | rps-network/src/legacy_lib.rs:98-103 | adding a constant to every score leaves the probabilities unchanged, assuming only that exp is positive (the shift law is not needed) |
| ForwardPass.StableSoftmaxMatchesNaive | rps-network/src/legacy_lib.rs:98-106 | under exp(a - b) * exp(b) == exp(a), subtracting the maximum gives exactly the unshifted softmax |
| ForwardPass.NormalizeIgnoresScale | rps-network/src/legacy_lib.rs:104-106 | normalizing gives the same result after all weights are scaled by a positive factor |
| BackwardPass.DeltaProbs | rps-network/src/legacy_lib.rs:112-119 | the output gradient is probs with one subtracted at the target, probs itself for a target out of range, and its sum drops by exactly one when the target is in range |
| BackwardPass.OutputGradientSumsToZero | rps-network/src/legacy_lib.rs:112-119 | if probs sums to one and the target is in range, the output gradient sums to zero |
| BackwardPass.HiddenGradient | rps-network/src/legacy_lib.rs:122-130 | entry i is row i of w2 dotted with the output gradient, times 1 - hidden[i]^2 |
| BackwardPass.RankOneUpdate | rps-network/src/legacy_lib.rs:133-142 | entry (a, b) of the matrix becomes its old value minus lr * u[a] * v[b]; every entry is reached and uses only its own old value |
| BackwardPass.UpdateRow | rps-network/src/legacy_lib.rs:134-136 | one row is updated entrywise, and every entry outside that row is unchanged |
| BackwardPass.ZeroRowsUnchanged | rps-network/src/legacy_lib.rs:138-142 | rows whose factor is zero are not changed by the update |
| BackwardPass.BiasUpdate | rps-network/src/legacy_lib.rs:143-148 | each bias becomes its old value minus lr times its gradient, so the total moves by minus lr times the total gradient |
| LinearAlgebra.FlatIsProduct | rps-network/src/legacy_lib.rs:81 | the row-major position of (row, col) is row * cols + col |
| LinearAlgebra.FlatInBounds | rps-network/src/legacy_lib.rs:91 | the row-major index of an in-range (row, col) lies inside the rows * cols buffer |
| LinearAlgebra.FlatRowsApart | rps-network/src/legacy_lib.rs:135 | row i occupies one block of cols positions, with earlier rows before it and later rows after it |
| LinearAlgebra.Max | rps-network/src/legacy_lib.rs:98 | the maximum bounds every score and is one of them |
| LinearAlgebra.MaxShift | rps-network/src/legacy_lib.rs:98 | shifting every score by c shifts the maximum by c |
| LinearAlgebra.SumScale | rps-network/src/legacy_lib.rs:104-106 | scaling every entry by c scales the sum by c |
| LinearAlgebra.SumStep | rps-network/src/legacy_lib.rs:143-148 | subtracting lr * d entrywise lowers the sum by lr times the sum of d |
| LinearAlgebra.SumConstant | rps-network/src/legacy_lib.rs:48 | n copies of c sum to n * c |
| LinearAlgebra.SumPointUpdate | rps-network/src/legacy_lib.rs:114-115 | changing one entry by d changes the sum by exactly d |

## Left out

- `rps-network/src/lib.rs` (`RPSNetwork`) is not modelled. It is a thin wrapper over `ndarray` operators whose code is not available, and its shapes do not agree with each other. Only the window scenario of its `history` test is restated, as `History.OneHotWindowExample`.
- The learning-direction tests of `lib.rs` are not modelled. They are numeric convergence claims over many floating-point iterations.
- The source computes buffer sizes and indexes in `usize` (lines 38-39, 44, 70, 74), which can overflow. In the model these products are unbounded `nat` values, so overflow is not modelled.
- IEEE-754 `f32` rounding, infinities and NaN are not modelled. Arithmetic is exact over `real`.
- The real `exp` and `tanh` are not modelled. They are parameters, constrained only by the hypotheses each proof names.
- The random generator (`rand::thread_rng`) is not modelled. Its draws are parameters of `Network.New`.
- `wasm_bindgen` exports, the `wee_alloc` allocator and the `probs()` getter (a clone of the buffer) are host plumbing and not modelled.
- Network.New: the model requires every size to be at least 1. With `output_size == 0` the constructor's `1.0 / 0` and the softmax over an empty vector degenerate. With `history_size == 0`, `forward` underflows at line 74.
- ForwardPass.LargestScore: the source folds the maximum from negative infinity. The model starts from the first score instead. For a non-empty vector of finite scores the two agree.
- Network.Forward: the `tanh` bound enters only as a hypothesis of the invariant clause, because the function is a parameter.
