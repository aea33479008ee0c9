/**
 The sliding history window: `historySize` input vectors of `inputSize`
 values each, stored oldest first in one flat buffer.
 */
module History {
  import opened LinearAlgebra

  /** Reference definition of one push: drop the oldest slot, append the new input's first `n` values. */
  function Push(history: seq<real>, input: seq<real>, n: nat): (r: seq<real>)
    requires n <= |history| && n <= |input|
    ensures |r| == |history|
  {
    history[n..] + input[..n]
  }

  /**
   The in-place shift the network performs at the start of every forward
   pass: slot i moves to slot i - 1 for 1 <= i < historySize, then the input
   is written into the last slot. Values past `input[inputSize - 1]` are ignored.
   */
  method ShiftIn(history: seq<real>, input: seq<real>, inputSize: nat, historySize: nat)
    returns (h: seq<real>)
    requires historySize >= 1
    requires |history| == inputSize * historySize
    requires |input| >= inputSize
    ensures |h| == |history|
    ensures forall k :: 0 <= k < |h| - inputSize ==> h[k] == history[k + inputSize]
    ensures forall j :: 0 <= j < inputSize ==> h[|h| - inputSize + j] == input[j]
    ensures h == Push(history, input, inputSize)
  {
    var n := inputSize;
    h := history;
    var i := 1;
    var lo := 0;  // flat index of slot i - 1
    while i < historySize
      invariant 1 <= i <= historySize
      invariant lo == (i - 1) * n
      invariant |h| == |history|
      invariant forall k :: 0 <= k < lo ==> h[k] == history[k + n]
      invariant forall k :: lo <= k < |h| ==> h[k] == history[k]
    {
      assert lo + n + n <= |h| by {
        MulMonotone(i + 1, historySize, n);
        assert (i + 1) * n == (i - 1) * n + n + n;
      }
      h := MoveSlot(h, lo, n);
      i := i + 1;
      lo := lo + n;
    }
    assert lo == |h| - n by {
      assert lo + n == historySize * n;
    }
    h := WriteSlot(h, lo, input, n);
    PushBySlots(history, input, n, h);
  }

  /** One step of the shift: the slot starting at `lo + n` is copied over the slot starting at `lo`. */
  method MoveSlot(h: seq<real>, lo: nat, n: nat) returns (r: seq<real>)
    requires lo + n + n <= |h|
    ensures |r| == |h|
    ensures forall k :: lo <= k < lo + n ==> r[k] == h[k + n]
    ensures forall k :: 0 <= k < |h| && (k < lo || lo + n <= k) ==> r[k] == h[k]
  {
    r := h;
    var j := 0;
    while j < n
      invariant 0 <= j <= n
      invariant |r| == |h|
      invariant forall k :: lo <= k < lo + j ==> r[k] == h[k + n]
      invariant forall k :: 0 <= k < |h| && (k < lo || lo + j <= k) ==> r[k] == h[k]
    {
      r := r[lo + j := r[lo + n + j]];
      j := j + 1;
    }
  }

  /** The input's first `n` values are written into the slot starting at `lo`; every position outside that slot is unchanged. */
  method WriteSlot(h: seq<real>, lo: nat, input: seq<real>, n: nat) returns (r: seq<real>)
    requires lo + n <= |h| && n <= |input|
    ensures |r| == |h|
    ensures forall j :: 0 <= j < n ==> r[lo + j] == input[j]
    ensures forall k :: 0 <= k < lo ==> r[k] == h[k]
    ensures forall k :: lo + n <= k < |h| ==> r[k] == h[k]
  {
    r := h;
    var i := 0;
    while i < n
      invariant 0 <= i <= n
      invariant |r| == |h|
      invariant forall k :: 0 <= k < lo ==> r[k] == h[k]
      invariant forall k :: lo + n <= k < |h| ==> r[k] == h[k]
      invariant forall j :: 0 <= j < i ==> r[lo + j] == input[j]
    {
      r := r[lo + i := input[i]];
      i := i + 1;
    }
  }

  /** A buffer that agrees with `Push` slot by slot is the pushed buffer. */
  lemma PushBySlots(history: seq<real>, input: seq<real>, n: nat, h: seq<real>)
    requires n <= |history| && n <= |input| && |h| == |history|
    requires forall k :: 0 <= k < |h| - n ==> h[k] == history[k + n]
    requires forall j :: 0 <= j < n ==> h[|h| - n + j] == input[j]
    ensures h == Push(history, input, n)
  {
    var p := Push(history, input, n);
    forall k | 0 <= k < |h|
      ensures h[k] == p[k]
    {
      if k >= |h| - n {
        assert h[|h| - n + (k - (|h| - n))] == input[k - (|h| - n)];
      }
    }
  }

  /** The first `n` values of every input, concatenated oldest first. */
  function Concat(inputs: seq<seq<real>>, n: nat): (r: seq<real>)
    requires forall k :: 0 <= k < |inputs| ==> n <= |inputs[k]|
    ensures |r| == |inputs| * n
  {
    if |inputs| == 0 then [] else inputs[0][..n] + Concat(inputs[1..], n)
  }

  /** The buffer after pushing every input in order. */
  function PushAll(history: seq<real>, inputs: seq<seq<real>>, n: nat): (r: seq<real>)
    requires n <= |history|
    requires forall k :: 0 <= k < |inputs| ==> n <= |inputs[k]|
    ensures |r| == |history|
    decreases |inputs|
  {
    if |inputs| == 0 then history else PushAll(Push(history, inputs[0], n), inputs[1..], n)
  }

  /**
   After k pushes into a buffer of at least k slots, the buffer holds its
   surviving old contents followed by the k inputs, oldest first.
   */
  lemma {:induction false} PushAllWindow(history: seq<real>, inputs: seq<seq<real>>, n: nat)
    requires n <= |history|
    requires |inputs| * n <= |history|
    requires forall k :: 0 <= k < |inputs| ==> n <= |inputs[k]|
    ensures PushAll(history, inputs, n) == history[|inputs| * n..] + Concat(inputs, n)
    decreases |inputs|
  {
    var m := |inputs|;
    if m > 0 {
      var p := Push(history, inputs[0], n);
      var rest := inputs[1..];
      assert (m - 1) * n + n == m * n;
      PushAllWindow(p, rest, n);
      calc {
        PushAll(history, inputs, n);
        PushAll(p, rest, n);
        p[(m - 1) * n..] + Concat(rest, n);
        { assert p[(m - 1) * n..] == history[m * n..] + inputs[0][..n]; }
        (history[m * n..] + inputs[0][..n]) + Concat(rest, n);
        history[m * n..] + (inputs[0][..n] + Concat(rest, n));
        history[m * n..] + Concat(inputs, n);
      }
    }
  }

  /** After historySize pushes the window holds exactly those inputs, oldest first. */
  lemma PushAllFillsWindow(history: seq<real>, inputs: seq<seq<real>>, inputSize: nat, historySize: nat)
    requires historySize >= 1
    requires |history| == inputSize * historySize
    requires |inputs| == historySize
    requires forall k :: 0 <= k < |inputs| ==> inputSize <= |inputs[k]|
    ensures PushAll(history, inputs, inputSize) == Concat(inputs, inputSize)
  {
    MulMonotone(1, historySize, inputSize);
    PushAllWindow(history, inputs, inputSize);
  }

  /** Three one-hot pushes into an empty three-slot window of width three. */
  lemma OneHotWindowExample()
    ensures PushAll(Constant(9, 0.0), [[1.0, 0.0, 0.0], [0.0, 1.0, 0.0], [0.0, 0.0, 1.0]], 3)
         == [1.0, 0.0, 0.0, 0.0, 1.0, 0.0, 0.0, 0.0, 1.0]
  {
    var inputs := [[1.0, 0.0, 0.0], [0.0, 1.0, 0.0], [0.0, 0.0, 1.0]];
    PushAllFillsWindow(Constant(9, 0.0), inputs, 3, 3);
    assert Concat(inputs[2..], 3) == [0.0, 0.0, 1.0];
    assert Concat(inputs[1..], 3) == [0.0, 1.0, 0.0, 0.0, 0.0, 1.0];
  }
}
