/** The tensor reshapes the heads rely on, over nested sequences: flattening
    (`reshape(x, [-1])` of a batch-major tensor), `boolean_mask` and
    `sequence_mask`. */
module Tensors {
  import opened RealSums

  /** Row-major flattening of a matrix. */
  function Flatten<T>(m: seq<seq<T>>): seq<T>
  {
    if m == [] then [] else Flatten(m[..|m| - 1]) + m[|m| - 1]
  }

  lemma MulStep(n: nat, cols: nat)
    ensures (n + 1) * cols == n * cols + cols
  {
  }

  lemma MulMonotone(a: nat, b: nat, cols: nat)
    requires a < b
    ensures a * cols + cols <= b * cols
  {
    MulStep(a, cols);
    var k := b - (a + 1);
    assert b * cols == (a + 1) * cols + k * cols;
  }

  /** A flattened matrix has rows times columns entries. */
  lemma {:induction false} FlattenLength<T>(m: seq<seq<T>>, cols: nat)
    requires Rectangular(m, cols)
    ensures |Flatten(m)| == |m| * cols
  {
    if m != [] {
      FlattenLength(m[..|m| - 1], cols);
      MulStep(|m| - 1, cols);
    }
  }

  /** Flattening puts entry `(b, p)` of a matrix with `cols` columns at `b * cols + p`. */
  lemma {:induction false} FlattenAt<T>(m: seq<seq<T>>, cols: nat, b: nat, p: nat)
    requires Rectangular(m, cols)
    requires b < |m| && p < cols
    ensures b * cols + p < |Flatten(m)| && Flatten(m)[b * cols + p] == m[b][p]
  {
    var n := |m| - 1;
    var init := m[..n];
    FlattenLength(init, cols);
    MulStep(n, cols);
    assert Flatten(m) == Flatten(init) + m[n];
    if b < n {
      FlattenAt(init, cols, b, p);
      MulMonotone(b, n, cols);
      assert init[b] == m[b];
    }
  }

  /** Euclidean division splits a flat index below `rows * cols` into a row and a column. */
  lemma DivModBound(j: nat, rows: nat, cols: nat)
    requires j < rows * cols
    ensures cols > 0 && j / cols < rows && j % cols < cols && j == (j / cols) * cols + j % cols
  {
    if cols > 0 && j / cols >= rows {
      MulAtLeast(j / cols, rows, cols);
    }
  }

  lemma MulAtLeast(a: nat, b: nat, cols: nat)
    ensures a >= b ==> a * cols >= b * cols
  {
    if a >= b {
      assert a * cols == b * cols + (a - b) * cols;
    }
  }

  /** Flat index `j` of a matrix with `cols` columns is entry `(j / cols, j % cols)`. */
  lemma FlattenAtIndex<T>(m: seq<seq<T>>, cols: nat, j: nat)
    requires Rectangular(m, cols)
    requires j < |m| * cols
    ensures cols > 0 && j / cols < |m| && j % cols < cols
    ensures j < |Flatten(m)| && Flatten(m)[j] == m[j / cols][j % cols]
  {
    DivModBound(j, |m|, cols);
    FlattenAt(m, cols, j / cols, j % cols);
  }

  /** `boolean_mask(xs, mask)`: the entries whose mask is true, in their order. */
  function BooleanMask<T>(xs: seq<T>, mask: seq<bool>): seq<T>
    requires |xs| == |mask|
  {
    if xs == [] then []
    else BooleanMask(xs[..|xs| - 1], mask[..|mask| - 1]) + (if mask[|mask| - 1] then [xs[|xs| - 1]] else [])
  }

  /** The indices where `mask` is true, in increasing order. */
  function Kept(mask: seq<bool>): seq<nat>
  {
    if mask == [] then [] else Kept(mask[..|mask| - 1]) + (if mask[|mask| - 1] then [|mask| - 1] else [])
  }

  /** `Kept` lists exactly the true positions of the mask, each once, in increasing order. */
  lemma KeptIndices(mask: seq<bool>)
    ensures forall k :: 0 <= k < |Kept(mask)| ==> Kept(mask)[k] < |mask| && mask[Kept(mask)[k]]
    ensures forall k, l :: 0 <= k < l < |Kept(mask)| ==> Kept(mask)[k] < Kept(mask)[l]
    ensures forall j :: 0 <= j < |mask| && mask[j] ==> j in Kept(mask)
    ensures |Kept(mask)| <= |mask|
  {
    KeptSound(mask);
    KeptIncreasing(mask);
    KeptComplete(mask);
  }

  /** Every kept index is a true position of the mask. */
  lemma {:induction false} KeptSound(mask: seq<bool>)
    ensures forall k :: 0 <= k < |Kept(mask)| ==> Kept(mask)[k] < |mask| && mask[Kept(mask)[k]]
    ensures |Kept(mask)| <= |mask|
  {
    if mask != [] {
      var init := mask[..|mask| - 1];
      KeptSound(init);
      assert forall j :: 0 <= j < |init| ==> init[j] == mask[j];
    }
  }

  /** The kept indices increase. */
  lemma {:induction false} KeptIncreasing(mask: seq<bool>)
    ensures forall k, l :: 0 <= k < l < |Kept(mask)| ==> Kept(mask)[k] < Kept(mask)[l]
  {
    if mask != [] {
      var init := mask[..|mask| - 1];
      KeptIncreasing(init);
      KeptSound(init);
    }
  }

  /** Every true position of the mask is kept. */
  lemma {:induction false} KeptComplete(mask: seq<bool>)
    ensures forall j :: 0 <= j < |mask| && mask[j] ==> j in Kept(mask)
  {
    if mask != [] {
      var init := mask[..|mask| - 1];
      KeptComplete(init);
      assert forall j :: 0 <= j < |init| ==> init[j] == mask[j];
    }
  }

  /** A true position of the mask is kept, at some index `k`. */
  lemma KeptPosition(mask: seq<bool>, j: nat) returns (k: nat)
    requires j < |mask| && mask[j]
    ensures k < |Kept(mask)| && Kept(mask)[k] == j
  {
    KeptComplete(mask);
    k :| 0 <= k < |Kept(mask)| && Kept(mask)[k] == j;
  }

  /** A boolean mask picks the entries at the kept indices, in order. */
  lemma {:induction false} BooleanMaskAt<T>(xs: seq<T>, mask: seq<bool>)
    requires |xs| == |mask|
    ensures |BooleanMask(xs, mask)| == |Kept(mask)|
    ensures forall k :: 0 <= k < |Kept(mask)| ==> Kept(mask)[k] < |xs| && BooleanMask(xs, mask)[k] == xs[Kept(mask)[k]]
  {
    if xs != [] {
      var n := |xs| - 1;
      BooleanMaskAt(xs[..n], mask[..n]);
      KeptIndices(mask[..n]);
    }
  }

  /** A mask that keeps nothing keeps no entry; one that keeps everything keeps all of them. */
  lemma {:induction false} KeptExtremes(mask: seq<bool>)
    ensures (forall j :: 0 <= j < |mask| ==> !mask[j]) ==> Kept(mask) == []
    ensures (forall j :: 0 <= j < |mask| ==> mask[j]) ==> |Kept(mask)| == |mask|
  {
    if mask != [] {
      KeptExtremes(mask[..|mask| - 1]);
    }
  }

  /** Row `tf.sequence_mask(len, maxlen)`: 1 on the first `len` positions, 0 after. */
  function SequenceMaskRow(len: int, maxLen: nat): (r: seq<real>)
    ensures |r| == maxLen
  {
    seq(maxLen, t requires 0 <= t < maxLen => if t < len then 1.0 else 0.0)
  }
}
