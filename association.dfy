/** The pairwise part of the association head: the features it builds for
    every ordered pair of tokens, and the mask that restricts the association
    loss to pairs of real tokens, flattened in the order of its logits. */
module Association {
  import opened Results
  import opened RealSums
  import opened Tensors

  /** Entry `(i, j)` of the pair mask: `sequence_mask` at `j` times `sequence_mask` at `i`. */
  function PairMask(len: int, maxLen: nat): (r: seq<seq<real>>)
    ensures |r| == maxLen && forall i :: 0 <= i < maxLen ==> |r[i]| == maxLen
  {
    seq(maxLen, i requires 0 <= i < maxLen =>
      seq(maxLen, j requires 0 <= j < maxLen => SequenceMaskRow(len, maxLen)[j] * SequenceMaskRow(len, maxLen)[i]))
  }

  /** A pair counts exactly when both its tokens are real tokens; the mask is symmetric. */
  lemma PairMaskEntries(len: int, maxLen: nat)
    ensures forall i, j :: 0 <= i < maxLen && 0 <= j < maxLen ==>
      PairMask(len, maxLen)[i][j] == (if i < len && j < len then 1.0 else 0.0)
    ensures forall i, j :: 0 <= i < maxLen && 0 <= j < maxLen ==> PairMask(len, maxLen)[i][j] == PairMask(len, maxLen)[j][i]
  {
    var sm := SequenceMaskRow(len, maxLen);
    forall i, j | 0 <= i < maxLen && 0 <= j < maxLen
      ensures PairMask(len, maxLen)[i][j] == (if i < len && j < len then 1.0 else 0.0)
    {
      assert PairMask(len, maxLen)[i][j] == sm[j] * sm[i];
      if i < len && j < len {
        assert sm[j] == 1.0 && sm[i] == 1.0;
      } else if i < len {
        assert sm[j] == 0.0;
      } else {
        assert sm[i] == 0.0;
      }
    }
  }

  /** The number of pairs that count: the square of the number of real tokens. */
  lemma {:induction false} PairMaskTotal(len: int, maxLen: nat)
    requires 0 <= len <= maxLen
    ensures Sum2(PairMask(len, maxLen)) == (len as real) * (len as real)
  {
    var m := PairMask(len, maxLen);
    PairMaskEntries(len, maxLen);
    var rs := RowSums(m);
    forall i | 0 <= i < maxLen ensures rs[i] == (if i < len then len as real else 0.0) {
      SumFrom(m[i], len);
      SumConstant(m[i][..len], if i < len then 1.0 else 0.0);
    }
    SumFrom(rs, len);
    SumConstant(rs[..len], len as real);
  }

  /** The per-batch pair masks, flattened in the order `((b * maxLen) + i) * maxLen + j` of the association logits. */
  function FlatPairMask(lengths: seq<int>, maxLen: nat): seq<real>
  {
    Flatten(Flatten(seq(|lengths|, b requires 0 <= b < |lengths| => PairMask(lengths[b], maxLen))))
  }

  /** Flat entry `((b * maxLen) + i) * maxLen + j` weighs pair `(i, j)` of row `b`. */
  lemma FlatPairMaskAt(lengths: seq<int>, maxLen: nat, b: nat, i: nat, j: nat)
    requires b < |lengths| && i < maxLen && j < maxLen
    ensures (b * maxLen + i) * maxLen + j < |FlatPairMask(lengths, maxLen)|
    ensures FlatPairMask(lengths, maxLen)[(b * maxLen + i) * maxLen + j] == (if i < lengths[b] && j < lengths[b] then 1.0 else 0.0)
  {
    var masks := seq(|lengths|, b requires 0 <= b < |lengths| => PairMask(lengths[b], maxLen));
    FlattenAt(masks, maxLen, b, i);
    FlattenLength(masks, maxLen);
    RowsOfMasks(masks, maxLen);
    FlattenAt(Flatten(masks), maxLen, b * maxLen + i, j);
    PairMaskEntries(lengths[b], maxLen);
  }

  /** The rows of stacked pair masks all have `maxLen` entries. */
  lemma {:induction false} RowsOfMasks(masks: seq<seq<seq<real>>>, maxLen: nat)
    requires forall b :: 0 <= b < |masks| ==> Rectangular(masks[b], maxLen) && |masks[b]| == maxLen
    ensures Rectangular(Flatten(masks), maxLen)
  {
    if masks != [] {
      RowsOfMasks(masks[..|masks| - 1], maxLen);
    }
  }

  /** `a - b` at pair `(i, j)`: `h[j] - h[i]`. */
  function PairDifference(head: seq<seq<real>>, i: nat, j: nat): (r: seq<real>)
    requires i < |head| && j < |head| && |head[i]| == |head[j]|
    ensures |r| == |head[i]|
  {
    seq(|head[i]|, d requires 0 <= d < |head[i]| => head[j][d] - head[i][d])
  }

  /** `a * b` at pair `(i, j)`: `h[j] * h[i]`. */
  function PairProduct(head: seq<seq<real>>, i: nat, j: nat): (r: seq<real>)
    requires i < |head| && j < |head| && |head[i]| == |head[j]|
    ensures |r| == |head[i]|
  {
    seq(|head[i]|, d requires 0 <= d < |head[i]| => head[j][d] * head[i][d])
  }

  /** The features of the ordered pair `(i, j)`: the difference, the
      product, then `h[j]` and `h[i]` themselves. */
  function PairFeatures(head: seq<seq<real>>, i: nat, j: nat): seq<real>
    requires i < |head| && j < |head| && |head[i]| == |head[j]|
  {
    PairDifference(head, i, j) + PairProduct(head, i, j) + head[j] + head[i]
  }

  /** The features of a pair are four head-width blocks, the width the
      following reshape to `[-1, nx * 4]` expects: entry `d` of each block is
      `h[j][d] - h[i][d]`, `h[j][d] * h[i][d]`, `h[j][d]` and `h[i][d]`. */
  lemma PairFeaturesLayout(head: seq<seq<real>>, i: nat, j: nat)
    requires i < |head| && j < |head| && |head[i]| == |head[j]|
    ensures var f, nx := PairFeatures(head, i, j), |head[i]|;
      && |f| == 4 * nx
      && forall d :: 0 <= d < nx ==>
        && f[d] == head[j][d] - head[i][d]
        && f[nx + d] == head[j][d] * head[i][d]
        && f[2 * nx + d] == head[j][d]
        && f[3 * nx + d] == head[i][d]
  {
  }

  /** The pair features of one example, one row per ordered pair in the order
      the reshape to `[-1, nx * 4]` lists them. `a - b` and `a * b` span the
      hidden width on both pair axes, while the tiled copies span
      `config.max_length` on one of them, so the concat fails (`None`) unless
      the hidden width is `maxLen`. */
  function ExampleFeatures(head: seq<seq<real>>, nx: nat, maxLen: nat): (r: Option<seq<seq<real>>>)
    requires Rectangular(head, nx)
    ensures r.Some? <==> |head| == maxLen
  {
    if |head| != maxLen then None
    else Some(Flatten(seq(maxLen, i requires 0 <= i < maxLen =>
      seq(maxLen, j requires 0 <= j < maxLen => PairFeatures(head, i, j)))))
  }

  /** When the widths agree there are `maxLen * maxLen` feature rows, and row
      `i * maxLen + j` holds the `4 * nx` features of pair `(i, j)`: the index
      `FlatPairMaskAt` gives that pair's mask weight within its example. */
  lemma ExampleFeaturesAt(head: seq<seq<real>>, nx: nat, maxLen: nat, i: nat, j: nat)
    requires Rectangular(head, nx) && |head| == maxLen && i < maxLen && j < maxLen
    ensures var r := ExampleFeatures(head, nx, maxLen).value;
      && |r| == maxLen * maxLen
      && i * maxLen + j < |r|
      && r[i * maxLen + j] == PairFeatures(head, i, j)
      && |r[i * maxLen + j]| == 4 * nx
  {
    var m := seq(maxLen, i requires 0 <= i < maxLen =>
      seq(maxLen, j requires 0 <= j < maxLen => PairFeatures(head, i, j)));
    FlattenLength(m, maxLen);
    FlattenAt(m, maxLen, i, j);
    PairFeaturesLayout(head, i, j);
  }
}
