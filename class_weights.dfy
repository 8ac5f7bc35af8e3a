/** Class-dependent loss multipliers of the classification heads: the
    single-label weighting (one weight per example, from its target row) and
    the multi-label weighting (one weight per example and class). Targets are
    real matrices, as after the float cast the source applies. */
module ClassWeights {
  import opened Results
  import opened RealSums

  /** The weight an example gets from its target row: class weights dotted with the row. */
  function ExampleWeights(classWeights: seq<real>, targets: seq<seq<real>>): (r: seq<real>)
    requires Rectangular(targets, |classWeights|)
    ensures |r| == |targets|
  {
    seq(|targets|, i requires 0 <= i < |targets| =>
      Sum(seq(|classWeights|, j requires 0 <= j < |classWeights| => classWeights[j] * targets[i][j])))
  }

  /** Row `row` is the one-hot encoding of class `c`. */
  predicate OneHot(row: seq<real>, c: nat)
  {
    c < |row| && forall j :: 0 <= j < |row| ==> row[j] == if j == c then 1.0 else 0.0
  }

  /** With one-hot targets, each example is weighted by the weight of its own class. */
  lemma ExampleWeightOneHot(classWeights: seq<real>, targets: seq<seq<real>>, i: nat, c: nat)
    requires Rectangular(targets, |classWeights|)
    requires i < |targets| && OneHot(targets[i], c)
    ensures ExampleWeights(classWeights, targets)[i] == classWeights[c]
  {
    var terms := seq(|classWeights|, j requires 0 <= j < |classWeights| => classWeights[j] * targets[i][j]);
    SumSingle(terms, c);
  }

  /** Weights multiplied by their count over their sum, so that they average to
      one. An empty batch stays empty; a non-empty batch whose weights sum to
      zero gives `None`, because the float division leaves infinities or NaN. */
  function Normalize(w: seq<real>): (r: Option<seq<real>>)
    ensures r.None? <==> w != [] && Sum(w) == 0.0
    ensures r.Some? ==> |r.value| == |w|
  {
    if w == [] then Some([])
    else if Sum(w) == 0.0 then None
    else Some(Scale(w, (|w| as real) / Sum(w)))
  }

  /** Normalisation fails only on a zero sum over a non-empty batch; otherwise
      it keeps the ratios between weights and makes them sum to their count. */
  lemma NormalizeSumsToCount(w: seq<real>)
    ensures Normalize(w).None? <==> w != [] && Sum(w) == 0.0
    ensures Normalize(w).Some? ==> |Normalize(w).value| == |w|
    ensures Normalize(w).Some? ==> Sum(Normalize(w).value) == |w| as real
    ensures Normalize(w).Some? ==> forall i :: 0 <= i < |w| ==> Normalize(w).value[i] * Sum(w) == (|w| as real) * w[i]
  {
    if w != [] && Sum(w) != 0.0 {
      var c := (|w| as real) / Sum(w);
      SumScale(w, c);
      assert c * Sum(w) == |w| as real;
    }
  }

  /** Single-label weighting as the function intends it: each example's loss
      times its own normalised weight. Without class weights the losses are
      returned unchanged. */
  function ApplyClassWeight(losses: seq<real>, targets: seq<seq<real>>, classWeights: Option<seq<real>>): (r: Option<seq<real>>)
    requires |losses| == |targets|
    requires classWeights.Some? ==> Rectangular(targets, |classWeights.value|)
    ensures r.Some? ==> |r.value| == |losses|
  {
    match classWeights
    case None => Some(losses)
    case Some(cw) =>
      match Normalize(ExampleWeights(cw, targets))
      case None => None
      case Some(w) => Some(seq(|losses|, i requires 0 <= i < |losses| => losses[i] * w[i]))
  }

  /** With one-hot targets of classes `c` and positive class weights, example
      `i` gets raw weight `cw[c_i]`, their total is positive, and the weighting
      succeeds; `NormalizeSumsToCount` then makes the applied weights
      proportional to `cw[c_i]` and sum to the batch size. */
  lemma ApplyClassWeightOneHot(losses: seq<real>, targets: seq<seq<real>>, cw: seq<real>, classes: seq<nat>)
    requires |losses| == |targets| == |classes| > 0
    requires Rectangular(targets, |cw|)
    requires forall i :: 0 <= i < |targets| ==> OneHot(targets[i], classes[i])
    requires forall j :: 0 <= j < |cw| ==> cw[j] > 0.0
    ensures forall i :: 0 <= i < |classes| ==> classes[i] < |cw| && ExampleWeights(cw, targets)[i] == cw[classes[i]]
    ensures Sum(ExampleWeights(cw, targets)) > 0.0
    ensures ApplyClassWeight(losses, targets, Some(cw)).Some?
  {
    var raw := ExampleWeights(cw, targets);
    forall i | 0 <= i < |raw| ensures classes[i] < |cw| && raw[i] == cw[classes[i]] && raw[i] > 0.0 {
      ExampleWeightOneHot(cw, targets, i, classes[i]);
    }
    SumPositive(raw);
  }

  lemma {:induction false} SumPositive(s: seq<real>)
    requires |s| > 0
    requires forall i :: 0 <= i < |s| ==> s[i] > 0.0
    ensures Sum(s) > 0.0
  {
    SumNonNegative(s[..|s| - 1]);
  }

  /** Without class weights both weighting functions leave the losses alone. */
  lemma NoClassWeightsUnchanged(losses: seq<real>, targets: seq<seq<real>>, mlLosses: seq<seq<real>>)
    requires |losses| == |targets|
    requires |mlLosses| == |targets|
    ensures ApplyClassWeight(losses, targets, None) == Some(losses)
    ensures ApplyMultilabelClassWeight(mlLosses, targets, None) == Some(mlLosses)
  {
  }

  // ---------------------------------------------------------------------
  // The single-label weighting as written: the losses (one per example) are
  // multiplied by the weights expanded to a column, which broadcasts to a
  // batch-by-batch matrix whose row `i` is every loss times weight `i`.
  // ---------------------------------------------------------------------

  /** The broadcast product `losses * expand_dims(w, 1)`: entry `(i, j)` is `losses[j] * w[i]`. */
  function OuterScaled(losses: seq<real>, w: seq<real>): (r: seq<seq<real>>)
    ensures |r| == |w|
    ensures forall i :: 0 <= i < |w| ==> r[i] == Scale(losses, w[i])
  {
    seq(|w|, i requires 0 <= i < |w| => Scale(losses, w[i]))
  }

  datatype Weighted = Unweighted(losses: seq<real>) | Broadcast(matrix: seq<seq<real>>) | NonFinite

  function ApplyClassWeightAsWritten(losses: seq<real>, targets: seq<seq<real>>, classWeights: Option<seq<real>>): (r: Weighted)
    requires |losses| == |targets|
    requires classWeights.Some? ==> Rectangular(targets, |classWeights.value|)
    ensures r.Unweighted? <==> classWeights.None?
    ensures r.Broadcast? ==> |r.matrix| == |losses| && Rectangular(r.matrix, |losses|)
  {
    match classWeights
    case None => Unweighted(losses)
    case Some(cw) =>
      match Normalize(ExampleWeights(cw, targets))
      case None => NonFinite
      case Some(w) => Broadcast(OuterScaled(losses, w))
  }

  lemma OuterRowSum(losses: seq<real>, w: seq<real>, i: nat)
    requires i < |w|
    ensures RowSums(OuterScaled(losses, w))[i] == Sum(losses) * w[i]
  {
    var c, total := w[i], Sum(losses);
    SumScale(losses, c);
    MulCommutes(c, total);
  }

  lemma MulCommutes(x: real, y: real)
    ensures x * y == y * x
  {
  }

  /** Row `i` of the broadcast matrix sums to weight `i` times the sum of the losses. */
  lemma OuterScaledSum(losses: seq<real>, w: seq<real>)
    ensures Sum2(OuterScaled(losses, w)) == Sum(Scale(w, Sum(losses)))
  {
    forall i | 0 <= i < |w| ensures RowSums(OuterScaled(losses, w))[i] == Scale(w, Sum(losses))[i] {
      OuterRowSum(losses, w, i);
    }
    assert RowSums(OuterScaled(losses, w)) == Scale(w, Sum(losses));
  }

  lemma ScaledTotal(w: seq<real>, l: seq<real>, n: real)
    requires Sum(w) == n
    ensures Sum(Scale(w, Sum(l))) == Sum(l) * n
  {
    SumScale(w, Sum(l));
  }

  /** Weights summing to the batch size leave the broadcast total at the batch size times the loss total. */
  lemma OuterScaledTotal(losses: seq<real>, w: seq<real>)
    requires Sum(w) == |losses| as real
    ensures Sum2(OuterScaled(losses, w)) == Sum(losses) * (|losses| as real)
  {
    OuterScaledSum(losses, w);
    ScaledTotal(w, losses, |losses| as real);
  }

  /** As written, the weights cancel out of the mean: the entries of the
      broadcast matrix sum to the sum of the unweighted losses times `n`, so
      the mean loss does not depend on the class weights at all. */
  lemma AsWrittenMeanIgnoresWeights(losses: seq<real>, targets: seq<seq<real>>, cw: seq<real>)
    requires |losses| == |targets|
    requires Rectangular(targets, |cw|)
    requires ApplyClassWeightAsWritten(losses, targets, Some(cw)).Broadcast?
    ensures |ApplyClassWeightAsWritten(losses, targets, Some(cw)).matrix| == |losses|
    ensures Sum2(ApplyClassWeightAsWritten(losses, targets, Some(cw)).matrix) == Sum(losses) * (|losses| as real)
  {
    var raw := ExampleWeights(cw, targets);
    NormalizeSumsToCount(raw);
    OuterScaledTotal(losses, Normalize(raw).value);
  }

  /** A concrete batch of two examples where the two readings disagree:
      class weights `[1, 3]`, one example of each class, losses `[1, 0]`. The
      intended weighting halves the first loss, giving a total of 1/2 over two
      examples; as written the result is a 2-by-2 matrix whose entries sum to
      2, so its mean is 1/2 -- the unweighted mean. */
  lemma ClassWeightCounterexample()
    ensures ApplyClassWeight([1.0, 0.0], [[1.0, 0.0], [0.0, 1.0]], Some([1.0, 3.0])) == Some([0.5, 0.0])
    ensures ApplyClassWeightAsWritten([1.0, 0.0], [[1.0, 0.0], [0.0, 1.0]], Some([1.0, 3.0]))
      == Broadcast([[0.5, 0.0], [1.5, 0.0]])
  {
    var targets := [[1.0, 0.0], [0.0, 1.0]];
    var raw := ExampleWeights([1.0, 3.0], targets);
    ExampleWeightOneHot([1.0, 3.0], targets, 0, 0);
    ExampleWeightOneHot([1.0, 3.0], targets, 1, 1);
    assert raw == [1.0, 3.0];
    assert Sum(raw) == 4.0 by {
      assert raw[..1] == [1.0];
      assert raw[..1][..0] == [];
    }
    var w := Scale(raw, 2.0 / 4.0);
    assert w == [0.5, 1.5];
    assert Normalize(raw) == Some([0.5, 1.5]);
    var r := ApplyClassWeight([1.0, 0.0], targets, Some([1.0, 3.0])).value;
    assert |r| == 2 && r[0] == 0.5 && r[1] == 0.0;
    assert r == [0.5, 0.0];
    assert Scale([1.0, 0.0], 0.5) == [0.5, 0.0];
    assert Scale([1.0, 0.0], 1.5) == [1.5, 0.0];
  }

  // ---------------------------------------------------------------------
  // Multi-label weighting.
  // ---------------------------------------------------------------------

  /** Per example and class: `cw[j]` where the target is positive, 1 where it is negative. */
  function MultilabelRawWeights(classWeights: seq<real>, targets: seq<seq<real>>): (r: seq<seq<real>>)
    requires Rectangular(targets, |classWeights|)
    ensures |r| == |targets| && Rectangular(r, |classWeights|)
  {
    seq(|targets|, i requires 0 <= i < |targets| =>
      seq(|classWeights|, j requires 0 <= j < |classWeights| =>
        classWeights[j] * targets[i][j] + 1.0 * (1.0 - targets[i][j])))
  }

  /** Every target is 0 or 1. */
  predicate Binary(targets: seq<seq<real>>)
  {
    forall i, j :: 0 <= i < |targets| && 0 <= j < |targets[i]| ==> targets[i][j] == 0.0 || targets[i][j] == 1.0
  }

  /** Multi-label weighting: the raw weights multiplied by their count over
      their sum, then applied entry by entry. `None` when a non-empty weight
      matrix sums to zero (the division is not finite). */
  function ApplyMultilabelClassWeight(losses: seq<seq<real>>, targets: seq<seq<real>>, classWeights: Option<seq<real>>): (r: Option<seq<seq<real>>>)
    requires |losses| == |targets|
    requires classWeights.Some? ==> Rectangular(targets, |classWeights.value|) && Rectangular(losses, |classWeights.value|)
    ensures r.Some? ==> |r.value| == |losses|
  {
    match classWeights
    case None => Some(losses)
    case Some(cw) =>
      var raw := MultilabelRawWeights(cw, targets);
      var count := (|targets| * |cw|) as real;
      if count == 0.0 then Some(losses)
      else if Sum2(raw) == 0.0 then None
      else
        var w := Scale2(raw, count / Sum2(raw));
        Some(seq(|losses|, i requires 0 <= i < |losses| =>
          seq(|cw|, j requires 0 <= j < |cw| => losses[i][j] * w[i][j])))
  }

  /** With binary targets the raw multi-label weight is the class weight on a
      positive target and 1 on a negative one. */
  lemma MultilabelRawWeightBinary(classWeights: seq<real>, targets: seq<seq<real>>, i: nat, j: nat)
    requires Rectangular(targets, |classWeights|) && Binary(targets)
    requires i < |targets| && j < |classWeights|
    ensures MultilabelRawWeights(classWeights, targets)[i][j] == if targets[i][j] == 1.0 then classWeights[j] else 1.0
  {
  }

  /** The multi-label weights applied are the raw weights rescaled to sum to the
      number of entries: entry `(i, j)` of the result is the loss times
      `raw[i][j] * count / sum(raw)`. */
  lemma MultilabelWeightsSumToCount(losses: seq<seq<real>>, targets: seq<seq<real>>, cw: seq<real>)
    requires |losses| == |targets| > 0 && |cw| > 0
    requires Rectangular(targets, |cw|) && Rectangular(losses, |cw|)
    requires Sum2(MultilabelRawWeights(cw, targets)) != 0.0
    ensures var raw := MultilabelRawWeights(cw, targets);
            var count := (|targets| * |cw|) as real;
            && Sum2(Scale2(raw, count / Sum2(raw))) == count
            && ApplyMultilabelClassWeight(losses, targets, Some(cw)).Some?
            && forall i, j :: 0 <= i < |losses| && 0 <= j < |cw| ==>
                 ApplyMultilabelClassWeight(losses, targets, Some(cw)).value[i][j] == losses[i][j] * (raw[i][j] * (count / Sum2(raw)))
  {
    var raw := MultilabelRawWeights(cw, targets);
    var count := (|targets| * |cw|) as real;
    assert count > 0.0;
    Sum2Scale(raw, count / Sum2(raw));
    assert (count / Sum2(raw)) * Sum2(raw) == count;
  }
}
