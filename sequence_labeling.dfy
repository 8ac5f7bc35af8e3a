/** The sequence labeling head around its CRF: the lengths that default to
    the padded width, the per-token weights of the cross-entropy variant, the
    per-token class weights, and the multi-label decomposition into one
    two-state chain per class. The CRF log-likelihood and the cross-entropy
    themselves are parameters. */
module SequenceLabeling {
  import opened Results
  import opened RealSums
  import opened Tensors

  /** `[batch][position][class]` scores. */
  type Logits = seq<seq<seq<real>>>

  /** Every row has `seqLen` positions and every position `n` entries. */
  predicate Shape3<T>(x: seq<seq<seq<T>>>, seqLen: nat, n: nat)
  {
    forall b :: 0 <= b < |x| ==> |x[b]| == seqLen && forall t :: 0 <= t < seqLen ==> |x[b][t]| == n
  }

  /** The lengths actually used: the given ones, or the padded width for every row. */
  function EffectiveLengths(lengths: Option<seq<int>>, batch: nat, seqLen: nat): (r: seq<int>)
    ensures lengths.None? ==> |r| == batch && forall b :: 0 <= b < batch ==> r[b] == seqLen
    ensures lengths.Some? ==> r == lengths.value
  {
    match lengths
    case None => seq(batch, b requires 0 <= b < batch => seqLen)
    case Some(l) => l
  }

  // ---------------------------------------------------------------------
  // Token weights of the cross-entropy variant.
  // ---------------------------------------------------------------------

  /** The row `sequence_mask(len, maxlen) / len`: `1/len` on the first `len`
      positions and 0 after (the mask is 1 before `len` and 0 after). A zero
      length divides zero by zero on every position, which is `None` here;
      at width 0 the row is empty and there is nothing to divide. */
  function TokenWeightRow(len: int, maxLen: nat): Option<seq<real>>
  {
    if len == 0 && maxLen > 0 then None
    else Some(seq(maxLen, t requires 0 <= t < maxLen => if t < len then 1.0 / (len as real) else 0.0))
  }

  /** Entry-wise product of two rows, summed. */
  function WeightedSum(w: seq<real>, l: seq<real>): real
    requires |w| == |l|
  {
    Sum(seq(|w|, t requires 0 <= t < |w| => w[t] * l[t]))
  }

  function Mean(s: seq<real>): real
    requires |s| > 0
  {
    Sum(s) / (|s| as real)
  }

  /** Without given lengths every row takes the padded width, so every row's
      length lies in [0, seqLen]; for a positive width every row then has
      defined weights of the full width, summing to 1. */
  lemma DefaultLengthsWeighted(batch: nat, seqLen: nat)
    ensures |EffectiveLengths(None, batch, seqLen)| == batch
    ensures forall b :: 0 <= b < batch ==> 0 <= EffectiveLengths(None, batch, seqLen)[b] <= seqLen
    ensures seqLen > 0 ==> forall b :: 0 <= b < batch ==>
      && TokenWeightRow(EffectiveLengths(None, batch, seqLen)[b], seqLen).Some?
      && Sum(TokenWeightRow(EffectiveLengths(None, batch, seqLen)[b], seqLen).value) == 1.0
  {
    if seqLen > 0 {
      TokenWeightsSumToOne(seqLen, seqLen);
    }
  }

  /** A zero length has no weights over a positive width; a zero width gives
      an empty row; a negative length weighs every position 0. */
  lemma TokenWeightRowDegenerate(len: int, maxLen: nat)
    ensures TokenWeightRow(len, maxLen).None? <==> len == 0 && maxLen > 0
    ensures maxLen == 0 ==> TokenWeightRow(len, maxLen) == Some([])
    ensures len < 0 ==> forall t :: 0 <= t < maxLen ==> TokenWeightRow(len, maxLen).value[t] == 0.0
  {
    if maxLen == 0 {
      assert |TokenWeightRow(len, maxLen).value| == 0;
    }
  }

  /** For a length within the padded width the weights sum to 1 and padding positions weigh 0. */
  lemma TokenWeightsSumToOne(len: int, maxLen: nat)
    requires 0 < len <= maxLen
    ensures TokenWeightRow(len, maxLen).Some?
    ensures |TokenWeightRow(len, maxLen).value| == maxLen
    ensures forall t :: len <= t < maxLen ==> TokenWeightRow(len, maxLen).value[t] == 0.0
    ensures Sum(TokenWeightRow(len, maxLen).value) == 1.0
  {
    var w := TokenWeightRow(len, maxLen).value;
    SumFrom(w, len);
    SumConstant(w[..len], 1.0 / (len as real));
  }

  /** The weighted token losses are the mean loss over the real tokens. */
  lemma TokenWeightsAverage(len: int, maxLen: nat, losses: seq<real>)
    requires 0 < len <= maxLen && |losses| == maxLen
    ensures TokenWeightRow(len, maxLen).Some?
    ensures WeightedSum(TokenWeightRow(len, maxLen).value, losses) == Mean(losses[..len])
  {
    var c := 1.0 / (len as real);
    WeightedPrefix(TokenWeightRow(len, maxLen).value, losses, len, c);
    DivideAsScale(Sum(losses[..len]), len);
  }

  /** Weights equal to `c` on a prefix and 0 after it sum `c` times the prefix. */
  lemma WeightedPrefix(w: seq<real>, losses: seq<real>, len: nat, c: real)
    requires len <= |w| == |losses|
    requires forall t :: 0 <= t < |w| ==> w[t] == if t < len then c else 0.0
    ensures WeightedSum(w, losses) == c * Sum(losses[..len])
  {
    var p := seq(|w|, t requires 0 <= t < |w| => w[t] * losses[t]);
    TrailingZeros(p, w, losses, len, c);
    SumFrom(p, len);
    ScaledPrefix(p, losses, len, c);
    SumScale(losses[..len], c);
  }

  lemma TrailingZeros(p: seq<real>, w: seq<real>, losses: seq<real>, len: nat, c: real)
    requires len <= |p| == |w| == |losses|
    requires forall t :: 0 <= t < |w| ==> w[t] == if t < len then c else 0.0
    requires forall t :: 0 <= t < |p| ==> p[t] == w[t] * losses[t]
    ensures forall t :: len <= t < |p| ==> p[t] == 0.0
    ensures forall t :: 0 <= t < len ==> p[t] == c * losses[t]
  {
  }

  lemma DivideAsScale(x: real, len: nat)
    requires len > 0
    ensures (1.0 / (len as real)) * x == x / (len as real)
  {
  }

  lemma ScaledPrefix(p: seq<real>, losses: seq<real>, len: nat, c: real)
    requires len <= |p| == |losses|
    requires forall t :: 0 <= t < len ==> p[t] == c * losses[t]
    ensures p[..len] == Scale(losses[..len], c)
  {
    assert forall t :: 0 <= t < len ==> p[..len][t] == Scale(losses[..len], c)[t];
  }

  /** Two loss rows that agree on the real tokens weigh the same. */
  lemma PaddingInvariant(len: int, maxLen: nat, l1: seq<real>, l2: seq<real>)
    requires 0 < len <= maxLen && |l1| == |l2| == maxLen
    requires forall t :: 0 <= t < len ==> l1[t] == l2[t]
    ensures TokenWeightRow(len, maxLen).Some?
    ensures WeightedSum(TokenWeightRow(len, maxLen).value, l1) == WeightedSum(TokenWeightRow(len, maxLen).value, l2)
  {
    TokenWeightsAverage(len, maxLen, l1);
    TokenWeightsAverage(len, maxLen, l2);
    assert l1[..len] == l2[..len];
  }

  // ---------------------------------------------------------------------
  // Per-token class weights of the single-label head.
  // ---------------------------------------------------------------------

  /** `one_hot(t, depth)`: an index outside `[0, depth)` gives a row of zeros. */
  function OneHotRow(t: int, depth: nat): (r: seq<real>)
    ensures |r| == depth
    ensures forall j :: 0 <= j < depth ==> r[j] == (if j == t then 1.0 else 0.0)
  {
    seq(depth, j requires 0 <= j < depth => if j == t then 1.0 else 0.0)
  }

  /** The weight of one token: the class weights times the one-hot target, summed. */
  function TokenClassWeight(classWeights: seq<real>, target: int): real
  {
    var oh := OneHotRow(target, |classWeights|);
    Sum(seq(|classWeights|, j requires 0 <= j < |classWeights| => classWeights[j] * oh[j]))
  }

  /** Per-token class weights, applied only while training and only when class weights are given. */
  function PerTokenWeights(classWeights: Option<seq<real>>, train: bool, targets: seq<seq<int>>): (r: Option<seq<seq<real>>>)
    ensures r.Some? ==> |r.value| == |targets| && forall b :: 0 <= b < |targets| ==> |r.value[b]| == |targets[b]|
  {
    if classWeights.Some? && train then
      Some(seq(|targets|, b requires 0 <= b < |targets| =>
        seq(|targets[b]|, t requires 0 <= t < |targets[b]| => TokenClassWeight(classWeights.value, targets[b][t]))))
    else None
  }

  /** Each token weighs its target class's weight; a target outside the classes weighs 0. */
  lemma TokenClassWeightIsClassWeight(classWeights: seq<real>, target: int)
    ensures 0 <= target < |classWeights| ==> TokenClassWeight(classWeights, target) == classWeights[target]
    ensures !(0 <= target < |classWeights|) ==> TokenClassWeight(classWeights, target) == 0.0
  {
    var oh := OneHotRow(target, |classWeights|);
    var terms := seq(|classWeights|, j requires 0 <= j < |classWeights| => classWeights[j] * oh[j]);
    if 0 <= target < |classWeights| {
      SumSingle(terms, target);
    } else {
      SumConstant(terms, 0.0);
    }
  }

  /** Weights exist exactly when training with class weights, and then every token gets its class's weight. */
  lemma PerTokenWeightsSpec(classWeights: Option<seq<real>>, train: bool, targets: seq<seq<int>>)
    ensures PerTokenWeights(classWeights, train, targets).Some? <==> classWeights.Some? && train
    ensures PerTokenWeights(classWeights, train, targets).Some? ==>
      forall b, t :: 0 <= b < |targets| && 0 <= t < |targets[b]| && 0 <= targets[b][t] < |classWeights.value| ==>
        PerTokenWeights(classWeights, train, targets).value[b][t] == classWeights.value[targets[b][t]]
  {
    if classWeights.Some? && train {
      forall b, t | 0 <= b < |targets| && 0 <= t < |targets[b]| && 0 <= targets[b][t] < |classWeights.value|
        ensures PerTokenWeights(classWeights, train, targets).value[b][t] == classWeights.value[targets[b][t]]
      {
        TokenClassWeightIsClassWeight(classWeights.value, targets[b][t]);
      }
    }
  }

  // ---------------------------------------------------------------------
  // Multi-label decomposition: one two-state chain per class.
  // ---------------------------------------------------------------------

  /** A transition-matrix variable: the one of class `i` (`Some(i)`) or the shared one (`None`). */
  datatype TransitionVar = TransitionVar(classIndex: Option<nat>, rows: nat, cols: nat)

  /** Class `i`'s two-state logits: the padding class's score beside class `i`'s, at every token. */
  function ClassPair(logits: Logits, seqLen: nat, n: nat, padId: nat, i: nat): (r: Logits)
    requires Shape3(logits, seqLen, n) && padId < n && i < n
    ensures |r| == |logits| && Shape3(r, seqLen, 2)
    ensures forall b, t :: 0 <= b < |logits| && 0 <= t < seqLen ==> r[b][t] == [logits[b][t][padId], logits[b][t][i]]
  {
    seq(|logits|, b requires 0 <= b < |logits| =>
      seq(seqLen, t requires 0 <= t < seqLen => [logits[b][t][padId], logits[b][t][i]]))
  }

  /** Class `i`'s weight at a token: `cw[i]` if the token has the class, `cw[pad]` if not. */
  function ClassTokenWeight(classWeights: seq<real>, padId: nat, i: nat, isPositive: real): real
    requires padId < |classWeights| && i < |classWeights|
  {
    classWeights[i] * isPositive + classWeights[padId] * (1.0 - isPositive)
  }

  function ClassTokenWeights(classWeights: seq<real>, padId: nat, i: nat, targets: seq<seq<seq<int>>>, seqLen: nat): seq<seq<real>>
    requires padId < |classWeights| && i < |classWeights| && Shape3(targets, seqLen, |classWeights|)
  {
    seq(|targets|, b requires 0 <= b < |targets| =>
      seq(seqLen, t requires 0 <= t < seqLen => ClassTokenWeight(classWeights, padId, i, targets[b][t][i] as real)))
  }

  /** With 0/1 targets the weight is the class's own weight on positives and the padding class's on negatives. */
  lemma ClassTokenWeightBinary(classWeights: seq<real>, padId: nat, i: nat)
    requires padId < |classWeights| && i < |classWeights|
    ensures ClassTokenWeight(classWeights, padId, i, 1.0) == classWeights[i]
    ensures ClassTokenWeight(classWeights, padId, i, 0.0) == classWeights[padId]
  {
  }

  /** Loss term of class `i`: none for the padding class or without targets;
      otherwise the negated CRF log-likelihood of its chain, or its cross-entropy. */
  function ClassTerm(hasTargets: bool, useCrf: bool, padId: nat, i: nat, pair: Logits,
                     logLikelihood: (nat, Logits) -> real, crossEntropy: (nat, Logits) -> real): real
  {
    if hasTargets && i != padId then
      (if useCrf then -logLikelihood(i, pair) else crossEntropy(i, pair))
    else 0.0
  }

  /** The multi-label loss over the first `k` classes, accumulated in class order from 0. */
  function MultilabelLoss(k: nat, logits: Logits, seqLen: nat, n: nat, padId: nat, hasTargets: bool, useCrf: bool,
                          logLikelihood: (nat, Logits) -> real, crossEntropy: (nat, Logits) -> real): real
    requires k <= n && Shape3(logits, seqLen, n) && padId < n
  {
    if k == 0 then 0.0
    else
      MultilabelLoss(k - 1, logits, seqLen, n, padId, hasTargets, useCrf, logLikelihood, crossEntropy)
      + ClassTerm(hasTargets, useCrf, padId, k - 1, ClassPair(logits, seqLen, n, padId, k - 1), logLikelihood, crossEntropy)
  }

  /** What the loop records for class `i`: the gradient weights of its chain, if any. */
  function ClassWeightsOf(classWeights: Option<seq<real>>, targets: Option<seq<seq<seq<int>>>>, seqLen: nat, n: nat, padId: nat, i: nat): Option<seq<seq<real>>>
    requires padId < n && i < n
    requires classWeights.Some? ==> |classWeights.value| == n
    requires targets.Some? ==> Shape3(targets.value, seqLen, n)
  {
    if targets.Some? && i != padId && classWeights.Some? then
      Some(ClassTokenWeights(classWeights.value, padId, i, targets.value, seqLen))
    else None
  }

  /** The multi-label loop: per class, a 2x2 transition matrix, the two-state
      logits, the gradient weights of its chain and its loss term. */
  method MultilabelHeads(logits: Logits, seqLen: nat, n: nat, padId: nat,
                         targets: Option<seq<seq<seq<int>>>>, classWeights: Option<seq<real>>, useCrf: bool,
                         logLikelihood: (nat, Logits) -> real, crossEntropy: (nat, Logits) -> real)
    returns (transitions: seq<TransitionVar>, pairs: seq<Logits>, weights: seq<Option<seq<seq<real>>>>, loss: real)
    requires Shape3(logits, seqLen, n) && padId < n
    requires classWeights.Some? ==> |classWeights.value| == n
    requires targets.Some? ==> Shape3(targets.value, seqLen, n)
    ensures |transitions| == n && forall i :: 0 <= i < n ==> transitions[i] == TransitionVar(Some(i), 2, 2)
    ensures |pairs| == n && forall i :: 0 <= i < n ==> pairs[i] == ClassPair(logits, seqLen, n, padId, i)
    ensures |weights| == n && forall i :: 0 <= i < n ==> weights[i] == ClassWeightsOf(classWeights, targets, seqLen, n, padId, i)
    ensures loss == MultilabelLoss(n, logits, seqLen, n, padId, targets.Some?, useCrf, logLikelihood, crossEntropy)
  {
    transitions, pairs, weights, loss := [], [], [], 0.0;
    var i := 0;
    while i < n
      invariant 0 <= i <= n
      invariant |transitions| == i && forall k :: 0 <= k < i ==> transitions[k] == TransitionVar(Some(k), 2, 2)
      invariant |pairs| == i && forall k :: 0 <= k < i ==> pairs[k] == ClassPair(logits, seqLen, n, padId, k)
      invariant |weights| == i && forall k :: 0 <= k < i ==> weights[k] == ClassWeightsOf(classWeights, targets, seqLen, n, padId, k)
      invariant loss == MultilabelLoss(i, logits, seqLen, n, padId, targets.Some?, useCrf, logLikelihood, crossEntropy)
    {
      transitions := transitions + [TransitionVar(Some(i), 2, 2)];
      pairs := pairs + [ClassPair(logits, seqLen, n, padId, i)];
      if targets.Some? && i != padId {
        // Without class weights the source reads `logits[i]`, which is the pair just appended.
        var chain := pairs[i];
        if classWeights.Some? {
          weights := weights + [Some(ClassTokenWeights(classWeights.value, padId, i, targets.value, seqLen))];
          chain := pairs[|pairs| - 1];
        } else {
          weights := weights + [None];
        }
        if useCrf {
          loss := loss - logLikelihood(i, chain);
        } else {
          loss := loss + crossEntropy(i, chain);
        }
      } else {
        weights := weights + [None];
      }
      i := i + 1;
    }
  }

  /** Without targets the multi-label loss stays 0. */
  lemma {:induction false} MultilabelLossWithoutTargets(k: nat, logits: Logits, seqLen: nat, n: nat, padId: nat, useCrf: bool,
                                                        ll: (nat, Logits) -> real, xent: (nat, Logits) -> real)
    requires k <= n && Shape3(logits, seqLen, n) && padId < n
    ensures MultilabelLoss(k, logits, seqLen, n, padId, false, useCrf, ll, xent) == 0.0
  {
    if k > 0 {
      MultilabelLossWithoutTargets(k - 1, logits, seqLen, n, padId, useCrf, ll, xent);
    }
  }

  /** The padding class never contributes: losses that differ only on the
      padding class's own chain give the same multi-label loss. */
  lemma {:induction false} MultilabelLossIgnoresPad(k: nat, logits: Logits, seqLen: nat, n: nat, padId: nat, hasTargets: bool, useCrf: bool,
                                                    ll1: (nat, Logits) -> real, xent1: (nat, Logits) -> real,
                                                    ll2: (nat, Logits) -> real, xent2: (nat, Logits) -> real)
    requires k <= n && Shape3(logits, seqLen, n) && padId < n
    requires forall i, p :: i != padId ==> ll1(i, p) == ll2(i, p) && xent1(i, p) == xent2(i, p)
    ensures MultilabelLoss(k, logits, seqLen, n, padId, hasTargets, useCrf, ll1, xent1)
         == MultilabelLoss(k, logits, seqLen, n, padId, hasTargets, useCrf, ll2, xent2)
  {
    if k > 0 {
      MultilabelLossIgnoresPad(k - 1, logits, seqLen, n, padId, hasTargets, useCrf, ll1, xent1, ll2, xent2);
    }
  }

  /** With the CRF, the multi-label loss is the negated sum of the per-class
      log-likelihoods over the classes other than the padding class. */
  lemma {:induction false} MultilabelLossIsNegatedLikelihood(k: nat, logits: Logits, seqLen: nat, n: nat, padId: nat,
                                                             ll: (nat, Logits) -> real, xent: (nat, Logits) -> real)
    requires k <= n && Shape3(logits, seqLen, n) && padId < n
    ensures MultilabelLoss(k, logits, seqLen, n, padId, true, true, ll, xent)
         == -Sum(seq(k, i requires 0 <= i < k => if i == padId then 0.0 else ll(i, ClassPair(logits, seqLen, n, padId, i))))
  {
    var terms := seq(k, i requires 0 <= i < k => if i == padId then 0.0 else ll(i, ClassPair(logits, seqLen, n, padId, i)));
    if k > 0 {
      MultilabelLossIsNegatedLikelihood(k - 1, logits, seqLen, n, padId, ll, xent);
      assert terms[..k - 1] == seq(k - 1, i requires 0 <= i < k - 1 => if i == padId then 0.0 else ll(i, ClassPair(logits, seqLen, n, padId, i)));
    }
  }

  /** The stacked logits `[batch][position][state][class]`: state 0 is the
      padding class's score for every class, state 1 the class's own score. */
  function StackPairs(pairs: seq<Logits>, batch: nat, seqLen: nat): (r: seq<seq<seq<seq<real>>>>)
    requires forall i :: 0 <= i < |pairs| ==> |pairs[i]| == batch
    requires forall i, b :: 0 <= i < |pairs| && 0 <= b < batch ==> |pairs[i][b]| == seqLen
    requires forall i, b, t :: 0 <= i < |pairs| && 0 <= b < batch && 0 <= t < seqLen ==> |pairs[i][b][t]| == 2
  {
    seq(batch, b requires 0 <= b < batch =>
      seq(seqLen, t requires 0 <= t < seqLen =>
        seq(2, s requires 0 <= s < 2 =>
          seq(|pairs|, i requires 0 <= i < |pairs| => pairs[i][b][t][s]))))
  }

  lemma StackedPairs(logits: Logits, seqLen: nat, n: nat, padId: nat, pairs: seq<Logits>)
    requires Shape3(logits, seqLen, n) && padId < n
    requires |pairs| == n && forall i :: 0 <= i < n ==> pairs[i] == ClassPair(logits, seqLen, n, padId, i)
    ensures forall i :: 0 <= i < n ==> |pairs[i]| == |logits|
    ensures forall i, b :: 0 <= i < n && 0 <= b < |logits| ==> |pairs[i][b]| == seqLen
    ensures forall i, b, t :: 0 <= i < n && 0 <= b < |logits| && 0 <= t < seqLen ==> |pairs[i][b][t]| == 2
    ensures forall b, t, i :: 0 <= b < |logits| && 0 <= t < seqLen && 0 <= i < n ==>
      StackPairs(pairs, |logits|, seqLen)[b][t][0][i] == logits[b][t][padId] &&
      StackPairs(pairs, |logits|, seqLen)[b][t][1][i] == logits[b][t][i]
  {
  }
}
