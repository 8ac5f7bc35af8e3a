/** The semi-supervised sequence labeling heads: how each splits the batch
    into its labeled prefix and the rows its consistency term sees, the pseudo
    label selection, the k-best probability vector of virtual adversarial
    training, its perturbation refinement loop, and the way each head combines
    its supervised and consistency losses. Everything a network computes (the
    CRF likelihood, decoding, gradients, the teacher model) is a parameter. */
module SemiSupervised {
  import opened Results
  import opened RealSums
  import opened Tensors

  // ---------------------------------------------------------------------
  // Splitting the batch.
  // ---------------------------------------------------------------------

  function Min(a: nat, b: nat): nat
  {
    if a <= b then a else b
  }

  /** `x[:n]`: the labeled rows come first; slicing past the end stops at the end. */
  function LabeledPart<T>(all: seq<T>, nLabeled: nat): (r: seq<T>)
    ensures |r| == Min(nLabeled, |all|)
    ensures forall i :: 0 <= i < |r| ==> r[i] == all[i]
  {
    all[..Min(nLabeled, |all|)]
  }

  /** `x[n:]`: the rows after the labeled ones. */
  function UnlabeledPart<T>(all: seq<T>, nLabeled: nat): (r: seq<T>)
    ensures |r| == |all| - Min(nLabeled, |all|)
    ensures forall i :: 0 <= i < |r| ==> r[i] == all[Min(nLabeled, |all|) + i]
  {
    all[Min(nLabeled, |all|)..]
  }

  /** The heads that train on unlabeled rows. */
  datatype SslHead = Vat | PseudoLabel | Ict | MeanTeacher

  /** The rows a head's unlabeled term works on: pseudo labelling decodes only
      the rows after the labeled ones; the consistency heads compare
      predictions on the whole batch, labeled rows included. */
  function UnlabeledRows<T>(head: SslHead, all: seq<T>, nLabeled: nat): seq<T>
  {
    if head == PseudoLabel then UnlabeledPart(all, nLabeled) else all
  }

  /** The labeled part and the rows after it make up the batch again, and for
      the consistency heads the labeled part is a prefix of what the
      consistency term sees. */
  lemma SplitPartition<T>(head: SslHead, all: seq<T>, nLabeled: nat)
    ensures LabeledPart(all, nLabeled) + UnlabeledPart(all, nLabeled) == all
    ensures nLabeled <= |all| ==> |LabeledPart(all, nLabeled)| == nLabeled
    ensures head != PseudoLabel ==> UnlabeledRows(head, all, nLabeled) == all
    ensures head == PseudoLabel ==> LabeledPart(all, nLabeled) + UnlabeledRows(head, all, nLabeled) == all
  {
    assert all[..Min(nLabeled, |all|)] + all[Min(nLabeled, |all|)..] == all;
  }

  // ---------------------------------------------------------------------
  // Pseudo labelling.
  // ---------------------------------------------------------------------

  function MaxOf(s: seq<real>): real
    requires |s| > 0
  {
    if |s| == 1 then s[0]
    else
      var m := MaxOf(s[..|s| - 1]);
      if s[|s| - 1] > m then s[|s| - 1] else m
  }

  lemma {:induction false} MaxOfBounds(s: seq<real>, lo: real, hi: real)
    requires |s| > 0
    requires forall i :: 0 <= i < |s| ==> lo <= s[i] <= hi
    ensures lo <= MaxOf(s) <= hi
    ensures exists i :: 0 <= i < |s| && MaxOf(s) == s[i]
  {
    if |s| > 1 {
      MaxOfBounds(s[..|s| - 1], lo, hi);
      var i :| 0 <= i < |s| - 1 && MaxOf(s[..|s| - 1]) == s[..|s| - 1][i];
      assert s[..|s| - 1][i] == s[i];
    }
  }

  /** Without the CRF, the probability of a decoded sequence is the mean over
      its positions (padding included) of the top class probability. No
      position means a mean of nothing, which is not a number. */
  function TokenSequenceProb(probs: seq<seq<real>>): (r: Option<real>)
    requires forall t :: 0 <= t < |probs| ==> |probs[t]| > 0
    ensures r.None? <==> |probs| == 0
  {
    if |probs| == 0 then None
    else Some(Sum(seq(|probs|, t requires 0 <= t < |probs| => MaxOf(probs[t]))) / (|probs| as real))
  }

  lemma {:induction false} SumBounded(s: seq<real>, hi: real)
    requires forall i :: 0 <= i < |s| ==> 0.0 <= s[i] <= hi
    ensures 0.0 <= Sum(s) <= (|s| as real) * hi
  {
    if s != [] {
      SumBounded(s[..|s| - 1], hi);
    }
  }

  /** Probabilities give a sequence probability that is a probability. */
  lemma TokenSequenceProbBounds(probs: seq<seq<real>>)
    requires forall t :: 0 <= t < |probs| ==> |probs[t]| > 0
    requires forall t, c :: 0 <= t < |probs| && 0 <= c < |probs[t]| ==> 0.0 <= probs[t][c] <= 1.0
    ensures TokenSequenceProb(probs).None? <==> |probs| == 0
    ensures TokenSequenceProb(probs).Some? ==> 0.0 <= TokenSequenceProb(probs).value <= 1.0
  {
    if |probs| > 0 {
      var maxes := seq(|probs|, t requires 0 <= t < |probs| => MaxOf(probs[t]));
      forall t | 0 <= t < |probs| ensures 0.0 <= maxes[t] <= 1.0 {
        MaxOfBounds(probs[t], 0.0, 1.0);
      }
      SumBounded(maxes, 1.0);
    }
  }

  /** The rows, lengths and targets the pseudo-label head trains on. */
  datatype PseudoBatch<L> = PseudoBatch(logits: seq<L>, lengths: seq<int>, targets: seq<seq<int>>)

  /** Which unlabeled rows are kept: those whose sequence probability is strictly above the threshold. */
  function KeepMask(seqProbs: seq<real>, thresh: real): (r: seq<bool>)
    ensures |r| == |seqProbs|
    ensures forall i :: 0 <= i < |seqProbs| ==> (r[i] <==> seqProbs[i] > thresh)
  {
    seq(|seqProbs|, i requires 0 <= i < |seqProbs| => seqProbs[i] > thresh)
  }

  /** The labeled rows followed by the confident unlabeled rows, each with its
      decoded labels as targets. `decoded` and `seqProbs` hold one entry per
      row after the labeled ones. */
  function PseudoLabelBatch<L>(logits: seq<L>, lengths: seq<int>, targets: seq<seq<int>>,
                               decoded: seq<seq<int>>, seqProbs: seq<real>, thresh: real): PseudoBatch<L>
    requires |lengths| == |logits| && |targets| <= |logits|
    requires |decoded| == |seqProbs| == |logits| - |targets|
  {
    var n := |targets|;
    var mask := KeepMask(seqProbs, thresh);
    PseudoBatch(LabeledPart(logits, n) + BooleanMask(UnlabeledPart(logits, n), mask),
                LabeledPart(lengths, n) + BooleanMask(UnlabeledPart(lengths, n), mask),
                targets + BooleanMask(decoded, mask))
  }

  /** The pseudo-label batch keeps its three parts aligned: the labeled rows
      unchanged, then for each kept unlabeled row its logits, its length and
      its decoded labels, in batch order; a row is kept exactly when its
      probability is above the threshold. */
  lemma PseudoLabelBatchAligned<L>(logits: seq<L>, lengths: seq<int>, targets: seq<seq<int>>,
                                   decoded: seq<seq<int>>, seqProbs: seq<real>, thresh: real)
    requires |lengths| == |logits| && |targets| <= |logits|
    requires |decoded| == |seqProbs| == |logits| - |targets|
    ensures var r := PseudoLabelBatch(logits, lengths, targets, decoded, seqProbs, thresh);
      var kept := Kept(KeepMask(seqProbs, thresh));
      && |r.logits| == |r.lengths| == |r.targets| == |targets| + |kept|
      && (forall i :: 0 <= i < |targets| ==> r.logits[i] == logits[i] && r.lengths[i] == lengths[i] && r.targets[i] == targets[i])
      && (forall k :: 0 <= k < |kept| ==>
            kept[k] < |decoded| && seqProbs[kept[k]] > thresh
            && r.logits[|targets| + k] == logits[|targets| + kept[k]]
            && r.lengths[|targets| + k] == lengths[|targets| + kept[k]]
            && r.targets[|targets| + k] == decoded[kept[k]])
      && (forall j :: 0 <= j < |seqProbs| && seqProbs[j] > thresh ==> j in kept)
  {
    var n := |targets|;
    var mask := KeepMask(seqProbs, thresh);
    KeptIndices(mask);
    BooleanMaskAt(UnlabeledPart(logits, n), mask);
    BooleanMaskAt(UnlabeledPart(lengths, n), mask);
    BooleanMaskAt(decoded, mask);
  }

  /** A threshold no row exceeds leaves only the labeled rows. */
  lemma PseudoLabelNoneKept<L>(logits: seq<L>, lengths: seq<int>, targets: seq<seq<int>>,
                               decoded: seq<seq<int>>, seqProbs: seq<real>, thresh: real)
    requires |lengths| == |logits| && |targets| <= |logits|
    requires |decoded| == |seqProbs| == |logits| - |targets|
    requires forall j :: 0 <= j < |seqProbs| ==> seqProbs[j] <= thresh
    ensures PseudoLabelBatch(logits, lengths, targets, decoded, seqProbs, thresh)
         == PseudoBatch(LabeledPart(logits, |targets|), LabeledPart(lengths, |targets|), targets)
  {
    var n := |targets|;
    var mask := KeepMask(seqProbs, thresh);
    KeptExtremes(mask);
    BooleanMaskAt(UnlabeledPart(logits, n), mask);
    BooleanMaskAt(UnlabeledPart(lengths, n), mask);
    BooleanMaskAt(decoded, mask);
  }

  /** A threshold every row exceeds keeps the whole batch, labels and all. */
  lemma PseudoLabelAllKept<L>(logits: seq<L>, lengths: seq<int>, targets: seq<seq<int>>,
                              decoded: seq<seq<int>>, seqProbs: seq<real>, thresh: real)
    requires |lengths| == |logits| && |targets| <= |logits|
    requires |decoded| == |seqProbs| == |logits| - |targets|
    requires forall j :: 0 <= j < |seqProbs| ==> seqProbs[j] > thresh
    ensures PseudoLabelBatch(logits, lengths, targets, decoded, seqProbs, thresh)
         == PseudoBatch(logits, lengths, targets + decoded)
  {
    var n := |targets|;
    var mask := KeepMask(seqProbs, thresh);
    MaskKeepingAll(UnlabeledPart(logits, n), mask);
    MaskKeepingAll(UnlabeledPart(lengths, n), mask);
    MaskKeepingAll(decoded, mask);
    SplitPartition(PseudoLabel, logits, n);
    SplitPartition(PseudoLabel, lengths, n);
  }

  /** A mask that keeps every entry keeps the whole sequence. */
  lemma {:induction false} MaskKeepingAll<T>(xs: seq<T>, mask: seq<bool>)
    requires |xs| == |mask|
    requires forall j :: 0 <= j < |mask| ==> mask[j]
    ensures BooleanMask(xs, mask) == xs
  {
    if xs != [] {
      MaskKeepingAll(xs[..|xs| - 1], mask[..|mask| - 1]);
    }
  }

  /** With a threshold of at least 1, probabilities never qualify: pseudo labelling adds nothing. */
  lemma PseudoLabelHighThreshold<L>(logits: seq<L>, lengths: seq<int>, targets: seq<seq<int>>,
                                    decoded: seq<seq<int>>, seqProbs: seq<real>, thresh: real)
    requires |lengths| == |logits| && |targets| <= |logits|
    requires |decoded| == |seqProbs| == |logits| - |targets|
    requires thresh >= 1.0 && forall j :: 0 <= j < |seqProbs| ==> seqProbs[j] <= 1.0
    ensures PseudoLabelBatch(logits, lengths, targets, decoded, seqProbs, thresh).targets == targets
  {
    PseudoLabelNoneKept(logits, lengths, targets, decoded, seqProbs, thresh);
  }

  // ---------------------------------------------------------------------
  // Virtual adversarial training.
  // ---------------------------------------------------------------------

  /** The probabilities of a row's `k` best sequences, summed. */
  function TopKMass(kProbs: seq<seq<real>>, b: nat): real
    requires forall k :: 0 <= k < |kProbs| ==> b < |kProbs[k]|
  {
    Sum(seq(|kProbs|, k requires 0 <= k < |kProbs| => kProbs[k][b]))
  }

  /** The k-best probability vector of every row: the probability of each of
      its `k` best sequences (`kProb(k)` holds the `k`-th one for every row),
      then the probability left over for all other sequences. */
  method CrfProbs(topK: nat, batch: nat, kProb: nat -> seq<real>) returns (probs: seq<seq<real>>)
    requires topK > 0
    requires forall k :: 0 <= k < topK ==> |kProb(k)| == batch
    ensures |probs| == batch
    ensures forall b :: 0 <= b < batch ==> |probs[b]| == topK + 1
    ensures forall b, k :: 0 <= b < batch && 0 <= k < topK ==> probs[b][k] == kProb(k)[b]
    ensures forall b :: 0 <= b < batch ==> Sum(probs[b]) == 1.0
  {
    var allProbs: seq<seq<real>> := [];
    for k := 0 to topK
      invariant |allProbs| == k
      invariant forall j :: 0 <= j < k ==> allProbs[j] == kProb(j)
    {
      allProbs := allProbs + [kProb(k)];
    }
    var leftover := seq(batch, b requires 0 <= b < batch => 1.0 - TopKMass(allProbs, b));
    allProbs := allProbs + [leftover];
    probs := seq(batch, b requires 0 <= b < batch => seq(topK + 1, k requires 0 <= k < topK + 1 => allProbs[k][b]));
    forall b | 0 <= b < batch ensures Sum(probs[b]) == 1.0 {
      LeftoverCompletes(probs[b], allProbs[..topK], b);
    }
  }

  /** Appending what is left of 1 makes a row sum to 1. */
  lemma LeftoverCompletes(row: seq<real>, kProbs: seq<seq<real>>, b: nat)
    requires |row| == |kProbs| + 1
    requires forall k :: 0 <= k < |kProbs| ==> b < |kProbs[k]| && row[k] == kProbs[k][b]
    requires row[|kProbs|] == 1.0 - TopKMass(kProbs, b)
    ensures Sum(row) == 1.0
  {
    assert row[..|kProbs|] == seq(|kProbs|, k requires 0 <= k < |kProbs| => kProbs[k][b]);
  }

  /** The leftover probability is itself a probability exactly when the `k`
      best sequences carry at most all of it. */
  lemma LeftoverNonNegative(kProbs: seq<seq<real>>, b: nat)
    requires forall k :: 0 <= k < |kProbs| ==> b < |kProbs[k]|
    requires forall k :: 0 <= k < |kProbs| ==> 0.0 <= kProbs[k][b]
    ensures 0.0 <= 1.0 - TopKMass(kProbs, b) <==> TopKMass(kProbs, b) <= 1.0
    ensures 1.0 - TopKMass(kProbs, b) <= 1.0
  {
    SumNonNegative(seq(|kProbs|, k requires 0 <= k < |kProbs| => kProbs[k][b]));
  }

  /** The perturbation after `k` refinements. */
  function Refined<V>(refine: V -> V, k: nat, v: V): V
  {
    if k == 0 then v else refine(Refined(refine, k - 1, v))
  }

  /** The adversarial perturbation: start from the scaled random vector and
      refine it `vatK` times, each time replacing it by the scaled gradient of
      the divergence it causes (`refine`). */
  method VatPerturbation<V>(init: V, vatK: nat, refine: V -> V) returns (adv: V)
    ensures adv == Refined(refine, vatK, init)
  {
    adv := init;
    for k := 0 to vatK
      invariant adv == Refined(refine, k, init)
    {
      adv := refine(adv);
    }
  }

  // ---------------------------------------------------------------------
  // Combining the losses.
  // ---------------------------------------------------------------------

  /** What the supervised branch hands to `reduce_mean`. With a CRF it is
      the negated log-likelihood of each labeled row. Without one it is the
      single number `sparse_softmax_cross_entropy` has already reduced over
      `batch` rows; its SUM_BY_NONZERO_WEIGHTS reduction gives 0 when no
      weight is nonzero, as on an empty batch. */
  datatype SupervisedTerm = NegLogLikelihood(perExample: seq<real>) | CrossEntropy(batch: nat, reduced: real)

  /** The number of labeled rows the supervised term was computed on. */
  function LabeledRows(term: SupervisedTerm): nat
  {
    match term
    case NegLogLikelihood(l) => |l|
    case CrossEntropy(b, _) => b
  }

  /** The mean supervised loss over the labeled rows left. With training
      signal annealing an empty batch gives 0. Without it, the mean of an
      empty likelihood vector is not a number, while the cross-entropy is
      already one number (0 on an empty batch) whose mean is itself. */
  function SupervisedLoss(term: SupervisedTerm, tsa: bool): (r: Option<real>)
    ensures tsa && LabeledRows(term) == 0 ==> r == Some(0.0)
    ensures r.None? <==> !tsa && term == NegLogLikelihood([])
    ensures term.NegLogLikelihood? && |term.perExample| > 0 ==>
      r.Some? && r.value * (|term.perExample| as real) == Sum(term.perExample)
    ensures term.CrossEntropy? && term.batch == 0 ==> r == Some(0.0)
    ensures term.CrossEntropy? && term.batch > 0 ==> r == Some(term.reduced)
  {
    if tsa && LabeledRows(term) == 0 then Some(0.0)
    else
      match term
      case NegLogLikelihood(l) => if |l| == 0 then None else Some(Sum(l) / (|l| as real))
      case CrossEntropy(b, x) => Some(if b == 0 then 0.0 else x)
  }

  /** The consistency weight of the interpolation and teacher heads: the
      configured weight times the warm-up fraction, never below zero. */
  function SslCoefficient(sslLossCoef: real, coefFraction: real): (r: real)
    ensures r >= 0.0
    ensures r >= sslLossCoef * coefFraction
    ensures r == 0.0 || r == sslLossCoef * coefFraction
  {
    if 0.0 > sslLossCoef * coefFraction then 0.0 else sslLossCoef * coefFraction
  }

  /** During warm-up the coefficient only grows as the fraction grows, and it
      never exceeds the configured weight once the fraction is at most 1. */
  lemma SslCoefficientWarmup(sslLossCoef: real, f1: real, f2: real)
    requires sslLossCoef >= 0.0 && 0.0 <= f1 <= f2
    ensures SslCoefficient(sslLossCoef, f1) <= SslCoefficient(sslLossCoef, f2)
    ensures f2 <= 1.0 ==> SslCoefficient(sslLossCoef, f2) <= sslLossCoef
    ensures f1 == 0.0 ==> SslCoefficient(sslLossCoef, f1) == 0.0
  {
    assert sslLossCoef * f1 <= sslLossCoef * f2;
    if f2 <= 1.0 {
      assert sslLossCoef * f2 <= sslLossCoef * 1.0;
    }
  }

  /** Adds a consistency term to a supervised loss that is a number. */
  function WithConsistency(supervised: Option<real>, coef: real, consistency: real): (r: Option<real>)
    ensures r.Some? <==> supervised.Some?
    ensures r.Some? ==> r.value - supervised.value == coef * consistency
  {
    if supervised.None? then None else Some(supervised.value + coef * consistency)
  }

  /** Virtual adversarial training weighs the adversarial divergence by the configured weight itself. */
  function VatLoss(term: SupervisedTerm, tsa: bool, sslLossCoef: real, advLoss: real): (r: Option<real>)
    ensures r.Some? <==> SupervisedLoss(term, tsa).Some?
  {
    WithConsistency(SupervisedLoss(term, tsa), sslLossCoef, advLoss)
  }

  /** Interpolation consistency training weighs its consistency term by the warmed-up coefficient. */
  function IctLoss(term: SupervisedTerm, tsa: bool, sslLossCoef: real, coefFraction: real, uLoss: real): (r: Option<real>)
    ensures r.Some? <==> SupervisedLoss(term, tsa).Some?
  {
    WithConsistency(SupervisedLoss(term, tsa), SslCoefficient(sslLossCoef, coefFraction), uLoss)
  }

  /** The mean teacher's loss as written: the coefficient is computed and
      logged, but the configured weight is what multiplies the consistency term. */
  function MeanTeacherLossAsWritten(term: SupervisedTerm, tsa: bool, sslLossCoef: real, coefFraction: real, uLoss: real): (r: Option<real>)
    ensures r.Some? <==> SupervisedLoss(term, tsa).Some?
  {
    WithConsistency(SupervisedLoss(term, tsa), sslLossCoef, uLoss)
  }

  /** The mean teacher's loss weighed by the warmed-up coefficient: the interpolation head's loss. */
  function MeanTeacherLoss(term: SupervisedTerm, tsa: bool, sslLossCoef: real, coefFraction: real, uLoss: real): (r: Option<real>)
    ensures r.Some? <==> SupervisedLoss(term, tsa).Some?
  {
    IctLoss(term, tsa, sslLossCoef, coefFraction, uLoss)
  }

  /** At the start of training (fraction 0) the warmed-up heads train on the
      supervised loss alone, whatever the consistency term. */
  lemma WarmupStartIsSupervised(term: SupervisedTerm, tsa: bool, sslLossCoef: real, uLoss: real)
    ensures IctLoss(term, tsa, sslLossCoef, 0.0, uLoss) == SupervisedLoss(term, tsa)
    ensures MeanTeacherLoss(term, tsa, sslLossCoef, 0.0, uLoss) == SupervisedLoss(term, tsa)
  {
    assert SslCoefficient(sslLossCoef, 0.0) == 0.0;
  }

  /** The mean teacher as written still adds the full consistency term at the
      start of training: one labeled row with loss 0, a weight of 1 and a
      consistency loss of 1 give 1, where the warmed-up coefficient gives 0. */
  lemma MeanTeacherCounterexample()
    ensures MeanTeacherLossAsWritten(NegLogLikelihood([0.0]), false, 1.0, 0.0, 1.0) == Some(1.0)
    ensures MeanTeacherLoss(NegLogLikelihood([0.0]), false, 1.0, 0.0, 1.0) == Some(0.0)
  {
    assert Sum([0.0]) == 0.0;
    WarmupStartIsSupervised(NegLogLikelihood([0.0]), false, 1.0, 1.0);
  }

  /** No labeled row left: with annealing, or without a CRF, every head's loss
      is its consistency term alone; with a CRF and no annealing it is not a
      number. */
  lemma EmptyLabeledBatch(term: SupervisedTerm, tsa: bool, sslLossCoef: real, coefFraction: real, uLoss: real)
    requires LabeledRows(term) == 0
    ensures tsa || term.CrossEntropy? ==>
      && VatLoss(term, tsa, sslLossCoef, uLoss) == Some(sslLossCoef * uLoss)
      && IctLoss(term, tsa, sslLossCoef, coefFraction, uLoss) == Some(SslCoefficient(sslLossCoef, coefFraction) * uLoss)
      && MeanTeacherLoss(term, tsa, sslLossCoef, coefFraction, uLoss) == Some(SslCoefficient(sslLossCoef, coefFraction) * uLoss)
    ensures !tsa && term.NegLogLikelihood? ==>
      && VatLoss(term, tsa, sslLossCoef, uLoss).None?
      && IctLoss(term, tsa, sslLossCoef, coefFraction, uLoss).None?
      && MeanTeacherLoss(term, tsa, sslLossCoef, coefFraction, uLoss).None?
  {
  }
}
