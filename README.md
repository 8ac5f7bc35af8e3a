# finetune document labeling and target heads, in Dafny

This project models two parts of the `finetune` library:

- **Document input pipeline** (`finetune/target_models/document_labeling.py`). It turns a
  multi-page document into:
  - one text per page;
  - a flat per-token context with DPI-normalised bounding boxes;
  - labelled samples whose spans are checked against the joined text;
  - encoder chunks whose token offsets are moved from page coordinates into
    whole-document coordinates.
- **Tensor bookkeeping of the target heads** (`finetune/nn/target_blocks.py`):
  - class-weight rescaling;
  - the regressor's L1/L2 dispatch, with the broadcasting of `outputs - targets`;
  - the sequence labeler's default lengths, length-normalised mask weights, per-token class
    weights and multilabel decomposition;
  - the semi-supervised heads (VAT, pseudo-label, ICT, mean teacher): labeled/unlabeled splits,
    pseudo-label filtering, CRF top-k probabilities, the perturbation loop, the TSA zero loss
    and the floored SSL coefficient;
  - the association head's pair mask and pair features;
  - the masked-LM flat indexing and the scatter of its logits;
  - multiple-choice regrouping;
  - the language model's one-step shift.

How the modelling is done:

- Tensors are nested `seq`s.
- Floats are `real`.
- A Python exception is a `Failure` of a `Result`. A NaN from a division by zero is `None`.
- The network's own computations are function parameters: dense layers, CRF likelihoods, the
  parent tokenizer, the adversarial gradient step.
- Loops in the source are `method`s with loop invariants. Each method but one is proved equal
  to a specification function, and the properties are then lemmas about those functions.
  `CrfProbs` is the exception: its `ensures` state the shape, the columns and the row totals
  of its result directly.

Modules:

| module | file | models |
|---|---|---|
| `Results` | results.dfy | Option and Result |
| `RealSums` | real_sums.dfy | sums of reals, scaling |
| `Tensors` | tensors.dfy | flattening, `boolean_mask`, `sequence_mask` |
| `DocumentLabeling` | document_labeling.dfy | document_labeling.py |
| `ClassWeights` | class_weights.dfy | `_apply_class_weight`, `_apply_multilabel_class_weight` |
| `Regression` | regression.dfy | the regressor's loss dispatch |
| `SequenceLabeling` | sequence_labeling.dfy | the sequence labeler |
| `SemiSupervised` | semi_supervised.dfy | vat, pseudo_label, ict, mean_teacher |
| `LanguageModels` | language_models.dfy | masked_language_model, language_model |
| `Association` | association.dfy | the association head |
| `MultiChoice` | multi_choice.dfy | multi_choice regrouping |

Where the code and the design description disagree, the model follows the code:

- ICT, VAT and mean teacher compute the consistency term on the whole batch, including the rows
  that have labels. Only pseudo-label takes the unlabeled tail.
- `pseudo_thresh` is compared with a strict `>`. A threshold of 0 therefore drops a sequence
  whose probability is exactly 0.
- The regressor's docstring gives the targets the shape `[batch_size]`, against outputs of shape
  `[batch_size, n_targets]`. `outputs - targets` then broadcasts: with one target column it is a
  batch × batch matrix of every output minus every target (`VectorTargetsPairwise`). The model
  accepts both a vector and a matrix of targets and follows the broadcast either way.
- `zip_list_to_dict` raises `FinetuneError` in `document_labeling.py`, but that name is not
  imported there. A label-count mismatch therefore ends in a `NameError`. Either way it is an
  error, and the model calls it `LabelCountMismatch`.

## Model

| member | source | states |
|---|---|---|
| DocumentLabeling.GetContext | finetune/target_models/document_labeling.py:4-29 | the loop over pages and tokens returns exactly the context the specification function `Context` defines, including its failure on a page with no page info or a zero DPI |
| DocumentLabeling.ContextSucceedsIff | finetune/target_models/document_labeling.py:10-16 | building the context fails iff some page that has tokens has no readable normalisation (DPI normalisation is on and the page info is missing or a DPI is zero) |
| DocumentLabeling.ContextLength | finetune/target_models/document_labeling.py:6-7 | the context has one entry per token of the document |
| DocumentLabeling.ContextEntryAt | finetune/target_models/document_labeling.py:18-27 | token `t` of page `p` lands at index (tokens on earlier pages) + `t` and is built from that page's normalisation |
| DocumentLabeling.ContextAt | finetune/target_models/document_labeling.py:10-27 | that entry keeps the token's offsets and text; its box is unchanged without DPI normalisation and scaled by 300/dpiy vertically and 300/dpix horizontally with it |
| DocumentLabeling.SingleConvertToFinetune | finetune/target_models/document_labeling.py:31-42 | the page loop returns exactly what `Convert` defines: the page texts and the context, or the first error met |
| DocumentLabeling.PageLoopSucceedsIff | finetune/target_models/document_labeling.py:36-41 | the page loop succeeds iff every page has page info and each page starts one past the previous page's end (the first at 0); then it yields each page's text followed by a newline |
| DocumentLabeling.ConvertOutcome | finetune/target_models/document_labeling.py:31-42 | conversion succeeds iff the context succeeds and the offset checks pass; it then returns one text per page (the page text plus "\n") and the context |
| DocumentLabeling.ZipListToDict | finetune/target_models/document_labeling.py:52-80 | the method returns exactly what `Zip` defines |
| DocumentLabeling.BuildSample | finetune/target_models/document_labeling.py:61-78 | one document's sample is exactly `SampleOf`: texts, joined raw text, context checked against the joined text when the default context is on, labels checked against the joined text |
| DocumentLabeling.ZipPrefixSucceedsIff | finetune/target_models/document_labeling.py:59-79 | the samples of the first `n` documents are built iff every one of those documents yields its sample |
| DocumentLabeling.ZipPrefixSamples | finetune/target_models/document_labeling.py:59-79 | once built, sample `i` has the document's page texts as `x`, their concatenation as raw text, the `i`-th label list (each label's text equal to its slice of the raw text) and a context iff the default context is on, each context entry's text matching its slice |
| DocumentLabeling.ZipOutcome | finetune/target_models/document_labeling.py:52-80 | a passed-in context is an error; a label count different from the document count is an error; otherwise the zip succeeds iff every document yields its sample, and then there is one sample per document, built from its page texts, with its labels matching the raw text |
| DocumentLabeling.ZipFirstError | finetune/target_models/document_labeling.py:59-79 | documents are processed in order: when document `i` is the first that yields no sample, the zip fails with that document's error |
| DocumentLabeling.SampleOfSucceedsIff | finetune/target_models/document_labeling.py:61-78 | one document yields a sample iff it converts (page info, contiguous offsets, readable context), its context entries match the joined page texts when the default context is on, and its labels match them; a conversion error takes precedence over a context mismatch, and that over a label mismatch |
| DocumentLabeling.PySliceInRange | finetune/target_models/document_labeling.py:72 | Python slicing of the joined text agrees with the plain subsequence when the bounds are in range |
| DocumentLabeling.TextToIds | finetune/target_models/document_labeling.py:82-91 | the generator's output, collected, is exactly `TextToIdsSpec`: each page's chunks rebased by the length of the pages before it, or an error at the first chunk whose starts and ends differ in number |
| DocumentLabeling.TextToIdsSucceedsIff | finetune/target_models/document_labeling.py:84-86 | the conversion succeeds iff every chunk of every page has as many token starts as token ends; the result then holds every chunk of every page |
| DocumentLabeling.TextToIdsAt | finetune/target_models/document_labeling.py:87-91 | chunk `k` of page `p` keeps its ids and tokens, and its starts and ends move by the total length of the earlier pages, so a start that pointed into the page points at the same character of the joined document |
| ClassWeights.ExampleWeightOneHot | finetune/nn/target_blocks.py:139-141 | for a one-hot target of class `c`, the example's raw weight is the class weight of `c` |
| ClassWeights.Normalize | finetune/nn/target_blocks.py:142-144 | the rescaling by count / sum is NaN (`None`) iff the batch is non-empty and its raw weights sum to zero, and otherwise gives one weight per example; `NormalizeSumsToCount` states the rest |
| ClassWeights.NormalizeSumsToCount | finetune/nn/target_blocks.py:142-144 | the rescaling is undefined (NaN) iff the weights are non-empty and sum to zero; otherwise it keeps proportions and makes the weights sum to their count |
| ClassWeights.ApplyClassWeight | finetune/nn/target_blocks.py:136-146 | the per-example weighting (each loss times its own rescaled class weight), with one result per loss; without class weights the losses come back unchanged; see `ApplyClassWeightOneHot` |
| ClassWeights.ApplyClassWeightOneHot | finetune/nn/target_blocks.py:136-146 | with one-hot targets and positive class weights, each example is weighted by its class's weight and the weighting is defined |
| ClassWeights.NoClassWeightsUnchanged | finetune/nn/target_blocks.py:136-162 | without class weights, both weighting functions return the losses unchanged |
| ClassWeights.ApplyClassWeightAsWritten | finetune/nn/target_blocks.py:136-146 | the weighting as written: the losses come back unchanged iff there are no class weights, and with weights that normalise the product with `expand_dims(weights, 1)` is a batch × batch matrix; what that matrix averages to is `AsWrittenMeanIgnoresWeights` |
| ClassWeights.AsWrittenMeanIgnoresWeights | finetune/nn/target_blocks.py:142-145 | as written, the broadcast matrix sums to (sum of losses) × (batch size) whatever the class weights, so its mean equals the unweighted mean |
| ClassWeights.ClassWeightCounterexample | finetune/nn/target_blocks.py:139-145 | for weights [1, 3] and one example of each class, the per-example weighting gives [0.5, 0] while the code as written yields the 2×2 outer product |
| ClassWeights.MultilabelRawWeightBinary | finetune/nn/target_blocks.py:152-157 | for binary targets, each raw multilabel weight is the class weight on a positive and 1 on a negative |
| ClassWeights.ApplyMultilabelClassWeight | finetune/nn/target_blocks.py:149-162 | each loss entry times its rescaled raw weight (class weight on a positive, 1 on a negative), with one result row per loss row; see `MultilabelWeightsSumToCount` |
| ClassWeights.MultilabelWeightsSumToCount | finetune/nn/target_blocks.py:149-162 | the rescaled multilabel weights sum to (examples × classes), and each loss entry is multiplied by its own rescaled weight |
| Regression.UpperNames | finetune/nn/target_blocks.py:286-288 | the upper-cased loss name is "L2" iff the name is "L2" or "l2", and likewise for "L1" |
| Regression.RegressionLoss | finetune/nn/target_blocks.py:283-295 | no targets give no loss; otherwise the upper-cased name selects `l2_loss(outputs - targets)` (half the sum of squares) or `abs(outputs - targets)`, the subtraction broadcasting its operands and failing when they do not broadcast, and any other name is an error; see `RegressionLossDispatch` |
| Regression.RegressionLossDispatch | finetune/nn/target_blocks.py:283-295 | no targets give no loss, whatever the name; with targets a name other than L1, l1, L2, l2 is reported as unknown; an accepted name fails iff the shapes do not broadcast, and otherwise picks L2 or L1 by name |
| Regression.DifferenceShape | finetune/nn/target_blocks.py:287-289 | `outputs - targets` is defined iff each axis has equal sizes or a size of 1 on one side, and then has the broadcast shape |
| Regression.SameShapeDifference | finetune/nn/target_blocks.py:287-289 | targets of the outputs' own shape are subtracted entry by entry |
| Regression.VectorTargetsPairwise | finetune/nn/target_blocks.py:268-289 | with one output per example and targets of shape `[batch_size]` as documented, the difference is a batch × batch matrix whose entry (i, j) is output `i` minus target `j` |
| Regression.VectorTargetsExample | finetune/nn/target_blocks.py:268-287 | for outputs [[0], [0]], the targets [1, -1] as a vector give L2 loss 2, and as a column give 1 |
| Regression.L2LossNonNegative | finetune/nn/target_blocks.py:287 | whenever the shapes broadcast the L2 loss is defined and non-negative, and it is zero when every broadcast difference is zero |
| Regression.L2LossAtTargets | finetune/nn/target_blocks.py:287 | outputs that equal their targets have L2 loss 0 |
| Regression.L1LossEntries | finetune/nn/target_blocks.py:289 | for targets of the outputs' shape, each L1 entry is non-negative, zero iff that output equals its target, and is the difference taken in one direction or the other |
| SequenceLabeling.DefaultLengthsWeighted | finetune/nn/target_blocks.py:438-442 | without lengths every row's length is the padded width, so it lies in [0, width]; for a positive width every row's weights are defined and sum to 1 |
| SequenceLabeling.TokenWeightRow | finetune/nn/target_blocks.py:508-510 | `sequence_mask(len, maxlen) / len` for one row: `1/len` on the first `len` positions and 0 after; a zero length over a positive width is NaN (`None`), and a zero width gives an empty row; see the next three lemmas |
| SequenceLabeling.TokenWeightRowDegenerate | finetune/nn/target_blocks.py:508-510 | the mask-over-length weights are NaN iff the length is zero and the width positive; a zero width gives an empty row; a negative length weighs every position 0 |
| SequenceLabeling.TokenWeightsSumToOne | finetune/nn/target_blocks.py:508-510 | for 0 < len ≤ max length the per-token weights are defined, zero on padding and sum to 1 |
| SequenceLabeling.TokenWeightsAverage | finetune/nn/target_blocks.py:508-510 | weighting per-token losses by them gives the mean of the first `len` losses |
| SequenceLabeling.PaddingInvariant | finetune/nn/target_blocks.py:508-510 | changing losses at padded positions does not change the weighted sum |
| SequenceLabeling.OneHotRow | finetune/nn/target_blocks.py:489 | `one_hot(t, depth)` has the requested depth, 1 at index `t` and 0 elsewhere (all zeros for an out-of-range `t`) |
| SequenceLabeling.TokenClassWeightIsClassWeight | finetune/nn/target_blocks.py:489-492 | the summed one-hot product is the class weight of an in-range target and 0 for an out-of-range one |
| SequenceLabeling.PerTokenWeights | finetune/nn/target_blocks.py:487-493 | the per-token weights `reduce_sum(class_weights * one_hot(targets))`, computed only when training with class weights, one per token; see `PerTokenWeightsSpec` |
| SequenceLabeling.PerTokenWeightsSpec | finetune/nn/target_blocks.py:487-493 | per-token weights exist iff class weights are given and training is on; each token's weight is its target class's weight |
| SequenceLabeling.ClassPair | finetune/nn/target_blocks.py:457-461 | each class's pair tensor has the batch and sequence shape with two columns: at every token, the pad class's logit and then the class's logit |
| SequenceLabeling.ClassTokenWeightBinary | finetune/nn/target_blocks.py:464-465 | a token positive for class `i` gets weight `w[i]`; a negative one gets `w[pad]` |
| SequenceLabeling.MultilabelLoss | finetune/nn/target_blocks.py:447-485 | the loss the loop accumulates over the first `k` classes: per non-pad class with targets, minus its CRF log-likelihood or plus its cross-entropy; see the three lemmas below |
| SequenceLabeling.MultilabelHeads | finetune/nn/target_blocks.py:447-485 | the loop creates one 2×2 transition per class and one pair tensor per class, computes the class-weight tensors for the non-pad classes that have targets, and accumulates exactly `MultilabelLoss` (the weighted branch reweights the last pair built, the unweighted branch pair `i`) |
| SequenceLabeling.MultilabelLossWithoutTargets | finetune/nn/target_blocks.py:436-462 | without targets, the multilabel loss stays 0 |
| SequenceLabeling.MultilabelLossIgnoresPad | finetune/nn/target_blocks.py:462 | the pad class contributes nothing: likelihoods or cross-entropies that differ only at the pad class give the same loss |
| SequenceLabeling.MultilabelLossIsNegatedLikelihood | finetune/nn/target_blocks.py:469-475 | with a CRF, the loss is minus the sum of the per-class log-likelihoods over the non-pad classes |
| SequenceLabeling.StackedPairs | finetune/nn/target_blocks.py:485 | stacking the pairs gives, at batch `b`, token `t`, class `i`, the pad logit in column 0 and class `i`'s logit in column 1 |
| SemiSupervised.SplitPartition | finetune/nn/target_blocks.py:780-784 | labeled and unlabeled parts rebuild the batch; pseudo-label's unlabeled rows are the tail after the labeled ones, while vat (582-585), ict (902-907) and mean teacher (1075-1078) use the whole batch |
| SemiSupervised.MaxOfBounds | finetune/nn/target_blocks.py:798 | the maximum is one of the entries and lies within their bounds |
| SemiSupervised.TokenSequenceProb | finetune/nn/target_blocks.py:797-799 | without a CRF, the sequence probability (the mean over tokens of each token's largest class probability) is NaN iff there are no tokens; `TokenSequenceProbBounds` bounds it |
| SemiSupervised.TokenSequenceProbBounds | finetune/nn/target_blocks.py:798-799 | the sequence probability (mean over tokens of the per-token maximum) is NaN iff there are no tokens, and otherwise lies in [0, 1] |
| SemiSupervised.PseudoLabelBatch | finetune/nn/target_blocks.py:780-810 | the labeled rows followed by the unlabeled rows whose probability is strictly above the threshold, for logits, lengths and targets alike; see `PseudoLabelBatchAligned` |
| SemiSupervised.PseudoLabelBatchAligned | finetune/nn/target_blocks.py:802-810 | the new batch is the labeled rows followed by the kept unlabeled rows; logits, lengths and targets stay aligned row for row |
| SemiSupervised.PseudoLabelNoneKept | finetune/nn/target_blocks.py:802-810 | when no probability beats the threshold, only the labeled rows remain |
| SemiSupervised.PseudoLabelAllKept | finetune/nn/target_blocks.py:802-810 | when all beat it, the whole batch remains and the decoded sequences are appended to the targets |
| SemiSupervised.PseudoLabelHighThreshold | finetune/nn/target_blocks.py:802-803 | a threshold of 1 or more adds no pseudo-labels |
| SemiSupervised.CrfProbs | finetune/nn/target_blocks.py:636-655 | the result has one row per example with top_k + 1 columns; column `k` is the k-th best sequence's probability; each row sums to 1 |
| SemiSupervised.LeftoverCompletes | finetune/nn/target_blocks.py:650-653 | appending 1 minus the top-k mass completes the row to a total of 1 |
| SemiSupervised.LeftoverNonNegative | finetune/nn/target_blocks.py:650-651 | the leftover probability is non-negative iff the top-k mass is at most 1, and is never above 1 |
| SemiSupervised.VatPerturbation | finetune/nn/target_blocks.py:669-677 | the loop applies the refinement step exactly vat_k times to the initial vector |
| SemiSupervised.SslCoefficient | finetune/nn/target_blocks.py:1007 | the coefficient is never negative, never below ssl_loss_coef × fraction, and is one of the two |
| SemiSupervised.SslCoefficientWarmup | finetune/nn/target_blocks.py:1004-1007 | for a non-negative base, the coefficient grows with the warmup fraction, is at most the base once the fraction is at most 1, and is 0 at the start |
| SemiSupervised.SupervisedLoss | finetune/nn/target_blocks.py:690-712 | with TSA and no labeled rows the loss is 0; otherwise the CRF branch's mean negated log-likelihood, NaN iff there are no rows, or the cross-entropy branch's already-reduced number, 0 on an empty batch; it is NaN exactly for an empty CRF batch without TSA |
| SemiSupervised.VatLoss | finetune/nn/target_blocks.py:706-713 | the mean supervised loss plus `ssl_loss_coef` times the adversarial loss is a number iff the supervised loss is; see `EmptyLabeledBatch` |
| SemiSupervised.IctLoss | finetune/nn/target_blocks.py:995-1010 | the mean supervised loss plus the warmed-up, floored coefficient times the consistency loss is a number iff the supervised loss is; see `WarmupStartIsSupervised` |
| SemiSupervised.MeanTeacherLossAsWritten | finetune/nn/target_blocks.py:1134-1149 | the mean teacher's loss as written, the mean supervised loss plus `ssl_loss_coef` times the consistency loss, is a number iff the supervised loss is; `MeanTeacherCounterexample` shows it ignores the computed coefficient |
| SemiSupervised.MeanTeacherLoss | finetune/nn/target_blocks.py:1134-1149 | the mean teacher's loss with the coefficient computed at 1146, which is the interpolation head's loss, is a number iff the supervised loss is; see `WarmupStartIsSupervised` |
| SemiSupervised.WarmupStartIsSupervised | finetune/nn/target_blocks.py:1010 | at warmup fraction 0, the ICT loss and the corrected mean-teacher loss equal the supervised loss |
| SemiSupervised.MeanTeacherCounterexample | finetune/nn/target_blocks.py:1146-1149 | at fraction 0, with loss 0, base 1 and consistency 1, the code as written gives 1 while the computed coefficient gives 0 |
| SemiSupervised.EmptyLabeledBatch | finetune/nn/target_blocks.py:690-713 | with no labeled row left, each head's loss is its consistency term alone under TSA or on the cross-entropy branch, and NaN on the CRF branch without TSA |
| LanguageModels.FlatPositionsLength | finetune/nn/target_blocks.py:44 | the flattened positions have batch × slots entries |
| LanguageModels.FlatSlot | finetune/nn/target_blocks.py:38-44 | flat slot `j` is position `j % slots` of row `j / slots`, shifted by that row's offset |
| LanguageModels.MlmGather | finetune/nn/target_blocks.py:38-46 | the flat positions of the slots whose weight exceeds 1e-9, the hidden states gathered there and those slots' ids, or an out-of-range gather; see the lemmas below |
| LanguageModels.MlmGatherSucceeds | finetune/nn/target_blocks.py:43-46 | when every non-padding slot's flat position falls inside the flattened hidden states, the gather is defined |
| LanguageModels.MlmGatherFails | finetune/nn/target_blocks.py:45 | otherwise it is an out-of-range gather |
| LanguageModels.RealSlotGathered | finetune/nn/target_blocks.py:43-44 | every slot whose weight exceeds 1e-9 appears in the masked flat positions, with its shifted position |
| LanguageModels.MlmGatherAt | finetune/nn/target_blocks.py:38-46 | gathered entry `k` comes from a slot of weight > 1e-9; it carries that slot's id and shifted position and, for an in-row position, that row's hidden state at that position; ids, positions and states stay aligned |
| LanguageModels.MlmScatterShapes | finetune/nn/target_blocks.py:78-82 | rank-1 indices of length K are one index of depth K, so the call as written is refused for every K ≥ 1 and, for K = 0, accepted only for an empty batch; with `expand_dims(flat_positions, -1)` it is accepted for every K |
| LanguageModels.ScatterGather | finetune/nn/target_blocks.py:78-82 | scattering updates at distinct in-range indices puts each update at its index and 0 everywhere else |
| LanguageModels.ScatterTotal | finetune/nn/target_blocks.py:78-82 | with in-range indices, repeated or not, the scattered column sums to the total of the updates (`scatter_nd` adds updates that share an index) |
| LanguageModels.FlatPositionsDistinct | finetune/nn/target_blocks.py:38-44 | when every real slot's position lies inside its own row and no row repeats a position among its real slots, the masked flat positions lie in the flattened batch and are pairwise distinct, which is what `ScatterGather` needs |
| LanguageModels.LmShiftAligned | finetune/nn/target_blocks.py:117-124 | flat row `b × (seq − 1) + t` pairs the logits at token `t` with the label at token `t + 1`, weighted 1 iff `t + 1` is inside the row's length |
| LanguageModels.LmPairCount | finetune/nn/target_blocks.py:119-124 | offset logits, labels and weights all have batch × (seq − 1) rows |
| LanguageModels.LmOffsetLogits | finetune/nn/target_blocks.py:119 | `reshape(logits[:, :-1], [-1, vocab])`: every position but the last, flattened; see `LmShiftAligned` |
| LanguageModels.LmLabels | finetune/nn/target_blocks.py:123 | `reshape(X[:, 1:], [-1])`: every token but the first, flattened; see `LmShiftAligned` |
| LanguageModels.LmWeights | finetune/nn/target_blocks.py:106-124 | `reshape(M[:, 1:], [-1])` for `M = sequence_mask(lengths)`: the mask of every position but the first, flattened; see `LmShiftAligned` |
| Association.PairMask | finetune/nn/target_blocks.py:1254-1257 | `expand_dims(mask, 1) * expand_dims(mask, 2)` for one row, a width × width matrix; see `PairMaskEntries` |
| Association.PairMaskEntries | finetune/nn/target_blocks.py:1254-1257 | the pair mask is 1 at (i, j) iff both i and j are below the length, and is symmetric |
| Association.PairMaskTotal | finetune/nn/target_blocks.py:1254-1257 | a row of length `len` keeps exactly len² pairs |
| Association.FlatPairMask | finetune/nn/target_blocks.py:1259-1263 | `reshape(mask, [-1])` of the per-row pair masks; see `FlatPairMaskAt` |
| Association.FlatPairMaskAt | finetune/nn/target_blocks.py:1259-1263 | the flattened mask weight of pair (i, j) of row `b` sits at `(b × L + i) × L + j` and is 1 iff both tokens are real |
| Association.PairFeatures | finetune/nn/target_blocks.py:1208-1220 | the features of pair (i, j): `a - b`, `a * b`, `tile(a)`, `tile(b)` at (i, j), that is h[j] − h[i], h[j] · h[i], h[j], h[i]; see `PairFeaturesLayout` |
| Association.PairFeaturesLayout | finetune/nn/target_blocks.py:1208-1222 | the features are four head-width blocks, the width the reshape to `[-1, nx * 4]` expects: the difference, the product, h[j] and h[i], entry by entry |
| Association.ExampleFeatures | finetune/nn/target_blocks.py:1181-1220 | the concat of `a - b`, `a * b` and the copies tiled by `config.max_length` succeeds iff the hidden width equals `config.max_length` |
| Association.ExampleFeaturesAt | finetune/nn/target_blocks.py:1208-1223 | then there are max_length² feature rows, and row `i × L + j` holds the `4 × nx` features of pair (i, j), the position of that pair's weight in the flattened mask |
| MultiChoice.MultiChoiceLogits | finetune/nn/target_blocks.py:210-216 | unstack the choices, concatenate them along the batch, score each hidden state, split the scores back into choices and concatenate them as columns; see `MultiChoiceRegroup` |
| MultiChoice.MultiChoiceRegroup | finetune/nn/target_blocks.py:210-216 | unstacking, scoring, splitting and concatenating returns score `[b][c]` for the hidden state of choice `c` of example `b` |
| Tensors.FlattenAt | finetune/nn/target_blocks.py:44 | flattening puts entry (b, p) of a rectangular tensor at `b × cols + p` |
| Tensors.BooleanMaskAt | finetune/nn/target_blocks.py:804-806 | `boolean_mask` keeps as many entries as the mask has true positions, in order, each the entry at its kept index |
| Tensors.KeptIndices | finetune/nn/target_blocks.py:803-804 | the kept indices are exactly the true positions of the mask, each once, increasing |

## Left out

- Neural computations are left out or become function parameters: dense layers, dropout,
  `perceptron`, CRF log-likelihood, Viterbi and top-k decoding, softmax, `exp`, KL divergence,
  MSE, gradients, `class_reweighting` (a gradient-scaling op), embeddings.
- The ICT and mean-teacher EMA getter, the beta-distribution samples and the shuffles are left out.
- The ICT mixup (target_blocks.py:937, 955), a convex combination of inputs and of teacher
  logits, is not modelled: it is floating-point arithmetic on network outputs, with no index
  bookkeeping to check.
- Randomness is a parameter: the VAT random start and the refinement step are parameters of
  `VatPerturbation`.
- The step counter and `warmup_constant` are parameters: the warmup fraction is given as a number.
- The TSA filtering is a parameter. Only its "no targets left" case is modelled.
- Floating point is modelled as exact reals:
  - the NaN from 0/0 is `None`;
  - rounding is not modelled;
  - TensorFlow's `SUM_BY_NONZERO_WEIGHTS` reduction of `sparse_softmax_cross_entropy` is a parameter (`CrossEntropy.reduced`), except that an empty batch gives 0.
- The parent `_text_to_ids` encoder is a function parameter, and the generator is modelled as the collected list.
- The non-CRF single-label loss and the crf_log_likelihood values are parameters (`crossEntropy`, `logLikelihood`). The model states only how they are combined.
- `Regression.Upper` upper-cases ASCII letters only. Python's `str.upper` on other characters is not modelled.
- Regression.L2LossNonNegative: states that the loss is non-negative and is zero when every broadcast difference is zero. It does not state the converse (zero only then).
- `Difference` models broadcasting for rank-2 outputs and rank-1 or rank-2 targets, the shapes the regressor receives. Targets of higher rank are not modelled.
- The language model's `sequence_mask` default `maxlen` (the largest length) is taken to be the sequence length.
- The perplexity output is not modelled.
- Association.PairFeatures: takes the features of one pair of a row of the hidden width. The head tiles its copies by `config.max_length`, so the whole-example features succeed only when the hidden width is `config.max_length` (`ExampleFeatures`); the batch dimension of that check is not modelled.
- The scatter of the MLM logits is modelled one vocabulary column at a time (`Scatter`), with the column indices the call needs (see Findings). The call as written is modelled by `scatter_nd`'s documented shape rule alone (`MlmScatterAsWritten`). Whether a particular TensorFlow version enforces that rule at run time, or reads rank-1 indices differently, is not modelled.
- The source does not ensure that the masked positions are distinct. `FlatPositionsDistinct` gives the condition under which they are, and `ScatterTotal` covers repeated positions.
- An out-of-range `tf.gather` on GPU returns zeros instead of failing. It is modelled as the CPU failure.
- `multi_choice` passes integer targets to `_apply_class_weight`, which expects one-hot targets. That shape mismatch is not modelled.
- The parts of `finetune` outside these two files are not part of this model: the other target heads, their models, the tokenizers and the training loop.

## Findings

| source | as written | input that shows it | evidently intended | confidence | as-written member | corrected member |
|---|---|---|---|---|---|---|
| finetune/nn/target_blocks.py:145 | `losses *= tf.expand_dims(weights, 1)` multiplies rank-1 per-example losses by a column, so they broadcast to a batch × batch matrix whose total is sum(losses) × batch whatever the weights | class weights [1, 3], targets one-hot [1,0] and [0,1], losses [1, 0]: the result is the matrix [[0.5, 0], [1.5, 0]] and its mean is the unweighted mean 0.5 | multiply each example's loss by its own rescaled class weight, giving [0.5, 0] | high, not executed | ClassWeights.ApplyClassWeightAsWritten | ClassWeights.ApplyClassWeight |
| finetune/nn/target_blocks.py:1149 | mean_teacher adds `config.ssl_loss_coef * u_loss`, ignoring the warmed-up, floored `loss_coef` computed at 1146 | supervised loss 0, ssl_loss_coef 1, warmup fraction 0, consistency loss 1: the loss is 1 where the warmup says 0 | add `loss_coef * u_loss`, as ict does at 1010 | medium, not executed | SemiSupervised.MeanTeacherLossAsWritten | SemiSupervised.MeanTeacherLoss |
| finetune/nn/target_blocks.py:78-82 | `tf.scatter_nd(indices=flat_positions, updates=logits, shape=[batch * seq, n_vocab])` passes the rank-1 `flat_positions` of the K real slots; `scatter_nd` reads rank-1 indices as one index of depth K, so it needs updates of shape `shape[K:]`, not the `[K, n_vocab]` logits | any batch with one real slot (K = 1): the updates have shape [1, n_vocab] where [n_vocab] is needed, and the call is refused | indices `expand_dims(flat_positions, -1)`, one depth-1 index per logits row, so each row of logits goes back to the flat position it was gathered from | medium, not executed | LanguageModels.MlmScatterAsWritten | LanguageModels.Scatter |
