/** The index bookkeeping of the two language-model heads. The masked
    language model turns per-row mask positions into positions of the
    flattened batch, drops the padding slots, gathers the hidden states there
    and scatters the predictions back. The causal language model pairs the
    prediction at each position with the next token. */
module LanguageModels {
  import opened Results
  import opened RealSums
  import opened Tensors

  // ---------------------------------------------------------------------
  // Masked language model.
  // ---------------------------------------------------------------------

  /** A mask slot is real when its weight exceeds 1e-9. */
  const PaddingWeight: real := 0.000000001

  /** The slot positions shifted by each row's offset `b * seqLen` in the
      flattened batch, then flattened. */
  function FlatPositions(positions: seq<seq<int>>, seqLen: nat): seq<int>
  {
    Flatten(ShiftedRows(positions, seqLen))
  }

  function ShiftedRows(positions: seq<seq<int>>, seqLen: nat): (r: seq<seq<int>>)
    ensures |r| == |positions|
    ensures forall b :: 0 <= b < |positions| ==> |r[b]| == |positions[b]|
    ensures forall b, p :: 0 <= b < |positions| && 0 <= p < |positions[b]| ==> r[b][p] == positions[b][p] + b * seqLen
  {
    seq(|positions|, b requires 0 <= b < |positions| =>
      seq(|positions[b]|, p requires 0 <= p < |positions[b]| => positions[b][p] + b * seqLen))
  }

  /** Which slots of the flattened mask are real. */
  function NotPadding(weights: seq<seq<real>>): (r: seq<bool>)
    ensures |r| == |Flatten(weights)|
  {
    var w := Flatten(weights);
    seq(|w|, k requires 0 <= k < |w| => w[k] > PaddingWeight)
  }

  /** What the head feeds its projection: the flat positions of the real
      slots, the hidden states gathered there and the token ids to predict. */
  datatype MlmBatch<F> = MlmBatch(flatPositions: seq<int>, gathered: seq<F>, ids: seq<int>)

  /** Shapes the head works with: `hidden` is `[batch][seqLen]`, the slot
      positions, weights and ids are `[batch][slots]`. */
  predicate MlmShapes<F>(hidden: seq<seq<F>>, positions: seq<seq<int>>, weights: seq<seq<real>>, ids: seq<seq<int>>, seqLen: nat, slots: nat)
  {
    Rectangular(hidden, seqLen) && Rectangular(positions, slots) && Rectangular(weights, slots) && Rectangular(ids, slots)
    && |positions| == |weights| == |ids| == |hidden|
  }

  /** Gathers the hidden states at the real slots. A flat position outside
      the flattened batch is an out-of-range gather, which fails. */
  function MlmGather<F>(hidden: seq<seq<F>>, positions: seq<seq<int>>, weights: seq<seq<real>>, ids: seq<seq<int>>, seqLen: nat, slots: nat): Option<MlmBatch<F>>
    requires MlmShapes(hidden, positions, weights, ids, seqLen, slots)
  {
    var mask := NotPadding(weights);
    var flatHidden := Flatten(hidden);
    FlatPositionsLength(positions, seqLen, slots);
    FlattenLength(ids, slots);
    FlattenLength(weights, slots);
    var fp := BooleanMask(FlatPositions(positions, seqLen), mask);
    if forall k :: 0 <= k < |fp| ==> 0 <= fp[k] < |flatHidden| then
      Some(MlmBatch(fp, seq(|fp|, k requires 0 <= k < |fp| => flatHidden[fp[k]]), BooleanMask(Flatten(ids), mask)))
    else None
  }

  lemma FlatPositionsLength(positions: seq<seq<int>>, seqLen: nat, slots: nat)
    requires Rectangular(positions, slots)
    ensures Rectangular(ShiftedRows(positions, seqLen), slots)
    ensures |FlatPositions(positions, seqLen)| == |positions| * slots
  {
    FlattenLength(ShiftedRows(positions, seqLen), slots);
  }

  /** Slot `j` of the flattened mask is slot `j % slots` of row `j / slots`,
      at flat position `positions[b][p] + b * seqLen`. */
  lemma FlatSlot(positions: seq<seq<int>>, seqLen: nat, slots: nat, j: nat)
    requires Rectangular(positions, slots)
    requires j < |positions| * slots
    ensures slots > 0 && j / slots < |positions| && j % slots < slots
    ensures j < |FlatPositions(positions, seqLen)|
    ensures FlatPositions(positions, seqLen)[j] == positions[j / slots][j % slots] + (j / slots) * seqLen
  {
    FlatPositionsLength(positions, seqLen, slots);
    FlattenAtIndex(ShiftedRows(positions, seqLen), slots, j);
  }

  /** Every real slot's flat position in the flattened batch, and nothing else. */
  predicate RealSlotsInRange(positions: seq<seq<int>>, weights: seq<seq<real>>, batch: nat, seqLen: nat, slots: nat)
    requires Rectangular(positions, slots) && Rectangular(weights, slots) && |positions| == |weights| == batch
  {
    forall b, p :: 0 <= b < batch && 0 <= p < slots && weights[b][p] > PaddingWeight ==>
      0 <= positions[b][p] + b * seqLen < batch * seqLen
  }

  /** The gather succeeds when every real slot's flat position lies in the flattened batch. */
  lemma MlmGatherSucceeds<F>(hidden: seq<seq<F>>, positions: seq<seq<int>>, weights: seq<seq<real>>, ids: seq<seq<int>>, seqLen: nat, slots: nat)
    requires MlmShapes(hidden, positions, weights, ids, seqLen, slots)
    requires RealSlotsInRange(positions, weights, |hidden|, seqLen, slots)
    ensures MlmGather(hidden, positions, weights, ids, seqLen, slots).Some?
  {
    var mask := NotPadding(weights);
    FlatPositionsLength(positions, seqLen, slots);
    FlattenLength(hidden, seqLen);
    FlattenLength(weights, slots);
    var all := FlatPositions(positions, seqLen);
    var fp := BooleanMask(all, mask);
    KeptIndices(mask);
    BooleanMaskAt(all, mask);
    forall k | 0 <= k < |fp| ensures 0 <= fp[k] < |Flatten(hidden)| {
      var j := Kept(mask)[k];
      FlatSlot(positions, seqLen, slots, j);
      FlattenAtIndex(weights, slots, j);
    }
  }

  /** The gather fails when some real slot's flat position lies outside the flattened batch. */
  lemma MlmGatherFails<F>(hidden: seq<seq<F>>, positions: seq<seq<int>>, weights: seq<seq<real>>, ids: seq<seq<int>>, seqLen: nat, slots: nat)
    requires MlmShapes(hidden, positions, weights, ids, seqLen, slots)
    requires !RealSlotsInRange(positions, weights, |hidden|, seqLen, slots)
    ensures MlmGather(hidden, positions, weights, ids, seqLen, slots).None?
  {
    var b, p :| 0 <= b < |hidden| && 0 <= p < slots && weights[b][p] > PaddingWeight &&
      !(0 <= positions[b][p] + b * seqLen < |hidden| * seqLen);
    var k := RealSlotGathered(positions, weights, seqLen, slots, b, p);
    FlattenLength(hidden, seqLen);
  }

  /** A real slot `(b, p)` is among the kept ones, and its flat position is the one kept there. */
  lemma RealSlotGathered(positions: seq<seq<int>>, weights: seq<seq<real>>, seqLen: nat, slots: nat, b: nat, p: nat) returns (k: nat)
    requires Rectangular(positions, slots) && Rectangular(weights, slots) && |positions| == |weights|
    requires b < |weights| && p < slots && weights[b][p] > PaddingWeight
    ensures |FlatPositions(positions, seqLen)| == |NotPadding(weights)|
    ensures k < |BooleanMask(FlatPositions(positions, seqLen), NotPadding(weights))|
    ensures BooleanMask(FlatPositions(positions, seqLen), NotPadding(weights))[k] == positions[b][p] + b * seqLen
  {
    var mask := NotPadding(weights);
    FlatPositionsLength(positions, seqLen, slots);
    FlattenLength(weights, slots);
    var all := FlatPositions(positions, seqLen);
    FlattenAt(weights, slots, b, p);
    FlattenAt(ShiftedRows(positions, seqLen), slots, b, p);
    k := KeptPosition(mask, b * slots + p);
    BooleanMaskAt(all, mask);
  }

  /** Each gathered entry belongs to a real slot `(b, p)` of the mask, in
      flattened order: its id is that slot's id and, when the slot's
      position lies within its own row, its hidden state is the one at that
      position of row `b`. */
  lemma MlmGatherAt<F>(hidden: seq<seq<F>>, positions: seq<seq<int>>, weights: seq<seq<real>>, ids: seq<seq<int>>, seqLen: nat, slots: nat, k: nat)
    requires MlmShapes(hidden, positions, weights, ids, seqLen, slots)
    requires MlmGather(hidden, positions, weights, ids, seqLen, slots).Some?
    requires k < |Kept(NotPadding(weights))|
    ensures var r := MlmGather(hidden, positions, weights, ids, seqLen, slots).value;
      var j := Kept(NotPadding(weights))[k];
      && slots > 0 && j / slots < |hidden| && j % slots < slots
      && weights[j / slots][j % slots] > PaddingWeight
      && |r.ids| == |r.gathered| == |r.flatPositions| == |Kept(NotPadding(weights))|
      && r.ids[k] == ids[j / slots][j % slots]
      && r.flatPositions[k] == positions[j / slots][j % slots] + (j / slots) * seqLen
      && (0 <= positions[j / slots][j % slots] < seqLen ==> r.gathered[k] == hidden[j / slots][positions[j / slots][j % slots]])
  {
    var j := Kept(NotPadding(weights))[k];
    MaskedEntry(ids, weights, slots, k);
    FlatPositionsLength(positions, seqLen, slots);
    MaskedEntry(ShiftedRows(positions, seqLen), weights, slots, k);
    var b, p := j / slots, j % slots;
    if 0 <= positions[b][p] < seqLen {
      FlattenAt(hidden, seqLen, b, positions[b][p]);
    }
  }

  /** Masked entry `k` of a flattened `[batch][slots]` tensor is the entry at
      the `k`-th real slot. */
  lemma MaskedEntry<T>(m: seq<seq<T>>, weights: seq<seq<real>>, slots: nat, k: nat)
    requires Rectangular(m, slots) && Rectangular(weights, slots) && |m| == |weights|
    requires k < |Kept(NotPadding(weights))|
    ensures var j := Kept(NotPadding(weights))[k];
      && slots > 0 && j / slots < |m| && j % slots < slots
      && weights[j / slots][j % slots] > PaddingWeight
      && |Flatten(m)| == |NotPadding(weights)|
      && |BooleanMask(Flatten(m), NotPadding(weights))| == |Kept(NotPadding(weights))|
      && BooleanMask(Flatten(m), NotPadding(weights))[k] == m[j / slots][j % slots]
  {
    var mask := NotPadding(weights);
    FlattenLength(m, slots);
    FlattenLength(weights, slots);
    KeptIndices(mask);
    BooleanMaskAt(Flatten(m), mask);
    var j := Kept(mask)[k];
    FlattenAtIndex(m, slots, j);
    FlattenAtIndex(weights, slots, j);
  }

  /** The shape rule of `tf.scatter_nd(indices, updates, shape)`: the last
      axis of `indices` holds the index depth `d`, at most the rank of
      `shape`, and `updates` must have shape `indices.shape[:-1] + shape[d:]`. */
  predicate ScatterNdAccepts(indicesShape: seq<nat>, updatesShape: seq<nat>, shape: seq<nat>)
  {
    && |indicesShape| >= 1
    && indicesShape[|indicesShape| - 1] <= |shape|
    && updatesShape == indicesShape[..|indicesShape| - 1] + shape[indicesShape[|indicesShape| - 1]..]
  }

  /** The scatter as written: the rank-1 flat positions of the `k` real
      slots as indices, the `[k, nVocab]` logits as updates, and
      `[batch * seqLen, nVocab]` as the shape. */
  predicate MlmScatterAsWritten(k: nat, nVocab: nat, batch: nat, seqLen: nat)
  {
    ScatterNdAccepts([k], [k, nVocab], [batch * seqLen, nVocab])
  }

  /** The scatter with `expand_dims(flat_positions, -1)` as indices: one
      index of depth 1 per logits row. */
  predicate MlmScatterCorrected(k: nat, nVocab: nat, batch: nat, seqLen: nat)
  {
    ScatterNdAccepts([k, 1], [k, nVocab], [batch * seqLen, nVocab])
  }

  /** Rank-1 indices of length `k` are read as a single index of depth `k`,
      so the call as written is refused whenever there is a real slot, and
      with none it is accepted only for an empty batch. The call with
      column indices is accepted for every `k`. */
  lemma MlmScatterShapes(k: nat, nVocab: nat, batch: nat, seqLen: nat)
    ensures k >= 1 ==> !MlmScatterAsWritten(k, nVocab, batch, seqLen)
    ensures k == 0 ==> (MlmScatterAsWritten(k, nVocab, batch, seqLen) <==> batch * seqLen == 0)
    ensures MlmScatterCorrected(k, nVocab, batch, seqLen)
  {
    var shape := [batch * seqLen, nVocab];
    if k == 0 {
      assert [k][..0] + shape[0..] == shape;
    } else if k == 1 {
      assert |shape[1..]| == 1;
    } else if k == 2 {
      assert |shape[2..]| == 0;
    }
    assert [k, 1][..1] + shape[1..] == [k, nVocab];
  }

  /** One vocabulary column of the scatter with column indices: row `f` of
      the flattened batch receives the sum of the updates whose index is `f`. */
  function Scatter(indices: seq<int>, updates: seq<real>, size: nat): (r: seq<real>)
    requires |indices| == |updates|
    ensures |r| == size
  {
    seq(size, f requires 0 <= f < size =>
      Sum(seq(|indices|, k requires 0 <= k < |indices| => if indices[k] == f then updates[k] else 0.0)))
  }

  /** Scattering to distinct positions puts each prediction back where it
      was gathered from, and leaves every other row at 0. */
  lemma ScatterGather(indices: seq<int>, updates: seq<real>, size: nat)
    requires |indices| == |updates|
    requires forall k :: 0 <= k < |indices| ==> 0 <= indices[k] < size
    requires forall k, l :: 0 <= k < l < |indices| ==> indices[k] != indices[l]
    ensures forall k :: 0 <= k < |indices| ==> Scatter(indices, updates, size)[indices[k]] == updates[k]
    ensures forall f :: 0 <= f < size && f !in indices ==> Scatter(indices, updates, size)[f] == 0.0
  {
    forall k | 0 <= k < |indices| ensures Scatter(indices, updates, size)[indices[k]] == updates[k] {
      var f := indices[k];
      var terms := seq(|indices|, l requires 0 <= l < |indices| => if indices[l] == f then updates[l] else 0.0);
      SumSingle(terms, k);
    }
    forall f | 0 <= f < size && f !in indices ensures Scatter(indices, updates, size)[f] == 0.0 {
      var terms := seq(|indices|, l requires 0 <= l < |indices| => if indices[l] == f then updates[l] else 0.0);
      SumConstant(terms, 0.0);
    }
  }

  /** Whether or not indices repeat, in-range updates are all kept: repeated
      indices add up, so the scattered column sums to the updates' total. */
  lemma {:induction false} ScatterTotal(indices: seq<int>, updates: seq<real>, size: nat)
    requires |indices| == |updates|
    requires forall k :: 0 <= k < |indices| ==> 0 <= indices[k] < size
    ensures Sum(Scatter(indices, updates, size)) == Sum(updates)
    decreases |indices|
  {
    var r := Scatter(indices, updates, size);
    if |indices| == 0 {
      SumConstant(r, 0.0);
    } else {
      var n := |indices| - 1;
      ScatterTotal(indices[..n], updates[..n], size);
      var prev := Scatter(indices[..n], updates[..n], size);
      var last := seq(size, f requires 0 <= f < size => if indices[n] == f then updates[n] else 0.0);
      forall f | 0 <= f < size ensures r[f] == prev[f] + last[f] {
        ScatterStep(indices, updates, size, f);
      }
      SumAdd(prev, last, r);
      SumSingle(last, indices[n]);
    }
  }

  /** Row `f` of the scatter, one update at a time. */
  lemma ScatterStep(indices: seq<int>, updates: seq<real>, size: nat, f: nat)
    requires |indices| == |updates| > 0 && f < size
    ensures var n := |indices| - 1;
      Scatter(indices, updates, size)[f]
        == Scatter(indices[..n], updates[..n], size)[f] + (if indices[n] == f then updates[n] else 0.0)
  {
    var n := |indices| - 1;
    var terms := seq(|indices|, k requires 0 <= k < |indices| => if indices[k] == f then updates[k] else 0.0);
    assert terms[..n] == seq(n, k requires 0 <= k < n => if indices[..n][k] == f then updates[..n][k] else 0.0);
  }

  /** With every real slot's position inside its own row and no position
      repeated within a row, the gathered flat positions are in range and
      pairwise distinct, so the scatter puts each row of logits back at the
      slot it came from. */
  lemma FlatPositionsDistinct(positions: seq<seq<int>>, weights: seq<seq<real>>, seqLen: nat, slots: nat)
    requires Rectangular(positions, slots) && Rectangular(weights, slots) && |positions| == |weights|
    requires forall b, p :: 0 <= b < |weights| && 0 <= p < slots && weights[b][p] > PaddingWeight ==>
      0 <= positions[b][p] < seqLen
    requires forall b, p, q ::
      (0 <= b < |weights| && 0 <= p < q < slots && weights[b][p] > PaddingWeight && weights[b][q] > PaddingWeight) ==>
        positions[b][p] != positions[b][q]
    ensures |FlatPositions(positions, seqLen)| == |NotPadding(weights)|
    ensures var fp := BooleanMask(FlatPositions(positions, seqLen), NotPadding(weights));
      && (forall k :: 0 <= k < |fp| ==> 0 <= fp[k] < |weights| * seqLen)
      && (forall k, l :: 0 <= k < l < |fp| ==> fp[k] != fp[l])
  {
    FlatPositionsLength(positions, seqLen, slots);
    FlattenLength(weights, slots);
    var mask := NotPadding(weights);
    var fp := BooleanMask(FlatPositions(positions, seqLen), mask);
    KeptIndices(mask);
    BooleanMaskAt(FlatPositions(positions, seqLen), mask);
    forall k | 0 <= k < |fp| ensures 0 <= fp[k] < |weights| * seqLen {
      var b, p := FlatPositionOf(positions, weights, seqLen, slots, k);
      InRowBlock(b, positions[b][p], |weights|, seqLen);
    }
    forall k, l | 0 <= k < l < |fp| ensures fp[k] != fp[l] {
      var b1, p1 := FlatPositionOf(positions, weights, seqLen, slots, k);
      var b2, p2 := FlatPositionOf(positions, weights, seqLen, slots, l);
      if b1 == b2 {
        assert p1 < p2;
      } else {
        RowBlocksDisjoint(b1, b2, positions[b1][p1], positions[b2][p2], seqLen);
      }
    }
  }

  /** Masked flat position `k` is that of the `k`-th real slot `(b, p)`. */
  lemma FlatPositionOf(positions: seq<seq<int>>, weights: seq<seq<real>>, seqLen: nat, slots: nat, k: nat) returns (b: nat, p: nat)
    requires Rectangular(positions, slots) && Rectangular(weights, slots) && |positions| == |weights|
    requires k < |Kept(NotPadding(weights))|
    ensures b < |weights| && p < slots && weights[b][p] > PaddingWeight
    ensures b * slots + p == Kept(NotPadding(weights))[k]
    ensures |FlatPositions(positions, seqLen)| == |NotPadding(weights)|
    ensures k < |BooleanMask(FlatPositions(positions, seqLen), NotPadding(weights))|
    ensures BooleanMask(FlatPositions(positions, seqLen), NotPadding(weights))[k] == positions[b][p] + b * seqLen
  {
    FlatPositionsLength(positions, seqLen, slots);
    MaskedEntry(ShiftedRows(positions, seqLen), weights, slots, k);
    var j := Kept(NotPadding(weights))[k];
    FlattenLength(weights, slots);
    KeptIndices(NotPadding(weights));
    DivModBound(j, |weights|, slots);
    b, p := j / slots, j % slots;
  }

  lemma InRowBlock(b: nat, x: int, batch: nat, seqLen: nat)
    requires b < batch && 0 <= x < seqLen
    ensures 0 <= x + b * seqLen < batch * seqLen
  {
    MulMonotone(b, batch, seqLen);
  }

  /** Positions inside two different rows never meet in the flattened batch. */
  lemma RowBlocksDisjoint(b1: nat, b2: nat, x1: int, x2: int, seqLen: nat)
    requires b1 != b2 && 0 <= x1 < seqLen && 0 <= x2 < seqLen
    ensures x1 + b1 * seqLen != x2 + b2 * seqLen
  {
    if b1 < b2 {
      MulMonotone(b1, b2, seqLen);
    } else {
      MulMonotone(b2, b1, seqLen);
    }
  }

  // ---------------------------------------------------------------------
  // Causal language model: predict each next token.
  // ---------------------------------------------------------------------

  /** The logits of every position but the last, flattened. */
  function LmOffsetLogits<L>(logits: seq<seq<L>>, seqLen: nat): seq<L>
    requires seqLen > 0 && Rectangular(logits, seqLen)
  {
    Flatten(seq(|logits|, b requires 0 <= b < |logits| => logits[b][..seqLen - 1]))
  }

  /** The tokens of every position but the first, flattened. */
  function LmLabels(tokens: seq<seq<int>>, seqLen: nat): seq<int>
    requires seqLen > 0 && Rectangular(tokens, seqLen)
  {
    Flatten(seq(|tokens|, b requires 0 <= b < |tokens| => tokens[b][1..]))
  }

  /** The mask `sequence_mask(lengths)` of every position but the first, flattened. */
  function LmWeights(lengths: seq<int>, seqLen: nat): seq<real>
    requires seqLen > 0
  {
    Flatten(seq(|lengths|, b requires 0 <= b < |lengths| => SequenceMaskRow(lengths[b], seqLen)[1..]))
  }

  /** Entry `b * (seqLen - 1) + t` of the flattened pairs takes the logits
      of position `t` of row `b`, the token at position `t + 1` as its label,
      and counts exactly when that next token is within the row's length. */
  lemma LmShiftAligned<L>(logits: seq<seq<L>>, tokens: seq<seq<int>>, lengths: seq<int>, seqLen: nat, b: nat, t: nat)
    requires seqLen > 0 && Rectangular(logits, seqLen) && Rectangular(tokens, seqLen)
    requires |tokens| == |logits| == |lengths|
    requires b < |logits| && t < seqLen - 1
    ensures var q := b * (seqLen - 1) + t;
      && q < |LmOffsetLogits(logits, seqLen)| && q < |LmLabels(tokens, seqLen)| && q < |LmWeights(lengths, seqLen)|
      && LmOffsetLogits(logits, seqLen)[q] == logits[b][t]
      && LmLabels(tokens, seqLen)[q] == tokens[b][t + 1]
      && LmWeights(lengths, seqLen)[q] == (if t + 1 < lengths[b] then 1.0 else 0.0)
  {
    var cols := seqLen - 1;
    var lg := seq(|logits|, b requires 0 <= b < |logits| => logits[b][..seqLen - 1]);
    var lb := seq(|tokens|, b requires 0 <= b < |tokens| => tokens[b][1..]);
    var wt := seq(|lengths|, b requires 0 <= b < |lengths| => SequenceMaskRow(lengths[b], seqLen)[1..]);
    FlattenAt(lg, cols, b, t);
    FlattenAt(lb, cols, b, t);
    FlattenAt(wt, cols, b, t);
  }

  /** Every row gives one pair fewer than it has positions. */
  lemma LmPairCount<L>(logits: seq<seq<L>>, tokens: seq<seq<int>>, lengths: seq<int>, seqLen: nat)
    requires seqLen > 0 && Rectangular(logits, seqLen) && Rectangular(tokens, seqLen)
    requires |tokens| == |logits| == |lengths|
    ensures |LmOffsetLogits(logits, seqLen)| == |LmLabels(tokens, seqLen)| == |LmWeights(lengths, seqLen)| == |logits| * (seqLen - 1)
  {
    var cols := seqLen - 1;
    FlattenLength(seq(|logits|, b requires 0 <= b < |logits| => logits[b][..seqLen - 1]), cols);
    FlattenLength(seq(|tokens|, b requires 0 <= b < |tokens| => tokens[b][1..]), cols);
    FlattenLength(seq(|lengths|, b requires 0 <= b < |lengths| => SequenceMaskRow(lengths[b], seqLen)[1..]), cols);
  }
}
