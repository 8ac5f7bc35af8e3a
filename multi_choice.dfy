/** The regrouping of the multiple-choice head: the `[batch][choice]` hidden
    states are unstacked by choice, stacked choice-major, scored one at a
    time, split back into one block per choice and laid side by side, so
    that score `(b, c)` belongs to hidden state `(b, c)`. */
module MultiChoice {
  import opened RealSums
  import opened Tensors

  /** `unstack(hidden, axis=1)`: one `[batch]` block per choice. */
  function Unstack<F>(hidden: seq<seq<F>>, n: nat): (r: seq<seq<F>>)
    requires Rectangular(hidden, n)
    ensures Rectangular(r, |hidden|) && |r| == n
  {
    seq(n, c requires 0 <= c < n => seq(|hidden|, b requires 0 <= b < |hidden| => hidden[b][c]))
  }

  /** `split(scores, n, axis=0)`: `n` consecutive blocks of `size` entries. */
  function Split(scores: seq<real>, n: nat, size: nat): (r: seq<seq<real>>)
    requires |scores| == n * size
    ensures |r| == n
  {
    seq(n, c requires 0 <= c < n => SplitBlock(scores, n, size, c))
  }

  function SplitBlock(scores: seq<real>, n: nat, size: nat, c: nat): (r: seq<real>)
    requires |scores| == n * size && c < n
    ensures |r| == size
  {
    MulMonotone(c, n, size);
    MulStep(c, size);
    scores[c * size..(c + 1) * size]
  }

  /** `concat(blocks, axis=1)` of `[size]` blocks: row `b` takes entry `b` of every block. */
  function ConcatColumns(blocks: seq<seq<real>>, size: nat): (r: seq<seq<real>>)
    requires forall c :: 0 <= c < |blocks| ==> |blocks[c]| == size
    ensures |r| == size
  {
    seq(size, b requires 0 <= b < size => seq(|blocks|, c requires 0 <= c < |blocks| => blocks[c][b]))
  }

  /** The choice logits: each hidden state scored once, regrouped to `[batch][choice]`. */
  function MultiChoiceLogits<F>(hidden: seq<seq<F>>, n: nat, score: F -> real): seq<seq<real>>
    requires Rectangular(hidden, n)
  {
    var stacked := Flatten(Unstack(hidden, n));
    FlattenLength(Unstack(hidden, n), |hidden|);
    var scores := seq(|stacked|, r requires 0 <= r < |stacked| => score(stacked[r]));
    ConcatColumns(Split(scores, n, |hidden|), |hidden|)
  }

  /** Each choice's logit is the score of that choice's own hidden state. */
  lemma MultiChoiceRegroup<F>(hidden: seq<seq<F>>, n: nat, score: F -> real)
    requires Rectangular(hidden, n)
    ensures |MultiChoiceLogits(hidden, n, score)| == |hidden|
    ensures forall b :: 0 <= b < |hidden| ==> |MultiChoiceLogits(hidden, n, score)[b]| == n
    ensures forall b, c :: 0 <= b < |hidden| && 0 <= c < n ==> MultiChoiceLogits(hidden, n, score)[b][c] == score(hidden[b][c])
  {
    forall b, c | 0 <= b < |hidden| && 0 <= c < n
      ensures MultiChoiceLogits(hidden, n, score)[b][c] == score(hidden[b][c])
    {
      RegroupAt(hidden, n, score, b, c);
    }
  }

  /** Score `(b, c)` comes from position `c * batch + b` of the choice-major stack. */
  lemma RegroupAt<F>(hidden: seq<seq<F>>, n: nat, score: F -> real, b: nat, c: nat)
    requires Rectangular(hidden, n) && b < |hidden| && c < n
    ensures |MultiChoiceLogits(hidden, n, score)| == |hidden|
    ensures |MultiChoiceLogits(hidden, n, score)[b]| == n
    ensures MultiChoiceLogits(hidden, n, score)[b][c] == score(hidden[b][c])
  {
    var batch := |hidden|;
    var u := Unstack(hidden, n);
    var stacked := Flatten(u);
    FlattenLength(u, batch);
    FlattenAt(u, batch, c, b);
    var scores := seq(|stacked|, r requires 0 <= r < |stacked| => score(stacked[r]));
    assert SplitBlock(scores, n, batch, c)[b] == scores[c * batch + b];
  }
}
