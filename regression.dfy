/** The regression head's loss: the configured loss name, compared without
    regard to case, selects half the sum of squared errors ("L2") or the
    entry-wise absolute error ("L1"); any other name is an error. */
module Regression {
  import opened Results
  import opened RealSums

  /** Upper-casing of one character, over the ASCII letters. */
  function UpperChar(c: char): char
  {
    if 'a' <= c <= 'z' then (c as int - 32) as char else c
  }

  function Upper(s: string): (r: string)
    ensures |r| == |s|
  {
    seq(|s|, i requires 0 <= i < |s| => UpperChar(s[i]))
  }

  datatype Loss = L2(total: real) | L1(perEntry: seq<seq<real>>)

  datatype RegressionError = UnknownRegressionLoss(name: string) | IncompatibleShapes

  /** The targets tensor: a matrix of `cols` columns, or a vector with one
      target per example, the shape the regressor's docstring gives. */
  datatype Targets = Matrix(rows: seq<seq<real>>, cols: nat) | Vector(values: seq<real>)

  predicate WellShaped(t: Targets)
  {
    t.Matrix? ==> Rectangular(t.rows, t.cols)
  }

  /** Broadcasting aligns trailing axes, so a vector acts as a single row. */
  function Rows(t: Targets): seq<seq<real>>
  {
    if t.Matrix? then t.rows else [t.values]
  }

  function Cols(t: Targets): nat
  {
    if t.Matrix? then t.cols else |t.values|
  }

  /** Broadcasting of one axis: equal sizes, or a size of 1 stretched to the other size. */
  function BroadcastDim(a: nat, b: nat): (r: Option<nat>)
    ensures r.Some? <==> a == b || a == 1 || b == 1
    ensures r.Some? ==> (a == 1 || r.value == a) && (b == 1 || r.value == b)
  {
    if a == b then Some(a) else if a == 1 then Some(b) else if b == 1 then Some(a) else None
  }

  /** Entry `(i, j)` of a broadcast operand: an axis of size 1 is read at 0. */
  function Stretched(m: seq<seq<real>>, cols: nat, i: nat, j: nat): real
    requires Rectangular(m, cols)
    requires |m| == 1 || i < |m|
    requires cols == 1 || j < cols
  {
    m[if |m| == 1 then 0 else i][if cols == 1 then 0 else j]
  }

  /** `outputs - targets` with broadcasting, or `None` when the shapes do not broadcast. */
  function Difference(outputs: seq<seq<real>>, nTargets: nat, t: Targets): Option<seq<seq<real>>>
    requires Rectangular(outputs, nTargets) && WellShaped(t)
  {
    var rows := BroadcastDim(|outputs|, |Rows(t)|);
    var cols := BroadcastDim(nTargets, Cols(t));
    if rows.None? || cols.None? then None
    else
      Some(seq(rows.value, i requires 0 <= i < rows.value =>
        seq(cols.value, j requires 0 <= j < cols.value =>
          Stretched(outputs, nTargets, i, j) - Stretched(Rows(t), Cols(t), i, j))))
  }

  function Squares(d: seq<seq<real>>): seq<seq<real>>
  {
    seq(|d|, i requires 0 <= i < |d| => seq(|d[i]|, j requires 0 <= j < |d[i]| => d[i][j] * d[i][j]))
  }

  function Absolutes(d: seq<seq<real>>): seq<seq<real>>
  {
    seq(|d|, i requires 0 <= i < |d| => seq(|d[i]|, j requires 0 <= j < |d[i]| => Abs(d[i][j])))
  }

  function Abs(x: real): real { if x < 0.0 then -x else x }

  /** The regression loss, or `None` when there are no targets. The
      subtraction is reached only once the name has been accepted. */
  function RegressionLoss(lossName: string, outputs: seq<seq<real>>, nTargets: nat, targets: Option<Targets>): Result<Option<Loss>, RegressionError>
    requires Rectangular(outputs, nTargets)
    requires targets.Some? ==> WellShaped(targets.value)
  {
    match targets
    case None => Success(None)
    case Some(t) =>
      if Upper(lossName) == "L2" then
        match Difference(outputs, nTargets, t)
        case None => Failure(IncompatibleShapes)
        case Some(d) => Success(Some(L2(Sum2(Squares(d)) / 2.0)))
      else if Upper(lossName) == "L1" then
        match Difference(outputs, nTargets, t)
        case None => Failure(IncompatibleShapes)
        case Some(d) => Success(Some(L1(Absolutes(d))))
      else
        Failure(UnknownRegressionLoss(lossName))
  }

  /** Only the two letters of each name are accepted, in either case. */
  lemma UpperNames(s: string)
    ensures Upper(s) == "L2" <==> s == "L2" || s == "l2"
    ensures Upper(s) == "L1" <==> s == "L1" || s == "l1"
  {
    if |s| == 2 {
      var u := Upper(s);
      assert u[0] == 'L' <==> s[0] == 'L' || s[0] == 'l';
      assert u[1] == '2' <==> s[1] == '2';
      assert u[1] == '1' <==> s[1] == '1';
      assert u == [u[0], u[1]];
      assert s == [s[0], s[1]];
    }
  }

  /** Without targets there is no loss, whatever the name. With targets an
      unknown name is reported first; an accepted name fails only on shapes
      that do not broadcast, and "L1"/"L2" in either case select their loss. */
  lemma RegressionLossDispatch(lossName: string, outputs: seq<seq<real>>, nTargets: nat, targets: Option<Targets>)
    requires Rectangular(outputs, nTargets)
    requires targets.Some? ==> WellShaped(targets.value)
    ensures targets.None? ==> RegressionLoss(lossName, outputs, nTargets, targets) == Success(None)
    ensures targets.Some? && lossName !in {"L1", "l1", "L2", "l2"} ==>
      RegressionLoss(lossName, outputs, nTargets, targets) == Failure(UnknownRegressionLoss(lossName))
    ensures targets.Some? && lossName in {"L1", "l1", "L2", "l2"} ==>
      (RegressionLoss(lossName, outputs, nTargets, targets).Failure? <==> Difference(outputs, nTargets, targets.value).None?)
    ensures targets.Some? && lossName in {"L1", "l1", "L2", "l2"} && Difference(outputs, nTargets, targets.value).None? ==>
      RegressionLoss(lossName, outputs, nTargets, targets) == Failure(IncompatibleShapes)
    ensures targets.Some? && lossName in {"L2", "l2"} && Difference(outputs, nTargets, targets.value).Some? ==>
      RegressionLoss(lossName, outputs, nTargets, targets).value.value.L2?
    ensures targets.Some? && lossName in {"L1", "l1"} && Difference(outputs, nTargets, targets.value).Some? ==>
      RegressionLoss(lossName, outputs, nTargets, targets).value.value.L1?
  {
    UpperNames(lossName);
  }

  /** The shapes broadcast iff each axis agrees or one side of it has size 1;
      the difference then has the broadcast shape. */
  lemma DifferenceShape(outputs: seq<seq<real>>, nTargets: nat, t: Targets)
    requires Rectangular(outputs, nTargets) && WellShaped(t)
    ensures Difference(outputs, nTargets, t).Some? <==>
      (|outputs| == |Rows(t)| || |outputs| == 1 || |Rows(t)| == 1) &&
      (nTargets == Cols(t) || nTargets == 1 || Cols(t) == 1)
    ensures Difference(outputs, nTargets, t).Some? ==>
      var d := Difference(outputs, nTargets, t).value;
      && (|d| == |outputs| || |outputs| == 1) && (|d| == |Rows(t)| || |Rows(t)| == 1)
      && forall i :: 0 <= i < |d| ==> (|d[i]| == nTargets || nTargets == 1) && (|d[i]| == Cols(t) || Cols(t) == 1)
  {
  }

  /** Targets of the outputs' own shape are subtracted entry by entry. */
  lemma SameShapeDifference(outputs: seq<seq<real>>, nTargets: nat, targets: seq<seq<real>>)
    requires Rectangular(outputs, nTargets) && Rectangular(targets, nTargets) && |targets| == |outputs|
    ensures Difference(outputs, nTargets, Matrix(targets, nTargets)).Some?
    ensures var d := Difference(outputs, nTargets, Matrix(targets, nTargets)).value;
      && |d| == |outputs|
      && (forall i :: 0 <= i < |d| ==> |d[i]| == nTargets)
      && forall i, j :: 0 <= i < |d| && 0 <= j < nTargets ==> d[i][j] == outputs[i][j] - targets[i][j]
  {
  }

  /** With one output per example and targets given as a `[batch_size]`
      vector, the subtraction broadcasts to a batch × batch matrix: entry
      `(i, j)` pairs example `i`'s output with example `j`'s target. */
  lemma VectorTargetsPairwise(outputs: seq<seq<real>>, values: seq<real>)
    requires Rectangular(outputs, 1) && |values| == |outputs|
    ensures Difference(outputs, 1, Vector(values)).Some?
    ensures var d := Difference(outputs, 1, Vector(values)).value;
      && |d| == |outputs|
      && (forall i :: 0 <= i < |d| ==> |d[i]| == |values|)
      && forall i, j :: 0 <= i < |d| && 0 <= j < |values| ==> d[i][j] == outputs[i][0] - values[j]
  {
  }

  /** Two examples with outputs 0 and targets [1, -1]: the vector form gives
      an L2 loss of 2, four squared pairwise differences halved, while the
      same targets as a column give 1. */
  lemma VectorTargetsExample()
    ensures RegressionLoss("L2", [[0.0], [0.0]], 1, Some(Vector([1.0, -1.0]))) == Success(Some(L2(2.0)))
    ensures RegressionLoss("L2", [[0.0], [0.0]], 1, Some(Matrix([[1.0], [-1.0]], 1))) == Success(Some(L2(1.0)))
  {
    UpperNames("L2");
    var o := [[0.0], [0.0]];
    VectorTargetsPairwise(o, [1.0, -1.0]);
    var d := Difference(o, 1, Vector([1.0, -1.0])).value;
    assert d[0][0] == -1.0 && d[0][1] == 1.0 && d[1][0] == -1.0 && d[1][1] == 1.0;
    var sq := Squares(d);
    assert sq[0] == [1.0, 1.0] && sq[1] == [1.0, 1.0];
    assert Sum([1.0, 1.0]) == 2.0 by { assert [1.0, 1.0][..1] == [1.0]; }
    assert RowSums(sq) == [2.0, 2.0];
    assert Sum([2.0, 2.0]) == 4.0 by { assert [2.0, 2.0][..1] == [2.0]; }
    SameShapeDifference(o, 1, [[1.0], [-1.0]]);
    var e := Difference(o, 1, Matrix([[1.0], [-1.0]], 1)).value;
    assert e[0][0] == -1.0 && e[1][0] == 1.0;
    var sqe := Squares(e);
    assert sqe[0] == [1.0] && sqe[1] == [1.0];
    assert RowSums(sqe) == [1.0, 1.0];
  }

  /** Whenever the shapes broadcast, the L2 loss is defined and never
      negative, and it is zero when every broadcast difference is zero. */
  lemma L2LossNonNegative(outputs: seq<seq<real>>, nTargets: nat, t: Targets)
    requires Rectangular(outputs, nTargets) && WellShaped(t)
    requires Difference(outputs, nTargets, t).Some?
    ensures RegressionLoss("L2", outputs, nTargets, Some(t)).Success? && RegressionLoss("L2", outputs, nTargets, Some(t)).value.Some?
    ensures RegressionLoss("L2", outputs, nTargets, Some(t)).value.value.L2?
    ensures RegressionLoss("L2", outputs, nTargets, Some(t)).value.value.total >= 0.0
    ensures var d := Difference(outputs, nTargets, t).value;
      (forall i, j :: 0 <= i < |d| && 0 <= j < |d[i]| ==> d[i][j] == 0.0) ==>
        RegressionLoss("L2", outputs, nTargets, Some(t)).value.value.total == 0.0
  {
    UpperNames("L2");
    var d := Difference(outputs, nTargets, t).value;
    var sq := Squares(d);
    Sum2ZeroIff(sq);
    if forall i, j :: 0 <= i < |d| && 0 <= j < |d[i]| ==> d[i][j] == 0.0 {
      forall i, j | 0 <= i < |sq| && 0 <= j < |sq[i]| ensures sq[i][j] == 0.0 {
        assert d[i][j] == 0.0;
      }
    }
  }

  /** Outputs that equal their targets have L2 loss zero. */
  lemma L2LossAtTargets(outputs: seq<seq<real>>, nTargets: nat)
    requires Rectangular(outputs, nTargets)
    ensures RegressionLoss("L2", outputs, nTargets, Some(Matrix(outputs, nTargets))) == Success(Some(L2(0.0)))
  {
    SameShapeDifference(outputs, nTargets, outputs);
    L2LossNonNegative(outputs, nTargets, Matrix(outputs, nTargets));
  }

  /** For targets of the outputs' shape the L1 loss holds the absolute error
      of each entry: never negative, zero where output and target agree. */
  lemma L1LossEntries(outputs: seq<seq<real>>, nTargets: nat, targets: seq<seq<real>>, i: nat, j: nat)
    requires Rectangular(outputs, nTargets) && Rectangular(targets, nTargets) && |targets| == |outputs|
    requires i < |outputs| && j < nTargets
    ensures RegressionLoss("l1", outputs, nTargets, Some(Matrix(targets, nTargets))).Success?
    ensures RegressionLoss("l1", outputs, nTargets, Some(Matrix(targets, nTargets))).value.Some?
    ensures RegressionLoss("l1", outputs, nTargets, Some(Matrix(targets, nTargets))).value.value.L1?
    ensures var l := RegressionLoss("l1", outputs, nTargets, Some(Matrix(targets, nTargets))).value.value.perEntry;
            && i < |l| && j < |l[i]|
            && l[i][j] >= 0.0
            && (l[i][j] == 0.0 <==> outputs[i][j] == targets[i][j])
            && (l[i][j] == outputs[i][j] - targets[i][j] || l[i][j] == targets[i][j] - outputs[i][j])
  {
    UpperNames("l1");
    SameShapeDifference(outputs, nTargets, targets);
  }
}
