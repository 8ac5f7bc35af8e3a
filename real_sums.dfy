/** Sums over rows of reals: the `reduce_sum` the heads apply to weights. */
module RealSums {

  /** Sum of a row, folded from the right end. */
  function Sum(s: seq<real>): real
  {
    if s == [] then 0.0 else Sum(s[..|s| - 1]) + s[|s| - 1]
  }

  /** The sum of each row of a matrix. */
  function RowSums(m: seq<seq<real>>): (r: seq<real>)
    ensures |r| == |m|
  {
    seq(|m|, i requires 0 <= i < |m| => Sum(m[i]))
  }

  /** Sum of every entry of a matrix. */
  function Sum2(m: seq<seq<real>>): real
  {
    Sum(RowSums(m))
  }

  /** Every row has `cols` entries. */
  predicate Rectangular<T>(m: seq<seq<T>>, cols: nat)
  {
    forall i :: 0 <= i < |m| ==> |m[i]| == cols
  }

  lemma {:induction false} SumAppend(a: seq<real>, b: seq<real>)
    ensures Sum(a + b) == Sum(a) + Sum(b)
  {
    if b == [] {
      assert a + b == a;
    } else {
      assert (a + b)[..|a + b| - 1] == a + b[..|b| - 1];
      SumAppend(a, b[..|b| - 1]);
    }
  }

  /** The sum of an entry-wise sum of two sequences is the sum of their sums. */
  lemma {:induction false} SumAdd(a: seq<real>, b: seq<real>, c: seq<real>)
    requires |a| == |b| == |c|
    requires forall i :: 0 <= i < |c| ==> c[i] == a[i] + b[i]
    ensures Sum(c) == Sum(a) + Sum(b)
  {
    if |c| > 0 {
      var n := |c| - 1;
      SumAdd(a[..n], b[..n], c[..n]);
    }
  }

  /** Every entry of a row multiplied by `c`. */
  function Scale(s: seq<real>, c: real): (r: seq<real>)
    ensures |r| == |s|
    ensures forall i :: 0 <= i < |s| ==> r[i] == c * s[i]
  {
    seq(|s|, i requires 0 <= i < |s| => c * s[i])
  }

  /** Every entry of a matrix multiplied by `c`. */
  function Scale2(m: seq<seq<real>>, c: real): (r: seq<seq<real>>)
    ensures |r| == |m|
    ensures forall i :: 0 <= i < |m| ==> r[i] == Scale(m[i], c)
  {
    seq(|m|, i requires 0 <= i < |m| => Scale(m[i], c))
  }

  lemma {:induction false} SumScale(s: seq<real>, c: real)
    ensures Sum(Scale(s, c)) == c * Sum(s)
  {
    if s != [] {
      var s' := s[..|s| - 1];
      forall i | 0 <= i < |s'| ensures Scale(s, c)[i] == Scale(s', c)[i] {
        assert s[i] == s'[i];
      }
      assert Scale(s, c)[..|s| - 1] == Scale(s', c);
      SumScale(s', c);
    }
  }

  lemma {:induction false} SumNonNegative(s: seq<real>)
    requires forall i :: 0 <= i < |s| ==> s[i] >= 0.0
    ensures Sum(s) >= 0.0
  {
    if s != [] {
      SumNonNegative(s[..|s| - 1]);
    }
  }

  /** A row of non-negative reals sums to zero exactly when every entry is zero. */
  lemma {:induction false} SumZeroIff(s: seq<real>)
    requires forall i :: 0 <= i < |s| ==> s[i] >= 0.0
    ensures Sum(s) == 0.0 <==> forall i :: 0 <= i < |s| ==> s[i] == 0.0
  {
    if s != [] {
      var s' := s[..|s| - 1];
      SumZeroIff(s');
      SumNonNegative(s');
      if Sum(s) == 0.0 {
        assert s[|s| - 1] == 0.0;
        forall i | 0 <= i < |s| ensures s[i] == 0.0 {
          if i < |s| - 1 { assert s[i] == s'[i]; }
        }
      }
    }
  }

  /** A row whose entries all equal `c` sums to `|s| * c`. */
  lemma {:induction false} SumConstant(s: seq<real>, c: real)
    requires forall i :: 0 <= i < |s| ==> s[i] == c
    ensures Sum(s) == (|s| as real) * c
  {
    if s != [] {
      SumConstant(s[..|s| - 1], c);
    }
  }

  /** Trailing zeros do not change a sum. */
  lemma {:induction false} SumFrom(s: seq<real>, k: nat)
    requires k <= |s|
    requires forall i :: k <= i < |s| ==> s[i] == 0.0
    ensures Sum(s) == Sum(s[..k])
  {
    if |s| > k {
      assert s[..|s| - 1][..k] == s[..k];
      SumFrom(s[..|s| - 1], k);
    } else {
      assert s[..k] == s;
    }
  }

  /** A row with a single non-zero entry sums to that entry. */
  lemma SumSingle(s: seq<real>, c: nat)
    requires c < |s|
    requires forall i :: 0 <= i < |s| && i != c ==> s[i] == 0.0
    ensures Sum(s) == s[c]
  {
    SumFrom(s, c + 1);
    assert s[..c + 1][..c] == s[..c];
    SumConstant(s[..c], 0.0);
  }

  /** A matrix of non-negative entries has a non-negative total, which is zero exactly when every entry is. */
  lemma Sum2ZeroIff(m: seq<seq<real>>)
    requires forall i, j :: 0 <= i < |m| && 0 <= j < |m[i]| ==> m[i][j] >= 0.0
    ensures Sum2(m) >= 0.0
    ensures Sum2(m) == 0.0 <==> forall i, j :: 0 <= i < |m| && 0 <= j < |m[i]| ==> m[i][j] == 0.0
  {
    var rs := RowSums(m);
    forall i | 0 <= i < |m|
      ensures rs[i] >= 0.0
      ensures rs[i] == 0.0 <==> forall j :: 0 <= j < |m[i]| ==> m[i][j] == 0.0
    {
      SumNonNegative(m[i]);
      SumZeroIff(m[i]);
    }
    SumNonNegative(rs);
    SumZeroIff(rs);
  }

  lemma Sum2Scale(m: seq<seq<real>>, c: real)
    ensures Sum2(Scale2(m, c)) == c * Sum2(m)
  {
    RowSumsScale(m, c);
    SumScale(RowSums(m), c);
  }

  /** Scaling a matrix scales each of its row sums. */
  lemma RowSumsScale(m: seq<seq<real>>, c: real)
    ensures RowSums(Scale2(m, c)) == Scale(RowSums(m), c)
  {
    forall i | 0 <= i < |m| ensures RowSums(Scale2(m, c))[i] == Scale(RowSums(m), c)[i] {
      SumScale(m[i], c);
    }
  }
}
