/** Properties of the object computeRecurrenceMatrix returns: its shape, a
    symmetric non-negative distance matrix with zero diagonal, maxDist as
    its largest entry, and a binary matrix that marks the distances within
    eps = threshold * maxDist * 0.5. */
module EmbeddingLemmas {
  import opened Embedding

  /** n <= 0 gives the empty result without maxDist; otherwise both matrices
      are n x n and maxDist is present. */
  lemma RecurrenceShape(signal: seq<real>, m: int, tau: int, threshold: real, sqrt: real -> real)
    requires m >= 1 && tau >= 1
    ensures var r := RecurrenceOf(signal, m, tau, threshold, sqrt);
            var n := VectorCount(|signal|, m, tau);
            (n <= 0 <==> r == Recurrence([], [], None)) &&
            (n > 0 ==> r.maxDist.Some? &&
                       |r.matrix| == n && |r.binary| == n &&
                       (forall i :: 0 <= i < n ==> |r.matrix[i]| == n && |r.binary[i]| == n))
  {
  }

  /** Entry j of delay vector i is signal[i + j * tau], read inside the signal. */
  lemma DelayVectorEntries(signal: seq<real>, m: int, tau: int, i: int, j: int)
    requires m >= 1 && tau >= 1
    requires 0 <= i < VectorCount(|signal|, m, tau) && 0 <= j < m
    ensures i + j * tau < |signal|
    ensures Embed(signal, m, tau)[i][j] == signal[i + j * tau]
  {
    StrideInBounds(|signal|, m, tau, i, j);
  }

  lemma {:induction false} SumSqSymmetric(u: seq<real>, v: seq<real>, k: nat)
    requires k <= |u| && k <= |v|
    ensures SumSq(u, v, k) == SumSq(v, u, k)
  {
    if k > 0 {
      SumSqSymmetric(u, v, k - 1);
      assert (u[k - 1] - v[k - 1]) * (u[k - 1] - v[k - 1]) == (v[k - 1] - u[k - 1]) * (v[k - 1] - u[k - 1]);
    }
  }

  lemma {:induction false} SumSqNonNegative(u: seq<real>, v: seq<real>, k: nat)
    requires k <= |u| && k <= |v|
    ensures SumSq(u, v, k) >= 0.0
  {
    if k > 0 {
      SumSqNonNegative(u, v, k - 1);
    }
  }

  lemma {:induction false} SumSqSelf(u: seq<real>, k: nat)
    requires k <= |u|
    ensures SumSq(u, u, k) == 0.0
  {
    if k > 0 {
      SumSqSelf(u, k - 1);
    }
  }

  /** The distance matrix is symmetric, non-negative, with a zero diagonal. */
  lemma DistanceMatrixMetric(vs: seq<seq<real>>, sqrt: real -> real)
    requires SameLengths(vs) && IsSqrt(sqrt)
    ensures forall i, j :: 0 <= i < |vs| && 0 <= j < |vs| ==> DistanceMatrix(vs, sqrt)[i][j] >= 0.0
    ensures forall i, j :: 0 <= i < |vs| && 0 <= j < |vs| ==>
              DistanceMatrix(vs, sqrt)[i][j] == DistanceMatrix(vs, sqrt)[j][i]
    ensures forall i :: 0 <= i < |vs| ==> DistanceMatrix(vs, sqrt)[i][i] == 0.0
  {
    forall i, j | 0 <= i < |vs| && 0 <= j < |vs|
      ensures DistanceMatrix(vs, sqrt)[i][j] >= 0.0
    {
      DistanceEntry(vs, sqrt, i, j);
    }
    forall i, j | 0 <= i < |vs| && 0 <= j < |vs|
      ensures DistanceMatrix(vs, sqrt)[i][j] == DistanceMatrix(vs, sqrt)[j][i]
    {
      DistanceEntry(vs, sqrt, i, j);
    }
    forall i | 0 <= i < |vs|
      ensures DistanceMatrix(vs, sqrt)[i][i] == 0.0
    {
      DistanceEntry(vs, sqrt, i, i);
    }
  }

  lemma DistanceEntry(vs: seq<seq<real>>, sqrt: real -> real, i: int, j: int)
    requires SameLengths(vs) && IsSqrt(sqrt)
    requires 0 <= i < |vs| && 0 <= j < |vs|
    ensures DistanceMatrix(vs, sqrt)[i][j] >= 0.0
    ensures DistanceMatrix(vs, sqrt)[i][j] == DistanceMatrix(vs, sqrt)[j][i]
    ensures DistanceMatrix(vs, sqrt)[i][i] == 0.0
  {
    assert |vs[i]| == |vs[j]|;
    SumSqNonNegative(vs[i], vs[j], |vs[i]|);
    SumSqSymmetric(vs[i], vs[j], |vs[i]|);
    SumSqSelf(vs[i], |vs[i]|);
    var x := SumSq(vs[i], vs[j], |vs[i]|);
    assert sqrt(x) >= 0.0;
  }

  /** The running maximum of a row is at least its start and every entry
      scanned, and is the start or one of those entries. */
  lemma {:induction false} RowMaxIsMax(acc: real, row: seq<real>, j: nat)
    requires j <= |row|
    ensures RowMax(acc, row, j) >= acc
    ensures forall t :: 0 <= t < j ==> row[t] <= RowMax(acc, row, j)
    ensures RowMax(acc, row, j) == acc || exists t :: 0 <= t < j && row[t] == RowMax(acc, row, j)
  {
    if j > 0 {
      RowMaxIsMax(acc, row, j - 1);
    }
  }

  /** The running maximum over rows d[..i] is non-negative, bounds every
      entry scanned and is 0 or one of them. */
  lemma {:induction false} MatrixMaxIsMax(d: seq<seq<real>>, i: nat)
    requires i <= |d|
    ensures MatrixMax(d, i) >= 0.0
    ensures forall a, c :: 0 <= a < i && 0 <= c < |d[a]| ==> d[a][c] <= MatrixMax(d, i)
    ensures MatrixMax(d, i) == 0.0 ||
            exists a, c :: 0 <= a < i && 0 <= c < |d[a]| && d[a][c] == MatrixMax(d, i)
  {
    if i > 0 {
      MatrixMaxIsMax(d, i - 1);
      var prev := MatrixMax(d, i - 1);
      RowMaxIsMax(prev, d[i - 1], |d[i - 1]|);
      if MatrixMax(d, i) != prev {
        var t :| 0 <= t < |d[i - 1]| && d[i - 1][t] == MatrixMax(d, i);
      } else if prev != 0.0 {
        var a, c :| 0 <= a < i - 1 && 0 <= c < |d[a]| && d[a][c] == prev;
      }
    }
  }

  /** maxDist is the largest entry of the distance matrix. */
  lemma MaxDistIsLargestEntry(signal: seq<real>, m: int, tau: int, threshold: real, sqrt: real -> real)
    requires m >= 1 && tau >= 1 && IsSqrt(sqrt)
    requires VectorCount(|signal|, m, tau) > 0
    ensures var r := RecurrenceOf(signal, m, tau, threshold, sqrt);
            var mx := r.maxDist.value;
            mx >= 0.0 &&
            (forall i, j :: 0 <= i < |r.matrix| && 0 <= j < |r.matrix| ==> r.matrix[i][j] <= mx) &&
            (exists i, j :: 0 <= i < |r.matrix| && 0 <= j < |r.matrix| && r.matrix[i][j] == mx)
  {
    var vs := Embed(signal, m, tau);
    var d := DistanceMatrix(vs, sqrt);
    MatrixMaxIsMax(d, |d|);
    DistanceMatrixMetric(vs, sqrt);
    if MatrixMax(d, |d|) == 0.0 {
      assert d[0][0] == 0.0;
    }
  }

  /** binary[i][j] is 1 exactly when matrix[i][j] <= eps, and 0 otherwise. */
  lemma BinaryMarksThreshold(signal: seq<real>, m: int, tau: int, threshold: real, sqrt: real -> real)
    requires m >= 1 && tau >= 1
    requires VectorCount(|signal|, m, tau) > 0
    ensures var r := RecurrenceOf(signal, m, tau, threshold, sqrt);
            var eps := threshold * r.maxDist.value * 0.5;
            forall i, j :: 0 <= i < |r.binary| && 0 <= j < |r.binary| ==>
              (r.binary[i][j] == 1 <==> r.matrix[i][j] <= eps) &&
              (r.binary[i][j] == 0 <==> r.matrix[i][j] > eps)
  {
  }

  /** Thresholding a symmetric matrix gives a symmetric matrix. */
  lemma BinarizeSymmetric(d: seq<seq<real>>, eps: real)
    requires forall i :: 0 <= i < |d| ==> |d[i]| == |d|
    requires forall i, j :: 0 <= i < |d| && 0 <= j < |d| ==> d[i][j] == d[j][i]
    ensures forall i, j :: 0 <= i < |d| && 0 <= j < |d| ==> Binarize(d, eps)[i][j] == Binarize(d, eps)[j][i]
  {
  }

  /** eps = threshold * maxDist * 0.5 is non-negative exactly when the
      threshold is non-negative or maxDist is 0, for maxDist >= 0. */
  lemma EpsSign(threshold: real, maxDist: real)
    requires maxDist >= 0.0
    ensures Eps(threshold, maxDist) >= 0.0 <==> threshold >= 0.0 || maxDist == 0.0
  {
    if maxDist > 0.0 {
      if threshold >= 0.0 {
        assert threshold * maxDist >= 0.0;
      } else {
        assert threshold * maxDist < 0.0;
      }
    }
  }

  /** The binary matrix is symmetric; its diagonal is all 1 exactly when the
      threshold is non-negative or maxDist is 0. */
  lemma BinarySymmetricWithDiagonal(signal: seq<real>, m: int, tau: int, threshold: real, sqrt: real -> real)
    requires m >= 1 && tau >= 1 && IsSqrt(sqrt)
    requires VectorCount(|signal|, m, tau) > 0
    ensures var r := RecurrenceOf(signal, m, tau, threshold, sqrt);
            forall i, j :: 0 <= i < |r.binary| && 0 <= j < |r.binary| ==> r.binary[i][j] == r.binary[j][i]
    ensures var r := RecurrenceOf(signal, m, tau, threshold, sqrt);
            forall i :: 0 <= i < |r.binary| ==>
              (r.binary[i][i] == 1 <==> threshold >= 0.0 || r.maxDist.value == 0.0)
  {
    var vs := Embed(signal, m, tau);
    var d := DistanceMatrix(vs, sqrt);
    var mx := MatrixMax(d, |d|);
    DistanceMatrixMetric(vs, sqrt);
    MatrixMaxIsMax(d, |d|);
    BinarizeSymmetric(d, Eps(threshold, mx));
    EpsSign(threshold, mx);
  }

  /** Equal delay vectors for a constant signal. */
  lemma ConstantSignalSameVectors(signal: seq<real>, m: int, tau: int, i: int, j: int)
    requires m >= 1 && tau >= 1
    requires 0 <= i < VectorCount(|signal|, m, tau) && 0 <= j < VectorCount(|signal|, m, tau)
    requires forall k :: 0 <= k < |signal| ==> signal[k] == signal[0]
    ensures Embed(signal, m, tau)[i] == Embed(signal, m, tau)[j]
  {
    var vs := Embed(signal, m, tau);
    forall c | 0 <= c < m ensures vs[i][c] == vs[j][c] {
      DelayVectorEntries(signal, m, tau, i, c);
      DelayVectorEntries(signal, m, tau, j, c);
    }
  }

  /** A matrix of zeros has running maximum 0. */
  lemma {:induction false} MatrixMaxOfZeros(d: seq<seq<real>>, i: nat)
    requires i <= |d|
    requires forall a, c :: 0 <= a < |d| && 0 <= c < |d[a]| ==> d[a][c] == 0.0
    ensures MatrixMax(d, i) == 0.0
  {
    if i > 0 {
      MatrixMaxOfZeros(d, i - 1);
      RowMaxIsMax(0.0, d[i - 1], |d[i - 1]|);
    }
  }

  /** A constant signal has all distances 0, so maxDist = eps = 0 and every
      cell is a recurrence, whatever the threshold. */
  lemma ConstantSignalAllOnes(signal: seq<real>, m: int, tau: int, threshold: real, sqrt: real -> real)
    requires m >= 1 && tau >= 1 && IsSqrt(sqrt)
    requires VectorCount(|signal|, m, tau) > 0
    requires forall k :: 0 <= k < |signal| ==> signal[k] == signal[0]
    ensures var r := RecurrenceOf(signal, m, tau, threshold, sqrt);
            var n := VectorCount(|signal|, m, tau);
            r.maxDist == Some(0.0) &&
            r.binary == seq(n, i => seq(n, j => 1))
  {
    var n := VectorCount(|signal|, m, tau);
    var vs := Embed(signal, m, tau);
    var d := DistanceMatrix(vs, sqrt);
    forall a, c | 0 <= a < |d| && 0 <= c < |d[a]| ensures d[a][c] == 0.0 {
      ConstantSignalSameVectors(signal, m, tau, a, c);
      DistanceEntry(vs, sqrt, a, a);
    }
    MatrixMaxOfZeros(d, |d|);
    assert Eps(threshold, 0.0) == 0.0;
    var b := Binarize(d, 0.0);
    forall i | 0 <= i < n ensures b[i] == seq(n, j => 1) {
      assert forall j :: 0 <= j < n ==> b[i][j] == 1;
    }
    assert b == seq(n, i => seq(n, j => 1));
  }
}
