/** Delay embedding, distance matrix and thresholding (computeRecurrenceMatrix).
    Math.sqrt is a function parameter; the lemmas that need its meaning take
    IsSqrt(sqrt) as a hypothesis. */
module Embedding {

  datatype Option<T> = None | Some(value: T)

  /** What the proofs need of Math.sqrt: it maps 0 to 0 and every
      non-negative real to a non-negative real. */
  ghost predicate IsSqrt(sqrt: real -> real)
  {
    sqrt(0.0) == 0.0 &&
    forall x: real {:trigger sqrt(x)} :: 0.0 <= x ==> 0.0 <= sqrt(x)
  }

  /** The number of delay vectors, n = len - (m - 1) * tau. */
  function VectorCount(len: int, m: int, tau: int): int
  {
    len - (m - 1) * tau
  }

  /** The index read for entry j of delay vector i stays inside the signal. */
  lemma StrideInBounds(len: int, m: int, tau: int, i: int, j: int)
    requires m >= 1 && tau >= 1
    requires 0 <= i < VectorCount(len, m, tau) && 0 <= j < m
    ensures 0 <= i + j * tau < len
  {
    assert (m - 1) * tau - j * tau == (m - 1 - j) * tau;
  }

  /** Entry j of delay vector i: signal[i + j * tau]. */
  function Sample(signal: seq<real>, m: int, tau: int, i: int, j: int): real
    requires m >= 1 && tau >= 1
    requires 0 <= i < VectorCount(|signal|, m, tau) && 0 <= j < m
  {
    StrideInBounds(|signal|, m, tau, i, j);
    signal[i + j * tau]
  }

  /** Delay vector i: [signal[i], signal[i + tau], ..., signal[i + (m-1) tau]]. */
  function DelayVector(signal: seq<real>, m: int, tau: int, i: int): (v: seq<real>)
    requires m >= 1 && tau >= 1
    requires 0 <= i < VectorCount(|signal|, m, tau)
    ensures |v| == m
  {
    seq(m, j requires 0 <= j < m => Sample(signal, m, tau, i, j))
  }

  /** The n delay vectors of the reconstructed trajectory. */
  function Embed(signal: seq<real>, m: int, tau: int): (vs: seq<seq<real>>)
    requires m >= 1 && tau >= 1
    requires VectorCount(|signal|, m, tau) > 0
    ensures |vs| == VectorCount(|signal|, m, tau)
    ensures forall i :: 0 <= i < |vs| ==> |vs[i]| == m
  {
    var n := VectorCount(|signal|, m, tau);
    seq(n, i requires 0 <= i < n => DelayVector(signal, m, tau, i))
  }

  /** Sum of the squared coordinate differences over the first k coordinates,
      accumulated as the inner loop does. */
  function SumSq(u: seq<real>, v: seq<real>, k: nat): real
    requires k <= |u| && k <= |v|
  {
    if k == 0 then 0.0 else SumSq(u, v, k - 1) + (u[k - 1] - v[k - 1]) * (u[k - 1] - v[k - 1])
  }

  function Distance(u: seq<real>, v: seq<real>, sqrt: real -> real): real
    requires |u| == |v|
  {
    sqrt(SumSq(u, v, |u|))
  }

  predicate SameLengths(vs: seq<seq<real>>)
  {
    forall i, j :: 0 <= i < |vs| && 0 <= j < |vs| ==> |vs[i]| == |vs[j]|
  }

  /** The full n x n matrix of pairwise Euclidean distances. */
  function DistanceMatrix(vs: seq<seq<real>>, sqrt: real -> real): (d: seq<seq<real>>)
    requires SameLengths(vs)
    ensures |d| == |vs| && forall i :: 0 <= i < |d| ==> |d[i]| == |vs|
  {
    seq(|vs|, i requires 0 <= i < |vs| =>
      seq(|vs|, j requires 0 <= j < |vs| => Distance(vs[i], vs[j], sqrt)))
  }

  /** The running-maximum update: a strictly larger distance replaces it. */
  function Larger(acc: real, dist: real): real
  {
    if dist > acc then dist else acc
  }

  /** The running maximum after the entries row[..j], starting from acc. */
  function RowMax(acc: real, row: seq<real>, j: nat): (r: real)
    requires j <= |row|
    ensures r >= acc
  {
    if j == 0 then acc else Larger(RowMax(acc, row, j - 1), row[j - 1])
  }

  /** The running maximum after the rows d[..i], starting from 0. */
  function MatrixMax(d: seq<seq<real>>, i: nat): (r: real)
    requires i <= |d|
    ensures r >= 0.0
  {
    if i == 0 then 0.0 else RowMax(MatrixMax(d, i - 1), d[i - 1], |d[i - 1]|)
  }

  /** 1 where the distance is at most eps, else 0. */
  function Binarize(d: seq<seq<real>>, eps: real): (b: seq<seq<int>>)
    ensures |b| == |d| && forall i :: 0 <= i < |b| ==> |b[i]| == |d[i]|
  {
    seq(|d|, i requires 0 <= i < |d| =>
      seq(|d[i]|, j requires 0 <= j < |d[i]| => if d[i][j] <= eps then 1 else 0))
  }

  /** The object returned by computeRecurrenceMatrix; maxDist is absent in
      the empty case. */
  datatype Recurrence = Recurrence(matrix: seq<seq<real>>, binary: seq<seq<int>>, maxDist: Option<real>)

  function Eps(threshold: real, maxDist: real): real
  {
    threshold * maxDist * 0.5
  }

  /** What computeRecurrenceMatrix returns. */
  function RecurrenceOf(signal: seq<real>, m: int, tau: int, threshold: real, sqrt: real -> real): (r: Recurrence)
    requires m >= 1 && tau >= 1
    ensures r.maxDist.Some? <==> VectorCount(|signal|, m, tau) > 0
    ensures |r.matrix| == |r.binary| == (if r.maxDist.Some? then VectorCount(|signal|, m, tau) else 0)
    ensures r.maxDist.Some? ==> r.maxDist.value >= 0.0
  {
    if VectorCount(|signal|, m, tau) <= 0 then Recurrence([], [], None)
    else
      var d := DistanceMatrix(Embed(signal, m, tau), sqrt);
      var maxDist := MatrixMax(d, |d|);
      Recurrence(d, Binarize(d, Eps(threshold, maxDist)), Some(maxDist))
  }

  /** The first loop nest: the n delay vectors. */
  method DelayVectors(signal: seq<real>, m: int, tau: int) returns (vectors: seq<seq<real>>)
    requires m >= 1 && tau >= 1
    requires VectorCount(|signal|, m, tau) > 0
    ensures vectors == Embed(signal, m, tau)
  {
    var n := VectorCount(|signal|, m, tau);
    vectors := [];
    for i := 0 to n
      invariant |vectors| == i
      invariant forall a :: 0 <= a < i ==> vectors[a] == DelayVector(signal, m, tau, a)
    {
      var vec: seq<real> := [];
      for j := 0 to m
        invariant |vec| == j
        invariant forall c :: 0 <= c < j ==> vec[c] == Sample(signal, m, tau, i, c)
      {
        StrideInBounds(|signal|, m, tau, i, j);
        vec := vec + [signal[i + j * tau]];
      }
      vectors := vectors + [vec];
    }
  }

  /** The innermost loop: squared distance of two vectors, then Math.sqrt. */
  method PairDistance(u: seq<real>, v: seq<real>, sqrt: real -> real) returns (dist: real)
    requires |u| == |v|
    ensures dist == Distance(u, v, sqrt)
  {
    dist := 0.0;
    for k := 0 to |u|
      invariant dist == SumSq(u, v, k)
    {
      dist := dist + (u[k] - v[k]) * (u[k] - v[k]);
    }
    dist := sqrt(dist);
  }

  /** One pass of the second loop nest: row i of the distance matrix, with
      the running maximum carried on from acc. */
  method DistanceRow(vectors: seq<seq<real>>, i: nat, acc: real, sqrt: real -> real)
    returns (row: seq<real>, maxDist: real)
    requires SameLengths(vectors) && i < |vectors|
    ensures row == DistanceMatrix(vectors, sqrt)[i]
    ensures maxDist == RowMax(acc, row, |row|)
  {
    var n := |vectors|;
    ghost var target := DistanceMatrix(vectors, sqrt)[i];
    row := [];
    maxDist := acc;
    for j := 0 to n
      invariant row == target[..j]
      invariant maxDist == RowMax(acc, target, j)
    {
      var dist := PairDistance(vectors[i], vectors[j], sqrt);
      row := row + [dist];
      if dist > maxDist {
        maxDist := dist;
      }
    }
    assert row == target;
  }

  /** The second loop nest: the distance matrix, row by row, with the running
      maximum maxDist updated after each entry. */
  method Distances(vectors: seq<seq<real>>, sqrt: real -> real) returns (matrix: seq<seq<real>>, maxDist: real)
    requires SameLengths(vectors)
    ensures matrix == DistanceMatrix(vectors, sqrt)
    ensures maxDist == MatrixMax(matrix, |matrix|)
  {
    var n := |vectors|;
    ghost var d := DistanceMatrix(vectors, sqrt);
    matrix := [];
    maxDist := 0.0;
    for i := 0 to n
      invariant matrix == d[..i]
      invariant maxDist == MatrixMax(d, i)
    {
      var row, rowMax := DistanceRow(vectors, i, maxDist, sqrt);
      assert row == d[i];
      assert rowMax == MatrixMax(d, i + 1);
      assert d[..i + 1] == d[..i] + [d[i]];
      matrix := matrix + [row];
      maxDist := rowMax;
    }
    assert matrix == d;
  }

  /** computeRecurrenceMatrix. */
  method ComputeRecurrenceMatrix(signal: seq<real>, m: int, tau: int, threshold: real, sqrt: real -> real)
    returns (r: Recurrence)
    requires m >= 1 && tau >= 1
    ensures r == RecurrenceOf(signal, m, tau, threshold, sqrt)
  {
    var n := VectorCount(|signal|, m, tau);
    if n <= 0 {
      return Recurrence([], [], None);
    }
    var vectors := DelayVectors(signal, m, tau);
    var matrix, maxDist := Distances(vectors, sqrt);
    var eps := threshold * maxDist * 0.5;
    var binary := Binarize(matrix, eps);
    r := Recurrence(matrix, binary, Some(maxDist));
    assert matrix == DistanceMatrix(Embed(signal, m, tau), sqrt);
    assert eps == Eps(threshold, maxDist);
  }
}
