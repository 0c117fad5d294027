/** Recurrence quantification (computeRQA): recurrence rate, determinism and
    laminarity of a square recurrence matrix. */
module Rqa {
  import opened Runs

  type Matrix = seq<seq<int>>

  predicate IsSquare(b: Matrix)
  {
    forall i :: 0 <= i < |b| ==> |b[i]| == |b|
  }

  /** Every entry is 0 or 1, as the binarizer produces. */
  predicate IsBinary(b: Matrix)
  {
    forall i, j :: 0 <= i < |b| && 0 <= j < |b[i]| ==> b[i][j] == 0 || b[i][j] == 1
  }

  /** The k-th upper diagonal, cells b[i][i + k], read as "is a 1". */
  function Diagonal(b: Matrix, k: nat): (cells: seq<bool>)
    requires IsSquare(b) && k <= |b|
    ensures |cells| == |b| - k
  {
    seq(|b| - k, i requires 0 <= i < |b| - k => b[i][i + k] == 1)
  }

  /** Column j, cells b[i][j], read as "is a 1". */
  function Column(b: Matrix, j: nat): (cells: seq<bool>)
    requires IsSquare(b) && j < |b|
    ensures |cells| == |b|
  {
    seq(|b|, i requires 0 <= i < |b| => b[i][j] == 1)
  }

  /** Sum of row[..j], accumulated left to right. */
  function RowSum(row: seq<int>, j: nat): int
    requires j <= |row|
  {
    if j == 0 then 0 else RowSum(row, j - 1) + row[j - 1]
  }

  /** Sum of the rows b[..i]. */
  function RowsSum(b: Matrix, i: nat): int
    requires i <= |b|
  {
    if i == 0 then 0 else RowsSum(b, i - 1) + RowSum(b[i - 1], |b[i - 1]|)
  }

  /** recCount: the sum of all entries. */
  function RecCount(b: Matrix): int
  {
    RowsSum(b, |b|)
  }

  /** Run totals of the diagonals 1 .. k-1 (the main diagonal is skipped). */
  function DiagTotal(b: Matrix, k: nat): nat
    requires IsSquare(b) && 1 <= k <= |b|
  {
    if k == 1 then 0 else DiagTotal(b, k - 1) + RunTotal(Diagonal(b, k - 1))
  }

  /** Run totals of the columns 0 .. j-1. */
  function VertTotal(b: Matrix, j: nat): nat
    requires IsSquare(b) && j <= |b|
  {
    if j == 0 then 0 else VertTotal(b, j - 1) + RunTotal(Column(b, j - 1))
  }

  /** The sum of the pushed run lengths. */
  function Sum(xs: seq<nat>): nat
  {
    if xs == [] then 0 else Sum(xs[..|xs| - 1]) + xs[|xs| - 1]
  }

  lemma SumPush(xs: seq<nat>, x: nat)
    ensures Sum(xs + [x]) == Sum(xs) + x
  {
    assert (xs + [x])[..|xs|] == xs;
  }

  /** The pushed lengths of a prefix sum to the scan's closed-run total. */
  lemma {:induction false} PushedSum(cells: seq<bool>, j: nat)
    requires j <= |cells|
    ensures Sum(Pushed(cells, j)) == Scan(cells, j).sum
  {
    if j > 0 {
      PushedSum(cells, j - 1);
      var s := Scan(cells, j - 1);
      if !cells[j - 1] && s.len > 1 {
        SumPush(Pushed(cells, j - 1), s.len);
      }
    }
  }

  /** The lengths pushed for a line sum to its run total. */
  lemma RunLengthsSum(cells: seq<bool>)
    ensures Sum(RunLengths(cells)) == RunTotal(cells)
  {
    PushedSum(cells, |cells|);
    var s := Scan(cells, |cells|);
    if s.len > 1 {
      SumPush(Pushed(cells, |cells|), s.len);
    }
  }

  function Min(a: real, b: real): real
  {
    if a <= b then a else b
  }

  /** DET and LAM: a run total over recCount, capped at 1, and 0 when there
      is no recurrence. */
  function Ratio(part: nat, recCount: int): (q: real)
    ensures 0.0 <= q <= 1.0
  {
    if recCount > 0 then Min(part as real / recCount as real, 1.0) else 0.0
  }

  datatype Measures = Measures(rr: real, det: real, lam: real)

  /** The three measures as computeRQA defines them. */
  function RqaOf(b: Matrix): (r: Measures)
    requires IsSquare(b)
    ensures 0.0 <= r.det <= 1.0 && 0.0 <= r.lam <= 1.0
  {
    var n := |b|;
    if n == 0 then Measures(0.0, 0.0, 0.0)
    else
      var recCount := RecCount(b);
      Measures(recCount as real / (n * n) as real,
               Ratio(DiagTotal(b, n), recCount),
               Ratio(VertTotal(b, n), recCount))
  }

  /** The first loop of computeRQA: recCount, summed row by row. */
  method CountRecurrences(b: Matrix) returns (recCount: int)
    requires IsSquare(b)
    ensures recCount == RecCount(b)
  {
    var n := |b|;
    recCount := 0;
    for i := 0 to n
      invariant recCount == RowsSum(b, i)
    {
      for j := 0 to n
        invariant recCount == RowsSum(b, i) + RowSum(b[i], j)
      {
        recCount := recCount + b[i][j];
      }
    }
  }

  /** A list of pushed run lengths: every entry exceeds 1. */
  predicate LongRuns(lengths: seq<nat>)
  {
    forall t :: 0 <= t < |lengths| ==> lengths[t] > 1
  }

  /** One diagonal of the diagonal scan: walk b[i][i + k], push every run of
      1s longer than 1 when a 0 closes it, and flush the open run at the end. */
  method ScanDiagonal(b: Matrix, k: nat, diagLengths: seq<nat>) returns (out: seq<nat>)
    requires IsSquare(b) && 1 <= k < |b| && LongRuns(diagLengths)
    ensures Sum(out) == Sum(diagLengths) + RunTotal(Diagonal(b, k))
    ensures out == diagLengths + RunLengths(Diagonal(b, k))
    ensures LongRuns(out)
  {
    var n := |b|;
    ghost var cells := Diagonal(b, k);
    out := diagLengths;
    var len: nat := 0;
    for i := 0 to n - k
      invariant Scan(cells, i).len == len
      invariant Sum(out) == Sum(diagLengths) + Scan(cells, i).sum
      invariant out == diagLengths + Pushed(cells, i)
    {
      if b[i][i + k] == 1 {
        len := len + 1;
      } else {
        if len > 1 {
          SumPush(out, len);
          out := out + [len];
        }
        len := 0;
      }
    }
    if len > 1 {
      SumPush(out, len);
      out := out + [len];
    }
  }

  /** The run lengths of the diagonals 1 .. k-1, diagonal by diagonal. */
  function DiagLengthsOf(b: Matrix, k: nat): (ls: seq<nat>)
    requires IsSquare(b) && 1 <= k <= |b|
    ensures LongRuns(ls)
  {
    if k == 1 then [] else DiagLengthsOf(b, k - 1) + RunLengths(Diagonal(b, k - 1))
  }

  /** The run lengths of the columns 0 .. j-1, column by column. */
  function ColumnLengthsOf(b: Matrix, j: nat): (ls: seq<nat>)
    requires IsSquare(b) && j <= |b|
    ensures LongRuns(ls)
  {
    if j == 0 then [] else ColumnLengthsOf(b, j - 1) + RunLengths(Column(b, j - 1))
  }

  /** The diagonal scan of computeRQA over k = 1 .. n-1: the upper diagonals
      only, the main diagonal excluded. */
  method DiagonalLengths(b: Matrix) returns (diagLengths: seq<nat>)
    requires IsSquare(b) && |b| > 0
    ensures diagLengths == DiagLengthsOf(b, |b|)
    ensures Sum(diagLengths) == DiagTotal(b, |b|)
    ensures LongRuns(diagLengths)
  {
    var n := |b|;
    diagLengths := [];
    for k := 1 to n
      invariant diagLengths == DiagLengthsOf(b, k)
      invariant Sum(diagLengths) == DiagTotal(b, k)
      invariant LongRuns(diagLengths)
    {
      diagLengths := ScanDiagonal(b, k, diagLengths);
    }
  }

  /** One column of the column scan, with the same rule. */
  method ScanColumn(b: Matrix, j: nat, vertLengths: seq<nat>) returns (out: seq<nat>)
    requires IsSquare(b) && j < |b| && LongRuns(vertLengths)
    ensures Sum(out) == Sum(vertLengths) + RunTotal(Column(b, j))
    ensures out == vertLengths + RunLengths(Column(b, j))
    ensures LongRuns(out)
  {
    var n := |b|;
    ghost var cells := Column(b, j);
    out := vertLengths;
    var len: nat := 0;
    for i := 0 to n
      invariant Scan(cells, i).len == len
      invariant Sum(out) == Sum(vertLengths) + Scan(cells, i).sum
      invariant out == vertLengths + Pushed(cells, i)
    {
      if b[i][j] == 1 {
        len := len + 1;
      } else {
        if len > 1 {
          SumPush(out, len);
          out := out + [len];
        }
        len := 0;
      }
    }
    if len > 1 {
      SumPush(out, len);
      out := out + [len];
    }
  }

  /** The column scan of computeRQA over j = 0 .. n-1. */
  method VerticalLengths(b: Matrix) returns (vertLengths: seq<nat>)
    requires IsSquare(b)
    ensures vertLengths == ColumnLengthsOf(b, |b|)
    ensures Sum(vertLengths) == VertTotal(b, |b|)
    ensures LongRuns(vertLengths)
  {
    var n := |b|;
    vertLengths := [];
    for j := 0 to n
      invariant vertLengths == ColumnLengthsOf(b, j)
      invariant Sum(vertLengths) == VertTotal(b, j)
      invariant LongRuns(vertLengths)
    {
      vertLengths := ScanColumn(b, j, vertLengths);
    }
  }

  /** computeRQA: the empty matrix gives three zeros; otherwise RR, DET and
      LAM from the count and the two scans. */
  method ComputeRQA(b: Matrix) returns (r: Measures)
    requires IsSquare(b)
    ensures r == RqaOf(b)
  {
    var n := |b|;
    if n == 0 {
      return Measures(0.0, 0.0, 0.0);
    }
    var recCount := CountRecurrences(b);
    var rr := recCount as real / (n * n) as real;

    var diagLengths := DiagonalLengths(b);
    var diagSum := Sum(diagLengths);
    var det := if recCount > 0 then Min(diagSum as real / recCount as real, 1.0) else 0.0;

    var vertLengths := VerticalLengths(b);
    var vertSum := Sum(vertLengths);
    var lam := if recCount > 0 then Min(vertSum as real / recCount as real, 1.0) else 0.0;

    r := Measures(rr, det, lam);
  }
}
