/** What the three measures of computeRQA mean: the run totals count the
    cells that lie on line structures, so DET and LAM are fractions of the
    recurrences and the cap at 1 never applies to a 0/1 matrix. */
module RqaLemmas {
  import opened Runs
  import opened Rqa
  import opened Quotients

  /** A 1 strictly above the main diagonal with a 1 next to it on its diagonal. */
  predicate DiagNeighbour(b: Matrix, i: int, j: int)
    requires IsSquare(b) && 0 <= i < j < |b|
  {
    b[i][j] == 1 && ((0 < i && b[i - 1][j - 1] == 1) || (j + 1 < |b| && b[i + 1][j + 1] == 1))
  }

  /** A 1 with a 1 directly above or below it in its column. */
  predicate VertNeighbour(b: Matrix, i: int, j: int)
    requires IsSquare(b) && 0 <= i < |b| && 0 <= j < |b|
  {
    b[i][j] == 1 && ((0 < i && b[i - 1][j] == 1) || (i + 1 < |b| && b[i + 1][j] == 1))
  }

  /** Cells on the diagonals 1 .. k-1 that lie in a diagonal line of length >= 2. */
  ghost function DiagLineCells(b: Matrix, k: int): set<(int, int)>
    requires IsSquare(b)
  {
    set i, j | 0 <= i < j < |b| && j - i < k && DiagNeighbour(b, i, j) :: (i, j)
  }

  /** Cells of the columns 0 .. c-1 that lie in a vertical line of length >= 2. */
  ghost function VertLineCells(b: Matrix, c: int): set<(int, int)>
    requires IsSquare(b) && c <= |b|
  {
    set i, j | 0 <= i < |b| && 0 <= j < c && VertNeighbour(b, i, j) :: (i, j)
  }

  /** The 1-cells of the rows 0 .. r-1. */
  ghost function OnesCells(b: Matrix, r: int): set<(int, int)>
    requires IsSquare(b) && r <= |b|
  {
    set i, j | 0 <= i < r && 0 <= j < |b| && b[i][j] == 1 :: (i, j)
  }

  lemma SubsetCard<T>(a: set<T>, c: set<T>)
    requires a <= c
    ensures |a| <= |c|
  {
    assert c == a + (c - a);
  }

  /** The cells of diagonal d that the scan of that diagonal counts. */
  ghost function DiagLine(b: Matrix, d: nat): set<(int, int)>
    requires IsSquare(b) && d <= |b|
  {
    var mask := LongMask(Diagonal(b, d));
    set t | 0 <= t < |b| - d && mask[t] :: (t, t + d)
  }

  lemma DiagLineCard(b: Matrix, d: nat)
    requires IsSquare(b) && d <= |b|
    ensures |DiagLine(b, d)| == RunTotal(Diagonal(b, d))
  {
    var cells := Diagonal(b, d);
    var mask := LongMask(cells);
    RunTotalIsCountLong(cells);
    var f: int -> (int, int) := t => (t, t + d);
    CardOfImage(mask, |cells|, f);
    assert DiagLine(b, d) == set t | 0 <= t < |cells| && mask[t] :: f(t);
  }

  lemma DiagLineMembers(b: Matrix, d: nat, i: int, j: int)
    requires IsSquare(b) && 1 <= d <= |b|
    ensures (i, j) in DiagLine(b, d) <==> 0 <= i < j < |b| && j - i == d && DiagNeighbour(b, i, j)
  {
    var cells := Diagonal(b, d);
    var mask := LongMask(cells);
    if 0 <= i < |b| - d && j == i + d {
      assert mask[i] == InLongRun(cells, i);
      assert cells[i] == (b[i][j] == 1);
      if 0 < i {
        assert cells[i - 1] == (b[i - 1][j - 1] == 1);
      }
      if i + 1 < |cells| {
        assert cells[i + 1] == (b[i + 1][j + 1] == 1);
      }
      assert mask[i] == DiagNeighbour(b, i, j);
      assert (i, j) in DiagLine(b, d) <==> mask[i];
    }
  }

  lemma DiagLineCellsMembers(b: Matrix, k: int, i: int, j: int)
    requires IsSquare(b)
    ensures (i, j) in DiagLineCells(b, k) <==> 0 <= i < j < |b| && j - i < k && DiagNeighbour(b, i, j)
  {
  }

  lemma NoDiagLineCellsBelowOne(b: Matrix)
    requires IsSquare(b)
    ensures DiagLineCells(b, 1) == {}
  {
  }

  lemma DisjointUnionCard<T>(a: set<T>, c: set<T>)
    requires a * c == {}
    ensures |a + c| == |a| + |c|
  {
  }

  /** Adding diagonal k - 1 to the diagonals 1 .. k-2 adds its scanned cells. */
  lemma DiagLineCellsStep(b: Matrix, k: nat)
    requires IsSquare(b) && 2 <= k <= |b|
    ensures DiagLineCells(b, k) == DiagLineCells(b, k - 1) + DiagLine(b, k - 1)
    ensures DiagLineCells(b, k - 1) * DiagLine(b, k - 1) == {}
  {
    var d := k - 1;
    var line := DiagLine(b, d);
    var before := DiagLineCells(b, d);
    var after := DiagLineCells(b, k);
    forall p | p in after ensures p in before + line {
      DiagLineMembers(b, d, p.0, p.1);
      DiagLineCellsMembers(b, k, p.0, p.1);
      DiagLineCellsMembers(b, d, p.0, p.1);
    }
    forall p | p in before + line ensures p in after {
      DiagLineMembers(b, d, p.0, p.1);
      DiagLineCellsMembers(b, k, p.0, p.1);
      DiagLineCellsMembers(b, d, p.0, p.1);
    }
    forall p | p in before ensures p !in line {
      DiagLineMembers(b, d, p.0, p.1);
      DiagLineCellsMembers(b, d, p.0, p.1);
    }
  }

  lemma DiagLineCellsCardStep(b: Matrix, k: nat)
    requires IsSquare(b) && 2 <= k <= |b|
    ensures |DiagLineCells(b, k)| == |DiagLineCells(b, k - 1)| + RunTotal(Diagonal(b, k - 1))
  {
    DiagLineCard(b, k - 1);
    DiagLineCellsStep(b, k);
    DisjointUnionCard(DiagLineCells(b, k - 1), DiagLine(b, k - 1));
  }

  /** The diagonal scan counts exactly the upper cells on diagonal lines. */
  lemma {:induction false} DiagTotalCountsLineCells(b: Matrix, k: nat)
    requires IsSquare(b) && 1 <= k <= |b|
    ensures DiagTotal(b, k) == |DiagLineCells(b, k)|
  {
    if k == 1 {
      NoDiagLineCellsBelowOne(b);
    } else {
      DiagTotalCountsLineCells(b, k - 1);
      DiagLineCellsCardStep(b, k);
    }
  }

  /** The cells of column j that the scan of that column counts. */
  ghost function VertLine(b: Matrix, j: nat): set<(int, int)>
    requires IsSquare(b) && j < |b|
  {
    var mask := LongMask(Column(b, j));
    set t | 0 <= t < |b| && mask[t] :: (t, j)
  }

  lemma VertLineCard(b: Matrix, j: nat)
    requires IsSquare(b) && j < |b|
    ensures |VertLine(b, j)| == RunTotal(Column(b, j))
  {
    var cells := Column(b, j);
    var mask := LongMask(cells);
    RunTotalIsCountLong(cells);
    var f: int -> (int, int) := t => (t, j);
    CardOfImage(mask, |cells|, f);
    assert VertLine(b, j) == set t | 0 <= t < |cells| && mask[t] :: f(t);
  }

  lemma VertLineMembers(b: Matrix, c: nat, i: int, j: int)
    requires IsSquare(b) && c < |b|
    ensures (i, j) in VertLine(b, c) <==> 0 <= i < |b| && j == c && VertNeighbour(b, i, j)
  {
    var cells := Column(b, c);
    var mask := LongMask(cells);
    if 0 <= i < |b| && j == c {
      assert mask[i] == InLongRun(cells, i);
      assert cells[i] == (b[i][j] == 1);
      if 0 < i {
        assert cells[i - 1] == (b[i - 1][j] == 1);
      }
      if i + 1 < |cells| {
        assert cells[i + 1] == (b[i + 1][j] == 1);
      }
      assert mask[i] == VertNeighbour(b, i, j);
      assert (i, j) in VertLine(b, c) <==> mask[i];
    }
  }

  lemma VertLineCellsStep(b: Matrix, c: nat)
    requires IsSquare(b) && 1 <= c <= |b|
    ensures VertLineCells(b, c) == VertLineCells(b, c - 1) + VertLine(b, c - 1)
    ensures VertLineCells(b, c - 1) * VertLine(b, c - 1) == {}
  {
    var j := c - 1;
    var line := VertLine(b, j);
    var before := VertLineCells(b, j);
    var after := VertLineCells(b, c);
    forall p | p in after ensures p in before + line {
      VertLineMembers(b, j, p.0, p.1);
    }
    forall p | p in before + line ensures p in after {
      VertLineMembers(b, j, p.0, p.1);
    }
    forall p | p in before ensures p !in line {
      VertLineMembers(b, j, p.0, p.1);
    }
  }

  lemma VertLineCellsCardStep(b: Matrix, c: nat)
    requires IsSquare(b) && 1 <= c <= |b|
    ensures |VertLineCells(b, c)| == |VertLineCells(b, c - 1)| + RunTotal(Column(b, c - 1))
  {
    VertLineCard(b, c - 1);
    VertLineCellsStep(b, c);
    DisjointUnionCard(VertLineCells(b, c - 1), VertLine(b, c - 1));
  }

  /** The column scan counts exactly the cells on vertical lines. */
  lemma {:induction false} VertTotalCountsLineCells(b: Matrix, c: nat)
    requires IsSquare(b) && c <= |b|
    ensures VertTotal(b, c) == |VertLineCells(b, c)|
  {
    if c == 0 {
      assert VertLineCells(b, 0) == {};
    } else {
      VertTotalCountsLineCells(b, c - 1);
      VertLineCellsCardStep(b, c);
    }
  }

  function OnesMask(row: seq<int>): (mask: seq<bool>)
    ensures |mask| == |row|
  {
    seq(|row|, t requires 0 <= t < |row| => row[t] == 1)
  }

  lemma {:induction false} RowSumCountsOnes(row: seq<int>, j: nat)
    requires j <= |row|
    requires forall t :: 0 <= t < |row| ==> row[t] == 0 || row[t] == 1
    ensures RowSum(row, j) == CountIn(OnesMask(row), 0, j)
  {
    if j > 0 {
      RowSumCountsOnes(row, j - 1);
    }
  }

  /** The 1-cells of row i, as counted by the row's mask. */
  ghost function RowOnes(b: Matrix, i: nat): set<(int, int)>
    requires IsSquare(b) && i < |b|
  {
    var mask := OnesMask(b[i]);
    set t | 0 <= t < |b| && mask[t] :: (i, t)
  }

  lemma RowOnesCard(b: Matrix, i: nat)
    requires IsSquare(b) && IsBinary(b) && i < |b|
    ensures |RowOnes(b, i)| == RowSum(b[i], |b|)
  {
    var mask := OnesMask(b[i]);
    RowSumCountsOnes(b[i], |b[i]|);
    var f: int -> (int, int) := t => (i, t);
    CardOfImage(mask, |b|, f);
    assert RowOnes(b, i) == set t | 0 <= t < |b| && mask[t] :: f(t);
  }

  lemma OnesCellsStep(b: Matrix, r: nat)
    requires IsSquare(b) && 1 <= r <= |b|
    ensures OnesCells(b, r) == OnesCells(b, r - 1) + RowOnes(b, r - 1)
    ensures OnesCells(b, r - 1) * RowOnes(b, r - 1) == {}
  {
    var i := r - 1;
    var mask := OnesMask(b[i]);
    forall p | p in OnesCells(b, r) ensures p in OnesCells(b, i) + RowOnes(b, i) {
      if p.0 == i {
        assert mask[p.1];
      }
    }
  }

  /** On a 0/1 matrix recCount is the number of 1-cells. */
  lemma {:induction false} RecCountCountsOnes(b: Matrix, r: nat)
    requires IsSquare(b) && IsBinary(b) && r <= |b|
    ensures RowsSum(b, r) == |OnesCells(b, r)|
  {
    if r == 0 {
      assert OnesCells(b, 0) == {};
    } else {
      RecCountCountsOnes(b, r - 1);
      RowOnesCard(b, r - 1);
      OnesCellsStep(b, r);
      DisjointUnionCard(OnesCells(b, r - 1), RowOnes(b, r - 1));
    }
  }

  /** A 0/1 row sums to at most its length, and to exactly its length only
      when it is all 1s. */
  lemma {:induction false} RowSumBounds(row: seq<int>, j: nat)
    requires j <= |row|
    requires forall t :: 0 <= t < |row| ==> row[t] == 0 || row[t] == 1
    ensures 0 <= RowSum(row, j) <= j
    ensures RowSum(row, j) == j <==> forall t :: 0 <= t < j ==> row[t] == 1
    ensures RowSum(row, j) == 0 <==> forall t :: 0 <= t < j ==> row[t] == 0
  {
    if j > 0 {
      RowSumBounds(row, j - 1);
    }
  }

  lemma {:induction false} RowsSumBounds(b: Matrix, r: nat)
    requires IsSquare(b) && IsBinary(b) && r <= |b|
    ensures 0 <= RowsSum(b, r) <= r * |b|
    ensures RowsSum(b, r) == r * |b| <==> forall i, j :: 0 <= i < r && 0 <= j < |b| ==> b[i][j] == 1
    ensures RowsSum(b, r) == 0 <==> forall i, j :: 0 <= i < r && 0 <= j < |b| ==> b[i][j] == 0
  {
    if r > 0 {
      var n := |b|;
      RowsSumBounds(b, r - 1);
      RowSumBounds(b[r - 1], n);
      assert (r - 1) * n + n == r * n;
      if RowsSum(b, r) == r * n {
        assert RowsSum(b, r - 1) == (r - 1) * n;
      }
    }
  }

  /** The recurrence rate is a fraction, and it is 1 exactly when every cell
      is a recurrence. */
  lemma RecurrenceRateBounds(b: Matrix)
    requires IsSquare(b) && IsBinary(b) && |b| > 0
    ensures 0.0 <= RqaOf(b).rr <= 1.0
    ensures RqaOf(b).rr == 1.0 <==> forall i, j :: 0 <= i < |b| && 0 <= j < |b| ==> b[i][j] == 1
  {
    var n := |b|;
    RowsSumBounds(b, n);
    var rc := RecCount(b);
    assert RqaOf(b).rr == rc as real / (n * n) as real;
    QuotientFacts(rc as real, (n * n) as real);
  }

  /** DET and LAM are fractions of recCount; the cap at 1 is never reached
      because every cell on a line is itself a recurrence. */
  lemma LineMeasuresBounds(b: Matrix)
    requires IsSquare(b) && IsBinary(b) && |b| > 0
    ensures DiagTotal(b, |b|) <= RecCount(b)
    ensures VertTotal(b, |b|) <= RecCount(b)
    ensures RecCount(b) > 0 ==>
              RqaOf(b).det == DiagTotal(b, |b|) as real / RecCount(b) as real &&
              RqaOf(b).lam == VertTotal(b, |b|) as real / RecCount(b) as real
    ensures RecCount(b) == 0 ==> RqaOf(b).det == 0.0 && RqaOf(b).lam == 0.0
    ensures 0.0 <= RqaOf(b).det <= 1.0 && 0.0 <= RqaOf(b).lam <= 1.0
  {
    var n := |b|;
    DiagTotalCountsLineCells(b, n);
    VertTotalCountsLineCells(b, n);
    RecCountCountsOnes(b, n);
    SubsetCard(DiagLineCells(b, n), OnesCells(b, n));
    SubsetCard(VertLineCells(b, n), OnesCells(b, n));
    var rc := RecCount(b);
    if rc > 0 {
      RatioBelowOne(DiagTotal(b, n), rc);
      RatioBelowOne(VertTotal(b, n), rc);
    }
  }

  lemma RatioBelowOne(part: nat, whole: int)
    requires 0 < whole && part <= whole
    ensures 0.0 <= part as real / whole as real <= 1.0
    ensures Ratio(part, whole) == part as real / whole as real
  {
    QuotientFacts(part as real, whole as real);
  }

  /** The all-ones n x n matrix. */
  function AllOnes(n: nat): (b: Matrix)
    ensures |b| == n && IsSquare(b) && IsBinary(b)
  {
    seq(n, i => seq(n, j => 1))
  }

  function AllZeros(n: nat): (b: Matrix)
    ensures |b| == n && IsSquare(b) && IsBinary(b)
  {
    seq(n, i => seq(n, j => 0))
  }

  /** On the all-ones matrix diagonal k is one run of length n - k, so the
      diagonals 1 .. k-1 contribute the lengths n-1, ..., n-k+1 while those
      stay above 1. */
  lemma {:induction false} DiagTotalAllOnes(n: nat, k: nat)
    requires 1 <= k < n
    ensures 2 * DiagTotal(AllOnes(n), k) == (k - 1) * (2 * n - k)
  {
    if k > 1 {
      DiagTotalAllOnes(n, k - 1);
      RunTotalAllOnes(Diagonal(AllOnes(n), k - 1));
      assert (k - 2) * (2 * n - k + 1) + 2 * (n - k + 1) == (k - 1) * (2 * n - k);
    }
  }

  lemma {:induction false} VertTotalAllOnes(n: nat, c: nat)
    requires 1 < n && c <= n
    ensures VertTotal(AllOnes(n), c) == c * n
  {
    if c > 0 {
      VertTotalAllOnes(n, c - 1);
      var cells := Column(AllOnes(n), c - 1);
      assert forall t :: 0 <= t < |cells| ==> cells[t];
      RunTotalAllOnes(cells);
      assert (c - 1) * n + n == c * n;
    }
  }

  lemma AllOnesDiagTotal(n: nat)
    requires n > 1
    ensures 2 * DiagTotal(AllOnes(n), n) == n * (n - 1) - 2
  {
    var b := AllOnes(n);
    var cells := Diagonal(b, n - 1);
    assert DiagTotal(b, n) == DiagTotal(b, n - 1) + RunTotal(cells);
    assert forall t :: 0 <= t < |cells| ==> cells[t];
    RunTotalAllOnes(cells);
    assert RunTotal(cells) == 0;
    if n > 2 {
      DiagTotalAllOnes(n, n - 1);
      LastDiagonalArithmetic(n);
    }
  }

  lemma LastDiagonalArithmetic(n: nat)
    requires n > 2
    ensures (n - 2) * (2 * n - (n - 1)) == n * (n - 1) - 2
  {
  }

  lemma AllOnesTotals(n: nat)
    requires n > 1
    ensures RecCount(AllOnes(n)) == n * n
    ensures 2 * DiagTotal(AllOnes(n), n) == n * (n - 1) - 2
    ensures VertTotal(AllOnes(n), n) == n * n
  {
    RowsSumBounds(AllOnes(n), n);
    AllOnesDiagTotal(n);
    VertTotalAllOnes(n, n);
  }

  lemma HalvedCount(d: nat, n: nat)
    requires 2 * d == n * (n - 1) - 2
    ensures d as real == (n * (n - 1)) as real / 2.0 - 1.0
  {
  }

  /** computeRQA on an all-ones matrix with n > 1: RR = LAM = 1, but DET is
      (n(n-1)/2 - 1)/n^2 since only the upper diagonals are scanned, the
      last of them (length 1) contributing nothing. */
  lemma AllOnesMeasures(n: nat)
    requires n > 1
    ensures RqaOf(AllOnes(n)) ==
            Measures(1.0, ((n * (n - 1)) as real / 2.0 - 1.0) / (n * n) as real, 1.0)
  {
    var b := AllOnes(n);
    AllOnesTotals(n);
    var nn: nat := n * n;
    var d := DiagTotal(b, n);
    assert d <= nn;
    QuotientFacts(d as real, nn as real);
    QuotientFacts(nn as real, nn as real);
    assert Ratio(d, nn) == d as real / nn as real;
    assert Ratio(VertTotal(b, n), nn) == 1.0;
    assert RqaOf(b) == Measures(nn as real / nn as real, Ratio(d, nn), Ratio(VertTotal(b, n), nn));
    HalvedCount(d, n);
  }

  /** computeRQA on an all-zeros matrix gives three zeros. */
  lemma AllZerosMeasures(n: nat)
    ensures RqaOf(AllZeros(n)) == Measures(0.0, 0.0, 0.0)
  {
    RowsSumBounds(AllZeros(n), n);
  }
}
