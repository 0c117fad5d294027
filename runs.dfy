/** Run-length scanning of one line (a diagonal or a column) of a recurrence
    matrix, as done by the inner loops of computeRQA, together with the
    counting facts that give the scan its meaning. */
module Runs {

  /** Number of true positions among mask[lo..hi]. */
  function CountIn(mask: seq<bool>, lo: nat, hi: nat): (c: nat)
    requires lo <= hi <= |mask|
    ensures c <= hi - lo
    decreases hi - lo
  {
    if lo == hi then 0 else CountIn(mask, lo, hi - 1) + (if mask[hi - 1] then 1 else 0)
  }

  lemma {:induction false} CountInSplit(mask: seq<bool>, lo: nat, mid: nat, hi: nat)
    requires lo <= mid <= hi <= |mask|
    ensures CountIn(mask, lo, hi) == CountIn(mask, lo, mid) + CountIn(mask, mid, hi)
    decreases hi - mid
  {
    if hi > mid {
      CountInSplit(mask, lo, mid, hi - 1);
    }
  }

  /** A mask whose positions are all set counts every position. */
  lemma {:induction false} CountInAll(mask: seq<bool>, lo: nat, hi: nat)
    requires lo <= hi <= |mask|
    requires forall t :: lo <= t < hi ==> mask[t]
    ensures CountIn(mask, lo, hi) == hi - lo
    decreases hi - lo
  {
    if lo < hi {
      CountInAll(mask, lo, hi - 1);
    }
  }

  /** Counting the set positions of a mask is counting the points of their
      image under any injective map into matrix coordinates. */
  lemma {:induction false} CardOfImage(mask: seq<bool>, hi: nat, f: int -> (int, int))
    requires hi <= |mask|
    requires forall a, b :: f(a) == f(b) ==> a == b
    ensures |set t | 0 <= t < hi && mask[t] :: f(t)| == CountIn(mask, 0, hi)
  {
    if hi > 0 {
      CardOfImage(mask, hi - 1, f);
      ImageStep(mask, hi, f);
    }
  }

  /** Extending the range by one index adds f of that index to the image
      exactly when the mask holds there, and it was not in the image before. */
  lemma ImageStep(mask: seq<bool>, hi: nat, f: int -> (int, int))
    requires 0 < hi <= |mask|
    requires forall a, b :: f(a) == f(b) ==> a == b
    ensures var prev := set t | 0 <= t < hi - 1 && mask[t] :: f(t);
            var cur := set t | 0 <= t < hi && mask[t] :: f(t);
            f(hi - 1) !in prev &&
            cur == (if mask[hi - 1] then prev + {f(hi - 1)} else prev)
  {
    var prev := set t | 0 <= t < hi - 1 && mask[t] :: f(t);
    var cur := set t | 0 <= t < hi && mask[t] :: f(t);
    forall y | y in prev
      ensures y != f(hi - 1)
    {
      var t :| 0 <= t < hi - 1 && mask[t] && f(t) == y;
    }
    if mask[hi - 1] {
      assert cur == prev + {f(hi - 1)};
    } else {
      assert cur == prev;
    }
  }

  /** Cell t of a line is a 1 that has a 1 next to it along the line, i.e. it
      lies in a maximal run of 1s of length at least 2. */
  predicate InLongRun(cells: seq<bool>, t: int)
    requires 0 <= t < |cells|
  {
    cells[t] && ((0 < t && cells[t - 1]) || (t + 1 < |cells| && cells[t + 1]))
  }

  function LongMask(cells: seq<bool>): (mask: seq<bool>)
    ensures |mask| == |cells|
    ensures forall t :: 0 <= t < |cells| ==> mask[t] == InLongRun(cells, t)
  {
    seq(|cells|, t requires 0 <= t < |cells| => InLongRun(cells, t))
  }

  /** Number of cells of the line that lie in a run of length at least 2. */
  function CountLong(cells: seq<bool>): nat
  {
    CountIn(LongMask(cells), 0, |cells|)
  }

  /** The state of the scan after a prefix of the line: `len` is the length of
      the run of 1s still open, `sum` the total length of the closed runs
      longer than 1 (the lengths pushed so far). */
  datatype ScanState = ScanState(len: nat, sum: nat)

  /** The scan over cells[..j]: a 1 extends the open run; a 0 closes it,
      keeping its length only when it exceeds 1. */
  function Scan(cells: seq<bool>, j: nat): (s: ScanState)
    requires j <= |cells|
    ensures s.sum + s.len <= j
  {
    if j == 0 then ScanState(0, 0)
    else
      var s := Scan(cells, j - 1);
      if cells[j - 1] then ScanState(s.len + 1, s.sum)
      else ScanState(0, if s.len > 1 then s.sum + s.len else s.sum)
  }

  /** The lengths the scan over cells[..j] has pushed, in the order it pushed
      them: each run of 1s longer than 1 that a 0 has closed. */
  function Pushed(cells: seq<bool>, j: nat): (ps: seq<nat>)
    requires j <= |cells|
    ensures forall t :: 0 <= t < |ps| ==> ps[t] > 1
  {
    if j == 0 then []
    else
      var s := Scan(cells, j - 1);
      var ps := Pushed(cells, j - 1);
      if !cells[j - 1] && s.len > 1 then ps + [s.len] else ps
  }

  /** The lengths pushed for a whole line, the flushed last run included. */
  function RunLengths(cells: seq<bool>): (ps: seq<nat>)
    ensures forall t :: 0 <= t < |ps| ==> ps[t] > 1
  {
    var s := Scan(cells, |cells|);
    if s.len > 1 then Pushed(cells, |cells|) + [s.len] else Pushed(cells, |cells|)
  }

  /** The flush after the loop: the run still open counts when longer than 1. */
  function Flush(s: ScanState): nat
  {
    if s.len > 1 then s.sum + s.len else s.sum
  }

  /** Total length of the maximal runs longer than 1 found by one scan. */
  function RunTotal(cells: seq<bool>): (r: nat)
    ensures r <= |cells|
  {
    Flush(Scan(cells, |cells|))
  }

  /** In a maximal run cells[lo..hi] every cell is in a long run exactly when
      the run has length at least 2. */
  lemma MaximalRunCount(cells: seq<bool>, lo: nat, hi: nat)
    requires lo <= hi <= |cells|
    requires forall t :: lo <= t < hi ==> cells[t]
    requires lo == 0 || !cells[lo - 1]
    requires hi == |cells| || !cells[hi]
    ensures CountIn(LongMask(cells), lo, hi) == if hi - lo > 1 then hi - lo else 0
  {
    var mask := LongMask(cells);
    if hi - lo > 1 {
      forall t | lo <= t < hi ensures mask[t] {
        if t + 1 < hi {
          assert cells[t + 1];
        } else {
          assert cells[t - 1];
        }
      }
      CountInAll(mask, lo, hi);
    } else if hi - lo == 1 {
      assert !mask[lo];
    }
  }

  /** What the scan state records about the prefix cells[..j]. */
  lemma {:induction false} ScanInvariant(cells: seq<bool>, j: nat)
    requires j <= |cells|
    ensures Scan(cells, j).len <= j
    ensures forall t :: j - Scan(cells, j).len <= t < j ==> cells[t]
    ensures j - Scan(cells, j).len == 0 || !cells[j - Scan(cells, j).len - 1]
    ensures Scan(cells, j).sum == CountIn(LongMask(cells), 0, j - Scan(cells, j).len)
  {
    if j > 0 {
      ScanInvariant(cells, j - 1);
      var s := Scan(cells, j - 1);
      var start := j - 1 - s.len;
      if !cells[j - 1] {
        var mask := LongMask(cells);
        MaximalRunCount(cells, start, j - 1);
        CountInSplit(mask, 0, start, j - 1);
        assert !mask[j - 1];
      }
    }
  }

  /** The scan's total equals the number of cells lying in a run of 1s of
      length at least 2. */
  lemma RunTotalIsCountLong(cells: seq<bool>)
    ensures RunTotal(cells) == CountLong(cells)
  {
    var n := |cells|;
    ScanInvariant(cells, n);
    var s := Scan(cells, n);
    MaximalRunCount(cells, n - s.len, n);
    CountInSplit(LongMask(cells), 0, n - s.len, n);
  }

  /** A line of 1s only: its whole length counts once it exceeds 1. */
  lemma {:induction false} ScanAllOnes(cells: seq<bool>, j: nat)
    requires j <= |cells|
    requires forall t :: 0 <= t < |cells| ==> cells[t]
    ensures Scan(cells, j) == ScanState(j, 0)
  {
    if j > 0 {
      ScanAllOnes(cells, j - 1);
    }
  }

  lemma RunTotalAllOnes(cells: seq<bool>)
    requires forall t :: 0 <= t < |cells| ==> cells[t]
    ensures RunTotal(cells) == if |cells| > 1 then |cells| else 0
  {
    ScanAllOnes(cells, |cells|);
  }

  /** The long-run count never exceeds the number of 1s of the line. */
  lemma {:induction false} CountLongAtMostOnes(cells: seq<bool>, hi: nat)
    requires hi <= |cells|
    ensures CountIn(LongMask(cells), 0, hi) <= CountIn(cells, 0, hi)
  {
    if hi > 0 {
      CountLongAtMostOnes(cells, hi - 1);
    }
  }
}
