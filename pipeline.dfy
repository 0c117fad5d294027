/** The two stages together, as the pages use them: the binary matrix of
    computeRecurrenceMatrix is what computeRQA measures. */
module Pipeline {
  import opened Embedding
  import EmbeddingLemmas
  import opened Rqa
  import RqaLemmas

  /** The binary matrix is a square 0/1 matrix, so the three measures lie
      in [0, 1]. */
  lemma MeasuresOfRecurrence(signal: seq<real>, m: int, tau: int, threshold: real, sqrt: real -> real)
    requires m >= 1 && tau >= 1
    ensures var b := RecurrenceOf(signal, m, tau, threshold, sqrt).binary;
            IsSquare(b) && IsBinary(b) &&
            0.0 <= RqaOf(b).rr <= 1.0 && 0.0 <= RqaOf(b).det <= 1.0 && 0.0 <= RqaOf(b).lam <= 1.0
  {
    var b := RecurrenceOf(signal, m, tau, threshold, sqrt).binary;
    EmbeddingLemmas.RecurrenceShape(signal, m, tau, threshold, sqrt);
    if |b| > 0 {
      RqaLemmas.RecurrenceRateBounds(b);
      RqaLemmas.LineMeasuresBounds(b);
    }
  }

  /** Too short a signal for one delay vector gives RR = DET = LAM = 0. */
  lemma ShortSignalMeasures(signal: seq<real>, m: int, tau: int, threshold: real, sqrt: real -> real)
    requires m >= 1 && tau >= 1
    requires VectorCount(|signal|, m, tau) <= 0
    ensures RqaOf(RecurrenceOf(signal, m, tau, threshold, sqrt).binary) == Measures(0.0, 0.0, 0.0)
  {
  }

  /** RR is 1 exactly when every pair of delay vectors is within eps. */
  lemma FullRecurrenceRate(signal: seq<real>, m: int, tau: int, threshold: real, sqrt: real -> real)
    requires m >= 1 && tau >= 1
    requires VectorCount(|signal|, m, tau) > 0
    ensures var r := RecurrenceOf(signal, m, tau, threshold, sqrt);
            RqaOf(r.binary).rr == 1.0 <==>
              forall i, j :: 0 <= i < |r.matrix| && 0 <= j < |r.matrix| ==>
                r.matrix[i][j] <= Eps(threshold, r.maxDist.value)
  {
    var r := RecurrenceOf(signal, m, tau, threshold, sqrt);
    EmbeddingLemmas.RecurrenceShape(signal, m, tau, threshold, sqrt);
    EmbeddingLemmas.BinaryMarksThreshold(signal, m, tau, threshold, sqrt);
    RqaLemmas.RecurrenceRateBounds(r.binary);
  }

  /** A constant signal with more than one delay vector: RR = LAM = 1 and
      DET = (n(n-1)/2 - 1) / n^2, for every threshold. */
  lemma ConstantSignalMeasures(signal: seq<real>, m: int, tau: int, threshold: real, sqrt: real -> real)
    requires m >= 1 && tau >= 1 && IsSqrt(sqrt)
    requires VectorCount(|signal|, m, tau) > 1
    requires forall k :: 0 <= k < |signal| ==> signal[k] == signal[0]
    ensures var n := VectorCount(|signal|, m, tau);
            RqaOf(RecurrenceOf(signal, m, tau, threshold, sqrt).binary) ==
              Measures(1.0, ((n * (n - 1)) as real / 2.0 - 1.0) / (n * n) as real, 1.0)
  {
    var n := VectorCount(|signal|, m, tau);
    EmbeddingLemmas.ConstantSignalAllOnes(signal, m, tau, threshold, sqrt);
    assert RecurrenceOf(signal, m, tau, threshold, sqrt).binary == RqaLemmas.AllOnes(n);
    RqaLemmas.AllOnesMeasures(n);
  }
}
