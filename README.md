# Recurrence plots: signal generation, recurrence matrix and RQA

A Dafny model of the computational core behind the recurrence-plot pages. The pipeline has three stages:

1. **`generateSignal`** produces a test time series from a type name. The types are sine, uniform noise, a Lorenz x-coordinate, a drifting sine, an intermittent laminar/burst series, a quasiperiodic sum of two sines, and two synthetic fMRI-like series. Optional uniform noise is added afterwards.
2. **`computeRecurrenceMatrix`** works on that series. It does a time-delay embedding with dimension `m` and delay `tau`. It then builds the Euclidean distance matrix of the delay vectors and the running maximum distance `maxDist`. Finally it thresholds the distances at `eps = threshold * maxDist * 0.5` into a 0/1 recurrence matrix.
3. **`computeRQA`** measures that 0/1 matrix:
   - RR, the recurrence rate;
   - DET, determinism: the cells on diagonal lines of length at least 2, scanned over the upper diagonals only;
   - LAM, laminarity: the cells on vertical lines of length at least 2.

   DET and LAM are ratios to the number of recurrences, capped at 1, and 0 when there is no recurrence.

The same five functions appear twice: in `recurrence-plot-website/src/utils/signal.js`, and again, verbatim, in `recurrence-plot-website-fixed.jsx`: generateSignal at lines 7-44, generateLorenz at 46-58, generateIntermittent at 60-73, computeRecurrenceMatrix at 79-107 and computeRQA at 113-146. The table cites `signal.js`; each cited line there sits 4 lines lower in the single-file page for the generators, 8 lines lower for computeRecurrenceMatrix and 12 lines lower for computeRQA.

How things are modelled:

- **Math.random** is a draw source `draw: nat -> real`. Every generator that calls Math.random takes the index of its first draw and returns the index of the first draw it left unused, so the order of the draws is part of the model. The hypothesis `Random.IsUnit` states that every draw lies in [0, 1).
- **Math.sin and Math.sqrt** are function parameters. The hypotheses placed on them are `Signal.IsBoundedSine` (values in [-1, 1]) and `Embedding.IsSqrt` (0 maps to 0, non-negative inputs give non-negative results). These appear only as hypotheses of the lemmas that need them.
- **Arithmetic** is exact real arithmetic.
- **Loops** are methods with loop invariants: the Lorenz integration, the intermittent state machine, the embedding and distance loop nests, and the recurrence-count and line scans. Each method is proved equal to a function that specifies it; the line scans of computeRQA are proved to push exactly the list of run lengths that function gives, and that list sums to the run total. The properties are proved as lemmas about those functions.

Modules:
- `Random`: the draw source.
- `Signal`: `generateSignal`.
- `Lorenz`: `generateLorenz`.
- `Intermittent`: `generateIntermittent`.
- `Embedding` and `EmbeddingLemmas`: `computeRecurrenceMatrix`.
- `Runs`: the run scan of one line.
- `Rqa` and `RqaLemmas`: `computeRQA`.
- `Pipeline`: the two analysis stages together.
- `Quotients`: facts about a quotient of reals.

## Model

| member | source | states |
|---|---|---|
| Signal.GenerateSignal | recurrence-plot-website/src/utils/signal.js:3-40 | generateSignal gives `length` samples and never moves the draw cursor backwards |
| Signal.Base | recurrence-plot-website/src/utils/signal.js:7-34 | the switch gives `length` samples for every type name; only noise, fmri_healthy, fmri_mci and intermittent take draws |
| Signal.AddNoise | recurrence-plot-website/src/utils/signal.js:36-38 | the noise pass keeps the number of samples and takes one draw per sample exactly when noiseLevel > 0 |
| Signal.UnknownKindIsSine | recurrence-plot-website/src/utils/signal.js:32-33 | a type name outside the eight known ones gives exactly the sine series, draws included |
| Signal.NoNoiseUnlessPositive | recurrence-plot-website/src/utils/signal.js:36-38 | a noiseLevel of 0 or below leaves the series and the draw cursor unchanged |
| Signal.NoiseBounded | recurrence-plot-website/src/utils/signal.js:36-38 | with draws in [0,1), a positive noiseLevel moves each sample into [v - noiseLevel, v + noiseLevel) and uses one draw per sample |
| Signal.DrawsUsed | recurrence-plot-website/src/utils/signal.js:7-34 | noise and fmri_healthy take one draw per sample, fmri_mci two, intermittent between one and two, the other types none |
| Signal.SampleRanges | recurrence-plot-website/src/utils/signal.js:8-30 | with draws in [0,1) and sin in [-1,1]: noise in [-1,1), sine in [-1,1], quasiperiodic in [-2,2], fmri_healthy in [-0.875,0.875), fmri_mci in [-0.65,0.65) |
| Signal.IntermittentRange | recurrence-plot-website/src/utils/signal.js:20-21 | with draws in [0,1), the intermittent series lies in [-1,1) |
| Lorenz.Integrate | recurrence-plot-website/src/utils/signal.js:43-51 | the integration loop keeps x after steps 1, 11, 21, ... of the Euler trajectory from (1,1,1): exactly the `Raw(n)` samples |
| Lorenz.GenerateLorenz | recurrence-plot-website/src/utils/signal.js:42-54 | generateLorenz returns the min-max rescaling of the kept samples |
| Lorenz.Raw | recurrence-plot-website/src/utils/signal.js:46-50 | one kept value per requested sample: n values |
| Lorenz.Normalize | recurrence-plot-website/src/utils/signal.js:52-53 | the rescaling keeps the number of values |
| Lorenz.MinMaxBounds | recurrence-plot-website/src/utils/signal.js:52 | Math.min and Math.max of the kept values are elements of the list and bound every element |
| Lorenz.Rescale | recurrence-plot-website/src/utils/signal.js:53 | (v-min)/(max-min)*2-1 lies in [-1,1]; it is -1 exactly at min and 1 exactly at max |
| Lorenz.RescaleMonotone | recurrence-plot-website/src/utils/signal.js:53 | the rescaling is increasing |
| Lorenz.NormalizeRange | recurrence-plot-website/src/utils/signal.js:52-53 | for non-constant values: all in [-1,1]; -1 exactly at the minimum and 1 exactly at the maximum; order kept |
| Lorenz.LorenzSamples | recurrence-plot-website/src/utils/signal.js:42-54 | generateLorenz(n) has n samples; when the kept values are not all equal they span [-1,1] and reach both ends |
| Intermittent.GenerateIntermittent | recurrence-plot-website/src/utils/signal.js:56-69 | the loop emits exactly the samples of `Run(n)` and consumes exactly its draws |
| Intermittent.Step | recurrence-plot-website/src/utils/signal.js:60-66 | one iteration takes a second draw exactly when the incremented counter exceeds the gate (30 laminar, 10 burst), by the short-circuit of `&&`; the counter goes up by one while the phase stays, and a switch resets it to 0 only once the incremented counter passed the gate |
| Intermittent.Run | recurrence-plot-website/src/utils/signal.js:57-67 | one sample and one phase per iteration, using between k and 2k draws in k iterations |
| Intermittent.EpisodeLength | recurrence-plot-website/src/utils/signal.js:58-66 | the length of the episode ending at t lies between 1 and t+1 |
| Intermittent.EpisodeLengthMeaning | recurrence-plot-website/src/utils/signal.js:58-66 | the last EpisodeLength(t) samples up to t share t's phase, and the sample before them differs |
| Intermittent.EpisodeLengthAppend | recurrence-plot-website/src/utils/signal.js:61-64 | emitting a sample leaves the episodes before it unchanged |
| Intermittent.EpisodeLengthOfLast | recurrence-plot-website/src/utils/signal.js:61-64 | a new sample extends the last episode or starts a new one of length 1 |
| Intermittent.AppendKeepsDwell | recurrence-plot-website/src/utils/signal.js:62-65 | the minimum dwell of closed episodes is kept when a sample is appended after a long enough episode |
| Intermittent.StepKeepsInvariant | recurrence-plot-website/src/utils/signal.js:60-66 | one iteration keeps the run invariant (the counter counts the current episode, and closed episodes respected their gate) |
| Intermittent.RunKeepsInvariant | recurrence-plot-website/src/utils/signal.js:58-67 | the invariant holds after every number of iterations |
| Intermittent.CounterCountsEpisode | recurrence-plot-website/src/utils/signal.js:58-65 | `counter` is the number of samples emitted in the current phase, and 0 right after a switch |
| Intermittent.EpisodesRespectGates | recurrence-plot-website/src/utils/signal.js:62-65 | every closed laminar episode lasted at least 31 samples, every closed burst at least 11 |
| Intermittent.SwitchFollowsLongEpisode | recurrence-plot-website/src/utils/signal.js:62-65 | before every switch the preceding 31 (laminar) or 11 (burst) samples were all in the phase being left |
| Intermittent.StepSwitchesOnlyPastGate | recurrence-plot-website/src/utils/signal.js:62-65 | a switch happens iff the incremented counter exceeds 30/10 and the second draw exceeds 0.95/0.8; the counter resets iff the phase switches |
| Intermittent.StartsLaminar | recurrence-plot-website/src/utils/signal.js:58 | the first sample is laminar |
| Intermittent.SampleRanges | recurrence-plot-website/src/utils/signal.js:61-64 | with draws in [0,1), laminar samples lie in [0.475,0.525) and burst samples in [-1,1) |
| Intermittent.SamplesWithinUnit | recurrence-plot-website/src/utils/signal.js:61-64 | with draws in [0,1), every sample lies in [-1,1) |
| Embedding.StrideInBounds | recurrence-plot-website/src/utils/signal.js:72-78 | every index i + j*tau read by the embedding lies inside the signal |
| Embedding.DelayVector | recurrence-plot-website/src/utils/signal.js:77-78 | a delay vector has m entries |
| Embedding.Embed | recurrence-plot-website/src/utils/signal.js:72-80 | n = len - (m-1)*tau delay vectors, each of length m |
| Embedding.DistanceMatrix | recurrence-plot-website/src/utils/signal.js:82-94 | the distance matrix is n x n |
| Embedding.Binarize | recurrence-plot-website/src/utils/signal.js:97 | thresholding keeps the shape of the matrix |
| Embedding.DelayVectors | recurrence-plot-website/src/utils/signal.js:75-80 | the first loop nest builds exactly the delay vectors |
| Embedding.PairDistance | recurrence-plot-website/src/utils/signal.js:87-89 | the innermost loop computes sqrt of the sum of squared differences |
| Embedding.DistanceRow | recurrence-plot-website/src/utils/signal.js:85-93 | one row of the second loop nest is row i of the distance matrix, and the running maximum is updated entry by entry |
| Embedding.Distances | recurrence-plot-website/src/utils/signal.js:82-94 | the second loop nest builds the whole distance matrix and its running maximum from 0 |
| Embedding.ComputeRecurrenceMatrix | recurrence-plot-website/src/utils/signal.js:71-99 | computeRecurrenceMatrix returns empty matrices and no maxDist for n <= 0, and otherwise the matrix, its thresholding at eps, and maxDist |
| Embedding.RecurrenceOf | recurrence-plot-website/src/utils/signal.js:71-98 | maxDist is present exactly when n > 0 and is then non-negative; both matrices have n rows, none when n <= 0 |
| Embedding.RowMax | recurrence-plot-website/src/utils/signal.js:86-92 | the running maximum over a row never drops below its start |
| Embedding.MatrixMax | recurrence-plot-website/src/utils/signal.js:83-94 | the running maximum from 0 over the rows is non-negative |
| EmbeddingLemmas.RecurrenceShape | recurrence-plot-website/src/utils/signal.js:72-98 | n <= 0 iff the result is empty with no maxDist; otherwise both matrices are n x n and maxDist is present |
| EmbeddingLemmas.DelayVectorEntries | recurrence-plot-website/src/utils/signal.js:78 | entry j of delay vector i is signal[i + j*tau] |
| EmbeddingLemmas.SumSqSymmetric | recurrence-plot-website/src/utils/signal.js:88 | the sum of squared differences is symmetric in the two vectors |
| EmbeddingLemmas.SumSqNonNegative | recurrence-plot-website/src/utils/signal.js:88 | the sum of squared differences is non-negative |
| EmbeddingLemmas.SumSqSelf | recurrence-plot-website/src/utils/signal.js:88 | the sum of squared differences of a vector with itself is 0 |
| EmbeddingLemmas.DistanceMatrixMetric | recurrence-plot-website/src/utils/signal.js:84-94 | given a square root that maps 0 to 0 and is non-negative on non-negatives: the distance matrix is non-negative and symmetric with a zero diagonal |
| EmbeddingLemmas.DistanceEntry | recurrence-plot-website/src/utils/signal.js:87-89 | one entry of the matrix is non-negative, equals its mirror, and is 0 on the diagonal |
| EmbeddingLemmas.RowMaxIsMax | recurrence-plot-website/src/utils/signal.js:91 | the running maximum over a row is at least its start, bounds every entry, and equals the start or an entry |
| EmbeddingLemmas.MatrixMaxIsMax | recurrence-plot-website/src/utils/signal.js:83-91 | the running maximum from 0 is non-negative, bounds every entry, and is 0 or an entry |
| EmbeddingLemmas.MaxDistIsLargestEntry | recurrence-plot-website/src/utils/signal.js:83-98 | maxDist bounds every distance and is 0 or one of the distances |
| EmbeddingLemmas.BinaryMarksThreshold | recurrence-plot-website/src/utils/signal.js:96-97 | binary[i][j] is 1 exactly when matrix[i][j] <= eps, and 0 exactly when it exceeds eps |
| EmbeddingLemmas.BinarizeSymmetric | recurrence-plot-website/src/utils/signal.js:97 | thresholding a symmetric matrix gives a symmetric matrix |
| EmbeddingLemmas.EpsSign | recurrence-plot-website/src/utils/signal.js:96 | eps >= 0 exactly when threshold >= 0 or maxDist = 0 |
| EmbeddingLemmas.BinarySymmetricWithDiagonal | recurrence-plot-website/src/utils/signal.js:84-97 | the binary matrix is symmetric; its diagonal is 1 exactly when threshold >= 0 or maxDist = 0 (a negative threshold clears it) |
| EmbeddingLemmas.ConstantSignalSameVectors | recurrence-plot-website/src/utils/signal.js:75-80 | a constant signal gives identical delay vectors |
| EmbeddingLemmas.MatrixMaxOfZeros | recurrence-plot-website/src/utils/signal.js:83-91 | the running maximum of an all-zero matrix is 0 |
| EmbeddingLemmas.ConstantSignalAllOnes | recurrence-plot-website/src/utils/signal.js:71-98 | a constant signal gives maxDist = 0 and an all-ones binary matrix, for every threshold |
| Runs.CountIn | recurrence-plot-website/src/utils/signal.js:111-116 | the number of marked positions in a range is at most its width |
| Runs.CountInSplit | recurrence-plot-website/src/utils/signal.js:111-116 | counts over adjacent ranges add up |
| Runs.CountInAll | recurrence-plot-website/src/utils/signal.js:111-116 | a fully marked range counts its whole width |
| Runs.CardOfImage | recurrence-plot-website/src/utils/signal.js:111-116 | the cells picked out by a mask, under an injective placement, number the mask's count |
| Runs.Scan | recurrence-plot-website/src/utils/signal.js:111-115 | after a prefix of j cells, the pushed lengths plus the open run never exceed j |
| Runs.RunTotal | recurrence-plot-website/src/utils/signal.js:111-116 | the lengths pushed for one line, flush included, total at most the line's length |
| Runs.Pushed | recurrence-plot-website/src/utils/signal.js:111-115 | the lengths a scan pushes while a 0 closes a run, in order; each exceeds 1 |
| Runs.RunLengths | recurrence-plot-website/src/utils/signal.js:111-116 | the lengths pushed for one line, the flushed last run included; each exceeds 1 |
| Runs.LongMask | recurrence-plot-website/src/utils/signal.js:111-116 | marks exactly the cells that lie in a run of 1s of length at least 2 |
| Runs.MaximalRunCount | recurrence-plot-website/src/utils/signal.js:113-116 | a maximal run counts entirely when longer than 1, and not at all otherwise |
| Runs.ScanInvariant | recurrence-plot-website/src/utils/signal.js:111-115 | after a prefix the open run is the trailing block of 1s, and the pushed lengths sum to the long-run cells before it |
| Runs.RunTotalIsCountLong | recurrence-plot-website/src/utils/signal.js:111-116 | the total of the lengths pushed for one line is the number of its cells lying in a run of 1s of length at least 2 |
| Runs.ScanAllOnes | recurrence-plot-website/src/utils/signal.js:111-115 | on a line of 1s the open run is the whole prefix and nothing is pushed |
| Runs.RunTotalAllOnes | recurrence-plot-website/src/utils/signal.js:111-116 | a line of 1s contributes its full length when longer than 1, else nothing |
| Runs.CountLongAtMostOnes | recurrence-plot-website/src/utils/signal.js:111-116 | the long-run cells of a line are at most its 1s |
| Rqa.Diagonal | recurrence-plot-website/src/utils/signal.js:112-113 | diagonal k has n - k cells |
| Rqa.Column | recurrence-plot-website/src/utils/signal.js:124-125 | a column has n cells |
| Rqa.RqaOf | recurrence-plot-website/src/utils/signal.js:101-134 | on every square matrix DET and LAM lie in [0, 1]: the Math.min cap and the recCount > 0 guard keep them there |
| Rqa.Ratio | recurrence-plot-website/src/utils/signal.js:119-131 | DET and LAM as computed: a value in [0, 1] whatever the run total and recCount |
| Rqa.PushedSum | recurrence-plot-website/src/utils/signal.js:111-115 | the pushed lengths of a prefix sum to the scan's closed-run total |
| Rqa.RunLengthsSum | recurrence-plot-website/src/utils/signal.js:111-118 | the lengths pushed for one line sum to its run total |
| Rqa.DiagLengthsOf | recurrence-plot-website/src/utils/signal.js:109-117 | the diagLengths list: the run lengths of diagonals 1 .. k-1 in scan order, each above 1 |
| Rqa.ColumnLengthsOf | recurrence-plot-website/src/utils/signal.js:121-129 | the vertLengths list: the run lengths of columns 0 .. j-1 in scan order, each above 1 |
| Rqa.CountRecurrences | recurrence-plot-website/src/utils/signal.js:105-106 | the double loop computes recCount, the sum of all entries |
| Rqa.ScanDiagonal | recurrence-plot-website/src/utils/signal.js:111-116 | scanning diagonal k appends exactly that diagonal's run lengths (`RunLengths`), so the sum grows by its run total |
| Rqa.DiagonalLengths | recurrence-plot-website/src/utils/signal.js:109-118 | diagLengths is exactly `DiagLengthsOf(b, n)`, the run lengths of the upper diagonals 1 .. n-1, and diagSum is their run total |
| Rqa.ScanColumn | recurrence-plot-website/src/utils/signal.js:123-128 | scanning column j appends exactly that column's run lengths, so the sum grows by its run total |
| Rqa.VerticalLengths | recurrence-plot-website/src/utils/signal.js:121-130 | vertLengths is exactly `ColumnLengthsOf(b, n)`, the run lengths of all columns, and vertSum is their run total |
| Rqa.ComputeRQA | recurrence-plot-website/src/utils/signal.js:101-134 | computeRQA returns the measures `RqaOf(b)`: zeros for the empty matrix, otherwise recCount/n^2 and the capped ratios |
| RqaLemmas.DiagLineCard | recurrence-plot-website/src/utils/signal.js:111-116 | the run total of diagonal d is the number of its cells on a diagonal line |
| RqaLemmas.DiagLineMembers | recurrence-plot-website/src/utils/signal.js:111-116 | a cell is counted on diagonal d iff it is an upper 1 at offset d with a diagonal neighbour 1 |
| RqaLemmas.DiagLineCellsMembers | recurrence-plot-website/src/utils/signal.js:110-117 | a cell is counted by the diagonals 1 .. k-1 iff it is an upper 1 below offset k with a diagonal neighbour 1 |
| RqaLemmas.NoDiagLineCellsBelowOne | recurrence-plot-website/src/utils/signal.js:110 | the main diagonal contributes nothing |
| RqaLemmas.DiagLineCellsStep | recurrence-plot-website/src/utils/signal.js:110-117 | adding a diagonal adds its line cells, disjoint from those counted so far |
| RqaLemmas.DiagLineCellsCardStep | recurrence-plot-website/src/utils/signal.js:110-117 | adding a diagonal adds its run total to the count of line cells |
| RqaLemmas.DiagTotalCountsLineCells | recurrence-plot-website/src/utils/signal.js:109-118 | diagSum is the number of upper cells lying on a diagonal line of length at least 2 |
| RqaLemmas.VertLineCard | recurrence-plot-website/src/utils/signal.js:123-128 | the run total of column j is the number of its cells on a vertical line |
| RqaLemmas.VertLineMembers | recurrence-plot-website/src/utils/signal.js:123-128 | a cell is counted in column c iff it is a 1 there with a 1 directly above or below |
| RqaLemmas.VertLineCellsStep | recurrence-plot-website/src/utils/signal.js:122-129 | adding a column adds its line cells, disjoint from those counted so far |
| RqaLemmas.VertLineCellsCardStep | recurrence-plot-website/src/utils/signal.js:122-129 | adding a column adds its run total to the count of line cells |
| RqaLemmas.VertTotalCountsLineCells | recurrence-plot-website/src/utils/signal.js:121-130 | vertSum is the number of cells lying on a vertical line of length at least 2 |
| RqaLemmas.OnesMask | recurrence-plot-website/src/utils/signal.js:106 | the mask of 1s has one entry per row entry |
| RqaLemmas.RowSumCountsOnes | recurrence-plot-website/src/utils/signal.js:106 | on a 0/1 row the running sum counts its 1s |
| RqaLemmas.RowOnesCard | recurrence-plot-website/src/utils/signal.js:106 | a 0/1 row sums to the number of its 1-cells |
| RqaLemmas.OnesCellsStep | recurrence-plot-website/src/utils/signal.js:106 | adding a row adds its 1-cells, disjoint from those so far |
| RqaLemmas.RecCountCountsOnes | recurrence-plot-website/src/utils/signal.js:105-106 | on a 0/1 matrix recCount is the number of 1-cells |
| RqaLemmas.RowSumBounds | recurrence-plot-website/src/utils/signal.js:106 | a 0/1 row sums to a value in [0, j]; it is j iff all 1s and 0 iff all 0s |
| RqaLemmas.RowsSumBounds | recurrence-plot-website/src/utils/signal.js:106 | recCount lies in [0, r*n]; it is r*n iff all 1s and 0 iff all 0s |
| RqaLemmas.RecurrenceRateBounds | recurrence-plot-website/src/utils/signal.js:105-107 | RR lies in [0,1] and is 1 exactly when every cell is 1 |
| RqaLemmas.LineMeasuresBounds | recurrence-plot-website/src/utils/signal.js:109-131 | diagSum and vertSum never exceed recCount, so the Math.min cap never applies; DET and LAM are those plain ratios, 0 without recurrences, and lie in [0,1] |
| RqaLemmas.RatioBelowOne | recurrence-plot-website/src/utils/signal.js:119-131 | a part of at most the whole gives a ratio in [0,1] that the cap leaves alone |
| RqaLemmas.AllOnes | recurrence-plot-website/src/utils/signal.js:101-134 | the all-ones matrix is a square 0/1 matrix |
| RqaLemmas.AllZeros | recurrence-plot-website/src/utils/signal.js:101-134 | the all-zeros matrix is a square 0/1 matrix |
| RqaLemmas.DiagTotalAllOnes | recurrence-plot-website/src/utils/signal.js:109-117 | on the all-ones matrix the diagonals 1 .. k-1 contribute (k-1)(2n-k)/2 |
| RqaLemmas.VertTotalAllOnes | recurrence-plot-website/src/utils/signal.js:121-129 | on the all-ones matrix the first c columns contribute c*n |
| RqaLemmas.AllOnesDiagTotal | recurrence-plot-website/src/utils/signal.js:109-118 | on the all-ones matrix diagSum = n(n-1)/2 - 1: the last diagonal, of length 1, counts nothing |
| RqaLemmas.AllOnesTotals | recurrence-plot-website/src/utils/signal.js:105-130 | on the all-ones matrix recCount = vertSum = n^2 and 2*diagSum = n(n-1) - 2 |
| RqaLemmas.AllOnesMeasures | recurrence-plot-website/src/utils/signal.js:101-134 | for n > 1 an all-ones matrix gives RR = LAM = 1 and DET = (n(n-1)/2 - 1)/n^2 |
| RqaLemmas.AllZerosMeasures | recurrence-plot-website/src/utils/signal.js:101-134 | an all-zeros matrix gives RR = DET = LAM = 0 |
| Pipeline.MeasuresOfRecurrence | recurrence-plot-website/src/utils/signal.js:71-134 | the binary matrix is a square 0/1 matrix, so RR, DET and LAM all lie in [0,1] |
| Pipeline.ShortSignalMeasures | recurrence-plot-website/src/utils/signal.js:72-103 | a signal too short for one delay vector gives RR = DET = LAM = 0 |
| Pipeline.FullRecurrenceRate | recurrence-plot-website/src/utils/signal.js:96-107 | RR = 1 exactly when every distance is within eps |
| Pipeline.ConstantSignalMeasures | recurrence-plot-website/src/utils/signal.js:71-134 | a constant signal with n > 1 delay vectors gives RR = LAM = 1 and DET = (n(n-1)/2 - 1)/n^2, whatever the threshold |

## Left out

- Lorenz.Normalize: when all the kept values are equal, which always happens for n = 1, the source computes 0/0 and returns NaN samples. The model returns 0.0 there, and its lemmas cover only the non-constant case.
- Lorenz.GenerateLorenz: the Euler steps are exact real arithmetic. IEEE-754 rounding of the 64-bit floats is not modelled, so the concrete trajectory values are not those of the browser.
- Floating point generally: every number is an exact real, with Math.PI written as 3.141592653589793. NaN, Infinity and rounding are not modelled. A non-number `length`, `m`, `tau` or `threshold` is not modelled either.
- Math.sin, Math.sqrt and Math.random are parameters. The lemmas assume only what they state: sin lies in [-1, 1], sqrt maps 0 to 0 and is non-negative on non-negatives, and draws lie in [0, 1). The square-root law `sqrt(x)^2 = x` is not used.
- Math.pow(d, 2) is modelled as d * d.
- The default argument values of generateSignal (150, 0.05, 0) and of computeRecurrenceMatrix (3, 1, 0.3) are not parameters of the model; every argument is passed explicitly. The calls `generateSignal(t.type, 120)` and `generateSignal('fmri_healthy', 150)` / `generateSignal('fmri_mci', 150)` in `recurrence-plot-website-fixed.jsx` (lines 413, 472-473) rely on the defaults and correspond to `Signal.GenerateSignal(kind, length, 0.05, 0.0, ...)`.
- `length` is a natural number in the model. In the source a fractional length would make the branches disagree: generateLorenz and generateIntermittent loop on the raw value, while the other branches go through Array.from. Every caller passes an integer (150, 120 or 500), so this case is not modelled.
- Embedding.ComputeRecurrenceMatrix: m and tau are required to be at least 1. Every caller passes such values: the sliders for m and tau start at 1 (`recurrence-plot-website/src/sections/InteractiveTutorial.jsx`, lines 110 and 120), and the fixed calls pass (3, 1) and (5, 2) (`recurrence-plot-website-fixed.jsx`, lines 414 and 474-475). The source does not check the bounds. Of the other values, only a negative tau with m >= 2 reads outside the signal; tau = 0, m = 1 and m <= 0 give well-defined results that the model does not cover.
- Rqa.ComputeRQA: the matrix is required to be square, as computeRecurrenceMatrix produces it. On other shapes the source reads only the first n entries of each row, so rows longer than n give a well-defined result that the model does not cover; only rows shorter than n make it read undefined cells.
- Signal.DrawsUsed: for the intermittent type it bounds the number of draws between n and 2n instead of giving the exact count, which depends on the draws.
- Pipeline.ConstantSignalMeasures: covers n > 1 delay vectors. With n = 1 the all-ones 1 x 1 matrix gives RR = 1, DET = 0 and LAM = 0; that case is not stated as a lemma.
- The React components, the canvas drawing, the page sections and the UI state of the site are not part of this model.
