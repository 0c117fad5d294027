/** generateSignal: the test series of the pipeline, chosen by a type name,
    with optional uniform noise added afterwards. Math.sin is the parameter
    `sin`; Math.random is the draw source of module Random. */
module Signal {
  import opened Random
  import Lorenz
  import Intermittent

  const Pi: real := 3.141592653589793

  /** The series and the index of the first unused draw. */
  datatype Generated = Generated(samples: seq<real>, next: nat)

  /** sin(2 pi f i) for i = 0 .. length-1. */
  function Sine(length: nat, frequency: real, sin: real -> real): seq<real>
  {
    seq(length, i => sin(2.0 * Pi * frequency * i as real))
  }

  /** The type names the switch recognises. */
  const KnownKinds: set<string> :=
    {"sine", "noise", "lorenz", "drift", "intermittent", "quasiperiodic", "fmri_healthy", "fmri_mci"}

  /** The switch: the series for each type name, before the noise pass.
      Per-sample draws are taken in index order; fmri_mci takes two per
      sample, the one inside the sine first. */
  function Base(kind: string, length: nat, frequency: real, sin: real -> real, draw: nat -> real, pos: nat): (g: Generated)
    ensures |g.samples| == length && pos <= g.next
    ensures kind !in {"noise", "fmri_healthy", "fmri_mci", "intermittent"} ==> g.next == pos
  {
    if kind == "sine" then Generated(Sine(length, frequency, sin), pos)
    else if kind == "noise" then
      Generated(seq(length, i requires 0 <= i < length => (draw(pos + i) - 0.5) * 2.0), pos + length)
    else if kind == "lorenz" then Generated(Lorenz.LorenzSignal(length), pos)
    else if kind == "drift" then
      Generated(seq(length, i => sin(2.0 * Pi * frequency * i as real) + i as real * 0.015), pos)
    else if kind == "intermittent" then
      var t := Intermittent.Run(length, draw, pos);
      Generated(t.samples, t.state.pos)
    else if kind == "quasiperiodic" then
      Generated(seq(length, i => sin(2.0 * Pi * 0.05 * i as real) + sin(2.0 * Pi * 0.05 * 1.414 * i as real)), pos)
    else if kind == "fmri_healthy" then
      Generated(seq(length, i requires 0 <= i < length => sin(0.03 * i as real) * 0.5 + sin(0.08 * i as real) * 0.3 + (draw(pos + i) - 0.5) * 0.15),
                pos + length)
    else if kind == "fmri_mci" then
      Generated(seq(length, i requires 0 <= i < length => sin(0.03 * i as real + draw(pos + 2 * i) * 0.3) * 0.4 + (draw(pos + 2 * i + 1) - 0.5) * 0.5),
                pos + 2 * length)
    else Generated(Sine(length, frequency, sin), pos)
  }

  /** The noise pass: only for a positive noiseLevel, one draw per sample. */
  function AddNoise(signal: seq<real>, noiseLevel: real, draw: nat -> real, pos: nat): (g: Generated)
    ensures |g.samples| == |signal|
    ensures g.next == pos + (if noiseLevel > 0.0 then |signal| else 0)
  {
    if noiseLevel > 0.0 then
      Generated(seq(|signal|, i requires 0 <= i < |signal| => signal[i] + (draw(pos + i) - 0.5) * 2.0 * noiseLevel),
                pos + |signal|)
    else Generated(signal, pos)
  }

  /** generateSignal(kind, length, frequency, noiseLevel). */
  function GenerateSignal(kind: string, length: nat, frequency: real, noiseLevel: real,
                          sin: real -> real, draw: nat -> real, pos: nat): (g: Generated)
    ensures |g.samples| == length && pos <= g.next
  {
    var b := Base(kind, length, frequency, sin, draw, pos);
    AddNoise(b.samples, noiseLevel, draw, b.next)
  }

  /** A type name the switch does not know gives the sine series. */
  lemma UnknownKindIsSine(kind: string, length: nat, frequency: real, noiseLevel: real,
                          sin: real -> real, draw: nat -> real, pos: nat)
    requires kind !in KnownKinds
    ensures GenerateSignal(kind, length, frequency, noiseLevel, sin, draw, pos) ==
            GenerateSignal("sine", length, frequency, noiseLevel, sin, draw, pos)
  {
  }

  /** A noiseLevel of 0 or below leaves the series, and the draws, untouched. */
  lemma NoNoiseUnlessPositive(kind: string, length: nat, frequency: real, noiseLevel: real,
                              sin: real -> real, draw: nat -> real, pos: nat)
    requires noiseLevel <= 0.0
    ensures GenerateSignal(kind, length, frequency, noiseLevel, sin, draw, pos) ==
            Base(kind, length, frequency, sin, draw, pos)
  {
  }

  /** A positive noiseLevel moves every sample by less than noiseLevel (and
      by at most noiseLevel downwards), using one more draw per sample. */
  lemma NoiseBounded(kind: string, length: nat, frequency: real, noiseLevel: real,
                     sin: real -> real, draw: nat -> real, pos: nat)
    requires IsUnit(draw) && noiseLevel > 0.0
    ensures var b := Base(kind, length, frequency, sin, draw, pos);
            var g := GenerateSignal(kind, length, frequency, noiseLevel, sin, draw, pos);
            |g.samples| == |b.samples| && g.next == b.next + |b.samples| &&
            forall i :: 0 <= i < |b.samples| ==>
              b.samples[i] - noiseLevel <= g.samples[i] < b.samples[i] + noiseLevel
  {
    var b := Base(kind, length, frequency, sin, draw, pos);
    var g := GenerateSignal(kind, length, frequency, noiseLevel, sin, draw, pos);
    forall i | 0 <= i < |b.samples|
      ensures b.samples[i] - noiseLevel <= g.samples[i] < b.samples[i] + noiseLevel
    {
      var r := draw(b.next + i);
      assert 0.0 <= r < 1.0;
      var u := (r - 0.5) * 2.0;
      assert -1.0 <= u < 1.0;
      assert g.samples[i] == b.samples[i] + u * noiseLevel;
      assert -noiseLevel <= u * noiseLevel < noiseLevel;
    }
  }

  /** How many draws each type takes before the noise pass. */
  lemma DrawsUsed(kind: string, length: nat, frequency: real, sin: real -> real, draw: nat -> real, pos: nat)
    ensures var next := Base(kind, length, frequency, sin, draw, pos).next;
            (kind == "noise" || kind == "fmri_healthy" ==> next == pos + length) &&
            (kind == "fmri_mci" ==> next == pos + 2 * length) &&
            (kind == "intermittent" ==> pos + length <= next <= pos + 2 * length) &&
            (kind !in {"noise", "fmri_healthy", "fmri_mci", "intermittent"} ==> next == pos)
  {
  }

  /** sin stays within [-1, 1]. */
  ghost predicate IsBoundedSine(sin: real -> real)
  {
    forall x: real {:trigger sin(x)} :: -1.0 <= sin(x) <= 1.0
  }

  /** With draws in [0, 1) and sin in [-1, 1], the series without noise stay
      within their amplitudes: noise in [-1, 1), sine in [-1, 1],
      quasiperiodic in [-2, 2], fmri_healthy in [-0.875, 0.875) and fmri_mci
      in [-0.65, 0.65). */
  lemma SampleRanges(length: nat, frequency: real, sin: real -> real, draw: nat -> real, pos: nat)
    requires IsUnit(draw) && IsBoundedSine(sin)
    ensures forall i :: 0 <= i < length ==>
              -1.0 <= Base("noise", length, frequency, sin, draw, pos).samples[i] < 1.0
    ensures forall i :: 0 <= i < length ==>
              -1.0 <= Base("sine", length, frequency, sin, draw, pos).samples[i] <= 1.0
    ensures forall i :: 0 <= i < length ==>
              -2.0 <= Base("quasiperiodic", length, frequency, sin, draw, pos).samples[i] <= 2.0
    ensures forall i :: 0 <= i < length ==>
              -0.875 <= Base("fmri_healthy", length, frequency, sin, draw, pos).samples[i] < 0.875
    ensures forall i :: 0 <= i < length ==>
              -0.65 <= Base("fmri_mci", length, frequency, sin, draw, pos).samples[i] < 0.65
  {
    forall i | 0 <= i < length
      ensures -1.0 <= Base("noise", length, frequency, sin, draw, pos).samples[i] < 1.0
      ensures -0.875 <= Base("fmri_healthy", length, frequency, sin, draw, pos).samples[i] < 0.875
      ensures -0.65 <= Base("fmri_mci", length, frequency, sin, draw, pos).samples[i] < 0.65
    {
      assert 0.0 <= draw(pos + i) < 1.0;
      assert 0.0 <= draw(pos + 2 * i) < 1.0;
      assert 0.0 <= draw(pos + 2 * i + 1) < 1.0;
      var a := sin(0.03 * i as real);
      var b := sin(0.08 * i as real);
      var c := sin(0.03 * i as real + draw(pos + 2 * i) * 0.3);
      assert -1.0 <= a <= 1.0 && -1.0 <= b <= 1.0 && -1.0 <= c <= 1.0;
    }
  }

  /** The intermittent series lies in [-1, 1) for draws in [0, 1). */
  lemma IntermittentRange(length: nat, frequency: real, sin: real -> real, draw: nat -> real, pos: nat)
    requires IsUnit(draw)
    ensures forall i :: 0 <= i < length ==>
              -1.0 <= Base("intermittent", length, frequency, sin, draw, pos).samples[i] < 1.0
  {
    Intermittent.SamplesWithinUnit(length, draw, pos);
  }
}
