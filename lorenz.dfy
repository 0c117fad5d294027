/** generateLorenz: forward-Euler integration of the Lorenz system from
    (1, 1, 1), keeping x after every tenth step, then a min-max rescaling of
    the kept values onto [-1, 1]. Arithmetic is exact. */
module Lorenz {
  import opened Quotients

  const Sigma: real := 10.0
  const Rho: real := 28.0
  const Beta: real := 8.0 / 3.0
  const Dt: real := 0.01

  datatype Point = Point(x: real, y: real, z: real)

  /** The three in-place updates `x += ...`, `y += ...`, `z += ...`. */
  function NextX(x: real, y: real): real
  {
    x + Sigma * (y - x) * Dt
  }

  function NextY(x: real, y: real, z: real): real
  {
    y + (x * (Rho - z) - y) * Dt
  }

  function NextZ(x: real, y: real, z: real): real
  {
    z + (x * y - Beta * z) * Dt
  }

  /** One Euler step, updating x first and using the new x for y, then the
      new x and y for z. */
  function EulerStep(p: Point): Point
  {
    var x := NextX(p.x, p.y);
    var y := NextY(x, p.y, p.z);
    Point(x, y, NextZ(x, y, p.z))
  }

  /** The state after t steps. */
  function Trajectory(t: nat): Point
  {
    if t == 0 then Point(1.0, 1.0, 1.0) else EulerStep(Trajectory(t - 1))
  }

  /** The kept values: x after steps 1, 11, 21, ..., one per requested sample. */
  function Raw(n: nat): (xs: seq<real>)
    ensures |xs| == n
  {
    seq(n, k requires 0 <= k < n => Trajectory(10 * k + 1).x)
  }

  /** Math.min over a non-empty list. */
  function MinOf(xs: seq<real>): real
    requires |xs| > 0
  {
    if |xs| == 1 then xs[0] else
      var m := MinOf(xs[..|xs| - 1]);
      if xs[|xs| - 1] < m then xs[|xs| - 1] else m
  }

  /** Math.max over a non-empty list. */
  function MaxOf(xs: seq<real>): real
    requires |xs| > 0
  {
    if |xs| == 1 then xs[0] else
      var m := MaxOf(xs[..|xs| - 1]);
      if xs[|xs| - 1] > m then xs[|xs| - 1] else m
  }

  /** (v - min) / (max - min) * 2 - 1 for every v; when max == min the
      quotient is 0/0, which is mapped to 0. */
  function Normalize(xs: seq<real>): (ys: seq<real>)
    ensures |ys| == |xs|
  {
    if xs == [] then []
    else
      var lo := MinOf(xs);
      var hi := MaxOf(xs);
      if hi == lo then seq(|xs|, i => 0.0)
      else seq(|xs|, i requires 0 <= i < |xs| => Rescaled(xs[i], lo, hi))
  }

  /** The value v of the range [lo, hi] moved onto [-1, 1]. */
  function Rescaled(v: real, lo: real, hi: real): real
    requires lo < hi
  {
    (v - lo) / (hi - lo) * 2.0 - 1.0
  }

  /** What generateLorenz returns. */
  function LorenzSignal(n: nat): seq<real>
  {
    Normalize(Raw(n))
  }

  /** The integration loop: n * 10 steps, keeping x when i % 10 == 0. */
  method Integrate(n: nat) returns (result: seq<real>)
    ensures result == Raw(n)
  {
    var x, y, z := 1.0, 1.0, 1.0;
    result := [];
    for i := 0 to n * 10
      invariant Point(x, y, z) == Trajectory(i)
      invariant |result| == (i + 9) / 10
      invariant forall k :: 0 <= k < |result| ==> result[k] == Trajectory(10 * k + 1).x
    {
      x := NextX(x, y);
      y := NextY(x, y, z);
      z := NextZ(x, y, z);
      if i % 10 == 0 {
        result := result + [x];
      }
      PushCount(i);
    }
  }

  lemma PushCount(i: nat)
    ensures (i + 1 + 9) / 10 == (i + 9) / 10 + (if i % 10 == 0 then 1 else 0)
    ensures i % 10 == 0 ==> (i + 9) / 10 == i / 10
  {
  }

  /** generateLorenz(n). */
  method GenerateLorenz(n: nat) returns (result: seq<real>)
    ensures result == LorenzSignal(n)
  {
    var raw := Integrate(n);
    result := Normalize(raw);
  }

  /** The minimum and maximum are elements, and bound every element. */
  lemma {:induction false} MinMaxBounds(xs: seq<real>)
    requires |xs| > 0
    ensures MinOf(xs) in xs && MaxOf(xs) in xs
    ensures forall i :: 0 <= i < |xs| ==> MinOf(xs) <= xs[i] <= MaxOf(xs)
  {
    if |xs| > 1 {
      var init := xs[..|xs| - 1];
      MinMaxBounds(init);
      assert forall i :: 0 <= i < |init| ==> xs[i] == init[i];
      assert MinOf(init) in xs && MaxOf(init) in xs;
    }
  }

  lemma Rescale(v: real, lo: real, hi: real)
    requires lo <= v <= hi && lo < hi
    ensures -1.0 <= Rescaled(v, lo, hi) <= 1.0
    ensures Rescaled(v, lo, hi) == -1.0 <==> v == lo
    ensures Rescaled(v, lo, hi) == 1.0 <==> v == hi
  {
    QuotientFacts(v - lo, hi - lo);
  }

  /** The rescaling is increasing: it keeps the order of the values. */
  lemma RescaleMonotone(v: real, w: real, lo: real, hi: real)
    requires v <= w && lo < hi
    ensures Rescaled(v, lo, hi) <= Rescaled(w, lo, hi)
  {
    var d := hi - lo;
    assert (w - lo) / d - (v - lo) / d == (w - v) / d;
  }

  /** For a non-constant list every value lands in [-1, 1], the minimum on
      -1 and the maximum on 1, and the order of the values is kept. */
  lemma NormalizeRange(xs: seq<real>)
    requires |xs| > 0 && MinOf(xs) < MaxOf(xs)
    ensures var ys := Normalize(xs);
            forall i :: 0 <= i < |xs| ==>
              -1.0 <= ys[i] <= 1.0 &&
              (ys[i] == -1.0 <==> xs[i] == MinOf(xs)) &&
              (ys[i] == 1.0 <==> xs[i] == MaxOf(xs))
    ensures var ys := Normalize(xs);
            forall i, j :: 0 <= i < |xs| && 0 <= j < |xs| && xs[i] <= xs[j] ==> ys[i] <= ys[j]
  {
    var lo, hi := MinOf(xs), MaxOf(xs);
    MinMaxBounds(xs);
    var ys := Normalize(xs);
    forall i | 0 <= i < |xs|
      ensures -1.0 <= ys[i] <= 1.0 && (ys[i] == -1.0 <==> xs[i] == lo) && (ys[i] == 1.0 <==> xs[i] == hi)
    {
      NormalizeAt(xs, i);
      Rescale(xs[i], lo, hi);
    }
    forall i, j | 0 <= i < |xs| && 0 <= j < |xs| && xs[i] <= xs[j]
      ensures ys[i] <= ys[j]
    {
      NormalizeAt(xs, i);
      NormalizeAt(xs, j);
      RescaleMonotone(xs[i], xs[j], lo, hi);
    }
  }

  lemma NormalizeAt(xs: seq<real>, i: nat)
    requires |xs| > 0 && MinOf(xs) < MaxOf(xs) && i < |xs|
    ensures Normalize(xs)[i] == Rescaled(xs[i], MinOf(xs), MaxOf(xs))
  {
  }

  /** generateLorenz(n) has exactly n samples; unless the kept values are
      all equal they span [-1, 1], reaching both ends. */
  lemma LorenzSamples(n: nat)
    ensures |LorenzSignal(n)| == n
    ensures n > 0 && MinOf(Raw(n)) < MaxOf(Raw(n)) ==>
              var ys := LorenzSignal(n);
              (forall k :: 0 <= k < n ==> -1.0 <= ys[k] <= 1.0) &&
              (exists k :: 0 <= k < n && ys[k] == -1.0) &&
              (exists k :: 0 <= k < n && ys[k] == 1.0)
  {
    var xs := Raw(n);
    if n > 0 && MinOf(xs) < MaxOf(xs) {
      MinMaxBounds(xs);
      NormalizeRange(xs);
      var a :| 0 <= a < n && xs[a] == MinOf(xs);
      var b :| 0 <= b < n && xs[b] == MaxOf(xs);
    }
  }
}
