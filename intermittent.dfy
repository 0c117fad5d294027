/** generateIntermittent: a two-state machine that emits quiet laminar
    samples near 0.5 and wide burst samples, switching state only after a
    minimum dwell and then with a fixed chance per sample. */
module Intermittent {
  import opened Random

  datatype Phase = Laminar | Burst

  function Other(p: Phase): Phase
  {
    if p == Laminar then Burst else Laminar
  }

  /** The dwell gate: the counter must exceed it before a switch may be drawn. */
  function Gate(p: Phase): nat
  {
    if p == Laminar then 30 else 10
  }

  /** The switch happens when the draw exceeds this cut. */
  function Cut(p: Phase): real
  {
    if p == Laminar then 0.95 else 0.8
  }

  /** The sample emitted in phase p for the draw r. */
  function Emit(p: Phase, r: real): real
  {
    if p == Laminar then 0.5 + (r - 0.5) * 0.05 else (r - 0.5) * 2.0
  }

  /** The machine between samples: its phase, the dwell counter, and the
      index of the next draw. */
  datatype State = State(phase: Phase, counter: nat, pos: nat)

  datatype StepResult = StepResult(sample: real, next: State)

  /** One loop iteration: emit a sample from one draw, increment the
      counter, and only when it exceeds the gate take a second draw that
      may switch the phase and reset the counter. */
  function Step(s: State, draw: nat -> real): (r: StepResult)
    ensures r.next.pos == s.pos + (if s.counter + 1 > Gate(s.phase) then 2 else 1)
    ensures r.next.phase == s.phase ==> r.next.counter == s.counter + 1
    ensures r.next.phase != s.phase ==> r.next.counter == 0 && s.counter + 1 > Gate(s.phase)
  {
    var sample := Emit(s.phase, draw(s.pos));
    var c := s.counter + 1;
    if c > Gate(s.phase) then
      if draw(s.pos + 1) > Cut(s.phase) then StepResult(sample, State(Other(s.phase), 0, s.pos + 2))
      else StepResult(sample, State(s.phase, c, s.pos + 2))
    else StepResult(sample, State(s.phase, c, s.pos + 1))
  }

  /** The samples emitted so far, the phase each was emitted in, and the
      machine's state after them. */
  datatype Trace = Trace(samples: seq<real>, phases: seq<Phase>, state: State)

  /** The first k iterations, starting laminar with counter 0 at draw pos. */
  function Run(k: nat, draw: nat -> real, pos: nat): (t: Trace)
    ensures |t.samples| == k && |t.phases| == k
    ensures pos + k <= t.state.pos <= pos + 2 * k
  {
    if k == 0 then Trace([], [], State(Laminar, 0, pos))
    else
      var prev := Run(k - 1, draw, pos);
      var r := Step(prev.state, draw);
      Trace(prev.samples + [r.sample], prev.phases + [prev.state.phase], r.next)
  }

  /** generateIntermittent(n) with its draws taken from draw(pos), draw(pos + 1), ... */
  method GenerateIntermittent(n: nat, draw: nat -> real, pos: nat) returns (result: seq<real>, next: nat)
    ensures result == Run(n, draw, pos).samples
    ensures next == Run(n, draw, pos).state.pos
  {
    result := [];
    var phase := Laminar;
    var counter: nat := 0;
    next := pos;
    for i := 0 to n
      invariant Run(i, draw, pos) == Trace(result, Run(i, draw, pos).phases, State(phase, counter, next))
    {
      if phase == Laminar {
        result := result + [0.5 + (draw(next) - 0.5) * 0.05];
        next := next + 1;
        counter := counter + 1;
        if counter > 30 {
          var r := draw(next);
          next := next + 1;
          if r > 0.95 {
            phase := Burst;
            counter := 0;
          }
        }
      } else {
        result := result + [(draw(next) - 0.5) * 2.0];
        next := next + 1;
        counter := counter + 1;
        if counter > 10 {
          var r := draw(next);
          next := next + 1;
          if r > 0.8 {
            phase := Laminar;
            counter := 0;
          }
        }
      }
    }
  }

  /** The number of samples of the episode containing sample t, up to and
      including t: the run of equal phases that ends at t. */
  function EpisodeLength(ps: seq<Phase>, t: nat): (r: nat)
    requires t < |ps|
    ensures 1 <= r <= t + 1
  {
    if t == 0 || ps[t - 1] != ps[t] then 1 else EpisodeLength(ps, t - 1) + 1
  }

  /** The EpisodeLength(ps, t) samples ending at t share the phase of t,
      and the sample before them (if any) does not. */
  lemma {:induction false} EpisodeLengthMeaning(ps: seq<Phase>, t: nat)
    requires t < |ps|
    ensures forall u :: t - EpisodeLength(ps, t) < u <= t ==> ps[u] == ps[t]
    ensures EpisodeLength(ps, t) <= t ==> ps[t - EpisodeLength(ps, t)] != ps[t]
  {
    if t > 0 && ps[t - 1] == ps[t] {
      EpisodeLengthMeaning(ps, t - 1);
    }
  }

  /** Appending a sample does not change the episodes before it. */
  lemma {:induction false} EpisodeLengthAppend(ps: seq<Phase>, p: Phase, t: nat)
    requires t < |ps|
    ensures EpisodeLength(ps + [p], t) == EpisodeLength(ps, t)
  {
    var qs := ps + [p];
    assert qs[t] == ps[t];
    if t > 0 {
      assert qs[t - 1] == ps[t - 1];
      EpisodeLengthAppend(ps, p, t - 1);
    }
  }

  /** The appended sample continues the last episode or starts a new one. */
  lemma EpisodeLengthOfLast(ps: seq<Phase>, p: Phase)
    ensures EpisodeLength(ps + [p], |ps|) ==
            if |ps| > 0 && ps[|ps| - 1] == p then EpisodeLength(ps, |ps| - 1) + 1 else 1
  {
    if |ps| > 0 {
      EpisodeLengthAppend(ps, p, |ps| - 1);
    }
  }

  /** Every episode that has ended, i.e. every t where the phase changes
      between samples t and t + 1, lasted more than the gate of its phase. */
  predicate DwellRespected(ps: seq<Phase>)
  {
    forall t: nat :: t + 1 < |ps| && ps[t] != ps[t + 1] ==> EpisodeLength(ps, t) > Gate(ps[t])
  }

  /** What Run keeps true: the counter is the length of the current episode
      (0 right after a switch), a switch just taken followed a long enough
      episode, and all closed episodes respected their gate. */
  predicate RunInvariant(t: Trace)
  {
    var ps := t.phases;
    && (|ps| == 0 ==> t.state.counter == 0)
    && (|ps| > 0 && t.state.phase == ps[|ps| - 1] ==> t.state.counter == EpisodeLength(ps, |ps| - 1))
    && (|ps| > 0 && t.state.phase != ps[|ps| - 1] ==>
          t.state.counter == 0 && EpisodeLength(ps, |ps| - 1) > Gate(ps[|ps| - 1]))
    && DwellRespected(ps)
  }

  /** Appending the phase p keeps every closed episode long enough, provided
      that when p starts a new episode the last one was long enough. */
  lemma AppendKeepsDwell(ps: seq<Phase>, p: Phase)
    requires DwellRespected(ps)
    requires |ps| > 0 && ps[|ps| - 1] != p ==> EpisodeLength(ps, |ps| - 1) > Gate(ps[|ps| - 1])
    ensures DwellRespected(ps + [p])
  {
    var qs := ps + [p];
    forall t: nat | t + 1 < |qs| && qs[t] != qs[t + 1]
      ensures EpisodeLength(qs, t) > Gate(qs[t])
    {
      EpisodeLengthAppend(ps, p, t);
      assert qs[t] == ps[t];
      if t + 1 < |ps| {
        assert qs[t + 1] == ps[t + 1];
      }
    }
  }

  /** One step from a trace that satisfies the invariant keeps it. */
  lemma StepKeepsInvariant(prev: Trace, draw: nat -> real)
    requires RunInvariant(prev)
    ensures var r := Step(prev.state, draw);
            RunInvariant(Trace(prev.samples + [r.sample], prev.phases + [prev.state.phase], r.next))
  {
    AppendKeepsDwell(prev.phases, prev.state.phase);
    EpisodeLengthOfLast(prev.phases, prev.state.phase);
  }

  lemma {:induction false} RunKeepsInvariant(k: nat, draw: nat -> real, pos: nat)
    ensures RunInvariant(Run(k, draw, pos))
  {
    if k > 0 {
      RunKeepsInvariant(k - 1, draw, pos);
      StepKeepsInvariant(Run(k - 1, draw, pos), draw);
    }
  }

  /** The counter is the number of samples emitted in the current phase:
      the length of the last episode, or 0 right after a switch. */
  lemma CounterCountsEpisode(k: nat, draw: nat -> real, pos: nat)
    ensures var t := Run(k, draw, pos);
            t.state.counter ==
              if k > 0 && t.state.phase == t.phases[k - 1] then EpisodeLength(t.phases, k - 1) else 0
  {
    RunKeepsInvariant(k, draw, pos);
  }

  /** Every episode before the current one lasted at least 31 laminar or 11
      burst samples. */
  lemma EpisodesRespectGates(k: nat, draw: nat -> real, pos: nat)
    ensures var ps := Run(k, draw, pos).phases;
            forall t: nat :: t + 1 < |ps| && ps[t] != ps[t + 1] ==>
              EpisodeLength(ps, t) >= (if ps[t] == Laminar then 31 else 11)
  {
    RunKeepsInvariant(k, draw, pos);
  }

  /** Samples t - Gate .. t were all emitted in the phase of sample t. */
  predicate LongEpisodeEndsAt(ps: seq<Phase>, t: int)
    requires 0 <= t < |ps|
  {
    t >= Gate(ps[t]) && forall u :: t - Gate(ps[t]) <= u <= t ==> ps[u] == ps[t]
  }

  /** Spelled out on the samples: before every switch, the last 31 (laminar)
      or 11 (burst) samples were all emitted in the phase being left. */
  lemma SwitchFollowsLongEpisode(k: nat, draw: nat -> real, pos: nat)
    ensures var ps := Run(k, draw, pos).phases;
            forall t: nat :: t + 1 < |ps| && ps[t] != ps[t + 1] ==> LongEpisodeEndsAt(ps, t)
  {
    var ps := Run(k, draw, pos).phases;
    RunKeepsInvariant(k, draw, pos);
    forall t: nat | t + 1 < |ps| && ps[t] != ps[t + 1]
      ensures LongEpisodeEndsAt(ps, t)
    {
      EpisodeLengthMeaning(ps, t);
    }
  }

  /** The counter is reset exactly on a switch, and a switch needs the
      incremented counter to exceed the gate and the second draw to exceed
      the cut. */
  lemma StepSwitchesOnlyPastGate(s: State, draw: nat -> real)
    ensures var r := Step(s, draw);
            (r.next.phase != s.phase <==> s.counter + 1 > Gate(s.phase) && draw(s.pos + 1) > Cut(s.phase)) &&
            (r.next.phase != s.phase <==> r.next.counter == 0) &&
            (r.next.phase == s.phase ==> r.next.counter == s.counter + 1)
  {
  }

  /** The machine starts laminar: the first sample is a laminar one. */
  lemma {:induction false} StartsLaminar(k: nat, draw: nat -> real, pos: nat)
    requires k > 0
    ensures Run(k, draw, pos).phases[0] == Laminar
  {
    if k > 1 {
      StartsLaminar(k - 1, draw, pos);
      assert Run(k, draw, pos).phases[0] == Run(k - 1, draw, pos).phases[0];
    }
  }

  /** Draws lying in [0, 1) put laminar samples in [0.475, 0.525) and burst
      samples in [-1, 1). */
  lemma SampleRanges(k: nat, draw: nat -> real, pos: nat)
    requires IsUnit(draw)
    ensures var t := Run(k, draw, pos);
            forall i :: 0 <= i < k ==>
              if t.phases[i] == Laminar then 0.475 <= t.samples[i] < 0.525
              else -1.0 <= t.samples[i] < 1.0
  {
    if k > 0 {
      SampleRanges(k - 1, draw, pos);
      var prev := Run(k - 1, draw, pos);
      var r := draw(prev.state.pos);
      assert 0.0 <= r < 1.0;
    }
  }

  /** Every sample lies in [-1, 1). */
  lemma SamplesWithinUnit(k: nat, draw: nat -> real, pos: nat)
    requires IsUnit(draw)
    ensures forall i :: 0 <= i < k ==> -1.0 <= Run(k, draw, pos).samples[i] < 1.0
  {
    SampleRanges(k, draw, pos);
  }
}
