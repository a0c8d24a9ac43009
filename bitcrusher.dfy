/**
 * The bitcrusher audio-worklet processor: sample-and-hold downsampling
 * followed by bit-depth quantisation, with one hold state shared by every
 * channel of a node and carried from one processed block to the next.
 *
 * Samples are exact reals; `.Floor` stands for Math.floor.
 */
module Bitcrusher {

  // Bounds of the bitDepth parameter, which the audio engine enforces.
  const MinBitDepth: int := 1
  const MaxBitDepth: int := 16

  /** 2 to the power n. */
  function Pow2(n: nat): (r: nat)
    ensures r >= 1
  {
    if n == 0 then 1 else 2 * Pow2(n - 1)
  }

  /** Number of quantisation levels for a bit depth (Math.pow(2, bitDepth)). */
  function Steps(bitDepth: int): (steps: nat)
    requires MinBitDepth <= bitDepth <= MaxBitDepth
    ensures 2 <= steps <= 65536
  {
    StepsBounds(bitDepth);
    Pow2(bitDepth)
  }

  lemma {:induction false} StepsBounds(n: nat)
    requires 1 <= n <= 16
    ensures 2 <= Pow2(n) <= 65536
  {
    Pow2Monotone(1, n);
    Pow2Monotone(n, 16);
    assert Pow2(1) == 2;
    assert Pow2(2) == 4;
    assert Pow2(3) == 8;
    assert Pow2(4) == 16;
    assert Pow2(5) == 32;
    assert Pow2(6) == 64;
    assert Pow2(7) == 128;
    assert Pow2(8) == 256;
    assert Pow2(9) == 512;
    assert Pow2(10) == 1024;
    assert Pow2(11) == 2048;
    assert Pow2(12) == 4096;
    assert Pow2(13) == 8192;
    assert Pow2(14) == 16384;
    assert Pow2(15) == 32768;
    assert Pow2(16) == 65536;
  }

  lemma {:induction false} Pow2Monotone(a: nat, b: nat)
    requires a <= b
    ensures Pow2(a) <= Pow2(b)
  {
    if a < b {
      Pow2Monotone(a, b - 1);
    }
  }

  /**
   * The downsample factor actually used by a block: the parameter rounded
   * down, and never below one, so the modulo never divides by zero.
   */
  function EffectiveDownsample(param: real): (d: int)
    ensures d >= 1
    ensures param >= 1.0 ==> d as real <= param < d as real + 1.0
    ensures param < 1.0 ==> d == 1
  {
    if param.Floor < 1 then 1 else param.Floor
  }

  /** The quantisation index: floor of the held value, mapped to [0,1], times steps. */
  function Level(held: real, steps: nat): int
  {
    ((held + 1.0) / 2.0 * steps as real).Floor
  }

  /** Bit-depth quantisation of one held sample, exactly as the formula is written. */
  function Quantise(held: real, steps: nat): real
    requires steps >= 2
  {
    var normalized := (held + 1.0) / 2.0;
    var quantized := (normalized * steps as real).Floor;
    var dequantized := quantized as real / (steps - 1) as real;
    dequantized * 2.0 - 1.0
  }

  /** The quantised value is the level index, dequantised and denormalised. */
  lemma QuantiseIsLevel(held: real, steps: nat)
    requires steps >= 2
    ensures Quantise(held, steps) == Level(held, steps) as real / (steps - 1) as real * 2.0 - 1.0
  {
  }

  /** For a held value in [-1, 1) the index stays in [0, steps-1] and the output in [-1, 1]. */
  lemma QuantiseRange(held: real, steps: nat)
    requires steps >= 2
    requires -1.0 <= held < 1.0
    ensures 0 <= Level(held, steps) <= steps - 1
    ensures -1.0 <= Quantise(held, steps) <= 1.0
  {
    var s := steps as real;
    var n := (held + 1.0) / 2.0;
    assert 0.0 <= n < 1.0;
    var ns := n * s;
    assert 0.0 <= ns < s by {
      MulLessReal(n, 1.0, s);
    }
    var k := Level(held, steps);
    assert k == ns.Floor;
    assert k as real <= ns;
    assert k as real < s;
    assert 0 <= k <= steps - 1;
    QuantiseIsLevel(held, steps);
    assert (steps - 1) as real == s - 1.0;
    var q := k as real / (s - 1.0);
    assert 0.0 <= q <= 1.0 by {
      DivBounds(k as real, s - 1.0);
    }
    assert Quantise(held, steps) == q * 2.0 - 1.0;
  }

  /** At the top rail the literal formula overshoots: the output is (steps+1)/(steps-1) > 1. */
  lemma QuantiseTopRail(steps: nat)
    requires steps >= 2
    ensures Level(1.0, steps) == steps
    ensures Quantise(1.0, steps) == (steps + 1) as real / (steps - 1) as real
    ensures Quantise(1.0, steps) > 1.0
  {
    var s := steps as real;
    assert (1.0 + 1.0) / 2.0 * s == s;
    assert Level(1.0, steps) == steps;
    var q := s / (s - 1.0);
    assert Quantise(1.0, steps) == q * 2.0 - 1.0;
    assert q * 2.0 - 1.0 == (s + 1.0) / (s - 1.0) by {
      assert q * (s - 1.0) == s;
    }
    assert (s + 1.0) / (s - 1.0) > 1.0 by {
      assert s + 1.0 > s - 1.0 > 0.0;
    }
  }

  /**
   * Re-quantising an already quantised value returns it unchanged for held
   * values whose index is below steps-1, that is [-1, 1 - 2/steps); the top
   * bin is not (see QuantiseTopBinNotIdempotent).
   */
  lemma QuantiseIdempotent(held: real, steps: nat)
    requires steps >= 2
    requires 0 <= Level(held, steps) < steps - 1
    ensures Quantise(Quantise(held, steps), steps) == Quantise(held, steps)
  {
    var s := steps as real;
    var k := Level(held, steps);
    QuantiseIsLevel(held, steps);
    var y := Quantise(held, steps);
    // (y + 1) / 2 * s == k + k / (s - 1), and 0 <= k / (s - 1) < 1
    var f := k as real / (s - 1.0);
    assert y == f * 2.0 - 1.0;
    assert (y + 1.0) / 2.0 == f;
    assert f * s == k as real + f by {
      assert f * (s - 1.0) == k as real;
    }
    assert 0.0 <= f < 1.0 by {
      DivBounds(k as real, s - 1.0);
      assert f * (s - 1.0) == k as real;
    }
    assert Level(y, steps) == k;
    QuantiseIsLevel(y, steps);
  }

  /**
   * In the top bin (index steps-1) the output is exactly 1, and quantising
   * that 1 again overshoots, so the transform is not idempotent there.
   */
  lemma QuantiseTopBinNotIdempotent(held: real, steps: nat)
    requires steps >= 2
    requires Level(held, steps) == steps - 1
    ensures Quantise(held, steps) == 1.0
    ensures Quantise(Quantise(held, steps), steps) > 1.0
  {
    QuantiseIsLevel(held, steps);
    var s := steps as real;
    assert (s - 1.0) / (s - 1.0) == 1.0;
    QuantiseTopRail(steps);
  }

  /** Quantisation preserves order. */
  lemma QuantiseMonotone(x: real, y: real, steps: nat)
    requires steps >= 2
    requires x <= y
    ensures Level(x, steps) <= Level(y, steps)
    ensures Quantise(x, steps) <= Quantise(y, steps)
  {
    var s := steps as real;
    assert (x + 1.0) / 2.0 * s <= (y + 1.0) / 2.0 * s by {
      MulLeReal((x + 1.0) / 2.0, (y + 1.0) / 2.0, s);
    }
    var kx, ky := Level(x, steps), Level(y, steps);
    assert kx <= ky;
    QuantiseIsLevel(x, steps);
    QuantiseIsLevel(y, steps);
    assert kx as real / (s - 1.0) <= ky as real / (s - 1.0) by {
      DivLeReal(kx as real, ky as real, s - 1.0);
    }
  }

  /** For a held value in [-1, 1) the quantisation error is at most 2/steps. */
  lemma QuantiseError(held: real, steps: nat)
    requires steps >= 2
    requires -1.0 <= held < 1.0
    ensures -2.0 / steps as real <= Quantise(held, steps) - held <= 2.0 / steps as real
  {
    var s := steps as real;
    var k := Level(held, steps);
    QuantiseRange(held, steps);
    QuantiseIsLevel(held, steps);
    var n := (held + 1.0) / 2.0;
    var kr := k as real;
    // k <= n * s < k + 1
    assert kr <= n * s < kr + 1.0;
    var f := kr / (s - 1.0);
    assert f * (s - 1.0) == kr;
    assert 0.0 <= f <= 1.0 by {
      DivBounds(kr, s - 1.0);
    }
    // Quantise - held == 2 (f - n), and (f - n) * s lies in (-1, 1]
    var e := f - n;
    var fs, ns := f * s, n * s;
    assert fs == kr + f;
    assert kr <= ns < kr + 1.0;
    assert e * s == fs - ns;
    assert -1.0 < e * s <= 1.0;
    ScaleBack(e, s);
    assert Quantise(held, steps) - held == 2.0 * e;
  }

  /** The error bound is reached: just below the top bin, at 1 - 2/steps, the output is 1. */
  lemma QuantiseErrorTight(steps: nat)
    requires steps >= 2
    ensures var held := 1.0 - 2.0 / steps as real;
      -1.0 <= held < 1.0 && Quantise(held, steps) - held == 2.0 / steps as real
  {
    var s := steps as real;
    var held := 1.0 - 2.0 / s;
    assert (2.0 / s) * s == 2.0;
    assert 0.0 < 2.0 / s <= 1.0;
    var n := (held + 1.0) / 2.0;
    assert n == 1.0 - 1.0 / s;
    assert (1.0 / s) * s == 1.0;
    assert n * s == s - 1.0;
    assert Level(held, steps) == steps - 1;
    QuantiseIsLevel(held, steps);
    assert (steps - 1) as real == s - 1.0;
    assert Quantise(held, steps) == 1.0;
  }

  // ---- sample-and-hold state ----

  /** The processor's state: the hold counter and the last captured sample. */
  datatype HoldState = HoldState(phase: nat, held: real)

  /** One sample through the hold stage: count it, and capture it when the count reaches a multiple of d. */
  function Tick(s: HoldState, d: int, x: real): HoldState
    requires d >= 1
  {
    if Captures(s, d) then HoldState(0, x) else HoldState(s.phase + 1, s.held)
  }

  /** The state after the samples xs, taken in order from state s. */
  function Run(s: HoldState, d: int, xs: seq<real>): HoldState
    requires d >= 1
  {
    if xs == [] then s else Tick(Run(s, d, xs[..|xs| - 1]), d, xs[|xs| - 1])
  }

  /** Whether the tick that follows state s captures its sample. */
  predicate Captures(s: HoldState, d: int)
    requires d >= 1
  {
    (s.phase + 1) % d == 0
  }

  /** How many of the samples xs are captured, starting from state s. */
  function CaptureCount(s: HoldState, d: int, xs: seq<real>): nat
    requires d >= 1
  {
    if xs == [] then 0
    else
      var init := xs[..|xs| - 1];
      CaptureCount(s, d, init) + (if Captures(Run(s, d, init), d) then 1 else 0)
  }

  /** The output samples for xs from state s: each is the quantised held value after its tick. */
  function Crushed(s: HoldState, d: int, steps: nat, xs: seq<real>): (out: seq<real>)
    requires d >= 1 && steps >= 2
    ensures |out| == |xs|
  {
    if xs == [] then []
    else Crushed(s, d, steps, xs[..|xs| - 1]) + [Quantise(Run(s, d, xs).held, steps)]
  }

  /** The samples of all channels, channel after channel: the order in which the shared state sees them. */
  function Flatten(channels: seq<seq<real>>): seq<real>
  {
    if channels == [] then [] else Flatten(channels[..|channels| - 1]) + channels[|channels| - 1]
  }

  /** Running over xs then ys is running over xs + ys: the state simply continues. */
  lemma {:induction false} RunAppend(s: HoldState, d: int, xs: seq<real>, ys: seq<real>)
    requires d >= 1
    ensures Run(s, d, xs + ys) == Run(Run(s, d, xs), d, ys)
  {
    if ys == [] {
      assert xs + ys == xs;
    } else {
      var init := ys[..|ys| - 1];
      assert (xs + ys)[..|xs + ys| - 1] == xs + init;
      RunAppend(s, d, xs, init);
    }
  }

  /** Two consecutive blocks give the same outputs as one block holding both. */
  lemma {:induction false} CrushedAppend(s: HoldState, d: int, steps: nat, xs: seq<real>, ys: seq<real>)
    requires d >= 1 && steps >= 2
    ensures Crushed(s, d, steps, xs + ys) == Crushed(s, d, steps, xs) + Crushed(Run(s, d, xs), d, steps, ys)
  {
    if ys == [] {
      assert xs + ys == xs;
    } else {
      var init := ys[..|ys| - 1];
      assert (xs + ys)[..|xs + ys| - 1] == xs + init;
      CrushedAppend(s, d, steps, xs, init);
      RunAppend(s, d, xs, ys);
    }
  }

  /** Output i is the quantised held value right after sample i. */
  lemma {:induction false} CrushedAt(s: HoldState, d: int, steps: nat, xs: seq<real>, i: nat)
    requires d >= 1 && steps >= 2
    requires i < |xs|
    ensures Crushed(s, d, steps, xs)[i] == Quantise(Run(s, d, xs[..i + 1]).held, steps)
  {
    if i < |xs| - 1 {
      var init := xs[..|xs| - 1];
      CrushedAt(s, d, steps, init, i);
      assert init[..i + 1] == xs[..i + 1];
    } else {
      assert xs[..i + 1] == xs;
    }
  }

  /**
   * From a counter below d, after n samples the counter is (p + n) mod d
   * and exactly (p + n) div d samples were captured.
   */
  lemma {:induction false} RunCounts(s: HoldState, d: int, xs: seq<real>)
    requires d >= 1 && s.phase < d
    ensures Run(s, d, xs).phase == (s.phase + |xs|) % d
    ensures CaptureCount(s, d, xs) == (s.phase + |xs|) / d
  {
    if xs != [] {
      var n := |xs| - 1;
      var init := xs[..n];
      RunCounts(s, d, init);
      var a := s.phase + n;
      var t := Run(s, d, init);
      assert t.phase == a % d;
      assert Run(s, d, xs) == Tick(t, d, xs[n]);
      assert CaptureCount(s, d, xs) == a / d + (if Captures(t, d) then 1 else 0);
      DivModStep(a, d);
      DivModBound(a, d);
      TickBelow(t, d, xs[n]);
    }
  }

  lemma DivModBound(a: nat, d: int)
    requires d >= 1
    ensures 0 <= a % d < d
  {
  }

  /** Counting one more: a + 1 wraps to 0 and carries exactly when a mod d is d - 1. */
  lemma DivModStep(a: nat, d: int)
    requires d >= 1
    ensures a % d + 1 == d ==> (a + 1) % d == 0 && (a + 1) / d == a / d + 1
    ensures a % d + 1 != d ==> (a + 1) % d == a % d + 1 && (a + 1) / d == a / d
  {
    var q, r := a / d, a % d;
    assert a == q * d + r;
    if r + 1 == d {
      assert a + 1 == (q + 1) * d + 0;
      DivModUnique(a + 1, d, q + 1, 0);
    } else {
      assert a + 1 == q * d + (r + 1);
      DivModUnique(a + 1, d, q, r + 1);
    }
  }

  /** From a counter below d, a tick captures exactly when the counter reaches d. */
  lemma TickBelow(s: HoldState, d: int, x: real)
    requires d >= 1 && s.phase < d
    ensures Captures(s, d) <==> s.phase + 1 == d
    ensures Tick(s, d, x) == if s.phase + 1 == d then HoldState(0, x) else HoldState(s.phase + 1, s.held)
  {
    if s.phase + 1 == d {
      DivModUnique(s.phase + 1, d, 1, 0);
    } else {
      DivModUnique(s.phase + 1, d, 0, s.phase + 1);
    }
  }

  lemma DivModUnique(a: int, d: int, q: int, r: int)
    requires d >= 1 && 0 <= r < d && a == q * d + r
    ensures a / d == q && a % d == r
  {
    var q', r' := a / d, a % d;
    assert q' * d + r' == a;
    assert (q - q') * d == r' - r;
    if q > q' {
      MulAtLeast(q - q', d);
    } else if q < q' {
      MulAtLeast(q' - q, d);
    }
  }

  lemma MulAtLeast(k: int, d: int)
    requires k >= 1 && d >= 1
    ensures k * d >= d
  {
  }

  /**
   * Sample and hold: from a counter p below d, after n samples the held value
   * is the input p + n mod d samples back, or the old held value when no
   * sample has been captured yet.
   */
  lemma {:induction false} RunHeld(s: HoldState, d: int, xs: seq<real>)
    requires d >= 1 && s.phase < d
    ensures s.phase + |xs| < d ==> Run(s, d, xs).held == s.held
    ensures s.phase + |xs| >= d ==>
              (s.phase + |xs|) % d < |xs| &&
              Run(s, d, xs).held == xs[|xs| - 1 - (s.phase + |xs|) % d]
  {
    if xs != [] {
      var n := |xs| - 1;
      var init := xs[..n];
      RunHeld(s, d, init);
      RunCounts(s, d, init);
      var a := s.phase + n;
      var t := Run(s, d, init);
      assert Run(s, d, xs) == Tick(t, d, xs[n]);
      DivModStep(a, d);
      DivModBound(a, d);
      TickBelow(t, d, xs[n]);
      var r := a % d;
      if r + 1 == d {
        assert (s.phase + |xs|) % d == 0;
        assert Run(s, d, xs).held == xs[n];
      } else {
        assert (s.phase + |xs|) % d == r + 1;
        assert Run(s, d, xs).held == t.held;
        if a >= d {
          assert r < n;
          assert init[n - 1 - r] == xs[n - 1 - r];
          assert t.held == xs[|xs| - 1 - (s.phase + |xs|) % d];
        } else {
          DivModUnique(a, d, 0, a);
          assert s.phase + |xs| < d;
        }
      }
    }
  }

  /** Any d consecutive samples hold exactly one capture, wherever the window starts. */
  lemma CaptureOncePerWindow(s: HoldState, d: int, xs: seq<real>, window: seq<real>)
    requires d >= 1 && s.phase < d
    requires |window| == d
    ensures CaptureCount(Run(s, d, xs), d, window) == 1
  {
    RunCounts(s, d, xs);
    var t := Run(s, d, xs);
    RunCounts(t, d, window);
    DivModUnique(t.phase + d, d, 1, t.phase);
  }

  /** With a factor of 1 there is no hold: every output is the quantised input sample. */
  lemma NoHoldAtFactorOne(s: HoldState, steps: nat, xs: seq<real>, i: nat)
    requires steps >= 2 && i < |xs|
    ensures Crushed(s, 1, steps, xs)[i] == Quantise(xs[i], steps)
  {
    CrushedAt(s, 1, steps, xs, i);
    assert xs[..i + 1][..i] == xs[..i];
  }

  /** The held value is always the initial one or one of the inputs, so it stays in any range they share. */
  lemma {:induction false} HeldInRange(s: HoldState, d: int, xs: seq<real>)
    requires d >= 1
    requires -1.0 <= s.held < 1.0
    requires forall i :: 0 <= i < |xs| ==> -1.0 <= xs[i] < 1.0
    ensures -1.0 <= Run(s, d, xs).held < 1.0
  {
    if xs != [] {
      HeldInRange(s, d, xs[..|xs| - 1]);
    }
  }

  /** With the held value and the inputs in [-1, 1), every output lies in [-1, 1]. */
  lemma CrushedInRange(s: HoldState, d: int, steps: nat, xs: seq<real>, i: nat)
    requires d >= 1 && steps >= 2
    requires -1.0 <= s.held < 1.0
    requires forall j :: 0 <= j < |xs| ==> -1.0 <= xs[j] < 1.0
    requires i < |xs|
    ensures -1.0 <= Crushed(s, d, steps, xs)[i] <= 1.0
  {
    CrushedAt(s, d, steps, xs, i);
    HeldInRange(s, d, xs[..i + 1]);
    QuantiseRange(Run(s, d, xs[..i + 1]).held, steps);
  }

  /** A captured full-scale sample comes out above 1: the top-rail overshoot reaches the output. */
  lemma CapturedTopRailOvershoots(s: HoldState, d: int, steps: nat, xs: seq<real>)
    requires d >= 1 && steps >= 2 && s.phase < d
    requires xs != [] && xs[|xs| - 1] == 1.0
    requires (s.phase + |xs|) % d == 0
    ensures Crushed(s, d, steps, xs)[|xs| - 1] > 1.0
  {
    var n := |xs|;
    RunCounts(s, d, xs);
    RunCounts(s, d, xs[..n - 1]);
    var a := s.phase + n - 1;
    DivModStep(a, d);
    DivModBound(a, d);
    TickBelow(Run(s, d, xs[..n - 1]), d, 1.0);
    CrushedAt(s, d, steps, xs, n - 1);
    assert xs[..n] == xs;
    QuantiseTopRail(steps);
  }

  /**
   * Channels are coupled: channel c starts where channel c-1 stopped, so its
   * counter is offset by the number of samples of all earlier channels.
   */
  lemma ChannelStartPhase(s: HoldState, d: int, channels: seq<seq<real>>, c: nat)
    requires d >= 1 && s.phase < d
    requires c <= |channels|
    ensures Run(s, d, Flatten(channels[..c])).phase == (s.phase + |Flatten(channels[..c])|) % d
  {
    RunCounts(s, d, Flatten(channels[..c]));
  }



  /** The bitcrusher node: one hold state for all channels, kept across blocks. */
  class BitcrusherProcessor {
    var phase: nat
    var lastSampleValue: real

    function State(): HoldState
      reads this
    {
      HoldState(phase, lastSampleValue)
    }

    constructor ()
      ensures State() == HoldState(0, 0.0)
    {
      phase := 0;
      lastSampleValue := 0.0;
    }

    /**
     * Processes one block: every sample of every input channel, channel by
     * channel, through the shared hold state and the quantiser, written to
     * the matching output channel. Parameters are read once for the block.
     */
    method Process(input: seq<seq<real>>, output: seq<array<real>>, bitDepth: int, downsampleParam: real)
      returns (keepAlive: bool)
      requires MinBitDepth <= bitDepth <= MaxBitDepth
      requires |input| <= |output|
      requires forall c :: 0 <= c < |input| ==> output[c].Length == |input[c]|
      requires forall c, c' :: 0 <= c < c' < |output| ==> output[c] != output[c']
      modifies this, set c | 0 <= c < |input| :: output[c]
      ensures keepAlive
      ensures |input| == 0 ==> State() == old(State())
      ensures State() == Run(old(State()), EffectiveDownsample(downsampleParam), Flatten(input))
      ensures forall c :: 0 <= c < |input| ==>
                output[c][..] == Crushed(Run(old(State()), EffectiveDownsample(downsampleParam), Flatten(input[..c])),
                                         EffectiveDownsample(downsampleParam), Steps(bitDepth), input[c])
      ensures forall c :: |input| <= c < |output| ==> output[c][..] == old(output[c][..])
    {
      var d := EffectiveDownsample(downsampleParam);
      var steps := Steps(bitDepth);
      ghost var s0 := State();
      var channel := 0;
      while channel < |input|
        invariant 0 <= channel <= |input|
        invariant State() == Run(s0, d, Flatten(input[..channel]))
        invariant forall c :: 0 <= c < channel ==>
                    output[c][..] == Crushed(Run(s0, d, Flatten(input[..c])), d, steps, input[c])
        invariant forall c :: channel <= c < |output| ==> output[c][..] == old(output[c][..])
      {
        ProcessChannel(input[channel], output[channel], d, steps);
        RunAppend(s0, d, Flatten(input[..channel]), input[channel]);
        assert input[..channel + 1][..channel] == input[..channel];
        channel := channel + 1;
      }
      assert input[..channel] == input;
      keepAlive := true;
    }

    /** The inner loop of Process: one channel's samples, continuing from the current state. */
    method ProcessChannel(inputChannel: seq<real>, outputChannel: array<real>, d: int, steps: nat)
      requires d >= 1 && steps >= 2
      requires outputChannel.Length == |inputChannel|
      modifies this, outputChannel
      ensures State() == Run(old(State()), d, inputChannel)
      ensures outputChannel[..] == Crushed(old(State()), d, steps, inputChannel)
    {
      ghost var cs := State();
      var i := 0;
      while i < |inputChannel|
        invariant 0 <= i <= |inputChannel|
        invariant State() == Run(cs, d, inputChannel[..i])
        invariant outputChannel[..i] == Crushed(cs, d, steps, inputChannel[..i])
      {
        phase := phase + 1;
        if phase % d == 0 {
          lastSampleValue := inputChannel[i];
          phase := 0;
        }
        var currentSample := lastSampleValue;
        outputChannel[i] := Quantise(currentSample, steps);
        assert inputChannel[..i + 1][..i] == inputChannel[..i];
        i := i + 1;
      }
      assert inputChannel[..i] == inputChannel;
      assert outputChannel[..] == outputChannel[..i];
    }
  }

  // ---- small real-arithmetic helpers ----

  lemma MulLessReal(a: real, b: real, s: real)
    requires 0.0 <= a < b && s > 0.0
    ensures a * s < b * s
  {
  }

  lemma MulLeReal(a: real, b: real, s: real)
    requires a <= b && s >= 0.0
    ensures a * s <= b * s
  {
  }

  lemma DivLeReal(a: real, b: real, s: real)
    requires a <= b && s > 0.0
    ensures a / s <= b / s
  {
    assert b / s - a / s == (b - a) / s;
  }

  lemma DivBounds(k: real, m: real)
    requires m > 0.0 && 0.0 <= k <= m
    ensures 0.0 <= k / m <= 1.0
  {
    assert k / m * m == k;
  }

  lemma ScaleBack(e: real, s: real)
    requires s > 0.0
    requires -1.0 < (e * s) <= 1.0
    ensures -2.0 / s <= 2.0 * e <= 2.0 / s
  {
    assert (2.0 / s) * s == 2.0;
    assert 2.0 * e * s <= 2.0;
    assert -2.0 <= 2.0 * e * s;
  }
}
