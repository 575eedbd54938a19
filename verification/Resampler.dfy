/**
 The linear resampler (src/core/pcm_audio.cpp) in exact rational arithmetic: positions and
 samples are fractions over the output rate.
 */
module Resampler {
  import opened Basics
  import opened Pcm

  const MAXIMUM_SIZE: nat := 0xffff_ffff_ffff_ffff

  /** A fraction rounded to the nearest integer, halves away from zero. */
  function Round(numerator: int, denominator: nat): int
    requires denominator > 0
  {
    if numerator >= 0 then (2 * numerator + denominator) / (2 * denominator)
    else -((-2 * numerator + denominator) / (2 * denominator))
  }

  function Clamp(v: int, low: int, high: int): int
    requires low <= high
  {
    if v < low then low else if v > high then high else v
  }

  function OutputFrames(n: nat, inputRate: nat, outputRate: nat): nat
    requires inputRate > 0
  {
    var rounded := Round(n * outputRate, inputRate);
    if rounded < 1 then 1 else rounded
  }

  /** The sample at output position `frame`, as a numerator over the output rate. */
  function Interpolated(input: seq<Sample>, inputRate: nat, outputRate: nat, frame: nat): int
    requires input != [] && outputRate > 0
  {
    var position := frame * inputRate;
    var left := Min(position / outputRate, |input| - 1);
    var right := Min(left + 1, |input| - 1);
    var fraction := position - left * outputRate;
    input[left] * (outputRate - fraction) + input[right] * fraction
  }

  function Resampled(input: seq<Sample>, inputRate: nat, outputRate: nat, frame: nat): Sample
    requires input != [] && outputRate > 0
  {
    Clamp(Round(Interpolated(input, inputRate, outputRate, frame), outputRate), -0x8000, 0x7fff)
  }

  /** Both failures leave the output empty; equal rates copy. */
  method ResampleMonoPcm16Linear(input: seq<Sample>, inputRate: nat, outputRate: nat)
    returns (ok: bool, output: seq<Sample>)
    ensures ok <==> input != [] && inputRate != 0 && outputRate != 0 &&
                    (inputRate == outputRate || |input| * outputRate <= MAXIMUM_SIZE * inputRate)
    ensures !ok ==> output == []
    ensures ok && inputRate == outputRate ==> output == input
    ensures ok && inputRate != outputRate ==>
      && |output| == OutputFrames(|input|, inputRate, outputRate)
      && forall i :: 0 <= i < |output| ==> output[i] == Resampled(input, inputRate, outputRate, i)
  {
    hide OutputFrames, Resampled;
    output := [];
    if |input| == 0 || inputRate == 0 || outputRate == 0 {
      return false, [];
    }
    if inputRate == outputRate {
      return true, input;
    }
    if |input| * outputRate > MAXIMUM_SIZE * inputRate {
      return false, [];
    }
    var outputFrames := OutputFrames(|input|, inputRate, outputRate);
    var frame := 0;
    while frame < outputFrames
      invariant |output| == frame <= outputFrames
      invariant forall i :: 0 <= i < frame ==> output[i] == Resampled(input, inputRate, outputRate, i)
    {
      output := output + [Resampled(input, inputRate, outputRate, frame)];
      frame := frame + 1;
    }
    ok := true;
  }

  // ----- arithmetic -----

  lemma RoundBounds(numerator: int, denominator: nat)
    requires denominator > 0
    ensures var r := Round(numerator, denominator);
      2 * numerator - denominator <= 2 * denominator * r <= 2 * numerator + denominator
  {
    var n := if numerator >= 0 then numerator else -numerator;
    var d := 2 * denominator;
    var q := (2 * n + denominator) / d;
    assert d * q + (2 * n + denominator) % d == 2 * n + denominator;
    assert Round(numerator, denominator) == if numerator >= 0 then q else -q;
    assert 2 * denominator * (-q) == -(d * q);
  }

  /** Of two equally near integers the one farther from zero is taken. */
  lemma RoundTies(numerator: int, denominator: nat)
    requires denominator > 0
    ensures var r := Round(numerator, denominator);
      && (numerator >= 0 ==> 2 * denominator * r > 2 * numerator - denominator)
      && (numerator <= 0 ==> 2 * denominator * r < 2 * numerator + denominator)
  {
    var n := if numerator >= 0 then numerator else -numerator;
    var d := 2 * denominator;
    var q := (2 * n + denominator) / d;
    assert d * q + (2 * n + denominator) % d == 2 * n + denominator;
    assert Round(numerator, denominator) == if numerator >= 0 then q else -q;
    assert 2 * denominator * (-q) == -(d * q);
  }

  lemma MulOrder(d: nat, a: int, b: int)
    requires d > 0 && a <= b
    ensures d * a <= d * b
  {
  }

  lemma MulStrict(d: nat, a: int, b: int)
    requires d > 0 && d * a < d * b
    ensures a < b
  {
    if a >= b {
      MulOrder(d, b, a);
    }
  }

  /** Rounding is monotone, and exact on whole numbers. */
  lemma RoundMonotone(a: int, b: int, denominator: nat)
    requires denominator > 0 && a <= b
    ensures Round(a, denominator) <= Round(b, denominator)
  {
    var d := 2 * denominator;
    if a >= 0 {
      DivMonotone(2 * a + denominator, 2 * b + denominator, d);
    } else if b < 0 {
      DivMonotone(-2 * b + denominator, -2 * a + denominator, d);
    } else {
      DivMonotone(0, -2 * a + denominator, d);
      DivMonotone(0, 2 * b + denominator, d);
    }
  }

  lemma DivMonotone(a: int, b: int, d: nat)
    requires d > 0 && a <= b
    ensures a / d <= b / d
  {
    var p, q := a / d, b / d;
    assert a == d * p + a % d && b == d * q + b % d;
    assert d * (q + 1) == d * q + d;
    if q < p {
      MulOrder(d, q + 1, p);
    }
  }

  lemma RoundWhole(v: int, denominator: nat)
    requires denominator > 0
    ensures Round(v * denominator, denominator) == v
  {
    var d := 2 * denominator;
    var n := if v >= 0 then v else -v;
    assert v * denominator >= 0 <==> v >= 0 by {
      if v >= 0 { MulOrder(denominator, 0, v); } else { MulOrder(denominator, v, -1); }
    }
    assert 2 * (n * denominator) + denominator == d * n + denominator;
    DivUnique(d * n + denominator, d, n, denominator);
    assert v < 0 ==> -2 * (v * denominator) == 2 * (n * denominator);
  }

  lemma DivUnique(x: int, d: nat, q: int, r: nat)
    requires d > 0 && x == d * q + r && r < d
    ensures x / d == q
  {
    var p := x / d;
    assert x == d * p + x % d;
    assert d * (p + 1) == d * p + d && d * (q + 1) == d * q + d;
    if p < q {
      MulOrder(d, p + 1, q);
    } else if p > q {
      MulOrder(d, q + 1, p);
    }
  }

  // ----- bounds -----

  /** Every source position lies below the end of the input, so the left index is never clamped. */
  lemma PositionInside(n: nat, inputRate: nat, outputRate: nat, frame: nat)
    requires n > 0 && inputRate > 0 && outputRate > 0 && frame < OutputFrames(n, inputRate, outputRate)
    ensures frame * inputRate < n * outputRate
    ensures frame * inputRate / outputRate < n
  {
    var total := n * outputRate;
    assert total >= 1 by {
      MulOrder(outputRate, 1, n);
      assert total == outputRate * n;
    }
    if frame > 0 {
      RoundBounds(total, inputRate);
      hide Round;
      FrameBelow(frame, inputRate, total, Round(total, inputRate));
    }
    DivBelow(frame * inputRate, outputRate, n);
  }

  lemma FrameBelow(frame: nat, inputRate: nat, total: int, frames: int)
    requires inputRate > 0 && frame + 1 <= frames && 2 * inputRate * frames <= 2 * total + inputRate
    ensures frame * inputRate < total
  {
    MulOrder(2 * inputRate, frame + 1, frames);
    assert 2 * inputRate * (frame + 1) == 2 * (frame * inputRate) + 2 * inputRate;
  }

  lemma DivBelow(x: nat, d: nat, n: nat)
    requires d > 0 && x < n * d
    ensures x / d < n
  {
    var q := x / d;
    assert x == d * q + x % d;
    assert d * q < d * n;
    MulStrict(d, q, n);
  }

  /** Whole part and fraction of a source position; neither clamp of the indices changes the left one. */
  lemma Position(input: seq<Sample>, inputRate: nat, outputRate: nat, frame: nat)
    requires input != [] && inputRate > 0 && outputRate > 0 && frame < OutputFrames(|input|, inputRate, outputRate)
    ensures var left := frame * inputRate / outputRate; var fraction := frame * inputRate % outputRate;
      && left < |input| && 0 <= fraction < outputRate && frame * inputRate == left * outputRate + fraction
      && Interpolated(input, inputRate, outputRate, frame) ==
         input[left] * (outputRate - fraction) + input[Min(left + 1, |input| - 1)] * fraction
  {
    PositionInside(|input|, inputRate, outputRate, frame);
    hide OutputFrames;
    DivMod(frame * inputRate, outputRate);
    var left, fraction := frame * inputRate / outputRate, frame * inputRate % outputRate;
    assert Min(left, |input| - 1) == left && frame * inputRate - left * outputRate == fraction;
  }

  lemma DivMod(x: nat, d: nat)
    requires d > 0
    ensures 0 <= x % d < d && x == x / d * d + x % d
  {
  }

  lemma Between(a: int, b: int, fraction: nat, whole: nat)
    requires whole > 0 && fraction < whole
    ensures var v := a * (whole - fraction) + b * fraction;
      && (a <= b ==> a * whole <= v <= b * whole) && (b <= a ==> b * whole <= v <= a * whole)
  {
    var v := a * (whole - fraction) + b * fraction;
    assert v == a * whole + (b - a) * fraction;
    assert v == b * whole - (b - a) * (whole - fraction);
    if a <= b {
      ProductSign(b - a, fraction);
      ProductSign(b - a, whole - fraction);
    } else {
      assert (b - a) * fraction == -((a - b) * fraction);
      assert (b - a) * (whole - fraction) == -((a - b) * (whole - fraction));
      ProductSign(a - b, fraction);
      ProductSign(a - b, whole - fraction);
    }
  }

  lemma ProductSign(a: nat, b: nat)
    ensures a * b >= 0
  {
  }

  /** Each output sample lies between the two input samples around its position, so the final clamp never binds. */
  lemma SampleBetweenNeighbours(input: seq<Sample>, inputRate: nat, outputRate: nat, frame: nat)
    requires input != [] && inputRate > 0 && outputRate > 0 && frame < OutputFrames(|input|, inputRate, outputRate)
    ensures var left := frame * inputRate / outputRate;
      && left < |input|
      && (var a, b := input[left], input[Min(left + 1, |input| - 1)];
          && Resampled(input, inputRate, outputRate, frame) ==
               Round(Interpolated(input, inputRate, outputRate, frame), outputRate)
          && (a <= b ==> a <= Resampled(input, inputRate, outputRate, frame) <= b)
          && (b <= a ==> b <= Resampled(input, inputRate, outputRate, frame) <= a))
  {
    Position(input, inputRate, outputRate, frame);
    var left, fraction := frame * inputRate / outputRate, frame * inputRate % outputRate;
    var a, b := input[left], input[Min(left + 1, |input| - 1)];
    Between(a, b, fraction, outputRate);
    var v := Interpolated(input, inputRate, outputRate, frame);
    RoundWhole(a, outputRate);
    RoundWhole(b, outputRate);
    hide Interpolated, Round;
    if a <= b {
      RoundMonotone(a * outputRate, v, outputRate);
      RoundMonotone(v, b * outputRate, outputRate);
    } else {
      RoundMonotone(b * outputRate, v, outputRate);
      RoundMonotone(v, a * outputRate, outputRate);
    }
  }

  /** The output length is the nearest integer to the exact length, and at least one. */
  lemma LengthNearest(n: nat, inputRate: nat, outputRate: nat)
    requires n > 0 && inputRate > 0 && outputRate > 0
    ensures var frames := OutputFrames(n, inputRate, outputRate);
      && frames >= 1 && 2 * inputRate * frames <= 2 * n * outputRate + 2 * inputRate
      && (2 * n * outputRate >= inputRate ==>
            2 * n * outputRate - inputRate < 2 * inputRate * frames <= 2 * n * outputRate + inputRate)
      && (2 * n * outputRate < inputRate ==> frames == 1)
  {
    var total := n * outputRate;
    assert total >= 0 && 2 * n * outputRate == 2 * total;
    RoundBounds(total, inputRate);
    RoundTies(total, inputRate);
    hide Round;
    var r := Round(total, inputRate);
    if r < 1 {
      MulOrder(2 * inputRate, r, 0);
    } else {
      MulOrder(2 * inputRate, 1, r);
    }
  }

  /** Each output is within half a unit of the straight line between the two inputs around its position. */
  lemma SampleOnLine(input: seq<Sample>, inputRate: nat, outputRate: nat, frame: nat)
    requires input != [] && inputRate > 0 && outputRate > 0 && frame < OutputFrames(|input|, inputRate, outputRate)
    ensures var left := frame * inputRate / outputRate; var fraction := frame * inputRate - left * outputRate;
      && left < |input|
      && (var a, b := input[left], if left + 1 < |input| then input[left + 1] else input[left];
          var exact := a * (outputRate - fraction) + b * fraction;
          2 * exact - outputRate <= 2 * outputRate * Resampled(input, inputRate, outputRate, frame)
            <= 2 * exact + outputRate)
  {
    Position(input, inputRate, outputRate, frame);
    SampleBetweenNeighbours(input, inputRate, outputRate, frame);
    hide Resampled, Interpolated, Round;
    RoundBounds(Interpolated(input, inputRate, outputRate, frame), outputRate);
  }

  lemma OnlyLeft(a: int, b: int, whole: nat, fraction: nat)
    requires fraction == 0
    ensures a * (whole - fraction) + b * fraction == a * whole
  {
  }

  /** A position that falls on an input sample gives exactly that sample; the first output is the first input. */
  lemma SampleOnGrid(input: seq<Sample>, inputRate: nat, outputRate: nat, frame: nat, k: nat)
    requires input != [] && inputRate > 0 && outputRate > 0 && frame < OutputFrames(|input|, inputRate, outputRate)
    requires frame * inputRate == k * outputRate
    ensures k < |input| && Resampled(input, inputRate, outputRate, frame) == input[k]
  {
    hide Resampled, Interpolated, Round, OutputFrames;
    DivUnique(frame * inputRate, outputRate, k, 0);
    Position(input, inputRate, outputRate, frame);
    SampleBetweenNeighbours(input, inputRate, outputRate, frame);
    RoundWhole(input[k], outputRate);
    OnlyLeft(input[k], input[Min(k + 1, |input| - 1)], outputRate, frame * inputRate % outputRate);
  }

  predicate NonDecreasing(samples: seq<Sample>) {
    forall i, j :: 0 <= i <= j < |samples| ==> samples[i] <= samples[j]
  }

  lemma SameSegment(a: int, b: int, f: nat, g: nat, whole: nat)
    requires whole > 0 && f <= g < whole && a <= b
    ensures a * (whole - f) + b * f <= a * (whole - g) + b * g
  {
    assert a * (whole - g) + b * g - (a * (whole - f) + b * f) == (b - a) * (g - f);
    ProductSign(b - a, g - f);
  }

  /** A rising input gives a rising output. */
  lemma MonotoneInMonotoneOut(input: seq<Sample>, inputRate: nat, outputRate: nat, i: nat, j: nat)
    requires input != [] && inputRate > 0 && outputRate > 0 && NonDecreasing(input)
    requires i <= j < OutputFrames(|input|, inputRate, outputRate)
    ensures Resampled(input, inputRate, outputRate, i) <= Resampled(input, inputRate, outputRate, j)
  {
    var p, q := i * inputRate / outputRate, j * inputRate / outputRate;
    MulOrder(inputRate, i, j);
    DivMonotone(i * inputRate, j * inputRate, outputRate);
    SampleBetweenNeighbours(input, inputRate, outputRate, i);
    SampleBetweenNeighbours(input, inputRate, outputRate, j);
    Position(input, inputRate, outputRate, i);
    Position(input, inputRate, outputRate, j);
    hide Resampled, Interpolated, OutputFrames, Round;
    if p == q {
      var f, g := i * inputRate % outputRate, j * inputRate % outputRate;
      SameSegment(input[p], input[Min(p + 1, |input| - 1)], f, g, outputRate);
      RoundMonotone(Interpolated(input, inputRate, outputRate, i), Interpolated(input, inputRate, outputRate, j),
                    outputRate);
    } else {
      assert input[Min(p + 1, |input| - 1)] <= input[q];
    }
  }
}
