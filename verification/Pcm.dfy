/**
 * The sample pipeline of the microphone: float samples to 16-bit integers, linear resampling, and
 * little-endian bytes. Sample positions and values between samples are exact reals.
 */
module Pcm {
  import opened Common

  /** A float sample. */
  datatype Sample = NaN | Infinite(negative: bool) | Finite(value: real)

  datatype RangeError = RatesMustBePositive

  const FULL_SCALE := 32767

  // ---- quantising -----------------------------------------------------------------------------

  /** `Math.round`: halves round up. */
  function Round(x: real): int {
    (x + 0.5).Floor
  }

  /** The sample cut to [-1, 1]; what is not a number counts as -1. */
  function Clamp(s: Sample): real {
    match s
    case NaN => -1.0
    case Infinite(negative) => if negative then -1.0 else 1.0
    case Finite(x) => if x < -1.0 then -1.0 else if x > 1.0 then 1.0 else x
  }

  function Quantize(s: Sample): int {
    Round(Clamp(s) * FULL_SCALE as real)
  }

  function QuantizeAll(s: seq<Sample>): seq<int> {
    seq(|s|, i requires 0 <= i < |s| => Quantize(s[i]))
  }

  /**
   * The code of a sample in [-1, 1] is the integer nearest to it at full scale, halves rounded up; beyond
   * that range it is full scale, and what is not a number is the lowest code.
   */
  lemma QuantizeIsNearest(s: Sample)
    ensures -FULL_SCALE <= Quantize(s) <= FULL_SCALE
    ensures s.Finite? && -1.0 <= s.value <= 1.0 ==>
              -0.5 <= s.value * FULL_SCALE as real - Quantize(s) as real < 0.5
    ensures s == Infinite(false) || (s.Finite? && s.value >= 1.0) ==> Quantize(s) == FULL_SCALE
    ensures s == Infinite(true) || s == NaN || (s.Finite? && s.value <= -1.0) ==> Quantize(s) == -FULL_SCALE
  {
  }

  method FloatToPcm16(input: array<Sample>) returns (out: array<int>)
    ensures fresh(out) && out[..] == QuantizeAll(input[..])
  {
    out := new int[input.Length];
    var i := 0;
    while i < input.Length
      invariant 0 <= i <= input.Length
      invariant forall j :: 0 <= j < i ==> out[j] == Quantize(input[j])
    {
      var s := input[i];
      var x: real;
      match s {
        case NaN => x := -1.0;
        case Infinite(negative) => x := if negative then -1.0 else 1.0;
        case Finite(v) => x := if !(v >= -1.0) then -1.0 else if v > 1.0 then 1.0 else v;
      }
      out[i] := Round(x * 32767.0);
      i := i + 1;
    }
  }

  // ---- resampling -----------------------------------------------------------------------------

  /** How many output samples `n` inputs give at `ratio` input positions per output sample. */
  function OutputLength(n: nat, ratio: real): nat
    requires ratio > 0.0
  {
    var x := n as real / ratio;
    assert x >= 0.0;
    x.Floor
  }

  /** The point `frac` of the way from `x` to `y`. */
  function Mix(x: real, y: real, frac: real): real {
    x * (1.0 - frac) + y * frac
  }

  /** The value between `a` and `b` at `frac` of the way, rounded. */
  function Blend(a: int, b: int, frac: real): int {
    Round(Mix(a as real, b as real, frac))
  }

  /** The later of the two source samples; the last one is held. */
  function Neighbour(s: seq<int>, i0: nat): int
    requires i0 < |s|
  {
    if i0 + 1 < |s| then s[i0 + 1] else s[|s| - 1]
  }

  /** The sample at position `pos`, linearly interpolated. */
  function SampleAt(s: seq<int>, pos: real): int
    requires 0.0 <= pos < |s| as real
  {
    Blend(s[pos.Floor], Neighbour(s, pos.Floor), pos - pos.Floor as real)
  }

  function Position(i: nat, ratio: real): real {
    i as real * ratio
  }

  lemma ScaleUp(a: real, b: real, x: real)
    requires a <= b && x >= 0.0
    ensures a * x <= b * x
  {
    var d := b - a;
    assert d * x >= 0.0;
    assert b * x == a * x + d * x;
  }

  lemma ScaleUpStrictly(a: real, b: real, x: real)
    requires a < b && x > 0.0
    ensures a * x < b * x
  {
    var d := b - a;
    assert d * x > 0.0;
    assert b * x == a * x + d * x;
  }

  /** Both source indices of every output sample are in bounds. */
  lemma PositionInBounds(n: nat, ratio: real, i: nat)
    requires ratio > 0.0 && i < OutputLength(n, ratio)
    ensures 0.0 <= Position(i, ratio) < n as real
  {
    var q := n as real / ratio;
    assert q * ratio == n as real;
    ScaleUp((i + 1) as real, q, ratio);
    ScaleUp(0.0, i as real, ratio);
    assert ((i + 1) as real) * ratio == i as real * ratio + ratio;
  }

  lemma FloorScaled(n: real, q: real, m: real, next: real, ratio: real)
    requires q * ratio == n && m <= q < next && ratio > 0.0
    ensures m * ratio <= n < next * ratio
  {
    ScaleUp(m, q, ratio);
    ScaleUpStrictly(q, next, ratio);
  }

  /** The output length is the floor of n / ratio, stated without a division. */
  lemma OutputLengthIsFloor(n: nat, ratio: real)
    requires ratio > 0.0
    ensures var m := OutputLength(n, ratio);
            m as real * ratio <= n as real < (m as real + 1.0) * ratio
  {
    var q := n as real / ratio;
    DivideBack(n as real, ratio);
    FloorScaled(n as real, q, q.Floor as real, q.Floor as real + 1.0, ratio);
  }

  function ResampleBy(s: seq<int>, ratio: real): (r: seq<int>)
    requires ratio > 0.0
    ensures |r| == OutputLength(|s|, ratio)
  {
    seq(OutputLength(|s|, ratio), i requires 0 <= i < OutputLength(|s|, ratio) =>
          PositionInBounds(|s|, ratio, i); SampleAt(s, Position(i, ratio)))
  }

  function Resampled(s: seq<int>, from: real, to: real): seq<int>
    requires from > 0.0 && to > 0.0
  {
    if from == to || s == [] then s else ResampleBy(s, from / to)
  }

  lemma RoundBetween(x: real, low: int, high: int)
    requires low as real <= x <= high as real
    ensures low <= Round(x) <= high
  {
  }

  lemma PartOf(d: real, frac: real)
    requires d >= 0.0 && 0.0 <= frac <= 1.0
    ensures 0.0 <= d * frac <= d
  {
  }

  lemma Monomials(x: real, y: real, frac: real)
    ensures x * (1.0 - frac) == x - x * frac
    ensures y * (1.0 - frac) == y - y * frac
    ensures (y - x) * frac == y * frac - x * frac
  {
  }

  /** The part `p` of the way from `x` to `y`, counted from either end. */
  lemma MixFromEitherEnd(x: real, y: real, frac: real) returns (p: real)
    requires x <= y && 0.0 <= frac <= 1.0
    ensures 0.0 <= p <= y - x
    ensures Mix(x, y, frac) == x + p && Mix(y, x, frac) == y - p
  {
    Monomials(x, y, frac);
    PartOf(y - x, frac);
    p := (y - x) * frac;
  }

  predicate Between(x: int, a: int, b: int) {
    (a <= x <= b) || (b <= x <= a)
  }

  /** A blend of two samples lies between them. */
  lemma BlendIsBetween(a: int, b: int, frac: real)
    requires 0.0 <= frac <= 1.0
    ensures Between(Blend(a, b, frac), a, b)
  {
    var x := Mix(a as real, b as real, frac);
    if a <= b {
      var p := MixFromEitherEnd(a as real, b as real, frac);
      RoundBetween(x, a, b);
    } else {
      var p := MixFromEitherEnd(b as real, a as real, frac);
      RoundBetween(x, b, a);
    }
  }

  /** Every output sample lies between its two neighbouring inputs. */
  lemma OutputBetweenNeighbours(s: seq<int>, ratio: real, i: nat)
    requires ratio > 0.0 && i < OutputLength(|s|, ratio)
    ensures 0.0 <= Position(i, ratio) < |s| as real
    ensures var i0 := Position(i, ratio).Floor;
            Between(ResampleBy(s, ratio)[i], s[i0], Neighbour(s, i0))
  {
    PositionInBounds(|s|, ratio, i);
    var pos := Position(i, ratio);
    BlendIsBetween(s[pos.Floor], Neighbour(s, pos.Floor), pos - pos.Floor as real);
  }

  /** `out` is nearest to the point `frac` of the way from `x` to `y`, halves rounded up. */
  predicate IsNearest(x: int, y: int, frac: real, out: int) {
    -0.5 <= x as real * (1.0 - frac) + y as real * frac - out as real < 0.5
  }

  lemma BlendIsNearest(x: int, y: int, frac: real)
    ensures IsNearest(x, y, frac, Blend(x, y, frac))
  {
    RoundIsNearest(Mix(x as real, y as real, frac));
  }

  lemma RoundIsNearest(x: real)
    ensures -0.5 <= x - Round(x) as real < 0.5
  {
  }

  /** `out` is nearest to the line through the two samples around `pos`; after the last sample it is held. */
  predicate IsOnLine(s: seq<int>, pos: real, out: int)
    requires 0.0 <= pos < |s| as real
  {
    var i0 := pos.Floor;
    IsNearest(s[i0], s[if i0 + 1 < |s| then i0 + 1 else |s| - 1], pos - i0 as real, out)
  }

  lemma SampleIsOnLine(s: seq<int>, pos: real)
    requires 0.0 <= pos < |s| as real
    ensures IsOnLine(s, pos, SampleAt(s, pos))
  {
    var i0 := pos.Floor;
    BlendIsNearest(s[i0], s[if i0 + 1 < |s| then i0 + 1 else |s| - 1], pos - i0 as real);
  }

  /** What resampling is: output `i` is on the line at `i` times the ratio. */
  lemma OutputInterpolates(s: seq<int>, ratio: real, i: nat)
    requires ratio > 0.0 && i < |ResampleBy(s, ratio)|
    ensures 0.0 <= i as real * ratio < |s| as real && IsOnLine(s, i as real * ratio, ResampleBy(s, ratio)[i])
  {
    PositionInBounds(|s|, ratio, i);
    SampleIsOnLine(s, i as real * ratio);
  }

  lemma OnTheLine(y: real, b: real, frac: real)
    ensures y * (1.0 - frac) + (y + b) * frac == y + b * frac
  {
    assert (y + b) * frac == y * frac + b * frac;
    assert y * (1.0 - frac) == y - y * frac;
  }

  lemma RampAt(a: int, b: int, k: nat)
    ensures (a + b * k) as real == a as real + b as real * k as real
    ensures (a + b * (k + 1)) as real == (a + b * k) as real + b as real
  {
    assert b * (k + 1) == b * k + b;
  }

  lemma Partly(b: real, i0: real, frac: real)
    ensures b * (i0 + frac) == b * i0 + b * frac
  {
  }

  /** Between two points of a ramp the line is the ramp. */
  lemma RampBetween(a: int, b: int, k: nat, next: int, frac: real)
    requires next == a + b * (k + 1) || frac == 0.0
    ensures (a + b * k) as real * (1.0 - frac) + next as real * frac == a as real + b as real * (k as real + frac)
  {
    RampAt(a, b, k);
    Partly(b as real, k as real, frac);
    if next == a + b * (k + 1) {
      OnTheLine((a + b * k) as real, b as real, frac);
    }
  }

  lemma NearTheRamp(a: int, b: int, k: nat, next: int, frac: real, out: int)
    requires next == a + b * (k + 1) || frac == 0.0
    requires IsNearest(a + b * k, next, frac, out)
    ensures -0.5 <= a as real + b as real * (k as real + frac) - out as real < 0.5
  {
    RampBetween(a, b, k, next, frac);
  }

  lemma RampIsOnLine(s: seq<int>, a: int, b: int, pos: real, out: int)
    requires forall k :: 0 <= k < |s| ==> s[k] == a + b * k
    requires s != [] && 0.0 <= pos <= (|s| - 1) as real && IsOnLine(s, pos, out)
    ensures -0.5 <= a as real + b as real * pos - out as real < 0.5
  {
    var i0 := pos.Floor;
    var i1, frac := if i0 + 1 < |s| then i0 + 1 else |s| - 1, pos - i0 as real;
    assert s[i0] == a + b * i0 && s[i1] == a + b * i1;
    NearTheRamp(a, b, i0, s[i1], frac, out);
    assert i0 as real + frac == pos;
  }

  /** A ramp stays that ramp, read at the new positions and rounded. */
  lemma RampIsResampled(s: seq<int>, a: int, b: int, ratio: real, i: nat)
    requires ratio > 0.0 && i < |ResampleBy(s, ratio)|
    requires forall k :: 0 <= k < |s| ==> s[k] == a + b * k
    requires i as real * ratio <= (|s| - 1) as real
    ensures -0.5 <= a as real + b as real * (i as real * ratio) - ResampleBy(s, ratio)[i] as real < 0.5
  {
    OutputInterpolates(s, ratio, i);
    RampIsOnLine(s, a, b, i as real * ratio, ResampleBy(s, ratio)[i]);
  }

  predicate InRange(s: seq<int>, low: int, high: int) {
    forall i :: 0 <= i < |s| ==> low <= s[i] <= high
  }

  /** Resampling never leaves the range of its input. */
  lemma ResampledInRange(s: seq<int>, from: real, to: real, low: int, high: int)
    requires from > 0.0 && to > 0.0 && InRange(s, low, high)
    ensures InRange(Resampled(s, from, to), low, high)
  {
    if from != to && s != [] {
      var r := ResampleBy(s, from / to);
      forall i | 0 <= i < |r|
        ensures low <= r[i] <= high
      {
        OutputBetweenNeighbours(s, from / to, i);
      }
    }
  }

  lemma WholePosition(s: seq<int>, pos: real, k: nat)
    requires pos == k as real && k < |s|
    ensures SampleAt(s, pos) == s[k]
  {
  }

  /** Lowering the rate by a whole factor picks every k-th sample. */
  lemma WholeRatioDecimates(s: seq<int>, k: nat, i: nat)
    requires k >= 1 && i < OutputLength(|s|, k as real)
    ensures k * i < |s| && ResampleBy(s, k as real)[i] == s[k * i]
  {
    PositionInBounds(|s|, k as real, i);
    assert Position(i, k as real) == (k * i) as real;
    WholePosition(s, Position(i, k as real), k * i);
  }

  /** Doubling the rate, or raising it by any whole factor, keeps every input sample. */
  lemma WholeFactorKeepsSamples(s: seq<int>, k: nat, ratio: real, i: nat)
    requires k >= 1 && ratio > 0.0 && ratio * k as real == 1.0 && i < |s|
    requires k * i < OutputLength(|s|, ratio)
    ensures ResampleBy(s, ratio)[k * i] == s[i]
  {
    PositionInBounds(|s|, ratio, k * i);
    assert Position(k * i, ratio) == i as real * (ratio * k as real);
    WholePosition(s, Position(k * i, ratio), i);
  }

  method ResampleLinear(input: array<int>, from: real, to: real)
    returns (r: Result<array<int>, RangeError>)
    ensures r.Err? <==> !(from > 0.0) || !(to > 0.0)
    ensures r.Ok? ==> r.value[..] == Resampled(input[..], from, to)
    ensures r.Ok? && (from == to || input.Length == 0) ==> r.value == input
  {
    if !(from > 0.0) || !(to > 0.0) {
      return Err(RatesMustBePositive);
    }
    if from == to || input.Length == 0 {
      return Ok(input);
    }
    var out := Interpolate(input, from / to);
    return Ok(out);
  }

  method Interpolate(input: array<int>, ratio: real) returns (out: array<int>)
    requires ratio > 0.0
    ensures fresh(out) && out[..] == ResampleBy(input[..], ratio)
  {
    ghost var s := input[..];
    var outLen := (input.Length as real / ratio).Floor;
    assert outLen == OutputLength(|s|, ratio);
    out := new int[outLen];
    var i := 0;
    while i < outLen
      invariant 0 <= i <= outLen
      invariant forall j :: 0 <= j < i ==> out[j] == ResampleBy(s, ratio)[j]
    {
      PositionInBounds(|s|, ratio, i);
      var pos := i as real * ratio;
      var i0 := pos.Floor;
      var i1 := if i0 + 1 < input.Length - 1 then i0 + 1 else input.Length - 1;
      out[i] := Blend(input[i0], input[i1], pos - i0 as real);
      assert out[i] == SampleAt(s, Position(i, ratio));
      i := i + 1;
    }
  }

  // ---- bytes ------------------------------------------------------------------------------------

  /** The 16-bit two's complement pattern of a sample. */
  function Pattern(v: int): nat {
    v % 0x1_0000
  }

  function ToLeBytes(s: seq<int>): (b: seq<nat>)
    ensures |b| == 2 * |s|
  {
    if s == [] then []
    else ToLeBytes(Init(s)) + [Pattern(Last(s)) % 256, Pattern(Last(s)) / 256]
  }

  /** A little-endian reader of signed 16-bit samples. */
  function FromLeBytes(b: seq<nat>): seq<int> {
    if |b| < 2 then []
    else
      FromLeBytes(b[..|b| - 2]) + [Signed(b[|b| - 2], b[|b| - 1])]
  }

  /** The signed 16-bit number with these low and high bytes. */
  function Signed(low: nat, high: nat): int {
    var u: int := low + 256 * high;
    if u >= 0x8000 then u - 0x1_0000 else u
  }

  lemma SignedOfPattern(v: int)
    requires -0x8000 <= v <= 0x7FFF
    ensures Signed(Pattern(v) % 256, Pattern(v) / 256) == v
    ensures Pattern(v) % 256 < 256 && Pattern(v) / 256 < 256
  {
  }

  /** The last two bytes stand for the last sample. */
  lemma LastBytes(s: seq<int>) returns (low: nat, high: nat)
    requires s != [] && -0x8000 <= Last(s) <= 0x7FFF
    ensures ToLeBytes(s) == ToLeBytes(Init(s)) + [low, high]
    ensures low < 256 && high < 256 && Signed(low, high) == Last(s)
  {
    SignedOfPattern(Last(s));
    low, high := Pattern(Last(s)) % 256, Pattern(Last(s)) / 256;
  }

  lemma {:induction false} BytesRoundTrip(s: seq<int>)
    requires InRange(s, -0x8000, 0x7FFF)
    ensures FromLeBytes(ToLeBytes(s)) == s
    ensures forall x :: x in ToLeBytes(s) ==> x < 256
  {
    if s != [] {
      BytesRoundTrip(Init(s));
      var low, high := LastBytes(s);
      ReadsLast(ToLeBytes(Init(s)), low, high);
      assert Init(s) + [Last(s)] == s;
    }
  }

  lemma ReadsLast(front: seq<nat>, low: nat, high: nat)
    ensures FromLeBytes(front + [low, high]) == FromLeBytes(front) + [Signed(low, high)]
  {
    var b := front + [low, high];
    assert b[..|b| - 2] == front;
  }

  method Pcm16ToLeBytes(input: array<int>) returns (out: array<nat>)
    ensures fresh(out) && out[..] == ToLeBytes(input[..])
  {
    out := new nat[2 * input.Length];
    var i := 0;
    while i < input.Length
      invariant 0 <= i <= input.Length
      invariant out[..2 * i] == ToLeBytes(input[..i])
    {
      var u := input[i] % 0x1_0000;
      out[2 * i] := u % 256;
      out[2 * i + 1] := u / 256;
      assert out[..2 * (i + 1)] == out[..2 * i] + [u % 256, u / 256];
      assert Init(input[..i + 1]) == input[..i];
      i := i + 1;
    }
    assert out[..] == out[..2 * i] && input[..] == input[..i];
  }

  // ---- the pipeline -------------------------------------------------------------------------------

  lemma QuantizedInRange(s: seq<Sample>)
    ensures InRange(QuantizeAll(s), -FULL_SCALE, FULL_SCALE)
  {
    forall i | 0 <= i < |s|
      ensures -FULL_SCALE <= QuantizeAll(s)[i] <= FULL_SCALE
    {
      QuantizeIsNearest(s[i]);
    }
  }

  /**
   * What goes out decodes to the resampled samples, all within full scale and never the one code
   * below it; at equal rates it decodes to the quantised input itself.
   */
  lemma PipelineIsSound(s: seq<Sample>, from: real, to: real)
    requires from > 0.0 && to > 0.0
    ensures var pcm := Resampled(QuantizeAll(s), from, to);
            && FromLeBytes(ToLeBytes(pcm)) == pcm
            && InRange(pcm, -FULL_SCALE, FULL_SCALE)
            && (from == to ==> FromLeBytes(ToLeBytes(pcm)) == QuantizeAll(s))
  {
    QuantizedInRange(s);
    ResampledInRange(QuantizeAll(s), from, to, -FULL_SCALE, FULL_SCALE);
    BytesRoundTrip(Resampled(QuantizeAll(s), from, to));
  }
}
