/** The fixed-point arithmetic of the mix: one stereo frame at a time, then whole streams of them. */
module MixMath {
  import opened Basics
  import opened AudioFormat

  const GAIN_ONE := 256
  const MAX_VOLUME_PERCENT := 200
  const LIMITER_UNITY := 32768
  const PEAK_CEILING := 32767
  // A full-scale microphone over a full-scale screen at twice its volume.
  const WIDEST := 98304
  // What the limiter needs for that sample, and so the lowest its gain can go.
  const LOWEST_GAIN := 10923

  // A frame of the mix before the limiter and the clamp.
  datatype Frame = Frame(left: int, right: int)

  function Abs(x: int): nat {
    if x < 0 then -x else x
  }

  function Saturate(sample: int): Sample {
    if sample < -32768 then -32768 else if 32767 < sample then 32767 else sample
  }

  // An arithmetic right shift by eight: division that rounds down.
  function AtGain(sample: Sample, gain: int): int {
    sample * gain / GAIN_ONE
  }

  function AtLimiterGain(sample: int, gain: int): int {
    sample * gain / LIMITER_UNITY
  }

  function Peak(f: Frame): nat {
    Max(Abs(f.left), Abs(f.right))
  }

  predicate Wide(f: Frame) {
    Peak(f) <= WIDEST
  }

  predicate Overloads(f: Frame) {
    PEAK_CEILING < Peak(f)
  }

  function Needed(peak: nat): int
    requires 0 < peak
  {
    (PEAK_CEILING * LIMITER_UNITY + peak - 1) / peak
  }

  predicate InRange(gain: int) {
    LOWEST_GAIN <= gain <= LIMITER_UNITY
  }

  // The gain a frame is heard at, and the one it leaves behind.
  function GainFor(gain: int, f: Frame): int {
    if Overloads(f) then Min(gain, Needed(Peak(f))) else gain
  }

  function GainBehind(gain: int, f: Frame): int {
    Min(LIMITER_UNITY, GainFor(gain, f) + 1)
  }

  function Limited(gain: int, f: Frame): seq<Sample> {
    var g := GainFor(gain, f);
    [Saturate(AtLimiterGain(f.left, g)), Saturate(AtLimiterGain(f.right, g))]
  }

  function Clamped(f: Frame): seq<Sample> {
    [Saturate(f.left), Saturate(f.right)]
  }

  // --- Volume ---------------------------------------------------------------------------

  function Asked(percent: int): (r: int)
    ensures 0 <= r <= MAX_VOLUME_PERCENT
  {
    Max(0, Min(percent, MAX_VOLUME_PERCENT))
  }

  function VolumeRatio(percent: int): real {
    Asked(percent) as real / 100.0
  }

  // Rounded to nearest, halves away from zero; the ratio is never negative.
  function VolumeGain(percent: int): int {
    (VolumeRatio(percent) * GAIN_ONE as real + 0.5).Floor
  }

  lemma {:induction false} VolumeGainInIntegers(percent: int)
    ensures VolumeGain(percent) == (Asked(percent) * 512 + 100) / 200
  {
    var n := Asked(percent) * 512 + 100;
    var q := n / 200;
    assert VolumeRatio(percent) * 256.0 + 0.5 == n as real / 200.0;
    assert n == 200 * q + n % 200;
    assert q as real <= n as real / 200.0 < (q + 1) as real;
  }

  // The gain follows the slider, unity at 100%, and no percentage sits on a rounding tie.
  lemma {:induction false} VolumeGainFollowsTheSlider(p: int, q: int, k: int)
    ensures 0 <= VolumeGain(p) <= 512
    ensures p <= q ==> VolumeGain(p) <= VolumeGain(q)
    ensures VolumeGain(100) == GAIN_ONE
    ensures VolumeGain(p) == 0 <==> p <= 0
    ensures VolumeRatio(p) * GAIN_ONE as real != k as real + 0.5
  {
    VolumeGainInIntegers(p);
    VolumeGainInIntegers(q);
    VolumeGainInIntegers(100);
  }

  // --- One frame ------------------------------------------------------------------------

  lemma {:induction false} FloorOf(n: int, d: int, low: int, high: int)
    requires 0 < d && low * d <= n < high * d
    ensures low <= n / d < high
  {
    assert n == d * (n / d) + n % d;
    if n / d < low {
      Scaled(n / d + 1, low, d);
    }
    if high <= n / d {
      Scaled(high, n / d, d);
    }
  }

  lemma {:induction false} Scaled(a: int, b: int, d: int)
    requires a <= b && 0 <= d
    ensures a * d <= b * d
  {
  }

  lemma {:induction false} ScreenSampleFits(sample: Sample, gain: int)
    requires 0 <= gain <= 512
    ensures -0x8000_0000 <= sample * gain <= 0x7FFF_FFFF
    ensures -65536 <= AtGain(sample, gain) <= 65534
  {
    if 0 <= sample {
      Scaled(0, sample, gain);
      Scaled(gain, 512, sample);
    } else {
      var magnitude: int := Abs(sample);
      Scaled(sample, 0, gain);
      Scaled(gain, 512, magnitude);
    }
  }

  // The gain an overload asks for puts the peak on the ceiling, and no more than its own
  // rounding above it.
  lemma {:induction false} NeededIsTight(peak: nat)
    requires PEAK_CEILING < peak <= WIDEST
    ensures LOWEST_GAIN <= Needed(peak) <= LIMITER_UNITY
    ensures PEAK_CEILING * LIMITER_UNITY <= peak * Needed(peak) < PEAK_CEILING * LIMITER_UNITY + peak
  {
    var a := PEAK_CEILING * LIMITER_UNITY + peak - 1;
    assert a == peak * (a / peak) + a % peak;
    FloorOf(a, peak, LOWEST_GAIN, LIMITER_UNITY + 1) by {
      assert LOWEST_GAIN * peak <= a;
      assert a < (LIMITER_UNITY + 1) * peak;
    }
  }

  lemma {:induction false} GainStaysInRange(gain: int, f: Frame)
    requires InRange(gain) && Wide(f)
    ensures InRange(GainFor(gain, f)) && InRange(GainBehind(gain, f))
    ensures 0 <= Peak(f) * GainFor(gain, f) < PEAK_CEILING * LIMITER_UNITY + WIDEST
  {
    var g := GainFor(gain, f);
    if Overloads(f) {
      NeededIsTight(Peak(f));
      Scaled(g, Needed(Peak(f)), Peak(f));
    } else {
      Scaled(Peak(f), PEAK_CEILING, g);
      Scaled(g, LIMITER_UNITY, PEAK_CEILING);
    }
    Scaled(0, g, Peak(f));
  }

  lemma {:induction false} BoundedProduct(sample: int, peak: nat, gain: nat)
    requires Abs(sample) <= peak
    ensures -(peak * gain) <= sample * gain <= peak * gain
  {
    Scaled(sample, peak, gain);
    Scaled(0 - (peak as int), sample, gain);
  }

  // What reaches the final clamp is at most two outside the range of a sample, and every
  // product on the way fits the integer it is computed in.
  lemma {:induction false} LimitedFrameFits(gain: int, f: Frame)
    requires InRange(gain) && Wide(f)
    ensures var g := GainFor(gain, f);
      && -0x8000_0000_0000_0000 <= f.left * g <= 0x7FFF_FFFF_FFFF_FFFF
      && -0x8000_0000_0000_0000 <= f.right * g <= 0x7FFF_FFFF_FFFF_FFFF
      && PEAK_CEILING * LIMITER_UNITY + Peak(f) - 1 <= 0x7FFF_FFFF_FFFF_FFFF
      && -32770 <= AtLimiterGain(f.left, g) <= 32769
      && -32770 <= AtLimiterGain(f.right, g) <= 32769
      && Abs(Saturate(AtLimiterGain(f.left, g)) - AtLimiterGain(f.left, g)) <= 2
      && Abs(Saturate(AtLimiterGain(f.right, g)) - AtLimiterGain(f.right, g)) <= 2
  {
    GainStaysInRange(gain, f);
    var g := GainFor(gain, f);
    BoundedProduct(f.left, Peak(f), g);
    BoundedProduct(f.right, Peak(f), g);
    FloorOf(f.left * g, LIMITER_UNITY, -32770, 32770);
    FloorOf(f.right * g, LIMITER_UNITY, -32770, 32770);
  }

  predicate OnCeiling(mixed: int, heard: Sample) {
    if 0 <= mixed then heard == 32767 else heard == -32767 || heard == -32768
  }

  lemma {:induction false} LoweredSample(sample: int, peak: nat)
    requires PEAK_CEILING < peak <= WIDEST && Abs(sample) == peak
    ensures OnCeiling(sample, Saturate(AtLimiterGain(sample, Needed(peak))))
  {
    NeededIsTight(peak);
    var g := Needed(peak);
    if 0 <= sample {
      FloorOf(sample * g, LIMITER_UNITY, PEAK_CEILING, 32770);
    } else {
      assert sample * g == -(peak * g);
      FloorOf(sample * g, LIMITER_UNITY, -32770, -PEAK_CEILING + 1);
    }
  }

  // A frame that turns the gain down leaves with its peak exactly on the ceiling.
  lemma {:induction false} LoweredPeakLandsOnCeiling(gain: int, f: Frame)
    requires InRange(gain) && Wide(f) && GainFor(gain, f) < gain
    ensures Abs(f.left) == Peak(f) ==> OnCeiling(f.left, Limited(gain, f)[0])
    ensures Abs(f.right) == Peak(f) ==> OnCeiling(f.right, Limited(gain, f)[1])
  {
    if Abs(f.left) == Peak(f) {
      LoweredSample(f.left, Peak(f));
    }
    if Abs(f.right) == Peak(f) {
      LoweredSample(f.right, Peak(f));
    }
  }

  // The stereo image holds: neither channel changes sign or overtakes the other.
  lemma {:induction false} LimitingKeepsTheImage(gain: int, f: Frame)
    requires InRange(gain) && Wide(f)
    ensures var heard := Limited(gain, f);
      && (0 <= f.left ==> 0 <= heard[0]) && (f.left <= 0 ==> heard[0] <= 0)
      && (0 <= f.right ==> 0 <= heard[1]) && (f.right <= 0 ==> heard[1] <= 0)
      && (f.left <= f.right ==> heard[0] <= heard[1])
      && (f.right <= f.left ==> heard[1] <= heard[0])
  {
    GainStaysInRange(gain, f);
    var g := GainFor(gain, f);
    Ordered(f.left, f.right, g);
    Ordered(f.right, f.left, g);
    Ordered(0, f.left, g);
    Ordered(f.left, 0, g);
    Ordered(0, f.right, g);
    Ordered(f.right, 0, g);
    assert 0 * g == 0;
  }

  lemma {:induction false} Ordered(a: int, b: int, gain: int)
    requires 0 <= gain
    ensures a <= b ==> AtLimiterGain(a, gain) <= AtLimiterGain(b, gain)
  {
    if a <= b {
      Scaled(a, b, gain);
      var low := a * gain / LIMITER_UNITY;
      assert low * LIMITER_UNITY <= a * gain;
    }
  }

  lemma {:induction false} UnityIsTransparent(f: Frame)
    requires !Overloads(f)
    ensures Limited(LIMITER_UNITY, f) == [f.left, f.right] == Clamped(f)
  {
  }

  // --- A stream of frames ---------------------------------------------------------------

  function GainAfter(gain: int, frames: seq<Frame>): int {
    if frames == [] then gain
    else GainBehind(GainAfter(gain, frames[..|frames| - 1]), frames[|frames| - 1])
  }

  function Heard(gain: int, frames: seq<Frame>): (out: seq<Sample>)
    ensures |out| == 2 * |frames|
  {
    if frames == [] then []
    else
      var before := frames[..|frames| - 1];
      Heard(gain, before) + Limited(GainAfter(gain, before), frames[|frames| - 1])
  }

  // The plain sum, with only the clamp.
  function Unlimited(frames: seq<Frame>): (out: seq<Sample>)
    ensures |out| == 2 * |frames|
  {
    if frames == [] then []
    else Unlimited(frames[..|frames| - 1]) + Clamped(frames[|frames| - 1])
  }

  predicate AllWide(frames: seq<Frame>) {
    forall f <- frames :: Wide(f)
  }

  predicate NoneOverload(frames: seq<Frame>) {
    forall f <- frames :: !Overloads(f)
  }

  lemma {:induction false} GainAlwaysInRange(gain: int, frames: seq<Frame>)
    requires InRange(gain) && AllWide(frames)
    ensures InRange(GainAfter(gain, frames))
  {
    if frames != [] {
      GainAlwaysInRange(gain, frames[..|frames| - 1]);
      GainStaysInRange(GainAfter(gain, frames[..|frames| - 1]), frames[|frames| - 1]);
    }
  }

  lemma {:induction false} OneMore(gain: int, frames: seq<Frame>, last: Frame)
    ensures GainAfter(gain, frames + [last]) == GainBehind(GainAfter(gain, frames), last)
    ensures Heard(gain, frames + [last]) == Heard(gain, frames) + Limited(GainAfter(gain, frames), last)
    ensures Unlimited(frames + [last]) == Unlimited(frames) + Clamped(last)
  {
    hide GainBehind, Limited, Clamped;
    assert (frames + [last])[..|frames|] == frames;
  }

  // Block boundaries are invisible: two blocks limited in turn are one stream limited once.
  lemma {:induction false} StreamsJoin(gain: int, first: seq<Frame>, second: seq<Frame>)
    ensures GainAfter(gain, first + second) == GainAfter(GainAfter(gain, first), second)
    ensures Heard(gain, first + second) == Heard(gain, first) + Heard(GainAfter(gain, first), second)
    ensures Unlimited(first + second) == Unlimited(first) + Unlimited(second)
  {
    if second == [] {
      assert first + second == first;
    } else {
      var fewer, last := second[..|second| - 1], second[|second| - 1];
      var g := GainAfter(gain, first);
      StreamsJoin(gain, first, fewer);
      OneMore(gain, first + fewer, last);
      OneMore(g, fewer, last);
      hide *;
      assert second == fewer + [last];
      Associates(first, fewer, [last]);
      Associates(Heard(gain, first), Heard(g, fewer), Limited(GainAfter(g, fewer), last));
      Associates(Unlimited(first), Unlimited(fewer), Clamped(last));
    }
  }

  lemma {:induction false} Associates<T>(a: seq<T>, b: seq<T>, c: seq<T>)
    ensures a + (b + c) == (a + b) + c
  {
  }

  // With nothing overloading, the gain climbs one step a frame and stops at unity.
  lemma {:induction false} GainClimbsBack(gain: int, frames: seq<Frame>)
    requires InRange(gain) && NoneOverload(frames)
    ensures GainAfter(gain, frames) == Min(LIMITER_UNITY, gain + |frames|)
  {
    if frames != [] {
      GainClimbsBack(gain, frames[..|frames| - 1]);
    }
  }

  lemma {:induction false} QuietRunIsUntouched(frames: seq<Frame>)
    requires NoneOverload(frames)
    ensures Heard(LIMITER_UNITY, frames) == Unlimited(frames)
    ensures GainAfter(LIMITER_UNITY, frames) == LIMITER_UNITY
  {
    if frames != [] {
      QuietRunIsUntouched(frames[..|frames| - 1]);
      UnityIsTransparent(frames[|frames| - 1]);
    }
  }

  // A frame the plain sum does not clamp.
  predicate FitsUnclamped(f: Frame) {
    -32768 <= f.left <= 32767 && -32768 <= f.right <= 32767
  }

  lemma {:induction false} LowestSampleIsTouched(f: Frame)
    requires FitsUnclamped(f)
    ensures Overloads(f) <==> f.left == -32768 || f.right == -32768
    ensures Overloads(f) ==> Limited(LIMITER_UNITY, f) != Clamped(f)
  {
    if Overloads(f) {
      assert Needed(Peak(f)) == 32767;
      assert AtLimiterGain(-32768, 32767) == -32767;
    }
  }

  // The limiter at unity passes a sum that needs no clamp exactly when the lowest sample of all is
  // not in it: the ceiling is one short of that one.
  lemma {:induction false} LowestSampleShows(frames: seq<Frame>)
    requires forall f <- frames :: FitsUnclamped(f)
    ensures Heard(LIMITER_UNITY, frames) == Unlimited(frames) <==> NoneOverload(frames)
    ensures NoneOverload(frames) <==> -32768 !in Unlimited(frames)
  {
    if NoneOverload(frames) {
      QuietRunIsUntouched(frames);
    }
    if frames != [] {
      var before, last := frames[..|frames| - 1], frames[|frames| - 1];
      LowestSampleShows(before);
      LowestSampleIsTouched(last);
      assert frames == before + [last];
      OneMore(LIMITER_UNITY, before, last);
      hide Overloads, Clamped, Limited, Heard, Unlimited, GainAfter;
      if NoneOverload(before) {
        QuietRunIsUntouched(before);
        assert Heard(LIMITER_UNITY, frames)[2 * |before|..] == Limited(LIMITER_UNITY, last);
        assert Unlimited(frames)[2 * |before|..] == Clamped(last);
      } else {
        assert Heard(LIMITER_UNITY, frames)[..2 * |before|] == Heard(LIMITER_UNITY, before);
        assert Unlimited(frames)[..2 * |before|] == Unlimited(before);
      }
    }
  }

  // However far down the limiter was, this many quiet frames later it is not there any more.
  lemma {:induction false} TransparentAgain(gain: int, quiet: seq<Frame>, later: seq<Frame>)
    requires InRange(gain) && NoneOverload(quiet) && NoneOverload(later)
    requires LIMITER_UNITY - LOWEST_GAIN <= |quiet|
    ensures Heard(gain, quiet + later) == Heard(gain, quiet) + Unlimited(later)
  {
    GainClimbsBack(gain, quiet);
    StreamsJoin(gain, quiet, later);
    QuietRunIsUntouched(later);
  }
}
