/**
 What a call to the mixer comes to, sample by sample, on the microphone, the ring, the slider and
 the limiter's gain alone: which screen sample is added, at what share, and how far a frame is
 turned down.
 */
module MixLaws {
  import opened Basics
  import opened AudioFormat
  import opened MixMath
  import opened MixerModel
  import PacerModel

  // q is n over d, rounded down.
  predicate Floors(q: int, n: int, d: int) {
    d * q <= n < d * q + d
  }

  function Size(x: int): nat {
    if x < 0 then -x else x
  }

  function Louder(left: int, right: int): nat {
    if Size(left) < Size(right) then Size(right) else Size(left)
  }

  // The nearest 16-bit sample.
  predicate Clips(heard: int, mixed: int) {
    if mixed < -32768 then heard == -32768 else if 32767 < mixed then heard == 32767 else heard == mixed
  }

  // The gain a frame is heard at: the one before it, unless a smaller one is the least that brings
  // its louder side up to the ceiling.
  predicate TurnsDown(before: int, peak: nat, heard: int) {
    if peak <= 32767 then heard == before
    else
      && heard <= before
      && peak * (heard - 1) < 32767 * 32768
      && (heard < before ==> 32767 * 32768 <= peak * heard)
  }

  // --- One sample -------------------------------------------------------------------------

  lemma {:induction false} ScreenShare(sample: Sample, gain: int)
    ensures Floors(AtGain(sample, gain), sample * gain, 256)
  {
  }

  lemma {:induction false} LimiterShare(sample: int, gain: int)
    ensures Floors(AtLimiterGain(sample, gain), sample * gain, 32768)
  {
  }

  lemma {:induction false} FrameTurnsDown(gain: int, f: Frame)
    requires InRange(gain) && Wide(f)
    ensures TurnsDown(gain, Louder(f.left, f.right), GainFor(gain, f))
    ensures GainFor(gain, f) <= gain
    ensures Overloads(f) <==> 32767 < Louder(f.left, f.right)
    ensures GainBehind(gain, f) == if GainFor(gain, f) < 32768 then GainFor(gain, f) + 1 else 32768
  {
    GainStaysInRange(gain, f);
    var peak := Peak(f);
    assert peak == Louder(f.left, f.right);
    if Overloads(f) {
      NeededIsTight(peak);
      var needed := Needed(peak);
      assert peak * (needed - 1) == peak * needed - peak;
      hide Needed, Peak, Overloads;
      Scaled(GainFor(gain, f) - 1, needed - 1, peak);
    }
  }

  // The gain nearest to that percentage of 256, the percentage within 0 and 200.
  predicate Shares(gain: int, percent: int) {
    Size(100 * gain - 256 * (if percent < 0 then 0 else if 200 < percent then 200 else percent)) <= 50
  }

  // Half the slider is half the samples.
  lemma {:induction false} SliderShare(percent: int)
    ensures Shares(VolumeGain(percent), percent)
    ensures Asked(percent) == if percent < 0 then 0 else if 200 < percent then 200 else percent
  {
    VolumeGainInIntegers(percent);
  }

  // --- One block --------------------------------------------------------------------------

  // Whether a block of screen audio is there to be played.
  predicate Plays(p: PacerModel.Pacer) {
    (p.primed || p.options.prime <= |p.queue| / 2) && 960 <= |p.queue|
  }

  function ScreenAt(p: PacerModel.Pacer, k: nat): int
    requires k < 960
  {
    if Plays(p) then p.queue[k] else 0
  }

  // The microphone at one side of a frame, with both sides of a mono one the same.
  function VoiceAt(muted: bool, mic: seq<Sample>, channels: nat, i: nat, side: nat): int
    requires 1 <= channels <= 2 && |mic| / channels == 480 && i < 480 && side < 2
  {
    if muted then 0 else if channels == 1 then mic[i] else mic[2 * i + side]
  }

  // The mixed frames of a block: the voice, and the screen at its share, each in its own ear.
  ghost predicate Sums(m: Mixer, mic: seq<Sample>, channels: nat, frames: seq<Frame>)
    requires 1 <= channels <= 2 && |mic| / channels == 480
  {
    && |frames| == 480
    && forall i :: 0 <= i < 480 ==>
        && Floors(frames[i].left - VoiceAt(m.muted, mic, channels, i, 0), ScreenAt(m.pacer, 2 * i) * m.screenGain, 256)
        && Floors(frames[i].right - VoiceAt(m.muted, mic, channels, i, 1), ScreenAt(m.pacer, 2 * i + 1) * m.screenGain, 256)
  }

  lemma {:induction false} BlockIsMixed(m: Mixer, channels: nat)
    requires 1 <= channels <= 2
    ensures forall samples: nat, room: nat ::
      Mixable(m, samples, channels, room) <==>
        (m.active || 2 <= |m.pacer.queue|) && samples / channels == 480 && 960 <= room
    ensures PacerModel.Ready(m.pacer) <==> Plays(m.pacer)
  {
  }

  lemma {:induction false} FrameSums(m: Mixer, mic: seq<Sample>, channels: nat, i: nat)
    requires 1 <= channels <= 2 && |mic| / channels == 480 && i < 480
    ensures var f := MixedFrame(m, mic, channels, i);
      && Floors(f.left - VoiceAt(m.muted, mic, channels, i, 0), ScreenAt(m.pacer, 2 * i) * m.screenGain, 256)
      && Floors(f.right - VoiceAt(m.muted, mic, channels, i, 1), ScreenAt(m.pacer, 2 * i + 1) * m.screenGain, 256)
  {
    InMicrophone(|mic|, channels, i);
    BlockIsMixed(m, channels);
    var screen := ScreenBlock(m);
    assert screen[2 * i] == ScreenAt(m.pacer, 2 * i) && screen[2 * i + 1] == ScreenAt(m.pacer, 2 * i + 1);
    ScreenShare(screen[2 * i], m.screenGain);
    ScreenShare(screen[2 * i + 1], m.screenGain);
    hide AtGain, Floors, ScreenBlock, ScreenAt, Plays, PacerModel.Ready;
  }

  lemma {:induction false} BlockSums(m: Mixer, mic: seq<Sample>, channels: nat)
    requires 1 <= channels <= 2 && |mic| / channels == 480
    ensures Sums(m, mic, channels, MixedFrames(m, mic, channels))
  {
    forall i | 0 <= i < 480
      ensures MixedFrames(m, mic, channels)[i] == MixedFrame(m, mic, channels, i)
    {
    }
    hide MixedFrames;
    forall i | 0 <= i < 480
      ensures var f := MixedFrame(m, mic, channels, i);
        && Floors(f.left - VoiceAt(m.muted, mic, channels, i, 0), ScreenAt(m.pacer, 2 * i) * m.screenGain, 256)
        && Floors(f.right - VoiceAt(m.muted, mic, channels, i, 1), ScreenAt(m.pacer, 2 * i + 1) * m.screenGain, 256)
    {
      FrameSums(m, mic, channels, i);
    }
    hide MixedFrame, Floors, VoiceAt, ScreenAt;
  }

  // --- A stream through the limiter --------------------------------------------------------

  function Recovered(gain: int): int {
    if gain < 32768 then gain + 1 else 32768
  }

  // The gain in hand before each frame, given what the ones before it were heard at.
  function GainBefore(gain: int, heard: seq<int>, i: nat): int
    requires i <= |heard|
  {
    if i == 0 then gain else Recovered(heard[i - 1])
  }

  // `out` is the frames heard at the gains `heard`, each as its peak asks for.
  ghost predicate Limits(gain: int, frames: seq<Frame>, heard: seq<int>, out: seq<Sample>) {
    && |heard| == |frames| && |out| == 2 * |frames|
    && forall i :: 0 <= i < |frames| ==>
        && TurnsDown(GainBefore(gain, heard, i), Louder(frames[i].left, frames[i].right), heard[i])
        && Scales(frames[i].left, heard[i], out[2 * i])
        && Scales(frames[i].right, heard[i], out[2 * i + 1])
  }

  // A sample at a gain, rounded down and clipped.
  ghost predicate Scales(mixed: int, gain: int, out: int) {
    exists scaled: int :: Floors(scaled, mixed * gain, 32768) && Clips(out, scaled)
  }

  lemma {:induction false} SampleScales(mixed: int, gain: int)
    ensures Scales(mixed, gain, Saturate(AtLimiterGain(mixed, gain)))
  {
    LimiterShare(mixed, gain);
    assert Clips(Saturate(AtLimiterGain(mixed, gain)), AtLimiterGain(mixed, gain));
    hide AtLimiterGain;
  }

  lemma {:induction false} StreamIsLimited(gain: int, frames: seq<Frame>) returns (heard: seq<int>)
    requires InRange(gain) && AllWide(frames)
    ensures Limits(gain, frames, heard, Heard(gain, frames))
    ensures GainAfter(gain, frames) == GainBefore(gain, heard, |frames|)
  {
    if frames == [] {
      heard := [];
    } else {
      var before, last := frames[..|frames| - 1], frames[|frames| - 1];
      assert frames == before + [last];
      var earlier := StreamIsLimited(gain, before);
      var g := GainAfter(gain, before);
      GainAlwaysInRange(gain, before);
      FrameTurnsDown(g, last);
      SampleScales(last.left, GainFor(g, last));
      SampleScales(last.right, GainFor(g, last));
      OneMore(gain, before, last);
      heard := earlier + [GainFor(g, last)];
      LimitsGrow(gain, before, earlier, Heard(gain, before), last, GainFor(g, last), Limited(g, last));
      hide Heard, GainAfter, Limits, TurnsDown, Wide;
    }
  }

  lemma {:induction false} LimitsGrow(gain: int, frames: seq<Frame>, heard: seq<int>, out: seq<Sample>,
                                      last: Frame, at: int, pair: seq<Sample>)
    requires Limits(gain, frames, heard, out) && |pair| == 2
    requires TurnsDown(GainBefore(gain, heard, |heard|), Louder(last.left, last.right), at)
    requires Scales(last.left, at, pair[0]) && Scales(last.right, at, pair[1])
    ensures Limits(gain, frames + [last], heard + [at], out + pair)
    ensures GainBefore(gain, heard + [at], |heard| + 1) == Recovered(at)
  {
    hide TurnsDown, Scales, Louder;
    var all, gains := frames + [last], heard + [at];
    forall i | 0 <= i < |all|
      ensures TurnsDown(GainBefore(gain, gains, i), Louder(all[i].left, all[i].right), gains[i])
      ensures Scales(all[i].left, gains[i], (out + pair)[2 * i])
      ensures Scales(all[i].right, gains[i], (out + pair)[2 * i + 1])
    {
      assert GainBefore(gain, gains, i) == GainBefore(gain, heard, i);
    }
  }

  ghost predicate PlainSums(frames: seq<Frame>, out: seq<Sample>) {
    && |out| == 2 * |frames|
    && forall i :: 0 <= i < |frames| ==> Clips(out[2 * i], frames[i].left) && Clips(out[2 * i + 1], frames[i].right)
  }

  lemma {:induction false} UnlimitedIsPlain(frames: seq<Frame>)
    ensures PlainSums(frames, Unlimited(frames))
  {
    forall i | 0 <= i < |frames|
      ensures Clips(Unlimited(frames)[2 * i], frames[i].left) && Clips(Unlimited(frames)[2 * i + 1], frames[i].right)
    {
      UnlimitedAt(frames, i);
      hide Unlimited;
    }
  }

  // --- One call ---------------------------------------------------------------------------

  // A block that is mixed, with voice and screen both in it or either, at any slider and any mute.
  lemma {:induction false} BlockSounds(m: Mixer, mic: seq<Sample>, channels: nat, room: nat)
    returns (frames: seq<Frame>, heard: seq<int>)
    requires Sound(m) && mic != [] && 1 <= channels <= 2 && |mic| / channels == 480 && 960 <= room
    requires m.active || 2 <= |m.pacer.queue|
    ensures Sums(m, mic, channels, frames)
    ensures Shares(m.screenGain, m.volume)
    ensures var call := Mix(m, mic, channels, room);
      && (if m.limiting then Limits(m.limiterGain, frames, heard, call.written) else PlainSums(frames, call.written))
      && call.result.channels == 2 && (call.result.screenAudio <==> Plays(m.pacer))
      && call.next.limiterGain == (if m.limiting then GainBefore(m.limiterGain, heard, |heard|) else 32768)
      && (call.next.limitedBlocks == m.limitedBlocks + 1 <==>
            m.limiting && AnyLouder(frames))
      && m.limitedBlocks <= call.next.limitedBlocks <= m.limitedBlocks + 1
      && call.next.pacer.queue == (if Plays(m.pacer) then m.pacer.queue[960..] else m.pacer.queue)
      && (call.next.pacer.primed <==> Plays(m.pacer))
  {
    frames := MixedFrames(m, mic, channels);
    assert AllWide(frames) && InRange(m.limiterGain) by {
      EveryMixedFrameIsWide(m, mic, channels);
    }
    hide Mix, Mixable, MixedFrames, Sums, Limits, PlainSums, GainAfter, Heard, Unlimited, AllWide, InRange, GainBefore;
    heard := StreamIsLimited(m.limiterGain, frames);
    var call := Mix(m, mic, channels, room);
    assert Sums(m, mic, channels, frames) by {
      BlockSums(m, mic, channels);
    }
    assert Shares(m.screenGain, m.volume) by {
      SliderShare(m.volume);
    }
    hide Sound, Shares, AnyLouder;
    BlockLeaves(m, mic, channels, room);
    assert !m.limiting ==> PlainSums(frames, call.written) by {
      UnlimitedIsPlain(frames);
    }
    assert AnyOverload(frames) <==> AnyLouder(frames) by {
      AnyOverloadMeans(frames);
    }
    hide *;
  }

  lemma {:induction false} BlockLeaves(m: Mixer, mic: seq<Sample>, channels: nat, room: nat)
    requires mic != [] && 1 <= channels <= 2 && |mic| / channels == 480 && 960 <= room
    requires m.active || 2 <= |m.pacer.queue|
    ensures var call, frames := Mix(m, mic, channels, room), MixedFrames(m, mic, channels);
      && call.written == (if m.limiting then Heard(m.limiterGain, frames) else Unlimited(frames))
      && call.result.channels == 2 && (call.result.screenAudio <==> Plays(m.pacer))
      && call.next.limiterGain == (if m.limiting then GainAfter(m.limiterGain, frames) else 32768)
      && call.next.limitedBlocks == m.limitedBlocks + (if m.limiting && AnyOverload(frames) then 1 else 0)
      && call.next.pacer.queue == (if Plays(m.pacer) then m.pacer.queue[960..] else m.pacer.queue)
      && (call.next.pacer.primed <==> Plays(m.pacer))
  {
    assert Mixable(m, |mic|, channels, room) by {
      BlockIsMixed(m, channels);
    }
    MixableMix(m, mic, channels, room);
    TakeTakes(m.pacer);
    hide *;
  }

  lemma {:induction false} TakeTakes(p: PacerModel.Pacer)
    ensures PacerModel.Ready(p) <==> Plays(p)
    ensures PacerModel.Take(p, 960).queue == if Plays(p) then p.queue[960..] else p.queue
    ensures PacerModel.Take(p, 960).primed <==> Plays(p)
  {
  }

  ghost predicate AnyLouder(frames: seq<Frame>) {
    exists i :: 0 <= i < |frames| && 32767 < Louder(frames[i].left, frames[i].right)
  }

  lemma {:induction false} AnyOverloadMeans(frames: seq<Frame>)
    ensures AnyOverload(frames) <==> AnyLouder(frames)
  {
    assert forall f: Frame :: Overloads(f) <==> 32767 < Louder(f.left, f.right);
    hide Overloads, Louder;
    if AnyOverload(frames) {
      var f :| f in frames && Overloads(f);
      var i :| 0 <= i < |frames| && frames[i] == f;
    } else {
      assert forall i :: 0 <= i < |frames| ==> frames[i] in frames;
    }
  }

  // A block that is not: the microphone as it came, or silence while it is muted, in as many
  // channels as it has, and nothing taken off the ring.
  lemma {:induction false} StraightThrough(m: Mixer, mic: seq<Sample>, channels: nat, room: nat)
    requires channels != 0 && mic != []
    requires channels > 2 || |mic| / channels != 480 || room < 960 || (!m.active && |m.pacer.queue| < 2)
    ensures var call := Mix(m, mic, channels, room);
      && |call.written| == (if |mic| < room then |mic| else room)
      && (forall k :: 0 <= k < |call.written| ==> call.written[k] == if m.muted then 0 else mic[k])
      && call.result.channels == channels && !call.result.screenAudio
      && call.next == m.(loudness := call.result.loudness)
  {
    hide Loudness;
    assert forall k :: 0 <= k < |PassedThrough(m.muted, mic, room)| ==>
      PassedThrough(m.muted, mic, room)[k] == Saturate(mic[k] * MicGain(m.muted));
  }

  lemma {:induction false} NothingToMix(m: Mixer, mic: seq<Sample>, channels: nat, room: nat)
    requires channels == 0 || mic == []
    ensures Mix(m, mic, channels, room) == Mixed(m, MixResult(1, 0.0, false), [])
  {
  }

  // The sum of the squares, in whole numbers.
  function Squares(mic: seq<Sample>): nat {
    if mic == [] then 0 else mic[0] * mic[0] + Squares(mic[1..])
  }

  lemma {:induction false} SquaresLast(mic: seq<Sample>, last: Sample)
    ensures Squares(mic + [last]) == Squares(mic) + last * last
  {
    if mic == [] {
      assert Squares([last]) == last * last + Squares([last][1..]);
    } else {
      SquaresLast(mic[1..], last);
      assert (mic + [last])[1..] == mic[1..] + [last];
    }
  }

  // A level's square, over that many samples whose squares come to that much.
  predicate MeanOf(loudness: real, squares: nat, samples: nat) {
    loudness * samples as real * 1073741824.0 == squares as real
  }

  // The level is the root of the mean of the squares, over full scale; it is measured on every call
  // with anything in it, and kept.
  lemma {:induction false} LevelIsTheMeanSquare(m: Mixer, mic: seq<Sample>, channels: nat, room: nat)
    requires channels != 0 && mic != []
    ensures var call := Mix(m, mic, channels, room);
      MeanOf(call.result.loudness, Squares(mic), |mic|) && call.next.loudness == call.result.loudness
  {
    LevelIsAnswered(m, mic, channels, room);
    LoudnessIsTheMean(mic);
    hide *;
  }

  lemma {:induction false} LoudnessIsTheMean(mic: seq<Sample>)
    requires mic != []
    ensures MeanOf(Loudness(mic), Squares(mic), |mic|)
  {
    hide Energy, Squares;
    EnergyIsSquares(mic);
    Quotient(Energy(mic), |mic| as real);
    var total := Loudness(mic) * |mic| as real;
    assert total == Energy(mic);
  }

  lemma {:induction false} Quotient(part: real, whole: real)
    requires whole != 0.0
    ensures part / whole * whole == part
  {
  }

  lemma {:induction false} LevelIsAnswered(m: Mixer, mic: seq<Sample>, channels: nat, room: nat)
    requires channels != 0 && mic != []
    ensures var call := Mix(m, mic, channels, room);
      call.result.loudness == call.next.loudness == Loudness(mic)
  {
    hide Loudness, PacerModel.Take, MixedFrames, Heard, Unlimited, GainAfter, AnyOverload, PassedThrough;
  }

  lemma {:induction false} EnergyIsSquares(mic: seq<Sample>)
    ensures Energy(mic) * 1073741824.0 == Squares(mic) as real
  {
    if mic != [] {
      var before, last := mic[..|mic| - 1], mic[|mic| - 1];
      EnergyIsSquares(before);
      SquaresLast(before, last);
      assert mic == before + [last];
      PowerInIntegers(last);
      hide Power, Squares;
    }
  }

  lemma {:induction false} PowerInIntegers(s: Sample)
    ensures Power(s) * 1073741824.0 == (s * s) as real
  {
    var x := s as real;
    assert (s * s) as real == x * x;
    assert Power(s) == (x * x) / 1073741824.0;
  }

  // What every other event touches, and that it touches no more.
  lemma {:induction false} OtherEvents(m: Mixer, e: Event)
    requires PacerModel.Bounded(m.pacer) && !e.Blocked?
    ensures var n := Next(m, e);
      match e
      case VolumeSet(percent) =>
        && n == m.(volume := n.volume, screenGain := n.screenGain) && Shares(n.screenGain, percent)
        && n.volume == (if percent < 0 then 0 else if 200 < percent then 200 else percent)
      case MuteSet(muted) => n == m.(muted := muted)
      case LimiterSet(on) => n == m.(limiting := on)
      case ScreenPushed(samples) =>
        n == m.(pacer := m.pacer.(queue := n.pacer.queue, stats := n.pacer.stats))
      case CaptureStarted(ok) =>
        n == m.(active := ok, pacer := m.pacer.(queue := [], primed := false))
      case CaptureStopped =>
        n == m.(active := false, pacer := m.pacer.(queue := [], primed := false))
      case CaptureFailed => n == m.(active := false)
  {
    match e
    case VolumeSet(percent) =>
      SliderShare(percent);
      hide Shares, VolumeGain, Asked;
    case _ =>
  }
}
