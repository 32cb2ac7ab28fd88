/** One call to the mixer, and whole runs of them, as values. */
module MixerModel {
  import opened Basics
  import opened AudioFormat
  import opened MixMath
  import PacerModel

  // 62.5 ms, 31.25 ms and 20 ms at 48 kHz.
  const PACING := PacerModel.Options(3000, 1500, 960)

  // The microphone level is the square root of `loudness`, in the answer and in the mixer alike.
  datatype MixResult = MixResult(channels: nat, loudness: real, screenAudio: bool)

  datatype Mixer = Mixer(
    pacer: PacerModel.Pacer,
    active: bool,
    muted: bool,
    volume: int,
    screenGain: int,
    limiting: bool,
    limiterGain: int,
    limitedBlocks: nat,
    loudness: real)

  function Fresh(): Mixer {
    Mixer(PacerModel.Fresh(PACING), false, false, 100, GAIN_ONE, true, LIMITER_UNITY, 0, 0.0)
  }

  // A sample's share of full scale, squared.
  function Power(s: Sample): real {
    (s as real / 32768.0) * (s as real / 32768.0)
  }

  function Energy(mic: seq<Sample>): real {
    if mic == [] then 0.0 else Energy(mic[..|mic| - 1]) + Power(mic[|mic| - 1])
  }

  // The mean square of the microphone's own samples.
  function Loudness(mic: seq<Sample>): real
    requires mic != []
  {
    Energy(mic) / |mic| as real
  }

  predicate Silent(mic: seq<Sample>) {
    forall s <- mic :: s == 0
  }

  lemma {:induction false} PowerIsAShare(s: Sample)
    ensures 0.0 <= Power(s) <= 1.0 && (Power(s) == 0.0 <==> s == 0)
  {
    SquareIsAShare(s as real / 32768.0);
  }

  lemma {:induction false} SquareIsAShare(x: real)
    requires -1.0 <= x <= 1.0
    ensures 0.0 <= x * x <= 1.0 && (x * x == 0.0 <==> x == 0.0)
  {
    var size := if 0.0 <= x then x else -x;
    assert x * x == size * size;
    ProductIsPositive(size, size);
    ProductIsPositive(size, 1.0 - size);
    assert size * (1.0 - size) == size - size * size;
  }

  lemma {:induction false} ProductIsPositive(x: real, y: real)
    requires 0.0 <= x && 0.0 <= y
    ensures 0.0 <= x * y && (x * y == 0.0 <==> x == 0.0 || y == 0.0)
  {
  }

  lemma {:induction false} QuotientIsAShare(part: real, whole: real)
    requires 0.0 <= part <= whole && 0.0 < whole
    ensures 0.0 <= part / whole <= 1.0 && (part / whole == 0.0 <==> part == 0.0)
  {
    var q := part / whole;
    assert q * whole == part;
  }

  // From nothing, for silence and only for it, to one.
  lemma {:induction false} LoudnessIsAShare(mic: seq<Sample>)
    requires mic != []
    ensures 0.0 <= Loudness(mic) <= 1.0
    ensures Loudness(mic) == 0.0 <==> Silent(mic)
  {
    EnergyIsBounded(mic);
    QuotientIsAShare(Energy(mic), |mic| as real);
    hide Energy;
  }

  lemma {:induction false} SilentLast(before: seq<Sample>, last: Sample)
    ensures Silent(before + [last]) <==> Silent(before) && last == 0
  {
    var mic := before + [last];
    assert mic[|before|] == last;
    if Silent(before) && last == 0 {
      assert forall s: Sample :: s in mic ==> s in before || s == last;
    }
    if Silent(mic) {
      assert last in mic;
      assert forall s: Sample :: s in before ==> s in mic;
    }
  }

  lemma {:induction false} EnergyIsBounded(mic: seq<Sample>)
    ensures 0.0 <= Energy(mic) <= |mic| as real
    ensures Energy(mic) == 0.0 <==> Silent(mic)
  {
    if mic != [] {
      var before, last := mic[..|mic| - 1], mic[|mic| - 1];
      EnergyIsBounded(before);
      PowerIsAShare(last);
      assert mic == before + [last];
      SilentLast(before, last);
      hide Power, Silent;
    }
  }

  predicate Sound(m: Mixer) {
    && PacerModel.Bounded(m.pacer)
    && m.screenGain == VolumeGain(m.volume)
    && InRange(m.limiterGain)
  }

  predicate HasScreenAudio(m: Mixer) {
    m.active || 0 < PacerModel.Frames(m.pacer.queue)
  }

  predicate Mixable(m: Mixer, samples: nat, channels: nat, room: nat)
    requires 0 < channels
  {
    && HasScreenAudio(m)
    && samples / channels == FRAMES_PER_BLOCK
    && SAMPLES_PER_BLOCK <= room
    && channels <= 2
  }

  function MicGain(muted: bool): int {
    if muted then 0 else 1
  }

  function ScreenBlock(m: Mixer): (block: seq<Sample>)
    ensures |block| == SAMPLES_PER_BLOCK
  {
    if PacerModel.Ready(m.pacer) then m.pacer.queue[..SAMPLES_PER_BLOCK] else Silence(SAMPLES_PER_BLOCK)
  }

  // Left from the first channel and right from the last, which in mono is the same one.
  function MixedFrame(m: Mixer, mic: seq<Sample>, channels: nat, i: nat): Frame
    requires 0 < channels && i < FRAMES_PER_BLOCK && |mic| / channels == FRAMES_PER_BLOCK
  {
    InMicrophone(|mic|, channels, i);
    var screen := ScreenBlock(m);
    Frame(mic[i * channels] * MicGain(m.muted) + AtGain(screen[i * 2], m.screenGain),
          mic[i * channels + (channels - 1)] * MicGain(m.muted) + AtGain(screen[i * 2 + 1], m.screenGain))
  }

  lemma {:induction false} InMicrophone(samples: nat, channels: nat, i: nat)
    requires 0 < channels && i < samples / channels
    ensures i * channels + channels <= samples
  {
    assert samples == channels * (samples / channels) + samples % channels;
    Scaled(i + 1, samples / channels, channels);
    assert (i + 1) * channels == i * channels + channels;
  }

  function MixedFrames(m: Mixer, mic: seq<Sample>, channels: nat): (frames: seq<Frame>)
    requires 0 < channels && |mic| / channels == FRAMES_PER_BLOCK
    ensures |frames| == FRAMES_PER_BLOCK
  {
    seq(FRAMES_PER_BLOCK, i requires 0 <= i < FRAMES_PER_BLOCK => MixedFrame(m, mic, channels, i))
  }

  // Straight through, at the microphone's own gain.
  function PassedThrough(muted: bool, mic: seq<Sample>, room: nat): (out: seq<Sample>)
    ensures |out| == Min(|mic|, room)
  {
    seq(Min(|mic|, room), i requires 0 <= i < Min(|mic|, room) => Saturate(mic[i] * MicGain(muted)))
  }

  function AnyOverload(frames: seq<Frame>): bool {
    exists f <- frames :: Overloads(f)
  }

  // A buffer after one stereo pair has been written at a frame.
  function Placed(out: seq<Sample>, frame: nat, pair: seq<Sample>): seq<Sample>
    requires 2 * frame + 1 < |out| && |pair| == 2
  {
    out[2 * frame := pair[0]][2 * frame + 1 := pair[1]]
  }

  lemma {:induction false} PlacedExtends(done: seq<Sample>, room: seq<Sample>, frame: nat, pair: seq<Sample>)
    requires |done| == 2 * frame && |pair| == 2 && 2 * frame + 1 < |room|
    ensures Placed(done + room[2 * frame..], frame, pair) == done + pair + room[2 * (frame + 1)..]
  {
  }

  // One turn of the frame loop extends the stream by one frame.
  lemma {:induction false} OneMoreFrame(gain: int, frames: seq<Frame>, frame: nat, room: seq<Sample>)
    requires frame < |frames| && 2 * frame + 1 < |room|
    ensures var done, f := frames[..frame], frames[frame];
      && GainAfter(gain, frames[..frame + 1]) == GainBehind(GainAfter(gain, done), f)
      && AnyOverload(frames[..frame + 1]) == (AnyOverload(done) || Overloads(f))
      && Heard(gain, frames[..frame + 1]) + room[2 * (frame + 1)..]
      == Placed(Heard(gain, done) + room[2 * frame..], frame, Limited(GainAfter(gain, done), f))
      && Unlimited(frames[..frame + 1]) + room[2 * (frame + 1)..]
      == Placed(Unlimited(done) + room[2 * frame..], frame, Clamped(f))
  {
    var done, f, more := frames[..frame], frames[frame], frames[..frame + 1];
    assert more[..|more| - 1] == done && more == done + [f];
    PlacedExtends(Heard(gain, done), room, frame, Limited(GainAfter(gain, done), f));
    PlacedExtends(Unlimited(done), room, frame, Clamped(f));
  }

  // What one call leaves behind, answers, and writes over the front of the caller's buffer.
  datatype Mixed = Mixed(next: Mixer, result: MixResult, written: seq<Sample>)

  function Mix(m: Mixer, mic: seq<Sample>, channels: nat, room: nat): (r: Mixed)
    ensures |r.written| <= room
  {
    if channels == 0 || mic == [] then
      Mixed(m, MixResult(1, 0.0, false), [])
    else if !Mixable(m, |mic|, channels, room) then
      Mixed(m.(loudness := Loudness(mic)), MixResult(channels, Loudness(mic), false), PassedThrough(m.muted, mic, room))
    else
      var frames := MixedFrames(m, mic, channels);
      var taken := m.(loudness := Loudness(mic), pacer := PacerModel.Take(m.pacer, SAMPLES_PER_BLOCK));
      var result := MixResult(2, Loudness(mic), PacerModel.Ready(m.pacer));
      if m.limiting then
        Mixed(taken.(limiterGain := GainAfter(m.limiterGain, frames),
                     limitedBlocks := m.limitedBlocks + if AnyOverload(frames) then 1 else 0),
              result, Heard(m.limiterGain, frames))
      else
        Mixed(taken.(limiterGain := LIMITER_UNITY), result, Unlimited(frames))
  }

  // A block that is mixed, in one piece.
  lemma {:induction false} MixableMix(m: Mixer, mic: seq<Sample>, channels: nat, room: nat)
    requires 0 < channels && mic != [] && Mixable(m, |mic|, channels, room)
    ensures var frames := MixedFrames(m, mic, channels);
      Mix(m, mic, channels, room) == Mixed(
        m.(pacer := PacerModel.Take(m.pacer, SAMPLES_PER_BLOCK),
           limiterGain := if m.limiting then GainAfter(m.limiterGain, frames) else LIMITER_UNITY,
           limitedBlocks := m.limitedBlocks + (if m.limiting && AnyOverload(frames) then 1 else 0),
           loudness := Loudness(mic)),
        MixResult(2, Loudness(mic), PacerModel.Ready(m.pacer)),
        if m.limiting then Heard(m.limiterGain, frames) else Unlimited(frames))
  {
    hide MixedFrames, AnyOverload, GainAfter, Heard, Unlimited, Loudness, PacerModel.Take, PacerModel.Ready;
  }

  // What was measured before is not looked at again.
  lemma {:induction false} OldLoudnessIsUnread(m: Mixer, mic: seq<Sample>, channels: nat, room: nat, loudness: real)
    requires channels != 0 && mic != []
    ensures Mix(m.(loudness := loudness), mic, channels, room) == Mix(m, mic, channels, room)
  {
    hide Loudness, PacerModel.Take;
    var other := m.(loudness := loudness);
    if Mixable(m, |mic|, channels, room) {
      forall i | 0 <= i < FRAMES_PER_BLOCK
        ensures MixedFrame(m, mic, channels, i) == MixedFrame(other, mic, channels, i)
      {
      }
      assert MixedFrames(m, mic, channels) == MixedFrames(other, mic, channels);
    }
  }

  // --- Runs -----------------------------------------------------------------------------

  datatype Event =
    | Blocked(mic: seq<Sample>, channels: nat, room: nat)
    | VolumeSet(percent: int)
    | MuteSet(muted: bool)
    | LimiterSet(on: bool)
    | ScreenPushed(samples: seq<Sample>)
    | CaptureStarted(ok: bool)
    | CaptureStopped
    | CaptureFailed  // it ended by itself

  function Next(m: Mixer, e: Event): Mixer
    requires PacerModel.Bounded(m.pacer)
  {
    match e
    case Blocked(mic, channels, room) => Mix(m, mic, channels, room).next
    case VolumeSet(percent) => m.(volume := Asked(percent), screenGain := VolumeGain(percent))
    case MuteSet(muted) => m.(muted := muted)
    case LimiterSet(on) => m.(limiting := on)
    case ScreenPushed(samples) => m.(pacer := PacerModel.Push(m.pacer, samples))
    case CaptureStarted(ok) => m.(active := ok, pacer := PacerModel.Clear(m.pacer))
    case CaptureStopped => m.(active := false, pacer := PacerModel.Clear(m.pacer))
    case CaptureFailed => m.(active := false)
  }

  predicate IsMixed(m: Mixer, e: Event) {
    && e.Blocked? && 0 < e.channels && e.mic != []
    && Mixable(m, |e.mic|, e.channels, e.room)
  }

  lemma {:induction false} MixedFrameIsWide(m: Mixer, mic: seq<Sample>, channels: nat, i: nat)
    requires Sound(m) && 0 < channels && |mic| / channels == FRAMES_PER_BLOCK && i < FRAMES_PER_BLOCK
    ensures Wide(MixedFrame(m, mic, channels, i))
  {
    assert 0 <= m.screenGain <= 512 by {
      VolumeGainFollowsTheSlider(m.volume, 0, 0);
    }
    InMicrophone(|mic|, channels, i);
    var screen := ScreenBlock(m);
    ScreenSampleFits(screen[i * 2], m.screenGain);
    ScreenSampleFits(screen[i * 2 + 1], m.screenGain);
    hide AtGain, ScreenBlock, Sound;
  }

  lemma {:induction false} EveryMixedFrameIsWide(m: Mixer, mic: seq<Sample>, channels: nat)
    requires Sound(m) && 0 < channels && |mic| / channels == FRAMES_PER_BLOCK
    ensures AllWide(MixedFrames(m, mic, channels))
  {
    hide Sound, Wide;
    forall i | 0 <= i < FRAMES_PER_BLOCK
      ensures Wide(MixedFrame(m, mic, channels, i))
    {
      MixedFrameIsWide(m, mic, channels, i);
    }
    hide MixedFrame;
  }

  // One event keeps the limiter's gain in range, the screen's gain the slider's and the pacer bounded.
  lemma {:induction false} NextIsSound(m: Mixer, e: Event)
    requires Sound(m)
    ensures Sound(Next(m, e))
  {
    match e
    case Blocked(mic, channels, room) =>
      if IsMixed(m, e) {
        PacerModel.TakeKeeps(m.pacer, SAMPLES_PER_BLOCK, m.pacer.queue);
        EveryMixedFrameIsWide(m, mic, channels);
        GainAlwaysInRange(m.limiterGain, MixedFrames(m, mic, channels));
      }
    case ScreenPushed(samples) =>
      PacerModel.PushKeeps(m.pacer, samples, m.pacer.queue);
    case _ =>
  }

  // A run's frames before the limiter and its samples after, mixed blocks only.
  datatype History = History(mixer: Mixer, frames: seq<Frame>, heard: seq<Sample>)

  function Record(h: History, e: Event): (r: History)
    requires Sound(h.mixer) && |h.heard| == 2 * |h.frames|
    ensures Sound(r.mixer) && |r.heard| == 2 * |r.frames|
  {
    NextIsSound(h.mixer, e);
    if IsMixed(h.mixer, e) then
      History(Next(h.mixer, e),
              h.frames + MixedFrames(h.mixer, e.mic, e.channels),
              h.heard + Mix(h.mixer, e.mic, e.channels, e.room).written)
    else
      h.(mixer := Next(h.mixer, e))
  }

  function Play(m: Mixer, events: seq<Event>): (h: History)
    requires Sound(m)
    ensures Sound(h.mixer) && |h.heard| == 2 * |h.frames|
  {
    if events == [] then History(m, [], [])
    else Record(Play(m, events[..|events| - 1]), events[|events| - 1])
  }

  predicate LimiterLeftOn(events: seq<Event>) {
    forall e <- events :: e.LimiterSet? ==> e.on
  }

  ghost predicate OneStream(gain: int, h: History) {
    && h.mixer.limiting
    && h.mixer.limiterGain == GainAfter(gain, h.frames)
    && h.heard == Heard(gain, h.frames)
    && AllWide(h.frames)
  }

  lemma {:induction false} RecordKeepsOneStream(gain: int, h: History, e: Event)
    requires Sound(h.mixer) && |h.heard| == 2 * |h.frames|
    requires OneStream(gain, h) && (e.LimiterSet? ==> e.on)
    ensures OneStream(gain, Record(h, e))
  {
    hide GainAfter, Heard, MixedFrames, PacerModel.Take, PacerModel.Push;
    if IsMixed(h.mixer, e) {
      EveryMixedFrameIsWide(h.mixer, e.mic, e.channels);
      StreamsJoin(gain, h.frames, MixedFrames(h.mixer, e.mic, e.channels));
    }
  }

  // Volume changes, mutes, pushes, starves and blocks that could not be mixed leave no seam: the
  // whole run is one stream through one limiter.
  lemma {:induction false} RunIsOneStream(m: Mixer, events: seq<Event>)
    requires Sound(m) && m.limiting && LimiterLeftOn(events)
    ensures OneStream(m.limiterGain, Play(m, events))
  {
    if events != [] {
      hide Record, OneStream;
      var earlier, e := events[..|events| - 1], events[|events| - 1];
      RunIsOneStream(m, earlier);
      assert e.LimiterSet? ==> e.on;
      RecordKeepsOneStream(m.limiterGain, Play(m, earlier), e);
    }
  }

  predicate LimiterLeftAlone(events: seq<Event>) {
    forall e <- events :: !e.LimiterSet?
  }

  // The same mixer with its limiter switched off, wherever its gain had got to.
  function Off(m: Mixer): Mixer {
    m.(limiting := false)
  }

  predicate SameButForLimiter(m: Mixer, off: Mixer) {
    off == m.(limiting := false, limiterGain := off.limiterGain, limitedBlocks := off.limitedBlocks)
  }

  ghost predicate PlainSumOf(h: History, off: History) {
    && SameButForLimiter(h.mixer, off.mixer)
    && off.frames == h.frames && off.heard == Unlimited(h.frames)
  }

  lemma {:induction false} RecordKeepsThePlainSum(h: History, off: History, e: Event)
    requires Sound(h.mixer) && |h.heard| == 2 * |h.frames|
    requires Sound(off.mixer) && |off.heard| == 2 * |off.frames|
    requires PlainSumOf(h, off) && !e.LimiterSet?
    ensures PlainSumOf(Record(h, e), Record(off, e))
  {
    hide GainAfter, Heard, Unlimited, PacerModel.Take, PacerModel.Push, MixedFrames, AnyOverload;
    if IsMixed(h.mixer, e) {
      SameFrames(h.mixer, off.mixer, e.mic, e.channels);
      StreamsJoin(0, h.frames, MixedFrames(h.mixer, e.mic, e.channels));
    }
  }

  lemma {:induction false} LimiterOffIsThePlainSum(m: Mixer, events: seq<Event>)
    requires Sound(m) && LimiterLeftAlone(events)
    ensures PlainSumOf(Play(m, events), Play(Off(m), events))
  {
    if events != [] {
      hide Record, PlainSumOf;
      var earlier, e := events[..|events| - 1], events[|events| - 1];
      LimiterOffIsThePlainSum(m, earlier);
      assert !e.LimiterSet?;
      RecordKeepsThePlainSum(Play(m, earlier), Play(Off(m), earlier), e);
    }
  }

  lemma {:induction false} SameFrames(m: Mixer, off: Mixer, mic: seq<Sample>, channels: nat)
    requires SameButForLimiter(m, off) && 0 < channels && |mic| / channels == FRAMES_PER_BLOCK
    ensures MixedFrames(m, mic, channels) == MixedFrames(off, mic, channels)
  {
    forall i | 0 <= i < FRAMES_PER_BLOCK
      ensures MixedFrame(m, mic, channels, i) == MixedFrame(off, mic, channels, i)
    {
    }
  }

  // A run that starts at unity and never overloads sounds the same with the limiter off.
  lemma {:induction false} QuietRunNeedsNoLimiter(m: Mixer, events: seq<Event>)
    requires Sound(m) && m.limiting && LimiterLeftAlone(events) && m.limiterGain == LIMITER_UNITY
    requires NoneOverload(Play(m, events).frames)
    ensures Play(m, events).heard == Play(Off(m), events).heard
    ensures Play(m, events).mixer.limiterGain == LIMITER_UNITY
  {
    RunIsOneStream(m, events);
    QuietRunIsUntouched(Play(m, events).frames);
    LimiterOffIsThePlainSum(m, events);
  }

  // Across any events at all, the plain sum is back 21845 quiet frames after an overload.
  lemma {:induction false} RunRecovers(m: Mixer, events: seq<Event>, at: nat)
    requires Sound(m) && m.limiting && LimiterLeftOn(events)
    requires at + (LIMITER_UNITY - LOWEST_GAIN) <= |Play(m, events).frames|
    requires NoneOverload(Play(m, events).frames[at..])
    ensures var h := Play(m, events);
      var from := at + (LIMITER_UNITY - LOWEST_GAIN);
      h.heard[2 * from..] == Unlimited(h.frames[from..])
  {
    hide Play, Heard, Unlimited, GainAfter;
    var h := Play(m, events);
    var from := at + (LIMITER_UNITY - LOWEST_GAIN);
    RunIsOneStream(m, events);
    var loud, quiet, later := h.frames[..at], h.frames[at..from], h.frames[from..];
    assert h.frames == loud + (quiet + later);
    assert forall f :: f in quiet || f in later ==> f in h.frames[at..];
    StreamsJoin(m.limiterGain, loud, quiet + later);
    GainAlwaysInRange(m.limiterGain, loud);
    TransparentAgain(GainAfter(m.limiterGain, loud), quiet, later);
  }

  // Muted, the microphone's samples reach neither the output nor the next state, but for the level
  // measured for the speaking indicator, which is the same muted or not.
  lemma {:induction false} MutedMicrophoneIsUnheard(m: Mixer, mic: seq<Sample>, other: seq<Sample>, channels: nat, room: nat)
    requires m.muted && |mic| == |other|
    ensures var a, b := Mix(m, mic, channels, room), Mix(m, other, channels, room);
      && a.written == b.written
      && a.next == b.next.(loudness := a.next.loudness)
      && a.result == b.result.(loudness := a.result.loudness)
      && a.result.loudness == Mix(m.(muted := false), mic, channels, room).result.loudness
  {
    hide Loudness;
    if channels != 0 && mic != [] {
      if Mixable(m, |mic|, channels, room) {
        forall i | 0 <= i < FRAMES_PER_BLOCK
          ensures MixedFrame(m, mic, channels, i) == MixedFrame(m, other, channels, i)
        {
          InMicrophone(|mic|, channels, i);
        }
        assert MixedFrames(m, mic, channels) == MixedFrames(m, other, channels);
      } else {
        assert PassedThrough(m.muted, mic, room) == PassedThrough(m.muted, other, room);
      }
    }
  }

  // A mono microphone twice over, a stereo one as it stands.
  function BothEars(mic: seq<Sample>, channels: nat): seq<Sample>
    requires 1 <= channels <= 2 && |mic| / channels == FRAMES_PER_BLOCK
  {
    if channels == 2 then mic[..SAMPLES_PER_BLOCK]
    else seq(SAMPLES_PER_BLOCK, k requires 0 <= k < SAMPLES_PER_BLOCK => mic[k / 2])
  }

  lemma {:induction false} UnlimitedAt(frames: seq<Frame>, i: nat)
    requires i < |frames|
    ensures Unlimited(frames)[2 * i] == Saturate(frames[i].left)
    ensures Unlimited(frames)[2 * i + 1] == Saturate(frames[i].right)
  {
    var before := frames[..|frames| - 1];
    if i < |before| {
      UnlimitedAt(before, i);
    }
  }

  // Frames cut from a buffer of samples: left and right in turn.
  predicate CutFrom(frames: seq<Frame>, samples: seq<Sample>) {
    && |samples| == 2 * |frames|
    && forall i :: 0 <= i < |frames| ==> frames[i] == Frame(samples[2 * i], samples[2 * i + 1])
  }

  lemma {:induction false} CutIsUnlimited(frames: seq<Frame>, samples: seq<Sample>)
    requires CutFrom(frames, samples)
    ensures Unlimited(frames) == samples
    ensures forall f <- frames :: FitsUnclamped(f)
  {
    forall k | 0 <= k < |samples|
      ensures Unlimited(frames)[k] == samples[k]
    {
      UnlimitedAt(frames, k / 2);
      hide Unlimited;
      assert k == 2 * (k / 2) || k == 2 * (k / 2) + 1;
    }
  }

  // A limiter that is off, or at unity and given nothing it has to turn down.
  predicate LetsThrough(m: Mixer, samples: seq<Sample>) {
    !m.limiting || -32768 !in samples
  }

  lemma {:induction false} CutComesOutExactlyWhen(m: Mixer, mic: seq<Sample>, channels: nat, room: nat, samples: seq<Sample>)
    requires Sound(m) && (m.limiting ==> m.limiterGain == LIMITER_UNITY)
    requires 0 < channels && mic != [] && Mixable(m, |mic|, channels, room)
    requires CutFrom(MixedFrames(m, mic, channels), samples)
    ensures Mix(m, mic, channels, room).written == samples <==> LetsThrough(m, samples)
  {
    var frames := MixedFrames(m, mic, channels);
    CutIsUnlimited(frames, samples);
    LowestSampleShows(frames);
    hide MixedFrames, Unlimited, Heard, GainAfter, CutFrom, PacerModel.Take, Loudness;
  }

  // With the screen silent or its slider at zero, the voice comes out exactly as it went in, each
  // side in its own ear: with the limiter off, and with it at unity as long as the voice never
  // reaches the lowest sample of all, which the limiter turns down by one.
  lemma {:induction false} VoiceAloneIsUntouched(m: Mixer, mic: seq<Sample>, channels: nat, room: nat)
    requires Sound(m) && (m.limiting ==> m.limiterGain == LIMITER_UNITY)
    requires !m.muted && 0 < channels && mic != [] && Mixable(m, |mic|, channels, room)
    requires ScreenBlock(m) == Silence(SAMPLES_PER_BLOCK) || m.volume <= 0
    ensures Mix(m, mic, channels, room).written == BothEars(mic, channels) <==> LetsThrough(m, BothEars(mic, channels))
  {
    var frames, out := MixedFrames(m, mic, channels), BothEars(mic, channels);
    forall i | 0 <= i < FRAMES_PER_BLOCK
      ensures frames[i] == Frame(out[2 * i], out[2 * i + 1])
    {
      VoiceFrame(m, mic, channels, i);
      hide MixedFrame, ScreenBlock;
    }
    CutComesOutExactlyWhen(m, mic, channels, room, out);
    hide Mix, MixedFrames, BothEars;
  }

  lemma {:induction false} VoiceFrame(m: Mixer, mic: seq<Sample>, channels: nat, i: nat)
    requires Sound(m) && !m.muted && 1 <= channels <= 2 && |mic| / channels == FRAMES_PER_BLOCK && i < FRAMES_PER_BLOCK
    requires ScreenBlock(m) == Silence(SAMPLES_PER_BLOCK) || m.volume <= 0
    ensures i * channels + channels <= |mic|
    ensures MixedFrames(m, mic, channels)[i] == Frame(mic[i * channels], mic[i * channels + (channels - 1)])
  {
    VolumeGainFollowsTheSlider(m.volume, 0, 0);
    InMicrophone(|mic|, channels, i);
    hide VolumeGain, InRange, Unlimited;
    var screen := ScreenBlock(m);
    assert AtGain(screen[i * 2], m.screenGain) == 0 && AtGain(screen[i * 2 + 1], m.screenGain) == 0;
  }

  // Muted, at full volume, the screen comes out exactly as it was captured, under the same limiter.
  lemma {:induction false} ScreenAloneIsUntouched(m: Mixer, mic: seq<Sample>, channels: nat, room: nat)
    requires Sound(m) && (m.limiting ==> m.limiterGain == LIMITER_UNITY)
    requires m.muted && 0 < channels && mic != [] && Mixable(m, |mic|, channels, room)
    requires m.volume == 100
    ensures Mix(m, mic, channels, room).written == ScreenBlock(m) <==> LetsThrough(m, ScreenBlock(m))
  {
    VolumeGainFollowsTheSlider(100, 0, 0);
    var frames, screen := MixedFrames(m, mic, channels), ScreenBlock(m);
    forall i | 0 <= i < FRAMES_PER_BLOCK
      ensures frames[i] == Frame(screen[2 * i], screen[2 * i + 1])
    {
      InMicrophone(|mic|, channels, i);
      assert frames[i] == MixedFrame(m, mic, channels, i);
      hide ScreenBlock, VolumeGain;
    }
    CutComesOutExactlyWhen(m, mic, channels, room, screen);
    hide Mix, MixedFrames, ScreenBlock;
  }
}
