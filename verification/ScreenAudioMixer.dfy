/** The mixer as an object over its pacer and its buffers, proved equal to MixerModel. */
module ScreenAudioMixers {
  import opened Basics
  import opened AudioFormat
  import opened MixMath
  import MixerModel
  import PacerModel
  import opened BlockPacers

  class ScreenAudioMixer {
    const pacer: BlockPacer
    const screenBlock: array<Sample>
    var active: bool
    var microphoneMuted: bool
    var screenVolumePercent: int
    var screenGain: int
    var limiterEnabled: bool
    var limiterGain: int
    var limitedBlocks: nat
    // The square of `microphone_level_`.
    var loudness: real

    ghost predicate Valid()
      reads this, pacer, pacer.ring
    {
      && screenBlock.Length == SAMPLES_PER_BLOCK
      && screenBlock != pacer.ring
      && pacer.Valid()
      && MixerModel.Sound(Value())
    }

    ghost function Value(): MixerModel.Mixer
      requires pacer.Shape()
      reads this, pacer, pacer.ring
    {
      MixerModel.Mixer(pacer.Value(), active, microphoneMuted, screenVolumePercent, screenGain,
                       limiterEnabled, limiterGain, limitedBlocks, loudness)
    }

    constructor ()
      ensures Valid() && fresh(pacer) && fresh(pacer.ring) && fresh(screenBlock)
      ensures Value() == MixerModel.Fresh()
    {
      pacer := new BlockPacer(MixerModel.PACING);
      screenBlock := new Sample[SAMPLES_PER_BLOCK](_ => 0);
      active, microphoneMuted := false, false;
      screenVolumePercent, screenGain := 100, GAIN_ONE;
      limiterEnabled, limiterGain, limitedBlocks := true, LIMITER_UNITY, 0;
      loudness := 0.0;
      new;
      VolumeGainFollowsTheSlider(100, 100, 0);
    }

    method SetScreenVolume(percent: int)
      requires Valid()
      modifies this`screenVolumePercent, this`screenGain
      ensures Valid()
      ensures Value() == MixerModel.Next(old(Value()), MixerModel.VolumeSet(percent))
    {
      MixerModel.NextIsSound(Value(), MixerModel.VolumeSet(percent));
      screenVolumePercent := Asked(percent);
      screenGain := VolumeGain(Asked(percent));
    }

    method SetMicrophoneMuted(muted: bool)
      requires Valid()
      modifies this`microphoneMuted
      ensures Valid() && Value() == MixerModel.Next(old(Value()), MixerModel.MuteSet(muted))
    {
      microphoneMuted := muted;
    }

    method SetLimiter(on: bool)
      requires Valid()
      modifies this`limiterEnabled
      ensures Valid() && Value() == MixerModel.Next(old(Value()), MixerModel.LimiterSet(on))
    {
      limiterEnabled := on;
    }

    method PushScreenAudio(block: seq<Sample>)
      requires Valid()
      modifies pacer, pacer.ring
      ensures Valid()
      ensures Value() == MixerModel.Next(old(Value()), MixerModel.ScreenPushed(block))
    {
      pacer.Push(block);
    }

    // A capture starting, as far as the mix sees it: the buffer is emptied first, and a capture
    // that does not come up leaves the mixer stopped.
    method Start(ok: bool)
      requires Valid()
      modifies this`active, pacer`head, pacer`size, pacer`primed
      ensures Valid()
      ensures Value() == MixerModel.Next(old(Value()), MixerModel.CaptureStarted(ok))
    {
      Stop();
      if ok {
        active := true;
      }
    }

    method Stop()
      requires Valid()
      modifies this`active, pacer`head, pacer`size, pacer`primed
      ensures Valid()
      ensures Value() == MixerModel.Next(old(Value()), MixerModel.CaptureStopped)
    {
      active := false;
      pacer.Clear();
    }

    // The capture ended by itself: what is buffered stays, to be mixed until it is gone.
    method NoteFailure()
      requires Valid()
      modifies this`active
      ensures Valid() && Value() == MixerModel.Next(old(Value()), MixerModel.CaptureFailed)
    {
      active := false;
    }

    method MeasureLoudness(microphone: seq<Sample>)
      requires microphone != []
      modifies this`loudness
      ensures loudness == MixerModel.Loudness(microphone)
    {
      var energy := 0.0;
      for i := 0 to |microphone|
        invariant energy == MixerModel.Energy(microphone[..i])
      {
        var value := microphone[i] as real / 32768.0;
        energy := energy + value * value;
        assert microphone[..i + 1][..i] == microphone[..i];
      }
      assert microphone[..|microphone|] == microphone;
      loudness := energy / |microphone| as real;
    }

    method Mix(microphone: seq<Sample>, channels: nat, out: array<Sample>) returns (result: MixerModel.MixResult)
      requires Valid()
      requires out != screenBlock && out != pacer.ring
      modifies this`limiterGain, this`limitedBlocks, this`loudness, pacer, screenBlock, out
      ensures Valid()
      ensures var mixed := MixerModel.Mix(old(Value()), microphone, channels, out.Length);
        && Value() == mixed.next
        && result == mixed.result
        && out[..] == mixed.written + old(out[..])[|mixed.written|..]
    {
      if channels == 0 || |microphone| == 0 {
        return MixerModel.MixResult(1, 0.0, false);
      }
      var frames := |microphone| / channels;
      MeasureLoudness(microphone);
      MixerModel.OldLoudnessIsUnread(old(Value()), microphone, channels, out.Length, loudness);
      hide MixerModel.Loudness;
      var buffered := pacer.BufferedFrames();
      var haveScreenAudio := active || 0 < buffered;
      var mixable := haveScreenAudio && frames == FRAMES_PER_BLOCK
                  && SAMPLES_PER_BLOCK <= out.Length && channels <= 2;
      if !mixable {
        PassThrough(microphone, out);
        return MixerModel.MixResult(channels, loudness, false);
      }
      result := MixAudible(microphone, channels, out);
    }

    // The rest of `Mix`, once there is screen audio to put in a block of the right shape.
    method MixAudible(microphone: seq<Sample>, channels: nat, out: array<Sample>)
      returns (result: MixerModel.MixResult)
      requires Valid() && 0 < channels && microphone != []
      requires MixerModel.Mixable(Value(), |microphone|, channels, out.Length)
      requires loudness == MixerModel.Loudness(microphone)
      requires out != screenBlock && out != pacer.ring
      modifies this`limiterGain, this`limitedBlocks, pacer, screenBlock, out
      ensures Valid()
      ensures var mixed := MixerModel.Mix(old(Value()), microphone, channels, out.Length);
        && Value() == mixed.next
        && result == mixed.result
        && out[..] == mixed.written + old(out[..])[|mixed.written|..]
    {
      hide MixerModel.Mix, MixerModel.AnyOverload, MixerModel.MixedFrames, GainAfter, Heard, Unlimited;
      hide MixerModel.HasScreenAudio, MixerModel.Loudness, PacerModel.Suffix;
      ghost var m := Value();
      MixerModel.MixableMix(m, microphone, channels, out.Length);
      MixerModel.NextIsSound(m, MixerModel.Blocked(microphone, channels, out.Length));
      hide MixerModel.Sound;
      var captured := pacer.Take(screenBlock);
      assert screenBlock[..] == MixerModel.ScreenBlock(m);
      hide MixerModel.ScreenBlock, PacerModel.Take, PacerModel.Ready;
      MixBlock(microphone, channels, out, m);
      result := MixerModel.MixResult(2, loudness, captured);
    }

    method PassThrough(microphone: seq<Sample>, out: array<Sample>)
      modifies out
      ensures var written := MixerModel.PassedThrough(microphoneMuted, microphone, out.Length);
        out[..] == written + old(out[..])[|written|..]
    {
      ghost var written := MixerModel.PassedThrough(microphoneMuted, microphone, out.Length);
      var gain := if microphoneMuted then 0 else 1;
      var count := Min(|microphone|, out.Length);
      for i := 0 to count
        invariant forall k :: 0 <= k < i ==> out[k] == written[k]
        invariant forall k :: i <= k < out.Length ==> out[k] == old(out[k])
      {
        out[i] := Saturate(microphone[i] * gain);
      }
    }

    // The frame loop, over the block just taken for the state `m`.
    method MixBlock(microphone: seq<Sample>, channels: nat, out: array<Sample>, ghost m: MixerModel.Mixer)
      requires 0 < channels && |microphone| / channels == FRAMES_PER_BLOCK
      requires SAMPLES_PER_BLOCK <= out.Length && screenBlock.Length == SAMPLES_PER_BLOCK && out != screenBlock
      requires screenBlock[..] == MixerModel.ScreenBlock(m)
      requires m.muted == microphoneMuted && m.screenGain == screenGain
      modifies this`limiterGain, this`limitedBlocks, out
      ensures var frames := MixerModel.MixedFrames(m, microphone, channels);
        if limiterEnabled then
          && limiterGain == GainAfter(old(limiterGain), frames)
          && limitedBlocks == old(limitedBlocks) + (if MixerModel.AnyOverload(frames) then 1 else 0)
          && out[..] == Heard(old(limiterGain), frames) + old(out[..])[SAMPLES_PER_BLOCK..]
        else
          && limiterGain == LIMITER_UNITY && limitedBlocks == old(limitedBlocks)
          && out[..] == Unlimited(frames) + old(out[..])[SAMPLES_PER_BLOCK..]
    {
      ghost var frames := MixerModel.MixedFrames(m, microphone, channels);
      ghost var g0, room := limiterGain, out[..];
      assert frames[..0] == [] && GainAfter(g0, []) == g0 && Heard(g0, []) == [] && Unlimited([]) == [];
      assert !MixerModel.AnyOverload([]);
      hide GainAfter, Heard, Unlimited, MixerModel.AnyOverload, GainBehind, Limited, Clamped;
      hide MixerModel.MixedFrames, MixerModel.MixedFrame, MixerModel.Placed, Overloads;
      var gain := if microphoneMuted then 0 else 1;
      if !limiterEnabled {
        limiterGain := LIMITER_UNITY;
      }
      var limited := false;
      for frame := 0 to FRAMES_PER_BLOCK
        invariant limiterGain == if limiterEnabled then GainAfter(g0, frames[..frame]) else LIMITER_UNITY
        invariant limited == (limiterEnabled && MixerModel.AnyOverload(frames[..frame]))
        invariant out[..] == (if limiterEnabled then Heard(g0, frames[..frame]) else Unlimited(frames[..frame]))
                           + room[2 * frame..]
        modifies this`limiterGain, out
      {
        var overloaded := MixOneFrame(microphone, channels, frame, gain, out, m, g0, room);
        assert MixerModel.AnyOverload(frames[..frame + 1])
            == (MixerModel.AnyOverload(frames[..frame]) || Overloads(frames[frame])) by {
          MixerModel.OneMoreFrame(g0, frames, frame, room);
        }
        limited := limited || overloaded;
      }
      assert frames[..FRAMES_PER_BLOCK] == frames;
      if limited {
        limitedBlocks := limitedBlocks + 1;
      }
    }

    // One turn of the loop, over a buffer that begins with what the frames before came to.
    method MixOneFrame(microphone: seq<Sample>, channels: nat, frame: nat, gain: int, out: array<Sample>,
                       ghost m: MixerModel.Mixer, ghost g0: int, ghost room: seq<Sample>)
      returns (overloaded: bool)
      requires 0 < channels && |microphone| / channels == FRAMES_PER_BLOCK && frame < FRAMES_PER_BLOCK
      requires SAMPLES_PER_BLOCK <= out.Length == |room| && screenBlock.Length == SAMPLES_PER_BLOCK && out != screenBlock
      requires screenBlock[..] == MixerModel.ScreenBlock(m)
      requires gain == MixerModel.MicGain(m.muted) && m.screenGain == screenGain
      requires var done := MixerModel.MixedFrames(m, microphone, channels)[..frame];
        && limiterGain == (if limiterEnabled then GainAfter(g0, done) else LIMITER_UNITY)
        && out[..] == (if limiterEnabled then Heard(g0, done) else Unlimited(done)) + room[2 * frame..]
      modifies this`limiterGain, out
      ensures var frames := MixerModel.MixedFrames(m, microphone, channels);
        var done := frames[..frame + 1];
        && overloaded == (limiterEnabled && Overloads(frames[frame]))
        && limiterGain == (if limiterEnabled then GainAfter(g0, done) else LIMITER_UNITY)
        && out[..] == (if limiterEnabled then Heard(g0, done) else Unlimited(done)) + room[2 * (frame + 1)..]
    {
      hide GainAfter, Heard, Unlimited, GainBehind, Limited, Clamped, MixerModel.Placed, MixerModel.AnyOverload;
      ghost var frames := MixerModel.MixedFrames(m, microphone, channels);
      var mixed := MixFrame(microphone, channels, frame, gain, m);
      assert mixed == frames[frame];
      hide MixerModel.MixedFrames, MixerModel.MixedFrame;
      MixerModel.OneMoreFrame(g0, frames, frame, room);
      overloaded := WriteFrame(mixed, frame, out);
    }

    method MixFrame(microphone: seq<Sample>, channels: nat, frame: nat, gain: int, ghost m: MixerModel.Mixer)
      returns (mixed: Frame)
      requires 0 < channels && |microphone| / channels == FRAMES_PER_BLOCK && frame < FRAMES_PER_BLOCK
      requires screenBlock[..] == MixerModel.ScreenBlock(m)
      requires gain == MixerModel.MicGain(m.muted) && m.screenGain == screenGain
      ensures mixed == MixerModel.MixedFrame(m, microphone, channels, frame)
    {
      MixerModel.InMicrophone(|microphone|, channels, frame);
      var left := microphone[frame * channels] * gain;
      var right := microphone[frame * channels + (channels - 1)] * gain;
      assert forall i :: 0 <= i < SAMPLES_PER_BLOCK ==> screenBlock[i] == screenBlock[..][i];
      mixed := Frame(left + AtGain(screenBlock[frame * 2], screenGain),
                     right + AtGain(screenBlock[frame * 2 + 1], screenGain));
    }

    method WriteFrame(mixed: Frame, frame: nat, out: array<Sample>) returns (overloaded: bool)
      requires 2 * frame + 1 < out.Length
      modifies this`limiterGain, out
      ensures overloaded == (limiterEnabled && Overloads(mixed))
      ensures limiterGain == if limiterEnabled then GainBehind(old(limiterGain), mixed) else old(limiterGain)
      ensures out[..] == MixerModel.Placed(old(out[..]), frame,
                           if limiterEnabled then Limited(old(limiterGain), mixed) else Clamped(mixed))
    {
      overloaded := false;
      if limiterEnabled {
        var peak := Peak(mixed);
        if PEAK_CEILING < peak {
          limiterGain := Min(limiterGain, Needed(peak));
          overloaded := true;
        }
        out[frame * 2] := Saturate(AtLimiterGain(mixed.left, limiterGain));
        out[frame * 2 + 1] := Saturate(AtLimiterGain(mixed.right, limiterGain));
        limiterGain := Min(LIMITER_UNITY, limiterGain + 1);
      } else {
        out[frame * 2] := Saturate(mixed.left);
        out[frame * 2 + 1] := Saturate(mixed.right);
      }
    }
  }
}
