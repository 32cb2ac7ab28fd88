/** The gate as an object over its channel buffers: short cuts and all, it is the plain ramp. */
module VoiceGates {
  import opened VoiceGateModel

  class VoiceGate {
    const timing: Timing
    var holdSamples: nat
    var attackStep: real
    var releaseStep: real
    var holdRemaining: nat
    var gain: real
    var open: bool
    var blocks: nat
    var closedBlocks: nat

    ghost function Value(): Gate
      reads this
    {
      Gate(holdSamples, attackStep, releaseStep, holdRemaining, gain, open, blocks, closedBlocks)
    }

    constructor (timing: Timing)
      ensures Sound(Value()) && Value() == Fresh(timing, 48000) && this.timing == timing
    {
      this.timing := timing;
      new;
      Reset(48000);
    }

    method Reset(rate: int)
      modifies this
      ensures Sound(Value()) && Value() == Fresh(timing, rate)
    {
      FreshIsSound(timing, rate);
      holdSamples := SamplesIn(timing.holdMs, rate);
      attackStep := 1.0 / SamplesIn(timing.attackMs, rate) as real;
      releaseStep := 1.0 / SamplesIn(timing.releaseMs, rate) as real;
      holdRemaining, gain, open, blocks, closedBlocks := holdSamples, 1.0, true, 0, 0;
    }

    method Apply(voiced: bool, channels: seq<array<real>>, frames: nat)
      requires Sound(Value())
      requires forall c <- channels :: frames <= c.Length
      requires forall i, j :: 0 <= i < j < |channels| ==> channels[i] != channels[j]
      modifies this, set c <- channels
      ensures Sound(Value()) && Value() == VoiceGateModel.Apply(old(Value()), voiced, frames)
      ensures forall c <- channels, k :: 0 <= k < c.Length ==>
        c[k] == if k < frames then old(c[k]) * BlockGains(old(Value()), voiced, frames)[k] else old(c[k])
    {
      ghost var was := Value();
      ghost var step := StepOf(was, voiced, frames);
      RampStaysInRange(was.gain, step, frames);
      Decide(voiced, frames);
      if open {
        if 1.0 <= gain {
          SettledBlock(was, voiced, frames);
          assert Value() == VoiceGateModel.Apply(was, voiced, frames) && Sound(Value());
          hide BlockGains, VoiceGateModel.Apply, Sound;
          forall c, k | c in channels && 0 <= k < c.Length && k < frames
            ensures c[k] == old(c[k]) * BlockGains(was, voiced, frames)[k]
          {
            TimesOne(old(c[k]));
          }
          return;
        }
      } else if gain <= 0.0 {
        SettledBlock(was, voiced, frames);
        assert Value() == VoiceGateModel.Apply(was, voiced, frames) && Sound(Value());
        hide BlockGains, VoiceGateModel.Apply, Sound;
        Silence(channels, frames);
        forall c, k | c in channels && 0 <= k < c.Length && k < frames
          ensures c[k] == old(c[k]) * BlockGains(was, voiced, frames)[k]
        {
          TimesZero(old(c[k]));
        }
        return;
      }
      Scale(if open then attackStep else -releaseStep, channels, frames);
    }

    static lemma TimesOne(x: real)
      ensures x * 1.0 == x
    {
    }

    static lemma TimesZero(x: real)
      ensures x * 0.0 == 0.0
    {
    }

    // The hold, and whether the block is let through.
    method Decide(voiced: bool, frames: nat)
      modifies this
      ensures var g := old(Value());
        Value() == VoiceGateModel.Apply(g, voiced, frames).(gain := g.gain)
    {
      blocks := blocks + 1;
      if voiced {
        holdRemaining := holdSamples;
      } else if frames < holdRemaining {
        holdRemaining := holdRemaining - frames;
      } else {
        holdRemaining := 0;
      }
      open := voiced || 0 < holdRemaining;
      if !open {
        closedBlocks := closedBlocks + 1;
      }
    }

    method Silence(channels: seq<array<real>>, frames: nat)
      requires forall c <- channels :: frames <= c.Length
      requires forall i, j :: 0 <= i < j < |channels| ==> channels[i] != channels[j]
      modifies set c <- channels
      ensures forall c <- channels, k :: 0 <= k < c.Length ==> c[k] == if k < frames then 0.0 else old(c[k])
    {
      for channel := 0 to |channels|
        invariant forall j :: 0 <= j < |channels| ==>
          forall k :: 0 <= k < channels[j].Length ==>
            channels[j][k] == if k < frames && j < channel then 0.0 else old(channels[j][k])
      {
        Fill(channels[channel], frames);
      }
    }

    static method Fill(channel: array<real>, frames: nat)
      requires frames <= channel.Length
      modifies channel
      ensures forall k :: 0 <= k < channel.Length ==> channel[k] == if k < frames then 0.0 else old(channel[k])
    {
      for i := 0 to frames
        invariant forall k :: 0 <= k < channel.Length ==> channel[k] == if k < i then 0.0 else old(channel[k])
      {
        channel[i] := 0.0;
      }
    }

    // The ramp: one step a sample, every channel alike.
    method Scale(step: real, channels: seq<array<real>>, frames: nat)
      requires forall c <- channels :: frames <= c.Length
      requires forall i, j :: 0 <= i < j < |channels| ==> channels[i] != channels[j]
      modifies this`gain, set c <- channels
      ensures gain == Ramp(old(gain), step, frames)
      ensures forall c <- channels, k :: 0 <= k < c.Length ==>
        c[k] == if k < frames then old(c[k]) * Ramp(old(gain), step, k + 1) else old(c[k])
    {
      for i := 0 to frames
        invariant gain == Ramp(old(gain), step, i)
        invariant forall c <- channels, k :: 0 <= k < c.Length ==>
          c[k] == if k < i then old(c[k]) * Ramp(old(gain), step, k + 1) else old(c[k])
      {
        gain := Clamp(gain + step);
        ScaleSample(channels, i);
      }
    }

    method ScaleSample(channels: seq<array<real>>, i: nat)
      requires forall c <- channels :: i < c.Length
      requires forall i, j :: 0 <= i < j < |channels| ==> channels[i] != channels[j]
      modifies set c <- channels
      ensures forall c <- channels, k :: 0 <= k < c.Length ==>
        c[k] == if k == i then old(c[k]) * gain else old(c[k])
    {
      for channel := 0 to |channels|
        invariant forall j :: 0 <= j < |channels| ==>
          forall k :: 0 <= k < channels[j].Length ==>
            channels[j][k] == if k == i && j < channel then old(channels[j][k]) * gain else old(channels[j][k])
      {
        channels[channel][i] := channels[channel][i] * gain;
      }
    }
  }
}
