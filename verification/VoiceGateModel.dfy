/** The envelope of the voice gate, sample by sample, with reals for the floats. */
module VoiceGateModel {
  function SamplesIn(ms: int, rate: int): (n: nat)
    ensures 1 <= n
  {
    var samples := ms * rate / 1000;
    if 0 < samples then samples else 1
  }

  datatype Timing = Timing(attackMs: int, holdMs: int, releaseMs: int)

  datatype Gate = Gate(hold: nat, attack: real, release: real, holdLeft: nat, gain: real, open: bool,
                       blocks: nat, closedBlocks: nat)

  function Fresh(timing: Timing, rate: int): Gate {
    Gate(SamplesIn(timing.holdMs, rate),
         1.0 / SamplesIn(timing.attackMs, rate) as real,
         1.0 / SamplesIn(timing.releaseMs, rate) as real,
         SamplesIn(timing.holdMs, rate), 1.0, true, 0, 0)
  }

  predicate Sound(g: Gate) {
    && 1 <= g.hold && 0.0 < g.attack <= 1.0 && 0.0 < g.release <= 1.0
    && g.holdLeft <= g.hold && 0.0 <= g.gain <= 1.0
  }

  lemma {:induction false} FreshIsSound(timing: Timing, rate: int)
    ensures Sound(Fresh(timing, rate))
  {
    OneOver(SamplesIn(timing.attackMs, rate));
    OneOver(SamplesIn(timing.releaseMs, rate));
  }

  lemma {:induction false} OneOver(n: nat)
    requires 1 <= n
    ensures 0.0 < 1.0 / n as real <= 1.0
    ensures (1.0 / n as real) * n as real == 1.0
  {
  }

  function Clamp(x: real): real {
    if x < 0.0 then 0.0 else if 1.0 < x then 1.0 else x
  }

  // The gain after n samples of the plain ramp.
  function Ramp(gain: real, step: real, n: nat): real {
    if n == 0 then gain else Clamp(Ramp(gain, step, n - 1) + step)
  }

  function HoldAfter(g: Gate, voiced: bool, frames: nat): nat {
    if voiced then g.hold else if frames < g.holdLeft then g.holdLeft - frames else 0
  }

  function OpenAfter(g: Gate, voiced: bool, frames: nat): bool {
    voiced || 0 < HoldAfter(g, voiced, frames)
  }

  // The step of the block's ramp: up while open, down while closed.
  function StepOf(g: Gate, voiced: bool, frames: nat): real {
    if OpenAfter(g, voiced, frames) then g.attack else -g.release
  }

  // One block through the plain ramp, with no short cuts.
  function Apply(g: Gate, voiced: bool, frames: nat): Gate {
    var open := OpenAfter(g, voiced, frames);
    g.(blocks := g.blocks + 1,
       holdLeft := HoldAfter(g, voiced, frames),
       open := open,
       closedBlocks := g.closedBlocks + (if open then 0 else 1),
       gain := Ramp(g.gain, StepOf(g, voiced, frames), frames))
  }

  // The gain heard at each sample of a block.
  function BlockGains(g: Gate, voiced: bool, frames: nat): (gains: seq<real>)
    ensures |gains| == frames
  {
    seq(frames, i requires 0 <= i < frames => Ramp(g.gain, StepOf(g, voiced, frames), i + 1))
  }

  // --- The ramp in closed form ------------------------------------------------------------

  lemma {:induction false} RampsUp(gain: real, step: real, n: nat)
    requires 0.0 <= gain <= 1.0 && 0.0 <= step
    ensures Ramp(gain, step, n) == if 1.0 < gain + n as real * step then 1.0 else gain + n as real * step
  {
    if n != 0 {
      RampsUp(gain, step, n - 1);
      assert n as real * step == (n - 1) as real * step + step;
    }
  }

  lemma {:induction false} RampsDown(gain: real, step: real, n: nat)
    requires 0.0 <= gain <= 1.0 && 0.0 <= step
    ensures Ramp(gain, -step, n) == if gain - n as real * step < 0.0 then 0.0 else gain - n as real * step
  {
    if n != 0 {
      RampsDown(gain, step, n - 1);
      assert n as real * step == (n - 1) as real * step + step;
    }
  }

  lemma {:induction false} RampStaysInRange(gain: real, step: real, n: nat)
    requires 0.0 <= gain <= 1.0
    ensures 0.0 <= Ramp(gain, step, n) <= 1.0
  {
    if n != 0 {
      RampStaysInRange(gain, step, n - 1);
    }
  }

  // Settled, a ramp goes nowhere: the short cuts skip work that would change nothing.
  lemma {:induction false} SettledRampIsFlat(gain: real, step: real, n: nat)
    requires (gain == 1.0 && 0.0 <= step) || (gain == 0.0 && step <= 0.0)
    ensures Ramp(gain, step, n) == gain
  {
    if n != 0 {
      SettledRampIsFlat(gain, step, n - 1);
    }
  }

  // Open at full gain or closed at none, a block has nothing to ramp.
  lemma {:induction false} SettledBlock(g: Gate, voiced: bool, frames: nat)
    requires Sound(g)
    requires if OpenAfter(g, voiced, frames) then 1.0 <= g.gain else g.gain <= 0.0
    ensures Apply(g, voiced, frames).gain == g.gain
    ensures forall i :: 0 <= i < frames ==> BlockGains(g, voiced, frames)[i] == g.gain
    ensures g.gain == if OpenAfter(g, voiced, frames) then 1.0 else 0.0
  {
    var step := StepOf(g, voiced, frames);
    SettledRampIsFlat(g.gain, step, frames);
    forall i | 0 <= i < frames
      ensures BlockGains(g, voiced, frames)[i] == g.gain
    {
      SettledRampIsFlat(g.gain, step, i + 1);
    }
  }

  // A full attack's worth of voice opens the gate all the way, from wherever it was.
  lemma {:induction false} AttackOpensFully(timing: Timing, rate: int, gain: real, n: nat)
    requires 0.0 <= gain <= 1.0 && SamplesIn(timing.attackMs, rate) <= n
    ensures Ramp(gain, Fresh(timing, rate).attack, n) == 1.0
  {
    var samples, step := SamplesIn(timing.attackMs, rate) as real, Fresh(timing, rate).attack;
    OneOver(SamplesIn(timing.attackMs, rate));
    RampsUp(gain, step, n);
    assert step == 1.0 / samples && step * samples == 1.0;
    hide SamplesIn, Ramp, Fresh;
    AtLeast(samples, n as real, step);
    assert samples * step == 1.0;
    assert 1.0 <= n as real * step;
  }

  lemma {:induction false} AtLeast(a: real, b: real, step: real)
    requires a <= b && 0.0 <= step
    ensures a * step <= b * step
  {
  }

  // --- Runs -------------------------------------------------------------------------------

  datatype Block = Block(voiced: bool, frames: nat)

  function Run(g: Gate, blocks: seq<Block>): Gate {
    if blocks == [] then g
    else
      var last := blocks[|blocks| - 1];
      Apply(Run(g, blocks[..|blocks| - 1]), last.voiced, last.frames)
  }

  // Samples heard since the last block with a voice in it, or since the start.
  function Unvoiced(blocks: seq<Block>): nat {
    if blocks == [] || blocks[|blocks| - 1].voiced then 0
    else Unvoiced(blocks[..|blocks| - 1]) + blocks[|blocks| - 1].frames
  }

  function Gains(g: Gate, blocks: seq<Block>): seq<real> {
    if blocks == [] then []
    else
      var last := blocks[|blocks| - 1];
      Gains(g, blocks[..|blocks| - 1]) + BlockGains(Run(g, blocks[..|blocks| - 1]), last.voiced, last.frames)
  }

  lemma {:induction false} RunIsSound(g: Gate, blocks: seq<Block>)
    requires Sound(g)
    ensures var r := Run(g, blocks);
      Sound(r) && r.hold == g.hold && r.attack == g.attack && r.release == g.release
  {
    if blocks != [] {
      var earlier, last := blocks[..|blocks| - 1], blocks[|blocks| - 1];
      RunIsSound(g, earlier);
      var r := Run(g, earlier);
      RampStaysInRange(r.gain, StepOf(r, last.voiced, last.frames), last.frames);
    }
  }

  // The gate is open exactly while the silence since the last voice is shorter than the hold.
  lemma {:induction false} OpenExactlyWithinTheHold(timing: Timing, rate: int, blocks: seq<Block>)
    ensures var g := Run(Fresh(timing, rate), blocks);
      && (g.open <==> Unvoiced(blocks) < SamplesIn(timing.holdMs, rate))
      && g.holdLeft == (if Unvoiced(blocks) < g.hold then g.hold - Unvoiced(blocks) else 0)
      && g.hold == SamplesIn(timing.holdMs, rate)
  {
    if blocks != [] {
      OpenExactlyWithinTheHold(timing, rate, blocks[..|blocks| - 1]);
      hide Ramp, SamplesIn;
    }
  }

  // From one sample to the next the gain moves by at most one step, within a block or across two.
  function Before(gains: seq<real>, from: real, i: nat): real
    requires i <= |gains|
  {
    if i == 0 then from else gains[i - 1]
  }

  ghost predicate Smooth(gains: seq<real>, from: real, attack: real, release: real) {
    && (forall i :: 0 <= i < |gains| ==> 0.0 <= gains[i] <= 1.0)
    && (forall i :: 0 <= i < |gains| ==>
          Before(gains, from, i) - release <= gains[i] <= Before(gains, from, i) + attack)
  }

  function LastOr(gains: seq<real>, otherwise: real): real {
    if gains == [] then otherwise else gains[|gains| - 1]
  }

  lemma {:induction false} OneSample(gain: real, step: real, i: nat)
    ensures Ramp(gain, step, i + 1) == Clamp(Ramp(gain, step, i) + step)
  {
  }

  lemma {:induction false} BlockIsSmooth(g: Gate, voiced: bool, frames: nat)
    requires Sound(g)
    ensures var gains := BlockGains(g, voiced, frames);
      Smooth(gains, g.gain, g.attack, g.release) && LastOr(gains, g.gain) == Apply(g, voiced, frames).gain
  {
    var step, gains := StepOf(g, voiced, frames), BlockGains(g, voiced, frames);
    forall i | 0 <= i < frames
      ensures 0.0 <= gains[i] <= 1.0
      ensures Ramp(g.gain, step, i) - g.release <= gains[i] <= Ramp(g.gain, step, i) + g.attack
    {
      RampStaysInRange(g.gain, step, i);
      OneSample(g.gain, step, i);
      assert gains[i] == Ramp(g.gain, step, i + 1);
      assert -g.release <= step <= g.attack;
    }
    assert Ramp(g.gain, step, 0) == g.gain;
  }

  lemma {:induction false} SmoothJoin(first: seq<real>, second: seq<real>, from: real, attack: real, release: real)
    requires Smooth(first, from, attack, release) && Smooth(second, LastOr(first, from), attack, release)
    ensures Smooth(first + second, from, attack, release)
    ensures LastOr(first + second, from) == LastOr(second, LastOr(first, from))
  {
    var both := first + second;
    forall i | 0 <= i < |both|
      ensures 0.0 <= both[i] <= 1.0
      ensures Before(both, from, i) - release <= both[i] <= Before(both, from, i) + attack
    {
      if |first| <= i {
        assert both[i] == second[i - |first|];
        assert Before(both, from, i) == Before(second, LastOr(first, from), i - |first|);
      } else {
        assert both[i] == first[i];
        assert Before(both, from, i) == Before(first, from, i);
      }
    }
  }

  lemma {:induction false} GainNeverJumps(g: Gate, blocks: seq<Block>)
    requires Sound(g)
    ensures Smooth(Gains(g, blocks), g.gain, g.attack, g.release)
    ensures LastOr(Gains(g, blocks), g.gain) == Run(g, blocks).gain
  {
    if blocks != [] {
      var earlier, last := blocks[..|blocks| - 1], blocks[|blocks| - 1];
      GainNeverJumps(g, earlier);
      RunIsSound(g, earlier);
      var r := Run(g, earlier);
      BlockIsSmooth(r, last.voiced, last.frames);
      hide Smooth, BlockGains, Apply;
      SmoothJoin(Gains(g, earlier), BlockGains(r, last.voiced, last.frames), g.gain, g.attack, g.release);
    }
  }

  // --- What a block does, on the voice, the hold and the steps alone ------------------------

  // Up to one while there is a voice, or silence shorter than what is left of the hold, and down to
  // nothing otherwise; the gain of sample k, counting from one.
  function GainAt(g: Gate, voiced: bool, frames: nat, k: nat): real {
    if voiced || frames < g.holdLeft then Raised(g.gain, g.attack, k) else Lowered(g.gain, g.release, k)
  }

  function Raised(gain: real, step: real, k: nat): real {
    AtMostOne(gain + k as real * step)
  }

  function Lowered(gain: real, step: real, k: nat): real {
    AtLeastNone(gain - k as real * step)
  }

  function AtMostOne(x: real): real {
    if x < 1.0 then x else 1.0
  }

  function AtLeastNone(x: real): real {
    if 0.0 < x then x else 0.0
  }

  lemma {:induction false} BlockFollowsTheVoice(g: Gate, voiced: bool, frames: nat)
    requires Sound(g)
    ensures var n := Apply(g, voiced, frames);
      && n.gain == GainAt(g, voiced, frames, frames)
      && (n.open <==> voiced || frames < g.holdLeft)
      && n.holdLeft == (if voiced then g.hold else if frames < g.holdLeft then g.holdLeft - frames else 0)
      && n.blocks == g.blocks + 1 && n.closedBlocks == g.closedBlocks + (if n.open then 0 else 1)
      && n == g.(gain := n.gain, open := n.open, holdLeft := n.holdLeft, blocks := n.blocks, closedBlocks := n.closedBlocks)
    ensures forall k :: 0 <= k < frames ==> BlockGains(g, voiced, frames)[k] == GainAt(g, voiced, frames, k + 1)
  {
    GainIsAt(g, voiced, frames, frames);
    forall k | 0 <= k < frames
      ensures BlockGains(g, voiced, frames)[k] == GainAt(g, voiced, frames, k + 1)
    {
      GainIsAt(g, voiced, frames, k + 1);
      hide GainAt, Ramp, StepOf;
    }
    hide GainAt, Ramp, StepOf;
  }

  lemma {:induction false} GainIsAt(g: Gate, voiced: bool, frames: nat, k: nat)
    requires Sound(g)
    ensures Ramp(g.gain, StepOf(g, voiced, frames), k) == GainAt(g, voiced, frames, k)
  {
    if voiced || frames < g.holdLeft {
      assert StepOf(g, voiced, frames) == g.attack;
      RampsUp(g.gain, g.attack, k);
    } else {
      assert StepOf(g, voiced, frames) == -g.release;
      RampsDown(g.gain, g.release, k);
    }
    hide Ramp, StepOf;
  }

  lemma {:induction false} SamplesInMs(ms: int, rate: int)
    ensures var n := SamplesIn(ms, rate);
      if ms * rate < 1000 then n == 1 else 1000 * n <= ms * rate < 1000 * n + 1000
  {
  }

  // A gate starts open, at full gain, with a whole hold before it and a step for each sample of its
  // attack and release.
  lemma {:induction false} FreshIs(timing: Timing, rate: int)
    ensures var g := Fresh(timing, rate);
      && g.open && g.gain == 1.0 && g.hold == g.holdLeft == SamplesIn(timing.holdMs, rate)
      && g.attack * SamplesIn(timing.attackMs, rate) as real == 1.0
      && g.release * SamplesIn(timing.releaseMs, rate) as real == 1.0
      && g.blocks == 0 && g.closedBlocks == 0
  {
    OneOver(SamplesIn(timing.attackMs, rate));
    OneOver(SamplesIn(timing.releaseMs, rate));
  }

  function Length(blocks: seq<Block>): nat {
    if blocks == [] then 0 else Length(blocks[..|blocks| - 1]) + blocks[|blocks| - 1].frames
  }

  // With the hold used up, silence takes the gain down by a release step a sample.
  lemma {:induction false} SilenceCloses(g: Gate, blocks: seq<Block>)
    requires Sound(g) && g.holdLeft == 0 && forall b <- blocks :: !b.voiced
    ensures var n := Run(g, blocks);
      && n.holdLeft == 0
      && n.gain == Lowered(g.gain, g.release, Length(blocks))
  {
    if blocks != [] {
      var earlier, last := blocks[..|blocks| - 1], blocks[|blocks| - 1];
      SilenceCloses(g, earlier);
      RunIsSound(g, earlier);
      assert !last.voiced;
      var r := Run(g, earlier);
      assert Run(g, blocks) == Apply(r, false, last.frames);
      hide Apply, Run, Raised, Lowered, Sound;
      BlockFollowsTheVoice(r, false, last.frames);
      LoweredTwice(g.gain, g.release, Length(earlier), last.frames);
    }
  }

  // And a voice takes it up by an attack step a sample.
  lemma {:induction false} VoiceOpens(g: Gate, blocks: seq<Block>)
    requires Sound(g) && forall b <- blocks :: b.voiced
    ensures var n := Run(g, blocks);
      n.gain == Raised(g.gain, g.attack, Length(blocks))
  {
    if blocks != [] {
      var earlier, last := blocks[..|blocks| - 1], blocks[|blocks| - 1];
      VoiceOpens(g, earlier);
      RunIsSound(g, earlier);
      assert last.voiced;
      var r := Run(g, earlier);
      assert Run(g, blocks) == Apply(r, true, last.frames);
      hide Apply, Run, Raised, Lowered, Sound;
      BlockFollowsTheVoice(r, true, last.frames);
      RaisedTwice(g.gain, g.attack, Length(earlier), last.frames);
    }
  }

  lemma {:induction false} LoweredTwice(gain: real, step: real, a: nat, b: nat)
    requires 0.0 < step
    ensures Lowered(Lowered(gain, step, a), step, b) == Lowered(gain, step, a + b)
  {
    Distributes(a, b, step);
    var x, y := a as real * step, b as real * step;
    assert AtLeastNone(AtLeastNone(gain - x) - y) == AtLeastNone(gain - (x + y));
    hide AtLeastNone;
  }

  lemma {:induction false} RaisedTwice(gain: real, step: real, a: nat, b: nat)
    requires 0.0 < step
    ensures Raised(Raised(gain, step, a), step, b) == Raised(gain, step, a + b)
  {
    Distributes(a, b, step);
    var x, y := a as real * step, b as real * step;
    assert AtMostOne(AtMostOne(gain + x) + y) == AtMostOne(gain + (x + y));
    hide AtMostOne;
  }

  lemma {:induction false} Distributes(a: nat, b: nat, step: real)
    requires 0.0 < step
    ensures (a + b) as real * step == a as real * step + b as real * step
    ensures 0.0 <= b as real * step
  {
  }

  // Once the hold is over, a release's worth of samples with no voice in them ends in silence.
  lemma {:induction false} ReleaseSilences(timing: Timing, rate: int, before: seq<Block>, after: seq<Block>)
    requires SamplesIn(timing.holdMs, rate) <= Unvoiced(before)
    requires forall b <- after :: !b.voiced
    requires SamplesIn(timing.releaseMs, rate) <= Length(after)
    ensures Run(Fresh(timing, rate), before + after).gain == 0.0
  {
    var start := Fresh(timing, rate);
    FreshIsSound(timing, rate);
    ReleaseSpans(timing, rate);
    OpenExactlyWithinTheHold(timing, rate, before);
    RunIsSound(start, before);
    RunsJoin(start, before, after);
    var g, n, length := Run(start, before), SamplesIn(timing.releaseMs, rate), Length(after);
    hide Run, Fresh, SamplesIn, Unvoiced, Length, Lowered, Spans;
    assert g.holdLeft == 0 && g.gain <= 1.0 && 0.0 < g.release && g.release == start.release;
    SilenceCloses(g, after);
    LoweredAway(g.gain, g.release, n, length);
    hide *;
  }

  // That many steps lead from one end of the gain to the other.
  predicate Spans(step: real, n: nat) {
    step * n as real == 1.0
  }

  lemma {:induction false} ReleaseSpans(timing: Timing, rate: int)
    ensures Spans(Fresh(timing, rate).release, SamplesIn(timing.releaseMs, rate))
  {
    OneOver(SamplesIn(timing.releaseMs, rate));
  }

  lemma {:induction false} LoweredAway(gain: real, step: real, n: nat, k: nat)
    requires gain <= 1.0 && 0.0 < step && Spans(step, n) && n <= k
    ensures Lowered(gain, step, k) == 0.0
  {
    var whole := k as real * step;
    assert 1.0 <= whole by {
      AtLeast(n as real, k as real, step);
      assert n as real * step == step * n as real;
    }
    hide AtLeastNone;
    assert AtLeastNone(gain - whole) == 0.0 by {
      NoneLeft(gain - whole);
    }
  }

  lemma {:induction false} NoneLeft(x: real)
    requires x <= 0.0
    ensures AtLeastNone(x) == 0.0
  {
  }

  lemma {:induction false} RunsJoin(g: Gate, before: seq<Block>, after: seq<Block>)
    ensures Run(g, before + after) == Run(Run(g, before), after)
  {
    hide Apply;
    if after == [] {
      assert before + after == before;
    } else {
      var both := before + after;
      assert both[..|both| - 1] == before + after[..|after| - 1];
      RunsJoin(g, before, after[..|after| - 1]);
    }
  }
}
