/** The ring buffer itself, proved equal to PacerModel operation by operation. */
module BlockPacers {
  import opened Basics
  import opened AudioFormat
  import opened PacerModel
  import opened RingWindow

  class BlockPacer {
    const options: Options
    const ring: array<Sample>
    var head: nat
    var size: nat
    var primed: bool
    var stats: Stats

    // Everything ever pushed, in order.
    ghost var stream: seq<Sample>

    ghost predicate Shape()
      reads this, ring
    {
      && options.target <= options.highWatermark
      && ring.Length == Capacity(options)
      && head < ring.Length
      && size <= ring.Length
    }

    ghost function Contents(): (s: seq<Sample>)
      requires Shape()
      reads this, ring
      ensures |s| == size
    {
      Window(ring[..], head, size)
    }

    ghost predicate Valid()
      reads this, ring
    {
      && Shape()
      && Frames(Contents()) <= options.highWatermark
      && Suffix(Contents(), stream)
    }

    ghost function Value(): Pacer
      requires Shape()
      reads this, ring
    {
      Pacer(options, Contents(), primed, stats)
    }

    constructor (asked: Options)
      ensures Valid() && fresh(ring)
      ensures Value() == Fresh(asked) && stream == []
    {
      options := Effective(asked);
      ring := new Sample[Capacity(asked)](_ => 0);
      head, size, primed := 0, 0, false;
      stats := Stats(0, 0, 0, 0);
      stream := [];
    }

    method Read() returns (sample: Sample)
      requires Shape() && 0 < size
      modifies this`head, this`size
      ensures Shape()
      ensures old(Contents()) == [sample] + Contents()
    {
      WindowDropsHead(ring[..], head, size);
      WrappedIsMod(head + 1, ring.Length);
      sample := ring[head];
      head := (head + 1) % ring.Length;
      size := size - 1;
    }

    method Write(sample: Sample)
      requires Shape()
      modifies this`head, this`size, this`stats, ring
      ensures Shape()
      ensures Contents() == Newest(old(Contents()) + [sample], ring.Length)
      ensures stats == old(stats).(dropped := old(stats).dropped + if old(size) == ring.Length then 1 else 0)
    {
      ghost var was := Contents();
      assert Newest(was + [sample], ring.Length)
          == (if size == ring.Length then was[1..] else was) + [sample];
      hide Newest;
      if size == ring.Length {
        var _ := Read();
        stats := stats.(dropped := stats.dropped + 1);
      }
      Put(sample);
    }

    // The unguarded half of `Write`.
    method Put(sample: Sample)
      requires Shape() && size < ring.Length
      modifies this`size, ring
      ensures Shape() && Contents() == old(Contents()) + [sample]
    {
      WindowGrows(ring[..], head, size, sample);
      WrappedIsMod(head + size, ring.Length);
      ring[(head + size) % ring.Length] := sample;
      size := size + 1;
    }

    method Trim()
      requires Shape()
      modifies this`head, this`size, this`stats
      ensures Shape()
      ensures Contents() == old(Contents()[Excess(options, Contents()) * CHANNELS..])
      ensures stats == old(stats.(dropped := stats.dropped + Excess(options, Contents())))
    {
      if size / CHANNELS <= options.highWatermark {
        return;
      }
      var excess := size / CHANNELS - options.target;
      for i := 0 to excess * CHANNELS
        invariant Shape()
        invariant Contents() == old(Contents())[i..]
        modifies this`head, this`size
      {
        var _ := Read();
      }
      stats := stats.(dropped := stats.dropped + excess);
    }

    // The write loop of a push.
    method WriteAll(interleaved: seq<Sample>)
      requires Shape()
      modifies this`head, this`size, this`stats, ring
      ensures Shape()
      ensures Contents() == Newest(old(Contents()) + interleaved, ring.Length)
      ensures stats == Dropping(old(stats), Overflow(options, old(Contents()) + interleaved))
    {
      ghost var was := Contents();
      assert was + interleaved[..0] == was;
      for i := 0 to |interleaved|
        invariant Shape()
        invariant Contents() == Newest(was + interleaved[..i], ring.Length)
        invariant stats == Dropping(old(stats), Overflow(options, was + interleaved[..i]))
      {
        hide Newest, Overflow;
        NewestGrows(options, was, interleaved[..i], interleaved[i]);
        assert interleaved[..i + 1] == interleaved[..i] + [interleaved[i]];
        Write(interleaved[i]);
      }
      assert interleaved[..|interleaved|] == interleaved;
    }

    method WriteSilence(samples: nat)
      requires Shape()
      modifies this`head, this`size, this`stats, ring
      ensures Shape()
      ensures Contents() == Newest(old(Contents()) + Silence(samples), ring.Length)
      ensures stats == Dropping(old(stats), Overflow(options, old(Contents()) + Silence(samples)))
    {
      ghost var was := Contents();
      assert was + Silence(0) == was;
      for i := 0 to samples
        invariant Shape()
        invariant Contents() == Newest(was + Silence(i), ring.Length)
        invariant stats == Dropping(old(stats), Overflow(options, was + Silence(i)))
      {
        hide Newest, Overflow;
        NewestGrows(options, was, Silence(i), 0);
        assert Silence(i + 1) == Silence(i) + [0];
        Write(0);
      }
    }

    method Push(interleaved: seq<Sample>)
      requires Valid()
      modifies this, ring
      ensures Valid()
      ensures Value() == PacerModel.Push(old(Value()), interleaved)
      ensures stream == old(stream) + interleaved
    {
      PushKeeps(Value(), interleaved, stream);
      hide Newest, Overflow, Excess, Suffix;
      WriteAll(interleaved);
      stats := stats.(pushed := stats.pushed + |interleaved| / CHANNELS);
      Trim();
      stream := stream + interleaved;
    }

    method PushSilence(frames: nat)
      requires Valid()
      modifies this, ring
      ensures Valid()
      ensures Value() == PacerModel.Push(old(Value()), Silence(frames * CHANNELS))
      ensures stream == old(stream) + Silence(frames * CHANNELS)
    {
      PushKeeps(Value(), Silence(frames * CHANNELS), stream);
      hide Newest, Overflow, Excess, Suffix;
      WriteSilence(frames * CHANNELS);
      stats := stats.(pushed := stats.pushed + frames);
      Trim();
      stream := stream + Silence(frames * CHANNELS);
    }

    method Take(block: array<Sample>) returns (captured: bool)
      requires Valid() && block != ring
      modifies this, block
      ensures Valid() && stream == old(stream)
      ensures captured == Ready(old(Value()))
      ensures Value() == PacerModel.Take(old(Value()), block.Length)
      ensures captured ==>
        block[..] == Overwritten(old(block[..]), old(Contents()))
      ensures !captured ==> block[..] == Silence(block.Length)
    {
      ghost var before := Value();
      stats := stats.(taken := stats.taken + 1);
      if !primed && options.prime <= size / CHANNELS {
        primed := true;
      }
      if !primed || size / CHANNELS < FRAMES_PER_BLOCK {
        primed := false;
        Fill(block);
        stats := stats.(silent := stats.silent + 1);
        return false;
      }
      Drain(block);
      TakeKeeps(before, block.Length, stream);
      return true;
    }

    method Drain(block: array<Sample>)
      requires Shape() && block != ring && SAMPLES_PER_BLOCK <= size
      modifies this`head, this`size, block
      ensures Shape()
      ensures Contents() == old(Contents())[Min(SAMPLES_PER_BLOCK, block.Length)..]
      ensures block[..] == Overwritten(old(block[..]), old(Contents()))
    {
      hide Window;
      ghost var was, room := Contents(), block[..];
      var i := 0;
      while i < SAMPLES_PER_BLOCK && i < block.Length
        invariant 0 <= i <= Min(SAMPLES_PER_BLOCK, block.Length)
        invariant Shape()
        invariant Contents() == was[i..]
        invariant forall k :: 0 <= k < i ==> block[k] == was[k]
        invariant forall k :: i <= k < block.Length ==> block[k] == room[k]
      {
        var sample := Read();
        assert sample == was[i] && Contents() == was[i + 1..];
        block[i] := sample;
        i := i + 1;
      }
    }

    static method Fill(block: array<Sample>)
      modifies block
      ensures block[..] == Silence(block.Length)
    {
      for i := 0 to block.Length
        invariant block[..i] == Silence(i)
      {
        block[i] := 0;
      }
    }

    method BufferedFrames() returns (frames: nat)
      requires Shape()
      ensures frames == Frames(Contents())
    {
      frames := size / CHANNELS;
    }

    method Clear()
      requires Valid()
      modifies this`head, this`size, this`primed
      ensures Valid() && stream == old(stream)
      ensures Value() == PacerModel.Clear(old(Value()))
    {
      head := 0;
      size := 0;
      primed := false;
    }
  }
}
