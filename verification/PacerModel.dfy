/**
 What one BlockPacer does to the samples it holds, as values.

 `Push`, `Take` and `Clear` are the operations as coded, bounded ring and drop counters included;
 the class in BlockPacer.dfy is proved equal to them. `Ideal` is the independent reference: a
 queue with no capacity at all, trimmed to its newest `target` frames whenever a push leaves it
 over the watermark.
 */
module PacerModel {
  import opened Basics
  import opened AudioFormat

  datatype Options = Options(highWatermark: nat, target: nat, prime: nat)

  datatype Stats = Stats(pushed: nat, dropped: nat, taken: nat, silent: nat)

  datatype Pacer = Pacer(options: Options, queue: seq<Sample>, primed: bool, stats: Stats)

  function Frames(queue: seq<Sample>): nat {
    |queue| / CHANNELS
  }

  function Capacity(options: Options): nat {
    (options.highWatermark + FRAMES_PER_BLOCK * 2) * CHANNELS
  }

  function Newest(s: seq<Sample>, n: nat): seq<Sample> {
    if |s| <= n then s else s[|s| - n..]
  }

  // The constructor's clamp: a trim can never aim above the watermark.
  function Effective(asked: Options): Options {
    asked.(target := Min(asked.target, asked.highWatermark))
  }

  function Fresh(asked: Options): Pacer {
    Pacer(Effective(asked), [], false, Stats(0, 0, 0, 0))
  }

  predicate Bounded(p: Pacer) {
    && p.options.target <= p.options.highWatermark
    && Frames(p.queue) <= p.options.highWatermark
  }

  function Excess(options: Options, queue: seq<Sample>): nat
    requires options.target <= options.highWatermark
  {
    if Frames(queue) <= options.highWatermark then 0 else Frames(queue) - options.target
  }

  function Overflow(options: Options, offered: seq<Sample>): nat {
    Max(0, |offered| - Capacity(options))
  }

  function Push(p: Pacer, samples: seq<Sample>): Pacer
    requires p.options.target <= p.options.highWatermark
  {
    var offered := p.queue + samples;
    var held := Newest(offered, Capacity(p.options));
    var excess := Excess(p.options, held);
    p.(queue := held[excess * CHANNELS..],
       stats := p.stats.(pushed := p.stats.pushed + |samples| / CHANNELS,
                         dropped := p.stats.dropped + Overflow(p.options, offered) + excess))
  }

  predicate Ready(p: Pacer) {
    && (p.primed || p.options.prime <= Frames(p.queue))
    && FRAMES_PER_BLOCK <= Frames(p.queue)
  }

  function Take(p: Pacer, room: nat): Pacer {
    var stats := p.stats.(taken := p.stats.taken + 1);
    if Ready(p) then
      p.(queue := p.queue[Min(SAMPLES_PER_BLOCK, room)..], primed := true, stats := stats)
    else
      p.(primed := false, stats := stats.(silent := stats.silent + 1))
  }

  function Clear(p: Pacer): Pacer {
    p.(queue := [], primed := false)
  }

  function Dropping(stats: Stats, frames: nat): Stats {
    stats.(dropped := stats.dropped + frames)
  }

  // A caller's buffer after one block has been copied over the front of it.
  function Overwritten(room: seq<Sample>, queue: seq<Sample>): (block: seq<Sample>)
    requires SAMPLES_PER_BLOCK <= |queue|
    ensures |block| == |room|
  {
    var n := Min(SAMPLES_PER_BLOCK, |room|);
    queue[..n] + room[n..]
  }

  predicate Suffix(queue: seq<Sample>, stream: seq<Sample>) {
    |queue| <= |stream| && stream[|stream| - |queue|..] == queue
  }

  // One `write` after another keeps the newest of everything offered, and counts what it drops.
  lemma {:induction false} NewestGrows(options: Options, was: seq<Sample>, added: seq<Sample>, sample: Sample)
    ensures var n, held := Capacity(options), Newest(was + added, Capacity(options));
      && Newest(held + [sample], n) == Newest(was + (added + [sample]), n)
      && Overflow(options, was + (added + [sample]))
      == Overflow(options, was + added) + if |held| == n then 1 else 0
  {
    assert was + (added + [sample]) == was + added + [sample];
  }

  // A push of any size leaves the queue under the watermark, and still the tail of the stream.
  lemma {:induction false} PushKeeps(p: Pacer, samples: seq<Sample>, stream: seq<Sample>)
    requires Bounded(p) && Suffix(p.queue, stream)
    ensures Bounded(Push(p, samples)) && Suffix(Push(p, samples).queue, stream + samples)
  {
    var offered := p.queue + samples;
    var held := Newest(offered, Capacity(p.options));
    assert (stream + samples)[|stream| - |p.queue|..] == offered;
    assert (stream + samples)[|stream + samples| - |held|..] == held;
    var kept := Push(p, samples).queue;
    assert kept == held[|held| - |kept|..];
    assert (stream + samples)[|stream + samples| - |kept|..] == kept;
  }

  lemma {:induction false} TakeKeeps(p: Pacer, room: nat, stream: seq<Sample>)
    requires Bounded(p) && Suffix(p.queue, stream)
    ensures Bounded(Take(p, room)) && Suffix(Take(p, room).queue, stream)
  {
    if Ready(p) {
      var n := Min(SAMPLES_PER_BLOCK, room);
      assert p.queue[n..] == stream[|stream| - |p.queue| + n..];
    }
  }
}
