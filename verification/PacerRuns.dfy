/** Whole runs of a BlockPacer: what every interleaving of pushes, takes and clears keeps. */
module PacerRuns {
  import opened Basics
  import opened AudioFormat
  import opened PacerModel

  datatype Op = Pushed(samples: seq<Sample>) | PushedSilence(frames: nat) | Taken(room: nat) | Cleared

  // What the pacer asks of its callers: whole frames in, and a block's room to fill.
  predicate WellFormed(op: Op) {
    && (op.Pushed? ==> |op.samples| % CHANNELS == 0)
    && (op.Taken? ==> SAMPLES_PER_BLOCK <= op.room)
  }

  predicate AllWellFormed(ops: seq<Op>) {
    forall op <- ops :: WellFormed(op)
  }

  function Incoming(op: Op): (samples: seq<Sample>) {
    match op
    case Pushed(samples) => samples
    case PushedSilence(frames) => Silence(frames * CHANNELS)
    case _ => []
  }

  /**
   A run's history. `captured` holds the real blocks in order and `starts` where each began in
   `stream`; `surplus` counts the samples `write` had to throw away itself, and `finished` the
   lengths of the runs of real blocks that a starve ended.
   */
  datatype Trace = Trace(
    pacer: Pacer,
    stream: seq<Sample>,
    returned: seq<bool>,
    captured: seq<seq<Sample>>,
    starts: seq<nat>,
    cleared: nat,
    surplus: nat,
    streak: nat,
    finished: seq<nat>)

  function Extend(t: Trace, op: Op): Trace
    requires Bounded(t.pacer) && Suffix(t.pacer.queue, t.stream)
  {
    var p := t.pacer;
    match op
    case Taken(room) =>
      if Ready(p) then
        t.(pacer := Take(p, room),
           returned := t.returned + [true],
           captured := t.captured + [p.queue[..SAMPLES_PER_BLOCK]],
           starts := t.starts + [|t.stream| - |p.queue|],
           streak := t.streak + 1)
      else
        t.(pacer := Take(p, room),
           returned := t.returned + [false],
           streak := 0,
           finished := if t.streak == 0 then t.finished else t.finished + [t.streak])
    case Cleared =>
      t.(pacer := Clear(p), cleared := t.cleared + Frames(p.queue), streak := 0)
    case _ =>
      t.(pacer := Push(p, Incoming(op)),
         stream := t.stream + Incoming(op),
         surplus := t.surplus + Overflow(p.options, p.queue + Incoming(op)))
  }

  function Run(asked: Options, ops: seq<Op>): (t: Trace)
    ensures Bounded(t.pacer) && Suffix(t.pacer.queue, t.stream)
  {
    if ops == [] then
      Trace(Fresh(asked), [], [], [], [], 0, 0, 0, [])
    else
      var before := Run(asked, ops[..|ops| - 1]);
      var op := ops[|ops| - 1];
      PushKeeps(before.pacer, Incoming(op), before.stream);
      TakeKeeps(before.pacer, if op.Taken? then op.room else 0, before.stream);
      Extend(before, op)
  }

  // --- The unbounded reference ----------------------------------------------------------

  datatype Ideal = Ideal(queue: seq<Sample>, primed: bool, returned: seq<bool>, captured: seq<seq<Sample>>)

  function IdealPush(options: Options, queue: seq<Sample>, samples: seq<Sample>): seq<Sample> {
    var all := queue + samples;
    if options.highWatermark < Frames(all) then Newest(all, options.target * CHANNELS) else all
  }

  function IdealExtend(options: Options, m: Ideal, op: Op): Ideal {
    match op
    case Taken(_) =>
      if (m.primed || options.prime <= Frames(m.queue)) && SAMPLES_PER_BLOCK <= |m.queue| then
        Ideal(m.queue[SAMPLES_PER_BLOCK..], true,
              m.returned + [true], m.captured + [m.queue[..SAMPLES_PER_BLOCK]])
      else
        m.(primed := false, returned := m.returned + [false])
    case Cleared => m.(queue := [], primed := false)
    case _ => m.(queue := IdealPush(options, m.queue, Incoming(op)))
  }

  function IdealRun(options: Options, ops: seq<Op>): Ideal {
    if ops == [] then Ideal([], false, [], [])
    else IdealExtend(options, IdealRun(options, ops[..|ops| - 1]), ops[|ops| - 1])
  }

  // A push that keeps n of the samples offered keeps the newest n, whichever rules shed the rest.
  lemma {:induction false} PushKeepsNewest(p: Pacer, samples: seq<Sample>)
    requires Bounded(p)
    ensures var offered, kept := p.queue + samples, Push(p, samples).queue;
      |kept| <= |offered| && kept == offered[|offered| - |kept|..]
  {
    var offered := p.queue + samples;
    var held := Newest(offered, Capacity(p.options));
    assert held == offered[|offered| - |held|..];
  }

  lemma {:induction false} PushedSize(p: Pacer, samples: seq<Sample>)
    requires Bounded(p) && |p.queue| % CHANNELS == 0 && |samples| % CHANNELS == 0
    ensures var q := |p.queue| + |samples|;
      |Push(p, samples).queue| == if p.options.highWatermark < q / 2 then p.options.target * 2 else q
  {
  }

  lemma {:induction false} PushIsIdeal(p: Pacer, samples: seq<Sample>)
    requires Bounded(p) && |p.queue| % CHANNELS == 0 && |samples| % CHANNELS == 0
    ensures Push(p, samples).queue == IdealPush(p.options, p.queue, samples)
    ensures |Push(p, samples).queue| % CHANNELS == 0
  {
    var offered, kept := p.queue + samples, Push(p, samples).queue;
    assert kept == offered[|offered| - |kept|..] by {
      PushKeepsNewest(p, samples);
    }
    PushedSize(p, samples);
    hide Push;
    assert |offered| == |p.queue| + |samples|;
    assert |kept| == |offered| ==> kept == offered;
  }

  ghost predicate Agrees(options: Options, t: Trace, m: Ideal) {
    && t.pacer.options == options && |t.pacer.queue| % CHANNELS == 0
    && t.pacer.queue == m.queue && t.pacer.primed == m.primed
    && t.returned == m.returned && t.captured == m.captured
  }

  lemma {:induction false} StepAgrees(options: Options, t: Trace, m: Ideal, op: Op)
    requires Bounded(t.pacer) && Suffix(t.pacer.queue, t.stream)
    requires Agrees(options, t, m) && WellFormed(op)
    ensures Agrees(options, Extend(t, op), IdealExtend(options, m, op))
  {
    if op.Pushed? || op.PushedSilence? {
      PushIsIdeal(t.pacer, Incoming(op));
    }
  }

  // The ring, for all its capacity and wrapping, hands out exactly what the unbounded queue does.
  lemma {:induction false} RingRefinesUnboundedQueue(asked: Options, ops: seq<Op>)
    requires AllWellFormed(ops)
    ensures Agrees(Effective(asked), Run(asked, ops), IdealRun(Effective(asked), ops))
  {
    hide Extend, IdealExtend;
    if ops != [] {
      var earlier, op := ops[..|ops| - 1], ops[|ops| - 1];
      RingRefinesUnboundedQueue(asked, earlier);
      assert WellFormed(op);
      StepAgrees(Effective(asked), Run(asked, earlier), IdealRun(Effective(asked), earlier), op);
    }
  }

  // --- Windows of the stream ------------------------------------------------------------

  // Real blocks are whole, in-order, non-overlapping cuts of what was pushed, each beginning on
  // a left sample: index i of a block and index i of its cut have the same parity.
  ghost predicate Windows(t: Trace) {
    && |t.starts| == |t.captured|
    && (forall i :: 0 <= i < |t.starts| ==>
          && t.starts[i] % CHANNELS == 0
          && t.starts[i] + SAMPLES_PER_BLOCK <= |t.stream| - |t.pacer.queue|
          && t.captured[i] == t.stream[t.starts[i]..t.starts[i] + SAMPLES_PER_BLOCK])
    && (forall i, j :: 0 <= i < j < |t.starts| ==> t.starts[i] + SAMPLES_PER_BLOCK <= t.starts[j])
  }

  lemma {:induction false} StepKeepsWindows(t: Trace, op: Op)
    requires Windows(t) && Bounded(t.pacer) && Suffix(t.pacer.queue, t.stream)
    requires Whole(t) && |t.pacer.queue| % CHANNELS == 0 && WellFormed(op)
    ensures Windows(Extend(t, op))
  {
    match op
    case Taken(room) => TakeKeepsWindows(t, room);
    case Cleared =>
    case _ => PushKeepsWindows(t, op);
  }

  lemma {:induction false} PushKeepsWindows(t: Trace, op: Op)
    requires Windows(t) && Bounded(t.pacer) && Suffix(t.pacer.queue, t.stream)
    requires op.Pushed? || op.PushedSilence?
    ensures Windows(Extend(t, op))
  {
    var next, samples := Extend(t, op), Incoming(op);
    assert |next.pacer.queue| <= |t.pacer.queue| + |samples| by {
      PushKeepsNewest(t.pacer, samples);
    }
    assert next.stream == t.stream + samples && next.starts == t.starts && next.captured == t.captured;
    hide Extend, Suffix, Bounded, Incoming;
    assert forall i :: 0 <= i < |t.starts| ==>
      next.stream[t.starts[i]..t.starts[i] + SAMPLES_PER_BLOCK]
      == t.stream[t.starts[i]..t.starts[i] + SAMPLES_PER_BLOCK];
  }

  lemma {:induction false} TakeKeepsWindows(t: Trace, room: nat)
    requires Windows(t) && Bounded(t.pacer) && Suffix(t.pacer.queue, t.stream)
    requires Whole(t) && |t.pacer.queue| % CHANNELS == 0 && SAMPLES_PER_BLOCK <= room
    ensures Windows(Extend(t, Taken(room)))
  {
    var gone := |t.stream| - |t.pacer.queue|;
    assert Ready(t.pacer) ==>
      t.pacer.queue[..SAMPLES_PER_BLOCK] == t.stream[gone..gone + SAMPLES_PER_BLOCK];
    hide Suffix, Bounded;
  }

  lemma {:induction false} BlocksAreWindowsOfTheStream(asked: Options, ops: seq<Op>)
    requires AllWellFormed(ops)
    ensures Windows(Run(asked, ops))
  {
    hide Extend;
    if ops != [] {
      var earlier, op := ops[..|ops| - 1], ops[|ops| - 1];
      BlocksAreWindowsOfTheStream(asked, earlier);
      RingRefinesUnboundedQueue(asked, earlier);
      WholeStream(asked, earlier);
      assert WellFormed(op);
      StepKeepsWindows(Run(asked, earlier), op);
    }
  }

  predicate Whole(t: Trace) {
    |t.stream| % CHANNELS == 0
  }

  lemma {:induction false} WholeStream(asked: Options, ops: seq<Op>)
    requires AllWellFormed(ops)
    ensures Whole(Run(asked, ops))
  {
    if ops != [] {
      hide Extend, Whole;
      var earlier, op := ops[..|ops| - 1], ops[|ops| - 1];
      WholeStream(asked, earlier);
      assert WellFormed(op);
      StreamStaysWhole(Run(asked, earlier), op);
    }
  }

  lemma {:induction false} StreamStaysWhole(t: Trace, op: Op)
    requires Bounded(t.pacer) && Suffix(t.pacer.queue, t.stream)
    requires Whole(t) && WellFormed(op)
    ensures Whole(Extend(t, op))
  {
    hide Push, Take, Ready, Suffix, Bounded;
    assert Extend(t, op).stream == t.stream + Incoming(op);
    hide Extend;
  }

  // --- Counters --------------------------------------------------------------------------

  function Takings(ops: seq<Op>): nat {
    if ops == [] then 0 else Takings(ops[..|ops| - 1]) + if ops[|ops| - 1].Taken? then 1 else 0
  }

  function Silences(returned: seq<bool>): nat {
    if returned == [] then 0 else Silences(returned[..|returned| - 1]) + if returned[|returned| - 1] then 0 else 1
  }

  ghost predicate Counted(t: Trace, takings: nat) {
    && t.pacer.stats.taken == |t.returned| == takings
    && t.pacer.stats.silent == Silences(t.returned)
    && t.pacer.stats.pushed == |t.stream| / 2
    && |t.captured| == |t.returned| - Silences(t.returned)
  }

  lemma {:induction false} StepCounts(t: Trace, op: Op, takings: nat)
    requires Bounded(t.pacer) && Suffix(t.pacer.queue, t.stream) && Whole(t) && WellFormed(op)
    requires Counted(t, takings)
    ensures Counted(Extend(t, op), takings + if op.Taken? then 1 else 0)
  {
    hide Newest, Excess, Overflow, Suffix, Bounded;
    if op.Taken? {
      assert forall b :: (t.returned + [b])[..|t.returned|] == t.returned;
    }
  }

  // Every take is counted as taken, every one that had nothing to give as silent, and every frame
  // that came as pushed.
  lemma {:induction false} CountersCount(asked: Options, ops: seq<Op>)
    requires AllWellFormed(ops)
    ensures Counted(Run(asked, ops), Takings(ops))
  {
    if ops != [] {
      hide Extend, Counted;
      var earlier, op := ops[..|ops| - 1], ops[|ops| - 1];
      CountersCount(asked, earlier);
      WholeStream(asked, earlier);
      assert WellFormed(op);
      StepCounts(Run(asked, earlier), op, Takings(earlier));
    }
  }

  // --- Conservation ---------------------------------------------------------------------

  predicate Conserved(t: Trace) {
    var s := t.pacer.stats;
    s.pushed == s.dropped + FRAMES_PER_BLOCK * (s.taken - s.silent) + Frames(t.pacer.queue) + t.cleared
  }

  // The guard of the branch in `write` that drops a sample: a push that fits never reaches it.
  predicate Fits(p: Pacer, op: Op) {
    Frames(p.queue) + Frames(Incoming(op)) <= p.options.highWatermark + 2 * FRAMES_PER_BLOCK
  }

  ghost predicate EveryPushFits(asked: Options, ops: seq<Op>) {
    forall i :: 0 <= i < |ops| ==> Fits(Run(asked, ops[..i]).pacer, ops[i])
  }

  // For any pushes at all: each sample `write` drops is half a frame counted as a whole one.
  predicate Accounted(t: Trace) {
    var s := t.pacer.stats;
    && s.silent <= s.taken
    && |t.pacer.queue| % CHANNELS == 0
    && 2 * s.pushed + t.surplus
    == 2 * (s.dropped + FRAMES_PER_BLOCK * (s.taken - s.silent) + Frames(t.pacer.queue) + t.cleared)
  }

  // What a push adds to each side of the books.
  lemma {:induction false} PushBalances(p: Pacer, samples: seq<Sample>) returns (excess: nat)
    requires Bounded(p)
    ensures var overflow := Overflow(p.options, p.queue + samples);
      && |Push(p, samples).queue| == |p.queue| + |samples| - overflow - CHANNELS * excess
      && Push(p, samples).stats == p.stats.(pushed := p.stats.pushed + |samples| / CHANNELS,
                                            dropped := p.stats.dropped + overflow + excess)
  {
    excess := Excess(p.options, Newest(p.queue + samples, Capacity(p.options)));
  }

  lemma {:induction false} StepAccounts(t: Trace, op: Op)
    requires Bounded(t.pacer) && Suffix(t.pacer.queue, t.stream) && Accounted(t) && WellFormed(op)
    ensures Accounted(Extend(t, op))
  {
    hide Suffix, Accounted;
    match op
    case Taken(room) => TakeAccounts(t, room);
    case Cleared => ClearAccounts(t);
    case _ => PushAccounts(t, op);
  }

  lemma {:induction false} TakeAccounts(t: Trace, room: nat)
    requires Bounded(t.pacer) && Suffix(t.pacer.queue, t.stream) && Accounted(t) && SAMPLES_PER_BLOCK <= room
    ensures Accounted(Extend(t, Taken(room)))
  {
    var p := t.pacer;
    assert Ready(p) ==> |Take(p, room).queue| == |p.queue| - SAMPLES_PER_BLOCK;
    hide Suffix, Bounded;
  }

  lemma {:induction false} ClearAccounts(t: Trace)
    requires Bounded(t.pacer) && Suffix(t.pacer.queue, t.stream) && Accounted(t)
    ensures Accounted(Extend(t, Cleared))
  {
    hide Suffix, Bounded;
  }

  lemma {:induction false} PushAccounts(t: Trace, op: Op)
    requires Bounded(t.pacer) && Suffix(t.pacer.queue, t.stream) && Accounted(t) && WellFormed(op)
    requires op.Pushed? || op.PushedSilence?
    ensures Accounted(Extend(t, op))
  {
    var p, samples, next := t.pacer, Incoming(op), Extend(t, op);
    var overflow := Overflow(p.options, p.queue + samples);
    var excess := PushBalances(p, samples);
    assert next.pacer == Push(p, samples) && next.cleared == t.cleared && next.surplus == t.surplus + overflow;
    assert |next.pacer.queue| % CHANNELS == 0 by {
      PushedSize(p, samples);
    }
    assert |samples| % CHANNELS == 0;
    hide Extend, Push, Overflow, Suffix, Bounded, Incoming;
  }

  lemma {:induction false} EveryFrameIsAccountedFor(asked: Options, ops: seq<Op>)
    requires AllWellFormed(ops)
    ensures Accounted(Run(asked, ops))
  {
    hide Extend;
    if ops != [] {
      var earlier, op := ops[..|ops| - 1], ops[|ops| - 1];
      EveryFrameIsAccountedFor(asked, earlier);
      assert WellFormed(op);
      StepAccounts(Run(asked, earlier), op);
    }
  }

  lemma {:induction false} StepSurplus(t: Trace, op: Op)
    requires Bounded(t.pacer) && Suffix(t.pacer.queue, t.stream)
    requires |t.pacer.queue| % CHANNELS == 0 && WellFormed(op)
    ensures t.surplus <= Extend(t, op).surplus
    ensures Extend(t, op).surplus == t.surplus <==> Fits(t.pacer, op)
  {
  }

  lemma {:induction false} FitsSoFar(asked: Options, ops: seq<Op>)
    requires ops != []
    ensures EveryPushFits(asked, ops) <==>
      EveryPushFits(asked, ops[..|ops| - 1]) && Fits(Run(asked, ops[..|ops| - 1]).pacer, ops[|ops| - 1])
  {
    hide Run, Fits;
    var earlier := ops[..|ops| - 1];
    assert forall i :: 0 <= i < |earlier| ==> earlier[..i] == ops[..i] && earlier[i] == ops[i];
  }

  lemma {:induction false} NoSurplusExactlyWhenPushesFit(asked: Options, ops: seq<Op>)
    requires AllWellFormed(ops)
    ensures Run(asked, ops).surplus == 0 <==> EveryPushFits(asked, ops)
  {
    hide Extend, Fits;
    if ops != [] {
      var earlier, op := ops[..|ops| - 1], ops[|ops| - 1];
      NoSurplusExactlyWhenPushesFit(asked, earlier);
      RingRefinesUnboundedQueue(asked, earlier);
      assert WellFormed(op);
      StepSurplus(Run(asked, earlier), op);
      FitsSoFar(asked, ops);
    }
  }

  // The counters add up exactly as long as no push is larger than the room left above it.
  lemma {:induction false} ConservedExactlyWhenPushesFit(asked: Options, ops: seq<Op>)
    requires AllWellFormed(ops)
    ensures Conserved(Run(asked, ops)) <==> EveryPushFits(asked, ops)
  {
    EveryFrameIsAccountedFor(asked, ops);
    NoSurplusExactlyWhenPushesFit(asked, ops);
  }

  lemma {:induction false} SmallPushesConserveFrames(asked: Options, ops: seq<Op>)
    requires AllWellFormed(ops)
    requires forall op <- ops :: Frames(Incoming(op)) <= 2 * FRAMES_PER_BLOCK
    ensures Conserved(Run(asked, ops))
  {
    forall i | 0 <= i < |ops|
      ensures Fits(Run(asked, ops[..i]).pacer, ops[i])
    {
    }
    ConservedExactlyWhenPushesFit(asked, ops);
  }

  lemma {:induction false} OversizedPushMiscounts()
    ensures var t := Run(Options(0, 0, 0), [PushedSilence(961)]);
      && t.pacer.stats == Stats(961, 962, 0, 0) && !Conserved(t)
  {
    var ops, t := [PushedSilence(961)], Run(Options(0, 0, 0), []);
    var excess := PushBalances(t.pacer, Silence(1922));
    PushedSize(t.pacer, Silence(1922));
    hide Push;
    assert ops[..0] == [];
    assert Run(Options(0, 0, 0), ops) == Extend(t, ops[0]);
  }

  // --- Priming --------------------------------------------------------------------------

  function Least(options: Options): nat {
    Min(options.prime / FRAMES_PER_BLOCK, options.target / FRAMES_PER_BLOCK + 1)
  }

  ghost predicate Streaks(t: Trace) {
    var o := t.pacer.options;
    && (t.pacer.primed <==> 0 < t.streak)
    && (0 < t.streak ==>
          || o.prime - FRAMES_PER_BLOCK * t.streak <= Frames(t.pacer.queue)
          || o.target - FRAMES_PER_BLOCK * (t.streak - 1) <= Frames(t.pacer.queue))
    && (forall i :: 0 <= i < |t.finished| ==> Least(o) <= t.finished[i])
  }

  lemma {:induction false} StepKeepsStreaks(t: Trace, op: Op)
    requires Bounded(t.pacer) && Suffix(t.pacer.queue, t.stream)
    requires |t.pacer.queue| % CHANNELS == 0 && WellFormed(op) && Streaks(t)
    ensures Streaks(Extend(t, op))
  {
    if op.Pushed? || op.PushedSilence? {
      PushIsIdeal(t.pacer, Incoming(op));
    }
  }

  lemma {:induction false} StreaksHold(asked: Options, ops: seq<Op>)
    requires AllWellFormed(ops)
    ensures Streaks(Run(asked, ops))
  {
    hide Extend;
    if ops != [] {
      var earlier, op := ops[..|ops| - 1], ops[|ops| - 1];
      StreaksHold(asked, earlier);
      RingRefinesUnboundedQueue(asked, earlier);
      assert WellFormed(op);
      StepKeepsStreaks(Run(asked, earlier), op);
    }
  }

  // Once audio starts it plays for at least this many blocks before a starve can stop it.
  lemma {:induction false} RealRunsAreLong(asked: Options, ops: seq<Op>, i: nat)
    requires AllWellFormed(ops)
    requires i < |Run(asked, ops).finished|
    ensures Least(Effective(asked)) <= Run(asked, ops).finished[i]
    ensures asked.prime <= Effective(asked).target ==>
      asked.prime / FRAMES_PER_BLOCK <= Run(asked, ops).finished[i]
  {
    StreaksHold(asked, ops);
    RingRefinesUnboundedQueue(asked, ops);
  }

  function Takes(n: nat): seq<Op> {
    seq(n, _ => Taken(SAMPLES_PER_BLOCK))
  }

  lemma {:induction false} DrainsInOrder(asked: Options, ops: seq<Op>, n: nat)
    requires AllWellFormed(ops)
    requires Run(asked, ops).pacer.primed
    requires FRAMES_PER_BLOCK * n <= Frames(Run(asked, ops).pacer.queue)
    ensures var t, t' := Run(asked, ops), Run(asked, ops + Takes(n));
      && t'.pacer.primed && t'.streak == t.streak + n && t'.finished == t.finished
      && Frames(t'.pacer.queue) == Frames(t.pacer.queue) - FRAMES_PER_BLOCK * n
  {
    hide Extend, Run, Suffix, Bounded;
    if n == 0 {
      assert ops + Takes(n) == ops;
    } else {
      DrainsInOrder(asked, ops, n - 1);
      BlockLeaves(Run(asked, ops + Takes(n - 1)));
      assert Run(asked, ops + Takes(n)) == Extend(Run(asked, ops + Takes(n - 1)), Taken(SAMPLES_PER_BLOCK)) by {
        OneMoreOp(asked, ops + Takes(n - 1), Taken(SAMPLES_PER_BLOCK));
        assert ops + Takes(n) == ops + Takes(n - 1) + [Taken(SAMPLES_PER_BLOCK)];
      }
    }
  }

  // Prime, take one block, and push past the watermark.
  function Overfilled(asked: Options): seq<Op> {
    [PushedSilence(asked.prime)] + [Taken(SAMPLES_PER_BLOCK)] + [PushedSilence(asked.highWatermark + 1)]
  }

  // A trim in the middle of a run can leave it one block and what `target` holds.
  function ShortestRun(asked: Options): seq<Op> {
    Overfilled(asked) + Takes(Effective(asked).target / FRAMES_PER_BLOCK + 1)
  }

  lemma {:induction false} OneMoreOp(asked: Options, ops: seq<Op>, op: Op)
    ensures Run(asked, ops + [op]) == Extend(Run(asked, ops), op)
  {
    assert (ops + [op])[..|ops|] == ops;
    hide Extend;
  }

  lemma {:induction false} OneBlock(asked: Options)
    requires FRAMES_PER_BLOCK <= asked.prime <= asked.highWatermark
    ensures var t := Run(asked, [PushedSilence(asked.prime)] + [Taken(SAMPLES_PER_BLOCK)]);
      && t.pacer.primed && t.streak == 1 && t.finished == [] && t.pacer.options == Effective(asked)
      && |t.pacer.queue| == (asked.prime - FRAMES_PER_BLOCK) * CHANNELS
  {
    var t0, first := Run(asked, []), [PushedSilence(asked.prime)];
    assert [] + first == first;
    hide Run, Extend, Suffix, Bounded;
    OneMoreOp(asked, [], first[0]);
    SilenceArrives(t0, asked.prime);
    OneMoreOp(asked, first, Taken(SAMPLES_PER_BLOCK));
    BlockLeaves(Run(asked, first));
  }

  lemma {:induction false} OneBlockThenTrim(asked: Options)
    requires FRAMES_PER_BLOCK <= asked.prime <= asked.highWatermark
    ensures var t := Run(asked, Overfilled(asked));
      && t.pacer.primed && t.streak == 1 && t.finished == []
      && Frames(t.pacer.queue) == Effective(asked).target
  {
    hide Run, Extend, Suffix, Bounded;
    OneBlock(asked);
    var ops := [PushedSilence(asked.prime)] + [Taken(SAMPLES_PER_BLOCK)];
    OneMoreOp(asked, ops, PushedSilence(asked.highWatermark + 1));
    SilenceArrives(Run(asked, ops), asked.highWatermark + 1);
  }

  lemma {:induction false} SilenceArrives(t: Trace, frames: nat)
    requires Bounded(t.pacer) && Suffix(t.pacer.queue, t.stream) && |t.pacer.queue| % CHANNELS == 0
    ensures var p, n := t.pacer, Extend(t, PushedSilence(frames));
      && n == t.(pacer := n.pacer, stream := n.stream, surplus := n.surplus)
      && n.pacer.options == p.options && n.pacer.primed == p.primed
      && |n.pacer.queue| == (if p.options.highWatermark < |p.queue| / 2 + frames then p.options.target * 2
                             else |p.queue| + frames * CHANNELS)
  {
    PushedSize(t.pacer, Silence(frames * CHANNELS));
    hide Suffix, Bounded;
  }

  lemma {:induction false} BlockLeaves(t: Trace)
    requires Bounded(t.pacer) && Suffix(t.pacer.queue, t.stream) && Ready(t.pacer)
    ensures var p, n := t.pacer, Extend(t, Taken(SAMPLES_PER_BLOCK));
      && n.pacer.primed && n.streak == t.streak + 1 && n.finished == t.finished
      && n.pacer.options == p.options && |n.pacer.queue| == |p.queue| - SAMPLES_PER_BLOCK
  {
    hide Suffix, Bounded;
  }

  lemma {:induction false} ShortestRunFinishes(asked: Options)
    requires FRAMES_PER_BLOCK <= asked.prime <= asked.highWatermark
    ensures AllWellFormed(ShortestRun(asked))
    ensures Run(asked, ShortestRun(asked)).finished == [Effective(asked).target / FRAMES_PER_BLOCK + 1]
  {
    hide Extend;
    var ops, n := Overfilled(asked), Effective(asked).target / FRAMES_PER_BLOCK;
    assert AllWellFormed(ops) && AllWellFormed(ShortestRun(asked));
    OneBlockThenTrim(asked);
    DrainsInOrder(asked, ops, n);
    StarveEndsRun(Run(asked, ops + Takes(n)));
    OneMoreOp(asked, ops + Takes(n), Taken(SAMPLES_PER_BLOCK));
    assert ShortestRun(asked) == ops + Takes(n) + [Taken(SAMPLES_PER_BLOCK)];
  }

  lemma {:induction false} StarveEndsRun(t: Trace)
    requires Bounded(t.pacer) && Suffix(t.pacer.queue, t.stream)
    requires 0 < t.streak && Frames(t.pacer.queue) < FRAMES_PER_BLOCK
    ensures Extend(t, Taken(SAMPLES_PER_BLOCK)).finished == t.finished + [t.streak]
  {
  }

  ghost predicate NeverStutters(asked: Options) {
    forall ops, i :: AllWellFormed(ops) && 0 <= i < |Run(asked, ops).finished| ==>
      asked.prime / FRAMES_PER_BLOCK <= Run(asked, ops).finished[i]
  }

  // A pacer holds its promise of `prime` worth of blocks exactly when a trim leaves enough of
  // them behind, or when the ring can never prime at all.
  lemma {:induction false} NeverStuttersExactlyWhen(asked: Options)
    ensures NeverStutters(asked) <==>
      || asked.highWatermark < asked.prime
      || asked.prime / FRAMES_PER_BLOCK <= Effective(asked).target / FRAMES_PER_BLOCK + 1
  {
    if asked.highWatermark < asked.prime {
      forall ops | AllWellFormed(ops)
        ensures Run(asked, ops).finished == []
      {
        NeverPrimes(asked, ops);
      }
    } else if asked.prime / FRAMES_PER_BLOCK <= Effective(asked).target / FRAMES_PER_BLOCK + 1 {
      forall ops, i | AllWellFormed(ops) && 0 <= i < |Run(asked, ops).finished|
        ensures asked.prime / FRAMES_PER_BLOCK <= Run(asked, ops).finished[i]
      {
        RealRunsAreLong(asked, ops, i);
      }
    } else {
      ShortestRunFinishes(asked);
      assert Run(asked, ShortestRun(asked)).finished[0] < asked.prime / FRAMES_PER_BLOCK;
    }
  }

  lemma {:induction false} NeverPrimes(asked: Options, ops: seq<Op>)
    requires AllWellFormed(ops) && asked.highWatermark < asked.prime
    ensures var t := Run(asked, ops);
      && t.captured == [] && t.finished == [] && !t.pacer.primed && t.streak == 0
  {
    hide Extend;
    if ops != [] {
      var earlier := ops[..|ops| - 1];
      NeverPrimes(asked, earlier);
      RingRefinesUnboundedQueue(asked, earlier);
      UnprimedStep(Run(asked, earlier), ops[|ops| - 1]);
    }
  }

  // After a silent block, or a clear, nothing real comes out until a take sees a primed ring.
  lemma {:induction false} SilentUntilPrimed(asked: Options, ops: seq<Op>, more: seq<Op>)
    requires AllWellFormed(ops + more)
    requires !Run(asked, ops).pacer.primed
    requires forall i :: 0 <= i < |more| && more[i].Taken? ==>
      Frames(Run(asked, ops + more[..i]).pacer.queue) < asked.prime
    ensures Run(asked, ops + more).captured == Run(asked, ops).captured
    ensures !Run(asked, ops + more).pacer.primed
  {
    hide Extend, Run;
    if more == [] {
      assert ops + more == ops;
    } else {
      var fewer, last := more[..|more| - 1], more[|more| - 1];
      assert AllWellFormed(ops + fewer) by {
        assert forall op :: op in ops + fewer ==> op in ops + more;
      }
      assert forall i :: 0 <= i < |fewer| ==> fewer[..i] == more[..i] && fewer[i] == more[i];
      SilentUntilPrimed(asked, ops, fewer);
      assert Run(asked, ops + fewer).pacer.options == Effective(asked) by {
        RingRefinesUnboundedQueue(asked, ops + fewer);
      }
      assert last.Taken? ==> Frames(Run(asked, ops + fewer).pacer.queue) < asked.prime;
      UnprimedStep(Run(asked, ops + fewer), last);
      assert Run(asked, ops + more) == Extend(Run(asked, ops + fewer), last) by {
        OneMoreOp(asked, ops + fewer, last);
        assert ops + more == ops + fewer + [last];
      }
      hide AllWellFormed, Bounded, Suffix;
    }
  }

  lemma {:induction false} UnprimedStep(t: Trace, op: Op)
    requires Bounded(t.pacer) && Suffix(t.pacer.queue, t.stream)
    requires !t.pacer.primed && (op.Taken? ==> Frames(t.pacer.queue) < t.pacer.options.prime)
    ensures !Extend(t, op).pacer.primed && Extend(t, op).captured == t.captured
    ensures t.streak == 0 ==> Extend(t, op).streak == 0 && Extend(t, op).finished == t.finished
  {
  }
}
