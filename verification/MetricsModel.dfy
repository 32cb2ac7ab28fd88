/** The window of call readings, and the rates read off running totals. Reals for the doubles. */
module MetricsModel {
  import opened Basics

  // The running totals of one reading.
  datatype Totals = Totals(lost: nat, received: nat, concealed: nat, played: nat, delay: real, emitted: nat)

  // What a sample shows as it was read.
  datatype Direct = Direct(roundTrip: real, jitter: real, send: real, receive: real)

  // The first reading of a process has no interval behind it, and so no processor share.
  datatype Usage = Usage(cpu: Option<real>, residentBytes: nat)

  datatype Reading = Reading(at: real, totals: Totals, direct: Direct, usage: Option<Usage>)

  datatype Sample = Sample(
    at: real,
    direct: Direct,
    cpu: Option<real>,
    memoryMb: Option<real>,
    loss: real,
    concealment: real,
    buffer: real)

  const BYTES_PER_MEGABYTE := 1048576

  datatype History = History(window: real, samples: seq<Sample>, measured: bool, last: Totals)

  const ZERO := Totals(0, 0, 0, 0, 0.0, 0)

  function Fresh(window: real): History {
    History(if 0.0 < window then window else 1.0, [], false, ZERO)
  }

  // A counter lower than before means a new call has begun counting from nothing.
  predicate Restarted(last: Totals, now: Totals) {
    || now.lost < last.lost || now.received < last.received || now.concealed < last.concealed
    || now.played < last.played || now.emitted < last.emitted
  }

  function Expected(last: Totals, now: Totals): nat
    requires !Restarted(last, now)
  {
    (now.lost - last.lost) + (now.received - last.received)
  }

  // A part of a whole in percent, and nothing when there was no whole.
  function Percent(part: nat, whole: nat): real {
    if whole == 0 then 0.0 else 100.0 * part as real / whole as real
  }

  function BufferMs(last: Totals, now: Totals): real
    requires !Restarted(last, now)
  {
    var emitted, waited := now.emitted - last.emitted, now.delay - last.delay;
    if 0 < emitted && 0.0 <= waited then 1000.0 * waited / emitted as real else 0.0
  }

  function AsRead(r: Reading): Sample {
    Sample(r.at, r.direct,
           if r.usage.None? then None else r.usage.value.cpu,
           if r.usage.None? then None else Some(r.usage.value.residentBytes as real / BYTES_PER_MEGABYTE as real),
           0.0, 0.0, 0.0)
  }

  function SampleOf(measured: bool, last: Totals, r: Reading): Sample {
    var now := r.totals;
    if measured && !Restarted(last, now) then
      AsRead(r).(loss := Percent(now.lost - last.lost, Expected(last, now)),
                 concealment := Percent(now.concealed - last.concealed, now.played - last.played),
                 buffer := BufferMs(last, now))
    else AsRead(r)
  }

  // The samples left once the oldest, up to the first that is young enough, are dropped.
  function Recent(samples: seq<Sample>, since: real): (kept: seq<Sample>)
    ensures |kept| <= |samples|
  {
    if samples == [] || since <= samples[0].at then samples else Recent(samples[1..], since)
  }

  function Observe(h: History, r: Reading): History {
    h.(samples := Recent(h.samples + [SampleOf(h.measured, h.last, r)], r.at - h.window),
       measured := true, last := r.totals)
  }

  function Clear(h: History): History {
    h.(samples := [], measured := false, last := ZERO)
  }

  // --- Runs -------------------------------------------------------------------------------

  function Run(h: History, readings: seq<Reading>): History {
    if readings == [] then h
    else Observe(Run(h, readings[..|readings| - 1]), readings[|readings| - 1])
  }

  // Every sample ever made of a run of readings after a clear, kept or not.
  function Made(readings: seq<Reading>): (samples: seq<Sample>)
    ensures |samples| == |readings|
  {
    if readings == [] then []
    else Made(readings[..|readings| - 1]) + [MadeLast(readings)]
  }

  // The last reading's sample, measured against the one before it.
  function MadeLast(readings: seq<Reading>): Sample
    requires readings != []
  {
    var n := |readings|;
    if n == 1 then SampleOf(false, ZERO, readings[0])
    else SampleOf(true, readings[n - 2].totals, readings[n - 1])
  }

  predicate InOrder(readings: seq<Reading>) {
    forall i, j :: 0 <= i <= j < |readings| ==> readings[i].at <= readings[j].at
  }

  lemma {:induction false} MadeAt(readings: seq<Reading>, i: nat)
    requires i < |readings|
    ensures Made(readings)[i].at == readings[i].at && Made(readings)[i].direct == readings[i].direct
    ensures Made(readings)[i] == MadeLast(readings[..i + 1])
  {
    if i == |readings| - 1 {
      assert readings[..i + 1] == readings;
    } else {
      var earlier := readings[..|readings| - 1];
      MadeAt(earlier, i);
      assert earlier[..i + 1] == readings[..i + 1];
    }
  }

  // What is dropped is the oldest, all of it too old, up to the first that is not.
  lemma {:induction false} RecentIsATail(samples: seq<Sample>, since: real)
    ensures var kept := Recent(samples, since);
      && kept == samples[|samples| - |kept|..]
      && (kept != [] ==> since <= kept[0].at)
      && (forall i :: 0 <= i < |samples| - |kept| ==> samples[i].at < since)
  {
    if samples != [] && samples[0].at < since {
      var rest := samples[1..];
      RecentIsATail(rest, since);
      var n := |Recent(rest, since)|;
      assert rest[|rest| - n..] == samples[|samples| - n..];
      assert forall i :: 1 <= i < |samples| ==> samples[i] == rest[i - 1];
    }
  }

  // The state between readings: the counters of the last, and a tail of everything made.
  ghost predicate Follows(h: History, readings: seq<Reading>) {
    && (readings == [] ==> !h.measured && h.last == ZERO)
    && (readings != [] ==> h.measured && h.last == readings[|readings| - 1].totals)
    && |h.samples| <= |readings|
    && h.samples == Made(readings)[|readings| - |h.samples|..]
  }

  lemma {:induction false} ObserveFollows(h: History, earlier: seq<Reading>, r: Reading)
    requires Follows(h, earlier)
    ensures Follows(Observe(h, r), earlier + [r])
    ensures |Observe(h, r).samples| <= |h.samples| + 1
    ensures var from := |earlier| - |h.samples|;
      Observe(h, r).samples == Recent(Made(earlier + [r])[from..], r.at - h.window)
  {
    hide Recent, Made, SampleOf;
    var readings := earlier + [r];
    var all, from := Made(readings), |earlier| - |h.samples|;
    var kept := Recent(all[from..], r.at - h.window);
    assert Observe(h, r) == History(h.window, kept, true, r.totals) by {
      GrownIsATail(h, earlier, r);
    }
    assert |kept| <= |h.samples| + 1 && kept == all[|all| - |kept|..] by {
      RecentOfATail(all, from, r.at - h.window);
    }
    assert |all| == |readings| && readings[|readings| - 1] == r;
    FollowsFrom(History(h.window, kept, true, r.totals), readings);
    hide *;
  }

  lemma {:induction false} FollowsFrom(h: History, readings: seq<Reading>)
    requires readings != [] && h.measured && h.last == readings[|readings| - 1].totals
    requires |h.samples| <= |readings| && h.samples == Made(readings)[|readings| - |h.samples|..]
    ensures Follows(h, readings)
  {
    hide Made;
  }

  lemma {:induction false} RecentOfATail(all: seq<Sample>, from: nat, since: real)
    requires from <= |all|
    ensures var kept := Recent(all[from..], since);
      |kept| <= |all| - from && kept == all[|all| - |kept|..]
  {
    RecentIsATail(all[from..], since);
    TailOfTail(all, from, |Recent(all[from..], since)|);
    hide Recent;
  }

  lemma {:induction false} GrownIsATail(h: History, earlier: seq<Reading>, r: Reading)
    requires Follows(h, earlier)
    ensures h.samples + [SampleOf(h.measured, h.last, r)] == Made(earlier + [r])[|earlier| - |h.samples|..]
  {
    MadeGrows(h, earlier, r);
    TailGrows(Made(earlier), |earlier| - |h.samples|, SampleOf(h.measured, h.last, r));
    hide Made, SampleOf;
  }

  lemma {:induction false} MadeGrows(h: History, earlier: seq<Reading>, r: Reading)
    requires Follows(h, earlier)
    ensures Made(earlier + [r]) == Made(earlier) + [SampleOf(h.measured, h.last, r)]
  {
    var readings := earlier + [r];
    assert readings[..|readings| - 1] == earlier;
    assert readings[|readings| - 1] == r;
    assert earlier != [] ==> readings[|readings| - 2] == earlier[|earlier| - 1];
    hide SampleOf;
  }

  lemma {:induction false} TailGrows(all: seq<Sample>, from: nat, sample: Sample)
    requires from <= |all|
    ensures all[from..] + [sample] == (all + [sample])[from..]
  {
  }

  lemma {:induction false} TailOfTail(all: seq<Sample>, from: nat, n: nat)
    requires from <= |all| && n <= |all| - from
    ensures all[from..][|all[from..]| - n..] == all[|all| - n..]
  {
  }

  lemma {:induction false} RunFollows(window: real, readings: seq<Reading>)
    ensures Follows(Run(Fresh(window), readings), readings)
    ensures Run(Fresh(window), readings).window == Fresh(window).window
  {
    if readings != [] {
      var earlier := readings[..|readings| - 1];
      RunFollows(window, earlier);
      hide Follows;
      ObserveFollows(Run(Fresh(window), earlier), earlier, readings[|readings| - 1]);
      assert earlier + [readings[|readings| - 1]] == readings;
    }
  }

  // Which of a tail of samples are kept, by their place in the whole.
  lemma {:induction false} RecentByPlace(all: seq<Sample>, from: nat, since: real)
    requires from <= |all|
    ensures var n := |Recent(all[from..], since)|;
      && n <= |all| - from
      && (0 < n ==> since <= all[|all| - n].at)
      && (forall i :: from <= i < |all| - n ==> all[i].at < since)
  {
    var tail := all[from..];
    RecentIsATail(tail, since);
    var kept := Recent(tail, since);
    hide Recent;
    assert kept != [] ==> kept[0] == tail[|tail| - |kept|] == all[|all| - |kept|];
    forall i | from <= i < |all| - |kept|
      ensures all[i].at < since
    {
      assert tail[i - from] == all[i];
    }
  }

  // With time not running backwards, what is kept is exactly what is young enough.
  lemma {:induction false} KeepsExactlyTheWindow(window: real, readings: seq<Reading>, i: nat)
    requires InOrder(readings) && i < |readings|
    ensures var h := Run(Fresh(window), readings);
      && |h.samples| <= |readings|
      && (|readings| - |h.samples| <= i <==> readings[|readings| - 1].at - h.window <= readings[i].at)
  {
    hide Recent, Made, MadeLast, SampleOf, Observe;
    var earlier, r, n := readings[..|readings| - 1], readings[|readings| - 1], |readings|;
    var before := Run(Fresh(window), earlier);
    var h := Run(Fresh(window), readings);
    RunFollows(window, earlier);
    RunFollows(window, readings);
    var from, since := |earlier| - |before.samples|, r.at - before.window;
    assert h.samples == Recent(Made(readings)[from..], since) by {
      assert readings == earlier + [r];
      ObserveFollows(before, earlier, r);
    }
    hide Follows;
    RecentByPlace(Made(readings), from, since);
    MadeAt(readings, i);
    if n - |h.samples| <= i {
      MadeAt(readings, n - |h.samples|);
    } else if i < from {
      KeepsExactlyTheWindow(window, earlier, i);
    }
  }

  datatype Op = Observed(reading: Reading) | Cleared

  function RunOps(h: History, ops: seq<Op>): History {
    if ops == [] then h
    else
      var before := RunOps(h, ops[..|ops| - 1]);
      match ops[|ops| - 1]
      case Observed(r) => Observe(before, r)
      case Cleared => Clear(before)
  }

  function SinceClear(ops: seq<Op>): seq<Reading> {
    if ops == [] || ops[|ops| - 1].Cleared? then []
    else SinceClear(ops[..|ops| - 1]) + [ops[|ops| - 1].reading]
  }

  // A clear leaves no trace: only the readings since then matter.
  lemma {:induction false} ClearForgetsEverything(window: real, ops: seq<Op>)
    ensures RunOps(Fresh(window), ops) == Run(Fresh(window), SinceClear(ops))
  {
    if ops != [] {
      var earlier := ops[..|ops| - 1];
      ClearForgetsEverything(window, earlier);
      RunFollows(window, SinceClear(earlier));
      if ops[|ops| - 1].Observed? {
        assert SinceClear(ops)[..|SinceClear(earlier)|] == SinceClear(earlier);
      }
      hide Observe, Follows;
    }
  }

  // --- Rates add up to totals ---------------------------------------------------------------

  predicate NoRestarts(readings: seq<Reading>) {
    forall i :: 0 < i < |readings| ==> Grows(readings[i - 1].totals, readings[i].totals)
  }

  // No counter goes down.
  predicate Grows(last: Totals, now: Totals) {
    && last.lost <= now.lost && last.received <= now.received && last.concealed <= now.concealed
    && last.played <= now.played && last.emitted <= now.emitted
  }

  lemma {:induction false} PercentOfWhole(part: nat, whole: nat)
    ensures Percent(part, whole) * whole as real == if whole == 0 then 0.0 else 100.0 * part as real
  {
  }

  // Every packet that came, and every one that did not.
  function ExpectedOver(last: Totals, now: Totals): int {
    now.lost + now.received - last.lost - last.received
  }

  // Each loss figure times the packets it is a share of.
  function LossTimesExpected(readings: seq<Reading>): real
    requires NoRestarts(readings)
  {
    if |readings| <= 1 then 0.0
    else
      var n := |readings|;
      LossTimesExpected(readings[..n - 1])
      + MadeLast(readings).loss * ExpectedOver(readings[n - 2].totals, readings[n - 1].totals) as real
  }

  // Interval by interval the chart says no more and no less than the running total.
  lemma {:induction false} LossAddsUp(readings: seq<Reading>)
    requires readings != [] && NoRestarts(readings)
    ensures LossTimesExpected(readings)
         == 100.0 * (readings[|readings| - 1].totals.lost - readings[0].totals.lost) as real
  {
    var n := |readings|;
    if 1 < n {
      var last, now := readings[n - 2].totals, readings[n - 1].totals;
      LossAddsUp(readings[..n - 1]);
      PercentOfWhole(now.lost - last.lost, Expected(last, now));
    }
  }

  function ConcealmentTimesPlayed(readings: seq<Reading>): real
    requires NoRestarts(readings)
  {
    if |readings| <= 1 then 0.0
    else
      var n := |readings|;
      ConcealmentTimesPlayed(readings[..n - 1])
      + MadeLast(readings).concealment * (readings[n - 1].totals.played - readings[n - 2].totals.played) as real
  }

  // Samples concealed in intervals that played none, which no percentage can carry.
  function Unseen(readings: seq<Reading>): (n: nat)
    requires NoRestarts(readings)
  {
    if |readings| <= 1 then 0
    else
      var last, now := readings[|readings| - 2].totals, readings[|readings| - 1].totals;
      Unseen(readings[..|readings| - 1]) + if now.played == last.played then now.concealed - last.concealed else 0
  }

  predicate NothingConcealedUnplayed(readings: seq<Reading>) {
    forall i :: 0 < i < |readings| ==>
      readings[i].totals.played == readings[i - 1].totals.played ==>
      readings[i].totals.concealed == readings[i - 1].totals.concealed
  }

  lemma {:induction false} ConcealmentAddsUp(readings: seq<Reading>)
    requires readings != [] && NoRestarts(readings)
    ensures ConcealmentTimesPlayed(readings)
         == 100.0 * (readings[|readings| - 1].totals.concealed - readings[0].totals.concealed - Unseen(readings)) as real
    ensures Unseen(readings) == 0 <==> NothingConcealedUnplayed(readings)
  {
    var n := |readings|;
    if 1 < n {
      var last, now := readings[n - 2].totals, readings[n - 1].totals;
      ConcealmentAddsUp(readings[..n - 1]);
      PercentOfWhole(now.concealed - last.concealed, now.played - last.played);
    }
  }

  // The concealment figures add up too, exactly when no interval conceals without playing.
  lemma {:induction false} ConcealmentAddsUpExactlyWhen(readings: seq<Reading>)
    requires readings != [] && NoRestarts(readings)
    ensures ConcealmentTimesPlayed(readings)
         == 100.0 * (readings[|readings| - 1].totals.concealed - readings[0].totals.concealed) as real
       <==> NothingConcealedUnplayed(readings)
  {
    ConcealmentAddsUp(readings);
  }

  const CALM := Direct(0.0, 0.0, 0.0, 0.0)

  // Each buffer figure times the samples emitted over its interval.
  function BufferTimesEmitted(readings: seq<Reading>): real
    requires NoRestarts(readings)
  {
    if |readings| <= 1 then 0.0
    else
      var n := |readings|;
      BufferTimesEmitted(readings[..n - 1])
      + MadeLast(readings).buffer * (readings[n - 1].totals.emitted - readings[n - 2].totals.emitted) as real
  }

  // Delay that no figure carries: it grew with nothing emitted, or went down.
  function Uncarried(readings: seq<Reading>): real
    requires NoRestarts(readings)
  {
    if |readings| <= 1 then 0.0
    else
      var last, now := readings[|readings| - 2].totals, readings[|readings| - 1].totals;
      Uncarried(readings[..|readings| - 1])
      + if last.emitted == now.emitted || now.delay < last.delay then now.delay - last.delay else 0.0
  }

  lemma {:induction false} QuotientBack(part: real, whole: real)
    requires whole != 0.0
    ensures part / whole * whole == part
  {
  }

  lemma {:induction false} BufferOfOne(last: Totals, now: Totals)
    requires Grows(last, now)
    ensures BufferMs(last, now) * (now.emitted - last.emitted) as real
         == 1000.0 * if last.emitted == now.emitted || now.delay < last.delay then 0.0 else now.delay - last.delay
  {
    if last.emitted < now.emitted {
      QuotientBack(1000.0 * (now.delay - last.delay), (now.emitted - last.emitted) as real);
    }
  }

  // The buffer figures, in milliseconds, add up to the growth of the delay in seconds, but for what
  // none of them carries.
  lemma {:induction false} BufferAddsUp(readings: seq<Reading>)
    requires readings != [] && NoRestarts(readings)
    ensures BufferTimesEmitted(readings)
         == 1000.0 * (readings[|readings| - 1].totals.delay - readings[0].totals.delay - Uncarried(readings))
  {
    var n := |readings|;
    if 1 < n {
      var last, now := readings[n - 2].totals, readings[n - 1].totals;
      BufferAddsUp(readings[..n - 1]);
      BufferOfOne(last, now);
      assert MadeLast(readings).buffer == BufferMs(last, now);
      hide BufferMs, MadeLast, SampleOf;
    }
  }

  // The first reading, the first after a clear and the first after a counter went down show what
  // they read and no rates.
  lemma {:induction false} NothingToMeasureAgainst(measured: bool, last: Totals, r: Reading)
    requires !measured || !Grows(last, r.totals)
    ensures var s := SampleOf(measured, last, r);
      s.loss == 0.0 && s.concealment == 0.0 && s.buffer == 0.0
  {
  }

  // With nothing to take a share of there is no share.
  lemma {:induction false} NothingToShare(last: Totals, r: Reading)
    requires Grows(last, r.totals)
    ensures var s, now := SampleOf(true, last, r), r.totals;
      && (ExpectedOver(last, now) == 0 ==> s.loss == 0.0)
      && (now.played == last.played ==> s.concealment == 0.0)
      && (now.emitted == last.emitted || now.delay < last.delay ==> s.buffer == 0.0)
  {
  }

  // A history begins, and after a clear begins again, with no samples and nothing to measure
  // against; its window is the one asked for, or a millisecond when that is none.
  lemma {:induction false} BeginsWithNothing(window: real, h: History)
    ensures var f := Fresh(window);
      && f.samples == [] && !f.measured && f.last == Totals(0, 0, 0, 0, 0.0, 0)
      && (0.0 < window ==> f.window == window) && (window <= 0.0 ==> f.window == 1.0)
    ensures Clear(h) == h.(samples := [], measured := false, last := Totals(0, 0, 0, 0, 0.0, 0))
  {
  }

  // Every sample shows its reading's time, figures and, where it was taken, what the process used.
  lemma {:induction false} SampleShowsItsReading(measured: bool, last: Totals, r: Reading)
    ensures var s := SampleOf(measured, last, r);
      && s.at == r.at && s.direct == r.direct
      && (r.usage.None? ==> s.cpu == None && s.memoryMb == None)
      && (r.usage.Some? ==> s.cpu == r.usage.value.cpu && s.memoryMb.Some?
                            && s.memoryMb.value * 1048576.0 == r.usage.value.residentBytes as real)
  {
  }

  // Ten samples concealed while nothing was played: the figures add up to none.
  lemma {:induction false} ConcealedWithNothingPlayed()
    ensures var readings := [Reading(0.0, ZERO, CALM, None), Reading(1.0, ZERO.(concealed := 10), CALM, None)];
      && NoRestarts(readings)
      && ConcealmentTimesPlayed(readings) == 0.0
      && readings[1].totals.concealed - readings[0].totals.concealed == 10
  {
    var readings := [Reading(0.0, ZERO, CALM, None), Reading(1.0, ZERO.(concealed := 10), CALM, None)];
    assert ConcealmentTimesPlayed(readings[..1]) == 0.0;
  }
}
