/** The history as an object: a deque of samples and the totals they are measured against. */
module MetricsHistories {
  import opened Basics
  import opened MetricsModel

  class MetricsHistory {
    const windowMs: real
    var samples: seq<Sample>
    var measured: bool
    var last: Totals

    ghost function Value(): History
      reads this
    {
      History(windowMs, samples, measured, last)
    }

    constructor (window: real)
      ensures Value() == Fresh(window)
    {
      windowMs := if 0.0 < window then window else 1.0;
      samples, measured, last := [], false, ZERO;
    }

    // The sample of one reading: every subtraction is of a counter that did not go backwards.
    method Measure(r: Reading) returns (sample: Sample)
      ensures sample == SampleOf(measured, last, r)
    {
      var now := r.totals;
      sample := Sample(r.at, r.direct, None, None, 0.0, 0.0, 0.0);
      if r.usage.Some? {
        sample := sample.(cpu := r.usage.value.cpu,
                          memoryMb := Some(r.usage.value.residentBytes as real / BYTES_PER_MEGABYTE as real));
      }
      if measured && !Restarted(last, now) {
        var lost: nat := now.lost - last.lost;
        var received: nat := now.received - last.received;
        var expected := lost + received;
        if 0 < expected {
          sample := sample.(loss := 100.0 * lost as real / expected as real);
        }
        var concealed: nat := now.concealed - last.concealed;
        var played: nat := now.played - last.played;
        if 0 < played {
          sample := sample.(concealment := 100.0 * concealed as real / played as real);
        }
        var waited := now.delay - last.delay;
        var emitted: nat := now.emitted - last.emitted;
        if 0 < emitted && 0.0 <= waited {
          sample := sample.(buffer := 1000.0 * waited / emitted as real);
        }
      }
    }

    method Observe(r: Reading)
      modifies this
      ensures Value() == MetricsModel.Observe(old(Value()), r)
    {
      hide SampleOf;
      var sample := Measure(r);
      last, measured := r.totals, true;
      samples := samples + [sample];
      Trim(r.at - windowMs);
    }

    method Trim(since: real)
      modifies this`samples
      ensures samples == Recent(old(samples), since)
    {
      while samples != [] && samples[0].at < since
        invariant Recent(samples, since) == Recent(old(samples), since)
        decreases |samples|
      {
        samples := samples[1..];
      }
    }

    method Clear()
      modifies this
      ensures Value() == MetricsModel.Clear(old(Value()))
    {
      samples, measured, last := [], false, ZERO;
    }
  }
}
