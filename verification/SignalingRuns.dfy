/** What every run of the signaling client keeps. */
module SignalingRuns {
  import opened Basics
  import Backoff
  import opened SignalingModel

  // --- Nonces -----------------------------------------------------------------------------

  lemma {:induction false} DigitsDiffer(m: nat, n: nat)
    requires Digits(m) == Digits(n)
    ensures m == n
    decreases m
  {
    var s, t := Digits(m), Digits(n);
    assert s[|s| - 1] == ('0' as int + m % 10) as char;
    assert t[|t| - 1] == ('0' as int + n % 10) as char;
    if 10 <= m && 10 <= n {
      assert s[..|s| - 1] == Digits(m / 10) && t[..|t| - 1] == Digits(n / 10);
      DigitsDiffer(m / 10, n / 10);
    }
  }

  // No two probes ever carry the same nonce, so a pong answers at most one of them.
  lemma {:induction false} NoncesAreNeverReused(m: nat, n: nat)
    ensures NonceOf(m) == NonceOf(n) <==> m == n
    ensures NonceOf(m) != ""
  {
    if NonceOf(m) == NonceOf(n) {
      assert NonceOf(m)[6..] == Digits(m) && NonceOf(n)[6..] == Digits(n);
      DigitsDiffer(m, n);
    }
  }

  // --- The invariant ----------------------------------------------------------------------

  predicate ProbeInFlight(c: Client) {
    && |c.log.probes| == c.probesSent
    && (c.nonce != "" ==>
          && 0 < c.probesSent && c.socket.Some?
          && c.nonce == NonceOf(c.probesSent)
          && c.log.probes[c.probesSent - 1] == Probe(c.socket.value, c.sentAt))
  }

  // The number times the probe its pong names, from that probe's own send, on the socket in hand.
  ghost predicate Times(c: Client, probe: nat) {
    && 1 <= probe <= |c.log.probes|
    && c.log.answer.Some? && c.socket.Some? && c.roundTrip.Some?
    && c.log.answer.value.nonce == NonceOf(probe)
    && c.log.probes[probe - 1].socket == c.socket.value
    && c.roundTrip.value == Milliseconds(c.log.answer.value.arrivedAt - c.log.probes[probe - 1].sentAt)
  }

  ghost predicate Measured(c: Client) {
    c.roundTrip.Some? ==> exists probe :: Times(c, probe)
  }

  predicate RetriesCounted(c: Client) {
    && 0 <= c.attempts
    && c.log.retries + (if c.retryAt.Some? then 1 else 0) <= c.attempts
    && (0 < c.options.maxAttempts ==> c.attempts <= c.options.maxAttempts)
    && c.attempts == (if !c.options.autoReconnect then 0
                      else if 0 < c.options.maxAttempts then Min(c.log.drops, c.options.maxAttempts)
                      else c.log.drops)
  }

  predicate Phases(c: Client) {
    && (c.socket.None? ==> c.state == Disconnected && !c.wanted && c.retryAt.None? && c.log.settled)
    && (c.socket.Some? ==>
          && c.wanted && c.state != Disconnected
          && c.socket.value + 1 == |c.log.addresses|
          && c.log.addresses[c.socket.value] == c.url
          && (c.state == Connecting <==> !c.log.heard)
          && (c.state == Connecting ==> (c.attempts == 0 <==> !c.log.settled))
          && (!c.log.settled ==> c.state == Connecting)
          && (c.retryAt.Some? ==> c.state == Reconnecting || c.state == Failed))
  }

  ghost predicate Invariant(c: Client) {
    ProbeInFlight(c) && Measured(c) && RetriesCounted(c) && Phases(c)
  }

  lemma {:induction false} NextKeepsProbes(c: Client, e: Event)
    requires Invariant(c)
    ensures ProbeInFlight(Next(c, e))
  {
    NoncesAreNeverReused(c.probesSent, c.probesSent);
    hide RetriesCounted, NonceOf, WaitFor;
  }

  lemma {:induction false} NextKeepsMeasured(c: Client, e: Event)
    requires Invariant(c)
    ensures Measured(Next(c, e))
  {
    hide RetriesCounted, NonceOf, WaitFor;
    var n := Next(c, e);
    if n.roundTrip.Some? {
      if e.Pong? && c.nonce != "" && e.nonce == c.nonce {
        assert Times(n, c.probesSent);
      } else {
        var probe :| Times(c, probe);
        assert Times(n, probe);
      }
    }
  }

  lemma {:induction false} NextKeepsCounts(c: Client, e: Event)
    requires Invariant(c)
    ensures RetriesCounted(Next(c, e))
  {
    hide ProbeInFlight, Measured, NonceOf, WaitFor;
  }

  lemma {:induction false} NextKeepsPhases(c: Client, e: Event)
    requires Invariant(c)
    ensures Phases(Next(c, e))
  {
    hide ProbeInFlight, Measured, NonceOf, WaitFor;
  }

  lemma {:induction false} NextKeepsInvariant(c: Client, e: Event)
    requires Invariant(c)
    ensures Invariant(Next(c, e))
  {
    NextKeepsProbes(c, e);
    NextKeepsMeasured(c, e);
    NextKeepsCounts(c, e);
    NextKeepsPhases(c, e);
    hide Next, ProbeInFlight, Measured, RetriesCounted, Phases;
  }

  lemma {:induction false} RunKeepsInvariant(options: Options, url: string, events: seq<Event>)
    ensures Invariant(Run(Fresh(options, url), events))
  {
    if events != [] {
      hide Next, Invariant;
      var earlier := events[..|events| - 1];
      RunKeepsInvariant(options, url, earlier);
      NextKeepsInvariant(Run(Fresh(options, url), earlier), events[|events| - 1]);
    }
  }

  // --- What it means ----------------------------------------------------------------------

  // A round trip on show always times one probe of ours, sent on this socket, and no other.
  lemma {:induction false} RoundTripTimesItsOwnProbe(options: Options, url: string, events: seq<Event>)
    returns (probe: nat)
    requires Run(Fresh(options, url), events).roundTrip.Some?
    ensures Times(Run(Fresh(options, url), events), probe)
    ensures forall other :: Times(Run(Fresh(options, url), events), other) ==> other == probe
  {
    var c := Run(Fresh(options, url), events);
    RunKeepsInvariant(options, url, events);
    probe :| Times(c, probe);
    forall other | Times(c, other)
      ensures other == probe
    {
      NoncesAreNeverReused(other, probe);
    }
  }

  // `is_attempting` is true exactly from a connect to its first open or drop.
  lemma {:induction false} AttemptingUntilSettled(options: Options, url: string, events: seq<Event>)
    ensures var c := Run(Fresh(options, url), events); IsAttempting(c) <==> !c.log.settled
  {
    RunKeepsInvariant(options, url, events);
  }

  lemma {:induction false} AddressStep(c: Client, e: Event)
    requires !e.Connect?
    ensures var n := Next(c, e);
      && n.url == c.url
      && (n.log.addresses == c.log.addresses || n.log.addresses == c.log.addresses + [c.url])
      && (!c.wanted && c.retryAt.None? ==>
            n.log.addresses == c.log.addresses && (c.socket.None? ==> !n.wanted && n.retryAt.None? && n.socket.None?))
  {
  }

  // From one connect to the next, whatever `set_url` says, every socket goes to the address that
  // connect adopted.
  lemma {:induction false} RetriesStayOnTheAddress(c: Client, events: seq<Event>)
    requires forall e <- events :: !e.Connect?
    ensures var d := Run(c, events);
      && d.url == c.url
      && c.log.addresses <= d.log.addresses
      && forall i :: |c.log.addresses| <= i < |d.log.addresses| ==> d.log.addresses[i] == c.url
  {
    if events != [] {
      hide Next;
      var earlier, e := events[..|events| - 1], events[|events| - 1];
      RetriesStayOnTheAddress(c, earlier);
      assert !e.Connect?;
      AddressStep(Run(c, earlier), e);
    }
  }

  // That address is the one last set before the connect, for its first socket and every retry.
  lemma {:induction false} ConnectAdoptsTheAddress(c: Client, events: seq<Event>)
    requires !Refuses(c) && forall e <- events :: !e.Connect?
    ensures var used := Run(Next(c, Connect), events).log.addresses;
      && c.log.addresses + [c.nextUrl] <= used
      && forall i :: |c.log.addresses| <= i < |used| ==> used[i] == c.nextUrl
  {
    var n := Next(c, Connect);
    assert n.url == c.nextUrl && n.log.addresses == c.log.addresses + [c.nextUrl];
    hide Next, Run;
    RetriesStayOnTheAddress(n, events);
  }

  // After a disconnect nothing opens, and nothing is measured, until somebody connects again.
  lemma {:induction false} NothingOpensAfterDisconnect(c: Client, events: seq<Event>)
    requires forall e <- events :: !e.Connect?
    ensures var d := Run(Next(c, Disconnect), events);
      && d.log.addresses == c.log.addresses
      && d.socket.None? && !d.wanted && d.retryAt.None?
  {
    if events != [] {
      hide Next;
      var earlier, e := events[..|events| - 1], events[|events| - 1];
      NothingOpensAfterDisconnect(c, earlier);
      assert !e.Connect?;
      AddressStep(Run(Next(c, Disconnect), earlier), e);
    }
  }

  // The k-th drop since an open waits the k-th delay, and a limit of N allows at most N retries.
  lemma {:induction false} KthDropWaitsTheKthDelay(options: Options, url: string, events: seq<Event>, now: int)
    ensures var c := Run(Fresh(options, url), events);
      var k := c.log.drops + 1;
      c.socket.Some? && MayRetry(c) ==>
        Next(c, Dropped(now)).retryAt == Some(now + Backoff.Delay(k, options.initialDelay, options.maxDelay))
    ensures 0 < options.maxAttempts ==> Run(Fresh(options, url), events).log.retries <= options.maxAttempts
  {
    RunKeepsInvariant(options, url, events);
    OptionsNeverChange(Fresh(options, url), events);
  }

  lemma {:induction false} OptionsNeverChange(c: Client, events: seq<Event>)
    ensures Run(c, events).options == c.options
  {
    if events != [] {
      OptionsNeverChange(c, events[..|events| - 1]);
    }
  }

  // Failed means over, with nothing scheduled, until a socket that has used its last attempt
  // reports a second drop before the retry it was given has fired.
  lemma {:induction false} FailedWithARetryPendingExactlyWhen(c: Client, e: Event)
    requires Invariant(c) && (c.state == Failed ==> c.retryAt.None?)
    ensures Next(c, e).state == Failed && Next(c, e).retryAt.Some? <==>
      e.Dropped? && c.retryAt.Some? && !MayRetry(c)
  {
    hide ProbeInFlight, Measured, RetriesCounted;
  }

  const ONE_ATTEMPT := Options(true, 1000, 8000, 1)

  const DROPPED_TWICE := [Connect, Dropped(0), Dropped(1)]

  // One attempt allowed, and a socket that reports its failure twice: over, with a retry to come.
  lemma {:induction false} FailedWithARetryPending()
    ensures var c := Run(Fresh(ONE_ATTEMPT, "ws://h:1"), DROPPED_TWICE); c.state == Failed && c.retryAt == Some(1000)
    ensures var c := Run(Fresh(ONE_ATTEMPT, "ws://h:1"), DROPPED_TWICE); Next(c, RetryFires).state == Connecting
  {
    var c, events := Fresh(ONE_ATTEMPT, "ws://h:1"), DROPPED_TWICE;
    assert events[..2][..1] == events[..1] == [Connect] && events[..1][..0] == [];
    assert Run(c, []) == c;
    assert Run(c, events[..1]) == Next(c, Connect);
    assert Run(c, events[..2]) == Next(Run(c, events[..1]), Dropped(0));
    assert Run(c, events) == Next(Run(c, events[..2]), Dropped(1));
    assert "ws://" <= "ws://h:1";
    hide Run, Unmeasured;
  }

  // --- The state, from what happened ------------------------------------------------------

  // A further attempt was left when the last of this many drops in a row came.
  predicate AttemptLeft(options: Options, drops: nat) {
    options.autoReconnect && (options.maxAttempts <= 0 || drops <= options.maxAttempts)
  }

  // Each state, both ways, from the socket in hand and what it and those before it reported.
  predicate StateTold(c: Client) {
    && (c.state == Disconnected <==> c.socket.None?)
    && (c.state == Connecting <==> c.socket.Some? && !c.log.heard)
    && (c.state == Connected <==> c.socket.Some? && c.log.heard && c.log.drops == 0)
    && (c.state == Reconnecting <==>
          c.socket.Some? && c.log.heard && 0 < c.log.drops && AttemptLeft(c.options, c.log.drops))
    && (c.state == Failed <==>
          c.socket.Some? && c.log.heard && 0 < c.log.drops && !AttemptLeft(c.options, c.log.drops))
  }

  lemma {:induction false} NextKeepsStateTold(c: Client, e: Event)
    requires Invariant(c) && StateTold(c)
    ensures StateTold(Next(c, e))
  {
    hide ProbeInFlight, Measured, NonceOf, WaitFor, Milliseconds, UsableUrl;
  }

  lemma {:induction false} StateIsWhatHappened(options: Options, url: string, events: seq<Event>)
    ensures StateTold(Run(Fresh(options, url), events))
  {
    if events != [] {
      hide Next, Invariant, StateTold;
      var earlier := events[..|events| - 1];
      StateIsWhatHappened(options, url, earlier);
      RunKeepsInvariant(options, url, earlier);
      NextKeepsStateTold(Run(Fresh(options, url), earlier), events[|events| - 1]);
    }
  }

  // What the socket in hand has reported, read off the events alone: whether it opened or dropped,
  // and how many drops and retries there were since the last opening or connect.
  datatype Report = Report(inHand: bool, heard: bool, drops: nat, retries: nat)

  function ReportOn(c: Client, events: seq<Event>): Report
    requires c.socket.None?
  {
    if events == [] then Report(false, true, 0, 0)
    else
      var earlier, e := events[..|events| - 1], events[|events| - 1];
      Reported(ReportOn(c, earlier), Run(c, earlier), e)
  }

  // The address is one of a web socket, plain or secure.
  predicate OnWebSocket(url: string) {
    || (5 <= |url| && url[0] == 'w' && url[1] == 's' && url[2] == ':' && url[3] == '/' && url[4] == '/')
    || (6 <= |url| && url[0] == 'w' && url[1] == 's' && url[2] == 's' && url[3] == ':' && url[4] == '/' && url[5] == '/')
  }

  lemma {:induction false} UsableIsOnWebSocket(url: string)
    ensures UsableUrl(url) <==> OnWebSocket(url)
  {
    if OnWebSocket(url) && url[2] == ':' {
      assert "ws://" <= url;
    } else if OnWebSocket(url) {
      assert "wss://" <= url;
    }
  }

  predicate Keeps(r: Report, c: Client) {
    && r.inHand == c.socket.Some? && r.heard == c.log.heard
    && r.drops == c.log.drops && r.retries == c.log.retries
  }

  // The record kept along the way is those events and nothing else.
  lemma {:induction false} LogIsTheReport(options: Options, url: string, events: seq<Event>)
    ensures Keeps(ReportOn(Fresh(options, url), events), Run(Fresh(options, url), events))
  {
    if events != [] {
      var c, earlier, e := Fresh(options, url), events[..|events| - 1], events[|events| - 1];
      LogIsTheReport(options, url, earlier);
      RunKeepsInvariant(options, url, earlier);
      ReportStep(ReportOn(c, earlier), Run(c, earlier), e);
      hide Next, Invariant, Keeps;
    }
  }

  function Reported(r: Report, before: Client, e: Event): Report {
    match e
    case Connect => if r.inHand || !OnWebSocket(before.nextUrl) then r else Report(true, false, 0, 0)
    case Opened => if r.inHand && !r.heard then Report(true, true, 0, 0) else r
    case Dropped(_) => if r.inHand then r.(heard := true, drops := r.drops + 1) else r
    case RetryFires => if before.retryAt.Some? && before.wanted then Report(true, false, r.drops, r.retries + 1) else r
    case Disconnect => r.(inHand := false)
    case _ => r
  }

  lemma {:induction false} ReportStep(r: Report, c: Client, e: Event)
    requires Invariant(c) && Keeps(r, c)
    ensures Keeps(Reported(r, c, e), Next(c, e))
  {
    UsableIsOnWebSocket(c.nextUrl);
    hide ProbeInFlight, Measured, NonceOf, WaitFor, Milliseconds, UsableUrl, OnWebSocket, RetriesCounted;
  }

  // --- Measuring ---------------------------------------------------------------------------

  // A client begins disconnected, pointed at its address, with nothing scheduled, sent or measured.
  lemma {:induction false} BeginsDisconnected(options: Options, url: string)
    ensures var c := Fresh(options, url);
      && c.options == options && c.url == url && c.nextUrl == url && c.state == Disconnected
      && !c.wanted && c.attempts == 0 && c.retryAt == None && c.socket == None
      && c.nonce == "" && c.sentAt == 0 && c.probesSent == 0 && c.roundTrip == None && c.log.addresses == []
  {
  }

  // Whole milliseconds, cut off.
  lemma {:induction false} MillisecondsCutOff(nanoseconds: int)
    ensures var left := nanoseconds - 1000000 * Milliseconds(nanoseconds);
      if 0 <= nanoseconds then 0 <= left < 1000000 else -1000000 < left <= 0
  {
  }

  // A pong is timed once: the same nonce again finds nothing in flight.
  lemma {:induction false} PongIsTimedOnce(c: Client, nonce: string, now: int, later: int)
    requires c.nonce != "" && c.nonce == nonce
    ensures var n := Next(c, Pong(nonce, now));
      n.roundTrip == Some(Milliseconds(now - c.sentAt)) && Next(n, Pong(nonce, later)) == n
  {
  }

  // A connect, a drop, a retry and a disconnect each leave nothing measured and nothing in flight.
  lemma {:induction false} ChangesForget(c: Client, e: Event)
    requires Invariant(c)
    requires (e.Connect? && !Refuses(c)) || (e.Dropped? && c.socket.Some?) || e.Disconnect?
          || (e.RetryFires? && c.retryAt.Some? && c.wanted)
    ensures Next(c, e).roundTrip == None && Next(c, e).nonce == ""
  {
    hide ProbeInFlight, Measured, NonceOf, WaitFor, Milliseconds, UsableUrl, RetriesCounted;
  }

  // A connect does nothing exactly when there is a socket already or the address is not one of ours.
  lemma {:induction false} ConnectIsRefusedExactlyWhen(c: Client)
    ensures Next(c, Connect) == c <==> c.socket.Some? || !OnWebSocket(c.nextUrl)
  {
    UsableIsOnWebSocket(c.nextUrl);
    hide OnWebSocket, UsableUrl;
    assert !Refuses(c) ==> |Next(c, Connect).log.addresses| == |c.log.addresses| + 1;
  }
}
