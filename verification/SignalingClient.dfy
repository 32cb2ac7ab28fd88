/** The signaling client as an object, proved equal to SignalingModel event by event. */
module SignalingClients {
  import opened Basics
  import Backoff
  import opened SignalingModel
  import SignalingRuns

  datatype Outcome = Accepted | AlreadyConnected | InvalidValue | NotConnected

  class SignalingClient {
    const options: Options
    var url: string
    var nextUrl: string
    var wanted: bool
    var attempts: int
    var retryAt: Option<int>
    var state: State
    var socket: Option<nat>
    var nextSocket: nat
    var probeNonce: string
    var probeSentAt: int
    var probesSent: nat
    var roundTrip: Option<int>
    ghost var log: Log

    ghost function Value(): Client
      reads this
    {
      Client(options, url, nextUrl, wanted, attempts, retryAt, state, socket, probeNonce, probeSentAt,
             probesSent, roundTrip, log)
    }

    ghost predicate Valid()
      reads this
    {
      nextSocket == |log.addresses| && SignalingRuns.Invariant(Value())
    }

    constructor (options: Options, url: string)
      ensures Valid() && Value() == Fresh(options, url)
    {
      this.options := options;
      this.url, nextUrl := url, url;
      wanted, attempts, retryAt := false, 0, None;
      state, socket, nextSocket := Disconnected, None, 0;
      probeNonce, probeSentAt, probesSent, roundTrip := "", 0, 0, None;
      log := Log([], true, true, 0, 0, [], None);
    }

    method SetUrl(address: string)
      requires Valid()
      modifies this`nextUrl
      ensures Valid() && Value() == Next(old(Value()), Event.SetUrl(address))
    {
      SignalingRuns.NextKeepsInvariant(Value(), Event.SetUrl(address));
      nextUrl := address;
    }

    predicate Attempting()
      requires Valid()
      reads this
      ensures Attempting() <==> !log.settled
    {
      state == Connecting && attempts == 0
    }

    method ForgetRoundTrip()
      modifies this`probeNonce, this`roundTrip, this`log
      ensures Value() == Unmeasured(old(Value()))
    {
      probeNonce, roundTrip := "", None;
      log := log.(answer := None);
    }

    method OpenSocket()
      requires nextSocket == |log.addresses|
      modifies this`socket, this`nextSocket, this`probeNonce, this`roundTrip, this`state, this`log
      ensures nextSocket == |log.addresses|
      ensures Value() == SignalingModel.OpenSocket(old(Value()))
    {
      socket := Some(nextSocket);
      nextSocket := nextSocket + 1;
      ForgetRoundTrip();
      log := log.(addresses := log.addresses + [url], heard := false);
      state := Connecting;
    }

    method Connect() returns (r: Outcome)
      requires Valid()
      modifies this`url, this`wanted, this`attempts, this`socket, this`nextSocket, this`probeNonce, this`roundTrip,
        this`state, this`log
      ensures Valid() && Value() == Next(old(Value()), Event.Connect)
      ensures r == if old(socket).Some? then AlreadyConnected
                   else if !UsableUrl(old(nextUrl)) then InvalidValue else Accepted
    {
      SignalingRuns.NextKeepsInvariant(Value(), Event.Connect);
      hide SignalingRuns.Invariant;
      if socket.Some? {
        return AlreadyConnected;
      }
      if !("ws://" <= nextUrl) && !("wss://" <= nextUrl) {
        return InvalidValue;
      }
      url := nextUrl;
      wanted, attempts := true, 0;
      log := log.(settled := false, drops := 0, retries := 0);
      OpenSocket();
      r := Accepted;
    }

    method HandleOpen()
      requires Valid() && socket.Some? && !log.heard
      modifies this`attempts, this`state, this`log
      ensures Valid() && Value() == Next(old(Value()), Event.Opened)
    {
      SignalingRuns.NextKeepsInvariant(Value(), Event.Opened);
      hide SignalingRuns.Invariant;
      attempts, state := 0, Connected;
      log := log.(settled := true, heard := true, drops := 0, retries := 0);
    }

    method HandleDrop(now: int)
      requires Valid() && socket.Some?
      modifies this`attempts, this`retryAt, this`probeNonce, this`roundTrip, this`state, this`log
      ensures Valid() && Value() == Next(old(Value()), Event.Dropped(now))
    {
      SignalingRuns.NextKeepsInvariant(Value(), Event.Dropped(now));
      hide SignalingRuns.Invariant;
      if state == Disconnected {
        return;
      }
      ForgetRoundTrip();
      log := log.(settled := true, heard := true, drops := log.drops + 1);
      if wanted && options.autoReconnect && (options.maxAttempts <= 0 || attempts < options.maxAttempts) {
        attempts := attempts + 1;
        var wait := Backoff.ReconnectDelay(attempts, options.initialDelay, options.maxDelay);
        retryAt := Some(now + wait);
        state := Reconnecting;
      } else {
        state := Failed;
      }
    }

    // The retry thread, at the moment its wait runs out.
    method RetryFires()
      requires Valid()
      modifies this`retryAt, this`socket, this`nextSocket, this`probeNonce, this`roundTrip, this`state, this`log
      ensures Valid() && Value() == Next(old(Value()), Event.RetryFires)
    {
      SignalingRuns.NextKeepsInvariant(Value(), Event.RetryFires);
      hide SignalingRuns.Invariant;
      if retryAt.None? || !wanted {
        return;
      }
      retryAt := None;
      log := log.(retries := log.retries + 1);
      OpenSocket();
    }

    method Disconnect()
      requires Valid()
      modifies this`wanted, this`retryAt, this`socket, this`probeNonce, this`roundTrip, this`state, this`log
      ensures Valid() && Value() == Next(old(Value()), Event.Disconnect)
    {
      SignalingRuns.NextKeepsInvariant(Value(), Event.Disconnect);
      hide SignalingRuns.Invariant;
      ForgetRoundTrip();
      wanted, retryAt, socket, state := false, None, None, Disconnected;
      log := log.(settled := true);
    }

    method Probe(now: int) returns (r: Outcome)
      requires Valid()
      modifies this`probesSent, this`probeNonce, this`probeSentAt, this`log
      ensures Valid() && Value() == Next(old(Value()), SendProbe(now))
      ensures r == if socket.None? then NotConnected else Accepted
    {
      SignalingRuns.NextKeepsInvariant(Value(), SendProbe(now));
      hide SignalingRuns.Invariant;
      if socket.None? {
        return NotConnected;
      }
      probesSent := probesSent + 1;
      probeNonce, probeSentAt := NonceOf(probesSent), now;
      log := log.(probes := log.probes + [SignalingModel.Probe(socket.value, now)]);
      r := Accepted;
    }

    // A pong that is not the answer to a probe of ours is passed up, not timed.
    method HandlePong(nonce: string, now: int) returns (measured: bool)
      requires Valid()
      modifies this`roundTrip, this`probeNonce, this`log
      ensures Valid() && Value() == Next(old(Value()), Pong(nonce, now))
      ensures measured <==> old(probeNonce) != "" && nonce == old(probeNonce)
    {
      SignalingRuns.NextKeepsInvariant(Value(), Pong(nonce, now));
      hide SignalingRuns.Invariant;
      measured := probeNonce != "" && nonce == probeNonce;
      if measured {
        roundTrip := Some(Milliseconds(now - probeSentAt));
        probeNonce := "";
        log := log.(answer := Some(Answer(nonce, now)));
      }
    }
  }
}
