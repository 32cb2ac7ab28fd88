/**
 The signaling client as a state machine. A socket is a number: the how-manieth this client
 opened. Its callbacks, the retry timer and the clock are the environment: any event may come at
 any time, except that a socket reports its opening at most once, and not after it has dropped.
 */
module SignalingModel {
  import opened Basics
  import Backoff

  datatype State = Disconnected | Connecting | Connected | Failed | Reconnecting

  datatype Options = Options(autoReconnect: bool, initialDelay: int, maxDelay: int, maxAttempts: int)

  // A probe sent, on which socket and when.
  datatype Probe = Probe(socket: nat, sentAt: int)

  // The pong a round trip came from: the nonce it carried and when it arrived.
  datatype Answer = Answer(nonce: string, arrivedAt: int)

  /**
   What happened so far. `addresses` has one entry for each socket opened. `settled` is false from
   a `connect` to its first open or drop, and `heard` is true once the socket in hand has opened or
   dropped; `drops` and `retries` count since the last open or connect.
   */
  datatype Log = Log(
    addresses: seq<string>,
    settled: bool,
    heard: bool,
    drops: nat,
    retries: nat,
    probes: seq<Probe>,
    answer: Option<Answer>)

  datatype Client = Client(
    options: Options,
    url: string,
    nextUrl: string,
    wanted: bool,
    attempts: int,
    retryAt: Option<int>,
    state: State,
    socket: Option<nat>,
    nonce: string,
    sentAt: int,
    probesSent: nat,
    roundTrip: Option<int>,
    log: Log)

  function Fresh(options: Options, url: string): Client {
    Client(options, url, url, false, 0, None, Disconnected, None, "", 0, 0, None,
           Log([], true, true, 0, 0, [], None))
  }

  datatype Event =
    | SetUrl(url: string)
    | Connect
    | Opened
    | Dropped(now: int)
    | RetryFires
    | Disconnect
    | SendProbe(now: int)
    | Pong(nonce: string, now: int)

  function Digits(n: nat): (s: string)
    ensures 1 <= |s|
    decreases n
  {
    var last := [('0' as int + n % 10) as char];
    if n < 10 then last else Digits(n / 10) + last
  }

  function NonceOf(n: nat): string {
    "probe-" + Digits(n)
  }

  predicate UsableUrl(url: string) {
    "ws://" <= url || "wss://" <= url
  }

  // Nanoseconds on the clock, milliseconds on the record, cut off towards zero.
  function Milliseconds(nanoseconds: int): int {
    if 0 <= nanoseconds then nanoseconds / 1_000_000 else -(-nanoseconds / 1_000_000)
  }

  function Unmeasured(c: Client): Client {
    c.(nonce := "", roundTrip := None, log := c.log.(answer := None))
  }

  function OpenSocket(c: Client): Client {
    Unmeasured(c).(socket := Some(|c.log.addresses|), state := Connecting,
                   log := c.log.(addresses := c.log.addresses + [c.url], heard := false, answer := None))
  }

  predicate Refuses(c: Client) {
    c.socket.Some? || !UsableUrl(c.nextUrl)
  }

  function OnConnect(c: Client): Client {
    if Refuses(c) then c
    else
      OpenSocket(c.(url := c.nextUrl, wanted := true, attempts := 0,
                    log := c.log.(settled := false, drops := 0, retries := 0)))
  }

  predicate MayRetry(c: Client) {
    c.wanted && c.options.autoReconnect && (c.options.maxAttempts <= 0 || c.attempts < c.options.maxAttempts)
  }

  function WaitFor(c: Client, attempt: int): int {
    Backoff.Delay(attempt, c.options.initialDelay, c.options.maxDelay)
  }

  function OnDrop(c: Client, now: int): Client {
    if c.state == Disconnected then c
    else
      var dropped := Unmeasured(c).(log := c.log.(settled := true, heard := true, drops := c.log.drops + 1, answer := None));
      if MayRetry(c) then
        dropped.(attempts := c.attempts + 1, retryAt := Some(now + WaitFor(c, c.attempts + 1)), state := Reconnecting)
      else dropped.(state := Failed)
  }

  function OnPong(c: Client, nonce: string, now: int): Client {
    if c.nonce == "" || nonce != c.nonce then c
    else c.(roundTrip := Some(Milliseconds(now - c.sentAt)), nonce := "", log := c.log.(answer := Some(Answer(nonce, now))))
  }

  function Next(c: Client, e: Event): Client {
    match e
    case SetUrl(url) => c.(nextUrl := url)
    case Connect => OnConnect(c)
    case Opened =>
      if c.socket.None? || c.log.heard then c
      else
        c.(attempts := 0, state := Connected,
           log := c.log.(settled := true, heard := true, drops := 0, retries := 0))
    case Dropped(now) => if c.socket.None? then c else OnDrop(c, now)
    case RetryFires =>
      if c.retryAt.None? || !c.wanted then c
      else OpenSocket(c.(retryAt := None, log := c.log.(retries := c.log.retries + 1)))
    case Disconnect =>
      Unmeasured(c).(wanted := false, retryAt := None, socket := None, state := Disconnected,
                     log := c.log.(settled := true, answer := None))
    case SendProbe(now) =>
      if c.socket.None? then c
      else
        c.(probesSent := c.probesSent + 1, nonce := NonceOf(c.probesSent + 1), sentAt := now,
           log := c.log.(probes := c.log.probes + [Probe(c.socket.value, now)]))
    case Pong(nonce, now) => OnPong(c, nonce, now)
  }

  function Run(c: Client, events: seq<Event>): Client {
    if events == [] then c
    else Next(Run(c, events[..|events| - 1]), events[|events| - 1])
  }

  predicate IsAttempting(c: Client) {
    c.state == Connecting && c.attempts == 0
  }
}
