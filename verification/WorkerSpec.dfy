/** What `AgentWorker.run` (plugin/net/ws_bridge.py) does, given all it cannot control. */
module WorkerSpec {

  const RECONNECT_FLOOR_MS: nat := 1500
  const RECONNECT_MAX_MS: nat := 5000

  type Jitter = r: real | 0.0 <= r < 1.0 witness 0.0

  // ---------------------------------------------------------------------------------------
  // The reconnect ladder
  // ---------------------------------------------------------------------------------------

  /** Python's `round`: to the nearest integer, ties to the even one. */
  function Round(x: real): (n: int)
    ensures x - 0.5 <= n as real <= x + 0.5
    ensures n as real == x - 0.5 || n as real == x + 0.5 ==> n % 2 == 0
  {
    var f := x.Floor;
    var rest := x - f as real;
    if rest < 0.5 then f
    else if rest > 0.5 then f + 1
    else if f % 2 == 0 then f
    else f + 1
  }

  function Scaled(b: real, jitter: Jitter): real
  {
    b * (0.5 + 0.5 * jitter)
  }

  /** `next_backoff`: the wait, and the next base. */
  function NextBackoff(baseMs: nat, jitter: Jitter): (int, nat)
  {
    var base := if baseMs >= 1 then baseMs else 1;
    var delay := Round(Scaled(base as real, jitter));
    var twice := base * 2;
    (delay, if twice <= RECONNECT_MAX_MS then twice else RECONNECT_MAX_MS)
  }

  /** Every wait lies between half its base and its base. */
  lemma DelayWithinBase(baseMs: nat, jitter: Jitter)
    requires baseMs >= 1 && baseMs % 2 == 0
    ensures baseMs / 2 <= NextBackoff(baseMs, jitter).0 <= baseMs
  {
    var half := baseMs / 2;
    ScaledJitter(baseMs as real, jitter);
  }

  /** The wait is half its base, and half of it again as far as the jitter goes, in whole milliseconds. */
  lemma DelayFollowsJitter(baseMs: nat, jitter: Jitter)
    requires baseMs >= 1
    ensures var twice := (2 * NextBackoff(baseMs, jitter).0) as real;
            baseMs as real * (1.0 + jitter) - 1.0 <= twice <= baseMs as real * (1.0 + jitter) + 1.0
  {
    var b := baseMs as real;
    assert 2.0 * Scaled(b, jitter) == b * (1.0 + jitter);
  }

  lemma ScaledJitter(b: real, jitter: Jitter)
    requires b >= 1.0
    ensures 0.5 * b <= Scaled(b, jitter) < b
  {
    var f := 0.5 + 0.5 * jitter;
  }

  // ---------------------------------------------------------------------------------------
  // The world around the worker
  // ---------------------------------------------------------------------------------------

  /** `connect` or `reconnect`: done, or failed as an auth failure, a transport or protocol failure,
      or any other exception. */
  datatype DialOutcome = DialOk | DialAuth | DialFailed | DialBroke

  /** `next_event`: nothing, an event, a case list, `ConnectionClosed`, or any other exception. */
  datatype EventOutcome = NoEvent | Event | ListEvent | Lost | Broke

  datatype Failure = AuthFailure | OtherFailure

  /** One behaviour of everything outside: the stop flag goes up after `polls` reads of it; while the
      startup case is bound, each pumped event is an event, nothing, or a failure, and the deadline
      falls when the list ends; then the binding itself succeeds or fails. A list that is used up
      means silence, failed dials, no jitter and naps of one slice. */
  datatype World = World(
    polls: nat,
    first: DialOutcome,
    needsList: bool,
    startup: seq<StartupEvent>,
    binding: Binding,
    events: seq<EventOutcome>,
    dials: seq<DialOutcome>,
    jitters: seq<Jitter>,
    naps: seq<nat>)

  datatype StartupEvent = Quiet | Seen | SeenList | Raises(failure: Failure)
  datatype Binding = Bound | BindingFails(failure: Failure)

  datatype Reason = Stopped | AuthRejected | Crashed

  datatype Signal =
    | Connected | CaseReady | AgentEvent | Failed | AuthExpired
    | Reconnecting | Resumed | Closed(reason: Reason)

  /** What the worker does to the outside: signals, dials, and backoff sleeps. */
  datatype Act = Emit(signal: Signal) | Dial | Wait(base: nat, delay: int)

  function Poll(w: World): (bool, World)
  {
    if w.polls == 0 then (true, w) else (false, w.(polls := w.polls - 1))
  }

  /** `_sleep_interruptible`: one poll per slice and one at the end; true if it was interrupted. */
  function Sleep(w: World, slices: nat): (r: (bool, World))
    ensures r.1 == w.(polls := r.1.polls) && r.1.polls <= w.polls
    decreases slices
  {
    var (stopped, w1) := Poll(w);
    if slices == 0 || stopped then (stopped, w1) else Sleep(w1, slices - 1)
  }

  function NextEvent(w: World): (EventOutcome, World)
  {
    if w.events == [] then (NoEvent, w) else (w.events[0], w.(events := w.events[1..]))
  }

  function NextDial(w: World): (DialOutcome, World)
  {
    if w.dials == [] then (DialFailed, w) else (w.dials[0], w.(dials := w.dials[1..]))
  }

  function NextJitter(w: World): (Jitter, World)
  {
    if w.jitters == [] then (0.0, w) else (w.jitters[0], w.(jitters := w.jitters[1..]))
  }

  function NextNap(w: World): (nat, World)
  {
    if w.naps == [] then (1, w) else (w.naps[0], w.(naps := w.naps[1..]))
  }

  // ---------------------------------------------------------------------------------------
  // run
  // ---------------------------------------------------------------------------------------

  function Ending(f: Failure): Signal
  {
    if f.AuthFailure? then AuthExpired else Failed
  }

  /** The pump loop of `_bind_startup_case`: what it emits, whether it failed, and the world after. */
  function Pump(w: World): (r: (seq<Act>, Binding, World))
    ensures r.2 == w.(polls := r.2.polls, startup := r.2.startup)
    decreases |w.startup|
  {
    var (stopped, w1) := Poll(w);
    if stopped || w.startup == [] then ([], Bound, w1)
    else
      var w2 := w1.(startup := w1.startup[1..]);
      match w.startup[0]
      case Quiet => Pump(w2)
      case Seen =>
        var (acts, b, w3) := Pump(w2);
        ([Emit(AgentEvent)] + acts, b, w3)
      case SeenList => ([Emit(AgentEvent)], Bound, w2)
      case Raises(f) => ([], BindingFails(f), w2)
  }

  /** `_bind_startup_case`. */
  function BindStartupCase(w: World): (seq<Act>, Binding, World)
  {
    var (acts, b, w1) := if w.needsList then Pump(w) else ([], Bound, w);
    (acts, if b.BindingFails? then b else w.binding, w1)
  }

  /** The receive loop, polled before every event. */
  function Serve(w: World, backoff: nat): seq<Act>
    decreases w.polls, 2
  {
    var (stopped, w1) := Poll(w);
    if stopped then [Emit(Closed(Stopped))]
    else
      var (ev, w2) := NextEvent(w1);
      match ev
      case NoEvent => Serve(w2, backoff)
      case Event => [Emit(AgentEvent)] + Serve(w2, backoff)
      case ListEvent => [Emit(AgentEvent)] + Serve(w2, backoff)
      case Lost =>
        var (stopped', w3) := Poll(w2);
        if stopped' then [Emit(Closed(Stopped))] else [Emit(Reconnecting)] + Redial(w3, backoff)
      case Broke => [Emit(Closed(Crashed))]
  }

  /** The redial loop. */
  function Redial(w: World, backoff: nat): seq<Act>
    decreases w.polls, 1
  {
    var (stopped, w1) := Poll(w);
    if stopped then [Emit(Closed(Stopped))] else Rung(w1, backoff)
  }

  /** One rung of the ladder: wait, and dial unless the sleep was cut short. */
  function Rung(w: World, backoff: nat): seq<Act>
    decreases w.polls, 5
  {
    var (jitter, w2) := NextJitter(w);
    var (delay, backoff') := NextBackoff(backoff, jitter);
    var (slices, w3) := NextNap(w2);
    var (interrupted, w4) := Sleep(w3, slices);
    [Wait(backoff, delay)]
    + if interrupted then [Emit(Closed(Stopped))]
      else
        var (dial, w5) := NextDial(w4);
        [Dial] + AfterDial(w5, dial, backoff')
  }

  /** What follows a redial. */
  function AfterDial(w: World, dial: DialOutcome, backoff: nat): seq<Act>
    decreases w.polls, 4
  {
    match dial
    case DialOk => [Emit(Resumed)] + Resume(w)
    case DialAuth => [Emit(AuthExpired), Emit(Closed(AuthRejected))]
    case DialFailed => [Emit(Reconnecting)] + Redial(w, backoff)
    case DialBroke => [Emit(Closed(Crashed))]
  }

  /** The head of the outer loop after a redial that succeeded: the ladder starts over. */
  function Resume(w: World): seq<Act>
    decreases w.polls, 3
  {
    var (stopped, w1) := Poll(w);
    if stopped then [Emit(Closed(Stopped))] else Serve(w1, RECONNECT_FLOOR_MS)
  }

  /** `run`. */
  function Run(w: World): seq<Act>
  {
    [Dial]
    + match w.first
      case DialAuth => [Emit(AuthExpired)]
      case DialFailed => [Emit(Failed)]
      case DialBroke => [Emit(Failed)]
      case DialOk =>
        var (acts, b, w1) := BindStartupCase(w);
        [Emit(Connected)] + acts
        + match b
          case BindingFails(f) => [Emit(Ending(f))]
          case Bound => [Emit(CaseReady)] + Resume(w1)
  }
}
