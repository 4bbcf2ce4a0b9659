/** `AgentClient` as a machine: one step per public call, taken one after the other. A connection is
    the fate of its next writes and the messages the server will send on it. */
module SessionSpec {
  import opened Wrappers
  import opened Submissions

  /** A text frame by its type; `Intent(n)` is the n-th frame submitted with `queue_if_closed`. */
  datatype Msg = AuthToken | SessionResume | CreateCase | Intent(n: nat)

  datatype Reply = AuthAck(userId: bool) | SessionState | CaseOpen(caseId: bool) | Other

  /** What one `_recv` of the client brings: a decoded envelope, text that is no JSON object, a wait
      without a message, a lost stream, a Close frame from the server, a protocol error, or the
      handshake deadline. */
  datatype Inbound = Message(reply: Reply) | Junk | Quiet | Loss | PeerClose | Violation | Expired

  datatype Event = Sent(msg: Msg) | Received(reply: Reply)

  type Log = seq<Event>

  /** One `WebSocketConnection`, as far as the client can tell. */
  datatype LinkState = LinkState(live: bool, closed: bool, writes: seq<bool>, inbox: seq<Inbound>, log: Log)

  /** How a dial ends: refused before there is a socket, rejected during the upgrade, or open. */
  datatype Dial = Dial(outcome: DialOutcome, writes: seq<bool>, inbox: seq<Inbound>)
  datatype DialOutcome = Unreachable | Rejected | Opened

  datatype Session = Session(
    connected: bool,
    link: Option<LinkState>,
    queue: seq<nat>,
    submitted: nat,
    dropped: set<nat>,
    past: seq<Log>)

  const INITIAL := Session(false, None, [], 0, {}, [])

  /** A public call either returns or raises. */
  datatype Outcome = Returned | Raised

  // ---------------------------------------------------------------------------------------
  // The connection
  // ---------------------------------------------------------------------------------------

  function Write(l: LinkState, msg: Msg): (bool, LinkState)
  {
    if !l.live then (false, l)
    else if l.writes != [] && !l.writes[0] then (false, l.(writes := l.writes[1..]))
    else (true, l.(writes := if l.writes == [] then [] else l.writes[1..], log := l.log + [Sent(msg)]))
  }

  /** `WebSocketConnection.close`; the flag is true where it raises. */
  function CloseLink(l: LinkState): (bool, LinkState)
  {
    if !l.live || l.closed then (false, l)
    else if l.writes != [] && !l.writes[0] then (true, l.(closed := true, writes := l.writes[1..]))
    else (false, l.(closed := true, live := false, writes := if l.writes == [] then [] else l.writes[1..]))
  }

  // ---------------------------------------------------------------------------------------
  // The outbound queue
  // ---------------------------------------------------------------------------------------

  /** `_enqueue`: append, then drop the oldest beyond the bound. */
  function Enqueue(s: Session, n: nat): Session
  {
    var q := s.queue + [n];
    if |q| > QUEUE_MAX then
      s.(queue := q[|q| - QUEUE_MAX..], dropped := s.dropped + ToSet(q[..|q| - QUEUE_MAX]))
    else s.(queue := q)
  }

  /** `_send` without `queue_if_closed`. */
  function SendDirect(s: Session, msg: Msg): (Outcome, Session)
  {
    if s.link.None? then (Raised, s)
    else
      var (ok, l) := Write(s.link.value, msg);
      if ok then (Returned, s.(link := Some(l))) else (Raised, s.(connected := false, link := Some(l)))
  }

  /** `_send` with `queue_if_closed`: a fresh frame goes out, or waits. */
  function SendIntent(s0: Session): Session
  {
    var s, n := s0.(submitted := s0.submitted + 1), s0.submitted;
    if !s.connected || s.link.None? then Enqueue(s, n)
    else
      var (ok, l) := Write(s.link.value, Intent(n));
      if ok then s.(link := Some(l)) else Enqueue(s.(connected := false, link := Some(l)), n)
  }

  /** The loop of `_flush_outbound_queue`, with `pending` still to send. */
  function FlushFrom(s: Session, pending: seq<nat>): (r: (Outcome, Session))
    decreases |pending|
  {
    if pending == [] then (Returned, s)
    else if s.link.None? then (Raised, s.(connected := false, queue := pending + s.queue))
    else
      var (ok, l) := Write(s.link.value, Intent(pending[0]));
      if ok then FlushFrom(s.(link := Some(l)), pending[1..])
      else (Raised, s.(connected := false, link := Some(l), queue := pending + s.queue))
  }

  function Flush(s: Session): (Outcome, Session)
  {
    FlushFrom(s.(queue := []), s.queue)
  }

  // ---------------------------------------------------------------------------------------
  // Receiving
  // ---------------------------------------------------------------------------------------

  /** The connection after the next item has been read off it. */
  function Absorb(l0: LinkState, item: Inbound): LinkState
    requires l0.inbox != []
  {
    var l := l0.(inbox := l0.inbox[1..]);
    match item
    case Message(reply) => l.(log := l.log + [Received(reply)])
    case PeerClose => CloseLink(l.(writes := if l.writes == [] then [] else l.writes[1..])).1
    case _ => l
  }

  /** One `_recv` followed by decoding: the item, and the session after it. */
  function Take(s: Session): (r: (Inbound, Session))
    ensures r.1.link.Some? == s.link.Some?
    ensures s.link.Some? && s.link.value.live && s.link.value.inbox != []
        ==> |r.1.link.value.inbox| < |s.link.value.inbox|
  {
    if s.link.None? then (Loss, s)
    else
      var l := s.link.value;
      if !l.live then (Loss, s.(connected := false))
      else if l.inbox == [] then (Expired, s)
      else
        var item := l.inbox[0];
        (item, s.(link := Some(Absorb(l, item)), connected := s.connected && !item.Loss? && !item.PeerClose?))
  }

  function Inboxes(s: Session): nat
  {
    if s.link.Some? then |s.link.value.inbox| else 0
  }

  datatype Want = WantAck | WantState | WantCase

  predicate Answers(r: Reply, want: Want)
  {
    match want
    case WantAck => r.AuthAck?
    case WantState => r.SessionState?
    case WantCase => r.CaseOpen?
  }

  /** `_wait_for`: drain until the wanted type; None where it raises. */
  function WaitFor(s: Session, want: Want): (r: (Option<Reply>, Session))
    ensures r.0.Some? ==> Answers(r.0.value, want)
    ensures r.0.Some? ==> Inboxes(r.1) < Inboxes(s)
    decreases Inboxes(s)
  {
    var (item, s1) := Take(s);
    match item
    case Message(reply) => if Answers(reply, want) then (Some(reply), s1) else WaitFor(s1, want)
    case Junk => WaitFor(s1, want)
    case Quiet => WaitFor(s1, want)
    case _ => (None, s1)
  }

  // ---------------------------------------------------------------------------------------
  // The public calls
  // ---------------------------------------------------------------------------------------

  /** The head of `connect`: drop the old connection, which may raise, and dial. */
  function Redial(s0: Session, dial: Dial): (Outcome, Session)
  {
    var s := s0.(connected := false);
    if s.link.None? then Reached(s, dial)
    else
      var (raised, closing) := CloseLink(s.link.value);
      if raised then (Raised, s.(link := Some(closing)))
      else Reached(s.(past := s.past + [closing.log]), dial)
  }

  function Reached(s: Session, dial: Dial): (Outcome, Session)
  {
    (if dial.outcome.Opened? then Returned else Raised,
     s.(link := Some(LinkState(!dial.outcome.Unreachable?, false, dial.writes, dial.inbox, []))))
  }

  /** The handshake of `connect` on a connection that has just been opened. */
  function Handshake(s0: Session): (Outcome, Session)
  {
    var (o1, s1) := SendDirect(s0, AuthToken);
    if o1.Raised? then (Raised, s1)
    else
      var (ack, s2) := WaitFor(s1, WantAck);
      if ack.None? || !ack.value.userId then (Raised, s2)
      else
        var (o3, s3) := SendDirect(s2, SessionResume);
        if o3.Raised? then (Raised, s3)
        else
          var (state, s4) := WaitFor(s3, WantState);
          if state.None? then (Raised, s4) else (Returned, s4)
  }

  /** The stored credentials pushed at the end of `connect`; nothing raised here gets out. */
  function PushSecrets(s: Session, n: nat): Session
    decreases n
  {
    if n == 0 then s else PushSecrets(SendIntent(s), n - 1)
  }

  /** `connect` (and `reconnect`) with `secrets` credentials in the broker's store. */
  function Connect(s0: Session, dial: Dial, secrets: nat): (Outcome, Session)
  {
    var (o1, s1) := Redial(s0, dial);
    if o1.Raised? then (Raised, s1)
    else
      var (o2, s2) := Handshake(s1);
      if o2.Raised? then (Raised, s2)
      else
        var (o3, s3) := Flush(s2.(connected := true));
        if o3.Raised? then (Raised, s3) else (Returned, PushSecrets(s3, secrets))
  }

  /** The waiting loop of `create_case`. */
  function AwaitCase(s: Session): (Outcome, Session)
    decreases Inboxes(s)
  {
    var (reply, s1) := WaitFor(s, WantCase);
    if reply.None? then (Raised, s1)
    else if reply.value.caseId then (Returned, s1)
    else AwaitCase(s1)
  }

  function Create(s: Session): (Outcome, Session)
  {
    var (o, s1) := SendDirect(s, CreateCase);
    if o.Raised? then (Raised, s1) else AwaitCase(s1)
  }

  /** `request_case_list_refresh`. */
  function Refresh(s: Session): (Outcome, Session)
  {
    if !s.connected then (Returned, s) else SendDirect(s, SessionResume)
  }

  /** `next_event`. */
  function Receive(s: Session): (Outcome, Session)
  {
    var (item, s1) := Take(s);
    (if item.Loss? || item.PeerClose? || item.Violation? then Raised else Returned, s1)
  }

  function Close(s0: Session): (Outcome, Session)
  {
    var s := s0.(connected := false);
    if s.link.None? then (Returned, s)
    else
      var (raised, l) := CloseLink(s.link.value);
      if raised then (Raised, s.(link := Some(l)))
      else (Returned, s.(link := None, past := s.past + [l.log]))
  }
}
