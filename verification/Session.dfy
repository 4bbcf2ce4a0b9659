/** `AgentClient` (plugin/net/trid3nt_client.py) with its fields: every method does to them what the
    step of module SessionSpec says. */
module Session {
  import opened Wrappers
  import opened Submissions
  import opened SessionSpec
  import SessionRuns

  /** The part of a `WebSocketConnection` the client touches. */
  class Link {
    var live: bool
    var closed: bool
    var writes: seq<bool>
    var inbox: seq<Inbound>
    var log: Log

    function State(): LinkState
      reads this
    {
      LinkState(live, closed, writes, inbox, log)
    }

    constructor (dial: Dial)
      ensures State() == LinkState(!dial.outcome.Unreachable?, false, dial.writes, dial.inbox, [])
    {
      live := !dial.outcome.Unreachable?;
      closed := false;
      writes := dial.writes;
      inbox := dial.inbox;
      log := [];
    }

    method SendText(msg: Msg) returns (ok: bool)
      modifies this
      ensures (ok, State()) == Write(old(State()), msg)
    {
      if !live {
        return false;
      }
      ok := true;
      if writes != [] {
        ok := writes[0];
        writes := writes[1..];
      }
      if ok {
        log := log + [Sent(msg)];
      }
    }

    method Close() returns (raised: bool)
      modifies this
      ensures (raised, State()) == CloseLink(old(State()))
    {
      if !live || closed {
        return false;
      }
      closed := true;
      raised := false;
      if writes != [] {
        raised := !writes[0];
        writes := writes[1..];
      }
      if !raised {
        live := false;
      }
    }

    method Recv() returns (item: Inbound)
      requires live && inbox != []
      modifies this
      ensures item == old(inbox)[0] && State() == Absorb(old(State()), item)
    {
      item := inbox[0];
      inbox := inbox[1..];
      if item.Message? {
        log := log + [Received(item.reply)];
      } else if item.PeerClose? {
        writes := if writes == [] then [] else writes[1..];
        var _ := Close();
      }
    }
  }

  class AgentClient {
    var connected: bool
    var ws: Link?
    var outboundQueue: seq<nat>
    var submitted: nat                 // stands for the fresh ids of new_ulid
    ghost var dropped: set<nat>
    ghost var past: seq<Log>

    ghost function State(): Session
      reads this, ws
    {
      Session(connected, if ws == null then None else Some(ws.State()), outboundQueue, submitted, dropped, past)
    }

    /** The invariant of module SessionRuns, which holds between the public calls of every run: `connected`
        means an empty queue and a finished handshake, and wire and queue are the submissions in order. */
    ghost predicate Valid()
      reads this, ws
    {
      SessionRuns.Inv(State())
    }

    constructor ()
      ensures State() == INITIAL && ws == null && Valid()
    {
      connected := false;
      ws := null;
      outboundQueue := [];
      submitted := 0;
      dropped := {};
      past := [];
      new;
      SessionRuns.InitialInv();
    }

    method EnqueueRaw(n: nat)
      modifies this`outboundQueue, this`dropped
      ensures State() == Enqueue(old(State()), n)
    {
      outboundQueue := outboundQueue + [n];
      if |outboundQueue| > QUEUE_MAX {
        dropped := dropped + ToSet(outboundQueue[..|outboundQueue| - QUEUE_MAX]);
        outboundQueue := outboundQueue[|outboundQueue| - QUEUE_MAX..];
      }
    }

    /** `_send` without `queue_if_closed`. */
    method Send(msg: Msg) returns (o: Outcome)
      modifies this`connected, ws
      ensures ws == old(ws)
      ensures (o, State()) == SendDirect(old(State()), msg)
    {
      if ws == null {
        return Raised;
      }
      var ok := ws.SendText(msg);
      if !ok {
        connected := false;
        return Raised;
      }
      o := Returned;
    }

    /** `_send` with `queue_if_closed`. */
    method SendQueueable()
      modifies this`connected, this`outboundQueue, this`submitted, this`dropped, ws
      ensures ws == old(ws)
      ensures State() == SendIntent(old(State()))
      ensures old(Valid()) ==> Valid()
    {
      hide SessionRuns.Inv;
      ghost var was := State();
      if Valid() {
        SessionRuns.StepKeeps(was, SessionRuns.OpIntent);
      }
      var n := submitted;
      submitted := submitted + 1;
      if !connected || ws == null {
        EnqueueRaw(n);
        return;
      }
      var ok := ws.SendText(Intent(n));
      if !ok {
        connected := false;
        EnqueueRaw(n);
      }
    }

    /** `_flush_outbound_queue`. */
    method FlushOutboundQueue() returns (o: Outcome)
      modifies this`connected, this`outboundQueue, ws
      ensures ws == old(ws)
      ensures (o, State()) == Flush(old(State()))
    {
      var pending := outboundQueue;
      outboundQueue := [];
      var i := 0;
      while i < |pending|
        invariant i <= |pending| && ws == old(ws)
        invariant FlushFrom(State(), pending[i..]) == Flush(old(State()))
      {
        if ws == null {
          connected := false;
          outboundQueue := pending[i..] + outboundQueue;
          return Raised;
        }
        assert pending[i..][1..] == pending[i + 1..] && pending[i..][0] == pending[i];
        var ok := ws.SendText(Intent(pending[i]));
        if !ok {
          connected := false;
          outboundQueue := pending[i..] + outboundQueue;
          return Raised;
        }
        i := i + 1;
      }
      o := Returned;
    }

    /** `_recv` and the decoding behind it. */
    method Receive() returns (item: Inbound)
      modifies this`connected, ws
      ensures ws == old(ws)
      ensures (item, State()) == Take(old(State()))
      ensures old(Valid()) ==> Valid()
    {
      hide SessionRuns.Inv;
      ghost var was := State();
      if Valid() {
        SessionRuns.StepKeeps(was, SessionRuns.OpReceive);
      }
      if ws == null {
        return Loss;
      }
      if !ws.live {
        connected := false;
        return Loss;
      }
      if ws.inbox == [] {
        return Expired;
      }
      item := ws.Recv();
      if item.Loss? || item.PeerClose? {
        connected := false;
      }
    }

    /** `_wait_for`. */
    method WaitForReply(want: Want) returns (r: Option<Reply>)
      modifies this`connected, ws
      ensures ws == old(ws)
      ensures (r, State()) == WaitFor(old(State()), want)
    {
      while true
        invariant ws == old(ws)
        invariant WaitFor(State(), want) == WaitFor(old(State()), want)
        decreases Inboxes(State())
      {
        var item := Receive();
        match item {
          case Message(reply) =>
            if Answers(reply, want) {
              return Some(reply);
            }
          case Junk =>
          case Quiet =>
          case _ => return None;
        }
      }
    }

    /** The part of `connect` up to the opened socket. */
    method DialServer(dial: Dial) returns (o: Outcome)
      modifies this`connected, this`ws, this`past, ws
      ensures ws == old(ws) || fresh(ws)
      ensures (o, State()) == Redial(old(State()), dial)
    {
      connected := false;
      if ws != null {
        var raised := ws.Close();
        if raised {
          return Raised;
        }
        past := past + [ws.log];
      }
      ws := new Link(dial);
      o := if dial.outcome.Opened? then Returned else Raised;
    }

    /** The handshake of `connect`. */
    method RunHandshake() returns (o: Outcome)
      modifies this`connected, ws
      ensures ws == old(ws)
      ensures (o, State()) == Handshake(old(State()))
    {
      o := Send(AuthToken);
      if o.Raised? {
        return;
      }
      var ack := WaitForReply(WantAck);
      if ack.None? || !ack.value.userId {
        return Raised;
      }
      o := Send(SessionResume);
      if o.Raised? {
        return;
      }
      var state := WaitForReply(WantState);
      o := if state.None? then Raised else Returned;
    }

    /** `_broker_push_on_connect`: every credential goes through the queueable `push_secret`. */
    method BrokerPush(secrets: nat)
      modifies this`connected, this`outboundQueue, this`submitted, this`dropped, ws
      ensures ws == old(ws)
      ensures State() == PushSecrets(old(State()), secrets)
    {
      var i := secrets;
      while i > 0
        invariant ws == old(ws)
        invariant PushSecrets(State(), i) == PushSecrets(old(State()), secrets)
      {
        SendQueueable();
        i := i - 1;
      }
    }

    /** `connect`. */
    method ConnectAndResume(dial: Dial, secrets: nat) returns (o: Outcome)
      modifies this, ws
      ensures ws == old(ws) || fresh(ws)
      ensures (o, State()) == Connect(old(State()), dial, secrets)
      ensures old(Valid()) ==> Valid()
    {
      hide SessionRuns.Inv;
      ghost var was := State();
      if Valid() {
        SessionRuns.StepKeeps(was, SessionRuns.OpConnect(dial, secrets));
      }
      hide Redial, Handshake, Flush, PushSecrets;
      o := DialServer(dial);
      if o.Raised? {
        return;
      }
      o := RunHandshake();
      if o.Raised? {
        return;
      }
      connected := true;
      o := FlushOutboundQueue();
      if o.Raised? {
        return;
      }
      BrokerPush(secrets);
    }

    /** `create_case`. */
    method CreateNewCase() returns (o: Outcome)
      modifies this`connected, ws
      ensures ws == old(ws)
      ensures (o, State()) == Create(old(State()))
      ensures old(Valid()) ==> Valid()
    {
      hide SessionRuns.Inv;
      ghost var was := State();
      if Valid() {
        SessionRuns.StepKeeps(was, SessionRuns.OpCreate);
      }
      o := Send(CreateCase);
      if o.Raised? {
        return;
      }
      while true
        invariant ws == old(ws)
        invariant AwaitCase(State()) == Create(old(State()))
        decreases Inboxes(State())
      {
        var reply := WaitForReply(WantCase);
        if reply.None? {
          return Raised;
        }
        if reply.value.caseId {
          return Returned;
        }
      }
    }

    /** `request_case_list_refresh`. */
    method RequestCaseListRefresh() returns (o: Outcome)
      modifies this`connected, ws
      ensures ws == old(ws)
      ensures (o, State()) == Refresh(old(State()))
      ensures old(Valid()) ==> Valid()
    {
      hide SessionRuns.Inv;
      ghost var was := State();
      if Valid() {
        SessionRuns.StepKeeps(was, SessionRuns.OpRefresh);
      }
      if !connected {
        return Returned;
      }
      o := Send(SessionResume);
    }

    /** `close`. */
    method CloseClient() returns (o: Outcome)
      modifies this`connected, this`ws, this`past, ws
      ensures ws == old(ws) || ws == null
      ensures (o, State()) == Close(old(State()))
      ensures old(Valid()) ==> Valid()
    {
      hide SessionRuns.Inv;
      ghost var was := State();
      if Valid() {
        SessionRuns.StepKeeps(was, SessionRuns.OpClose);
      }
      connected := false;
      if ws != null {
        var raised := ws.Close();
        if raised {
          return Raised;
        }
        past := past + [ws.log];
        ws := null;
      }
      o := Returned;
    }
  }
}
