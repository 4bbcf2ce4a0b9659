/** What every sequential run of the client keeps: the ledger of submitted frames, and the order of
    each connection's handshake. */
module SessionRuns {
  import opened Wrappers
  import opened Submissions
  import opened SessionSpec

  // ---------------------------------------------------------------------------------------
  // Runs
  // ---------------------------------------------------------------------------------------

  datatype Op =
    | OpConnect(dial: Dial, secrets: nat)
    | OpIntent
    | OpCreate
    | OpRefresh
    | OpReceive
    | OpClose

  function Step(s: Session, op: Op): Session
  {
    match op
    case OpConnect(dial, secrets) => Connect(s, dial, secrets).1
    case OpIntent => SendIntent(s)
    case OpCreate => Create(s).1
    case OpRefresh => Refresh(s).1
    case OpReceive => Receive(s).1
    case OpClose => Close(s).1
  }

  function Run(s: Session, ops: seq<Op>): Session
    decreases ops
  {
    if ops == [] then s else Run(Step(s, ops[0]), ops[1..])
  }

  // ---------------------------------------------------------------------------------------
  // Logs
  // ---------------------------------------------------------------------------------------

  predicate IsIntent(e: Event)
  {
    e.Sent? && e.msg.Intent?
  }

  /** The queueable frames a connection has carried, in order. */
  function IntentsOf(l: Log): seq<nat>
  {
    if l == [] then []
    else if IsIntent(l[0]) then [l[0].msg.n] + IntentsOf(l[1..])
    else IntentsOf(l[1..])
  }

  function PastIntents(past: seq<Log>): seq<nat>
  {
    if past == [] then [] else IntentsOf(past[0]) + PastIntents(past[1..])
  }

  /** All queueable frames put on the wire, over all connections of the run. */
  function OnTheWire(s: Session): seq<nat>
  {
    PastIntents(s.past) + (if s.link.Some? then IntentsOf(s.link.value.log) else [])
  }

  lemma {:induction false} IntentsConcat(a: Log, b: Log)
    ensures IntentsOf(a + b) == IntentsOf(a) + IntentsOf(b)
  {
    if a == [] {
      assert a + b == b;
    } else {
      assert (a + b)[1..] == a[1..] + b;
      IntentsConcat(a[1..], b);
    }
  }

  lemma {:induction false} PastAppend(past: seq<Log>, l: Log)
    ensures PastIntents(past + [l]) == PastIntents(past) + IntentsOf(l)
  {
    if past == [] {
      assert past + [l] == [l] && [l][1..] == [];
    } else {
      assert (past + [l])[1..] == past[1..] + [l];
      PastAppend(past[1..], l);
    }
  }

  /** `l1` continues `l` without carrying a queueable frame. */
  ghost predicate Grown(l: Log, l1: Log)
  {
    |l| <= |l1| && l1[..|l|] == l && forall i :: |l| <= i < |l1| ==> !IsIntent(l1[i])
  }

  lemma {:induction false} NoIntents(l: Log)
    requires forall i :: 0 <= i < |l| ==> !IsIntent(l[i])
    ensures IntentsOf(l) == []
  {
    if l != [] {
      NoIntents(l[1..]);
    }
  }

  lemma GrownIntents(l: Log, l1: Log)
    requires Grown(l, l1)
    ensures IntentsOf(l1) == IntentsOf(l)
  {
    assert l1 == l + l1[|l|..];
    NoIntents(l1[|l|..]);
    IntentsConcat(l, l1[|l|..]);
  }

  /** How far a connection's handshake has come: token, positive ack, resume, state. */
  function Progress(l: Log): (p: nat)
    ensures p <= 4
  {
    if l == [] then 0 else Advance(Progress(l[..|l| - 1]), l[|l| - 1])
  }

  function Advance(p: nat, e: Event): (q: nat)
    ensures p <= q && (p <= 4 ==> q <= 4)
  {
    if p == 0 && e == Sent(AuthToken) then 1
    else if p == 1 && e == Received(AuthAck(true)) then 2
    else if p == 2 && e == Sent(SessionResume) then 3
    else if p == 3 && e == Received(SessionState) then 4
    else p
  }

  ghost predicate HandshakeDone(l: Log)
  {
    Progress(l) == 4
  }

  lemma {:induction false} ProgressGrows(l: Log, k: nat)
    requires k <= |l|
    ensures Progress(l[..k]) <= Progress(l)
  {
    if k < |l| {
      assert l[..|l| - 1][..k] == l[..k];
      ProgressGrows(l[..|l| - 1], k);
    } else {
      assert l[..k] == l;
    }
  }

  lemma HandshakeStays(l: Log, l1: Log)
    requires HandshakeDone(l) && |l| <= |l1| && l1[..|l|] == l
    ensures HandshakeDone(l1)
  {
    ProgressGrows(l1, |l|);
  }

  /** The last event of a stage, read off the log. */
  lemma {:induction false} StageReached(l: Log, p: nat) returns (k: nat)
    requires Progress(l) >= p > 0
    ensures k < |l| && Progress(l[..k]) == p - 1 && Advance(p - 1, l[k]) == p
    decreases |l|
  {
    var before := l[..|l| - 1];
    if Progress(before) >= p {
      k := StageReached(before, p);
      assert before[..k] == l[..k];
    } else {
      k := |l| - 1;
    }
  }

  /** A finished handshake went through its four events in this order. */
  lemma HandshakeIsFourEvents(l: Log) returns (a: nat, b: nat, c: nat, d: nat)
    requires HandshakeDone(l)
    ensures a < b < c < d < |l|
    ensures l[a] == Sent(AuthToken) && l[b] == Received(AuthAck(true))
    ensures l[c] == Sent(SessionResume) && l[d] == Received(SessionState)
  {
    d := StageReached(l, 4);
    c := StageReached(l[..d], 3);
    b := StageReached(l[..d][..c], 2);
    a := StageReached(l[..d][..c][..b], 1);
  }

  /** No queueable frame reaches the wire before its connection's handshake is done. */
  ghost predicate SafeLog(l: Log)
  {
    forall i :: 0 <= i < |l| && IsIntent(l[i]) ==> HandshakeDone(l[..i])
  }

  lemma SafeGrown(l: Log, l1: Log)
    requires SafeLog(l) && Grown(l, l1)
    ensures SafeLog(l1)
  {
    forall i | 0 <= i < |l1| && IsIntent(l1[i])
      ensures HandshakeDone(l1[..i])
    {
      assert i < |l| && l1[i] == l1[..|l|][i];
      assert l1[..i] == l[..i];
    }
  }

  lemma SafeSend(l: Log, n: nat)
    requires SafeLog(l) && HandshakeDone(l)
    ensures SafeLog(l + [Sent(Intent(n))])
  {
    var l1 := l + [Sent(Intent(n))];
    forall i | 0 <= i < |l1| && IsIntent(l1[i])
      ensures HandshakeDone(l1[..i])
    {
      if i < |l| {
        assert l1[..i] == l[..i];
      } else {
        assert l1[..i] == l;
      }
    }
  }

  // ---------------------------------------------------------------------------------------
  // The invariant
  // ---------------------------------------------------------------------------------------

  /** Wire and queue together are the submission order minus what was dropped. */
  ghost predicate Ledger(s: Session)
  {
    && OnTheWire(s) + s.queue == Undropped(s.submitted, s.dropped)
    && |s.queue| <= QUEUE_MAX
    && forall d :: d in s.dropped ==> d < s.submitted
  }

  ghost predicate SafeLogs(s: Session)
  {
    && (s.link.Some? ==> SafeLog(s.link.value.log))
    && forall i :: 0 <= i < |s.past| ==> SafeLog(s.past[i])
  }

  /** Holds at every point inside a call. */
  ghost predicate Sound(s: Session)
  {
    && Ledger(s)
    && SafeLogs(s)
    && (s.connected ==> s.link.Some? && HandshakeDone(s.link.value.log))
  }

  /** Holds between calls. */
  ghost predicate Inv(s: Session)
  {
    Sound(s) && (s.connected ==> s.queue == [])
  }

  /** A step that leaves the ledger alone: only the current connection's log grows. */
  ghost predicate Calm(s: Session, t: Session)
  {
    && t == s.(connected := t.connected, link := t.link)
    && (t.connected ==> s.connected)
    && t.link.Some? == s.link.Some?
    && (s.link.Some? ==> Grown(s.link.value.log, t.link.value.log))
  }

  lemma CalmTrans(s: Session, t: Session, u: Session)
    requires Calm(s, t) && Calm(t, u)
    ensures Calm(s, u)
  {
    if s.link.Some? {
    }
  }

  lemma CalmKeeps(s: Session, t: Session)
    requires Sound(s) && Calm(s, t)
    ensures Sound(t) && t.queue == s.queue
    ensures Inv(s) ==> Inv(t)
  {
    if s.link.Some? {
      GrownIntents(s.link.value.log, t.link.value.log);
      SafeGrown(s.link.value.log, t.link.value.log);
      if t.connected {
        HandshakeStays(s.link.value.log, t.link.value.log);
      }
    }
  }

  lemma {:induction false} WaitIsCalm(s: Session, want: Want)
    ensures Calm(s, WaitFor(s, want).1)
    ensures var (r, t) := WaitFor(s, want);
            r.Some? ==> t.link.Some? && t.link.value.log != []
                        && t.link.value.log[|t.link.value.log| - 1] == Received(r.value)
                        && |t.link.value.log| > |s.link.value.log|
    decreases Inboxes(s)
  {
    var (item, s1) := Take(s);
    if item.Junk? || item.Quiet? || (item.Message? && !Answers(item.reply, want)) {
      WaitIsCalm(s1, want);
      CalmTrans(s, s1, WaitFor(s1, want).1);
    }
  }

  lemma {:induction false} AwaitCaseIsCalm(s: Session)
    ensures Calm(s, AwaitCase(s).1)
    decreases Inboxes(s)
  {
    WaitIsCalm(s, WantCase);
    var (reply, s1) := WaitFor(s, WantCase);
    if reply.Some? && !reply.value.caseId {
      AwaitCaseIsCalm(s1);
      CalmTrans(s, s1, AwaitCase(s1).1);
    }
  }

  lemma SendDirectIsCalm(s: Session, msg: Msg)
    requires !msg.Intent?
    ensures Calm(s, SendDirect(s, msg).1)
    ensures var (o, t) := SendDirect(s, msg);
            o.Returned? ==> s.link.Some? && t.link.value.log == s.link.value.log + [Sent(msg)]
  {
  }

  // ---------------------------------------------------------------------------------------
  // Preservation, call by call
  // ---------------------------------------------------------------------------------------

  lemma EnqueueKeeps(s: Session, n: nat)
    requires SafeLogs(s) && s.connected == false && |s.queue| <= QUEUE_MAX
    requires OnTheWire(s) + (s.queue + [n]) == Undropped(s.submitted, s.dropped)
    requires forall d :: d in s.dropped ==> d < s.submitted
    ensures Inv(Enqueue(s, n))
  {
    var q := s.queue + [n];
    var t := Enqueue(s, n);
    UndroppedElements(s.submitted, s.dropped);
    if |q| > QUEUE_MAX {
      var k := |q| - QUEUE_MAX;
      assert OnTheWire(s) + q == OnTheWire(s) + q[..k] + q[k..];
      DropPrefix(s.submitted, s.dropped, OnTheWire(s), q[..k], q[k..]);
      forall d | d in t.dropped ensures d < t.submitted {
        if d in q[..k] {
          var i :| 0 <= i < k && q[i] == d;
          assert (OnTheWire(s) + q)[|OnTheWire(s)| + i] == d;
        }
      }
    }
    assert OnTheWire(t) == OnTheWire(s);
  }

  lemma WriteIntentKeeps(s: Session, l: LinkState, n: nat)
    requires SafeLogs(s) && s.link.Some? && HandshakeDone(s.link.value.log)
    requires l.log == s.link.value.log + [Sent(Intent(n))]
    ensures var t := s.(link := Some(l));
            SafeLogs(t) && HandshakeDone(l.log) && OnTheWire(t) == OnTheWire(s) + [n]
  {
    var log := s.link.value.log;
    SafeSend(log, n);
    HandshakeStays(log, l.log);
    IntentsConcat(log, [Sent(Intent(n))]);
    assert IntentsOf([Sent(Intent(n))]) == [n] + IntentsOf([Sent(Intent(n))][1..]);
    assert PastIntents(s.past) + (IntentsOf(log) + [n]) == PastIntents(s.past) + IntentsOf(log) + [n];
  }

  lemma SendIntentKeeps(s0: Session)
    requires Inv(s0)
    ensures Inv(SendIntent(s0))
  {
    var s, n := s0.(submitted := s0.submitted + 1), s0.submitted;
    assert Undropped(n + 1, s0.dropped) == Undropped(n, s0.dropped) + [n];
    assert OnTheWire(s) == OnTheWire(s0);
    assert OnTheWire(s) + (s.queue + [n]) == OnTheWire(s) + s.queue + [n];
    if !s.connected {
      EnqueueKeeps(s, n);
    } else {
      var (ok, l) := Write(s.link.value, Intent(n));
      assert OnTheWire(s) + s.queue == OnTheWire(s);
      if ok {
        WriteIntentKeeps(s, l, n);
        var t := s.(link := Some(l));
        assert OnTheWire(t) + t.queue == OnTheWire(t);
      } else {
        EnqueueKeeps(s.(connected := false, link := Some(l)), n);
      }
    }
  }

  lemma {:induction false} FlushKeeps(s: Session, pending: seq<nat>)
    requires s.queue == [] && s.connected && s.link.Some? && HandshakeDone(s.link.value.log)
    requires Ledger(s.(queue := pending)) && SafeLogs(s)
    ensures Inv(FlushFrom(s, pending).1)
    decreases |pending|
  {
    if pending != [] {
      var (ok, l) := Write(s.link.value, Intent(pending[0]));
      if ok {
        WriteIntentKeeps(s, l, pending[0]);
        var t := s.(link := Some(l));
        assert OnTheWire(t) + pending[1..] == OnTheWire(s) + pending;
        FlushKeeps(t, pending[1..]);
      } else {
        assert pending + s.queue == pending;
      }
    }
  }

  lemma RetireKeeps(s: Session, l: Log, link: Option<LinkState>)
    requires Ledger(s) && SafeLogs(s) && s.link.Some? && s.link.value.log == l
    requires link.Some? ==> link.value.log == []
    ensures Ledger(s.(past := s.past + [l], link := link)) && SafeLogs(s.(past := s.past + [l], link := link))
  {
    PastAppend(s.past, l);
  }

  lemma RedialKeeps(s0: Session, dial: Dial)
    requires Sound(s0)
    ensures var (o, t) := Redial(s0, dial);
            Inv(t) && !t.connected && (o.Returned? ==> t.link.Some? && t.link.value.log == [])
  {
    var s := s0.(connected := false);
    if s.link.Some? {
      var (raised, closing) := CloseLink(s.link.value);
      if !raised {
        RetireKeeps(s, closing.log, Redial(s0, dial).1.link);
      }
    }
  }

  /** A handshake that returns has gone through its four events in order. */
  lemma HandshakeKeeps(s0: Session)
    requires s0.link.Some?
    ensures var (o, t) := Handshake(s0);
            Calm(s0, t) && (o.Returned? ==> HandshakeDone(t.link.value.log))
  {
    hide WaitFor;
    var (o1, s1) := SendDirect(s0, AuthToken);
    SendDirectIsCalm(s0, AuthToken);
    if o1.Returned? {
      var (ack, s2) := WaitFor(s1, WantAck);
      WaitIsCalm(s1, WantAck);
      CalmTrans(s0, s1, s2);
      StageDone(s0.link.value.log, s1.link.value.log, 0);
      if ack.Some? && ack.value.userId {
        StageDone(s1.link.value.log, s2.link.value.log, 1);
        ResumeKeeps(s0, s2);
      }
    }
  }

  /** The second half of the handshake. */
  lemma ResumeKeeps(s0: Session, s2: Session)
    requires Calm(s0, s2) && s2.link.Some? && Progress(s2.link.value.log) >= 2
    ensures var (o3, s3) := SendDirect(s2, SessionResume);
            var (state, s4) := WaitFor(s3, WantState);
            && Calm(s0, s3)
            && (o3.Returned? ==> Calm(s0, s4) && (state.Some? ==> HandshakeDone(s4.link.value.log)))
  {
    hide WaitFor;
    var (o3, s3) := SendDirect(s2, SessionResume);
    var (state, s4) := WaitFor(s3, WantState);
    SendDirectIsCalm(s2, SessionResume);
    CalmTrans(s0, s2, s3);
    WaitIsCalm(s3, WantState);
    CalmTrans(s0, s3, s4);
    if o3.Returned? {
      StageDone(s2.link.value.log, s3.link.value.log, 2);
      if state.Some? {
        StageDone(s3.link.value.log, s4.link.value.log, 3);
      }
    }
  }

  /** An event that is next in the handshake, at the end of a log that has come far enough. */
  lemma StageDone(l: Log, l1: Log, p: nat)
    requires Progress(l) >= p && Grown(l, l1) && |l1| > |l|
    requires p < 4 && Advance(p, l1[|l1| - 1]) == p + 1
    ensures Progress(l1) >= p + 1
  {
    var before := l1[..|l1| - 1];
    assert before[..|l|] == l1[..|l|] == l;
    ProgressGrows(before, |l|);
  }

  lemma {:induction false} PushSecretsKeeps(s: Session, n: nat)
    requires Inv(s)
    ensures Inv(PushSecrets(s, n))
    decreases n
  {
    if n > 0 {
      SendIntentKeeps(s);
      PushSecretsKeeps(SendIntent(s), n - 1);
    }
  }

  lemma ConnectKeeps(s0: Session, dial: Dial, secrets: nat)
    requires Inv(s0)
    ensures Inv(Connect(s0, dial, secrets).1)
  {
    var (o1, s1) := Redial(s0, dial);
    RedialKeeps(s0, dial);
    if o1.Returned? {
      var (o2, s2) := Handshake(s1);
      HandshakeKeeps(s1);
      CalmKeeps(s1, s2);
      if o2.Returned? {
        var s3 := s2.(connected := true);
        assert OnTheWire(s3.(queue := [])) == OnTheWire(s2);
        FlushKeeps(s3.(queue := []), s3.queue);
        PushSecretsKeeps(Flush(s3).1, secrets);
      }
    }
  }

  lemma CloseKeeps(s0: Session)
    requires Inv(s0)
    ensures Inv(Close(s0).1)
  {
    var s := s0.(connected := false);
    if s.link.Some? {
      RetireKeeps(s, s.link.value.log, None);
    }
  }

  lemma StepKeeps(s: Session, op: Op)
    requires Inv(s)
    ensures Inv(Step(s, op))
  {
    match op
    case OpConnect(dial, secrets) => ConnectKeeps(s, dial, secrets);
    case OpIntent => SendIntentKeeps(s);
    case OpCreate =>
      var (o, s1) := SendDirect(s, CreateCase);
      SendDirectIsCalm(s, CreateCase);
      AwaitCaseIsCalm(s1);
      CalmTrans(s, s1, AwaitCase(s1).1);
      CalmKeeps(s, s1);
      CalmKeeps(s, AwaitCase(s1).1);
    case OpRefresh =>
      SendDirectIsCalm(s, SessionResume);
      CalmKeeps(s, SendDirect(s, SessionResume).1);
    case OpReceive =>
      CalmKeeps(s, Take(s).1);
    case OpClose => CloseKeeps(s);
  }

  lemma InitialInv()
    ensures Inv(INITIAL)
  {
    assert OnTheWire(INITIAL) + INITIAL.queue == [];
  }

  lemma {:induction false} RunKeeps(s: Session, ops: seq<Op>)
    requires Inv(s)
    ensures Inv(Run(s, ops))
    decreases ops
  {
    if ops != [] {
      StepKeeps(s, ops[0]);
      RunKeeps(Step(s, ops[0]), ops[1..]);
    }
  }

  /** Every sequential run: `connected` means nothing is waiting; the queueable frames on the wire,
      over all connections, followed by the queue, are the submission order minus the dropped
      frames, each there once; and none of them went out before its connection's handshake. */
  lemma EveryRunKeepsTheOrder(ops: seq<Op>)
    ensures var s := Run(INITIAL, ops);
            && (s.connected ==> s.queue == [])
            && OnTheWire(s) + s.queue == Undropped(s.submitted, s.dropped)
            && (forall i, j :: 0 <= i < j < |OnTheWire(s)| ==> OnTheWire(s)[i] < OnTheWire(s)[j])
            && |s.queue| <= QUEUE_MAX
            && SafeLogs(s)
  {
    InitialInv();
    RunKeeps(INITIAL, ops);
    var s := Run(INITIAL, ops);
    UndroppedElements(s.submitted, s.dropped);
    assert forall i :: 0 <= i < |OnTheWire(s)| ==> OnTheWire(s)[i] == (OnTheWire(s) + s.queue)[i];
  }

  // ---------------------------------------------------------------------------------------
  // Wasted redials
  // ---------------------------------------------------------------------------------------

  /** A redial here raises before it dials: the old connection is still open, and its farewell cannot be
      written. */
  predicate Wasteful(s: Session)
  {
    && s.link.Some? && s.link.value.live && !s.link.value.closed
    && s.link.value.writes != [] && !s.link.value.writes[0]
  }

  /** The connection, if there is one, has said its farewell or failed to. */
  predicate SaidFarewell(s: Session)
  {
    s.link.Some? ==> s.link.value.closed
  }

  lemma {:induction false} WaitKeepsFarewell(s: Session, want: Want)
    requires SaidFarewell(s)
    ensures SaidFarewell(WaitFor(s, want).1)
    decreases Inboxes(s)
  {
    var (item, s1) := Take(s);
    if item.Junk? || item.Quiet? || (item.Message? && !Answers(item.reply, want)) {
      WaitKeepsFarewell(s1, want);
    }
  }

  lemma {:induction false} AwaitKeepsFarewell(s: Session)
    requires SaidFarewell(s)
    ensures SaidFarewell(AwaitCase(s).1)
    decreases Inboxes(s)
  {
    WaitKeepsFarewell(s, WantCase);
    var (reply, s1) := WaitFor(s, WantCase);
    if reply.Some? && !reply.value.caseId {
      AwaitKeepsFarewell(s1);
    }
  }

  lemma StepKeepsFarewell(s: Session, op: Op)
    requires SaidFarewell(s) && !op.OpConnect?
    ensures SaidFarewell(Step(s, op))
  {
    hide AwaitCase, WaitFor;
    if op.OpCreate? {
      AwaitKeepsFarewell(SendDirect(s, CreateCase).1);
    }
  }

  lemma {:induction false} RunKeepsFarewell(s: Session, ops: seq<Op>)
    requires SaidFarewell(s) && forall i :: 0 <= i < |ops| ==> !ops[i].OpConnect?
    ensures SaidFarewell(Run(s, ops))
    decreases ops
  {
    hide Step, SaidFarewell;
    if ops != [] {
      StepKeepsFarewell(s, ops[0]);
      RunKeepsFarewell(Step(s, ops[0]), ops[1..]);
    }
  }

  /** A redial is wasted exactly on such a connection, and it is the last one wasted on it: whatever is called
      in between, the next redial gets through to the dial. */
  lemma OneRedialIsWasted(s: Session, dial: Dial, ops: seq<Op>, again: Dial)
    requires forall i :: 0 <= i < |ops| ==> !ops[i].OpConnect?
    ensures Wasteful(s) <==> s.link.Some? && CloseLink(s.link.value).0
    ensures var t := Connect(s, dial, 0).1;
            Wasteful(s) ==>
              && Connect(s, dial, 0).0 == Raised
              && t.past == s.past
              && !Wasteful(Run(t, ops))
              && Redial(Run(t, ops), again) == Reached(RetiredSession(Run(t, ops)), again)
  {
    hide Handshake;
    if Wasteful(s) {
      RunKeepsFarewell(Connect(s, dial, 0).1, ops);
    }
  }

  /** The session without its old connection, whose log it keeps. */
  function RetiredSession(s: Session): Session
  {
    if s.link.None? then s.(connected := false)
    else s.(connected := false, past := s.past + [s.link.value.log])
  }
}
