/** The first frames of every connection of a run, and what can spoil their order. */
module HandshakeOrder {
  import opened Wrappers
  import opened SessionSpec
  import opened SessionRuns

  function SentOf(l: Log): seq<Msg>
  {
    if l == [] then []
    else SentOf(l[..|l| - 1]) + (if l[|l| - 1].Sent? then [l[|l| - 1].msg] else [])
  }

  ghost predicate InOrder(sent: seq<Msg>)
  {
    (|sent| >= 1 ==> sent[0] == AuthToken) && (|sent| >= 2 ==> sent[1] == SessionResume)
  }

  /** What the current connection has carried. */
  function Carried(s: Session): seq<Msg>
  {
    if s.link.Some? then SentOf(s.link.value.log) else []
  }

  ghost predicate AllInOrder(s: Session)
  {
    InOrder(Carried(s)) && forall i :: 0 <= i < |s.past| ==> InOrder(SentOf(s.past[i]))
  }

  /** A `create_case` would go out here, ahead of the two handshake frames. */
  predicate HalfOpen(s: Session)
  {
    && s.link.Some?
    && s.link.value.live
    && (s.link.value.writes == [] || s.link.value.writes[0])
    && |Carried(s)| < 2
  }

  lemma {:induction false} ProgressNeedsSends(l: Log)
    ensures Progress(l) >= 1 ==> |SentOf(l)| >= 1
    ensures Progress(l) >= 3 ==> |SentOf(l)| >= 2
  {
    if l != [] {
      ProgressNeedsSends(l[..|l| - 1]);
    }
  }

  /** A step that sends nothing. */
  ghost predicate Silent(s: Session, t: Session)
  {
    t.past == s.past && Carried(t) == Carried(s)
  }

  lemma TakeIsSilent(s: Session)
    ensures Silent(s, Take(s).1)
  {
  }

  lemma {:induction false} WaitIsSilent(s: Session, want: Want)
    ensures Silent(s, WaitFor(s, want).1)
    decreases Inboxes(s)
  {
    TakeIsSilent(s);
    var (item, s1) := Take(s);
    if item.Junk? || item.Quiet? || (item.Message? && !Answers(item.reply, want)) {
      WaitIsSilent(s1, want);
    }
  }

  lemma {:induction false} AwaitCaseIsSilent(s: Session)
    ensures Silent(s, AwaitCase(s).1)
    decreases Inboxes(s)
  {
    WaitIsSilent(s, WantCase);
    var (reply, s1) := WaitFor(s, WantCase);
    if reply.Some? && !reply.value.caseId {
      AwaitCaseIsSilent(s1);
    }
  }

  lemma DirectCarries(s: Session, msg: Msg)
    ensures var (o, t) := SendDirect(s, msg);
            t.past == s.past && Carried(t) == Carried(s) + (if o.Returned? then [msg] else [])
  {
  }

  lemma IntentOrder(s: Session)
    requires Inv(s) && AllInOrder(s)
    ensures AllInOrder(SendIntent(s))
  {
    if s.connected {
      ProgressNeedsSends(s.link.value.log);
    }
  }

  lemma {:induction false} FlushOrder(s: Session, pending: seq<nat>)
    requires s.link.Some? && |Carried(s)| >= 2 && AllInOrder(s)
    ensures AllInOrder(FlushFrom(s, pending).1)
    decreases |pending|
  {
    if pending != [] {
      var (ok, l) := Write(s.link.value, Intent(pending[0]));
      if ok {
        FlushOrder(s.(link := Some(l)), pending[1..]);
      }
    }
  }

  lemma {:induction false} SecretsOrder(s: Session, n: nat)
    requires Inv(s) && AllInOrder(s)
    ensures AllInOrder(PushSecrets(s, n))
    decreases n
  {
    if n > 0 {
      SendIntentKeeps(s);
      IntentOrder(s);
      SecretsOrder(SendIntent(s), n - 1);
    }
  }

  lemma RedialOrder(s: Session, dial: Dial)
    requires AllInOrder(s)
    ensures var (o, t) := Redial(s, dial);
            AllInOrder(t) && (o.Returned? ==> Carried(t) == [])
  {
  }

  lemma HandshakeSends(s0: Session)
    requires Carried(s0) == []
    ensures var (o, t) := Handshake(s0);
            && t.past == s0.past
            && InOrder(Carried(t))
            && (o.Returned? ==> Carried(t) == [AuthToken, SessionResume])
  {
    hide WaitFor;
    var (o1, s1) := SendDirect(s0, AuthToken);
    var (ack, s2) := WaitFor(s1, WantAck);
    var (o3, s3) := SendDirect(s2, SessionResume);
    DirectCarries(s0, AuthToken);
    WaitIsSilent(s1, WantAck);
    DirectCarries(s2, SessionResume);
    WaitIsSilent(s3, WantState);
  }

  lemma ConnectOrder(s0: Session, dial: Dial, secrets: nat)
    requires Inv(s0) && AllInOrder(s0)
    ensures AllInOrder(Connect(s0, dial, secrets).1)
  {
    hide Handshake;
    var (o1, s1) := Redial(s0, dial);
    RedialOrder(s0, dial);
    RedialKeeps(s0, dial);
    if o1.Returned? {
      var (o2, s2) := Handshake(s1);
      HandshakeSends(s1);
      HandshakeKeeps(s1);
      CalmKeeps(s1, s2);
      if o2.Returned? {
        var s3 := s2.(connected := true, queue := []);
        FlushOrder(s3, s2.queue);
        assert OnTheWire(s3) == OnTheWire(s2);
        FlushKeeps(s3, s2.queue);
        SecretsOrder(FlushFrom(s3, s2.queue).1, secrets);
      }
    }
  }

  lemma CreateOrder(s: Session)
    requires AllInOrder(s)
    ensures AllInOrder(Create(s).1) <==> !HalfOpen(s)
  {
    var (o, s1) := SendDirect(s, CreateCase);
    DirectCarries(s, CreateCase);
    AwaitCaseIsSilent(s1);
    if o.Returned? {
      var sent := Carried(s) + [CreateCase];
      assert Carried(Create(s).1) == sent;
      assert sent[|sent| - 1] == CreateCase;
    }
  }

  /** Call by call, and both ways: the order of the first two frames survives every call but a
      `create_case` on a half-open connection, and is lost there. */
  lemma OrderSurvivesExactly(s: Session, op: Op)
    requires Inv(s) && AllInOrder(s)
    ensures AllInOrder(Step(s, op)) <==> !(op.OpCreate? && HalfOpen(s))
  {
    match op
    case OpConnect(dial, secrets) => ConnectOrder(s, dial, secrets);
    case OpIntent => IntentOrder(s);
    case OpCreate => CreateOrder(s);
    case OpRefresh =>
      if s.connected {
        ProgressNeedsSends(s.link.value.log);
        DirectCarries(s, SessionResume);
      }
    case OpReceive => TakeIsSilent(s);
    case OpClose =>
  }

  // ---------------------------------------------------------------------------------------
  // What was sent stays sent
  // ---------------------------------------------------------------------------------------

  /** `t` comes after `s`: closed connections stay as they were, and what the current one carried is still at
      the head of what it carried, whether it is current any more or not. */
  ghost predicate Remembers(s: Session, t: Session)
  {
    && s.past <= t.past
    && (|t.past| == |s.past| ==> Carried(s) <= Carried(t))
    && (|t.past| > |s.past| ==> Carried(s) <= SentOf(t.past[|s.past|]))
  }

  lemma RemembersOn(a: Session, b: Session, c: Session)
    requires Remembers(a, b) && Remembers(b, c)
    ensures Remembers(a, c)
  {
    hide SentOf;
    if |b.past| > |a.past| {
      assert c.past[|a.past|] == b.past[|a.past|];
    }
  }

  /** A connection whose order is lost has lost it for good. */
  lemma LostStaysLost(s: Session, t: Session)
    requires Remembers(s, t) && !AllInOrder(s)
    ensures !AllInOrder(t)
  {
    hide SentOf;
    if i :| 0 <= i < |s.past| && !InOrder(SentOf(s.past[i])) {
      assert t.past[i] == s.past[i];
    } else {
      assert !InOrder(Carried(s));
      if |t.past| > |s.past| {
        assert !InOrder(SentOf(t.past[|s.past|]));
      }
    }
  }

  lemma IntentRemembers(s: Session)
    ensures Remembers(s, SendIntent(s))
  {
  }

  lemma {:induction false} FlushRemembers(s: Session, pending: seq<nat>)
    ensures Remembers(s, FlushFrom(s, pending).1)
    decreases |pending|
  {
    if pending != [] && s.link.Some? {
      var (ok, l) := Write(s.link.value, Intent(pending[0]));
      if ok {
        var s1 := s.(link := Some(l));
        FlushRemembers(s1, pending[1..]);
        RemembersOn(s, s1, FlushFrom(s1, pending[1..]).1);
      }
    }
  }

  lemma {:induction false} SecretsRemember(s: Session, n: nat)
    ensures Remembers(s, PushSecrets(s, n))
    decreases n
  {
    if n > 0 {
      hide SendIntent;
      IntentRemembers(s);
      SecretsRemember(SendIntent(s), n - 1);
      RemembersOn(s, SendIntent(s), PushSecrets(SendIntent(s), n - 1));
    }
  }

  lemma RedialRemembers(s: Session, dial: Dial)
    ensures Remembers(s, Redial(s, dial).1)
  {
  }

  lemma HandshakeRemembers(s0: Session)
    ensures Remembers(s0, Handshake(s0).1)
  {
    hide WaitFor, SentOf, SendDirect;
    var (o1, s1) := SendDirect(s0, AuthToken);
    var (ack, s2) := WaitFor(s1, WantAck);
    var (o3, s3) := SendDirect(s2, SessionResume);
    DirectCarries(s0, AuthToken);
    WaitIsSilent(s1, WantAck);
    DirectCarries(s2, SessionResume);
    WaitIsSilent(s3, WantState);
  }

  lemma ConnectRemembers(s0: Session, dial: Dial, secrets: nat)
    ensures Remembers(s0, Connect(s0, dial, secrets).1)
  {
    hide Redial, Handshake, FlushFrom, PushSecrets, SentOf;
    var (o1, s1) := Redial(s0, dial);
    RedialRemembers(s0, dial);
    if o1.Returned? {
      var (o2, s2) := Handshake(s1);
      HandshakeRemembers(s1);
      RemembersOn(s0, s1, s2);
      if o2.Returned? {
        var s3 := s2.(connected := true, queue := []);
        FlushRemembers(s3, s2.queue);
        var s4 := FlushFrom(s3, s2.queue).1;
        assert Remembers(s2, s4);
        RemembersOn(s0, s2, s4);
        SecretsRemember(s4, secrets);
        RemembersOn(s0, s4, PushSecrets(s4, secrets));
      }
    }
  }

  lemma CreateRemembers(s: Session)
    ensures Remembers(s, Create(s).1)
  {
    hide SentOf, SendDirect, AwaitCase;
    DirectCarries(s, CreateCase);
    AwaitCaseIsSilent(SendDirect(s, CreateCase).1);
  }

  lemma StepRemembers(s: Session, op: Op)
    ensures Remembers(s, Step(s, op))
  {
    hide Connect, SendIntent, Create, Take, SendDirect, SentOf;
    match op
    case OpConnect(dial, secrets) => ConnectRemembers(s, dial, secrets);
    case OpIntent => IntentRemembers(s);
    case OpCreate => CreateRemembers(s);
    case OpRefresh => DirectCarries(s, SessionResume);
    case OpReceive => TakeIsSilent(s);
    case OpClose =>
  }

  lemma {:induction false} LostInRuns(s: Session, ops: seq<Op>)
    requires !AllInOrder(s)
    ensures !AllInOrder(Run(s, ops))
    decreases ops
  {
    hide Step, AllInOrder;
    if ops != [] {
      StepRemembers(s, ops[0]);
      LostStaysLost(s, Step(s, ops[0]));
      LostInRuns(Step(s, ops[0]), ops[1..]);
    }
  }

  // ---------------------------------------------------------------------------------------
  // Whole runs
  // ---------------------------------------------------------------------------------------

  /** No `create_case` of the run is called on a half-open connection. */
  ghost predicate NoHalfOpenCreate(s: Session, ops: seq<Op>)
    decreases ops
  {
    ops == [] || (!(ops[0].OpCreate? && HalfOpen(s)) && NoHalfOpenCreate(Step(s, ops[0]), ops[1..]))
  }

  lemma {:induction false} OrderInEveryRun(s: Session, ops: seq<Op>)
    requires Inv(s) && AllInOrder(s)
    ensures AllInOrder(Run(s, ops)) <==> NoHalfOpenCreate(s, ops)
    decreases ops
  {
    hide Step, AllInOrder, HalfOpen, Inv;
    if ops != [] {
      OrderSurvivesExactly(s, ops[0]);
      StepKeeps(s, ops[0]);
      if AllInOrder(Step(s, ops[0])) {
        OrderInEveryRun(Step(s, ops[0]), ops[1..]);
      } else {
        LostInRuns(Step(s, ops[0]), ops[1..]);
      }
    }
  }

  /** On every connection of a run the two handshake frames are the first if and only if no `create_case` of
      the run meets a half-open connection. */
  lemma OrderHoldsExactly(ops: seq<Op>)
    ensures AllInOrder(Run(INITIAL, ops)) <==> NoHalfOpenCreate(INITIAL, ops)
  {
    InitialInv();
    OrderInEveryRun(INITIAL, ops);
  }

  /** A run in which `create_case` is only called on connected clients. */
  ghost predicate CreatesOnlyConnected(s: Session, ops: seq<Op>)
    decreases ops
  {
    ops == [] || ((ops[0].OpCreate? ==> s.connected) && CreatesOnlyConnected(Step(s, ops[0]), ops[1..]))
  }

  lemma {:induction false} OrderInRuns(s: Session, ops: seq<Op>)
    requires Inv(s) && AllInOrder(s) && CreatesOnlyConnected(s, ops)
    ensures AllInOrder(Run(s, ops))
    decreases ops
  {
    if ops != [] {
      if s.connected {
        ProgressNeedsSends(s.link.value.log);
      }
      OrderSurvivesExactly(s, ops[0]);
      StepKeeps(s, ops[0]);
      OrderInRuns(Step(s, ops[0]), ops[1..]);
    }
  }

  /** On every connection of every such run the handshake frames are the first two. */
  lemma HandshakeFramesComeFirst(ops: seq<Op>)
    requires CreatesOnlyConnected(INITIAL, ops)
    ensures AllInOrder(Run(INITIAL, ops))
  {
    InitialInv();
    OrderInRuns(INITIAL, ops);
  }

  /** The run that loses the order: the server opens the socket and never acknowledges the token, and
      the caller goes on to create a case. */
  lemma CreateCanOvertakeResume()
    ensures !AllInOrder(Run(INITIAL, [OpConnect(Dial(Opened, [], []), 0), OpCreate]))
  {
    var ops := [OpConnect(Dial(Opened, [], []), 0), OpCreate];
    var s := Step(INITIAL, ops[0]);
    var (o1, s1) := Redial(INITIAL, Dial(Opened, [], []));
    var (o2, s2) := SendDirect(s1, AuthToken);
    DirectCarries(s1, AuthToken);
    assert WaitFor(s2, WantAck) == (None, s2);
    assert s == s2;
    assert Carried(s) == [AuthToken];
    CreateOrder(s);
    assert Run(INITIAL, ops) == Run(s, ops[1..]) == Run(Step(s, OpCreate), ops[1..][1..]);
  }
}
