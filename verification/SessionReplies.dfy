/** What the session's calls wait for, and exactly when they return. */
module SessionReplies {
  import opened Wrappers
  import opened Submissions
  import opened SessionSpec

  // ---------------------------------------------------------------------------------------
  // The drain
  // ---------------------------------------------------------------------------------------

  /** `_wait_for` goes on over this item: nothing came in time, no envelope, or one of another type. */
  predicate Passes(item: Inbound, want: Want)
  {
    match item
    case Message(reply) => !Answers(reply, want)
    case Junk => true
    case Quiet => true
    case _ => false
  }

  predicate AllPass(items: seq<Inbound>, want: Want)
  {
    forall i :: 0 <= i < |items| ==> Passes(items[i], want)
  }

  /** The envelopes among the items. */
  function Heard(items: seq<Inbound>): Log
  {
    if items == [] then [] else (if items[0].Message? then [Received(items[0].reply)] else []) + Heard(items[1..])
  }

  lemma {:induction false} HeardConcat(a: seq<Inbound>, b: seq<Inbound>)
    ensures Heard(a + b) == Heard(a) + Heard(b)
  {
    if a == [] {
      assert a + b == b;
    } else {
      HeardConcat(a[1..], b);
      assert (a + b)[1..] == a[1..] + b;
    }
  }

  predicate Open(s: Session)
  {
    s.link.Some? && s.link.value.live
  }

  /** The session after it has drained `n` items. */
  function Drained(s: Session, n: nat): Session
    requires Open(s) && n <= |s.link.value.inbox|
  {
    var l := s.link.value;
    s.(link := Some(l.(inbox := l.inbox[n..], log := l.log + Heard(l.inbox[..n]))))
  }

  /** The first item that a wait does not pass over is at `k`, if there is one. */
  ghost predicate StopsAt(inbox: seq<Inbound>, want: Want, k: nat)
  {
    && k <= |inbox|
    && AllPass(inbox[..k], want)
    && (k < |inbox| ==> !Passes(inbox[k], want))
  }

  lemma {:induction false} FirstStop(inbox: seq<Inbound>, want: Want) returns (k: nat)
    ensures StopsAt(inbox, want, k)
  {
    if inbox == [] || !Passes(inbox[0], want) {
      k := 0;
    } else {
      var later := FirstStop(inbox[1..], want);
      k := later + 1;
      assert forall i :: 0 < i < k ==> inbox[i] == inbox[1..][..later][i - 1];
    }
  }

  /** What a lost connection leaves of the session. */
  function CutOff(s: Session, item: Inbound): Session
    requires Open(s) && s.link.value.inbox != []
  {
    s.(connected := s.connected && !item.Loss? && !item.PeerClose?, link := Some(Absorb(s.link.value, item)))
  }

  /** A wait drains everything up to the first envelope of the wanted type and returns that, unless the end,
      a loss, a Close, a violation or the deadline comes first: then it raises, and a lost connection has
      lowered the flag. */
  lemma {:induction false} WaitIs(s: Session, want: Want, k: nat)
    requires Open(s) && StopsAt(s.link.value.inbox, want, k)
    ensures var inbox := s.link.value.inbox;
            WaitFor(s, want) ==
            if k == |inbox| then (None, Drained(s, k))
            else if inbox[k].Message? then (Some(inbox[k].reply), Drained(s, k + 1))
            else (None, CutOff(Drained(s, k), inbox[k]))
    decreases k
  {
    var inbox := s.link.value.inbox;
    if k == 0 {
      assert inbox[0..] == inbox && inbox[..0] == [];
      assert s.link.value.log + [] == s.link.value.log;
      if inbox != [] {
        HeardOne(inbox[0]);
        assert inbox[..1] == [inbox[0]];
      }
    } else {
      var s1 := Take(s).1;
      PassingOne(s, want);
      StopsLater(inbox, want, k);
      WaitIs(s1, want, k - 1);
      DrainedOneMore(s, k - 1);
      if k < |inbox| {
        DrainedOneMore(s, k);
      }
    }
  }

  lemma HeardOne(item: Inbound)
    ensures Heard([item]) == if item.Message? then [Received(item.reply)] else []
  {
  }

  lemma PassingOne(s: Session, want: Want)
    requires Open(s) && s.link.value.inbox != [] && Passes(s.link.value.inbox[0], want)
    ensures Take(s).1 == Drained(s, 1) && WaitFor(s, want) == WaitFor(Take(s).1, want)
  {
    var inbox := s.link.value.inbox;
    HeardOne(inbox[0]);
    assert inbox[..1] == [inbox[0]];
    assert s.link.value.log + [] == s.link.value.log;
  }

  lemma StopsLater(inbox: seq<Inbound>, want: Want, k: nat)
    requires k > 0 && StopsAt(inbox, want, k)
    ensures StopsAt(inbox[1..], want, k - 1) && Passes(inbox[0], want)
  {
    assert inbox[..k][0] == inbox[0];
    assert inbox[1..][..k - 1] == inbox[..k][1..];
  }

  lemma DrainedOneMore(s: Session, n: nat)
    requires Open(s) && n < |s.link.value.inbox|
    ensures Drained(Drained(s, 1), n) == Drained(s, n + 1)
  {
    var l := s.link.value;
    assert l.inbox[..n + 1] == l.inbox[..1] + l.inbox[1..][..n];
    HeardConcat(l.inbox[..1], l.inbox[1..][..n]);
    assert l.inbox[1..][n..] == l.inbox[n + 1..];
    assert l.log + Heard(l.inbox[..1]) + Heard(l.inbox[1..][..n])
        == l.log + (Heard(l.inbox[..1]) + Heard(l.inbox[1..][..n]));
  }

  // ---------------------------------------------------------------------------------------
  // connect
  // ---------------------------------------------------------------------------------------

  /** The old connection lets itself be dropped. */
  predicate Droppable(s: Session)
  {
    || s.link.None?
    || !s.link.value.live || s.link.value.closed
    || s.link.value.writes == [] || s.link.value.writes[0]
  }

  /** The server answers the handshake: an ack with a user id at `i`, a session state at `j`, and before each
      only what a wait passes over. */
  ghost predicate Welcomes(inbox: seq<Inbound>, i: nat, j: nat)
  {
    && i < j < |inbox|
    && AllPass(inbox[..i], WantAck) && inbox[i] == Message(AuthAck(true))
    && AllPass(inbox[i + 1..j], WantState) && inbox[j] == Message(SessionState)
  }

  function Intents(ns: seq<nat>): Log
  {
    seq(|ns|, i requires 0 <= i < |ns| => Sent(Intent(ns[i])))
  }

  /** The numbers of `n` submissions from `first` on. */
  function Fresh(first: nat, n: nat): seq<nat>
  {
    seq(n, i => first + i)
  }

  /** The handshake on the log. */
  function Shaken(inbox: seq<Inbound>, i: nat, j: nat): Log
    requires i < j < |inbox|
  {
    [Sent(AuthToken)] + Heard(inbox[..i + 1]) + [Sent(SessionResume)] + Heard(inbox[i + 1..j + 1])
  }

  /** A connection just opened, on which every write succeeds. */
  predicate Pristine(s: Session)
  {
    s.link.Some? && s.link.value == LinkState(true, false, [], s.link.value.inbox, [])
  }

  /** After the token was sent and its ack was read. */
  function Acked(s: Session, i: nat): Session
    requires Pristine(s) && i < |s.link.value.inbox|
  {
    var l := s.link.value;
    s.(link := Some(l.(inbox := l.inbox[i + 1..], log := [Sent(AuthToken)] + Heard(l.inbox[..i + 1]))))
  }

  lemma AckIs(s: Session, i: nat)
    requires Pristine(s) && StopsAt(s.link.value.inbox, WantAck, i)
    ensures var inbox := s.link.value.inbox;
            var (r, s2) := WaitFor(SendDirect(s, AuthToken).1, WantAck);
            && (r.Some? <==> i < |inbox| && inbox[i].Message?)
            && (r.Some? ==> inbox[i] == Message(r.value) && s2 == Acked(s, i))
  {
    assert [] + [Sent(AuthToken)] == [Sent(AuthToken)];
    WaitIs(SendDirect(s, AuthToken).1, WantAck, i);
  }

  lemma StateIs(s: Session, i: nat, j: nat)
    requires Pristine(s) && i < j && j <= |s.link.value.inbox|
    requires StopsAt(s.link.value.inbox[i + 1..], WantState, j - i - 1)
    ensures var inbox := s.link.value.inbox;
            var (r, s4) := WaitFor(SendDirect(Acked(s, i), SessionResume).1, WantState);
            && (r.Some? <==> j < |inbox| && inbox[j].Message?)
            && (r.Some? ==> inbox[j] == Message(r.value)
                            && s4 == s.(link := Some(LinkState(true, false, [], inbox[j + 1..], Shaken(inbox, i, j)))))
  {
    var inbox := s.link.value.inbox;
    var s3 := SendDirect(Acked(s, i), SessionResume).1;
    WaitIs(s3, WantState, j - i - 1);
    if j < |inbox| {
      assert inbox[i + 1..][..j - i] == inbox[i + 1..j + 1];
      assert inbox[i + 1..][j - i..] == inbox[j + 1..];
    }
  }

  lemma StopsInside(inbox: seq<Inbound>, i: nat, j: nat)
    requires Welcomes(inbox, i, j)
    ensures StopsAt(inbox, WantAck, i) && StopsAt(inbox[i + 1..], WantState, j - i - 1)
  {
    assert inbox[i + 1..][..j - i - 1] == inbox[i + 1..j];
  }

  /** The handshake is done where the server welcomes the client, */
  lemma HandshakeDoes(s: Session, i: nat, j: nat)
    requires Pristine(s) && Welcomes(s.link.value.inbox, i, j)
    ensures var inbox := s.link.value.inbox;
            Handshake(s) ==
            (Returned, s.(link := Some(LinkState(true, false, [], inbox[j + 1..], Shaken(inbox, i, j)))))
  {
    hide WaitFor;
    StopsInside(s.link.value.inbox, i, j);
    AckIs(s, i);
    StateIs(s, i, j);
  }

  /** and nowhere else. */
  lemma HandshakeNeeds(s: Session) returns (i: nat, j: nat)
    requires Pristine(s) && Handshake(s).0.Returned?
    ensures Welcomes(s.link.value.inbox, i, j)
  {
    hide WaitFor;
    var inbox := s.link.value.inbox;
    i := FirstStop(inbox, WantAck);
    AckIs(s, i);
    var k := FirstStop(inbox[i + 1..], WantState);
    j := i + 1 + k;
    StateIs(s, i, j);
    assert inbox[i + 1..][..k] == inbox[i + 1..j];
  }

  lemma {:induction false} FlushDoes(s: Session, pending: seq<nat>)
    requires Open(s) && s.link.value.writes == []
    ensures FlushFrom(s, pending)
         == (Returned, s.(link := Some(s.link.value.(log := s.link.value.log + Intents(pending)))))
    decreases |pending|
  {
    var l := s.link.value;
    if pending == [] {
      assert l.log + Intents(pending) == l.log;
    } else {
      FlushDoes(s.(link := Some(Write(l, Intent(pending[0])).1)), pending[1..]);
      assert l.log + [Sent(Intent(pending[0]))] + Intents(pending[1..]) == l.log + Intents(pending);
    }
  }

  lemma {:induction false} PushDoes(s: Session, n: nat)
    requires Open(s) && s.link.value.writes == [] && s.connected
    ensures var l := s.link.value;
            PushSecrets(s, n) ==
            s.(submitted := s.submitted + n,
               link := Some(l.(log := l.log + Intents(Fresh(s.submitted, n)))))
    decreases n
  {
    var l := s.link.value;
    if n == 0 {
      assert l.log + Intents(Fresh(s.submitted, 0)) == l.log;
    } else {
      PushDoes(SendIntent(s), n - 1);
      assert l.log + [Sent(Intent(s.submitted))] + Intents(Fresh(s.submitted + 1, n - 1))
          == l.log + Intents(Fresh(s.submitted, n));
    }
  }

  lemma RedialDoes(s: Session, dial: Dial)
    requires Droppable(s) && dial.outcome.Opened? && dial.writes == []
    ensures Redial(s, dial).0.Returned? && Pristine(Redial(s, dial).1)
    ensures Redial(s, dial).1
         == Session(false, Some(LinkState(true, false, [], dial.inbox, [])), s.queue, s.submitted, s.dropped,
                    s.past + if s.link.Some? then [s.link.value.log] else [])
  {
    assert s.past + [] == s.past;
  }

  /** Where the server welcomes the client, `connect` returns with the flag up and an empty queue, and the wire
      has carried the handshake, the queued frames in order, and a frame for each stored credential. */
  lemma ConnectDoes(s: Session, dial: Dial, secrets: nat, i: nat, j: nat)
    requires Droppable(s) && dial.outcome.Opened? && dial.writes == [] && Welcomes(dial.inbox, i, j)
    ensures var log := Shaken(dial.inbox, i, j) + Intents(s.queue) + Intents(Fresh(s.submitted, secrets));
            Connect(s, dial, secrets) ==
            (Returned, Session(true, Some(LinkState(true, false, [], dial.inbox[j + 1..], log)), [],
                               s.submitted + secrets, s.dropped,
                               s.past + if s.link.Some? then [s.link.value.log] else []))
  {
    hide Redial, Handshake, FlushFrom, PushSecrets, Shaken;
    RedialDoes(s, dial);
    var s1 := Redial(s, dial).1;
    HandshakeDoes(s1, i, j);
    var s2 := Handshake(s1).1.(connected := true);
    FlushDoes(s2.(queue := []), s2.queue);
    PushDoes(Flush(s2).1, secrets);
  }

  /** Over a connection that opens and carries every write, `connect` returns exactly where the server welcomes
      the client; where it raises, the flag is down. */
  lemma ConnectReturnsExactly(s: Session, dial: Dial, secrets: nat)
    requires Droppable(s) && dial.outcome.Opened? && dial.writes == []
    ensures Connect(s, dial, secrets).0.Returned? <==> exists i, j :: Welcomes(dial.inbox, i, j)
    ensures Connect(s, dial, secrets).0.Raised? ==> !Connect(s, dial, secrets).1.connected
  {
    hide Redial, Handshake, FlushFrom, PushSecrets, Shaken;
    RedialDoes(s, dial);
    var s1 := Redial(s, dial).1;
    if i, j :| Welcomes(dial.inbox, i, j) {
      ConnectDoes(s, dial, secrets, i, j);
    } else {
      HandshakeKeepsFlagDown(s1);
      if Handshake(s1).0.Returned? {
        var i, j := HandshakeNeeds(s1);
      }
    }
  }

  lemma HandshakeKeepsFlagDown(s: Session)
    requires !s.connected
    ensures !Handshake(s).1.connected
  {
    hide WaitFor;
    var s1 := SendDirect(s, AuthToken).1;
    WaitKeepsFlagDown(s1, WantAck);
    var s3 := SendDirect(WaitFor(s1, WantAck).1, SessionResume).1;
    WaitKeepsFlagDown(s3, WantState);
  }

  lemma {:induction false} WaitKeepsFlagDown(s: Session, want: Want)
    requires !s.connected
    ensures !WaitFor(s, want).1.connected
    decreases Inboxes(s)
  {
    var (item, s1) := Take(s);
    if item.Message? || item.Junk? || item.Quiet? {
      WaitKeepsFlagDown(s1, want);
    }
  }

  /** The frames stand together on the log. */
  ghost predicate Carries(log: Log, frames: Log)
  {
    exists a, b :: log == a + frames + b
  }

  lemma {:induction false} FlushedWhole(s: Session, pending: seq<nat>)
    requires FlushFrom(s, pending).0.Returned? && s.link.Some?
    ensures var t := FlushFrom(s, pending).1;
            t.link.Some? && t.link.value.log == s.link.value.log + Intents(pending)
    decreases |pending|
  {
    var l := s.link.value;
    if pending == [] {
      assert l.log + Intents(pending) == l.log;
    } else {
      FlushedWhole(s.(link := Some(Write(l, Intent(pending[0])).1)), pending[1..]);
      assert l.log + [Sent(Intent(pending[0]))] + Intents(pending[1..]) == l.log + Intents(pending);
    }
  }

  lemma {:induction false} PushesBehind(s: Session, n: nat)
    requires s.link.Some?
    ensures PushSecrets(s, n).link.Some? && s.link.value.log <= PushSecrets(s, n).link.value.log
    decreases n
  {
    if n > 0 {
      PushesBehind(SendIntent(s), n - 1);
    }
  }

  lemma {:induction false} WaitKeepsQueue(s: Session, want: Want)
    ensures WaitFor(s, want).1.queue == s.queue
    decreases Inboxes(s)
  {
    var (item, s1) := Take(s);
    if item.Message? || item.Junk? || item.Quiet? {
      WaitKeepsQueue(s1, want);
    }
  }

  lemma HandshakeKeepsQueue(s: Session)
    ensures Handshake(s).1.queue == s.queue
    ensures s.link.Some? ==> Handshake(s).1.link.Some?
  {
    hide WaitFor;
    var s1 := SendDirect(s, AuthToken).1;
    WaitKeepsQueue(s1, WantAck);
    WaitKeepsLink(s1, WantAck);
    var s3 := SendDirect(WaitFor(s1, WantAck).1, SessionResume).1;
    WaitKeepsQueue(s3, WantState);
    WaitKeepsLink(s3, WantState);
  }

  lemma {:induction false} WaitKeepsLink(s: Session, want: Want)
    ensures WaitFor(s, want).1.link.Some? == s.link.Some?
    decreases Inboxes(s)
  {
    var (item, s1) := Take(s);
    if item.Message? || item.Junk? || item.Quiet? {
      WaitKeepsLink(s1, want);
    }
  }

  /** Whatever the dial and the fates of its writes, `connect` returns only where the new connection has carried
      all that was queued, in order. */
  lemma ReturnedMeansFlushed(s: Session, dial: Dial, secrets: nat)
    requires Connect(s, dial, secrets).0.Returned?
    ensures Connect(s, dial, secrets).1.link.Some?
    ensures Carries(Connect(s, dial, secrets).1.link.value.log, Intents(s.queue))
  {
    hide Handshake, FlushFrom, PushSecrets;
    var s1 := Redial(s, dial).1;
    HandshakeKeepsQueue(s1);
    var s2 := Handshake(s1).1.(connected := true);
    FlushedWhole(s2.(queue := []), s2.queue);
    var s3 := Flush(s2).1;
    PushesBehind(s3, secrets);
    var end := PushSecrets(s3, secrets).link.value.log;
    assert end == s2.link.value.log + Intents(s.queue) + end[|s3.link.value.log|..];
  }

  /** Nothing of the server's welcome helps where the dial itself fails or the farewell to the old connection
      does: `connect` raises with the flag down and the queue untouched. */
  lemma ConnectFailsEarly(s: Session, dial: Dial, secrets: nat)
    requires !Droppable(s) || !dial.outcome.Opened?
    ensures var (o, s1) := Connect(s, dial, secrets);
            o.Raised? && !s1.connected && s1.queue == s.queue && s1.submitted == s.submitted
  {
  }

  // ---------------------------------------------------------------------------------------
  // create_case and the other calls
  // ---------------------------------------------------------------------------------------

  /** `create_case` goes on over this item: an envelope of another type, or a case without an id. */
  predicate NoCase(item: Inbound)
  {
    item.Junk? || item.Quiet? || (item.Message? && item.reply != CaseOpen(true))
  }

  /** The case of the new id is opened at `k`. */
  ghost predicate OpensCase(inbox: seq<Inbound>, k: nat)
  {
    && k < |inbox| && inbox[k] == Message(CaseOpen(true))
    && forall i :: 0 <= i < k ==> NoCase(inbox[i])
  }

  lemma {:induction false} AwaitCaseIs(s: Session, k: nat)
    requires Open(s) && OpensCase(s.link.value.inbox, k)
    ensures AwaitCase(s) == (Returned, Drained(s, k + 1))
    decreases k
  {
    hide WaitFor;
    var inbox := s.link.value.inbox;
    var n := FirstStop(inbox, WantCase);
    assert forall i :: 0 <= i < n ==> inbox[i] == inbox[..n][i];
    WaitIs(s, WantCase, n);
    if n < k {
      assert NoCase(inbox[n]);
      AwaitCaseIs(Drained(s, n + 1), k - n - 1);
      DrainedMore(s, n + 1, k - n);
    }
  }

  lemma DrainedMore(s: Session, m: nat, n: nat)
    requires Open(s) && m + n <= |s.link.value.inbox|
    ensures Drained(Drained(s, m), n) == Drained(s, m + n)
  {
    var l := s.link.value;
    assert l.inbox[..m + n] == l.inbox[..m] + l.inbox[m..][..n];
    HeardConcat(l.inbox[..m], l.inbox[m..][..n]);
    assert l.inbox[m..][n..] == l.inbox[m + n..];
    assert l.log + Heard(l.inbox[..m]) + Heard(l.inbox[m..][..n])
        == l.log + (Heard(l.inbox[..m]) + Heard(l.inbox[m..][..n]));
  }

  lemma {:induction false} AwaitCaseNeeds(s: Session) returns (k: nat)
    requires Open(s) && AwaitCase(s).0.Returned?
    ensures OpensCase(s.link.value.inbox, k)
    decreases Inboxes(s)
  {
    hide WaitFor;
    var inbox := s.link.value.inbox;
    var n := FirstStop(inbox, WantCase);
    WaitIs(s, WantCase, n);
    assert forall i :: 0 <= i < n ==> inbox[i] == inbox[..n][i];
    if inbox[n] == Message(CaseOpen(true)) {
      k := n;
    } else {
      var later := AwaitCaseNeeds(Drained(s, n + 1));
      k := n + 1 + later;
      assert forall i :: n < i < |inbox| ==> inbox[i] == inbox[n + 1..][i - n - 1];
    }
  }

  /** `create_case` on a link that carries its request returns exactly where an opened case with an id comes
      before the end, a loss, a Close, a violation or the deadline. */
  lemma CreateReturnsExactly(s: Session)
    requires Open(s) && (s.link.value.writes == [] || s.link.value.writes[0])
    ensures Create(s).0.Returned? <==> exists k :: OpensCase(s.link.value.inbox, k)
    ensures forall k: nat :: OpensCase(s.link.value.inbox, k) ==>
              Create(s).1 == Drained(SendDirect(s, CreateCase).1, k + 1)
              && Create(s).1.link.value.log
                 == s.link.value.log + [Sent(CreateCase)] + Heard(s.link.value.inbox[..k + 1])
  {
    hide AwaitCase;
    var s1 := SendDirect(s, CreateCase).1;
    if Create(s).0.Returned? {
      var k := AwaitCaseNeeds(s1);
    }
    forall k: nat | OpensCase(s.link.value.inbox, k)
      ensures Create(s) == (Returned, Drained(s1, k + 1))
    {
      AwaitCaseIs(s1, k);
    }
  }

  /** A frame that may be queued goes out at once on a connected link that carries it; otherwise it waits as
      the newest of the queue, and a failed write has lowered the flag. */
  lemma IntentGoesOutOrWaits(s: Session)
    ensures var s1, n := SendIntent(s), s.submitted;
            && s1.submitted == n + 1
            && (if s.connected && Open(s) && (s.link.value.writes == [] || s.link.value.writes[0])
                then s1.connected && s1.queue == s.queue && s1.link.Some?
                     && s1.link.value.log == s.link.value.log + [Sent(Intent(n))]
                else s1.queue != [] && s1.queue[|s1.queue| - 1] == n
                     && (s1.connected <==> s.connected && s.link.None?)
                     && (s.link.Some? ==> s1.link.Some? && s1.link.value.log == s.link.value.log))
  {
  }

  /** A refresh of the case list is sent while connected and never otherwise. */
  lemma RefreshSends(s: Session)
    ensures !s.connected ==> Refresh(s) == (Returned, s)
    ensures s.connected && Open(s) && s.link.value.writes == [] ==>
              Refresh(s)
              == (Returned, s.(link := Some(s.link.value.(log := s.link.value.log + [Sent(SessionResume)]))))
  {
  }

  /** `close` returns exactly where the old connection lets itself be dropped, and then there is none. */
  lemma CloseDropsTheLink(s: Session)
    ensures var (o, s1) := Close(s);
            && !s1.connected && s1.queue == s.queue
            && (o.Returned? <==> Droppable(s))
            && (o.Returned? ==> s1.link.None?)
            && (s.link.Some? ==> o.Returned? ==> s1.past == s.past + [s.link.value.log])
  {
  }
}
