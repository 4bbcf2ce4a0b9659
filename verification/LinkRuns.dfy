/** Every connection, seen by the client that uses it, is a link of module SessionSpec. */
module LinkRuns {
  import opened Wrappers
  import opened FrameCodec
  import opened ConnectionSpec
  import opened SessionSpec

  // Module ConnectionSpec has `WebSocketConnection` byte by byte; module SessionSpec has a list of fates and
  // items in its place. Whatever the client does with a connection, some such list answers alike, so what
  // holds of the session on every link holds of it on every connection. Deadlines are the client's own.

  /** The JSON between the two: how a message is spelled, and which envelope a text holds, if it is one. */
  datatype Language = Language(spell: Msg -> Bytes, parse: Bytes -> Option<Reply>)

  /** What the client does with its connection. */
  datatype Use = Say(msg: Msg) | Listen | HangUp

  /** What the client sees of it. How a connection got lost it cannot tell. */
  datatype Answer =
    | Said(ok: bool)
    | Envelope(reply: Reply)
    | Noise
    | Waited
    | Gone
    | Wrong
    | Late
    | HungUp(raised: bool)

  function Heard(r: Read<Bytes>, lang: Language): Answer
  {
    match r
    case Got(text) => (match lang.parse(text) case Some(reply) => Envelope(reply) case None => Noise)
    case Nothing => Waited
    case Failed(Closed(_)) => Gone
    case Failed(Protocol) => Wrong
  }

  function OnConn(c: Conn, use: Use, lang: Language, max: nat): (Answer, Conn)
  {
    match use
    case Say(msg) => var (ok, c1) := SendStep(c, TEXT, lang.spell(msg)); (Said(ok), c1)
    case Listen => var (r, c1) := RecvStep(c, [], max); (Heard(r, lang), c1)
    case HangUp => var (raised, c1) := CloseStep(c, 1000, []); (HungUp(raised), c1)
  }

  function Told(item: Inbound): Answer
  {
    match item
    case Message(reply) => Envelope(reply)
    case Junk => Noise
    case Quiet => Waited
    case Loss => Gone
    case PeerClose => Gone
    case Violation => Wrong
    case Expired => Late
  }

  function OnLink(l: LinkState, use: Use): (Answer, LinkState)
  {
    match use
    case Say(msg) => var (ok, l1) := Write(l, msg); (Said(ok), l1)
    case Listen =>
      if !l.live then (Gone, l)
      else if l.inbox == [] then (Late, l)
      else (Told(l.inbox[0]), Absorb(l, l.inbox[0]))
    case HangUp => var (raised, l1) := CloseLink(l); (HungUp(raised), l1)
  }

  function ConnRun(c: Conn, uses: seq<Use>, lang: Language, max: nat): (seq<Answer>, Conn)
    decreases uses
  {
    if uses == [] then ([], c)
    else
      var (a, c1) := OnConn(c, uses[0], lang, max);
      var (more, end) := ConnRun(c1, uses[1..], lang, max);
      ([a] + more, end)
  }

  function LinkRun(l: LinkState, uses: seq<Use>): (seq<Answer>, LinkState)
    decreases uses
  {
    if uses == [] then ([], l)
    else
      var (a, l1) := OnLink(l, uses[0]);
      var (more, end) := LinkRun(l1, uses[1..]);
      ([a] + more, end)
  }

  // ---------------------------------------------------------------------------------------
  // What the two have in common
  // ---------------------------------------------------------------------------------------

  function TextPayloads(sent: seq<Frame>): seq<Bytes>
  {
    if sent == [] then []
    else
      TextPayloads(sent[..|sent| - 1])
      + (if sent[|sent| - 1].opcode == TEXT then [sent[|sent| - 1].payload] else [])
  }

  function Spelled(log: Log, lang: Language): seq<Bytes>
  {
    if log == [] then []
    else
      Spelled(log[..|log| - 1], lang)
      + (if log[|log| - 1].Sent? then [lang.spell(log[|log| - 1].msg)] else [])
  }

  /** Both are open or not, and the text frames on the wire are the messages in the log, in order. */
  ghost predicate Alike(l: LinkState, c: Conn, lang: Language)
  {
    l.live == c.live && l.closed == c.closed && TextPayloads(c.sent) == Spelled(l.log, lang)
  }

  lemma SentOne(c: Conn, opcode: bv4, payload: Bytes)
    ensures var (ok, c1) := SendStep(c, opcode, payload);
            TextPayloads(c1.sent) == TextPayloads(c.sent) + (if ok && opcode == TEXT then [payload] else [])
  {
    var f := Frame(true, opcode, payload);
    assert (c.sent + [f])[..|c.sent|] == c.sent;
  }

  lemma ClosedOne(c: Conn, code: nat, reason: Bytes)
    ensures TextPayloads(CloseStep(c, code, reason).1.sent) == TextPayloads(c.sent)
  {
    SentOne(c.(closed := true), CLOSE, CloseBody(code, reason));
  }

  /** What `recv` does to a connection besides reading: it sends no text, and where it leaves the connection
      in another state it has closed it and says so. */
  ghost predicate OnlyRead(c: Conn, r: Read<Bytes>, c1: Conn)
  {
    && TextPayloads(c1.sent) == TextPayloads(c.sent)
    && (|| (c1.live == c.live && c1.closed == c.closed)
        || (c.live && !c.closed && c1.closed && r.Failed? && r.error.Closed?))
    && (!c.live ==> r == Failed(LOST))
  }

  lemma PeerClosedOnlyReads(c: Conn, payload: Bytes)
    requires c.live
    ensures OnlyRead(c, PeerClosed(c, payload).0, PeerClosed(c, payload).1)
  {
    var echo := if |payload| >= 2 then payload[..2] else payload;
    SentOne(c, CLOSE, echo);
    ClosedOne(SendStep(c, CLOSE, echo).1, 1000, []);
  }

  lemma {:induction false} RecvOnlyReads(c: Conn, fragments: seq<Bytes>, max: nat)
    ensures OnlyRead(c, RecvStep(c, fragments, max).0, RecvStep(c, fragments, max).1)
    decreases |c.stream|
  {
    hide SkipStep, PeerClosed, Flatten;
    var (next, c1) := FrameStep(c, max);
    if next.Got? {
      var f := next.value;
      if f.opcode == PING {
        SentOne(c1, PONG, f.payload);
        RecvOnlyReads(SendStep(c1, PONG, f.payload).1, fragments, max);
      } else if f.opcode == CLOSE {
        PeerClosedOnlyReads(c1, f.payload);
      } else if f.opcode == BINARY {
        var (skipped, c2) := SkipStep(c1, f.fin, max);
        if skipped.Got? {
          RecvOnlyReads(c2, fragments, max);
        }
      } else if f.opcode == TEXT && fragments != [] {
      } else if f.opcode == TEXT || (f.opcode == CONT && fragments != []) {
        RecvOnlyReads(c1, fragments + [f.payload], max);
      } else {
        RecvOnlyReads(c1, fragments, max);
      }
    }
  }

  // ---------------------------------------------------------------------------------------
  // The simulation
  // ---------------------------------------------------------------------------------------

  /** The item of a link that stands for one `recv`: a connection that the call closed was closed by its
      peer, and any other that is gone was lost. */
  function ItemFor(c: Conn, lang: Language, max: nat): Inbound
  {
    var (r, c1) := RecvStep(c, [], max);
    match Heard(r, lang)
    case Envelope(reply) => Message(reply)
    case Noise => Junk
    case Waited => Quiet
    case Wrong => Violation
    case _ => if c1.closed && !c.closed then PeerClose else Loss
  }

  function Noted(log: Log, use: Use, answer: Answer): Log
  {
    if use.Say? && answer == Said(true) then log + [Sent(use.msg)]
    else if answer.Envelope? then log + [Received(answer.reply)]
    else log
  }

  /** The log of the messages keeps up with the text frames on the wire. */
  lemma LogKeepsUp(c: Conn, use: Use, lang: Language, max: nat, log: Log)
    requires TextPayloads(c.sent) == Spelled(log, lang)
    ensures var (answer, c1) := OnConn(c, use, lang, max);
            TextPayloads(c1.sent) == Spelled(Noted(log, use, answer), lang)
  {
    hide TextPayloads, RecvStep, SendStep, CloseStep;
    var answer := OnConn(c, use, lang, max).0;
    assert Noted(log, use, answer) != log ==> Noted(log, use, answer)[..|log|] == log;
    match use
    case Say(msg) => SentOne(c, TEXT, lang.spell(msg));
    case Listen => RecvOnlyReads(c, [], max);
    case HangUp => ClosedOne(c, 1000, []);
  }

  /** A read, in front of a link that does what is left. */
  lemma OneRead(c: Conn, lang: Language, max: nat, log: Log, writes: seq<bool>, inbox: seq<Inbound>)
    returns (l: LinkState)
    requires c.live
    ensures l == LinkState(c.live, c.closed, l.writes, l.inbox, log)
    ensures var (answer, c1) := OnConn(c, Listen, lang, max);
            OnLink(l, Listen) == (answer, LinkState(c1.live, c1.closed, writes, inbox, Noted(log, Listen, answer)))
  {
    hide RecvStep, TextPayloads;
    RecvOnlyReads(c, [], max);
    var c1 := OnConn(c, Listen, lang, max).1;
    var fates := if c1.closed && !c.closed then [true, !c1.live] else [];
    l := LinkState(c.live, c.closed, fates + writes, [ItemFor(c, lang, max)] + inbox, log);
    assert l.inbox[1..] == inbox && l.writes[|fates|..] == writes;
    assert fates != [] ==> l.writes[1..] == [!c1.live] + writes;
  }

  /** One use, in front of a link that does what is left. */
  lemma OneUse(c: Conn, use: Use, lang: Language, max: nat, log: Log, writes: seq<bool>, inbox: seq<Inbound>)
    returns (l: LinkState)
    ensures l == LinkState(c.live, c.closed, l.writes, l.inbox, log)
    ensures var (answer, c1) := OnConn(c, use, lang, max);
            OnLink(l, use) == (answer, LinkState(c1.live, c1.closed, writes, inbox, Noted(log, use, answer)))
  {
    hide RecvStep;
    var (answer, c1) := OnConn(c, use, lang, max);
    if use.Listen? && c.live {
      l := OneRead(c, lang, max, log, writes, inbox);
    } else {
      var fates := if !c.live || use.Listen? then []
                   else if use.Say? then [answer.ok]
                   else if c.closed then [] else [!c1.live];
      l := LinkState(c.live, c.closed, fates + writes, inbox, log);
      assert l.writes[|fates|..] == writes;
      RecvOnlyReads(c, [], max);
    }
  }

  /** Whatever a client does with a connection in any state, some link answers it alike at every use, and
      they end alike. */
  lemma {:induction false} EveryConnectionIsALink(c: Conn, uses: seq<Use>, lang: Language, max: nat, log: Log)
    returns (l: LinkState)
    requires TextPayloads(c.sent) == Spelled(log, lang)
    ensures l == LinkState(c.live, c.closed, l.writes, l.inbox, log)
    ensures ConnRun(c, uses, lang, max).0 == LinkRun(l, uses).0
    ensures Alike(LinkRun(l, uses).1, ConnRun(c, uses, lang, max).1, lang)
    decreases uses
  {
    hide OnConn, OnLink, TextPayloads, Spelled;
    if uses == [] {
      l := LinkState(c.live, c.closed, [], [], log);
    } else {
      var (answer, c1) := OnConn(c, uses[0], lang, max);
      LogKeepsUp(c, uses[0], lang, max, log);
      var later := EveryConnectionIsALink(c1, uses[1..], lang, max, Noted(log, uses[0], answer));
      l := OneUse(c, uses[0], lang, max, log, later.writes, later.inbox);
    }
  }

  /** So every connection just opened is one that the session can dial. */
  lemma OpenedConnectionIsADial(c: Conn, uses: seq<Use>, lang: Language, max: nat) returns (dial: Dial)
    requires c.live && !c.closed && TextPayloads(c.sent) == []
    ensures dial.outcome.Opened?
    ensures var l := Reached(INITIAL, dial).1.link.value;
            && ConnRun(c, uses, lang, max).0 == LinkRun(l, uses).0
            && Alike(LinkRun(l, uses).1, ConnRun(c, uses, lang, max).1, lang)
  {
    var l := EveryConnectionIsALink(c, uses, lang, max, []);
    dial := Dial(Opened, l.writes, l.inbox);
  }
}
