/** Saying goodbye: what goes out and what is reported when either side closes. */
module CloseHandshake {
  import opened Wrappers
  import opened Bits
  import opened FrameCodec
  import opened ConnectionSpec
  import opened Reassembly
  import opened Messages

  /** The write after `k` others succeeds. */
  predicate Goes(c: Conn, k: nat)
  {
    k >= |c.writes| || c.writes[k]
  }

  /** What is left of the fates of the writes after the first `k`. */
  function Later(c: Conn, k: nat): seq<bool>
  {
    if k <= |c.writes| then c.writes[k..] else []
  }

  /** The code a Close frame carries in its first two bytes. */
  function PeerCode(body: Bytes): Option<nat>
  {
    if |body| >= 2 then Some(256 * body[0] as nat + body[1] as nat) else None
  }

  /** The answer to a Close frame: its code, and not its reason. */
  function Echo(body: Bytes): Frame
  {
    Frame(true, CLOSE, if |body| >= 2 then [body[0], body[1]] else body)
  }

  /** The client's own Close frame, with code 1000. */
  const GOODBYE: Frame := Frame(true, CLOSE, [3, 0xE8])

  /** What one more write leaves of the frames on the wire. */
  function Carried(c: Conn, k: nat, f: Frame): seq<Frame>
  {
    if Goes(c, k) then [f] else []
  }

  /** `close` on an open connection (section 5.5.1 of RFC 6455): one Close frame with the code in two bytes
      and the reason cut at 120; the socket is gone if it went out. Otherwise `close` raises and the socket
      stays. */
  lemma CloseSaysGoodbye(c: Conn, code: nat, reason: Bytes)
    requires c.live && !c.closed && code < 65536
    ensures var cut := (if |reason| > 120 then reason[..120] else reason);
            var f := Frame(true, CLOSE, [(code / 256) as bv8, (code % 256) as bv8] + cut);
            CloseStep(c, code, reason) ==
            (!Goes(c, 0),
             Conn(c.stream, Later(c, 1), c.sent + Carried(c, 0, f), !Goes(c, 0), true))
  {
    TwoBytes(code);
    assert c.sent + [] == c.sent;
    assert |reason| == 120 ==> reason[..120] == reason;
  }

  lemma TwoBytes(code: nat)
    requires code < 65536
    ensures BigEndian(code, 2) == [(code / 256) as bv8, (code % 256) as bv8]
  {
    assert BigEndian(code, 2) == BigEndian(code / 256, 1) + [(code % 256) as bv8];
    assert BigEndian(code / 256, 1) == BigEndian(code / 256 / 256, 0) + [(code / 256 % 256) as bv8];
  }

  lemma CodeOfTwo(payload: Bytes)
    ensures CloseCode(payload) == PeerCode(payload)
  {
    if |payload| >= 2 {
      var two := payload[..2];
      assert two[..1] == [payload[0]] && two[1] == payload[1];
      assert FromBigEndian(two) == FromBigEndian(two[..1]) * 256 + two[1] as nat;
      assert two[..1][..0] == [];
      assert FromBigEndian(two[..1]) == FromBigEndian([]) * 256 + payload[0] as nat;
    }
  }

  /** `recv` meets a Close frame on an open connection, in whatever dress, in or between text messages, with
      anything behind it. Its first two bytes go back, then the client says goodbye with code 1000; what
      `recv` reports is the peer's code, unless the goodbye could not be written: then it has none, and the
      socket stays. */
  lemma CloseIsAnswered(c: Conn, p: Packet, fragments: seq<Bytes>, tail: Stream, max: nat)
    requires c.live && !c.closed && p.frame.opcode == CLOSE && CanEncodeAll([p]) && |p.frame.payload| <= max
    ensures var body := p.frame.payload;
            RecvStep(c.(stream := WireStream([p], tail)), fragments, max) ==
            (Failed(Closed(if Goes(c, 1) then PeerCode(body) else None)),
             Conn(tail, Later(c, 2), c.sent + Carried(c, 0, Echo(body)) + Carried(c, 1, GOODBYE), !Goes(c, 1), true))
  {
    hide WireStream, FrameStep;
    var body := p.frame.payload;
    MeetsClose(c, p, fragments, tail, max);
    EchoThenGoodbye(c.(stream := tail), body);
  }

  lemma MeetsClose(c: Conn, p: Packet, fragments: seq<Bytes>, tail: Stream, max: nat)
    requires c.live && p.frame.opcode == CLOSE && CanEncodeAll([p]) && |p.frame.payload| <= max
    ensures RecvStep(c.(stream := WireStream([p], tail)), fragments, max)
         == PeerClosed(c.(stream := tail), p.frame.payload)
  {
    hide WireStream, FrameStep, PeerClosed;
    assert Frames([p]) == [p.frame];
    ReadWire(c, [p], tail, max);
    assert [p][1..] == [];
    EmptyWire(tail);
    OneFrame(c, WireStream([p], tail), p.frame, tail, fragments, false, max);
    PeerClosedStream(c, tail, p.frame.payload);
  }

  lemma EchoThenGoodbye(c: Conn, body: Bytes)
    requires c.live && !c.closed
    ensures PeerClosed(c, body)
         == (Failed(Closed(if Goes(c, 1) then PeerCode(body) else None)),
             Conn(c.stream, Later(c, 2), c.sent + Carried(c, 0, Echo(body)) + Carried(c, 1, GOODBYE),
                  !Goes(c, 1), true))
  {
    hide CloseCode;
    assert |body| >= 2 ==> body[..2] == [body[0], body[1]];
    var c1 := SendStep(c, CLOSE, if |body| >= 2 then body[..2] else body).1;
    CloseSaysGoodbye(c1, 1000, []);
    CodeOfTwo(body);
    assert [3, 0xE8] + [] == [3 as bv8, 0xE8];
    assert c.sent + [] == c.sent;
    assert Goes(c1, 0) == Goes(c, 1) && Later(c1, 1) == Later(c, 2);
  }

  /** With a `close` of its own behind it that could not be written, the client echoes the Close and says no
      second goodbye; the peer's code is reported all the same. */
  lemma CloseAfterAFailedClose(c: Conn, p: Packet, fragments: seq<Bytes>, tail: Stream, max: nat)
    requires c.live && c.closed && p.frame.opcode == CLOSE && CanEncodeAll([p]) && |p.frame.payload| <= max
    ensures var body := p.frame.payload;
            RecvStep(c.(stream := WireStream([p], tail)), fragments, max) ==
            (Failed(Closed(PeerCode(body))), Conn(tail, Later(c, 1), c.sent + Carried(c, 0, Echo(body)), true, true))
  {
    hide WireStream, FrameStep, RecvStep, CloseCode;
    MeetsClose(c, p, fragments, tail, max);
    var body := p.frame.payload;
    CodeOfTwo(body);
    assert |body| >= 2 ==> body[..2] == [body[0], body[1]];
    assert c.sent + [] == c.sent;
  }

  /** A Close inside an unfinished binary message, with another control frame before it in that message: while
      writes succeed, what goes out is a pong for each ping behind that first control frame, the echo and the
      goodbye, and the peer's code is reported. */
  lemma CloseBehindAControl(
    c: Conn, ps: seq<Packet>, first: Bytes, inside: seq<Inner>, body: Bytes, tail: Stream, max: nat)
    requires c.live && !c.closed && c.writes == [] && CanEncodeAll(ps) && Small(Frames(ps), max)
    requires Frames(ps) == OpenBinary(first, inside, body) && Controls(inside) != []
    ensures RecvStep(c.(stream := WireStream(ps, tail)), [], max)
         == (Failed(Closed(PeerCode(body))),
             Conn(tail, [], c.sent + PongFrames(Pings(Controls(inside)[1..])) + [Echo(body), GOODBYE], false, true))
  {
    hide RecvStep, WireStream;
    var pings := Pings(Controls(inside)[1..]);
    CloseIsSeenBehindAControl(c, ps, first, inside, body, tail, max);
    AnswersAreSent(c, pings);
    var c1 := Answered(c, pings).(stream := tail);
    EchoThenGoodbye(c1, body);
    assert c1.sent + [Echo(body)] + [GOODBYE] == c1.sent + [Echo(body), GOODBYE];
  }
}
