/** `WebSocketConnection` (plugin/net/trid3nt_client.py) over a chunked socket. */
module WebSocket {
  import opened Wrappers
  import opened FrameCodec
  import opened ConnectionSpec
  import opened Sockets
  import opened Upgrade

  /** Section 5.3 asks a client to mask every frame, section 5.2 for the minimal length form. */
  ghost predicate ClientPacket(p: Packet)
  {
    && p.frame.fin
    && p.dress.key.Some?
    && p.dress.form == MinimalForm(|p.frame.payload|)
    && |p.frame.payload| < MAX_LENGTH
  }

  /** The buffered reader, the frame writer and the reassembly loop, each proved to do exactly what the
      machine of module ConnectionSpec does to the connection's stream, whatever the chunks are. */
  class WebSocketConnection {
    const maxMessageBytes: nat
    const net: Socket
    var sock: Socket?
    var recvBuf: Bytes
    var closed: bool
    ghost var preamble: Bytes          // what was written before the first frame
    ghost var sent: seq<Packet>

    ghost predicate Valid()
      reads this, net
    {
      && maxMessageBytes < MAX_LENGTH
      && (sock != null ==> sock == net)
      && (forall i :: 0 <= i < |sent| ==> ClientPacket(sent[i]))
      && CanEncodeAll(sent)
      && net.wire == preamble + EncodeAll(sent)
    }

    /** The connection as the machine sees it. */
    ghost function State(): Conn
      reads this, net
    {
      Conn(Items(recvBuf) + ItemsOf(net.incoming), net.writes, Frames(sent), sock != null, closed)
    }

    /** Right after `socket.create_connection`. */
    constructor (net: Socket, maxMessageBytes: nat)
      requires maxMessageBytes < MAX_LENGTH
      ensures Valid() && this.net == net && this.maxMessageBytes == maxMessageBytes
      ensures State() == Conn(ItemsOf(net.incoming), net.writes, [], true, false)
      ensures sent == [] && preamble == net.wire && recvBuf == []
    {
      this.net := net;
      this.maxMessageBytes := maxMessageBytes;
      sock := net;
      recvBuf := [];
      closed := false;
      preamble := net.wire;
      sent := [];
      new;
      assert Encodings([]) == [];
      assert net.wire + [] == net.wire;
      assert Items([]) + ItemsOf(net.incoming) == ItemsOf(net.incoming);
    }

    /** The end of `connect`: read the answer to the upgrade request up to the blank line, keep what
        follows it, and let `accepts` judge the head (status line and accept key). */
    method FinishUpgrade(accepts: Bytes -> bool) returns (r: Outcome)
      requires Valid() && sock != null && recvBuf == []
      modifies this`recvBuf, net`incoming
      ensures Valid()
      ensures var (o, later) := ReadHead([], old(net.incoming));
              && net.incoming == later
              && r == (if o.Head? && !accepts(o.head) then Refused else o)
              && recvBuf == (if o.Head? then o.rest else [])
    {
      var response: Bytes := [];
      while Find(response).None?
        invariant sock == net && Valid() && recvBuf == []
        invariant ReadHead(response, net.incoming) == ReadHead([], old(net.incoming))
        decreases |net.incoming|
      {
        var d := sock.Recv();
        if !d.Data? {
          return Interrupted;
        }
        if d.chunk == [] {
          return ServerClosed;
        }
        response := response + d.chunk;
        if |response| > MAX_RESPONSE {
          return Oversized;
        }
      }
      var at := Find(response).value;
      recvBuf := response[at + 4..];
      r := if accepts(response[..at]) then Head(response[..at], recvBuf) else Refused;
    }

    /** The header `_send_frame` puts before the masking key. */
    static method BuildHeader(opcode: bv4, n: nat) returns (header: Bytes)
      requires n < MAX_LENGTH
      ensures header == Header(true, opcode, true, n, MinimalForm(n))
    {
      header := [FirstByte(true, opcode)];
      if n < 126 {
        header := header + [SecondByte(true, n as bv8)];
      } else if n < 65536 {
        header := header + [SecondByte(true, 126)] + BigEndian(n, 2);
      } else {
        header := header + [SecondByte(true, 127)] + BigEndian(n, 8);
      }
    }

    /** `_send_frame`, with the masking key drawn by the operating system. */
    method SendFrame(opcode: bv4, payload: Bytes) returns (ok: bool)
      requires Valid() && |payload| < MAX_LENGTH
      modifies this`sent, net`writes, net`wire
      ensures Valid()
      ensures (ok, State()) == SendStep(old(State()), opcode, payload)
    {
      if sock == null {
        return false;
      }
      var header := BuildHeader(opcode, |payload|);
      var key: Key := *;
      var masked := ApplyKey(key, payload);
      ghost var packet := Packet(Frame(true, opcode, payload), ClientDress(|payload|, key));
      ghost var data := Encode(packet.frame, packet.dress);
      assert data == header + key + masked;
      EncodeAllAppend(sent, packet, preamble);
      assert Frames(sent + [packet]) == Frames(sent) + [packet.frame];
      ok := sock.SendAll(header + key + masked);
      if ok {
        sent := sent + [packet];
      }
    }

    /** `close`: true where the code raises `ConnectionClosed`. */
    method Close(code: nat, reason: Bytes) returns (raised: bool)
      requires Valid() && code < 65536
      modifies this`sent, this`closed, this`sock, net`writes, net`wire
      ensures Valid()
      ensures (raised, State()) == CloseStep(old(State()), code, reason)
    {
      if sock == null || closed {
        return false;
      }
      closed := true;
      var ok := SendFrame(CLOSE, CloseBody(code, reason));
      if !ok {
        return true;
      }
      sock := null;
      raised := false;
    }

    /** One turn of the loop of `_read_exact`: `Got` leaves the stream as it was, with more of it
        buffered; anything else is the outcome of the whole read. */
    method Pull(n: nat, allowTimeout: bool) returns (r: Read<Bytes>)
      requires Valid() && sock != null && |recvBuf| < n
      modifies this`recvBuf, net`incoming
      ensures r.Got? ==> State() == old(State()) && |net.incoming| < old(|net.incoming|)
      ensures !r.Got? ==> (r, State()) == ReadStep(old(State()), n, allowTimeout)
      ensures r.Nothing? ==> recvBuf == []
    {
      ghost var before, buffered := State(), recvBuf;
      var d := sock.Recv();
      ghost var rest := ItemsOf(net.incoming);
      match d {
        case Data(chunk) =>
          if chunk == [] {
            StoppedRead(before, buffered, Ended, rest, n, allowTimeout);
            return Failed(LOST);
          }
          ItemsJoin(buffered, chunk, rest);
          recvBuf := recvBuf + chunk;
          return Got([]);
        case TimedOut =>
          if before.stream == Items(buffered) + [] {
            EmptyRead(before, buffered, n, allowTimeout);
          } else {
            StoppedRead(before, buffered, Silence, rest, n, allowTimeout);
          }
          return if allowTimeout && recvBuf == [] then Nothing else Failed(LOST);
        case SocketError =>
          StoppedRead(before, buffered, Broken, rest, n, allowTimeout);
          return Failed(LOST);
      }
    }

    /** `_read_exact`. */
    method ReadExact(n: nat, allowTimeout: bool) returns (r: Read<Bytes>)
      requires Valid()
      modifies this`recvBuf, net`incoming
      ensures Valid()
      ensures (r, State()) == ReadStep(old(State()), n, allowTimeout)
      // the only way to `None` leaves nothing buffered
      ensures r.Nothing? ==> recvBuf == []
    {
      if sock == null {
        return Failed(LOST);
      }
      while |recvBuf| < n
        invariant sock == net && Valid()
        invariant State() == old(State())
        decreases |net.incoming|
      {
        r := Pull(n, allowTimeout);
        if !r.Got? {
          return;
        }
      }
      Buffered(recvBuf, ItemsOf(net.incoming), n);
      r := Got(recvBuf[..n]);
      recvBuf := recvBuf[n..];
    }

    /** The extended length of a frame header. */
    method ReadLength(length7: bv8) returns (r: Read<nat>)
      requires Valid()
      modifies this`recvBuf, net`incoming
      ensures Valid()
      ensures (r, State()) == LengthStep(old(State()), length7)
    {
      if length7 == 126 || length7 == 127 {
        var ext := ReadExact(if length7 == 126 then 2 else 8, false);
        if ext.Failed? {
          return Failed(ext.error);
        }
        return Got(FromBigEndian(ext.value));
      }
      r := Got(length7 as nat);
    }

    /** The part of `_recv_frame` after the length is known. */
    method ReadPayload(b0: bv8, masked: bool, length: nat) returns (r: Read<Frame>)
      requires Valid()
      modifies this`recvBuf, net`incoming
      ensures Valid()
      ensures (r, State()) == PayloadStep(old(State()), b0, masked, length)
    {
      var key: Option<Key> := None;
      if masked {
        var k := ReadExact(4, false);
        if k.Failed? {
          return Failed(k.error);
        }
        key := Some(k.value);
      }
      var payload: Bytes := [];
      if length > 0 {
        var data := ReadExact(length, false);
        if data.Failed? {
          return Failed(data.error);
        }
        payload := data.value;
      }
      r := Got(Frame(b0 & 0x80 != 0, (b0 & 0x0F) as bv4, Body(key, payload)));
    }

    /** `_recv_frame` after the two header bytes. */
    method RecvBody(b0: bv8, b1: bv8) returns (r: Read<Frame>)
      requires Valid()
      modifies this`recvBuf, net`incoming
      ensures Valid()
      ensures (r, State()) == BodyStep(old(State()), b0, b1, maxMessageBytes)
    {
      var length := ReadLength(b1 & 0x7F);
      if length.Failed? {
        return Failed(length.error);
      }
      if length.value > maxMessageBytes {
        return Failed(Protocol);
      }
      r := ReadPayload(b0, b1 & 0x80 != 0, length.value);
    }

    /** `_recv_frame`. */
    method RecvFrame() returns (r: Read<Frame>)
      requires Valid()
      modifies this`recvBuf, net`incoming
      ensures Valid()
      ensures (r, State()) == FrameStep(old(State()), maxMessageBytes)
      ensures r.Nothing? ==> recvBuf == []
    {
      var header := ReadExact(2, true);
      match header {
        case Nothing => return Nothing;
        case Failed(e) => return Failed(e);
        case Got(h) => r := RecvBody(h[0], h[1]);
      }
    }

    /** The inner loop of `recv` over the continuations of a binary message. */
    method SkipBinary(fin0: bool) returns (r: Read<()>)
      requires Valid()
      modifies this`recvBuf, net`incoming
      ensures Valid()
      ensures (r, State()) == SkipStep(old(State()), fin0, maxMessageBytes)
    {
      var fin := fin0;
      while !fin
        invariant Valid()
        invariant SkipStep(State(), fin, maxMessageBytes) == SkipStep(old(State()), fin0, maxMessageBytes)
        decreases |State().stream|, !fin
      {
        var next := RecvFrame();
        match next {
          case Nothing => return Failed(LOST);
          case Failed(e) => return Failed(e);
          case Got(f) => fin := f.fin;
        }
      }
      r := Got(());
    }

    /** The answer to a Close frame. */
    method AnswerClose(payload: Bytes) returns (r: Read<Bytes>)
      requires Valid() && |payload| < MAX_LENGTH
      modifies this`sent, this`closed, this`sock, net`writes, net`wire
      ensures Valid()
      ensures (r, State()) == PeerClosed(old(State()), payload)
    {
      var code: Option<nat> := None;
      if |payload| >= 2 {
        code := Some(FromBigEndian(payload[..2]));
      }
      var _ := SendFrame(CLOSE, if |payload| >= 2 then payload[..2] else payload);
      var raised := Close(1000, []);
      r := Failed(Closed(if raised then None else code));
    }

    /** `recv`. */
    method Recv() returns (r: Read<Bytes>)
      requires Valid()
      modifies this, net
      ensures Valid()
      ensures (r, State()) == RecvStep(old(State()), [], maxMessageBytes)
      ensures r.Nothing? ==> recvBuf == []
      ensures preamble == old(preamble)
    {
      hide FrameStep, SkipStep, PeerClosed, SendStep;
      var fragments: seq<Bytes> := [];
      while true
        invariant Valid() && preamble == old(preamble)
        invariant RecvStep(State(), fragments, maxMessageBytes) == RecvStep(old(State()), [], maxMessageBytes)
        decreases |State().stream|
      {
        var next := RecvFrame();
        if next.Nothing? {
          return if fragments == [] then Nothing else Failed(LOST);
        }
        if next.Failed? {
          return Failed(next.error);
        }
        var f := next.value;
        if f.opcode == PING {
          var _ := SendFrame(PONG, f.payload);
        } else if f.opcode == CLOSE {
          r := AnswerClose(f.payload);
          return;
        } else if f.opcode == BINARY {
          var skipped := SkipBinary(f.fin);
          if skipped.Failed? {
            return Failed(skipped.error);
          }
        } else if f.opcode == TEXT && fragments != [] {
          return Failed(Protocol);
        } else if f.opcode == TEXT || (f.opcode == CONT && fragments != []) {
          fragments := fragments + [f.payload];
          if |Flatten(fragments)| > maxMessageBytes {
            return Failed(Protocol);
          }
          if f.fin {
            return Got(Flatten(fragments));
          }
        }
      }
    }
  }

  /** A read that stops short: the buffered bytes, then something that is not a byte. */
  lemma StoppedRead(c: Conn, buffered: Bytes, stop: Item, rest: Stream, n: nat, allowTimeout: bool)
    requires c.live && c.stream == Items(buffered) + ([stop] + rest)
    requires |buffered| < n && !stop.B?
    ensures ReadStep(c, n, allowTimeout)
         == (if stop.Silence? && allowTimeout && buffered == [] then Nothing else Failed(LOST),
             c.(stream := Items(buffered) + rest))
  {
    var s, k := c.stream, |buffered|;
    LeadIs(s, n, k);
    assert s[..k] + s[k + 1..] == Items(buffered) + rest;
  }

  lemma EmptyRead(c: Conn, buffered: Bytes, n: nat, allowTimeout: bool)
    requires c.live && c.stream == Items(buffered) + [] && |buffered| < n
    ensures ReadStep(c, n, allowTimeout) == (if allowTimeout && buffered == [] then Nothing else Failed(LOST), c)
  {
    LeadIs(c.stream, n, |buffered|);
  }

  /** A read the buffer can serve. */
  lemma Buffered(buffer: Bytes, rest: Stream, n: nat)
    requires n <= |buffer|
    ensures var s := Items(buffer) + rest;
            Lead(s, n) == n && Unitems(s[..n]) == buffer[..n] && s[n..] == Items(buffer[n..]) + rest
  {
    var s := Items(buffer) + rest;
    assert forall i :: 0 <= i < |buffer| ==> s[i] == B(buffer[i]);
    LeadIs(s, n, n);
  }

  lemma ItemsJoin(a: Bytes, b: Bytes, rest: Stream)
    ensures Items(a) + (Items(b) + rest) == Items(a + b) + rest
  {
  }

  lemma EncodeAllAppend(ps: seq<Packet>, p: Packet, preamble: Bytes)
    requires CanEncodeAll(ps) && CanEncode(p.frame, p.dress)
    ensures CanEncodeAll(ps + [p])
    ensures (preamble + EncodeAll(ps)) + Encode(p.frame, p.dress) == preamble + EncodeAll(ps + [p])
  {
    EncodeAllOne(p);
    EncodeAllConcat(ps, [p]);
    Associative(preamble, EncodeAll(ps), Encode(p.frame, p.dress));
  }
}
