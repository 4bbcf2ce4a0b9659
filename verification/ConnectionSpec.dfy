/** What `WebSocketConnection` does, as a machine on the stream its socket delivers. */
module ConnectionSpec {
  import opened Wrappers
  import opened FrameCodec

  // The stream is one of bytes, expired waits, errors and the end. How TCP cuts the bytes into chunks does
  // not appear here at all; module WebSocket refines this machine.

  /** One thing a blocking `recv` can bring: `Silence` is the wait in force running out. */
  datatype Item = B(byte: bv8) | Silence | Broken | Ended

  type Stream = seq<Item>

  /** `ConnectionClosed(code)` and plain `WebSocketError`. */
  datatype Error = Closed(code: Option<nat>) | Protocol

  datatype Read<+T> = Got(value: T) | Nothing | Failed(error: Error)

  /** The state of one connection: what is still to be read (buffered or not), which of the next
      writes will succeed (all of them once the list is used up), the frames written so far,
      `_sock is not None`, and `_closed`. */
  datatype Conn = Conn(stream: Stream, writes: seq<bool>, sent: seq<Frame>, live: bool, closed: bool)

  const LOST: Error := Closed(None)

  function Items(b: Bytes): (r: Stream)
    ensures |r| == |b|
  {
    seq(|b|, i requires 0 <= i < |b| => B(b[i]))
  }

  function Unitems(s: Stream): (r: Bytes)
    requires forall i :: 0 <= i < |s| ==> s[i].B?
    ensures |r| == |s|
  {
    seq(|s|, i requires 0 <= i < |s| => s[i].byte)
  }

  /** The number of leading bytes of `s`, counted no further than `n`. */
  function Lead(s: Stream, n: nat): (k: nat)
    ensures k <= n && k <= |s|
    ensures forall i :: 0 <= i < k ==> s[i].B?
    ensures k < n && k < |s| ==> !s[k].B?
  {
    if n == 0 || s == [] || !s[0].B? then 0
    else
      var k := Lead(s[1..], n - 1);
      assert forall i :: 0 < i < k + 1 ==> s[i] == s[1..][i - 1];
      k + 1
  }

  lemma {:induction false} LeadIs(s: Stream, n: nat, k: nat)
    requires k <= n && k <= |s|
    requires forall i :: 0 <= i < k ==> s[i].B?
    requires k == n || k == |s| || !s[k].B?
    ensures Lead(s, n) == k
  {
    if k > 0 {
      assert forall i :: 0 <= i < k - 1 ==> s[1..][i] == s[i + 1];
      LeadIs(s[1..], n - 1, k - 1);
    }
  }

  // ---------------------------------------------------------------------------------------
  // _read_exact
  // ---------------------------------------------------------------------------------------

  /** `_read_exact`. A wait that runs out on the very first byte is `Nothing` when the caller
      allows it; anything else that stops the bytes short is a lost connection. */
  function ReadStep(c: Conn, n: nat, allowTimeout: bool): (r: (Read<Bytes>, Conn))
    ensures r.1 == c.(stream := r.1.stream)
    ensures |r.1.stream| <= |c.stream|
    ensures r.0.Got? ==> |r.0.value| == n && |r.1.stream| == |c.stream| - n
    ensures r.0.Nothing? ==> allowTimeout
    ensures r.0.Failed? ==> r.0 == Failed(LOST)
  {
    if !c.live then (Failed(LOST), c)
    else
      var s := c.stream;
      var k := Lead(s, n);
      if k == n then (Got(Unitems(s[..n])), c.(stream := s[n..]))
      else if k == |s| then (if allowTimeout && k == 0 then Nothing else Failed(LOST), c)
      else
        (if s[k].Silence? && allowTimeout && k == 0 then Nothing else Failed(LOST),
         c.(stream := s[..k] + s[k + 1..]))
  }

  // ---------------------------------------------------------------------------------------
  // _recv_frame
  // ---------------------------------------------------------------------------------------

  function LengthStep(c: Conn, length7: bv8): (r: (Read<nat>, Conn))
    ensures r.1 == c.(stream := r.1.stream)
    ensures |r.1.stream| <= |c.stream|
    ensures !r.0.Nothing?
  {
    if length7 == 126 || length7 == 127 then
      var (ext, c1) := ReadStep(c, if length7 == 126 then 2 else 8, false);
      if ext.Got? then (Got(FromBigEndian(ext.value)), c1) else (Failed(ext.error), c1)
    else
      (Got(length7 as nat), c)
  }

  function KeyStep(c: Conn, masked: bool): (r: (Read<Option<Key>>, Conn))
    ensures r.1 == c.(stream := r.1.stream)
    ensures |r.1.stream| <= |c.stream|
    ensures !r.0.Nothing?
    ensures r.0.Got? ==> r.0.value.Some? == masked
  {
    if masked then
      var (key, c1) := ReadStep(c, 4, false);
      if key.Got? then (Got(Some(key.value)), c1) else (Failed(key.error), c1)
    else
      (Got(None), c)
  }

  function PayloadStep(c: Conn, b0: bv8, masked: bool, length: nat): (r: (Read<Frame>, Conn))
    ensures r.1 == c.(stream := r.1.stream)
    ensures |r.1.stream| <= |c.stream|
    ensures !r.0.Nothing?
    ensures r.0.Got? ==> |r.0.value.payload| == length
  {
    var (key, c1) := KeyStep(c, masked);
    if !key.Got? then (Failed(key.error), c1)
    else
      var (data, c2) := if length == 0 then (Got([]), c1) else ReadStep(c1, length, false);
      if !data.Got? then (Failed(data.error), c2)
      else (Got(Frame(b0 & 0x80 != 0, (b0 & 0x0F) as bv4, Body(key.value, data.value))), c2)
  }

  /** `_recv_frame` after the two header bytes. */
  function BodyStep(c: Conn, b0: bv8, b1: bv8, max: nat): (r: (Read<Frame>, Conn))
    ensures r.1 == c.(stream := r.1.stream)
    ensures |r.1.stream| <= |c.stream|
    ensures !r.0.Nothing?
    ensures r.0.Got? ==> |r.0.value.payload| <= max
  {
    var (length, c1) := LengthStep(c, b1 & 0x7F);
    if !length.Got? then (Failed(length.error), c1)
    else if length.value > max then (Failed(Protocol), c1)
    else PayloadStep(c1, b0, b1 & 0x80 != 0, length.value)
  }

  /** `_recv_frame`. `Nothing` is a wait that ran out before the frame started. */
  function FrameStep(c: Conn, max: nat): (r: (Read<Frame>, Conn))
    ensures r.1 == c.(stream := r.1.stream)
    ensures |r.1.stream| <= |c.stream|
    ensures r.0.Got? ==> |r.1.stream| < |c.stream| && |r.0.value.payload| <= max
  {
    var (header, c1) := ReadStep(c, 2, true);
    match header
    case Nothing => (Nothing, c1)
    case Failed(e) => (Failed(e), c1)
    case Got(h) => BodyStep(c1, h[0], h[1], max)
  }

  // ---------------------------------------------------------------------------------------
  // _send_frame and close
  // ---------------------------------------------------------------------------------------

  /** `_send_frame`: the flag is false where the code raises `ConnectionClosed`. */
  function SendStep(c: Conn, opcode: bv4, payload: Bytes): (r: (bool, Conn))
    ensures r.1.stream == c.stream && r.1.live == c.live && r.1.closed == c.closed
  {
    if !c.live then (false, c)
    else if c.writes != [] && !c.writes[0] then (false, c.(writes := c.writes[1..]))
    else
      (true, c.(writes := if c.writes == [] then [] else c.writes[1..],
                sent := c.sent + [Frame(true, opcode, payload)]))
  }

  function CloseBody(code: nat, reason: Bytes): Bytes
  {
    BigEndian(code, 2) + (if |reason| <= 120 then reason else reason[..120])
  }

  /** `close`: the flag is true where the code raises `ConnectionClosed`. */
  function CloseStep(c: Conn, code: nat, reason: Bytes): (r: (bool, Conn))
    ensures r.1.stream == c.stream
  {
    if !c.live || c.closed then (false, c)
    else
      var (ok, c1) := SendStep(c.(closed := true), CLOSE, CloseBody(code, reason));
      if ok then (false, c1.(live := false)) else (true, c1)
  }

  /** `close` does not always return: it raises on a live, not yet closed connection exactly when
      the farewell frame cannot be written, and then the socket is left open for good, since every
      later `close` returns at once. */
  lemma CloseRaisesExactlyWhen(c: Conn, code: nat, reason: Bytes)
    ensures var (raised, c1) := CloseStep(c, code, reason);
            && (raised <==> c.live && !c.closed && c.writes != [] && !c.writes[0])
            && (raised ==> c1.live && c1.closed && CloseStep(c1, code, reason) == (false, c1))
            && (!raised ==> !c1.live || c.closed)
  {
  }

  // ---------------------------------------------------------------------------------------
  // recv
  // ---------------------------------------------------------------------------------------

  /** The loop that throws away the continuations of a binary message. */
  function SkipStep(c: Conn, fin: bool, max: nat): (r: (Read<()>, Conn))
    ensures r.1 == c.(stream := r.1.stream)
    ensures |r.1.stream| <= |c.stream|
    ensures !r.0.Nothing?
    decreases |c.stream|
  {
    if fin then (Got(()), c)
    else
      var (next, c1) := FrameStep(c, max);
      match next
      case Nothing => (Failed(LOST), c1)
      case Failed(e) => (Failed(e), c1)
      case Got(f) => SkipStep(c1, f.fin, max)
  }

  function CloseCode(payload: Bytes): Option<nat>
  {
    if |payload| >= 2 then Some(FromBigEndian(payload[..2])) else None
  }

  /** What `recv` does with a Close frame: echo its code, close, report the loss. */
  function PeerClosed(c: Conn, payload: Bytes): (r: (Read<Bytes>, Conn))
    ensures r.0.Failed?
  {
    var (_, c1) := SendStep(c, CLOSE, if |payload| >= 2 then payload[..2] else payload);
    var (raised, c2) := CloseStep(c1, 1000, []);
    (Failed(Closed(if raised then None else CloseCode(payload))), c2)
  }

  /** `recv`, entered with the fragments of a text message already collected. */
  function RecvStep(c: Conn, fragments: seq<Bytes>, max: nat): (r: (Read<Bytes>, Conn))
    ensures |r.1.stream| <= |c.stream|
    decreases |c.stream|
  {
    var (next, c1) := FrameStep(c, max);
    match next
    case Nothing => (if fragments == [] then Nothing else Failed(LOST), c1)
    case Failed(e) => (Failed(e), c1)
    case Got(f) =>
      if f.opcode == PING then RecvStep(SendStep(c1, PONG, f.payload).1, fragments, max)
      else if f.opcode == CLOSE then PeerClosed(c1, f.payload)
      else if f.opcode == BINARY then
        var (skipped, c2) := SkipStep(c1, f.fin, max);
        if skipped.Got? then RecvStep(c2, fragments, max) else (Failed(skipped.error), c2)
      else if f.opcode == TEXT && fragments != [] then (Failed(Protocol), c1)
      else if f.opcode == TEXT || (f.opcode == CONT && fragments != []) then
        var joined := fragments + [f.payload];
        if |Flatten(joined)| > max then (Failed(Protocol), c1)
        else if f.fin then (Got(Flatten(joined)), c1)
        else RecvStep(c1, joined, max)
      else
        RecvStep(c1, fragments, max)
  }
}
