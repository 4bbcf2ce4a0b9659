/** What `recv` means in terms of frames: the codec round trip and the frame automaton. */
module Reassembly {
  import opened Wrappers
  import opened Bits
  import opened FrameCodec
  import opened ConnectionSpec

  // ---------------------------------------------------------------------------------------
  // Reading back what was written
  // ---------------------------------------------------------------------------------------

  lemma ReadAhead(c: Conn, b: Bytes, rest: Stream, allowTimeout: bool)
    requires c.live && c.stream == Items(b) + rest
    ensures ReadStep(c, |b|, allowTimeout) == (Got(b), c.(stream := rest))
  {
    var s := c.stream;
    assert forall i :: 0 <= i < |b| ==> s[i] == B(b[i]);
    LeadIs(s, |b|, |b|);
    assert Unitems(s[..|b|]) == b;
    assert s[|b|..] == rest;
  }

  lemma ReadLength(c: Conn, n: nat, form: LengthForm, rest: Stream)
    requires c.live && Fits(n, form)
    requires c.stream == Items(Extension(n, form)) + rest
    ensures LengthStep(c, Length7(n, form)) == (Got(n), c.(stream := rest))
  {
    match form
    case Short =>
      SmallAsByte(n);
      ShortLength(n);
      assert c.stream == rest;
    case Medium =>
      Pow256Values();
      BigEndianRoundTrip(n, 2);
      ReadAhead(c, BigEndian(n, 2), rest, false);
    case Long =>
      Pow256Values();
      BigEndianRoundTrip(n, 8);
      ReadAhead(c, BigEndian(n, 8), rest, false);
  }

  lemma ShortLength(n: nat)
    requires n < 126
    ensures (n as bv8) != 126 && (n as bv8) != 127 && (n as bv8) as nat == n
  {
    ByteRoundTrip(n);
  }

  lemma ReadPayload(c: Conn, f: Frame, key: Option<Key>, rest: Stream)
    requires c.live
    requires c.stream == Items(KeyBytes(key)) + (Items(Body(key, f.payload)) + rest)
    ensures PayloadStep(c, FirstByte(f.fin, f.opcode), key.Some?, |f.payload|) == (Got(f), c.(stream := rest))
  {
    FirstByteRoundTrip(f.fin, f.opcode);
    var c1 := c.(stream := Items(Body(key, f.payload)) + rest);
    if key.Some? {
      ReadAhead(c, key.value, c1.stream, false);
      ApplyKeyInvolution(key.value, f.payload);
    } else {
      assert c.stream == c1.stream;
    }
    ReadAhead(c1, Body(key, f.payload), rest, false);
    assert Body(key, Body(key, f.payload)) == f.payload;
    if f.payload == [] {
      assert c1.stream == rest;
    }
  }

  function Length7Of(f: Frame, d: Dress): (r: bv8)
    requires CanEncode(f, d)
    ensures r < 0x80
  {
    SmallAsByte(if d.form.Short? then |f.payload| else 0);
    Length7(|f.payload|, d.form)
  }

  lemma Split4(a: Bytes, b: Bytes, d: Bytes, e: Bytes, rest: Stream)
    ensures Items(a + b + d + e) + rest == Items(a) + (Items(b) + (Items(d) + (Items(e) + rest)))
  {
  }

  /** The stream behind the two header bytes of an encoded frame. */
  function BehindHeader(f: Frame, d: Dress, rest: Stream): Stream
    requires CanEncode(f, d)
  {
    Items(Extension(|f.payload|, d.form)) + (Items(KeyBytes(d.key)) + (Items(Body(d.key, f.payload)) + rest))
  }

  /** The stream of an encoded frame, part by part. */
  lemma EncodedParts(f: Frame, d: Dress, rest: Stream)
    requires CanEncode(f, d)
    ensures Items(Encode(f, d)) + rest
         == Items([FirstByte(f.fin, f.opcode), SecondByte(d.key.Some?, Length7Of(f, d))])
            + BehindHeader(f, d, rest)
  {
    hide Items, FirstByte, SecondByte, Extension, KeyBytes, Body, Length7;
    var n, head := |f.payload|, [FirstByte(f.fin, f.opcode), SecondByte(d.key.Some?, Length7Of(f, d))];
    assert Encode(f, d) == head + Extension(n, d.form) + KeyBytes(d.key) + Body(d.key, f.payload);
    Split4(head, Extension(n, d.form), KeyBytes(d.key), Body(d.key, f.payload), rest);
  }

  /** What `_recv_frame` does behind the two header bytes of an encoded frame. */
  lemma ReadBody(c: Conn, f: Frame, d: Dress, rest: Stream, max: nat)
    requires c.live && CanEncode(f, d) && |f.payload| <= max
    requires c.stream == BehindHeader(f, d, rest)
    ensures BodyStep(c, FirstByte(f.fin, f.opcode), SecondByte(d.key.Some?, Length7Of(f, d)), max)
         == (Got(f), c.(stream := rest))
  {
    hide Items, FirstByte, SecondByte, Extension, KeyBytes, Body, Length7, LengthStep, PayloadStep;
    var s := Items(KeyBytes(d.key)) + (Items(Body(d.key, f.payload)) + rest);
    SecondByteRoundTrip(d.key.Some?, Length7Of(f, d));
    ReadLength(c, |f.payload|, d.form, s);
    ReadPayload(c.(stream := s), f, d.key, rest);
  }

  /** The codec round trip: whatever legal dress the sender chose, `_recv_frame` returns the frame
      and leaves exactly what followed it. */
  lemma DecodeEncoded(c: Conn, f: Frame, d: Dress, rest: Stream, max: nat)
    requires c.live && CanEncode(f, d) && |f.payload| <= max
    requires c.stream == Items(Encode(f, d)) + rest
    ensures FrameStep(c, max) == (Got(f), c.(stream := rest))
  {
    hide Items, FirstByte, SecondByte, Extension, KeyBytes, Body, Length7Of, Encode, BodyStep, ReadStep;
    var head := [FirstByte(f.fin, f.opcode), SecondByte(d.key.Some?, Length7Of(f, d))];
    var s := BehindHeader(f, d, rest);
    EncodedParts(f, d, rest);
    ReadAhead(c, head, s, true);
    ReadBody(c.(stream := s), f, d, rest, max);
  }

  /** A stream that starts with the frames `ps`, each in its own dress. */
  ghost function WireStream(ps: seq<Packet>, tail: Stream): Stream
    requires CanEncodeAll(ps)
  {
    if ps == [] then tail else Items(Encode(ps[0].frame, ps[0].dress)) + WireStream(ps[1..], tail)
  }

  lemma {:induction false} WireStreamIsEncodeAll(ps: seq<Packet>, tail: Stream)
    requires CanEncodeAll(ps)
    ensures WireStream(ps, tail) == Items(EncodeAll(ps)) + tail
  {
    if ps == [] {
      assert Encodings(ps) == [];
    } else {
      WireStreamIsEncodeAll(ps[1..], tail);
      assert Encodings(ps)[1..] == Encodings(ps[1..]);
      ItemsSplit(Encode(ps[0].frame, ps[0].dress), EncodeAll(ps[1..]), tail);
    }
  }

  lemma ItemsSplit(a: Bytes, b: Bytes, tail: Stream)
    ensures Items(a) + (Items(b) + tail) == Items(a + b) + tail
  {
  }

  ghost predicate Small(fs: seq<Frame>, max: nat)
  {
    forall i :: 0 <= i < |fs| ==> |fs[i].payload| <= max
  }

  lemma ReadWire(c: Conn, ps: seq<Packet>, tail: Stream, max: nat)
    requires c.live && CanEncodeAll(ps) && ps != [] && |ps[0].frame.payload| <= max
    ensures FrameStep(c.(stream := WireStream(ps, tail)), max)
         == (Got(ps[0].frame), c.(stream := WireStream(ps[1..], tail)))
  {
    var c1 := c.(stream := WireStream(ps, tail));
    DecodeEncoded(c1, ps[0].frame, ps[0].dress, WireStream(ps[1..], tail), max);
  }

  /** A concatenation of frames can be cut into frames in one way only, whatever follows it. */
  lemma {:induction false} UniquelyDecodable(ps: seq<Packet>, qs: seq<Packet>, s: Stream, t: Stream)
    requires CanEncodeAll(ps) && CanEncodeAll(qs) && |ps| == |qs|
    requires WireStream(ps, s) == WireStream(qs, t)
    ensures Frames(ps) == Frames(qs) && s == t
  {
    if ps != [] {
      hide WireStream, Frames, CanEncodeAll;
      FramesUnfold(ps);
      FramesUnfold(qs);
      SameFirstFrame(ps, qs, s, t);
      UniquelyDecodable(ps[1..], qs[1..], s, t);
    }
  }

  /** So frames written one after the other come back, each of them and no other, however many. */
  lemma {:induction false} EncodingsAreUnique(ps: seq<Packet>, qs: seq<Packet>)
    requires CanEncodeAll(ps) && CanEncodeAll(qs)
    requires WireStream(ps, []) == WireStream(qs, [])
    ensures Frames(ps) == Frames(qs)
  {
    if ps != [] && qs != [] {
      hide WireStream, Frames, CanEncodeAll;
      FramesUnfold(ps);
      FramesUnfold(qs);
      SameFirstFrame(ps, qs, [], []);
      EncodingsAreUnique(ps[1..], qs[1..]);
    } else {
      NoFramesNoBytes(ps);
      NoFramesNoBytes(qs);
    }
  }

  lemma FramesUnfold(ps: seq<Packet>)
    requires ps != []
    ensures CanEncodeAll(ps) ==> CanEncodeAll(ps[1..])
    ensures Frames(ps) == [ps[0].frame] + Frames(ps[1..])
  {
  }

  lemma NoFramesNoBytes(ps: seq<Packet>)
    requires CanEncodeAll(ps)
    ensures WireStream(ps, []) == [] <==> ps == []
  {
    hide Items, Body, KeyBytes, Extension;
    if ps != [] {
      assert |Encode(ps[0].frame, ps[0].dress)| >= 2;
      ItemsLength(Encode(ps[0].frame, ps[0].dress));
    }
  }

  lemma ItemsLength(b: Bytes)
    ensures |Items(b)| == |b|
  {
  }

  lemma SameFirstFrame(ps: seq<Packet>, qs: seq<Packet>, s: Stream, t: Stream)
    requires CanEncodeAll(ps) && CanEncodeAll(qs) && ps != [] && qs != []
    requires WireStream(ps, s) == WireStream(qs, t)
    ensures ps[0].frame == qs[0].frame && WireStream(ps[1..], s) == WireStream(qs[1..], t)
  {
    hide FrameStep, WireStream;
    var max := |ps[0].frame.payload| + |qs[0].frame.payload|;
    var c := Conn([], [], [], true, false);
    ReadWire(c, ps, s, max);
    ReadWire(c, qs, t, max);
  }

  // ---------------------------------------------------------------------------------------
  // The automaton on frames
  // ---------------------------------------------------------------------------------------

  /** What one frame does to `recv`: end it, or change what it has collected. */
  datatype Step = Stop(outcome: Read<Bytes>, conn: Conn) | Go(fragments: seq<Bytes>, skipping: bool, conn: Conn)

  function StepFrame(f: Frame, fragments: seq<Bytes>, skipping: bool, c: Conn, max: nat): Step
  {
    if skipping then Go(fragments, !f.fin, c)
    else if f.opcode == PING then Go(fragments, false, SendStep(c, PONG, f.payload).1)
    else if f.opcode == CLOSE then
      var (o, c1) := PeerClosed(c, f.payload);
      Stop(o, c1)
    else if f.opcode == BINARY then Go(fragments, !f.fin, c)
    else if f.opcode == TEXT && fragments != [] then Stop(Failed(Protocol), c)
    else if f.opcode == TEXT || (f.opcode == CONT && fragments != []) then
      var joined := fragments + [f.payload];
      if |Flatten(joined)| > max then Stop(Failed(Protocol), c)
      else if f.fin then Stop(Got(Flatten(joined)), c)
      else Go(joined, false, c)
    else Go(fragments, false, c)
  }

  /** Where a run over finitely many frames ends: with a message or an error before the frames
      `rest`, or in need of more frames. */
  datatype Run =
    | Done(outcome: Read<Bytes>, rest: seq<Frame>, conn: Conn)
    | More(fragments: seq<Bytes>, skipping: bool, conn: Conn)

  function RunFrames(fs: seq<Frame>, fragments: seq<Bytes>, skipping: bool, c: Conn, max: nat): (r: Run)
    ensures r.Done? ==> |r.rest| < |fs| && r.rest == fs[|fs| - |r.rest|..]
  {
    if fs == [] then More(fragments, skipping, c)
    else
      match StepFrame(fs[0], fragments, skipping, c, max)
      case Stop(o, c1) => Done(o, fs[1..], c1)
      case Go(fr, sk, c1) => RunFrames(fs[1..], fr, sk, c1, max)
  }

  /** `recv` resumed in the middle: inside a binary message or between frames. */
  ghost function Resume(c: Conn, fragments: seq<Bytes>, skipping: bool, max: nat): (Read<Bytes>, Conn)
  {
    if skipping then
      var (skipped, c1) := SkipStep(c, false, max);
      if skipped.Got? then RecvStep(c1, fragments, max) else (Failed(skipped.error), c1)
    else RecvStep(c, fragments, max)
  }

  lemma OneFrame(c: Conn, s: Stream, f: Frame, next: Stream, fragments: seq<Bytes>, skipping: bool, max: nat)
    requires FrameStep(c.(stream := s), max) == (Got(f), c.(stream := next))
    ensures Resume(c.(stream := s), fragments, skipping, max)
         == match StepFrame(f, fragments, skipping, c, max)
            case Stop(o, c1) => (o, c1.(stream := next))
            case Go(fr, sk, c1) => Resume(c1.(stream := next), fr, sk, max)
  {
    var c1 := c.(stream := next);
    if skipping {
      assert SkipStep(c.(stream := s), false, max) == SkipStep(c1, f.fin, max);
    } else if f.opcode == CLOSE {
      PeerClosedStream(c, next, f.payload);
    } else if f.opcode == BINARY {
      assert f.fin ==> SkipStep(c1, f.fin, max) == (Got(()), c1);
    }
  }

  ghost predicate Agrees(c: Conn, ps: seq<Packet>, tail: Stream, fragments: seq<Bytes>, skipping: bool, max: nat)
    requires CanEncodeAll(ps)
  {
    var got := Resume(c.(stream := WireStream(ps, tail)), fragments, skipping, max);
    match RunFrames(Frames(ps), fragments, skipping, c, max)
    case Done(o, rest, c1) => got == (o, c1.(stream := WireStream(ps[|ps| - |rest|..], tail)))
    case More(fr, sk, c1) => got == Resume(c1.(stream := tail), fr, sk, max)
  }

  lemma RunUnfolds(ps: seq<Packet>, fragments: seq<Bytes>, skipping: bool, c: Conn, max: nat)
    requires ps != []
    ensures RunFrames(Frames(ps), fragments, skipping, c, max)
         == match StepFrame(ps[0].frame, fragments, skipping, c, max)
            case Stop(o, c1) => Done(o, Frames(ps[1..]), c1)
            case Go(fr, sk, c1) => RunFrames(Frames(ps[1..]), fr, sk, c1, max)
  {
    assert Frames(ps)[0] == ps[0].frame;
    assert Frames(ps)[1..] == Frames(ps[1..]);
  }

  lemma AgreesStop(c: Conn, ps: seq<Packet>, tail: Stream, fragments: seq<Bytes>, skipping: bool, max: nat,
                   o: Read<Bytes>, c1: Conn)
    requires CanEncodeAll(ps) && ps != []
    requires Resume(c.(stream := WireStream(ps, tail)), fragments, skipping, max)
          == (o, c1.(stream := WireStream(ps[1..], tail)))
    requires RunFrames(Frames(ps), fragments, skipping, c, max) == Done(o, Frames(ps[1..]), c1)
    ensures Agrees(c, ps, tail, fragments, skipping, max)
  {
    hide Resume, RunFrames, WireStream;
  }

  lemma AgreesGo(c: Conn, ps: seq<Packet>, tail: Stream, fragments: seq<Bytes>, skipping: bool, max: nat,
                 fr: seq<Bytes>, sk: bool, c1: Conn)
    requires CanEncodeAll(ps) && ps != []
    requires Resume(c.(stream := WireStream(ps, tail)), fragments, skipping, max)
          == Resume(c1.(stream := WireStream(ps[1..], tail)), fr, sk, max)
    requires RunFrames(Frames(ps), fragments, skipping, c, max) == RunFrames(Frames(ps[1..]), fr, sk, c1, max)
    requires Agrees(c1, ps[1..], tail, fr, sk, max)
    ensures Agrees(c, ps, tail, fragments, skipping, max)
  {
    hide Resume, RunFrames, WireStream;
    var run := RunFrames(Frames(ps), fragments, skipping, c, max);
    if run.Done? {
      assert ps[1..][|ps[1..]| - |run.rest|..] == ps[|ps| - |run.rest|..];
    }
  }

  lemma AgreesAtTheEnd(c: Conn, tail: Stream, fragments: seq<Bytes>, skipping: bool, max: nat)
    ensures Agrees(c, [], tail, fragments, skipping, max)
  {
    assert Frames([]) == [];
  }

  /** The machine on bytes is the automaton on frames: for any frames, well formed or not, in any
      dress, followed by anything. */
  lemma {:induction false} RunsFrames(
    c: Conn, ps: seq<Packet>, tail: Stream, fragments: seq<Bytes>, skipping: bool, max: nat)
    requires c.live && CanEncodeAll(ps) && Small(Frames(ps), max)
    ensures Agrees(c, ps, tail, fragments, skipping, max)
    decreases |ps|
  {
    hide StepFrame, RunFrames, Resume, WireStream, Frames, Agrees, FrameStep;
    if ps == [] {
      AgreesAtTheEnd(c, tail, fragments, skipping, max);
    } else {
      FramesUnfold(ps);
      assert |Frames(ps)[0].payload| <= max;
      ReadWire(c, ps, tail, max);
      OneFrame(c, WireStream(ps, tail), ps[0].frame, WireStream(ps[1..], tail), fragments, skipping, max);
      RunUnfolds(ps, fragments, skipping, c, max);
      var step := StepFrame(ps[0].frame, fragments, skipping, c, max);
      if step.Stop? {
        AgreesStop(c, ps, tail, fragments, skipping, max, step.outcome, step.conn);
      } else {
        StepKeepsLive(ps[0].frame, fragments, skipping, c, max);
        assert Frames(ps)[1..] == Frames(ps[1..]);
        RunsFrames(step.conn, ps[1..], tail, step.fragments, step.skipping, max);
        AgreesGo(c, ps, tail, fragments, skipping, max, step.fragments, step.skipping, step.conn);
      }
    }
  }

  lemma StepKeepsLive(f: Frame, fragments: seq<Bytes>, skipping: bool, c: Conn, max: nat)
    ensures var step := StepFrame(f, fragments, skipping, c, max);
            step.Go? ==> step.conn.live == c.live && step.conn.closed == c.closed
  {
  }

  lemma PeerClosedStream(c: Conn, s: Stream, payload: Bytes)
    ensures PeerClosed(c.(stream := s), payload).0 == PeerClosed(c, payload).0
    ensures PeerClosed(c.(stream := s), payload).1 == PeerClosed(c, payload).1.(stream := s)
  {
  }
}
