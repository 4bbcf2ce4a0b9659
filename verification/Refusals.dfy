/** Where `recv` refuses: what is too long, out of turn, or late. */
module Refusals {
  import opened Wrappers
  import opened FrameCodec
  import opened ConnectionSpec
  import opened Reassembly
  import opened Messages

  /** The call ended on a frame of the run with a protocol error. */
  predicate Refused(run: Run)
  {
    run.Done? && run.outcome == Failed(Protocol)
  }

  // ---------------------------------------------------------------------------------------
  // Too long
  // ---------------------------------------------------------------------------------------

  lemma TooLongPart(p: Bytes, fin: bool, fragments: seq<Bytes>, c: Conn, max: nat)
    requires fragments != [] && |Flatten(fragments + [p])| > max
    ensures StepFrame(Frame(fin, CONT, p), fragments, false, c, max) == Stop(Failed(Protocol), c)
  {
    hide Flatten;
  }

  /** A text message whose fragments together are too long is refused at the fragment that takes it past the
      limit, the pings before that answered. */
  lemma {:induction false} TooLongRun(rest: seq<Part>, fragments: seq<Bytes>, c: Conn, max: nat)
    requires fragments != [] && |Flatten(fragments)| <= max
    requires |Flatten(fragments) + Payloads(rest)| > max
    ensures Refused(RunFrames(RestFrames(rest), fragments, false, c, max))
  {
    hide StepFrame, RunFrames, Flatten;
    var c1 := Answered(c, Pings(rest[0].before));
    var joined := fragments + [rest[0].payload];
    TextPart(rest, fragments, c, max);
    FlattenPush(fragments, rest[0].payload);
    if |Flatten(joined)| > max {
      TooLongPart(rest[0].payload, |rest| == 1, fragments, c1, max);
    } else {
      assert Flatten(fragments) + Payloads(rest) == Flatten(joined) + Payloads(rest[1..]);
      if |rest| > 1 {
        TextStep(rest[0].payload, false, fragments, c1, max);
        TooLongRun(rest[1..], joined, c1, max);
      }
    }
  }

  lemma TooLongMessage(first: Bytes, rest: seq<Part>, c: Conn, max: nat)
    requires |first + Payloads(rest)| > max
    ensures Refused(RunFrames(UnitFrames(Message(true, first, rest)), [], false, c, max))
  {
    hide RunFrames;
    var f := Frame(rest == [], TEXT, first);
    RunOne(f, RestFrames(rest), [], false, c, max);
    FlattenOne(first);
    assert [] + [first] == [first];
    if rest == [] {
      assert first + Payloads(rest) == first;
    } else if |first| <= max {
      TooLongRun(rest, [first], c, max);
    }
  }

  /** A text message that is whole and in turn is returned exactly where it keeps to the limit, and refused
      otherwise, however it was cut into frames of their own within the limit, and whatever follows. */
  lemma TextIsReturnedExactly(c: Conn, ps: seq<Packet>, first: Bytes, rest: seq<Part>, tail: Stream, max: nat)
    requires c.live && CanEncodeAll(ps) && Small(Frames(ps), max)
    requires Frames(ps) == UnitFrames(Message(true, first, rest))
    ensures var got := RecvStep(c.(stream := WireStream(ps, tail)), [], max).0;
            got == if |first + Payloads(rest)| <= max then Got(first + Payloads(rest)) else Failed(Protocol)
  {
    hide RecvStep, RunFrames, WireStream;
    RunsFrames(c, ps, tail, [], false, max);
    if |first + Payloads(rest)| <= max {
      MessageRun(true, first, rest, c, max);
    } else {
      TooLongMessage(first, rest, c, max);
    }
  }

  /** No message returned is longer than the limit, whatever came. */
  lemma {:induction false} NothingLongerIsReturned(c: Conn, fragments: seq<Bytes>, max: nat)
    requires RecvStep(c, fragments, max).0.Got?
    ensures |RecvStep(c, fragments, max).0.value| <= max
    decreases |c.stream|
  {
    hide FrameStep, SkipStep, Flatten;
    var (next, c1) := FrameStep(c, max);
    var f := next.value;
    if f.opcode == PING {
      NothingLongerIsReturned(SendStep(c1, PONG, f.payload).1, fragments, max);
    } else if f.opcode == BINARY {
      NothingLongerIsReturned(SkipStep(c1, f.fin, max).1, fragments, max);
    } else if f.opcode == TEXT || (f.opcode == CONT && fragments != []) {
      if !f.fin {
        NothingLongerIsReturned(c1, fragments + [f.payload], max);
      }
    } else {
      NothingLongerIsReturned(c1, fragments, max);
    }
  }

  lemma TooLongBody(c: Conn, f: Frame, d: Dress, rest: Stream, max: nat)
    requires c.live && CanEncode(f, d) && |f.payload| > max
    requires c.stream == BehindHeader(f, d, rest)
    ensures BodyStep(c, FirstByte(f.fin, f.opcode), SecondByte(d.key.Some?, Length7Of(f, d)), max).0 == Failed(Protocol)
  {
    hide Items, FirstByte, SecondByte, Extension, KeyBytes, Body, Length7, LengthStep, PayloadStep;
    var s := Items(KeyBytes(d.key)) + (Items(Body(d.key, f.payload)) + rest);
    SecondByteRoundTrip(d.key.Some?, Length7Of(f, d));
    ReadLength(c, |f.payload|, d.form, s);
  }

  /** A frame longer than the limit is refused on its length, in any dress, its payload unread. */
  lemma TooLongFrame(c: Conn, f: Frame, d: Dress, fragments: seq<Bytes>, rest: Stream, max: nat)
    requires c.live && CanEncode(f, d) && |f.payload| > max
    ensures RecvStep(c.(stream := Items(Encode(f, d)) + rest), fragments, max).0 == Failed(Protocol)
  {
    hide Items, FirstByte, SecondByte, Extension, KeyBytes, Body, Length7Of, Encode, BodyStep, ReadStep;
    var c1 := c.(stream := Items(Encode(f, d)) + rest);
    var s := BehindHeader(f, d, rest);
    EncodedParts(f, d, rest);
    ReadAhead(c1, [FirstByte(f.fin, f.opcode), SecondByte(d.key.Some?, Length7Of(f, d))], s, true);
    TooLongBody(c.(stream := s), f, d, rest, max);
  }

  // ---------------------------------------------------------------------------------------
  // Out of turn, and late
  // ---------------------------------------------------------------------------------------

  /** The frames of a text message that has begun and goes on: its first fragment, and more of them with
      control frames between. */
  function OpenText(first: Bytes, inside: seq<Inner>): seq<Frame>
  {
    [Frame(false, TEXT, first)] + InnerFrames(inside)
  }

  function InnerPayloads(inside: seq<Inner>): Bytes
  {
    if inside == [] then []
    else (if inside[0].Fragment? then inside[0].payload else []) + InnerPayloads(inside[1..])
  }

  /** The run is in the middle of a text message. */
  predicate Inside(run: Run)
  {
    run.More? && run.fragments != [] && !run.skipping
  }

  lemma {:induction false} StaysInside(inside: seq<Inner>, fragments: seq<Bytes>, c: Conn, max: nat)
    requires fragments != [] && |Flatten(fragments) + InnerPayloads(inside)| <= max
    ensures Inside(RunFrames(InnerFrames(inside), fragments, false, c, max))
  {
    hide StepFrame, RunFrames, Flatten;
    if inside == [] {
      NoFrames(fragments, false, c, max);
    } else {
      InnerFirst(inside);
      var f := InnerFrames(inside)[0];
      RunOne(f, InnerFrames(inside[1..]), fragments, false, c, max);
      if inside[0].Fragment? {
        var joined := fragments + [inside[0].payload];
        FlattenPush(fragments, inside[0].payload);
        assert Flatten(fragments) + InnerPayloads(inside) == Flatten(joined) + InnerPayloads(inside[1..]);
        TextStep(inside[0].payload, false, fragments, c, max);
        StaysInside(inside[1..], joined, c, max);
      } else {
        var x := inside[0].control;
        assert InnerPayloads(inside) == InnerPayloads(inside[1..]);
        ControlStep(x, fragments, c, max);
        StaysInside(inside[1..], fragments, if x.Ping? then SendStep(c, PONG, x.data).1 else c, max);
      }
    }
  }

  lemma OpensInside(first: Bytes, inside: seq<Inner>, c: Conn, max: nat)
    requires |first + InnerPayloads(inside)| <= max
    ensures Inside(RunFrames(OpenText(first, inside), [], false, c, max))
  {
    hide RunFrames;
    RunOne(Frame(false, TEXT, first), InnerFrames(inside), [], false, c, max);
    FlattenOne(first);
    assert [] + [first] == [first];
    StaysInside(inside, [first], c, max);
  }

  /** A new text message inside another is refused (section 5.4). */
  lemma NewTextIsRefused(
    c: Conn, ps: seq<Packet>, first: Bytes, inside: seq<Inner>, fin: bool, next: Bytes, tail: Stream, max: nat)
    requires c.live && CanEncodeAll(ps) && Small(Frames(ps), max) && |first + InnerPayloads(inside)| <= max
    requires Frames(ps) == OpenText(first, inside) + [Frame(fin, TEXT, next)]
    ensures RecvStep(c.(stream := WireStream(ps, tail)), [], max).0 == Failed(Protocol)
  {
    hide RecvStep, RunFrames, WireStream;
    var f := Frame(fin, TEXT, next);
    RunsFrames(c, ps, tail, [], false, max);
    OpensInside(first, inside, c, max);
    RunConcat(OpenText(first, inside), [f], [], false, c, max);
    var run := RunFrames(OpenText(first, inside), [], false, c, max);
    assert [f] + [] == [f];
    RunOne(f, [], run.fragments, false, run.conn, max);
  }

  /** A wait that runs out, the end of the stream or a broken one inside a text message loses the connection:
      what was collected is not handed out, and no timeout is reported. */
  lemma SilenceInsideIsALoss(
    c: Conn, ps: seq<Packet>, first: Bytes, inside: seq<Inner>, tail: Stream, max: nat)
    requires c.live && CanEncodeAll(ps) && Small(Frames(ps), max) && |first + InnerPayloads(inside)| <= max
    requires Frames(ps) == OpenText(first, inside) && (tail == [] || !tail[0].B?)
    ensures RecvStep(c.(stream := WireStream(ps, tail)), [], max).0 == Failed(LOST)
  {
    hide RunFrames, WireStream, RecvStep;
    RunsFrames(c, ps, tail, [], false, max);
    OpensInside(first, inside, c, max);
    var run := RunFrames(OpenText(first, inside), [], false, c, max);
    StaysLive(Frames(ps), [], false, c, max);
    SilentRecv(run.conn.(stream := tail), run.fragments, max);
  }

  /** The same inside a binary message that is being skipped, of which no control frame came yet. */
  lemma SilenceInsideBinaryIsALoss(
    c: Conn, ps: seq<Packet>, first: Bytes, inside: seq<Inner>, tail: Stream, max: nat)
    requires c.live && CanEncodeAll(ps) && Small(Frames(ps), max) && Controls(inside) == []
    requires Frames(ps) == [Frame(false, BINARY, first)] + InnerFrames(inside) && (tail == [] || !tail[0].B?)
    ensures RecvStep(c.(stream := WireStream(ps, tail)), [], max).0 == Failed(LOST)
  {
    hide RunFrames, WireStream, RecvStep;
    RunsFrames(c, ps, tail, [], false, max);
    RunOne(Frame(false, BINARY, first), InnerFrames(inside), [], false, c, max);
    InnerRun(inside, c, max);
  }

  lemma SilentRecv(c: Conn, fragments: seq<Bytes>, max: nat)
    requires c.live && (c.stream == [] || !c.stream[0].B?) && fragments != []
    ensures RecvStep(c, fragments, max).0 == Failed(LOST)
  {
  }

  lemma {:induction false} StaysLive(fs: seq<Frame>, fragments: seq<Bytes>, skipping: bool, c: Conn, max: nat)
    ensures var run := RunFrames(fs, fragments, skipping, c, max);
            run.More? ==> run.conn.live == c.live
  {
    hide StepFrame;
    if fs != [] {
      var step := StepFrame(fs[0], fragments, skipping, c, max);
      StepKeepsLive(fs[0], fragments, skipping, c, max);
      if step.Go? {
        StaysLive(fs[1..], step.fragments, step.skipping, step.conn, max);
      }
    }
  }

  /** Between messages a wait that runs out costs nothing: `recv` reports it, and goes on behind it when it is
      called again. The end of the stream or a broken one is a loss there too. */
  lemma SilenceBetweenIsATimeout(c: Conn, item: Item, tail: Stream, max: nat)
    requires c.live && !item.B?
    ensures RecvStep(c.(stream := [item] + tail), [], max)
         == (if item.Silence? then Nothing else Failed(LOST), c.(stream := tail))
  {
    assert ([item] + tail)[1..] == tail;
    assert [] + tail == tail;
  }
}
