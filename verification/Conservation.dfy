/** What a call of `recv` consumes: a message or a timeout takes whole frames off the front of the
    stream and nothing else, and a timeout never costs a fragment of a text message. */
module Conservation {
  import opened Wrappers
  import opened FrameCodec
  import opened ConnectionSpec

  /** `t` is what is left of `s`. */
  ghost predicate Left(t: Stream, s: Stream)
  {
    |t| <= |s| && t == s[|s| - |t|..]
  }

  lemma LengthLeaves(c: Conn, length7: bv8)
    ensures LengthStep(c, length7).0.Got? ==> Left(LengthStep(c, length7).1.stream, c.stream)
  {
  }

  lemma PayloadLeaves(c: Conn, b0: bv8, masked: bool, length: nat)
    ensures PayloadStep(c, b0, masked, length).0.Got? ==> Left(PayloadStep(c, b0, masked, length).1.stream, c.stream)
  {
    var (key, c1) := KeyStep(c, masked);
  }

  lemma BodyLeaves(c: Conn, b0: bv8, b1: bv8, max: nat)
    ensures BodyStep(c, b0, b1, max).0.Got? ==> Left(BodyStep(c, b0, b1, max).1.stream, c.stream)
  {
    hide LengthStep, PayloadStep;
    var (length, c1) := LengthStep(c, b1 & 0x7F);
    LengthLeaves(c, b1 & 0x7F);
    if length.Got? && length.value <= max {
      PayloadLeaves(c1, b0, b1 & 0x80 != 0, length.value);
    }
  }

  /** After a wait that ran out: what is left begins right behind the silence, if anything is. */
  ghost predicate TimedOutAt(t: Stream, s: Stream)
  {
    Left(t, s) && (t == [] || (|t| < |s| && s[|s| - |t| - 1].Silence?))
  }

  lemma TimedOutTrans(a: Stream, b: Stream, c: Stream)
    requires TimedOutAt(a, b) && Left(b, c)
    ensures TimedOutAt(a, c)
  {
  }

  lemma FrameLeaves(c: Conn, max: nat)
    ensures var (r, c1) := FrameStep(c, max);
            && (r.Got? ==> Left(c1.stream, c.stream))
            && (r.Nothing? ==> TimedOutAt(c1.stream, c.stream))
  {
    hide BodyStep;
    var (header, c1) := ReadStep(c, 2, true);
    if header.Got? {
      BodyLeaves(c1, header.value[0], header.value[1], max);
      var (r, c2) := BodyStep(c1, header.value[0], header.value[1], max);
    }
  }

  lemma {:induction false} SkipLeaves(c: Conn, fin: bool, max: nat)
    ensures var (r, c1) := SkipStep(c, fin, max);
            r.Got? ==> Left(c1.stream, c.stream)
    decreases |c.stream|
  {
    hide FrameStep;
    if !fin {
      var (next, c1) := FrameStep(c, max);
      FrameLeaves(c, max);
      if next.Got? {
        SkipLeaves(c1, next.value.fin, max);
        var (r, c2) := SkipStep(c1, next.value.fin, max);
      }
    }
  }

  /** What the loop of `recv` does with a frame that neither ends it nor belongs to a text message:
      the connection it goes on with. */
  ghost function PassedOver(c: Conn, f: Frame, max: nat): Option<Conn>
  {
    if f.opcode == PING then Some(SendStep(c, PONG, f.payload).1)
    else if f.opcode == BINARY then
      var (skipped, c1) := SkipStep(c, f.fin, max);
      if skipped.Got? then Some(c1) else None
    else if f.opcode == CLOSE || f.opcode == TEXT then None
    else Some(c)
  }

  lemma PassedOverLeaves(c: Conn, f: Frame, max: nat)
    ensures PassedOver(c, f, max).Some? ==> Left(PassedOver(c, f, max).value.stream, c.stream)
  {
    hide FrameStep, BodyStep;
    SkipLeaves(c, f.fin, max);
  }

  /** Every frame a call of `recv` took off the stream was passed over, up to the wait that ran out:
      in particular none of them was a text frame outside a binary message. */
  ghost predicate OnlyPassedOver(c: Conn, end: Conn, max: nat)
    decreases |c.stream|
  {
    var (next, c1) := FrameStep(c, max);
    match next
    case Nothing => c1 == end
    case Failed(_) => false
    case Got(f) =>
      var c2 := PassedOver(c1, f, max);
      c2.Some? && |c2.value.stream| < |c.stream| && OnlyPassedOver(c2.value, end, max)
  }

  /** `recv` returns None only between messages: no text fragment was consumed, only whole frames
      that were passed over, and the rest of the stream is untouched behind the expired wait. */
  lemma {:induction false} TimeoutCostsNoText(c: Conn, fragments: seq<Bytes>, max: nat)
    requires RecvStep(c, fragments, max).0.Nothing?
    ensures fragments == []
    ensures OnlyPassedOver(c, RecvStep(c, fragments, max).1, max)
    ensures TimedOutAt(RecvStep(c, fragments, max).1.stream, c.stream)
    decreases |c.stream|
  {
    hide FrameStep, SkipStep;
    var (next, c1) := FrameStep(c, max);
    FrameLeaves(c, max);
    if next.Got? {
      var f := next.value;
      if f.opcode == TEXT || (f.opcode == CONT && fragments != []) {
        TimeoutCostsNoText(c1, fragments + [f.payload], max);
      } else {
        var c2 := PassedOver(c1, f, max).value;
        PassedOverLeaves(c1, f, max);
        TimeoutCostsNoText(c2, fragments, max);
        TimedOutTrans(RecvStep(c2, fragments, max).1.stream, c2.stream, c.stream);
      }
    }
  }

  /** A message leaves exactly the rest of the stream behind it. */
  lemma {:induction false} MessageLeavesTheRest(c: Conn, fragments: seq<Bytes>, max: nat)
    requires RecvStep(c, fragments, max).0.Got?
    ensures Left(RecvStep(c, fragments, max).1.stream, c.stream)
    decreases |c.stream|
  {
    hide FrameStep, SkipStep;
    var end := RecvStep(c, fragments, max).1;
    var (next, c1) := FrameStep(c, max);
    FrameLeaves(c, max);
    var f := next.value;
    if f.opcode == TEXT || (f.opcode == CONT && fragments != []) {
      if !f.fin {
        MessageLeavesTheRest(c1, fragments + [f.payload], max);
      }
    } else {
      var c2 := PassedOver(c1, f, max).value;
      PassedOverLeaves(c1, f, max);
      MessageLeavesTheRest(c2, fragments, max);
    }
  }
}
