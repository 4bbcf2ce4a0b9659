/** What successive `recv` calls return on the streams of section 5.4 of RFC 6455. */
module Messages {
  import opened Wrappers
  import opened FrameCodec
  import opened ConnectionSpec
  import opened Reassembly
  import opened Sockets

  datatype Control = Ping(data: Bytes) | Pong(data: Bytes)

  /** A continuation fragment, with the control frames interleaved right before it. */
  datatype Part = Part(before: seq<Control>, payload: Bytes)

  /** A control frame between messages, or a text or binary message in one or more fragments. */
  datatype Unit =
    | Single(control: Control)
    | Message(text: bool, first: Bytes, rest: seq<Part>)

  function ControlFrame(c: Control): Frame
  {
    match c
    case Ping(data) => Frame(true, PING, data)
    case Pong(data) => Frame(true, PONG, data)
  }

  function ControlFrames(cs: seq<Control>): (r: seq<Frame>)
    ensures |r| == |cs|
  {
    seq(|cs|, i requires 0 <= i < |cs| => ControlFrame(cs[i]))
  }

  function RestFrames(rest: seq<Part>): seq<Frame>
  {
    if rest == [] then []
    else ControlFrames(rest[0].before) + [Frame(|rest| == 1, CONT, rest[0].payload)] + RestFrames(rest[1..])
  }

  function UnitFrames(u: Unit): seq<Frame>
  {
    match u
    case Single(c) => [ControlFrame(c)]
    case Message(text, first, rest) => [Frame(rest == [], if text then TEXT else BINARY, first)] + RestFrames(rest)
  }

  function StreamFrames(us: seq<Unit>): seq<Frame>
  {
    if us == [] then [] else UnitFrames(us[0]) + StreamFrames(us[1..])
  }

  // What the stream says --------------------------------------------------------------------

  function Payloads(rest: seq<Part>): Bytes
  {
    if rest == [] then [] else rest[0].payload + Payloads(rest[1..])
  }

  function Texts(us: seq<Unit>): seq<Bytes>
  {
    if us == [] then []
    else if us[0].Message? && us[0].text then [us[0].first + Payloads(us[0].rest)] + Texts(us[1..])
    else Texts(us[1..])
  }

  function Pings(cs: seq<Control>): seq<Bytes>
  {
    if cs == [] then [] else (if cs[0].Ping? then [cs[0].data] else []) + Pings(cs[1..])
  }

  function RestPings(rest: seq<Part>): seq<Bytes>
  {
    if rest == [] then [] else Pings(rest[0].before) + RestPings(rest[1..])
  }

  /** The pings in a fragmented binary message that get an answer: all but a ping that happens to be
      the first control frame inside it, which the skipping loop takes for the last fragment. */
  function BinaryPings(rest: seq<Part>): seq<Bytes>
  {
    if rest == [] then []
    else if rest[0].before == [] then BinaryPings(rest[1..])
    else Pings(rest[0].before[1..]) + RestPings(rest[1..])
  }

  function UnitAnswers(u: Unit): seq<Bytes>
  {
    match u
    case Single(c) => Pings([c])
    case Message(text, _, rest) => if text then RestPings(rest) else BinaryPings(rest)
  }

  function Answers(us: seq<Unit>): seq<Bytes>
  {
    if us == [] then [] else UnitAnswers(us[0]) + Answers(us[1..])
  }

  /** The connection after a pong was attempted for each of `datas`. */
  function Answered(c: Conn, datas: seq<Bytes>): Conn
    decreases datas
  {
    if datas == [] then c else Answered(SendStep(c, PONG, datas[0]).1, datas[1..])
  }

  /** No message longer than the limit; the frame limit is stated on the frames. */
  ghost predicate WithinLimit(us: seq<Unit>, max: nat)
  {
    && Small(StreamFrames(us), max)
    && NoLonger(Texts(us), max)
  }

  ghost predicate NoLonger(ts: seq<Bytes>, max: nat)
  {
    forall i :: 0 <= i < |ts| ==> |ts[i]| <= max
  }

  // Runs over concatenations ----------------------------------------------------------------

  /** A run that meets the frames `gs` next. */
  function RunOn(run: Run, gs: seq<Frame>, max: nat): Run
  {
    match run
    case Done(o, rest, c) => Done(o, rest + gs, c)
    case More(fr, sk, c) => RunFrames(gs, fr, sk, c, max)
  }

  function RunAfter(step: Step, gs: seq<Frame>, max: nat): Run
  {
    match step
    case Stop(o, c) => Done(o, gs, c)
    case Go(fr, sk, c) => RunFrames(gs, fr, sk, c, max)
  }

  lemma {:induction false} RunConcat(
    fs: seq<Frame>, gs: seq<Frame>, fragments: seq<Bytes>, skipping: bool, c: Conn, max: nat)
    ensures RunFrames(fs + gs, fragments, skipping, c, max)
         == RunOn(RunFrames(fs, fragments, skipping, c, max), gs, max)
  {
    if fs == [] {
      assert fs + gs == gs;
    } else {
      assert (fs + gs)[1..] == fs[1..] + gs;
      var step := StepFrame(fs[0], fragments, skipping, c, max);
      if step.Go? {
        RunConcat(fs[1..], gs, step.fragments, step.skipping, step.conn, max);
      }
    }
  }

  lemma RunOne(f: Frame, gs: seq<Frame>, fragments: seq<Bytes>, skipping: bool, c: Conn, max: nat)
    ensures RunFrames([f] + gs, fragments, skipping, c, max)
         == RunAfter(StepFrame(f, fragments, skipping, c, max), gs, max)
  {
    assert ([f] + gs)[1..] == gs;
  }

  lemma {:induction false} AnsweredConcat(c: Conn, a: seq<Bytes>, b: seq<Bytes>)
    ensures Answered(c, a + b) == Answered(Answered(c, a), b)
    decreases a
  {
    if a == [] {
      assert a + b == b;
    } else {
      assert (a + b)[1..] == a[1..] + b;
      AnsweredConcat(SendStep(c, PONG, a[0]).1, a[1..], b);
    }
  }

  lemma {:induction false} AnsweredKeeps(c: Conn, a: seq<Bytes>)
    ensures Answered(c, a).live == c.live && Answered(c, a).closed == c.closed
    ensures Answered(c, a).stream == c.stream
    decreases a
  {
    if a != [] {
      AnsweredKeeps(SendStep(c, PONG, a[0]).1, a[1..]);
    }
  }

  lemma {:induction false} AnsweredStream(c: Conn, a: seq<Bytes>, s: Stream)
    ensures Answered(c.(stream := s), a) == Answered(c, a).(stream := s)
    decreases a
  {
    if a != [] {
      AnsweredStream(SendStep(c, PONG, a[0]).1, a[1..], s);
    }
  }

  // Runs over the parts of a message ----------------------------------------------------------

  lemma ControlStep(x: Control, fragments: seq<Bytes>, c: Conn, max: nat)
    ensures StepFrame(ControlFrame(x), fragments, false, c, max)
         == Go(fragments, false, if x.Ping? then SendStep(c, PONG, x.data).1 else c)
    ensures StepFrame(ControlFrame(x), fragments, true, c, max) == Go(fragments, false, c)
  {
  }

  lemma {:induction false} ControlsRun(cs: seq<Control>, fragments: seq<Bytes>, c: Conn, max: nat)
    ensures RunFrames(ControlFrames(cs), fragments, false, c, max) == More(fragments, false, Answered(c, Pings(cs)))
  {
    if cs != [] {
      assert ControlFrames(cs) == [ControlFrame(cs[0])] + ControlFrames(cs[1..]);
      RunOne(ControlFrame(cs[0]), ControlFrames(cs[1..]), fragments, false, c, max);
      ControlStep(cs[0], fragments, c, max);
      PingsUnfold(cs, c);
      ControlsRun(cs[1..], fragments, if cs[0].Ping? then SendStep(c, PONG, cs[0].data).1 else c, max);
    }
  }

  lemma PingsUnfold(cs: seq<Control>, c: Conn)
    requires cs != []
    ensures Answered(c, Pings(cs))
         == Answered(if cs[0].Ping? then SendStep(c, PONG, cs[0].data).1 else c, Pings(cs[1..]))
  {
    if cs[0].Ping? {
      assert Pings(cs)[1..] == Pings(cs[1..]);
    } else {
      assert Pings(cs) == Pings(cs[1..]);
    }
  }

  lemma PartSplit(rest: seq<Part>)
    requires rest != []
    ensures RestFrames(rest)
         == ControlFrames(rest[0].before) + ([Frame(|rest| == 1, CONT, rest[0].payload)] + RestFrames(rest[1..]))
  {
  }

  /** Outside a text message continuations are thrown away, and pings answered. */
  lemma {:induction false} StrayRun(rest: seq<Part>, c: Conn, max: nat)
    ensures RunFrames(RestFrames(rest), [], false, c, max) == More([], false, Answered(c, RestPings(rest)))
  {
    if rest != [] {
      hide StepFrame, RunFrames;
      var cs, f := ControlFrames(rest[0].before), Frame(|rest| == 1, CONT, rest[0].payload);
      var c1 := Answered(c, Pings(rest[0].before));
      PartSplit(rest);
      ControlsRun(rest[0].before, [], c, max);
      RunConcat(cs, [f] + RestFrames(rest[1..]), [], false, c, max);
      RunOne(f, RestFrames(rest[1..]), [], false, c1, max);
      StrayStep(f, c1, max);
      AnsweredConcat(c, Pings(rest[0].before), RestPings(rest[1..]));
      StrayRun(rest[1..], c1, max);
    } else {
      NoFrames([], false, c, max);
    }
  }

  lemma StrayStep(f: Frame, c: Conn, max: nat)
    requires f.opcode == CONT
    ensures StepFrame(f, [], false, c, max) == Go([], false, c)
  {
  }

  /** The continuations of a binary message, while it is skipped. */
  lemma {:induction false} BinaryRun(rest: seq<Part>, c: Conn, max: nat)
    requires rest != []
    ensures RunFrames(RestFrames(rest), [], true, c, max) == More([], false, Answered(c, BinaryPings(rest)))
  {
    if rest[0].before == [] {
      var f := Frame(|rest| == 1, CONT, rest[0].payload);
      PartSplit(rest);
      assert RestFrames(rest) == [f] + RestFrames(rest[1..]);
      RunOne(f, RestFrames(rest[1..]), [], true, c, max);
      if |rest| == 1 {
        assert rest[1..] == [] && RestFrames(rest[1..]) == [];
      } else {
        BinaryRun(rest[1..], c, max);
      }
    } else {
      BinaryEarlyEnd(rest, c, max);
    }
  }

  /** A control frame inside the message ends the skipping; the continuations left over are stray. */
  lemma BinaryEarlyEnd(rest: seq<Part>, c: Conn, max: nat)
    requires rest != [] && rest[0].before != []
    ensures RunFrames(RestFrames(rest), [], true, c, max) == More([], false, Answered(c, BinaryPings(rest)))
  {
    var x, later := rest[0].before[0], rest[0].before[1..];
    var left := [Part(later, rest[0].payload)] + rest[1..];
    assert left[1..] == rest[1..];
    PartSplit(rest);
    PartSplit(left);
    assert ControlFrames(rest[0].before) == [ControlFrame(x)] + ControlFrames(later);
    assert RestFrames(rest) == [ControlFrame(x)] + RestFrames(left);
    RunOne(ControlFrame(x), RestFrames(left), [], true, c, max);
    ControlStep(x, [], c, max);
    StrayRun(left, c, max);
    assert RestPings(left) == BinaryPings(rest);
  }

  lemma FlattenPush(fragments: seq<Bytes>, p: Bytes)
    ensures Flatten(fragments + [p]) == Flatten(fragments) + p
  {
    FlattenConcat(fragments, [p]);
    FlattenOne(p);
  }

  lemma TextStep(p: Bytes, fin: bool, fragments: seq<Bytes>, c: Conn, max: nat)
    requires fragments != [] && |Flatten(fragments + [p])| <= max
    ensures StepFrame(Frame(fin, CONT, p), fragments, false, c, max)
         == if fin then Stop(Got(Flatten(fragments + [p])), c) else Go(fragments + [p], false, c)
  {
    hide Flatten;
  }

  /** The continuations of a text message. */
  lemma {:induction false} TextRun(rest: seq<Part>, fragments: seq<Bytes>, c: Conn, max: nat)
    requires rest != [] && fragments != []
    requires |Flatten(fragments) + Payloads(rest)| <= max
    ensures RunFrames(RestFrames(rest), fragments, false, c, max)
         == Done(Got(Flatten(fragments) + Payloads(rest)), [], Answered(c, RestPings(rest)))
  {
    hide StepFrame, RunFrames;
    var c1 := Answered(c, Pings(rest[0].before));
    var joined := fragments + [rest[0].payload];
    TextPart(rest, fragments, c, max);
    FlattenPush(fragments, rest[0].payload);
    AnsweredConcat(c, Pings(rest[0].before), RestPings(rest[1..]));
    assert Flatten(fragments) + Payloads(rest) == Flatten(joined) + Payloads(rest[1..]);
    TextStep(rest[0].payload, |rest| == 1, fragments, c1, max);
    if |rest| == 1 {
      assert rest[1..] == [] && RestFrames(rest[1..]) == [] && Payloads(rest[1..]) == [];
      assert Flatten(joined) + [] == Flatten(joined);
    } else {
      TextRun(rest[1..], joined, c1, max);
    }
  }

  /** The first continuation, and the control frames before it. */
  lemma TextPart(rest: seq<Part>, fragments: seq<Bytes>, c: Conn, max: nat)
    requires rest != [] && fragments != []
    ensures var f := Frame(|rest| == 1, CONT, rest[0].payload);
            RunFrames(RestFrames(rest), fragments, false, c, max)
            == RunAfter(StepFrame(f, fragments, false, Answered(c, Pings(rest[0].before)), max),
                        RestFrames(rest[1..]), max)
  {
    hide StepFrame, RunFrames, RunAfter;
    var cs, f := ControlFrames(rest[0].before), Frame(|rest| == 1, CONT, rest[0].payload);
    PartSplit(rest);
    ControlsRun(rest[0].before, fragments, c, max);
    RunConcat(cs, [f] + RestFrames(rest[1..]), fragments, false, c, max);
    RunOne(f, RestFrames(rest[1..]), fragments, false, Answered(c, Pings(rest[0].before)), max);
  }

  lemma UnitRun(u: Unit, c: Conn, max: nat)
    requires u.Message? && u.text ==> |u.first + Payloads(u.rest)| <= max
    ensures RunFrames(UnitFrames(u), [], false, c, max)
         == if u.Message? && u.text
            then Done(Got(u.first + Payloads(u.rest)), [], Answered(c, UnitAnswers(u)))
            else More([], false, Answered(c, UnitAnswers(u)))
  {
    match u
    case Single(control) =>
      assert ControlFrames([control]) == UnitFrames(u);
      ControlsRun([control], [], c, max);
    case Message(text, first, rest) => MessageRun(text, first, rest, c, max);
  }

  lemma MessageRun(text: bool, first: Bytes, rest: seq<Part>, c: Conn, max: nat)
    requires text ==> |first + Payloads(rest)| <= max
    ensures RunFrames(UnitFrames(Message(text, first, rest)), [], false, c, max)
         == if text
            then Done(Got(first + Payloads(rest)), [], Answered(c, UnitAnswers(Message(text, first, rest))))
            else More([], false, Answered(c, UnitAnswers(Message(text, first, rest))))
  {
    hide StepFrame, RunFrames;
    var f := Frame(rest == [], if text then TEXT else BINARY, first);
    RunOne(f, RestFrames(rest), [], false, c, max);
    FirstStep(text, first, rest == [], c, max);
    if rest == [] {
      assert RestFrames(rest) == [] && first + Payloads(rest) == first;
      NoFrames([], false, c, max);
    } else if text {
      TextRun(rest, [first], c, max);
      FlattenOne(first);
    } else {
      BinaryRun(rest, c, max);
    }
  }

  lemma FirstStep(text: bool, first: Bytes, fin: bool, c: Conn, max: nat)
    requires text ==> |first| <= max
    ensures StepFrame(Frame(fin, if text then TEXT else BINARY, first), [], false, c, max)
         == if !text then Go([], !fin, c)
            else if fin then Stop(Got(first), c)
            else Go([first], false, c)
  {
    FlattenOne(first);
    assert [] + [first] == [first];
  }

  lemma NoFrames(fragments: seq<Bytes>, skipping: bool, c: Conn, max: nat)
    ensures RunFrames([], fragments, skipping, c, max) == More(fragments, skipping, c)
  {
  }

  // ---------------------------------------------------------------------------------------
  // Successive calls of recv
  // ---------------------------------------------------------------------------------------

  ghost predicate Carries(ps: seq<Packet>, us: seq<Unit>, max: nat)
  {
    CanEncodeAll(ps) && Frames(ps) == StreamFrames(us) && WithinLimit(us, max)
  }

  /** Successive calls of `recv` return exactly `ts` in order, and the call after them does what a
      call on `end` would do. */
  ghost predicate Yields(c: Conn, ts: seq<Bytes>, end: Conn, max: nat)
    decreases ts
  {
    var got := RecvStep(c, [], max);
    if ts == [] then got == RecvStep(end, [], max)
    else got.0 == Got(ts[0]) && Yields(got.1, ts[1..], end, max)
  }

  lemma FramesSlice(ps: seq<Packet>, k: nat)
    requires k <= |ps|
    ensures Frames(ps[..k]) == Frames(ps)[..k] && Frames(ps[k..]) == Frames(ps)[k..]
    ensures CanEncodeAll(ps) ==> CanEncodeAll(ps[..k]) && CanEncodeAll(ps[k..])
  {
  }

  lemma SmallSplit(fs: seq<Frame>, gs: seq<Frame>, max: nat)
    requires Small(fs + gs, max)
    ensures Small(fs, max) && Small(gs, max)
  {
    assert (fs + gs)[..|fs|] == fs && (fs + gs)[|fs|..] == gs;
  }

  lemma ShortSplit(t: Bytes, ts: seq<Bytes>, max: nat)
    requires NoLonger([t] + ts, max)
    ensures |t| <= max && NoLonger(ts, max)
  {
    assert ([t] + ts)[0] == t;
    assert ([t] + ts)[1..] == ts;
  }

  lemma LimitRest(us: seq<Unit>, max: nat)
    requires us != [] && WithinLimit(us, max)
    ensures WithinLimit(us[1..], max) && Small(UnitFrames(us[0]), max)
    ensures us[0].Message? && us[0].text ==> |us[0].first + Payloads(us[0].rest)| <= max
  {
    SmallSplit(UnitFrames(us[0]), StreamFrames(us[1..]), max);
    if us[0].Message? && us[0].text {
      var t := us[0].first + Payloads(us[0].rest);
      assert Texts(us) == [t] + Texts(us[1..]);
      ShortSplit(t, Texts(us[1..]), max);
    } else {
      assert Texts(us) == Texts(us[1..]);
    }
  }

  lemma CarriesRest(ps: seq<Packet>, us: seq<Unit>, k: nat, max: nat)
    requires us != [] && Carries(ps, us, max) && k == |UnitFrames(us[0])|
    ensures k <= |ps| && Carries(ps[k..], us[1..], max)
    ensures Frames(ps[..k]) == UnitFrames(us[0]) && CanEncodeAll(ps[..k])
  {
    var fs := Frames(ps);
    assert |ps| == |fs| && fs == UnitFrames(us[0]) + StreamFrames(us[1..]);
    FramesSlice(ps, k);
    LimitRest(us, max);
  }

  lemma {:induction false} WireSplit(ps: seq<Packet>, k: nat, tail: Stream)
    requires CanEncodeAll(ps) && k <= |ps|
    ensures WireStream(ps, tail) == WireStream(ps[..k], WireStream(ps[k..], tail))
  {
    if k == 0 {
      assert ps[k..] == ps;
    } else {
      assert ps[..k][1..] == ps[1..][..k - 1] && ps[k..] == ps[1..][k - 1..];
      WireSplit(ps[1..], k - 1, tail);
    }
  }

  /** One unit of the stream: a text message ends `recv` right behind it, anything else is passed
      over. */
  lemma RecvUnit(c: Conn, ps: seq<Packet>, us: seq<Unit>, tail: Stream, max: nat)
    requires c.live && us != [] && Carries(ps, us, max)
    ensures var k := |UnitFrames(us[0])|;
            var c1 := Answered(c, UnitAnswers(us[0]));
            && k <= |ps|
            && Carries(ps[k..], us[1..], max)
            && c1.live
            && RecvStep(c.(stream := WireStream(ps, tail)), [], max)
            == if us[0].Message? && us[0].text
               then (Got(us[0].first + Payloads(us[0].rest)), c1.(stream := WireStream(ps[k..], tail)))
               else RecvStep(c1.(stream := WireStream(ps[k..], tail)), [], max)
  {
    hide WireStream, UnitAnswers, FrameStep;
    var k := |UnitFrames(us[0])|;
    CarriesRest(ps, us, k, max);
    LimitRest(us, max);
    WireSplit(ps, k, tail);
    UnitRun(us[0], c, max);
    RunsFrames(c, ps[..k], WireStream(ps[k..], tail), [], false, max);
    AnsweredKeeps(c, UnitAnswers(us[0]));
    assert ps[..k][k..] == [];
    EmptyWire(WireStream(ps[k..], tail));
  }

  lemma EmptyWire(tail: Stream)
    ensures WireStream([], tail) == tail
  {
  }

  lemma YieldsFirst(c: Conn, t: Bytes, c1: Conn, ts: seq<Bytes>, end: Conn, max: nat)
    requires RecvStep(c, [], max) == (Got(t), c1) && Yields(c1, ts, end, max)
    ensures Yields(c, [t] + ts, end, max)
  {
    assert ([t] + ts)[1..] == ts;
  }

  lemma YieldsSame(a: Conn, b: Conn, ts: seq<Bytes>, end: Conn, max: nat)
    requires RecvStep(a, [], max) == RecvStep(b, [], max) && Yields(b, ts, end, max)
    ensures Yields(a, ts, end, max)
  {
  }

  /** The main result. On every well-formed stream, whatever dress the server gives its frames and
      whatever comes behind them, successive `recv` calls return exactly the text messages in
      order; the next call meets what comes behind; and every ping but those BinaryPings leaves out
      has been answered, in order. */
  lemma {:induction false} RecvReturnsTheTexts(c: Conn, ps: seq<Packet>, us: seq<Unit>, tail: Stream, max: nat)
    requires c.live && Carries(ps, us, max)
    ensures Yields(c.(stream := WireStream(ps, tail)), Texts(us), Answered(c, Answers(us)).(stream := tail), max)
    decreases us
  {
    if us == [] {
      assert ps == [] by { assert |ps| == |Frames(ps)|; }
    } else {
      var k := |UnitFrames(us[0])|;
      var c1 := Answered(c, UnitAnswers(us[0]));
      var end := Answered(c, Answers(us)).(stream := tail);
      var s, s1 := c.(stream := WireStream(ps, tail)), c1.(stream := WireStream(ps[k..], tail));
      RecvUnit(c, ps, us, tail, max);
      RecvReturnsTheTexts(c1, ps[k..], us[1..], tail, max);
      AnsweredConcat(c, UnitAnswers(us[0]), Answers(us[1..]));
      if us[0].Message? && us[0].text {
        YieldsFirst(s, us[0].first + Payloads(us[0].rest), s1, Texts(us[1..]), end, max);
      } else {
        YieldsSame(s, s1, Texts(us), end, max);
      }
    }
  }

  /** The same for a fresh connection, on every way TCP can cut the bytes into chunks. */
  lemma RecvReturnsTheTextsOnAnyChunking(
    chunks: seq<Bytes>, later: seq<Delivery>, writes: seq<bool>, ps: seq<Packet>, us: seq<Unit>, max: nat)
    requires Carries(ps, us, max)
    requires NonEmpty(chunks) && Flatten(chunks) == EncodeAll(ps)
    ensures Yields(Conn(ItemsOf(DataOf(chunks) + later), writes, [], true, false),
                   Texts(us),
                   Answered(Conn(ItemsOf(later), writes, [], true, false), Answers(us)),
                   max)
  {
    var c := Conn(ItemsOf(later), writes, [], true, false);
    ChunksAreInvisible(chunks, later);
    WireStreamIsEncodeAll(ps, ItemsOf(later));
    RecvReturnsTheTexts(c, ps, us, ItemsOf(later), max);
    AnsweredStream(c, Answers(us), ItemsOf(later));
  }

  // ---------------------------------------------------------------------------------------
  // Which pings are answered
  // ---------------------------------------------------------------------------------------

  function PongFrames(datas: seq<Bytes>): (r: seq<Frame>)
    ensures |r| == |datas|
  {
    seq(|datas|, i requires 0 <= i < |datas| => Frame(true, PONG, datas[i]))
  }

  /** While writes succeed, each answer is one pong that echoes the ping (section 5.5.3). */
  lemma {:induction false} AnswersAreSent(c: Conn, datas: seq<Bytes>)
    requires c.live && c.writes == []
    ensures Answered(c, datas) == c.(sent := c.sent + PongFrames(datas))
    decreases datas
  {
    if datas == [] {
      assert c.sent + PongFrames(datas) == c.sent;
    } else {
      AnswersAreSent(SendStep(c, PONG, datas[0]).1, datas[1..]);
      assert PongFrames(datas) == [Frame(true, PONG, datas[0])] + PongFrames(datas[1..]);
    }
  }

  function FirstControl(rest: seq<Part>): Option<Control>
  {
    if rest == [] then None
    else if rest[0].before != [] then Some(rest[0].before[0])
    else FirstControl(rest[1..])
  }

  /** A fragmented binary message costs at most one answer, and only when the first control frame
      inside it is a ping; every later ping is answered. */
  lemma {:induction false} OnlyTheFirstControlIsSwallowed(rest: seq<Part>)
    ensures RestPings(rest)
         == (if FirstControl(rest).Some? && FirstControl(rest).value.Ping? then [FirstControl(rest).value.data] else [])
            + BinaryPings(rest)
    ensures BinaryPings(rest) == RestPings(rest)
       <==> !(FirstControl(rest).Some? && FirstControl(rest).value.Ping?)
  {
    if rest != [] {
      var before := rest[0].before;
      if before == [] {
        OnlyTheFirstControlIsSwallowed(rest[1..]);
      } else {
        assert Pings(before) == (if before[0].Ping? then [before[0].data] else []) + Pings(before[1..]);
      }
    }
  }

  // ---------------------------------------------------------------------------------------
  // A Close inside a binary message
  // ---------------------------------------------------------------------------------------

  /** What comes before the last fragment of a binary message. */
  datatype Inner = Fragment(payload: Bytes) | Between(control: Control)

  function InnerFrames(inside: seq<Inner>): (fs: seq<Frame>)
    ensures |fs| == |inside|
  {
    seq(|inside|, i requires 0 <= i < |inside| =>
      if inside[i].Fragment? then Frame(false, CONT, inside[i].payload) else ControlFrame(inside[i].control))
  }

  /** The control frames, without the fragments. */
  function Controls(inside: seq<Inner>): seq<Control>
  {
    if inside == [] then []
    else (if inside[0].Between? then [inside[0].control] else []) + Controls(inside[1..])
  }

  lemma InnerFirst(inside: seq<Inner>)
    requires inside != []
    ensures InnerFrames(inside)
         == [if inside[0].Fragment? then Frame(false, CONT, inside[0].payload) else ControlFrame(inside[0].control)]
            + InnerFrames(inside[1..])
  {
  }

  /** Behind the first control frame the fragments are stray. */
  lemma {:induction false} InnerStray(inside: seq<Inner>, c: Conn, max: nat)
    ensures RunFrames(InnerFrames(inside), [], false, c, max)
         == More([], false, Answered(c, Pings(Controls(inside))))
  {
    hide StepFrame, RunFrames;
    if inside == [] {
      NoFrames([], false, c, max);
    } else {
      InnerFirst(inside);
      var f := InnerFrames(inside)[0];
      RunOne(f, InnerFrames(inside[1..]), [], false, c, max);
      if inside[0].Fragment? {
        assert Controls(inside) == Controls(inside[1..]);
        StrayStep(f, c, max);
        InnerStray(inside[1..], c, max);
      } else {
        var x := inside[0].control;
        ControlStep(x, [], c, max);
        PingsUnfold(Controls(inside), c);
        assert Controls(inside)[1..] == Controls(inside[1..]);
        InnerStray(inside[1..], if x.Ping? then SendStep(c, PONG, x.data).1 else c, max);
      }
    }
  }

  /** The fragments up to the first control frame are skipped, and so is that frame. */
  lemma {:induction false} InnerRun(inside: seq<Inner>, c: Conn, max: nat)
    ensures RunFrames(InnerFrames(inside), [], true, c, max)
         == if Controls(inside) == [] then More([], true, c)
            else More([], false, Answered(c, Pings(Controls(inside)[1..])))
  {
    hide StepFrame, RunFrames;
    if inside == [] {
      NoFrames([], true, c, max);
    } else {
      InnerFirst(inside);
      var f := InnerFrames(inside)[0];
      RunOne(f, InnerFrames(inside[1..]), [], true, c, max);
      if inside[0].Fragment? {
        assert Controls(inside) == Controls(inside[1..]);
        SkipsOn(f, c, max);
        InnerRun(inside[1..], c, max);
      } else {
        ControlStep(inside[0].control, [], c, max);
        assert Controls(inside)[1..] == Controls(inside[1..]);
        InnerStray(inside[1..], c, max);
      }
    }
  }

  lemma SkipsOn(f: Frame, c: Conn, max: nat)
    requires !f.fin
    ensures StepFrame(f, [], true, c, max) == Go([], true, c)
  {
  }

  function OpenBinary(first: Bytes, inside: seq<Inner>, body: Bytes): seq<Frame>
  {
    [Frame(false, BINARY, first)] + (InnerFrames(inside) + [Frame(true, CLOSE, body)])
  }

  lemma ClosedRun(first: Bytes, inside: seq<Inner>, body: Bytes, c: Conn, max: nat)
    ensures RunFrames(OpenBinary(first, inside, body), [], false, c, max)
         == if Controls(inside) == [] then More([], false, c)
            else
              var c1 := Answered(c, Pings(Controls(inside)[1..]));
              Done(PeerClosed(c1, body).0, [], PeerClosed(c1, body).1)
  {
    var open, close := Frame(false, BINARY, first), Frame(true, CLOSE, body);
    var fs := InnerFrames(inside);
    RunOne(open, fs + [close], [], false, c, max);
    InnerRun(inside, c, max);
    RunConcat(fs, [close], [], true, c, max);
    assert [close] + [] == [close];
    if Controls(inside) == [] {
      RunOne(close, [], [], true, c, max);
    } else {
      RunOne(close, [], [], false, Answered(c, Pings(Controls(inside)[1..])), max);
    }
  }

  /** The server may close in the middle of a binary message (section 5.5.1). Its Close is seen - echoed,
      its code reported - exactly when some other control frame came before it in that message: otherwise
      `recv` takes it for the last fragment, and goes on as if nothing but the bytes had come. */
  lemma CloseIsSeenBehindAControl(
    c: Conn, ps: seq<Packet>, first: Bytes, inside: seq<Inner>, body: Bytes, tail: Stream, max: nat)
    requires c.live && CanEncodeAll(ps) && Small(Frames(ps), max)
    requires Frames(ps) == OpenBinary(first, inside, body)
    ensures RecvStep(c.(stream := WireStream(ps, tail)), [], max)
         == if Controls(inside) == [] then RecvStep(c.(stream := tail), [], max)
            else PeerClosed(Answered(c, Pings(Controls(inside)[1..])).(stream := tail), body)
  {
    hide RecvStep, RunFrames, WireStream, PeerClosed;
    ClosedRun(first, inside, body, c, max);
    RunsFrames(c, ps, tail, [], false, max);
    if Controls(inside) != [] {
      PeerClosedStream(Answered(c, Pings(Controls(inside)[1..])), tail, body);
    }
    assert ps[|ps|..] == [];
    EmptyWire(tail);
  }
}
