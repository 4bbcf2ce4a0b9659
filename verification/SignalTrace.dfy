/** The worker's traces are exactly the words of one regular language. */
module SignalTrace {
  import opened WorkerSpec

  /** A trace without the lengths of the waits. */
  datatype Letter = Sig(signal: Signal) | Dials | Waits

  function Erase(a: Act): Letter
  {
    match a
    case Emit(s) => Sig(s)
    case Dial => Dials
    case Wait(_, _) => Waits
  }

  function Shape(acts: seq<Act>): (r: seq<Letter>)
    ensures |r| == |acts|
  {
    seq(|acts|, i requires 0 <= i < |acts| => Erase(acts[i]))
  }

  // ---------------------------------------------------------------------------------------
  // The automaton
  // ---------------------------------------------------------------------------------------

  /** Before the first dial, dialing, connected and binding a case, serving, in an outage, after a
      backoff sleep, redialing, barred by the server, ended, and the reject state. */
  datatype State = New | Dialing | Binding | Serving | Outage | Rested | Redialing | Barred | Ended | Wrong

  function Go(q: State, a: Letter): State
  {
    match q
    case New => if a.Dials? then Dialing else Wrong
    case Dialing =>
      if a == Sig(Connected) then Binding else if a == Sig(Failed) || a == Sig(AuthExpired) then Ended else Wrong
    case Binding =>
      if a == Sig(AgentEvent) then Binding
      else if a == Sig(CaseReady) then Serving
      else if a == Sig(Failed) || a == Sig(AuthExpired) then Ended
      else Wrong
    case Serving =>
      if a == Sig(AgentEvent) then Serving
      else if a == Sig(Reconnecting) then Outage
      else if a == Sig(Closed(Stopped)) || a == Sig(Closed(Crashed)) then Ended
      else Wrong
    case Outage => if a.Waits? then Rested else if a == Sig(Closed(Stopped)) then Ended else Wrong
    case Rested => if a.Dials? then Redialing else if a == Sig(Closed(Stopped)) then Ended else Wrong
    case Redialing =>
      if a == Sig(Resumed) then Serving
      else if a == Sig(Reconnecting) then Outage
      else if a == Sig(AuthExpired) then Barred
      else if a == Sig(Closed(Crashed)) then Ended
      else Wrong
    case Barred => if a == Sig(Closed(AuthRejected)) then Ended else Wrong
    case Ended => Wrong
    case Wrong => Wrong
  }

  function Reach(q: State, word: seq<Letter>): State
    decreases word
  {
    if word == [] then q else Reach(Go(q, word[0]), word[1..])
  }

  lemma {:induction false} ReachConcat(q: State, a: seq<Letter>, b: seq<Letter>)
    ensures Reach(q, a + b) == Reach(Reach(q, a), b)
    decreases a
  {
    if a == [] {
      assert a + b == b;
    } else {
      assert (a + b)[1..] == a[1..] + b;
      ReachConcat(Go(q, a[0]), a[1..], b);
    }
  }

  predicate Accepted(q: State, acts: seq<Act>)
  {
    Reach(q, Shape(acts)) == Ended
  }

  lemma AcceptedPush(q: State, a: Act, acts: seq<Act>)
    ensures Accepted(q, [a] + acts) == Accepted(Go(q, Erase(a)), acts)
  {
    assert Shape([a] + acts)[1..] == Shape(acts);
  }

  lemma AcceptedOne(q: State, a: Act)
    ensures Accepted(q, [a]) <==> Go(q, Erase(a)) == Ended
  {
    AcceptedPush(q, a, []);
    assert [a] + [] == [a];
  }

  // ---------------------------------------------------------------------------------------
  // Every behaviour yields a word
  // ---------------------------------------------------------------------------------------

  lemma {:induction false} ServeAccepted(w: World, backoff: nat)
    ensures Accepted(State.Serving, Serve(w, backoff))
    decreases w.polls, 2
  {
    var (stopped, w1) := Poll(w);
    AcceptedOne(State.Serving, Emit(Closed(Stopped)));
    AcceptedOne(State.Serving, Emit(Closed(Crashed)));
    if !stopped {
      var (ev, w2) := NextEvent(w1);
      match ev
      case NoEvent => ServeAccepted(w2, backoff);
      case Event =>
        ServeAccepted(w2, backoff);
        AcceptedPush(State.Serving, Emit(AgentEvent), Serve(w2, backoff));
      case ListEvent =>
        ServeAccepted(w2, backoff);
        AcceptedPush(State.Serving, Emit(AgentEvent), Serve(w2, backoff));
      case Lost =>
        var (stopped', w3) := Poll(w2);
        if !stopped' {
          RedialAccepted(w3, backoff);
          AcceptedPush(State.Serving, Emit(Reconnecting), Redial(w3, backoff));
        }
      case Broke =>
    }
  }

  lemma {:induction false} RedialAccepted(w: World, backoff: nat)
    ensures Accepted(Outage, Redial(w, backoff))
    decreases w.polls, 1
  {
    var (stopped, w1) := Poll(w);
    AcceptedOne(Outage, Emit(Closed(Stopped)));
    if !stopped {
      var (jitter, w2) := NextJitter(w1);
      var (delay, backoff') := NextBackoff(backoff, jitter);
      var (slices, w3) := NextNap(w2);
      var (interrupted, w4) := Sleep(w3, slices);
      AcceptedOne(Rested, Emit(Closed(Stopped)));
      if interrupted {
        AcceptedPush(Outage, Wait(backoff, delay), [Emit(Closed(Stopped))]);
      } else {
        var (dial, w5) := NextDial(w4);
        var rest := AfterDial(w5, dial, backoff');
        AfterDialAccepted(w5, dial, backoff');
        AcceptedPush(Rested, Dial, rest);
        AcceptedPush(Outage, Wait(backoff, delay), [Dial] + rest);
        assert Redial(w, backoff) == [Wait(backoff, delay)] + ([Dial] + rest);
      }
    }
  }

  lemma {:induction false} AfterDialAccepted(w: World, dial: DialOutcome, backoff: nat)
    ensures Accepted(State.Redialing, AfterDial(w, dial, backoff))
    decreases w.polls, 4
  {
    match dial
    case DialOk =>
      ResumeAccepted(w);
      AcceptedPush(State.Redialing, Emit(Resumed), Resume(w));
    case DialAuth =>
      AcceptedOne(Barred, Emit(Closed(AuthRejected)));
      AcceptedPush(State.Redialing, Emit(AuthExpired), [Emit(Closed(AuthRejected))]);
      assert [Emit(AuthExpired)] + [Emit(Closed(AuthRejected))] == AfterDial(w, dial, backoff);
    case DialFailed =>
      RedialAccepted(w, backoff);
      AcceptedPush(State.Redialing, Emit(Reconnecting), Redial(w, backoff));
    case DialBroke =>
      AcceptedOne(State.Redialing, Emit(Closed(Crashed)));
  }

  lemma {:induction false} ResumeAccepted(w: World)
    ensures Accepted(State.Serving, Resume(w))
    decreases w.polls, 3
  {
    var (stopped, w1) := Poll(w);
    AcceptedOne(State.Serving, Emit(Closed(Stopped)));
    if !stopped {
      ServeAccepted(w1, RECONNECT_FLOOR_MS);
    }
  }

  lemma {:induction false} PumpStaysBinding(w: World)
    ensures Reach(State.Binding, Shape(Pump(w).0)) == State.Binding
    decreases |w.startup|
  {
    var (stopped, w1) := Poll(w);
    if !stopped && w.startup != [] {
      var w2 := w1.(startup := w1.startup[1..]);
      match w.startup[0]
      case Quiet => PumpStaysBinding(w2);
      case Seen =>
        PumpStaysBinding(w2);
        assert Shape(Pump(w).0)[1..] == Shape(Pump(w2).0);
      case SeenList =>
        assert Shape(Pump(w).0)[1..] == [];
      case Raises(f) =>
    }
  }

  lemma ReachAccepted(q: State, a: seq<Act>, b: seq<Act>)
    ensures Accepted(q, a + b) == Accepted(Reach(q, Shape(a)), b)
  {
    assert Shape(a + b) == Shape(a) + Shape(b);
    ReachConcat(q, Shape(a), Shape(b));
  }

  /** Whatever the server, the network and the stop flag do, the trace is a word of the language. */
  lemma EveryRunIsAWord(w: World)
    ensures Accepted(New, Run(w))
  {
    AcceptedOne(State.Dialing, Emit(Failed));
    AcceptedOne(State.Dialing, Emit(AuthExpired));
    AcceptedOne(State.Binding, Emit(Failed));
    AcceptedOne(State.Binding, Emit(AuthExpired));
    var rest := Run(w)[1..];
    assert Run(w) == [Dial] + rest;
    AcceptedPush(New, Dial, rest);
    if w.first.DialOk? {
      var (acts, b, w1) := BindStartupCase(w);
      if w.needsList {
        PumpStaysBinding(w);
      }
      ResumeAccepted(w1);
      AcceptedPush(State.Binding, Emit(CaseReady), Resume(w1));
      var tail := if b.BindingFails? then [Emit(Ending(b.failure))] else [Emit(CaseReady)] + Resume(w1);
      ReachAccepted(State.Binding, acts, tail);
      AcceptedPush(State.Dialing, Emit(Connected), acts + tail);
      assert rest == [Emit(Connected)] + (acts + tail);
    }
  }

  // ---------------------------------------------------------------------------------------
  // Every word is a behaviour
  // ---------------------------------------------------------------------------------------

  /** A world that stops the worker at the first poll. */
  const STILL := World(0, DialOk, true, [], Bound, [], [], [], [])

  lemma {:induction false} EndedStays(word: seq<Letter>)
    ensures Reach(Wrong, word) == Wrong
    ensures Reach(Ended, word) == Ended ==> word == []
    decreases word
  {
    if word != [] {
      EndedStays(word[1..]);
    }
  }

  /** Worlds that make the worker spell a word from one of its loops. */
  function ServeWorld(word: seq<Letter>): (w: World)
    requires Reach(State.Serving, word) == Ended
    ensures w == STILL.(polls := w.polls, events := w.events, dials := w.dials, naps := w.naps)
    decreases word
  {
    EndedStays(word[1..]);
    match word[0]
    case Sig(AgentEvent) =>
      var w := ServeWorld(word[1..]);
      w.(polls := w.polls + 1, events := [Event] + w.events)
    case Sig(Reconnecting) =>
      var w := OutageWorld(word[1..]);
      w.(polls := w.polls + 2, events := [Lost] + w.events)
    case _ => if word[0] == Sig(Closed(Stopped)) then STILL else STILL.(polls := 1, events := [Broke])
  }

  function OutageWorld(word: seq<Letter>): (w: World)
    requires Reach(Outage, word) == Ended
    ensures w == STILL.(polls := w.polls, events := w.events, dials := w.dials, naps := w.naps)
    decreases word
  {
    EndedStays(word[1..]);
    if word[0] == Sig(Closed(Stopped)) then STILL
    else
      RestedWorld(word[1..])
  }

  function RestedWorld(word: seq<Letter>): (w: World)
    requires Reach(Rested, word) == Ended
    ensures w == STILL.(polls := w.polls, events := w.events, dials := w.dials, naps := w.naps)
    decreases word
  {
    EndedStays(word[1..]);
    if word[0] == Sig(Closed(Stopped)) then STILL.(polls := 1, naps := [0])
    else
      var w := RedialWorld(word[1..]);
      w.(polls := w.polls + 2, naps := [0] + w.naps)
  }

  function RedialWorld(word: seq<Letter>): (w: World)
    requires Reach(State.Redialing, word) == Ended
    ensures w == STILL.(polls := w.polls, events := w.events, dials := w.dials, naps := w.naps)
    ensures w.dials != []
    decreases word
  {
    EndedStays(word[1..]);
    match word[0]
    case Sig(Resumed) =>
      var w := ServeWorld(word[1..]);
      w.(polls := w.polls + 1, dials := [DialOk] + w.dials)
    case Sig(Reconnecting) =>
      var w := OutageWorld(word[1..]);
      w.(dials := [DialFailed] + w.dials)
    case Sig(AuthExpired) => STILL.(dials := [DialAuth])
    case _ => STILL.(dials := [DialBroke])
  }

  // One turn of each loop, on a world that says what happens in it.

  lemma ServeTurn(w: World, backoff: nat)
    ensures Serve(w.(polls := w.polls + 1, events := [Event] + w.events), backoff)
         == [Emit(AgentEvent)] + Serve(w, backoff)
    ensures Serve(w.(polls := w.polls + 2, events := [Lost] + w.events), backoff)
         == [Emit(Reconnecting)] + Redial(w, backoff)
  {
    assert ([Event] + w.events)[1..] == w.events;
    assert ([Lost] + w.events)[1..] == w.events;
  }

  lemma RedialTurn(w: World, backoff: nat)
    requires w.jitters == [] && w.dials != []
    ensures var (delay, backoff') := NextBackoff(backoff, 0.0);
            Redial(w.(polls := w.polls + 2, naps := [0] + w.naps), backoff)
            == [Wait(backoff, delay)] + ([Dial] + AfterDial(w.(dials := w.dials[1..]), w.dials[0], backoff'))
  {
    var w0 := w.(polls := w.polls + 2, naps := [0] + w.naps);
    assert ([0] + w.naps)[1..] == w.naps;
    var (stopped, w1) := Poll(w0);
    var (slices, w3) := NextNap(w1);
    assert slices == 0 && w3 == w.(polls := w.polls + 1);
    assert Sleep(w3, 0) == (false, w);
  }

  lemma ShapePush(a: Act, acts: seq<Act>)
    ensures Shape([a] + acts) == [Erase(a)] + Shape(acts)
  {
  }

  lemma {:induction false} ServeSpells(word: seq<Letter>, backoff: nat)
    requires Reach(State.Serving, word) == Ended
    ensures Shape(Serve(ServeWorld(word), backoff)) == word
    decreases word
  {
    hide Serve, Redial;
    var next := word[1..];
    EndedStays(next);
    assert word == [word[0]] + next;
    if word[0] == Sig(AgentEvent) {
      ServeSpells(next, backoff);
      ServeTurn(ServeWorld(next), backoff);
      ShapePush(Emit(AgentEvent), Serve(ServeWorld(next), backoff));
    } else if word[0] == Sig(Reconnecting) {
      OutageSpells(next, backoff);
      ServeTurn(OutageWorld(next), backoff);
      ShapePush(Emit(Reconnecting), Redial(OutageWorld(next), backoff));
    } else {
      ServeEnds(backoff);
    }
  }

  lemma ServeEnds(backoff: nat)
    ensures Shape(Serve(STILL, backoff)) == [Sig(Closed(Stopped))]
    ensures Shape(Serve(STILL.(polls := 1, events := [Broke]), backoff)) == [Sig(Closed(Crashed))]
  {
  }

  lemma RedialEnds(backoff: nat)
    ensures Shape(Redial(STILL, backoff)) == [Sig(Closed(Stopped))]
    ensures Shape(Redial(STILL.(polls := 1, naps := [0]), backoff)) == [Waits, Sig(Closed(Stopped))]
  {
    var w := STILL.(polls := 1, naps := [0]);
    var (delay, backoff') := NextBackoff(backoff, 0.0);
    assert Redial(w, backoff) == [Wait(backoff, delay)] + [Emit(Closed(Stopped))];
  }

  lemma {:induction false} OutageSpells(word: seq<Letter>, backoff: nat)
    requires Reach(Outage, word) == Ended
    ensures Shape(Redial(OutageWorld(word), backoff)) == word
    decreases word
  {
    hide Redial, AfterDial, NextBackoff;
    var next := word[1..];
    EndedStays(next);
    assert word == [word[0]] + next;
    RedialEnds(backoff);
    if word[0] == Waits {
      RestedSpells(next, backoff);
    }
  }

  lemma {:induction false} RestedSpells(word: seq<Letter>, backoff: nat)
    requires Reach(Rested, word) == Ended
    ensures Shape(Redial(RestedWorld(word), backoff)) == [Waits] + word
    decreases word
  {
    hide Redial, AfterDial, NextBackoff;
    var next := word[1..];
    EndedStays(next);
    assert word == [word[0]] + next;
    var (delay, backoff') := NextBackoff(backoff, 0.0);
    if word[0] == Dials {
      var w := RedialWorld(next);
      var acts := AfterDial(w.(dials := w.dials[1..]), w.dials[0], backoff');
      AfterDialSpells(next, backoff');
      RedialTurn(w, backoff);
      ShapePush(Dial, acts);
      ShapePush(Wait(backoff, delay), [Dial] + acts);
    } else {
      RedialEnds(backoff);
    }
  }

  lemma AfterDialCases(w: World, backoff: nat)
    ensures AfterDial(w.(polls := w.polls + 1), DialOk, backoff) == [Emit(Resumed)] + Serve(w, RECONNECT_FLOOR_MS)
    ensures AfterDial(w, DialFailed, backoff) == [Emit(Reconnecting)] + Redial(w, backoff)
    ensures Shape(AfterDial(w, DialAuth, backoff)) == [Sig(AuthExpired), Sig(Closed(AuthRejected))]
    ensures Shape(AfterDial(w, DialBroke, backoff)) == [Sig(Closed(Crashed))]
  {
  }

  lemma {:induction false} AfterDialSpells(word: seq<Letter>, backoff: nat)
    requires Reach(State.Redialing, word) == Ended
    ensures var w := RedialWorld(word);
            Shape(AfterDial(w.(dials := w.dials[1..]), w.dials[0], backoff)) == word
    decreases word
  {
    hide Redial, AfterDial, Serve;
    var next := word[1..];
    EndedStays(next);
    assert word == [word[0]] + next;
    if word[0] == Sig(Resumed) {
      var w := ServeWorld(next);
      ServeSpells(next, RECONNECT_FLOOR_MS);
      assert ([DialOk] + w.dials)[1..] == w.dials;
      AfterDialCases(w, backoff);
      ShapePush(Emit(Resumed), Serve(w, RECONNECT_FLOOR_MS));
    } else if word[0] == Sig(Reconnecting) {
      var w := OutageWorld(next);
      OutageSpells(next, backoff);
      assert ([DialFailed] + w.dials)[1..] == w.dials;
      AfterDialCases(w, backoff);
      ShapePush(Emit(Reconnecting), Redial(w, backoff));
    } else {
      DialEndsTheRun(word, backoff);
    }
  }

  /** A dial that the run does not survive. */
  lemma DialEndsTheRun(word: seq<Letter>, backoff: nat)
    requires Reach(State.Redialing, word) == Ended && word[0] != Sig(Resumed) && word[0] != Sig(Reconnecting)
    ensures var w := RedialWorld(word);
            Shape(AfterDial(w.(dials := w.dials[1..]), w.dials[0], backoff)) == word
  {
    var next := word[1..];
    EndedStays(next);
    assert word == [word[0]] + next;
    AfterDialCases(STILL, backoff);
    assert [DialAuth][1..] == [] && [DialBroke][1..] == [];
    if next != [] {
      EndedStays(next[1..]);
      assert next == [next[0]] + next[1..];
    }
  }

  // The startup ------------------------------------------------------------------------------

  /** A world that spells the rest of a word while the case is being bound. */
  function BindingWorld(word: seq<Letter>): (w: World)
    requires Reach(State.Binding, word) == Ended
    ensures w.first.DialOk? && w.needsList && |w.startup| <= w.polls
    decreases word
  {
    EndedStays(word[1..]);
    match word[0]
    case Sig(AgentEvent) =>
      var w := BindingWorld(word[1..]);
      w.(polls := w.polls + 1, startup := [Seen] + w.startup)
    case Sig(CaseReady) =>
      var w := ServeWorld(word[1..]);
      w.(polls := w.polls + 2, needsList := true)
    case _ =>
      STILL.(polls := 1, needsList := true,
             binding := BindingFails(if word[0] == Sig(AuthExpired) then AuthFailure else OtherFailure))
  }

  /** What `run` does from the binding of the case on. */
  function FromBinding(w: World): seq<Act>
  {
    var (acts, b, w1) := BindStartupCase(w);
    acts + (match b
            case BindingFails(f) => [Emit(Ending(f))]
            case Bound => [Emit(CaseReady)] + Resume(w1))
  }

  lemma BindingTurn(w: World)
    ensures FromBinding(w.(polls := w.polls + 1, startup := [Seen] + w.startup, needsList := true))
         == [Emit(AgentEvent)] + FromBinding(w.(needsList := true))
  {
    assert ([Seen] + w.startup)[1..] == w.startup;
    var w0 := w.(needsList := true);
    var (acts, b, w1) := BindStartupCase(w0);
    var tail := match b
                case BindingFails(f) => [Emit(Ending(f))]
                case Bound => [Emit(CaseReady)] + Resume(w1);
    assert ([Emit(AgentEvent)] + acts) + tail == [Emit(AgentEvent)] + (acts + tail);
  }

  lemma ResumeServes(w: World)
    requires w.polls > 0
    ensures Resume(w) == Serve(w.(polls := w.polls - 1), RECONNECT_FLOOR_MS)
  {
    hide Serve;
  }

  lemma BindingSucceeds(w: World)
    requires w.needsList && w.startup == [] && w.binding == Bound && w.polls > 1
    ensures FromBinding(w) == [Emit(CaseReady)] + Serve(w.(polls := w.polls - 2), RECONNECT_FLOOR_MS)
  {
    hide Serve, Resume;
    var w1 := w.(polls := w.polls - 1);
    assert BindStartupCase(w) == ([], Bound, w1);
    ResumeServes(w1);
    assert [] + ([Emit(CaseReady)] + Resume(w1)) == [Emit(CaseReady)] + Resume(w1);
  }

  lemma BindingFailsAtOnce(w: World, f: Failure)
    requires w.needsList && w.startup == [] && w.binding == BindingFails(f)
    ensures FromBinding(w) == [Emit(Ending(f))]
  {
  }

  lemma {:induction false} BindingSpells(word: seq<Letter>)
    requires Reach(State.Binding, word) == Ended
    ensures Shape(FromBinding(BindingWorld(word))) == word
    decreases word
  {
    hide FromBinding, Serve;
    var next := word[1..];
    EndedStays(next);
    assert word == [word[0]] + next;
    if word[0] == Sig(AgentEvent) {
      var w := BindingWorld(next);
      BindingSpells(next);
      BindingTurn(w);
      ShapePush(Emit(AgentEvent), FromBinding(w));
    } else if word[0] == Sig(CaseReady) {
      var w := ServeWorld(next);
      ServeSpells(next, RECONNECT_FLOOR_MS);
      BindingSucceeds(BindingWorld(word));
      ShapePush(Emit(CaseReady), Serve(w, RECONNECT_FLOOR_MS));
    } else {
      BindingFailsAtOnce(BindingWorld(word), BindingWorld(word).binding.failure);
    }
  }

  /** A run whose first dial succeeds. */
  lemma ConnectedRun(w: World)
    requires w.first.DialOk?
    ensures Shape(Run(w)) == [Dials] + ([Sig(Connected)] + Shape(FromBinding(w)))
  {
    hide FromBinding, Resume, BindStartupCase;
    assert Run(w) == [Dial] + ([Emit(Connected)] + FromBinding(w)) by {
      RunFromBinding(w);
    }
    ShapePush(Emit(Connected), FromBinding(w));
    ShapePush(Dial, [Emit(Connected)] + FromBinding(w));
  }

  lemma RunFromBinding(w: World)
    requires w.first.DialOk?
    ensures Run(w) == [Dial] + ([Emit(Connected)] + FromBinding(w))
  {
    hide Resume, BindStartupCase;
  }

  /** A run whose first dial fails. */
  lemma FailedRun(auth: bool)
    ensures Shape(Run(STILL.(first := if auth then DialAuth else DialFailed)))
         == [Dials, Sig(if auth then AuthExpired else Failed)]
  {
  }

  /** Every word of the language is the trace of some behaviour of the world. */
  lemma EveryWordIsARun(word: seq<Letter>) returns (w: World)
    requires Reach(New, word) == Ended
    ensures Shape(Run(w)) == word
  {
    hide Run, Shape, FromBinding;
    var next := word[1..];
    EndedStays(next);
    assert word == [word[0]] + next;
    var last := next[1..];
    EndedStays(last);
    assert next == [next[0]] + last;
    if next[0] == Sig(Connected) {
      w := BindingWorld(last);
      BindingSpells(last);
      ConnectedRun(w);
    } else {
      w := STILL.(first := if next[0] == Sig(AuthExpired) then DialAuth else DialFailed);
      FailedRun(next[0] == Sig(AuthExpired));
      assert last == [];
    }
  }

  // ---------------------------------------------------------------------------------------
  // What membership says
  // ---------------------------------------------------------------------------------------

  lemma {:induction false} SplitWord(q: State, word: seq<Letter>, i: nat)
    requires i < |word|
    ensures Reach(q, word) == Reach(Go(Reach(q, word[..i]), word[i]), word[i + 1..])
  {
    assert word == word[..i] + ([word[i]] + word[i + 1..]);
    ReachConcat(q, word[..i], [word[i]] + word[i + 1..]);
    assert ([word[i]] + word[i + 1..])[1..] == word[i + 1..];
  }

  lemma {:induction false} SeenInPrefix(word: seq<Letter>)
    ensures var q := Reach(New, word);
            && (q != New && q != State.Dialing && q != Wrong && q != Ended ==> Sig(Connected) in word)
            && (q == Outage || q == Rested || q == State.Redialing ==> Sig(Reconnecting) in word)
  {
    if word != [] {
      var k := |word| - 1;
      SeenInPrefix(word[..k]);
      SplitWord(New, word, k);
      assert word[k + 1..] == [];
      assert forall a :: a in word[..k] ==> a in word;
      assert word[k] in word;
    }
  }

  /** In every run: events and the bound case come only after `connected`; `resumed` only after a
      `reconnecting` with no other `resumed` between; `closed` comes last; and after `auth_expired`
      nothing is dialed. */
  lemma RunDiscipline(w: World, i: nat)
    requires i < |Run(w)|
    ensures var word := Shape(Run(w));
            && (word[i] == Sig(AgentEvent) || word[i] == Sig(CaseReady) ==> Sig(Connected) in word[..i])
            && (word[i] == Sig(Resumed) ==> OutageBefore(word[..i]))
            && (word[i].Sig? && word[i].signal.Closed? ==> i == |word| - 1)
            && (word[i] == Sig(Failed) ==> i == |word| - 1)
            && (word[i] == Sig(AuthExpired) ==> Letter.Dials !in word[i + 1..] && |word| - 2 <= i)
  {
    hide Run, Shape;
    EveryRunIsAWord(w);
    WordDiscipline(Shape(Run(w)), i);
  }

  lemma WordDiscipline(word: seq<Letter>, i: nat)
    requires i < |word| && Reach(New, word) == Ended
    ensures word[i] == Sig(AgentEvent) || word[i] == Sig(CaseReady) ==> Sig(Connected) in word[..i]
    ensures word[i] == Sig(Resumed) ==> OutageBefore(word[..i])
    ensures word[i].Sig? && word[i].signal.Closed? ==> i == |word| - 1
    ensures word[i] == Sig(Failed) ==> i == |word| - 1
    ensures word[i] == Sig(AuthExpired) ==> Letter.Dials !in word[i + 1..] && |word| - 2 <= i
  {
    hide OutageBefore, Go, Reach;
    SplitWord(New, word, i);
    SeenInPrefix(word[..i]);
    LetterNeeds(Reach(New, word[..i]), word[i], word[i + 1..]);
    if word[i] == Sig(Resumed) {
      LastOutage(word[..i]);
    }
  }

  /** Where a letter can stand in a word, and what can follow it. */
  lemma LetterNeeds(q: State, a: Letter, after: seq<Letter>)
    requires Reach(Go(q, a), after) == Ended
    ensures a == Sig(AgentEvent) || a == Sig(CaseReady) ==> q == State.Binding || q == State.Serving
    ensures a == Sig(Resumed) ==> q == State.Redialing
    ensures (a.Sig? && a.signal.Closed?) || a == Sig(Failed) ==> after == []
    ensures a == Sig(AuthExpired) ==> Letter.Dials !in after && |after| <= 1
  {
    EndedStays(after);
    if after != [] {
      EndedStays(after[1..]);
      assert after == [after[0]] + after[1..];
    }
  }

  /** Read backwards, a `reconnecting` comes before any `resumed`. */
  predicate OutageBefore(word: seq<Letter>)
    decreases |word|
  {
    && word != []
    && var last := word[|word| - 1];
       last == Sig(Reconnecting) || (last != Sig(Resumed) && OutageBefore(word[..|word| - 1]))
  }

  lemma {:induction false} LastOutage(word: seq<Letter>)
    requires Reach(New, word) in {Outage, Rested, State.Redialing}
    ensures OutageBefore(word)
    decreases |word|
  {
    var n := |word| - 1;
    SplitWord(New, word, n);
    assert word[n + 1..] == [];
    if word[n] != Sig(Reconnecting) {
      LastOutage(word[..n]);
    }
  }
}
