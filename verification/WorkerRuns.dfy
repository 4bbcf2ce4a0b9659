/** What the worker tells the user interface, from what happened to it. */
module WorkerRuns {
  import opened WorkerSpec
  import opened Ladder
  import SignalTrace

  // ---------------------------------------------------------------------------------------
  // Serving
  // ---------------------------------------------------------------------------------------

  predicate Calm(es: seq<EventOutcome>)
  {
    forall i :: 0 <= i < |es| ==> !es[i].Lost? && !es[i].Broke?
  }

  /** How many of the outcomes brought an event, a case list among them. */
  function Visible(es: seq<EventOutcome>): nat
  {
    if es == [] then 0 else (if es[0].Event? || es[0].ListEvent? then 1 else 0) + Visible(es[1..])
  }

  function Events(n: nat): seq<Act>
  {
    seq(n, i => Emit(AgentEvent))
  }

  lemma EventsPush(n: nat, acts: seq<Act>)
    ensures [Emit(AgentEvent)] + (Events(n) + acts) == Events(n + 1) + acts
    ensures Events(0) + acts == acts
  {
  }

  /** `k` calm outcomes come before the first that is not, or before the silence. */
  ghost predicate CalmUntil(es: seq<EventOutcome>, k: nat)
  {
    k <= |es| && Calm(es[..k]) && (k < |es| ==> !Calm([es[k]]))
  }

  /** What follows the calm outcomes: the stop, the crash, or the outage. */
  function AfterCalm(w: World, backoff: nat, k: nat): seq<Act>
    requires k <= |w.events|
  {
    if w.polls <= k || k == |w.events| then [Emit(Closed(Stopped))]
    else if w.events[k].Broke? then [Emit(Closed(Crashed))]
    else if w.polls == k + 1 then [Emit(Closed(Stopped))]
    else [Emit(Reconnecting)] + Redial(w.(polls := w.polls - k - 2, events := w.events[k + 1..]), backoff)
  }

  function Least(a: nat, b: nat): nat
  {
    if a <= b then a else b
  }

  lemma {:induction false} ServeSilence(w: World, backoff: nat)
    requires w.events == []
    ensures Serve(w, backoff) == [Emit(Closed(Stopped))]
    decreases w.polls
  {
    if w.polls > 0 {
      ServeSilence(w.(polls := w.polls - 1), backoff);
    }
  }

  /** The world after one outcome was taken in. */
  function Heard(w: World): World
    requires w.polls > 0 && w.events != []
  {
    w.(polls := w.polls - 1, events := w.events[1..])
  }

  lemma ServeTurn(w: World, backoff: nat)
    requires w.polls > 0 && w.events != [] && Calm([w.events[0]])
    ensures Serve(w, backoff) == Events(Visible([w.events[0]])) + Serve(Heard(w), backoff)
  {
    hide Redial;
    assert Calm([w.events[0]]) ==> !w.events[0].Lost? && !w.events[0].Broke? by {
      assert [w.events[0]][0] == w.events[0];
    }
    EventsPush(0, Serve(Heard(w), backoff));
    assert [w.events[0]][1..] == [];
  }

  lemma {:induction false} VisibleFirst(e: EventOutcome, es: seq<EventOutcome>)
    ensures Events(Visible([e])) + Events(Visible(es)) == Events(Visible([e] + es))
  {
    assert ([e] + es)[1..] == es && [e][1..] == [];
  }

  lemma AfterCalmLater(w: World, backoff: nat, k: nat)
    requires w.polls > 0 && 0 < k <= |w.events|
    ensures AfterCalm(Heard(w), backoff, k - 1) == AfterCalm(w, backoff, k)
  {
    hide Redial;
    if k < |w.events| {
      assert Heard(w).events[k..] == w.events[k + 1..];
    }
  }

  lemma CalmLater(es: seq<EventOutcome>, k: nat)
    requires 0 < k && CalmUntil(es, k)
    ensures CalmUntil(es[1..], k - 1) && Calm([es[0]])
  {
    assert es[..k][0] == es[0];
    assert es[1..][..k - 1] == es[..k][1..];
  }

  /** While it serves, the worker hands on one event for each that came before it was stopped, none else, and
      then ends as the first outcome that was not calm has it. */
  lemma {:induction false} ServeIs(w: World, backoff: nat, k: nat)
    requires CalmUntil(w.events, k)
    ensures Serve(w, backoff) == Events(Visible(w.events[..Least(w.polls, k)])) + AfterCalm(w, backoff, k)
    decreases k
  {
    hide Redial, Serve, AfterCalm, Visible, Events, Calm;
    if w.events == [] {
      ServeHere(w, backoff, k);
    } else if w.polls == 0 || k == 0 {
      ServeHere(w, backoff, k);
    } else {
      var n := Least(w.polls, k);
      CalmLater(w.events, k);
      ServeTurn(w, backoff);
      ServeIs(Heard(w), backoff, k - 1);
      AfterCalmLater(w, backoff, k);
      var e, later := w.events[0], w.events[1..][..n - 1];
      assert w.events[..n] == [e] + later;
      assert Heard(w).events[..Least(Heard(w).polls, k - 1)] == later;
      VisibleFirst(e, later);
      Regroup(Events(Visible([e])), Events(Visible(later)), AfterCalm(w, backoff, k));
    }
  }

  lemma Regroup(a: seq<Act>, b: seq<Act>, c: seq<Act>)
    ensures a + (b + c) == a + b + c
  {
  }

  lemma ServeHere(w: World, backoff: nat, k: nat)
    requires CalmUntil(w.events, k) && (w.events == [] || w.polls == 0 || k == 0)
    ensures Serve(w, backoff) == Events(Visible(w.events[..Least(w.polls, k)])) + AfterCalm(w, backoff, k)
  {
    hide Redial;
    assert w.events[..Least(w.polls, k)] == [];
    EventsPush(0, AfterCalm(w, backoff, k));
    if w.events == [] {
      ServeSilence(w, backoff);
    } else if w.polls > 0 {
      assert [w.events[0]][0] == w.events[0];
    }
  }

  // ---------------------------------------------------------------------------------------
  // Binding the startup case
  // ---------------------------------------------------------------------------------------

  function Seen(es: seq<StartupEvent>): nat
  {
    if es == [] then 0 else (if es[0].Seen? then 1 else 0) + Seen(es[1..])
  }

  predicate Pumps(e: StartupEvent)
  {
    e.Quiet? || e.Seen?
  }

  ghost predicate PumpsUntil(es: seq<StartupEvent>, k: nat)
  {
    && k <= |es|
    && (forall i :: 0 <= i < k ==> Pumps(es[i]))
    && (k < |es| ==> !Pumps(es[k]))
  }

  /** How the pump ends at position `k`. */
  function AfterPump(w: World, k: nat): (seq<Act>, Binding, World)
    requires k <= |w.startup|
  {
    if w.polls <= k then ([], Bound, w.(polls := 0, startup := w.startup[w.polls..]))
    else
      var w1 := w.(polls := w.polls - k - 1, startup := if k < |w.startup| then w.startup[k + 1..] else []);
      if k == |w.startup| then ([], Bound, w1)
      else
        match w.startup[k]
        case Raises(f) => ([], BindingFails(f), w1)
        case _ => ([Emit(AgentEvent)], Bound, w1)
  }

  /** The world after one pumped event. */
  function Pumped(w: World): World
    requires w.polls > 0 && w.startup != []
  {
    w.(polls := w.polls - 1, startup := w.startup[1..])
  }

  lemma PumpTurn(w: World)
    requires w.polls > 0 && w.startup != [] && Pumps(w.startup[0])
    ensures var (acts, b, w1) := Pump(Pumped(w));
            Pump(w) == (Events(Seen([w.startup[0]])) + acts, b, w1)
  {
    hide Events;
    SeenOne(w.startup[0]);
    var (acts, b, w1) := Pump(Pumped(w));
    if w.startup[0].Seen? {
      assert Pump(w) == ([Emit(AgentEvent)] + acts, b, w1);
    } else {
      assert [] + acts == acts;
    }
  }

  lemma SeenOne(e: StartupEvent)
    ensures Events(Seen([e])) == if e.Seen? then [Emit(AgentEvent)] else []
  {
    assert [e][1..] == [];
  }

  lemma SeenFirst(e: StartupEvent, es: seq<StartupEvent>)
    ensures Events(Seen([e])) + Events(Seen(es)) == Events(Seen([e] + es))
  {
    assert ([e] + es)[1..] == es && [e][1..] == [];
  }

  lemma PumpHere(w: World, k: nat)
    requires PumpsUntil(w.startup, k) && (w.polls == 0 || k == 0)
    ensures var (acts, b, w1) := AfterPump(w, k);
            Pump(w) == (Events(Seen([])) + acts, b, w1)
  {
    EventsPush(0, AfterPump(w, k).0);
    assert w.startup[0..] == w.startup;
  }

  /** The pump hands on every event up to the case list, that one included; it binds on when it has the list,
      was stopped, or ran into the deadline, and fails exactly where a call raised before any of that. */
  lemma {:induction false} PumpIs(w: World, k: nat)
    requires PumpsUntil(w.startup, k)
    ensures var (acts, b, w1) := AfterPump(w, k);
            Pump(w) == (Events(Seen(w.startup[..Least(w.polls, k)])) + acts, b, w1)
    decreases k
  {
    hide Pump, AfterPump, Events, Seen;
    var n := Least(w.polls, k);
    if n == 0 {
      PumpHere(w, k);
      assert w.startup[..n] == [];
    } else {
      var e, later := w.startup[0], w.startup[1..][..n - 1];
      PumpTurn(w);
      PumpIs(Pumped(w), k - 1);
      AfterPumpLater(w, k);
      assert w.startup[..n] == [e] + later;
      SeenFirst(e, later);
      Regroup(Events(Seen([e])), Events(Seen(later)), AfterPump(w, k).0);
    }
  }

  lemma AfterPumpLater(w: World, k: nat)
    requires w.polls > 0 && 0 < k <= |w.startup|
    ensures AfterPump(Pumped(w), k - 1) == AfterPump(w, k)
  {
    var w2 := Pumped(w);
    if w.polls <= k {
      assert w2.startup[w2.polls..] == w.startup[w.polls..];
    } else if k < |w.startup| {
      assert w2.startup[k..] == w.startup[k + 1..];
    }
  }

  /** Something raised while the pump waited for the case list. */
  predicate PumpRaises(w: World, k: nat)
  {
    w.needsList && k < w.polls && k < |w.startup| && w.startup[k].Raises?
  }

  /** A case is bound unless a call of the pump raised, or the binding itself did; and every event that came
      while the pump ran was handed on. */
  lemma BindIs(w: World, k: nat)
    requires PumpsUntil(w.startup, k)
    ensures BindStartupCase(w).1 == if PumpRaises(w, k) then BindingFails(w.startup[k].failure) else w.binding
    ensures !w.needsList ==> BindStartupCase(w).0 == [] && BindStartupCase(w).2 == w
    ensures var listed := k < w.polls && k < |w.startup| && w.startup[k].SeenList?;
            w.needsList ==>
              BindStartupCase(w).0 == Events(Seen(w.startup[..Least(w.polls, k)]) + if listed then 1 else 0)
  {
    hide Pump, Seen;
    PumpIs(w, k);
    var n := Seen(w.startup[..Least(w.polls, k)]);
    assert Events(n) + [Emit(AgentEvent)] == Events(n + 1);
  }

  // ---------------------------------------------------------------------------------------
  // Redialing
  // ---------------------------------------------------------------------------------------

  function First(dials: seq<DialOutcome>): DialOutcome
  {
    if dials == [] then DialFailed else dials[0]
  }

  function Rest(dials: seq<DialOutcome>): seq<DialOutcome>
  {
    if dials == [] then [] else dials[1..]
  }

  /** What the worker does while it serves or waits, of its own accord: `crash` says that some event may have
      raised what it does not catch. */
  predicate Unprompted(a: Act, crash: bool)
  {
    match a
    case Wait(_, _) => true
    case Dial => false
    case Emit(s) => s.AgentEvent? || s.Reconnecting? || s == Closed(Stopped) || (s == Closed(Crashed) && crash)
  }

  /** Every act has its cause. Each dial is answered at once, as the outcome that belongs to it says: `resumed`,
      another try, the end for want of a valid token, or a crash; and nothing else brings those about. */
  predicate Explained(acts: seq<Act>, dials: seq<DialOutcome>, crash: bool)
    decreases acts
  {
    acts == []
    || if !acts[0].Dial? then Unprompted(acts[0], crash) && Explained(acts[1..], dials, crash)
       else
         && |acts| >= 2
         && match First(dials)
            case DialOk => acts[1] == Emit(Resumed) && Explained(acts[2..], Rest(dials), crash)
            case DialFailed => acts[1] == Emit(Reconnecting) && Explained(acts[2..], Rest(dials), crash)
            case DialAuth => acts[1..] == [Emit(AuthExpired), Emit(Closed(AuthRejected))]
            case DialBroke => acts[1..] == [Emit(Closed(Crashed))]
  }

  lemma ExplainedPush(a: Act, acts: seq<Act>, dials: seq<DialOutcome>, crash: bool)
    requires Unprompted(a, crash) && Explained(acts, dials, crash)
    ensures Explained([a] + acts, dials, crash)
  {
    assert ([a] + acts)[1..] == acts;
  }

  lemma ExplainedEnd(a: Act, dials: seq<DialOutcome>, crash: bool)
    requires Unprompted(a, crash)
    ensures Explained([a], dials, crash)
  {
    ExplainedPush(a, [], dials, crash);
    assert [a] + [] == [a];
  }

  lemma ExplainedDial(reply: seq<Act>, dials: seq<DialOutcome>, crash: bool)
    requires match First(dials)
             case DialOk => reply != [] && reply[0] == Emit(Resumed) && Explained(reply[1..], Rest(dials), crash)
             case DialFailed =>
               reply != [] && reply[0] == Emit(Reconnecting) && Explained(reply[1..], Rest(dials), crash)
             case DialAuth => reply == [Emit(AuthExpired), Emit(Closed(AuthRejected))]
             case DialBroke => reply == [Emit(Closed(Crashed))]
    ensures Explained([Dial] + reply, dials, crash)
  {
    var acts := [Dial] + reply;
    assert acts[1..] == reply && acts[2..] == reply[1..];
  }

  lemma {:induction false} ServeExplained(w: World, backoff: nat, crash: bool)
    requires Broke in w.events ==> crash
    ensures Explained(Serve(w, backoff), w.dials, crash)
    decreases w.polls, 2
  {
    hide Explained, Redial;
    ExplainedEnd(Emit(Closed(Stopped)), w.dials, crash);
    var (stopped, w1) := Poll(w);
    if !stopped {
      var (ev, w2) := NextEvent(w1);
      if ev.Broke? {
        ExplainedEnd(Emit(Closed(Crashed)), w.dials, crash);
      } else if ev.Lost? {
        var (stopped', w3) := Poll(w2);
        if !stopped' {
          RedialExplained(w3, backoff, crash);
          ExplainedPush(Emit(Reconnecting), Redial(w3, backoff), w.dials, crash);
        }
      } else {
        ServeExplained(w2, backoff, crash);
        ExplainedPush(Emit(AgentEvent), Serve(w2, backoff), w.dials, crash);
      }
    }
  }

  lemma {:induction false} RedialExplained(w: World, backoff: nat, crash: bool)
    requires Broke in w.events ==> crash
    ensures Explained(Redial(w, backoff), w.dials, crash)
    decreases w.polls, 1
  {
    hide Explained, Rung;
    ExplainedEnd(Emit(Closed(Stopped)), w.dials, crash);
    var (stopped, w1) := Poll(w);
    if !stopped {
      RungExplained(w1, backoff, crash);
    }
  }

  lemma {:induction false} RungExplained(w: World, backoff: nat, crash: bool)
    requires Broke in w.events ==> crash
    ensures Explained(Rung(w, backoff), w.dials, crash)
    decreases w.polls, 5
  {
    hide Explained, AfterDial, NextBackoff;
    var (jitter, w2) := NextJitter(w);
    var (delay, backoff') := NextBackoff(backoff, jitter);
    var (slices, w3) := NextNap(w2);
    var (interrupted, w4) := Sleep(w3, slices);
    if interrupted {
      ExplainedEnd(Emit(Closed(Stopped)), w.dials, crash);
      ExplainedPush(Wait(backoff, delay), [Emit(Closed(Stopped))], w.dials, crash);
    } else {
      var (dial, w5) := NextDial(w4);
      DialExplained(w5, w.dials, backoff', crash);
      ExplainedPush(Wait(backoff, delay), [Dial] + AfterDial(w5, dial, backoff'), w.dials, crash);
    }
  }

  lemma {:induction false} DialExplained(w: World, dials: seq<DialOutcome>, backoff: nat, crash: bool)
    requires (Broke in w.events ==> crash) && w.dials == Rest(dials)
    ensures Explained([Dial] + AfterDial(w, First(dials), backoff), dials, crash)
    decreases w.polls, 4
  {
    hide Explained, Redial, Resume;
    var reply := AfterDial(w, First(dials), backoff);
    match First(dials)
    case DialOk =>
      ResumeExplained(w, crash);
      assert reply[1..] == Resume(w);
      ExplainedDial(reply, dials, crash);
    case DialFailed =>
      RedialExplained(w, backoff, crash);
      assert reply[1..] == Redial(w, backoff);
      ExplainedDial(reply, dials, crash);
    case _ => ExplainedDial(reply, dials, crash);
  }

  lemma {:induction false} ResumeExplained(w: World, crash: bool)
    requires Broke in w.events ==> crash
    ensures Explained(Resume(w), w.dials, crash)
    decreases w.polls, 3
  {
    hide Explained, Serve;
    ExplainedEnd(Emit(Closed(Stopped)), w.dials, crash);
    var (stopped, w1) := Poll(w);
    if !stopped {
      ServeExplained(w1, RECONNECT_FLOOR_MS, crash);
    }
  }

  // ---------------------------------------------------------------------------------------
  // How a run ends
  // ---------------------------------------------------------------------------------------

  predicate NeverReady(w: World)
  {
    !w.first.DialOk? || BindStartupCase(w).1.BindingFails?
  }

  /** Before a case is bound the run ends with `auth_expired` exactly where the first dial or the binding failed
      as an auth failure, and with `failed` on every other failure. */
  lemma EndsBeforeReady(w: World)
    requires NeverReady(w)
    ensures var auth := w.first.DialAuth? || (w.first.DialOk? && BindStartupCase(w).1.failure.AuthFailure?);
            Run(w)[|Run(w)| - 1] == Emit(if auth then AuthExpired else Failed)
    ensures w.first.DialOk? ==>
              Run(w) == [Dial, Emit(Connected)] + BindStartupCase(w).0 + [Run(w)[|Run(w)| - 1]]
    ensures !w.first.DialOk? ==> |Run(w)| == 2
  {
    hide BindStartupCase, Resume;
  }

  /** Otherwise everything after `case_ready` has its cause in the redials and in the events. */
  lemma ReadyRunIsExplained(w: World)
    requires !NeverReady(w)
    ensures var (acts, b, w1) := BindStartupCase(w);
            Run(w) == [Dial, Emit(Connected)] + acts + [Emit(CaseReady)] + Resume(w1)
            && Explained(Resume(w1), w.dials, Broke in w.events)
  {
    var (acts, b, w1) := BindStartupCase(w);
    ResumeExplained(w1, Broke in w.events);
    hide BindStartupCase, Resume, Explained;
    var ready := Resume(w1);
    assert [Dial] + ([Emit(Connected)] + acts + ([Emit(CaseReady)] + ready))
        == [Dial, Emit(Connected)] + acts + [Emit(CaseReady)] + ready;
  }

  function Dials(acts: seq<Act>): nat
  {
    if acts == [] then 0 else (if acts[0].Dial? then 1 else 0) + Dials(acts[1..])
  }

  /** How the last of `n` redials ended. */
  predicate LastDial(dials: seq<DialOutcome>, n: nat, outcome: DialOutcome)
  {
    n > 0 && (if n <= |dials| then dials[n - 1] else DialFailed) == outcome
  }

  /** The reason for the end is that the token was rejected exactly where the last redial was, and a crash where
      the last redial crashed or, with events that may, an event did. */
  ghost predicate Reasoned(r: Reason, dials: seq<DialOutcome>, n: nat, crash: bool)
  {
    && (r.AuthRejected? <==> LastDial(dials, n, DialAuth))
    && (LastDial(dials, n, DialBroke) ==> r.Crashed?)
    && (r.Crashed? ==> LastDial(dials, n, DialBroke) || crash)
  }

  predicate EndsClosed(acts: seq<Act>)
  {
    acts != [] && acts[|acts| - 1].Emit? && acts[|acts| - 1].signal.Closed?
  }

  lemma {:induction false} ExplainedReason(acts: seq<Act>, dials: seq<DialOutcome>, crash: bool)
    requires Explained(acts, dials, crash) && EndsClosed(acts)
    ensures Reasoned(acts[|acts| - 1].signal.reason, dials, Dials(acts), crash)
    decreases |acts|
  {
    if !acts[0].Dial? {
      if |acts| > 1 {
        ExplainedReason(acts[1..], dials, crash);
      }
    } else {
      assert acts[1..][1..] == acts[2..];
      if First(dials).DialOk? || First(dials).DialFailed? {
        ExplainedReason(acts[2..], Rest(dials), crash);
      } else {
        assert |acts| == 3 ==> acts[2..] == [acts[2]] && acts[2..][1..] == [];
        assert |acts| == 2 ==> acts[2..] == [];
        assert acts[1] == acts[1..][0] && (|acts| == 3 ==> acts[2] == acts[1..][1]);
        assert Dials(acts[2..]) == 0;
        assert Dials(acts[1..]) == 0;
      }
    }
  }

  predicate Ready(q: SignalTrace.State)
  {
    !q.New? && !q.Dialing? && !q.Binding?
  }

  lemma {:induction false} StaysReady(q: SignalTrace.State, word: seq<SignalTrace.Letter>)
    requires Ready(q)
    ensures Ready(SignalTrace.Reach(q, word))
    decreases word
  {
    if word != [] {
      StaysReady(SignalTrace.Go(q, word[0]), word[1..]);
    }
  }

  lemma ResumeEndsClosed(w: World)
    ensures EndsClosed(Resume(w))
  {
    hide Resume;
    var acts := Resume(w);
    SignalTrace.ResumeAccepted(w);
    var word := SignalTrace.Shape(acts);
    var n := |word| - 1;
    SignalTrace.SplitWord(SignalTrace.State.Serving, word, n);
    StaysReady(SignalTrace.State.Serving, word[..n]);
    assert word[n + 1..] == [];
  }

  /** A run that got a case ready ends with `closed`, for the reason that its redials and events give. */
  lemma ReadyRunEnds(w: World)
    requires !NeverReady(w)
    ensures EndsClosed(Run(w))
    ensures var ready := Resume(BindStartupCase(w).2);
            Reasoned(Run(w)[|Run(w)| - 1].signal.reason, w.dials, Dials(ready), Broke in w.events)
  {
    var w1 := BindStartupCase(w).2;
    ReadyRunIsExplained(w);
    hide Resume, BindStartupCase, Run, Explained;
    ResumeEndsClosed(w1);
    ExplainedReason(Resume(w1), w.dials, Broke in w.events);
    assert Run(w)[|Run(w)| - 1] == Resume(w1)[|Resume(w1)| - 1];
  }

  // ---------------------------------------------------------------------------------------
  // The stop
  // ---------------------------------------------------------------------------------------

  /** The one trace is the other, or a beginning of it that ends for the stop. */
  predicate CutShort(short: seq<Act>, long: seq<Act>)
  {
    short == long
    || (short != [] && short[|short| - 1] == Emit(Closed(Stopped)) && short[..|short| - 1] <= long)
  }

  lemma CutShortPush(a: Act, short: seq<Act>, long: seq<Act>)
    requires CutShort(short, long)
    ensures CutShort([a] + short, [a] + long)
  {
    if short != long {
      assert ([a] + short)[..|short|] == [a] + short[..|short| - 1];
    }
  }

  function Longer(w: World, more: nat): World
  {
    w.(polls := w.polls + more)
  }

  lemma {:induction false} SleepIs(w: World, slices: nat)
    ensures Sleep(w, slices)
         == if slices < w.polls then (false, w.(polls := w.polls - slices - 1)) else (true, w.(polls := 0))
    decreases slices
  {
    if slices > 0 && w.polls > 0 {
      SleepIs(w.(polls := w.polls - 1), slices - 1);
    }
  }

  lemma {:induction false} ServeCut(w: World, more: nat, backoff: nat)
    ensures CutShort(Serve(w, backoff), Serve(Longer(w, more), backoff))
    decreases w.polls, 2
  {
    hide Redial, CutShort;
    StoppedAtOnce(Serve(Longer(w, more), backoff));
    SameIsCutShort(Serve(w, backoff));
    if w.polls > 0 {
      var (ev, w2) := NextEvent(Poll(w).1);
      if ev.Lost? {
        if w2.polls > 0 {
          RedialCut(Poll(w2).1, more, backoff);
        }
        LossCut(w, more, backoff);
      } else if !ev.Broke? {
        ServeCut(w2, more, backoff);
        CutShortPush(Emit(AgentEvent), Serve(w2, backoff), Serve(Longer(w2, more), backoff));
      }
    }
  }

  /** The world behind a loss that the worker goes on after. */
  function Outlived(w: World): World
    requires w.polls > 1 && w.events != []
  {
    w.(polls := w.polls - 2, events := w.events[1..])
  }

  lemma LossCut(w: World, more: nat, backoff: nat)
    requires w.polls > 0 && w.events != [] && w.events[0].Lost?
    requires w.polls > 1 ==>
               CutShort(Redial(Outlived(w), backoff), Redial(Longer(Outlived(w), more), backoff))
    ensures CutShort(Serve(w, backoff), Serve(Longer(w, more), backoff))
  {
    hide Redial, CutShort;
    if w.polls > 1 {
      var w3 := Outlived(w);
      CutShortPush(Emit(Reconnecting), Redial(w3, backoff), Redial(Longer(w3, more), backoff));
    } else {
      StoppedAtOnce(Serve(Longer(w, more), backoff));
    }
  }

  lemma {:induction false} RedialCut(w: World, more: nat, backoff: nat)
    ensures CutShort(Redial(w, backoff), Redial(Longer(w, more), backoff))
    decreases w.polls, 1
  {
    hide Rung;
    if w.polls > 0 {
      RungCut(Poll(w).1, more, backoff);
    }
  }

  lemma {:induction false} RungCut(w: World, more: nat, backoff: nat)
    ensures CutShort(Rung(w, backoff), Rung(Longer(w, more), backoff))
    decreases w.polls, 5
  {
    hide AfterDial, NextBackoff, Sleep, CutShort;
    var (jitter, w2) := NextJitter(w);
    var (delay, backoff') := NextBackoff(backoff, jitter);
    var (slices, w3) := NextNap(w2);
    SleepIs(w3, slices);
    SleepIs(Longer(w3, more), slices);
    var short := Rung(w, backoff)[1..];
    var long := Rung(Longer(w, more), backoff)[1..];
    if slices < w3.polls {
      var (dial, w5) := NextDial(Sleep(w3, slices).1);
      AfterDialCut(w5, more, dial, backoff');
      CutShortPush(Dial, AfterDial(w5, dial, backoff'), AfterDial(Longer(w5, more), dial, backoff'));
    } else {
      StoppedAtOnce(long);
    }
    CutShortPush(Wait(backoff, delay), short, long);
  }

  lemma SameIsCutShort(acts: seq<Act>)
    ensures CutShort(acts, acts)
  {
  }

  lemma StoppedAtOnce(long: seq<Act>)
    ensures CutShort([Emit(Closed(Stopped))], long)
  {
  }

  lemma {:induction false} AfterDialCut(w: World, more: nat, dial: DialOutcome, backoff: nat)
    ensures CutShort(AfterDial(w, dial, backoff), AfterDial(Longer(w, more), dial, backoff))
    decreases w.polls, 4
  {
    hide Redial, Resume;
    match dial
    case DialOk =>
      ResumeCut(w, more);
      CutShortPush(Emit(Resumed), Resume(w), Resume(Longer(w, more)));
    case DialFailed =>
      RedialCut(w, more, backoff);
      CutShortPush(Emit(Reconnecting), Redial(w, backoff), Redial(Longer(w, more), backoff));
    case _ =>
  }

  /** Once a case is ready the stop only cuts the run short: had it come later, the trace would be the same, or
      this one without its ending and then more. So a run that ends otherwise ends as it would without a stop. */
  lemma {:induction false} ResumeCut(w: World, more: nat)
    ensures CutShort(Resume(w), Resume(Longer(w, more)))
    decreases w.polls, 3
  {
    hide Serve;
    if w.polls > 0 {
      ServeCut(Poll(w).1, more, RECONNECT_FLOOR_MS);
    }
  }

  // ---------------------------------------------------------------------------------------
  // An outage
  // ---------------------------------------------------------------------------------------

  function JitterAt(w: World, i: nat): Jitter
  {
    if i < |w.jitters| then w.jitters[i] else 0.0
  }

  function NapAt(w: World, i: nat): nat
  {
    if i < |w.naps| then w.naps[i] else 1
  }

  function From<T>(s: seq<T>, n: nat): seq<T>
  {
    if n <= |s| then s[n..] else []
  }

  /** How often the flag is read on `n` rungs: before each wait, with each slice of it, and behind it. */
  function Reads(w: World, n: nat): nat
  {
    if n == 0 then 0 else Reads(w, n - 1) + NapAt(w, n - 1) + 2
  }

  /** The world behind `n` rungs. */
  function Climbed(w: World, n: nat): World
    requires Reads(w, n) <= w.polls
  {
    w.(polls := w.polls - Reads(w, n),
       dials := From(w.dials, n), jitters := From(w.jitters, n), naps := From(w.naps, n))
  }

  /** The wait and the dial of the `i`-th rung of an outage. */
  function RungActs(w: World, i: nat): seq<Act>
  {
    [Wait(RungBase(i), NextBackoff(RungBase(i), JitterAt(w, i)).0), Dial]
  }

  /** `n` rungs whose dials fail. */
  function Failures(w: World, n: nat): seq<Act>
  {
    if n == 0 then [] else Failures(w, n - 1) + RungActs(w, n - 1) + [Emit(Reconnecting)]
  }

  lemma {:induction false} SleepsThrough(w: World, slices: nat)
    requires slices + 1 <= w.polls
    ensures Sleep(w, slices) == (false, w.(polls := w.polls - slices - 1))
    decreases slices
  {
    if slices > 0 {
      SleepsThrough(w.(polls := w.polls - 1), slices - 1);
    }
  }

  /** One rung of a redial that is not stopped. */
  lemma OneRung(w: World, i: nat, n: nat)
    requires Reads(w, n + 1) <= w.polls
    ensures var w1 := Climbed(w, n);
            Redial(w1, RungBase(i)) ==
            [Wait(RungBase(i), NextBackoff(RungBase(i), JitterAt(w, n)).0)]
            + ([Dial] + AfterDial(Climbed(w, n + 1), First(From(w.dials, n)), RungBase(i + 1)))
  {
    hide AfterDial, NextBackoff;
    var w1 := Climbed(w, n);
    var w2 := w1.(polls := w1.polls - 1, jitters := From(w.jitters, n + 1));
    assert NextJitter(w1.(polls := w1.polls - 1)) == (JitterAt(w, n), w2);
    var w3 := w2.(naps := From(w.naps, n + 1));
    assert NextNap(w2) == (NapAt(w, n), w3);
    SleepsThrough(w3, NapAt(w, n));
    RungsNeverShrink(i, JitterAt(w, n));
    assert NextDial(Sleep(w3, NapAt(w, n)).1) == (First(From(w.dials, n)), Climbed(w, n + 1));
  }

  /** An outage that the stop leaves alone: each failed dial announces another try, at waits that climb and
      follow the jitter; the first dial that does not fail ends it as its outcome says. */
  lemma {:induction false} OutageIs(w: World, n: nat)
    requires Reads(w, n + 1) <= w.polls && n < |w.dials| && !w.dials[n].DialFailed?
    requires forall i :: 0 <= i < n ==> w.dials[i].DialFailed?
    ensures var w1 := Climbed(w, n + 1);
            Redial(w, RECONNECT_FLOOR_MS) ==
            Failures(w, n) + RungActs(w, n)
            + (match w.dials[n]
               case DialOk => [Emit(Resumed)] + Resume(w1)
               case DialAuth => [Emit(AuthExpired), Emit(Closed(AuthRejected))]
               case _ => [Emit(Closed(Crashed))])
  {
    hide Redial, Resume, Climbed, RungBase, NextBackoff;
    FailuresSoFar(w, n);
    OneRung(w, n, n);
    assert First(From(w.dials, n)) == w.dials[n];
  }

  lemma OneFailure(w: World, i: nat)
    requires Reads(w, i + 1) <= w.polls && i < |w.dials| && w.dials[i].DialFailed?
    ensures Reads(w, i) <= w.polls
    ensures Redial(Climbed(w, i), RungBase(i))
         == RungActs(w, i) + ([Emit(Reconnecting)] + Redial(Climbed(w, i + 1), RungBase(i + 1)))
  {
    hide Redial, Climbed, RungBase, NextBackoff;
    OneRung(w, i, i);
    assert First(From(w.dials, i)) == DialFailed;
  }

  lemma {:induction false} FailuresSoFar(w: World, n: nat)
    requires Reads(w, n) <= w.polls && n <= |w.dials|
    requires forall i :: 0 <= i < n ==> w.dials[i].DialFailed?
    ensures Redial(w, RECONNECT_FLOOR_MS) == Failures(w, n) + Redial(Climbed(w, n), RungBase(n))
  {
    if n == 0 {
      assert Climbed(w, 0) == w;
      assert Failures(w, 0) + Redial(w, RECONNECT_FLOOR_MS) == Redial(w, RECONNECT_FLOOR_MS);
    } else {
      hide Redial, Climbed, RungActs;
      OneFailure(w, n - 1);
      FailuresSoFar(w, n - 1);
      var again := [Emit(Reconnecting)];
      Regroup(Failures(w, n - 1), RungActs(w, n - 1), again + Redial(Climbed(w, n), RungBase(n)));
      Regroup(Failures(w, n - 1) + RungActs(w, n - 1), again, Redial(Climbed(w, n), RungBase(n)));
    }
  }
}
