/** The reconnect ladder over whole runs: bounds for every rung and every outage. */
module Ladder {
  import opened WorkerSpec

  /** The base of the k-th wait of an outage. */
  function RungBase(k: nat): (b: nat)
    ensures RECONNECT_FLOOR_MS <= b <= RECONNECT_MAX_MS && b % 2 == 0
  {
    if k == 0 then RECONNECT_FLOOR_MS else if k == 1 then 2 * RECONNECT_FLOOR_MS else RECONNECT_MAX_MS
  }

  lemma RungsNeverShrink(k: nat, jitter: Jitter)
    ensures RungBase(k) <= RungBase(k + 1)
    ensures NextBackoff(RungBase(k), jitter).1 == RungBase(k + 1)
  {
  }

  /** From its k-th rung on, a trace climbs the ladder; `resumed` takes it back to the floor. */
  ghost predicate Climbs(acts: seq<Act>, k: nat)
    decreases acts
  {
    acts == []
    || match acts[0]
       case Wait(base, delay) => base == RungBase(k) && base / 2 <= delay <= base && Climbs(acts[1..], k + 1)
       case Emit(s) => Climbs(acts[1..], if s.Resumed? then 0 else k)
       case Dial => Climbs(acts[1..], k)
  }

  lemma ClimbsPush(a: Act, acts: seq<Act>, k: nat)
    ensures a.Wait? ==> (Climbs([a] + acts, k)
                         <==> a.base == RungBase(k) && a.base / 2 <= a.delay <= a.base && Climbs(acts, k + 1))
    ensures a.Emit? ==> (Climbs([a] + acts, k) <==> Climbs(acts, if a.signal.Resumed? then 0 else k))
    ensures a.Dial? ==> (Climbs([a] + acts, k) <==> Climbs(acts, k))
  {
    assert ([a] + acts)[1..] == acts;
  }

  lemma ClimbsOne(a: Act, k: nat)
    requires a.Emit?
    ensures Climbs([a], k)
  {
    ClimbsPush(a, [], k);
    assert [a] + [] == [a];
  }

  lemma {:induction false} ServeClimbs(w: World)
    ensures Climbs(Serve(w, RECONNECT_FLOOR_MS), 0)
    decreases w.polls, 2
  {
    hide Redial;
    var (stopped, w1) := Poll(w);
    ClimbsOne(Emit(Closed(Stopped)), 0);
    ClimbsOne(Emit(Closed(Crashed)), 0);
    if !stopped {
      var (ev, w2) := NextEvent(w1);
      match ev
      case NoEvent => ServeClimbs(w2);
      case Event =>
        ServeClimbs(w2);
        ClimbsPush(Emit(AgentEvent), Serve(w2, RECONNECT_FLOOR_MS), 0);
      case ListEvent =>
        ServeClimbs(w2);
        ClimbsPush(Emit(AgentEvent), Serve(w2, RECONNECT_FLOOR_MS), 0);
      case Lost =>
        var (stopped', w3) := Poll(w2);
        if !stopped' {
          RedialClimbs(w3, 0);
          ClimbsPush(Emit(Reconnecting), Redial(w3, RECONNECT_FLOOR_MS), 0);
        }
      case Broke =>
    }
  }

  lemma {:induction false} RedialClimbs(w: World, k: nat)
    ensures Climbs(Redial(w, RungBase(k)), k)
    decreases w.polls, 1
  {
    hide Rung;
    var (stopped, w1) := Poll(w);
    ClimbsOne(Emit(Closed(Stopped)), k);
    if !stopped {
      RungClimbs(w1, k);
    }
  }

  lemma {:induction false} RungClimbs(w: World, k: nat)
    ensures Climbs(Rung(w, RungBase(k)), k)
    decreases w.polls, 5
  {
    hide AfterDial, NextBackoff;
    var base := RungBase(k);
    var (jitter, w2) := NextJitter(w);
    var (delay, backoff') := NextBackoff(base, jitter);
    var (slices, w3) := NextNap(w2);
    var (interrupted, w4) := Sleep(w3, slices);
    DelayWithinBase(base, jitter);
    RungsNeverShrink(k, jitter);
    if interrupted {
      ClimbsOne(Emit(Closed(Stopped)), k + 1);
      ClimbsPush(Wait(base, delay), [Emit(Closed(Stopped))], k);
    } else {
      var (dial, w5) := NextDial(w4);
      AfterDialClimbs(w5, dial, k + 1);
      ClimbsPush(Dial, AfterDial(w5, dial, backoff'), k + 1);
      ClimbsPush(Wait(base, delay), [Dial] + AfterDial(w5, dial, backoff'), k);
    }
  }

  lemma {:induction false} AfterDialClimbs(w: World, dial: DialOutcome, k: nat)
    ensures Climbs(AfterDial(w, dial, RungBase(k)), k)
    decreases w.polls, 4
  {
    hide Redial, Resume;
    ClimbsOne(Emit(Closed(Crashed)), k);
    match dial
    case DialOk =>
      ResumeClimbs(w);
      ClimbsPush(Emit(Resumed), Resume(w), k);
    case DialAuth =>
      ClimbsOne(Emit(Closed(AuthRejected)), k);
      ClimbsPush(Emit(AuthExpired), [Emit(Closed(AuthRejected))], k);
      assert [Emit(AuthExpired)] + [Emit(Closed(AuthRejected))] == AfterDial(w, dial, RungBase(k));
    case DialFailed =>
      RedialClimbs(w, k);
      ClimbsPush(Emit(Reconnecting), Redial(w, RungBase(k)), k);
    case DialBroke =>
  }

  lemma {:induction false} ResumeClimbs(w: World)
    ensures Climbs(Resume(w), 0)
    decreases w.polls, 3
  {
    hide Serve;
    var (stopped, w1) := Poll(w);
    ClimbsOne(Emit(Closed(Stopped)), 0);
    if !stopped {
      ServeClimbs(w1);
    }
  }

  lemma {:induction false} EmitsOnly(acts: seq<Act>, rest: seq<Act>)
    requires forall i :: 0 <= i < |acts| ==> acts[i].Emit?
    requires Climbs(rest, 0)
    ensures Climbs(acts + rest, 0)
    decreases acts
  {
    if acts == [] {
      assert acts + rest == rest;
    } else {
      EmitsOnly(acts[1..], rest);
      assert acts + rest == [acts[0]] + (acts[1..] + rest);
      ClimbsPush(acts[0], acts[1..] + rest, 0);
    }
  }

  lemma {:induction false} PumpEmits(w: World)
    ensures forall i :: 0 <= i < |Pump(w).0| ==> Pump(w).0[i].Emit?
    decreases |w.startup|
  {
    var (stopped, w1) := Poll(w);
    if !stopped && w.startup != [] {
      PumpEmits(w1.(startup := w1.startup[1..]));
    }
  }

  /** Every run climbs the ladder in each of its outages and starts over after each success. */
  lemma EveryRunClimbs(w: World)
    ensures Climbs(Run(w), 0)
  {
    hide Resume, Climbs, Pump;
    var (acts, b, w1) := BindStartupCase(w);
    PumpEmits(w);
    ResumeClimbs(w1);
    ClimbsOne(Emit(Failed), 0);
    ClimbsOne(Emit(AuthExpired), 0);
    ClimbsPush(Emit(CaseReady), Resume(w1), 0);
    var tail := if b.BindingFails? then [Emit(Ending(b.failure))] else [Emit(CaseReady)] + Resume(w1);
    EmitsOnly(acts, tail);
    ClimbsPush(Emit(Connected), acts + tail, 0);
    var rest := Run(w)[1..];
    if w.first.DialOk? {
      assert rest == [Emit(Connected)] + (acts + tail);
    }
    ClimbsPush(Dial, rest, 0);
    assert Run(w) == [Dial] + rest;
  }

  // ---------------------------------------------------------------------------------------
  // One outage
  // ---------------------------------------------------------------------------------------

  function Delays(acts: seq<Act>): seq<int>
  {
    if acts == [] then []
    else if acts[0].Wait? then [acts[0].delay] + Delays(acts[1..])
    else Delays(acts[1..])
  }

  function Total(delays: seq<int>): int
  {
    if delays == [] then 0 else delays[0] + Total(delays[1..])
  }

  function LeastTotal(k: nat, n: nat): nat
    decreases n
  {
    if n == 0 then 0 else RungBase(k) / 2 + LeastTotal(k + 1, n - 1)
  }

  function MostTotal(k: nat, n: nat): nat
    decreases n
  {
    if n == 0 then 0 else RungBase(k) + MostTotal(k + 1, n - 1)
  }

  lemma {:induction false} TotalBetween(acts: seq<Act>, k: nat)
    requires Climbs(acts, k) && Emit(Resumed) !in acts
    ensures LeastTotal(k, |Delays(acts)|) <= Total(Delays(acts)) <= MostTotal(k, |Delays(acts)|)
    decreases acts
  {
    if acts != [] {
      TotalBetween(acts[1..], if acts[0].Wait? then k + 1 else k);
      if acts[0].Wait? {
        assert Delays(acts)[1..] == Delays(acts[1..]);
      }
    }
  }

  lemma {:induction false} CapTotals(k: nat, n: nat)
    requires k >= 2
    ensures LeastTotal(k, n) == 2500 * n && MostTotal(k, n) == 5000 * n
    decreases n
  {
    if n > 0 {
      CapTotals(k + 1, n - 1);
    }
  }

  /** A stretch of a run that stays within one outage: with N redials waited for, N at least two, the
      waits add up to between 2500 N - 2750 and 5000 N - 5500 milliseconds. */
  lemma OutageTotal(acts: seq<Act>)
    requires Climbs(acts, 0) && Emit(Resumed) !in acts
    ensures var n := |Delays(acts)|;
            n >= 2 ==> 2500 * n - 2750 <= Total(Delays(acts)) <= 5000 * n - 5500
  {
    var n := |Delays(acts)|;
    TotalBetween(acts, 0);
    if n >= 2 {
      CapTotals(2, n - 2);
      assert LeastTotal(0, n) == 750 + LeastTotal(1, n - 1) == 750 + (1500 + LeastTotal(2, n - 2));
      assert MostTotal(0, n) == 1500 + MostTotal(1, n - 1) == 1500 + (3000 + MostTotal(2, n - 2));
    }
  }

  /** Any stretch of a run that begins where an outage begins climbs from the floor. */
  lemma {:induction false} OutageClimbs(acts: seq<Act>, k: nat, i: nat)
    requires Climbs(acts, k) && i < |acts| && acts[i] == Emit(Resumed)
    ensures Climbs(acts[i + 1..], 0)
    decreases acts
  {
    if i > 0 {
      assert acts[1..][i - 1] == acts[i] && acts[1..][i..] == acts[i + 1..];
      OutageClimbs(acts[1..], if acts[0].Wait? then k + 1 else if acts[0] == Emit(Resumed) then 0 else k, i - 1);
    }
  }

  lemma {:induction false} ClimbsPrefix(acts: seq<Act>, k: nat, n: nat)
    requires Climbs(acts, k) && n <= |acts|
    ensures Climbs(acts[..n], k)
    decreases acts
  {
    if n > 0 {
      var k1 := if acts[0].Wait? then k + 1 else if acts[0] == Emit(Resumed) then 0 else k;
      assert acts[..n][1..] == acts[1..][..n - 1];
      ClimbsPrefix(acts[1..], k1, n - 1);
    }
  }

  /** The waits of an outage, in any run: the stretch from the start of the run or a `resumed` up to
      any point before the next `resumed`. */
  lemma RunOutageTotal(w: World, i: nat, j: nat)
    requires i <= j <= |Run(w)| && Emit(Resumed) !in Run(w)[i..j]
    requires i > 0 ==> Run(w)[i - 1] == Emit(Resumed)
    ensures var delays := Delays(Run(w)[i..j]);
            |delays| >= 2 ==> 2500 * |delays| - 2750 <= Total(delays) <= 5000 * |delays| - 5500
  {
    var acts := Run(w);
    EveryRunClimbs(w);
    if i > 0 {
      OutageClimbs(acts, 0, i - 1);
    } else {
      assert acts[0..] == acts;
    }
    assert acts[i..][..j - i] == acts[i..j];
    ClimbsPrefix(acts[i..], 0, j - i);
    OutageTotal(acts[i..j]);
  }
}
