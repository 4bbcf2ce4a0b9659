/** `AgentWorker` (plugin/net/ws_bridge.py) with its flag and its loops. */
module Worker {
  import opened Wrappers
  import opened WorkerSpec
  import SignalTrace
  import Ladder

  /** How the receive loop and the redial loop are left. */
  datatype Exit = StopRequested | ConnectionLost | Reconnected | Rejected | Crash

  class AgentWorker {
    var stop: bool
    var backoffMs: nat
    var reason: Reason
    var world: World
    var acts: seq<Act>

    constructor (world: World)
      ensures !stop && acts == [] && this.world == world
    {
      stop := false;
      backoffMs := RECONNECT_FLOOR_MS;
      reason := Stopped;
      this.world := world;
      acts := [];
    }

    method Do(a: Act)
      modifies this`acts
      ensures acts == old(acts) + [a]
    {
      acts := acts + [a];
    }

    /** A read of the flag, which another thread may have raised by then. */
    method ReadStop() returns (stopped: bool)
      requires !stop
      modifies this`stop, this`world
      ensures stop == stopped && (stopped, world) == Poll(old(world))
    {
      if world.polls == 0 {
        stop := true;
      } else {
        world := world.(polls := world.polls - 1);
      }
      stopped := stop;
    }

    /** `_sleep_interruptible`: false if it was stopped. */
    method SleepInterruptible(slices: nat) returns (rested: bool)
      requires !stop
      modifies this`stop, this`world
      ensures stop == !rested && (!rested, world) == Sleep(old(world), slices)
    {
      var i := slices;
      while i > 0
        invariant !stop && 0 <= i <= slices
        invariant Sleep(world, i) == Sleep(old(world), slices)
      {
        var stopped := ReadStop();
        if stopped {
          return false;
        }
        i := i - 1;
      }
      var stopped := ReadStop();
      rested := !stopped;
    }

    /** What a run that stands here still does. */
    ghost function Rest(exit: Exit): seq<Act>
      reads this
    {
      match exit
      case StopRequested => [Emit(Closed(Stopped))]
      case ConnectionLost => Redial(world, backoffMs)
      case Reconnected => Resume(world)
      case Rejected => [Emit(Closed(AuthRejected))]
      case Crash => [Emit(Closed(Crashed))]
    }

    /** The receive loop. */
    method ServeLoop() returns (exit: Exit)
      requires !stop
      modifies this`stop, this`world, this`acts
      ensures exit.StopRequested? || exit.ConnectionLost? || exit.Crash?
      ensures stop == exit.StopRequested?
      ensures exit.ConnectionLost? ==> world.polls < old(world).polls
      ensures acts + Rest(exit) == old(acts) + Serve(old(world), backoffMs)
    {
      hide Redial, Resume;
      while true
        invariant !stop && world.polls <= old(world).polls
        invariant acts + Serve(world, backoffMs) == old(acts) + Serve(old(world), backoffMs)
        decreases world.polls
      {
        ghost var before, w0 := acts, world;
        var stopped := ReadStop();
        if stopped {
          return StopRequested;
        }
        var ev;
        ev, world := NextEvent(world).0, NextEvent(world).1;
        match ev {
          case NoEvent =>
          case Event =>
            Do(Emit(AgentEvent));
            assert before + ([Emit(AgentEvent)] + Serve(world, backoffMs)) == acts + Serve(world, backoffMs);
          case ListEvent =>
            Do(Emit(AgentEvent));
            assert before + ([Emit(AgentEvent)] + Serve(world, backoffMs)) == acts + Serve(world, backoffMs);
          case Lost =>
            stopped := ReadStop();
            if stopped {
              return StopRequested;
            }
            Do(Emit(Reconnecting));
            assert before + ([Emit(Reconnecting)] + Redial(world, backoffMs)) == acts + Redial(world, backoffMs);
            return ConnectionLost;
          case Broke =>
            return Crash;
        }
      }
    }

    /** One rung: wait, and dial unless the sleep was cut short. */
    method ClimbRung() returns (dial: Option<DialOutcome>)
      requires !stop
      modifies this`stop, this`world, this`acts, this`backoffMs
      ensures stop == dial.None? && world.polls <= old(world).polls
      ensures dial.None? ==> acts + [Emit(Closed(Stopped))] == old(acts) + WorkerSpec.Rung(old(world), old(backoffMs))
      ensures dial.Some? ==>
                acts + AfterDial(world, dial.value, backoffMs)
                == old(acts) + WorkerSpec.Rung(old(world), old(backoffMs))
    {
      ghost var before := acts;
      var backoff := backoffMs;
      var jitter, delay, slices;
      jitter, world := NextJitter(world).0, NextJitter(world).1;
      delay, backoffMs := NextBackoff(backoffMs, jitter).0, NextBackoff(backoffMs, jitter).1;
      slices, world := NextNap(world).0, NextNap(world).1;
      Do(Wait(backoff, delay));
      var rested := SleepInterruptible(slices);
      if !rested {
        assert before + ([Wait(backoff, delay)] + [Emit(Closed(Stopped))]) == acts + [Emit(Closed(Stopped))];
        return None;
      }
      Do(Dial);
      var outcome;
      outcome, world := NextDial(world).0, NextDial(world).1;
      ghost var rest := AfterDial(world, outcome, backoffMs);
      assert before + ([Wait(backoff, delay)] + ([Dial] + rest)) == acts + rest;
      dial := Some(outcome);
    }

    /** The redial loop. */
    method RedialLoop() returns (exit: Exit)
      requires !stop
      modifies this`stop, this`world, this`acts, this`backoffMs
      ensures exit.StopRequested? || exit.Reconnected? || exit.Rejected? || exit.Crash?
      ensures stop == (exit.StopRequested? || exit.Rejected?)
      ensures world.polls <= old(world).polls
      ensures exit.Reconnected? ==> backoffMs == RECONNECT_FLOOR_MS
      ensures acts + Rest(exit) == old(acts) + Redial(old(world), old(backoffMs))
    {
      hide WorkerSpec.Rung, Resume;
      while true
        invariant !stop && world.polls <= old(world).polls
        invariant acts + Redial(world, backoffMs) == old(acts) + Redial(old(world), old(backoffMs))
        decreases world.polls
      {
        var stopped := ReadStop();
        if stopped {
          return StopRequested;
        }
        var dial := ClimbRung();
        if dial.None? {
          return StopRequested;
        }
        ghost var before := acts;
        match dial.value {
          case DialOk =>
            backoffMs := RECONNECT_FLOOR_MS;
            Do(Emit(Resumed));
            assert before + ([Emit(Resumed)] + Resume(world)) == acts + Resume(world);
            return Reconnected;
          case DialAuth =>
            Do(Emit(AuthExpired));
            stop := true;
            assert before + [Emit(AuthExpired), Emit(Closed(AuthRejected))] == acts + [Emit(Closed(AuthRejected))];
            return Rejected;
          case DialFailed =>
            Do(Emit(Reconnecting));
            assert before + ([Emit(Reconnecting)] + Redial(world, backoffMs)) == acts + Redial(world, backoffMs);
          case DialBroke =>
            return Crash;
        }
      }
    }

    /** The second half of `run`. */
    method MainLoop()
      requires stop ==> world.polls == 0
      modifies this
      ensures acts == old(acts) + Resume(old(world))
    {
      backoffMs := RECONNECT_FLOOR_MS;
      reason := Stopped;
      var going := true;
      while going && !stop
        invariant !going || stop ==> acts + [Emit(Closed(reason))] == old(acts) + Resume(old(world))
        invariant going && !stop ==> acts + Resume(world) == old(acts) + Resume(old(world))
        invariant going && !stop ==> backoffMs == RECONNECT_FLOOR_MS && reason == Stopped
        decreases going, !stop, world.polls
      {
        var stopped := ReadStop();
        if !stopped {
          var exit := ServeLoop();
          if exit.ConnectionLost? {
            exit := RedialLoop();
          }
          match exit {
            case StopRequested => going := false;
            case ConnectionLost =>
            case Reconnected =>
            case Rejected => reason := AuthRejected;
            case Crash => going, reason := false, Crashed;
          }
        }
      }
      Do(Emit(Closed(reason)));
    }

    /** `run`: its trace is a word of the language of module SignalTrace, and its waits climb the ladder. */
    method Run()
      requires !stop
      modifies this
      ensures acts == old(acts) + WorkerSpec.Run(old(world))
      ensures SignalTrace.Accepted(SignalTrace.State.New, acts[|old(acts)|..]) && Ladder.Climbs(acts[|old(acts)|..], 0)
    {
      hide WorkerSpec.Run, SignalTrace.Accepted, Ladder.Climbs;
      SignalTrace.EveryRunIsAWord(world);
      Ladder.EveryRunClimbs(world);
      DialAndServe();
      assert acts[|old(acts)|..] == WorkerSpec.Run(old(world));
    }

    method DialAndServe()
      requires !stop
      modifies this
      ensures acts == old(acts) + WorkerSpec.Run(old(world))
    {
      hide Pump, Resume, Serve;
      ghost var before, w := acts, world;
      Do(Dial);
      match world.first {
        case DialAuth => Do(Emit(AuthExpired)); return;
        case DialFailed => Do(Emit(Failed)); return;
        case DialBroke => Do(Emit(Failed)); return;
        case DialOk =>
      }
      Do(Emit(Connected));
      var b := Bound;
      if world.needsList {
        b := PumpStartup();
      }
      if b.Bound? {
        b := world.binding;
      }
      ghost var bound := BindStartupCase(w);
      assert acts == before + [Dial] + [Emit(Connected)] + bound.0 && b == bound.1 && world == bound.2;
      if b.BindingFails? {
        Do(Emit(Ending(b.failure)));
        return;
      }
      Do(Emit(CaseReady));
      MainLoop();
    }

    /** The pump loop of `_bind_startup_case`. */
    method PumpStartup() returns (b: Binding)
      requires !stop
      modifies this`stop, this`world, this`acts
      ensures var (more, b', w') := Pump(old(world));
              acts == old(acts) + more && b == b' && world == w'
      ensures stop ==> world.polls == 0
    {
      while true
        invariant !stop
        invariant var (more, b', w') := Pump(old(world));
                  var (more1, b1, w1) := Pump(world);
                  acts + more1 == old(acts) + more && b1 == b' && w1 == w'
        decreases |world.startup|
      {
        ghost var before := acts;
        var pending := world.startup;
        var stopped := ReadStop();
        if stopped || pending == [] {
          return Bound;
        }
        world := world.(startup := pending[1..]);
        match pending[0] {
          case Quiet =>
          case Seen =>
            Do(Emit(AgentEvent));
            assert before + ([Emit(AgentEvent)] + Pump(world).0) == acts + Pump(world).0;
          case SeenList =>
            Do(Emit(AgentEvent));
            return Bound;
          case Raises(f) =>
            return BindingFails(f);
        }
      }
    }
  }
}
