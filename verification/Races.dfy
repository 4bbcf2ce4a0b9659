/** What check-then-act costs: frames stranded, early or overtaken, each with its exact condition. */
module Races {
  import opened Submissions
  import opened Interleaving

  // ---------------------------------------------------------------------------------------
  // Schedules
  // ---------------------------------------------------------------------------------------

  lemma Push(w: World, a: Action, rest: seq<Action>)
    requires Enabled(w, a) && Possible(Next(w, a), rest)
    ensures Possible(w, [a] + rest) && After(w, [a] + rest) == After(Next(w, a), rest)
  {
    hide Enabled, Next;
    assert ([a] + rest)[1..] == rest;
  }

  lemma {:induction false} ScheduleConcat(w: World, a: seq<Action>, b: seq<Action>)
    requires Possible(w, a) && Possible(After(w, a), b)
    ensures Possible(w, a + b) && After(w, a + b) == After(After(w, a), b)
    decreases a
  {
    hide Enabled, Next;
    if a == [] {
      assert a + b == b;
    } else {
      assert (a + b)[1..] == a[1..] + b;
      ScheduleConcat(Next(w, a[0]), a[1..], b);
    }
  }

  function DialsIn(schedule: seq<Action>): nat
  {
    if schedule == [] then 0 else (if schedule[0].DialNew? then 1 else 0) + DialsIn(schedule[1..])
  }

  /** Connections are numbered as they are dialed. */
  lemma {:induction false} EpochsCountDials(w: World, schedule: seq<Action>)
    requires Possible(w, schedule)
    ensures After(w, schedule).epoch == w.epoch + DialsIn(schedule)
    decreases schedule
  {
    if schedule != [] {
      EpochsCountDials(Next(w, schedule[0]), schedule[1..]);
    }
  }

  predicate Queueable(s: Sender)
  {
    s.WillQueue? || s.queueable
  }

  predicate Pending(w: World, n: nat)
  {
    n in InFlight(w) || n in w.queue
  }

  /** Bookkeeping that every schedule keeps. */
  ghost predicate Sane(w: World)
  {
    SaneThreads(w) && SaneFrames(w)
  }

  ghost predicate SaneThreads(w: World)
  {
    forall t :: t in w.senders ==>
      w.senders[t].id < w.born && (w.senders[t].WillSend? ==> w.senders[t].epoch <= w.epoch)
  }

  ghost predicate SaneFrames(w: World)
  {
    && (forall n: nat :: n < |w.accepted| ==> w.accepted[n] < w.born)
    && (forall n: nat :: Pending(w, n) ==> n < |w.accepted|)
    && (forall j :: 0 <= j < |w.wire| && w.wire[j].Flushed? ==> w.wire[j].n < |w.accepted|)
    && (Holding(w) ==> w.worker.at <= |w.worker.pending|)
  }

  /** What may be pending after a step. */
  lemma PendingAfter(w: World, a: Action, n: nat)
    requires Enabled(w, a) && Pending(Next(w, a), n)
    ensures Pending(w, n) || (a.Accept? && n == |w.accepted|)
  {
    if a.DirectOk? || a.Begin? || a.DirectFails? || a.LowerFlag? {
      assert InFlight(Next(w, a)) == InFlight(w);
    }
  }

  lemma StepKeepsFrames(w: World, a: Action)
    requires Sane(w) && Enabled(w, a)
    ensures SaneFrames(Next(w, a))
  {
    var w1 := Next(w, a);
    if a.FlushOk? {
      assert Pending(w, w.worker.pending[w.worker.at]);
    }
    forall n: nat | Pending(w1, n)
      ensures n < |w1.accepted|
    {
      PendingAfter(w, a, n);
    }
    assert forall n: nat :: n < |w1.accepted| ==> w1.accepted[n] < w1.born;
  }

  lemma StepKeepsSane(w: World, a: Action)
    requires Sane(w) && Enabled(w, a)
    ensures Sane(Next(w, a))
  {
    hide Pending, SaneFrames;
    StepKeepsFrames(w, a);
  }

  lemma {:induction false} EveryWorldIsSane(w: World, schedule: seq<Action>)
    requires Sane(w) && Possible(w, schedule)
    ensures Sane(After(w, schedule))
    decreases schedule
  {
    hide Next, Enabled, Sane;
    if schedule != [] {
      StepKeepsSane(w, schedule[0]);
      EveryWorldIsSane(Next(w, schedule[0]), schedule[1..]);
    }
  }

  // ---------------------------------------------------------------------------------------
  // Stranding
  // ---------------------------------------------------------------------------------------

  /** The worker sits in the receive loop of a healthy connection and a frame waits in the queue, which
      nobody looks at until the connection is lost. */
  predicate Stranded(w: World)
  {
    w.worker.Serving? && w.alive && w.queue != []
  }

  /** The thread checked the flag since the connection was dialed and has not failed to send on it. */
  predicate UpToDate(w: World, t: nat)
    requires t in w.senders
  {
    w.senders[t].WillSend? && w.senders[t].epoch == w.epoch
  }

  /** The flag is still up and no thread inside `_send` is left over from before: none that waits to
      queue, none whose send failed, none that may still fail on an older connection. */
  ghost predicate Quiet(w: World)
  {
    w.connected && forall t :: t in w.senders ==> UpToDate(w, t)
  }

  /** Every flush on a healthy connection starts quietly. */
  ghost predicate QuietTakes(w: World, schedule: seq<Action>)
    requires Possible(w, schedule)
    decreases schedule
  {
    schedule == []
    || ((schedule[0].TakeAll? && w.alive ==> Quiet(w)) && QuietTakes(Next(w, schedule[0]), schedule[1..]))
  }

  ghost predicate Fresh(w: World)
  {
    w.alive && (w.worker.Flushing? || w.worker.Serving?) ==> Quiet(w) && w.queue == []
  }

  lemma StepKeepsFresh(w: World, a: Action)
    requires Fresh(w) && Enabled(w, a) && (a.TakeAll? && w.alive ==> Quiet(w))
    ensures Fresh(Next(w, a))
  {
  }

  lemma {:induction false} NothingStrandsIfTakesAreQuiet(w: World, schedule: seq<Action>)
    requires Fresh(w) && Possible(w, schedule) && QuietTakes(w, schedule)
    ensures Fresh(After(w, schedule)) && !Stranded(After(w, schedule))
    decreases schedule
  {
    if schedule != [] {
      hide Next, Enabled;
      StepKeepsFresh(w, schedule[0]);
      NothingStrandsIfTakesAreQuiet(Next(w, schedule[0]), schedule[1..]);
    }
  }

  /** The rest of a flush in which every send succeeds. */
  lemma {:induction false} Drain(w: World) returns (schedule: seq<Action>)
    requires w.worker.Flushing? && w.worker.at <= |w.worker.pending|
    ensures Possible(w, schedule)
    ensures After(w, schedule) == w.(worker := Serving, wire := After(w, schedule).wire)
    decreases |w.worker.pending| - w.worker.at
  {
    if w.worker.at == |w.worker.pending| {
      Push(w, FlushDone, []);
      schedule := [FlushDone];
    } else {
      var rest := Drain(Next(w, FlushOk));
      Push(w, FlushOk, rest);
      schedule := [FlushOk] + rest;
    }
  }

  lemma {:induction false} FreshThread(used: set<nat>) returns (t: nat)
    ensures forall u :: u in used ==> u < t
    decreases |used|
  {
    if used == {} {
      t := 0;
    } else {
      var u :| u in used;
      var rest := FreshThread(used - {u});
      assert forall v :: v in used ==> v == u || v in used - {u};
      t := if u < rest then rest else u + 1;
    }
  }

  /** With the flag down on a healthy connection any further frame is stranded. */
  lemma StrandWithFlagDown(w: World) returns (schedule: seq<Action>)
    requires w.worker.Serving? && w.alive && !w.connected
    ensures Possible(w, schedule) && Stranded(After(w, schedule))
  {
    var t := FreshThread(w.senders.Keys);
    var w1 := Next(w, Begin(t, true));
    assert |Next(w1, Accept(t)).queue| > 0;
    Push(w1, Accept(t), []);
    Push(w, Begin(t, true), [Accept(t)]);
    schedule := [Begin(t, true), Accept(t)];
    assert schedule == [Begin(t, true)] + [Accept(t)];
  }

  /** A thread left over strands its own frame, or lowers the flag for the next one. */
  lemma StrandWithLeftover(w: World, t: nat) returns (schedule: seq<Action>)
    requires Sane(w) && w.worker.Serving? && w.alive && t in w.senders && !UpToDate(w, t)
    ensures Possible(w, schedule) && Stranded(After(w, schedule))
    decreases match w.senders[t] case WillSend(_, _, _) => 2 case SendFailed(_, _) => 1 case WillQueue(_) => 0
  {
    match w.senders[t] {
      case WillQueue(_) =>
        Push(w, Accept(t), []);
        schedule := [Accept(t)];
      case SendFailed(_, queueable) =>
        var w1, rest := Next(w, LowerFlag(t)), [];
        StepKeepsSane(w, LowerFlag(t));
        if queueable {
          rest := StrandWithLeftover(w1, t);
        } else {
          rest := StrandWithFlagDown(w1);
        }
        Push(w, LowerFlag(t), rest);
        schedule := [LowerFlag(t)] + rest;
      case WillSend(_, _, _) =>
        var a := DirectFails(t, true);
        StepKeepsSane(w, a);
        var rest := StrandWithLeftover(Next(w, a), t);
        Push(w, a, rest);
        schedule := [a] + rest;
    }
  }

  /** The condition is exact: from every flush that does not start quietly the flush can succeed in full
      and a frame be stranded behind it. */
  lemma UnquietTakeCanStrand(w: World) returns (schedule: seq<Action>)
    requires Sane(w) && w.worker.Flagged? && w.alive && !Quiet(w)
    ensures schedule != [] && schedule[0] == TakeAll
    ensures Possible(w, schedule) && Stranded(After(w, schedule))
  {
    var w1 := Next(w, TakeAll);
    var drain := Drain(w1);
    var w2, tail := After(w1, drain), [];
    if !w.connected {
      tail := StrandWithFlagDown(w2);
    } else {
      var t :| t in w.senders && !UpToDate(w, t);
      StepKeepsSane(w, TakeAll);
      EveryWorldIsSane(w1, drain);
      tail := StrandWithLeftover(w2, t);
    }
    ScheduleConcat(w1, drain, tail);
    Push(w, TakeAll, drain + tail);
    schedule := [TakeAll] + (drain + tail);
  }

  // ---------------------------------------------------------------------------------------
  // Frames ahead of the handshake
  // ---------------------------------------------------------------------------------------

  /** No thread is past the check and about to send on whatever connection it then finds. */
  ghost predicate NobodyAboutToSend(w: World)
  {
    forall t :: t in w.senders ==> !w.senders[t].WillSend?
  }

  ghost predicate QuietDials(w: World, schedule: seq<Action>)
    requires Possible(w, schedule)
    decreases schedule
  {
    schedule == []
    || ((schedule[0].DialNew? ==> NobodyAboutToSend(w)) && QuietDials(Next(w, schedule[0]), schedule[1..]))
  }

  ghost predicate Shaken(w: World)
  {
    w.early == {} && (w.connected ==> w.shaken) && (!w.shaken ==> NobodyAboutToSend(w))
  }

  lemma StepKeepsShaken(w: World, a: Action)
    requires Shaken(w) && Enabled(w, a) && (a.DialNew? ==> NobodyAboutToSend(w))
    ensures Shaken(Next(w, a))
  {
  }

  lemma {:induction false} NothingIsEarlyIfDialsAreQuiet(w: World, schedule: seq<Action>)
    requires Shaken(w) && Possible(w, schedule) && QuietDials(w, schedule)
    ensures Shaken(After(w, schedule))
    decreases schedule
  {
    if schedule != [] {
      hide Next, Enabled;
      StepKeepsShaken(w, schedule[0]);
      NothingIsEarlyIfDialsAreQuiet(Next(w, schedule[0]), schedule[1..]);
    }
  }

  /** Exact again: a thread that read `connected` before the old connection was replaced can put its
      frame on the new one ahead of the handshake. */
  lemma UnquietDialCanSendEarly(w: World)
    requires Enabled(w, DialNew) && !NobodyAboutToSend(w)
    ensures exists t :: t in w.senders && Possible(w, [DialNew, DirectOk(t)])
                        && w.senders[t].id in After(w, [DialNew, DirectOk(t)]).early
  {
    var t :| t in w.senders && w.senders[t].WillSend?;
    Push(Next(w, DialNew), DirectOk(t), []);
    Push(w, DialNew, [DirectOk(t)]);
    assert [DialNew] + [DirectOk(t)] == [DialNew, DirectOk(t)];
  }

  // ---------------------------------------------------------------------------------------
  // Overtaking
  // ---------------------------------------------------------------------------------------

  /** On the wire a frame sent directly stands before a queued one whose thread checked the flag first. */
  predicate Overtakes(w: World, i: nat, j: nat)
  {
    && i < j < |w.wire| && w.wire[i].Direct? && w.wire[j].Flushed?
    && w.wire[j].n < |w.accepted| && w.accepted[w.wire[j].n] < w.wire[i].id
  }

  ghost predicate Overtaken(w: World)
  {
    exists i, j :: Overtakes(w, i, j)
  }

  /** Nothing waits and nobody older with a frame that may be queued is inside `_send`. */
  ghost predicate Clear(w: World)
  {
    w.queue == [] && InFlight(w) == [] && forall t :: t in w.senders ==> !Queueable(w.senders[t])
  }

  /** Whenever a thread with a queueable frame finds the flag up, nothing is ahead of it. */
  ghost predicate ClearBegins(w: World, schedule: seq<Action>)
    requires Possible(w, schedule)
    decreases schedule
  {
    schedule == []
    || ((schedule[0].Begin? && schedule[0].queueable && w.connected ==> Clear(w))
        && ClearBegins(Next(w, schedule[0]), schedule[1..]))
  }

  /** Whatever waits or may still be queued is younger than `d`, the thread `self` excepted. */
  ghost predicate Younger(w: World, d: nat, self: set<nat>)
  {
    && d < w.born
    && (forall n: nat :: Pending(w, n) ==> n < |w.accepted| && w.accepted[n] > d)
    && (forall t :: t in w.senders && t !in self && Queueable(w.senders[t]) ==> w.senders[t].id > d)
  }

  ghost predicate Ordered(w: World)
  {
    && (forall i :: 0 <= i < |w.wire| && w.wire[i].Direct? ==> Younger(w, w.wire[i].id, {}))
    && (forall t :: t in w.senders && w.senders[t].WillSend? && w.senders[t].queueable ==>
          Younger(w, w.senders[t].id, {t}))
    && !Overtaken(w)
  }

  /** A step that only takes threads further, and moves no frame to the wire. */
  ghost predicate Settles(w: World, w1: World)
  {
    && w1.wire == w.wire && w1.accepted == w.accepted && w.born <= w1.born
    && (forall n: nat :: Pending(w1, n) ==> Pending(w, n))
    && (forall t :: t in w1.senders ==> t in w.senders && Follows(w.senders[t], w1.senders[t]))
  }

  predicate Follows(s: Sender, s1: Sender)
  {
    s1.id == s.id && Queueable(s1) == Queueable(s) && (s1.WillSend? ==> s1 == s)
  }

  lemma YoungerSettles(w: World, w1: World, d: nat, self: set<nat>)
    requires Settles(w, w1) && Younger(w, d, self)
    ensures Younger(w1, d, self)
  {
  }

  lemma SettlingKeepsOrdered(w: World, w1: World)
    requires Settles(w, w1) && Ordered(w)
    ensures Ordered(w1)
  {
    hide Younger, Pending;
    forall d, self | Younger(w, d, self)
      ensures Younger(w1, d, self)
    {
      YoungerSettles(w, w1, d, self);
    }
    assert forall i, j :: Overtakes(w1, i, j) ==> Overtakes(w, i, j);
  }

  lemma SettlingSteps(w: World, a: Action)
    requires Enabled(w, a) && Sane(w)
    requires !a.Begin? && !a.DirectOk? && !a.Accept? && !a.FlushOk?
    ensures Settles(w, Next(w, a))
  {
  }

  lemma BeginKeepsOrdered(w: World, t: nat, queueable: bool)
    requires Ordered(w) && Sane(w) && Enabled(w, Begin(t, queueable))
    requires queueable && w.connected ==> Clear(w)
    ensures Ordered(Next(w, Begin(t, queueable)))
  {
    var w1 := Next(w, Begin(t, queueable));
    assert forall n: nat :: Pending(w1, n) <==> Pending(w, n);
    forall d, self | Younger(w, d, self)
      ensures Younger(w1, d, self)
    {
    }
    if queueable && w.connected {
      assert Younger(w1, w.born, {t});
    }
    assert forall i, j :: Overtakes(w1, i, j) ==> Overtakes(w, i, j);
  }

  lemma DirectKeepsOrdered(w: World, t: nat)
    requires Ordered(w) && Sane(w) && Enabled(w, DirectOk(t))
    ensures Ordered(Next(w, DirectOk(t)))
  {
    hide Younger, Pending;
    var w1 := Next(w, DirectOk(t));
    forall d, self | Younger(w, d, self)
      ensures Younger(w1, d, self - {t})
    {
      YoungerWithout(w, t, d, self);
    }
    assert {} - {t} == {} && {t} - {t} == {};
    forall i | 0 <= i < |w1.wire| && w1.wire[i].Direct?
      ensures Younger(w1, w1.wire[i].id, {})
    {
      if i == |w.wire| {
        assert Younger(w, w.senders[t].id, {t});
      }
    }
    forall u | u in w1.senders && w1.senders[u].WillSend? && w1.senders[u].queueable
      ensures Younger(w1, w1.senders[u].id, {u})
    {
      assert Younger(w, w.senders[u].id, {u}) && {u} - {t} == {u};
    }
    assert forall i, j :: Overtakes(w1, i, j) ==> Overtakes(w, i, j);
  }

  lemma YoungerWithout(w: World, t: nat, d: nat, self: set<nat>)
    requires Enabled(w, DirectOk(t)) && Younger(w, d, self)
    ensures Younger(Next(w, DirectOk(t)), d, self - {t})
  {
    forall n: nat | Pending(Next(w, DirectOk(t)), n)
      ensures Pending(w, n)
    {
      PendingAfter(w, DirectOk(t), n);
    }
  }

  lemma AcceptKeepsOrdered(w: World, t: nat)
    requires Ordered(w) && Sane(w) && Enabled(w, Accept(t))
    ensures Ordered(Next(w, Accept(t)))
  {
    var w1 := Next(w, Accept(t));
    var id := w.senders[t].id;
    assert forall n: nat :: Pending(w1, n) ==> Pending(w, n) || n == |w.accepted|;
    forall d, self | Younger(w, d, self) && t !in self
      ensures Younger(w1, d, self)
    {
      assert id > d;
    }
    assert forall i, j :: Overtakes(w1, i, j) ==> Overtakes(w, i, j);
  }

  lemma FlushKeepsOrdered(w: World)
    requires Ordered(w) && Sane(w) && Enabled(w, FlushOk)
    ensures Ordered(Next(w, FlushOk))
  {
    var w1, x := Next(w, FlushOk), w.worker.pending[w.worker.at];
    assert InFlight(w) == [x] + InFlight(w1);
    assert Pending(w, x);
    assert forall n: nat :: Pending(w1, n) ==> Pending(w, n);
    forall d, self | Younger(w, d, self)
      ensures Younger(w1, d, self)
    {
    }
    forall i: nat, j: nat | Overtakes(w1, i, j)
      ensures Overtakes(w, i, j)
    {
      assert w.wire[i].Direct? && Younger(w, w.wire[i].id, {});
    }
  }

  lemma StepKeepsOrdered(w: World, a: Action)
    requires Ordered(w) && Sane(w) && Enabled(w, a)
    requires a.Begin? && a.queueable && w.connected ==> Clear(w)
    ensures Ordered(Next(w, a))
  {
    hide Next, Ordered, Sane, Clear;
    match a
    case Begin(t, queueable) => BeginKeepsOrdered(w, t, queueable);
    case DirectOk(t) => DirectKeepsOrdered(w, t);
    case Accept(t) => AcceptKeepsOrdered(w, t);
    case FlushOk => FlushKeepsOrdered(w);
    case _ =>
      SettlingSteps(w, a);
      SettlingKeepsOrdered(w, Next(w, a));
  }

  lemma {:induction false} OrderedRun(w: World, schedule: seq<Action>)
    requires Ordered(w) && Sane(w) && Possible(w, schedule) && ClearBegins(w, schedule)
    ensures Ordered(After(w, schedule))
    decreases schedule
  {
    hide Next, Enabled, Ordered, Sane, Clear;
    if schedule != [] {
      StepKeepsOrdered(w, schedule[0]);
      StepKeepsSane(w, schedule[0]);
      OrderedRun(Next(w, schedule[0]), schedule[1..]);
    }
  }

  /** No queued frame is overtaken in any schedule in which every frame that finds the flag up finds
      nothing ahead of it. */
  lemma NothingIsOvertakenIfBeginsAreClear(schedule: seq<Action>)
    requires Possible(START, schedule) && ClearBegins(START, schedule)
    ensures !Overtaken(After(START, schedule))
  {
    OrderedRun(START, schedule);
  }

  /** How far the worker is from the next frame it flushes. */
  function Rank(w: World): nat
  {
    match w.worker
    case FlushFailed(_, _) => 6
    case RollingBack(_, _) => 5
    case Between => 4
    case Dialing => 3
    case Flagged => 2
    case Flushing(pending, at) => if at < |pending| then 1 else 8
    case Serving => 7
  }

  function TowardsFlush(w: World): Action
  {
    match w.worker
    case FlushFailed(_, _) => WorkerLowersFlag
    case RollingBack(_, _) => Rollback
    case Between => DialNew
    case Dialing => RaiseFlag
    case Flagged => TakeAll
    case Flushing(pending, at) => if at < |pending| then FlushOk else FlushDone
    case Serving => Disconnect
  }

  /** The frame `d` is on the wire, and something older waits. */
  ghost predicate Doomed(w: World, i: nat)
  {
    && Sane(w)
    && i < |w.wire| && w.wire[i].Direct?
    && InFlight(w) + w.queue != []
    && (forall n: nat :: Pending(w, n) ==> n < |w.accepted| && w.accepted[n] < w.wire[i].id)
  }

  /** A step towards the flush takes everything that waits along. */
  lemma KeepsWaiting(w: World, a: Action)
    requires Sane(w) && Enabled(w, a) && a == TowardsFlush(w) && !a.FlushOk?
    ensures var w1 := Next(w, a);
            && InFlight(w1) + w1.queue == InFlight(w) + w.queue
            && w1.wire == w.wire && w1.accepted == w.accepted
            && (forall n: nat :: Pending(w1, n) ==> Pending(w, n))
  {
    var w1 := Next(w, a);
    assert InFlight(w1) + w1.queue == InFlight(w) + w.queue;
    forall n: nat | Pending(w1, n)
      ensures Pending(w, n)
    {
      PendingAfter(w, a, n);
    }
  }

  lemma DoomedStep(w: World, i: nat)
    requires Doomed(w, i)
    ensures Enabled(w, TowardsFlush(w))
    ensures var w1 := Next(w, TowardsFlush(w));
            Overtaken(w1) || (Doomed(w1, i) && Rank(w1) < Rank(w))
  {
    hide Pending;
    var a := TowardsFlush(w);
    var w1 := Next(w, a);
    if a.FlushOk? {
      FlushOvertakes(w, i);
    } else {
      StepKeepsSane(w, a);
      KeepsWaiting(w, a);
    }
  }

  lemma FlushOvertakes(w: World, i: nat)
    requires Doomed(w, i) && Enabled(w, FlushOk)
    ensures Overtaken(Next(w, FlushOk))
  {
    var w1 := Next(w, FlushOk);
    assert Pending(w, w.worker.pending[w.worker.at]);
    assert Overtakes(w1, i, |w.wire|);
  }

  lemma {:induction false} DoomedIsOvertaken(w: World, i: nat) returns (schedule: seq<Action>)
    requires Doomed(w, i)
    ensures Possible(w, schedule) && Overtaken(After(w, schedule))
    decreases Rank(w)
  {
    hide Doomed, Next, Enabled, Rank, TowardsFlush;
    var a := TowardsFlush(w);
    DoomedStep(w, i);
    var rest := [];
    if !Overtaken(Next(w, a)) {
      rest := DoomedIsOvertaken(Next(w, a), i);
    }
    Push(w, a, rest);
    schedule := [a] + rest;
  }

  /** The frame `d` is on the wire, and so far nothing waits, but the older thread `s` may still queue. */
  lemma LatecomerIsOvertaken(w: World, i: nat, s: nat) returns (schedule: seq<Action>)
    requires Sane(w) && i < |w.wire| && w.wire[i].Direct? && InFlight(w) == [] && w.queue == []
    requires s in w.senders && Queueable(w.senders[s]) && w.senders[s].id < w.wire[i].id
    ensures Possible(w, schedule) && Overtaken(After(w, schedule))
    decreases match w.senders[s] case WillSend(_, _, _) => 2 case SendFailed(_, _) => 1 case WillQueue(_) => 0
  {
    var a := match w.senders[s]
      case WillSend(_, _, _) => DirectFails(s, false)
      case SendFailed(_, _) => LowerFlag(s)
      case WillQueue(_) => Accept(s);
    var w1, rest := Next(w, a), [];
    StepKeepsSane(w, a);
    if a.Accept? {
      assert w1.queue == [|w.accepted|];
      assert Doomed(w1, i);
      rest := DoomedIsOvertaken(w1, i);
    } else {
      rest := LatecomerIsOvertaken(w1, i, s);
    }
    Push(w, a, rest);
    schedule := [a] + rest;
  }

  /** The condition is exact: from every world in which a thread finds the flag up and something ahead of
      it, some schedule lets it overtake. */
  lemma UnclearBeginCanOvertake(w: World, t: nat) returns (schedule: seq<Action>)
    requires Sane(w) && Enabled(w, Begin(t, true)) && w.connected && !Clear(w)
    ensures schedule != [] && schedule[0] == Begin(t, true)
    ensures Possible(w, schedule) && Overtaken(After(w, schedule))
  {
    var w1 := Next(w, Begin(t, true));
    var w2, i, rest := Next(w1, DirectOk(t)), |w.wire|, [];
    StepKeepsSane(w, Begin(t, true));
    StepKeepsSane(w1, DirectOk(t));
    assert w2.wire[i] == Direct(w.born) && w2.queue == w.queue && InFlight(w2) == InFlight(w);
    assert forall n: nat :: Pending(w2, n) ==> Pending(w, n);
    if InFlight(w) + w.queue != [] {
      assert Doomed(w2, i);
      rest := DoomedIsOvertaken(w2, i);
    } else {
      assert InFlight(w) == [] && w.queue == [];
      var s :| s in w.senders && Queueable(w.senders[s]);
      rest := LatecomerIsOvertaken(w2, i, s);
    }
    Push(w1, DirectOk(t), rest);
    Push(w, Begin(t, true), [DirectOk(t)] + rest);
    schedule := [Begin(t, true)] + ([DirectOk(t)] + rest);
  }

  // ---------------------------------------------------------------------------------------
  // All of it happens
  // ---------------------------------------------------------------------------------------

  /** From the start of the program a frame can be stranded: its thread finds the flag down, and reaches the
      queue only after the connection was opened and the queue flushed. */
  lemma FramesCanBeStranded() returns (schedule: seq<Action>)
    ensures Possible(START, schedule) && Stranded(After(START, schedule))
  {
    var w1 := Next(START, Begin(0, true));
    var w3 := Next(Next(w1, DialNew), RaiseFlag);
    assert !UpToDate(w3, 0);
    var rest := UnquietTakeCanStrand(w3);
    rest := Two(w1, DialNew, RaiseFlag, rest);
    Push(START, Begin(0, true), rest);
    schedule := [Begin(0, true)] + rest;
  }

  /** And one can be overtaken: it waits in the queue when a younger one finds the flag up again. */
  lemma FramesCanBeOvertaken() returns (schedule: seq<Action>)
    ensures Possible(START, schedule) && Overtaken(After(START, schedule))
  {
    var w2 := Next(Next(START, Begin(0, true)), Accept(0));
    var w4 := Next(Next(w2, DialNew), RaiseFlag);
    StepKeepsSane(START, Begin(0, true));
    StepKeepsSane(Next(START, Begin(0, true)), Accept(0));
    StepKeepsSane(w2, DialNew);
    StepKeepsSane(Next(w2, DialNew), RaiseFlag);
    assert w4.queue == [0];
    var rest := UnclearBeginCanOvertake(w4, 1);
    rest := Two(w2, DialNew, RaiseFlag, rest);
    schedule := Two(START, Begin(0, true), Accept(0), rest);
  }

  lemma Two(w: World, a: Action, b: Action, rest: seq<Action>) returns (schedule: seq<Action>)
    requires Enabled(w, a) && Enabled(Next(w, a), b) && Possible(Next(Next(w, a), b), rest)
    ensures Possible(w, schedule) && After(w, schedule) == After(Next(Next(w, a), b), rest)
  {
    hide Enabled, Next;
    Push(Next(w, a), b, rest);
    Push(w, a, [b] + rest);
    schedule := [a] + ([b] + rest);
  }
}
