/** Frames sent directly behind younger frames of the queue, with the exact condition. */
module Stragglers {
  import opened Submissions
  import opened Interleaving
  import opened Races

  // Two ways lead a frame to the wire, so it can lose its place in two ways. That a frame of the queue is
  // overtaken by a younger one sent directly is in module Races; here the one sent directly comes too late.

  /** On the wire a queued frame stands before one sent directly whose thread checked the flag first. */
  predicate Straggles(w: World, i: nat, j: nat)
  {
    && i < j < |w.wire| && w.wire[i].Flushed? && w.wire[j].Direct?
    && w.wire[i].n < |w.accepted| && w.wire[j].id < w.accepted[w.wire[i].n]
  }

  ghost predicate Straggling(w: World)
  {
    exists i, j :: Straggles(w, i, j)
  }

  /** The thread is about to send directly, and checked the flag before the thread of the frame `n` did. */
  predicate Behind(w: World, t: nat, n: nat)
  {
    && t in w.senders && w.senders[t].WillSend? && w.senders[t].queueable
    && n < |w.accepted| && w.senders[t].id < w.accepted[n]
  }

  /** No thread about to send directly is older than a frame in the queue. */
  ghost predicate NobodyBehind(w: World)
  {
    forall t, n :: n in w.queue ==> !Behind(w, t, n)
  }

  ghost predicate CaughtUpTakes(w: World, schedule: seq<Action>)
    requires Possible(w, schedule)
    decreases schedule
  {
    schedule == []
    || ((schedule[0].TakeAll? ==> NobodyBehind(w)) && CaughtUpTakes(Next(w, schedule[0]), schedule[1..]))
  }

  /** Flushed, or taken to be flushed. */
  predicate Taken(w: World, n: nat)
  {
    n in InFlight(w) || Flushed(n) in w.wire
  }

  ghost predicate CaughtUp(w: World)
  {
    (forall t, n :: Taken(w, n) ==> !Behind(w, t, n)) && !Straggling(w)
  }

  /** A step brings nobody behind a frame whose number was given out. */
  lemma StaysAhead(w: World, a: Action, t: nat, n: nat)
    requires Sane(w) && Enabled(w, a) && n < |w.accepted| && Behind(Next(w, a), t, n)
    ensures Behind(w, t, n)
  {
  }

  lemma TakenAfter(w: World, a: Action, n: nat)
    requires Sane(w) && Enabled(w, a) && Taken(Next(w, a), n)
    ensures n < |w.accepted|
    ensures Taken(w, n) || (a.TakeAll? && n in w.queue)
  {
    var w1 := Next(w, a);
    if a.FlushOk? {
      assert InFlight(w) == [w.worker.pending[w.worker.at]] + InFlight(w1);
    }
    assert Pending(w, n) || Flushed(n) in w.wire;
  }

  lemma StepKeepsCaughtUp(w: World, a: Action)
    requires Sane(w) && CaughtUp(w) && Enabled(w, a) && (a.TakeAll? ==> NobodyBehind(w))
    ensures CaughtUp(Next(w, a))
  {
    hide Sane, Enabled, Taken;
    var w1 := Next(w, a);
    forall t, n | Taken(w1, n)
      ensures !Behind(w1, t, n)
    {
      TakenAfter(w, a, n);
      if Behind(w1, t, n) {
        StaysAhead(w, a, t, n);
      }
    }
    if Straggling(w1) {
      WhyStraggling(w, a);
    }
  }

  /** A straggler was one before, or is the frame just sent. */
  lemma WhyStraggling(w: World, a: Action)
    requires Sane(w) && Enabled(w, a) && Straggling(Next(w, a))
    ensures Straggling(w) || exists t, n :: Taken(w, n) && Behind(w, t, n)
  {
    var w1 := Next(w, a);
    var i: nat, j: nat :| Straggles(w1, i, j);
    assert w.wire[i] == w1.wire[i] && w1.wire[i].n < |w.accepted|;
    if j < |w.wire| {
      assert Straggles(w, i, j);
    } else {
      assert Taken(w, w.wire[i].n) && Behind(w, a.thread, w.wire[i].n);
    }
  }

  /** Every frame sent directly lands before all younger frames of the queue, in any schedule whose flushes
      take nothing younger than a frame still to be sent directly. */
  lemma {:induction false} NothingStragglesIfTakesAreCaughtUp(w: World, schedule: seq<Action>)
    requires Sane(w) && CaughtUp(w) && Possible(w, schedule) && CaughtUpTakes(w, schedule)
    ensures CaughtUp(After(w, schedule)) && !Straggling(After(w, schedule))
    decreases schedule
  {
    if schedule != [] {
      hide Next, Enabled, Sane;
      StepKeepsSane(w, schedule[0]);
      StepKeepsCaughtUp(w, schedule[0]);
      NothingStragglesIfTakesAreCaughtUp(Next(w, schedule[0]), schedule[1..]);
    }
  }

  /** The flush as far as position `k`. */
  lemma {:induction false} FlushTo(w: World, k: nat) returns (schedule: seq<Action>)
    requires w.worker.Flushing? && w.worker.at <= k < |w.worker.pending|
    ensures Possible(w, schedule)
    ensures var w1 := After(w, schedule);
            && w1 == w.(worker := w1.worker, wire := w1.wire)
            && Flushed(w.worker.pending[k]) in w1.wire
    decreases k - w.worker.at
  {
    var rest := [];
    if w.worker.at < k {
      rest := FlushTo(Next(w, FlushOk), k);
    }
    Push(w, FlushOk, rest);
    schedule := [FlushOk] + rest;
  }

  /** The condition is exact: from every take that leaves an older thread behind, that thread can send its
      frame after the younger one was flushed. */
  lemma LaggedTakeCanStraggle(w: World) returns (schedule: seq<Action>)
    requires w.worker.Flagged? && !NobodyBehind(w)
    ensures schedule != [] && schedule[0] == TakeAll
    ensures Possible(w, schedule) && Straggling(After(w, schedule))
  {
    var t, n :| n in w.queue && Behind(w, t, n);
    var k :| 0 <= k < |w.queue| && w.queue[k] == n;
    var w1 := Next(w, TakeAll);
    var flush := FlushTo(w1, k);
    var w2 := After(w1, flush);
    var i :| 0 <= i < |w2.wire| && w2.wire[i] == Flushed(n);
    Push(w2, DirectOk(t), []);
    assert Straggles(Next(w2, DirectOk(t)), i, |w2.wire|);
    ScheduleConcat(w1, flush, [DirectOk(t)]);
    Push(w, TakeAll, flush + [DirectOk(t)]);
    schedule := [TakeAll] + (flush + [DirectOk(t)]);
  }

  /** With a thread about to send and the connection lost, the next frame is queued, and the one after the
      new connection flushes first. */
  lemma NextFrameGoesFirst(w: World) returns (schedule: seq<Action>)
    requires w.worker.Between? && !w.connected && w.queue == [] && w.accepted == []
    requires w.senders == map[0 := WillSend(0, true, w.epoch)] && w.born == 1
    ensures Possible(w, schedule) && Straggling(After(w, schedule))
  {
    var w2 := Next(Next(w, Begin(1, true)), Accept(1));
    var rest := QueuedFrameGoesFirst(w2);
    schedule := Two(w, Begin(1, true), Accept(1), rest);
  }

  lemma QueuedFrameGoesFirst(w: World) returns (schedule: seq<Action>)
    requires w.worker.Between? && w.queue == [0] && w.accepted == [1]
    requires 0 in w.senders && w.senders[0] == WillSend(0, true, w.epoch)
    ensures Possible(w, schedule) && Straggling(After(w, schedule))
  {
    var w2 := Next(Next(w, DialNew), RaiseFlag);
    assert w2.queue == [0] && w2.accepted == [1] && Behind(w2, 0, 0);
    var rest := LaggedTakeCanStraggle(w2);
    schedule := Two(w, DialNew, RaiseFlag, rest);
  }

  /** And it happens, from the start: a thread finds the flag up, and the connection is replaced. */
  lemma FramesCanStraggle() returns (schedule: seq<Action>)
    ensures Possible(START, schedule) && Straggling(After(START, schedule))
  {
    var w2 := Next(Next(START, DialNew), RaiseFlag);
    var w4 := Next(Next(w2, TakeAll), FlushDone);
    var w5 := Next(w4, Begin(0, true));
    var w6 := Next(w5, Disconnect);
    var rest := NextFrameGoesFirst(w6);
    rest := Two(w4, Begin(0, true), Disconnect, rest);
    rest := Two(w2, TakeAll, FlushDone, rest);
    schedule := Two(START, DialNew, RaiseFlag, rest);
  }
}
