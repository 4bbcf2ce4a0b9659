/** The outbound queue between concurrent senders and one flushing worker. */
module Interleaving {
  import opened Submissions

  // Any number of user-interface threads run `_send` against one worker that dials, raises `connected`
  // and flushes. Every read and write of shared state is a step of its own, except that a block under
  // `_queue_lock` is one step. The worker's own credential push is one more sender.

  /** A thread inside `_send`: past its check of `connected`, past a failed direct send, or about to
      queue. `epoch` is the connection that the check spoke of. A case-list refresh checks and sends in
      the same way, but is never queued. */
  datatype Sender =
    | WillSend(id: nat, queueable: bool, epoch: nat)
    | SendFailed(id: nat, queueable: bool)
    | WillQueue(id: nat)

  /** The worker: without a connection, shaking hands on a new one, about to flush, flushing `pending`
      from position `at`, on its way out of a failed flush, or in the receive loop. */
  datatype Worker =
    | Between
    | Dialing
    | Flagged
    | Flushing(pending: seq<nat>, at: nat)
    | FlushFailed(pending: seq<nat>, at: nat)
    | RollingBack(pending: seq<nat>, at: nat)
    | Serving

  /** A frame on the wire: one that was queued, by its acceptance number, or one sent directly. */
  datatype OnWire = Flushed(n: nat) | Direct(id: nat)

  /** The queue holds acceptance numbers; `accepted[n]` is the id of the n-th frame accepted, and ids
      are given out in the order of the checks. `alive` says that the connection dialed last is neither
      lost nor was a write on it seen to fail, `shaken` that its handshake is done; `early` collects the
      frames that reached a connection before that. `wire` is without the refreshes. */
  datatype World = World(
    connected: bool,
    epoch: nat,
    alive: bool,
    shaken: bool,
    queue: seq<nat>,
    worker: Worker,
    senders: map<nat, Sender>,
    born: nat,
    accepted: seq<nat>,
    dropped: set<nat>,
    wire: seq<OnWire>,
    early: set<nat>)

  const START := World(false, 0, false, false, [], Between, map[], 0, [], {}, [], {})

  /** `stale` marks a send that fails because its thread still holds a connection that was replaced, or
      finds the new one not open yet. */
  datatype Action =
    | Begin(thread: nat, queueable: bool)
    | DirectOk(thread: nat)
    | DirectFails(thread: nat, stale: bool)
    | LowerFlag(thread: nat)
    | Accept(thread: nat)
    | Break
    | Disconnect
    | DialNew
    | DialFails
    | RaiseFlag
    | TakeAll
    | FlushOk
    | FlushFails
    | WorkerLowersFlag
    | Rollback
    | FlushDone

  predicate At(w: World, thread: nat, pc: Sender -> bool)
  {
    thread in w.senders && pc(w.senders[thread])
  }

  predicate Enabled(w: World, a: Action)
  {
    match a
    case Begin(t, _) => t !in w.senders
    case DirectOk(t) => At(w, t, (s: Sender) => s.WillSend?)
    case DirectFails(t, stale) => At(w, t, (s: Sender) => s.WillSend? && (stale ==> s.epoch < w.epoch))
    case LowerFlag(t) => At(w, t, (s: Sender) => s.SendFailed?)
    case Accept(t) => At(w, t, (s: Sender) => s.WillQueue?)
    case Break => true
    case Disconnect => w.worker.Serving?
    case DialNew => w.worker.Between?
    case DialFails => w.worker.Dialing?
    case RaiseFlag => w.worker.Dialing?
    case TakeAll => w.worker.Flagged?
    case FlushOk => w.worker.Flushing? && w.worker.at < |w.worker.pending|
    case FlushFails => w.worker.Flushing? && w.worker.at < |w.worker.pending|
    case WorkerLowersFlag => w.worker.FlushFailed?
    case Rollback => w.worker.RollingBack? && w.worker.at <= |w.worker.pending|
    case FlushDone => w.worker.Flushing? && w.worker.at == |w.worker.pending|
  }

  function Keep(q: seq<nat>): seq<nat>
  {
    if |q| > QUEUE_MAX then q[|q| - QUEUE_MAX..] else q
  }

  function Drop(q: seq<nat>): seq<nat>
  {
    if |q| > QUEUE_MAX then q[..|q| - QUEUE_MAX] else []
  }

  /** `_enqueue` under the lock. */
  function Append(w: World, id: nat): World
  {
    var q := w.queue + [|w.accepted|];
    w.(queue := Keep(q), dropped := w.dropped + ToSet(Drop(q)), accepted := w.accepted + [id])
  }

  /** The check of `connected`: with the flag down a frame goes to the queue, and a refresh nowhere. */
  function Check(w: World, t: nat, queueable: bool): map<nat, Sender>
  {
    if w.connected then w.senders[t := WillSend(w.born, queueable, w.epoch)]
    else if queueable then w.senders[t := WillQueue(w.born)]
    else w.senders
  }

  function SendDirectly(w: World, t: nat): World
    requires t in w.senders && w.senders[t].WillSend?
  {
    var id := w.senders[t].id;
    w.(wire := if w.senders[t].queueable then w.wire + [Direct(id)] else w.wire,
       senders := w.senders - {t},
       early := if w.shaken then w.early else w.early + {id})
  }

  function Next(w: World, a: Action): World
    requires Enabled(w, a)
  {
    match a
    case Begin(t, queueable) => w.(born := w.born + 1, senders := Check(w, t, queueable))
    case DirectOk(t) => SendDirectly(w, t)
    case DirectFails(t, stale) =>
      w.(alive := w.alive && stale, senders := w.senders[t := SendFailed(w.senders[t].id, w.senders[t].queueable)])
    case LowerFlag(t) =>
      var s := w.senders[t];
      w.(connected := false, senders := if s.queueable then w.senders[t := WillQueue(s.id)] else w.senders - {t})
    case Accept(t) => Append(w, w.senders[t].id).(senders := w.senders - {t})
    case Break => w.(alive := false)
    case Disconnect => w.(connected := false, alive := false, worker := Between)
    case DialNew => w.(connected := false, epoch := w.epoch + 1, alive := true, shaken := false, worker := Dialing)
    case DialFails => w.(alive := false, worker := Between)
    case RaiseFlag => w.(connected := true, shaken := true, worker := Flagged)
    case TakeAll => w.(queue := [], worker := Flushing(w.queue, 0))
    case FlushOk =>
      w.(wire := w.wire + [Flushed(w.worker.pending[w.worker.at])],
         worker := Flushing(w.worker.pending, w.worker.at + 1))
    case FlushFails => w.(alive := false, worker := FlushFailed(w.worker.pending, w.worker.at))
    case WorkerLowersFlag => w.(connected := false, worker := RollingBack(w.worker.pending, w.worker.at))
    case Rollback => w.(queue := w.worker.pending[w.worker.at..] + w.queue, worker := Between)
    case FlushDone => w.(worker := Serving)
  }

  /** A schedule the threads can follow. */
  ghost predicate Possible(w: World, schedule: seq<Action>)
    decreases schedule
  {
    schedule == [] || (Enabled(w, schedule[0]) && Possible(Next(w, schedule[0]), schedule[1..]))
  }

  ghost function After(w: World, schedule: seq<Action>): World
    requires Possible(w, schedule)
    decreases schedule
  {
    if schedule == [] then w else After(Next(w, schedule[0]), schedule[1..])
  }

  // ---------------------------------------------------------------------------------------
  // The ledger
  // ---------------------------------------------------------------------------------------

  function FlushedOf(wire: seq<OnWire>): seq<nat>
  {
    if wire == [] then []
    else
      FlushedOf(wire[..|wire| - 1])
      + (if wire[|wire| - 1].Flushed? then [wire[|wire| - 1].n] else [])
  }

  lemma FlushedPush(wire: seq<OnWire>, e: OnWire)
    ensures FlushedOf(wire + [e]) == FlushedOf(wire) + (if e.Flushed? then [e.n] else [])
  {
    assert (wire + [e])[..|wire|] == wire;
  }

  /** The worker holds frames that are off the queue. */
  predicate Holding(w: World)
  {
    w.worker.Flushing? || w.worker.FlushFailed? || w.worker.RollingBack?
  }

  /** The frames a flush has taken off the queue and not sent. */
  function InFlight(w: World): seq<nat>
  {
    if Holding(w) && w.worker.at <= |w.worker.pending| then w.worker.pending[w.worker.at..] else []
  }

  ghost predicate Ledger(w: World)
  {
    && FlushedOf(w.wire) + (InFlight(w) + w.queue) == Undropped(|w.accepted|, w.dropped)
    && (forall d :: d in w.dropped ==> d < |w.accepted|)
    && (Holding(w) ==> w.worker.at <= |w.worker.pending| && |w.queue| <= QUEUE_MAX)
  }

  lemma TrimKeeps(before: seq<nat>, q: seq<nat>, k: nat, n: nat, dropped: set<nat>)
    requires k <= |q| && before + q == Undropped(n, dropped)
    ensures before + q[k..] == Undropped(n, dropped + ToSet(q[..k]))
    ensures forall d :: d in q[..k] ==> d < n
    ensures forall d, i :: d in q[..k] && 0 <= i < |q[k..]| ==> d < q[k..][i]
  {
    UndroppedElements(n, dropped);
    assert before + q[..k] + q[k..] == before + q;
    DropPrefix(n, dropped, before, q[..k], q[k..]);
    forall d | d in q[..k]
      ensures d < n && forall i :: 0 <= i < |q[k..]| ==> d < q[k..][i]
    {
      var j :| 0 <= j < k && q[j] == d;
      assert (before + q)[|before| + j] == d;
      forall i | 0 <= i < |q[k..]| ensures d < q[k..][i] {
        assert (before + q)[|before| + k + i] == q[k..][i];
      }
    }
  }

  lemma TrimQueue(before: seq<nat>, q: seq<nat>, n: nat, dropped: set<nat>)
    requires before + q == Undropped(n, dropped)
    ensures before + Keep(q) == Undropped(n, dropped + ToSet(Drop(q)))
    ensures forall d :: d in Drop(q) ==> d < n
    ensures forall d, i :: d in Drop(q) && 0 <= i < |Keep(q)| ==> d < Keep(q)[i]
  {
    if |q| > QUEUE_MAX {
      TrimKeeps(before, q, |q| - QUEUE_MAX, n, dropped);
    } else {
      assert dropped + ToSet([]) == dropped;
    }
  }

  /** The frames on the wire and in flight, which an accept does not touch. */
  function Ahead(w: World): seq<nat>
  {
    FlushedOf(w.wire) + InFlight(w)
  }

  lemma AheadOfQueue(w: World)
    ensures FlushedOf(w.wire) + (InFlight(w) + w.queue) == Ahead(w) + w.queue
  {
  }

  lemma AppendKeeps(w: World, id: nat)
    requires Ledger(w)
    ensures Ledger(Append(w, id))
    ensures |Append(w, id).queue| <= QUEUE_MAX
    ensures forall d, i :: d in Append(w, id).dropped - w.dropped && 0 <= i < |Append(w, id).queue|
                       ==> d < Append(w, id).queue[i]
  {
    var n := |w.accepted|;
    var q := w.queue + [n];
    var w1 := Append(w, id);
    AheadOfQueue(w);
    assert Ahead(w) + q == Ahead(w) + w.queue + [n] == Undropped(n, w.dropped) + [n] == Undropped(n + 1, w.dropped);
    TrimQueue(Ahead(w), q, n + 1, w.dropped);
    assert Ahead(w1) == Ahead(w);
    AheadOfQueue(w1);
  }

  /** A step that moves no frame between the wire, the flush and the queue. */
  lemma StillLedger(w: World, w1: World)
    requires Ledger(w)
    requires FlushedOf(w1.wire) == FlushedOf(w.wire) && InFlight(w1) + w1.queue == InFlight(w) + w.queue
    requires w1.accepted == w.accepted && w1.dropped == w.dropped
    requires Holding(w1) ==> w1.worker.at <= |w1.worker.pending| && |w1.queue| <= QUEUE_MAX
    ensures Ledger(w1)
  {
  }

  lemma AcceptKeepsLedger(w: World, t: nat)
    requires Ledger(w) && Enabled(w, Accept(t))
    ensures Ledger(Next(w, Accept(t)))
  {
    hide Undropped, Keep, Drop;
    AppendKeeps(w, w.senders[t].id);
    StillLedger(Append(w, w.senders[t].id), Next(w, Accept(t)));
  }

  lemma DirectKeepsLedger(w: World, t: nat)
    requires Ledger(w) && Enabled(w, DirectOk(t))
    ensures Ledger(Next(w, DirectOk(t)))
  {
    hide Undropped, FlushedOf;
    var w1 := Next(w, DirectOk(t));
    FlushedPush(w.wire, Direct(w.senders[t].id));
    assert FlushedOf(w.wire) + [] == FlushedOf(w.wire);
    assert InFlight(w1) + w1.queue == InFlight(w) + w.queue;
    StillLedger(w, w1);
  }

  lemma FlushOkKeepsLedger(w: World)
    requires Ledger(w) && Enabled(w, FlushOk)
    ensures Ledger(Next(w, FlushOk))
  {
    hide Undropped, FlushedOf;
    var w1, x := Next(w, FlushOk), w.worker.pending[w.worker.at];
    FlushedPush(w.wire, Flushed(x));
    assert InFlight(w) == [x] + InFlight(w1);
    assert FlushedOf(w1.wire) + (InFlight(w1) + w1.queue) == FlushedOf(w.wire) + (InFlight(w) + w.queue);
  }

  lemma WorkerKeepsLedger(w: World, a: Action)
    requires Ledger(w) && Enabled(w, a)
    requires !a.Accept? && !a.DirectOk? && !a.FlushOk?
    ensures Ledger(Next(w, a))
  {
    hide Undropped, FlushedOf;
    var w1 := Next(w, a);
    assert InFlight(w1) + w1.queue == InFlight(w) + w.queue;
    StillLedger(w, w1);
  }

  lemma StepKeepsLedger(w: World, a: Action)
    requires Ledger(w) && Enabled(w, a)
    ensures Ledger(Next(w, a))
  {
    hide Ledger, Next;
    match a
    case Accept(t) => AcceptKeepsLedger(w, t);
    case DirectOk(t) => DirectKeepsLedger(w, t);
    case FlushOk => FlushOkKeepsLedger(w);
    case _ => WorkerKeepsLedger(w, a);
  }

  lemma {:induction false} ScheduleKeepsLedger(w: World, schedule: seq<Action>)
    requires Ledger(w) && Possible(w, schedule)
    ensures Ledger(After(w, schedule))
    decreases schedule
  {
    if schedule != [] {
      StepKeepsLedger(w, schedule[0]);
      ScheduleKeepsLedger(Next(w, schedule[0]), schedule[1..]);
    }
  }

  /** How often `n` stands in `s`. */
  function Count(s: seq<nat>, n: nat): nat
  {
    if s == [] then 0 else Count(s[..|s| - 1], n) + (if s[|s| - 1] == n then 1 else 0)
  }

  lemma {:induction false} CountConcat(a: seq<nat>, b: seq<nat>, n: nat)
    ensures Count(a + b, n) == Count(a, n) + Count(b, n)
  {
    if b == [] {
      assert a + b == a;
    } else {
      assert (a + b)[..|a + b| - 1] == a + b[..|b| - 1];
      CountConcat(a, b[..|b| - 1], n);
    }
  }

  lemma {:induction false} UndroppedOnce(n: nat, dropped: set<nat>, x: nat)
    ensures Count(Undropped(n, dropped), x) == if x < n && x !in dropped then 1 else 0
  {
    if n > 0 {
      var before, u := Undropped(n - 1, dropped), Undropped(n, dropped);
      UndroppedOnce(n - 1, dropped, x);
      assert n - 1 !in dropped ==> u[..|u| - 1] == before && u[|u| - 1] == n - 1;
      assert n - 1 in dropped ==> u == before;
    }
  }

  function Places(w: World, n: nat): nat
  {
    Count(FlushedOf(w.wire), n) + Count(InFlight(w), n) + Count(w.queue, n) + (if n in w.dropped then 1 else 0)
  }

  /** In every schedule, each frame accepted for queueing is in exactly one place, once: flushed to
      the wire, in flight, queued, or dropped; and flushed, in-flight and queued frames together
      stand in acceptance order. */
  lemma EveryAcceptedFrameIsInOnePlace(schedule: seq<Action>, n: nat)
    requires Possible(START, schedule)
    ensures var w := After(START, schedule);
            var line := FlushedOf(w.wire) + (InFlight(w) + w.queue);
            && (n < |w.accepted| ==> Places(w, n) == 1)
            && forall i, j :: 0 <= i < j < |line| ==> line[i] < line[j]
  {
    ScheduleKeepsLedger(START, schedule);
    var w := After(START, schedule);
    UndroppedElements(|w.accepted|, w.dropped);
    UndroppedOnce(|w.accepted|, w.dropped, n);
    CountConcat(FlushedOf(w.wire), InFlight(w) + w.queue, n);
    CountConcat(InFlight(w), w.queue, n);
  }

  /** What one step may lose, and how long the queue may get: a frame is dropped only by an accept
      that leaves exactly 50 newer ones queued; an accept leaves at most 50; a rollback puts back at
      most what it took, in front of at most 50. */
  lemma StepBounds(w: World, a: Action)
    requires Ledger(w) && Enabled(w, a)
    ensures var w1 := Next(w, a);
            && w.dropped <= w1.dropped
            && (w1.dropped != w.dropped ==> a.Accept? && |w1.queue| == QUEUE_MAX)
            && (forall d, i :: d in w1.dropped - w.dropped && 0 <= i < |w1.queue| ==> d < w1.queue[i])
            && (a.Accept? ==> |w1.queue| <= QUEUE_MAX)
            && (a.Rollback? ==> |w1.queue| <= |w.worker.pending| + QUEUE_MAX)
  {
    if a.Accept? {
      AppendKeeps(w, w.senders[a.thread].id);
    }
  }
}
