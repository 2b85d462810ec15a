/** The reactor: one thread that drains the timer queues and completes what it
    drained, while any number of other threads enqueue, cancel and shut down.
    Every region that holds the reactor's mutex is one step. */
module Reactor {
  import opened TimerSpec

  type Timer = nat

  /** Where the reactor thread is in its loop. It holds no lock while
      `Completing` and while it waits on the condition variable. */
  datatype Thread = Waiting | Completing(op: WaitOp) | Completed | Exited

  datatype State = State(
    queues: seq<Waits<Timer>>,
    ops: seq<WaitOp>,
    thread: Thread,
    stopped: bool,
    // History: what became of each wait, the expiry of the timer it was added
    // to, the clock reading that released it, and who was picked by a cancel.
    completed: seq<WaitOp>,
    destroyed: seq<WaitOp>,
    deadline: map<nat, Time>,
    reading: map<nat, Time>,
    canceled: set<nat>)

  datatype Action =
    | EnqueueTimer(q: nat, timer: Timer, expiry: Time, id: nat)
    | CancelTimer(q: nat, timer: Timer, max: nat)
    | Pass(nows: seq<Time>, orders: seq<seq<Timer>>)
    | Leave
    | Complete
    | Next
    | Shutdown(listed: seq<seq<Timer>>)
    | Stop
    | Destruct

  ghost predicate Init(s: State) {
    && (forall q | 0 <= q < |s.queues| :: s.queues[q] == map[])
    && s == State(s.queues, [], Waiting, false, [], [], map[], map[], {})
  }

  /** The expiry that governs a wait added to `timer`. */
  function ExpiryFor(w: Waits<Timer>, timer: Timer, expiry: Time): Time {
    if timer in w then w[timer].expiry else expiry
  }

  /** Run the operation at the front of `ops`, or wait if there is none. */
  function PopOrWait(s: State): State {
    if s.ops == [] then s.(thread := Waiting)
    else s.(thread := Completing(s.ops[0]), ops := s.ops[1..])
  }

  /** The clock reading under which each drained wait was drained. */
  ghost function Readings(queues: seq<Waits<Timer>>, nows: seq<Time>, orders: seq<seq<Timer>>): map<nat, Time>
    requires Within(queues, orders) && |nows| == |queues|
  {
    if queues == [] then map[]
    else
      var n := |queues| - 1;
      Readings(queues[..n], nows[..n], orders[..n])
      + map op | op in OpsOf(queues[n], orders[n]) :: op.id := nows[n]
  }

  /** When a step can be taken. Once its wait is over, the reactor thread tests
      whether it was stopped and, if not, drains, in one locked region. Any other
      thread may enqueue, cancel, shut down or stop at any time the mutex is
      free, which is between any two steps. */
  ghost predicate Enabled(s: State, a: Action) {
    match a
    case EnqueueTimer(q, timer, expiry, id) => q < |s.queues| && id !in s.deadline
    case CancelTimer(q, timer, max) => q < |s.queues|
    case Pass(nows, orders) => s.thread == Waiting && !s.stopped && DueOrders(s.queues, nows, orders)
    case Leave => s.thread == Waiting && s.stopped
    case Complete => s.thread.Completing?
    case Next => s.thread == Completed
    case Shutdown(listed) => ListsAll(s.queues, listed)
    case Stop => true
    case Destruct => s.thread == Exited
  }

  ghost function Apply(s: State, a: Action): State
    requires Enabled(s, a)
  {
    match a
    case EnqueueTimer(q, timer, expiry, id) =>
      s.(queues := s.queues[q := Enqueued(s.queues[q], timer, expiry, WaitOp(id, Success))],
         deadline := s.deadline[id := ExpiryFor(s.queues[q], timer, expiry)])
    case CancelTimer(q, timer, max) =>
      var moved := CanceledOps(s.queues[q], timer, max);
      s.(queues := s.queues[q := AfterCancel(s.queues[q], timer, max)],
         ops := s.ops + moved,
         canceled := s.canceled + set op | op in moved :: op.id)
    case Leave =>
      s.(thread := Exited)
    case Pass(nows, orders) =>
      PopOrWait(s.(queues := Left(s.queues, orders),
                   ops := s.ops + Taken(s.queues, orders),
                   reading := s.reading + Readings(s.queues, nows, orders)))
    case Complete =>
      s.(thread := Completed, completed := s.completed + [s.thread.op])
    case Next =>
      PopOrWait(s)
    case Shutdown(listed) =>
      s.(queues := Left(s.queues, listed), ops := [],
         destroyed := s.destroyed + Taken(s.queues, listed) + s.ops)
    case Stop =>
      s.(stopped := true)
    case Destruct =>
      s.(ops := [], destroyed := s.destroyed + s.ops)
  }

  // ---- Every wait is in exactly one place ----

  ghost function CountQueues(queues: seq<Waits<Timer>>, id: nat): nat {
    if queues == [] then 0
    else CountQueues(queues[..|queues| - 1], id) + CountIn(queues[|queues| - 1], id)
  }

  function Running(thread: Thread): seq<WaitOp> {
    if thread.Completing? then [thread.op] else []
  }

  /** In how many places the wait `id` is. */
  ghost function Places(s: State, id: nat): nat {
    CountQueues(s.queues, id) + Count(s.ops, id) + Count(Running(s.thread), id)
    + Count(s.completed, id) + Count(s.destroyed, id)
  }

  ghost predicate Conserved(s: State) {
    forall id :: Places(s, id) == if id in s.deadline then 1 else 0
  }

  lemma {:induction false} CountQueuesUpdate(queues: seq<Waits<Timer>>, q: nat, w: Waits<Timer>, id: nat)
    requires q < |queues|
    ensures CountQueues(queues[q := w], id) == CountQueues(queues, id) - CountIn(queues[q], id) + CountIn(w, id)
  {
    var n := |queues| - 1;
    if q == n {
      assert queues[q := w][..n] == queues[..n];
    } else {
      CountQueuesUpdate(queues[..n], q, w, id);
      assert queues[q := w][..n] == queues[..n][q := w];
    }
  }

  lemma {:induction false} CountTaken(queues: seq<Waits<Timer>>, orders: seq<seq<Timer>>, id: nat)
    requires Within(queues, orders)
    ensures CountQueues(queues, id) == CountQueues(Left(queues, orders), id) + Count(Taken(queues, orders), id)
  {
    if queues != [] {
      var n := |queues| - 1;
      CountTaken(queues[..n], orders[..n], id);
      RemovalConserves(queues[n], orders[n], id);
      CountAppend(Taken(queues[..n], orders[..n]), OpsOf(queues[n], orders[n]), id);
      assert Left(queues, orders)[..n] == Left(queues[..n], orders[..n]);
    }
  }

  lemma CountPopOrWait(s: State, id: nat)
    requires !s.thread.Completing?
    ensures Places(PopOrWait(s), id) == Places(s, id)
  {
    if s.ops != [] {
      CountAppend([s.ops[0]], s.ops[1..], id);
      assert [s.ops[0]] + s.ops[1..] == s.ops;
    }
  }

  lemma PlacesAfter(s: State, a: Action, id: nat)
    requires Enabled(s, a)
    ensures Places(Apply(s, a), id) == Places(s, id) + if a.EnqueueTimer? && a.id == id then 1 else 0
  {
    match a
    case EnqueueTimer(q, timer, expiry, i) =>
      var op := WaitOp(i, Success);
      EnqueueConserves(s.queues[q], timer, expiry, op, id);
      CountQueuesUpdate(s.queues, q, Enqueued(s.queues[q], timer, expiry, op), id);
    case CancelTimer(q, timer, max) =>
      CancelConserves(s.queues[q], timer, max, id);
      CountQueuesUpdate(s.queues, q, AfterCancel(s.queues[q], timer, max), id);
      CountAppend(s.ops, CanceledOps(s.queues[q], timer, max), id);
    case Pass(nows, orders) =>
      CountTaken(s.queues, orders, id);
      CountAppend(s.ops, Taken(s.queues, orders), id);
      CountPopOrWait(s.(queues := Left(s.queues, orders), ops := s.ops + Taken(s.queues, orders),
                        reading := s.reading + Readings(s.queues, nows, orders)), id);
    case Complete =>
      CountAppend(s.completed, [s.thread.op], id);
    case Next =>
      CountPopOrWait(s, id);
    case Shutdown(listed) =>
      CountTaken(s.queues, listed, id);
      CountAppend(s.destroyed, Taken(s.queues, listed), id);
      CountAppend(s.destroyed + Taken(s.queues, listed), s.ops, id);
    case Destruct =>
      CountAppend(s.destroyed, s.ops, id);
    case Leave =>
    case Stop =>
  }

  // ---- Every wait is released for a reason ----

  /** `op` was picked by a cancel if it says so, and otherwise the clock had
      reached the expiry of its timer when it was drained. */
  ghost predicate Justified(s: State, op: WaitOp) {
    match op.ec
    case Canceled => op.id in s.canceled
    case Success =>
      op.id in s.deadline && op.id in s.reading && s.deadline[op.id] != MAX_TIME && s.deadline[op.id] <= s.reading[op.id]
  }

  /** A wait still queued has its timer's expiry for a deadline. */
  ghost predicate Pending(s: State, w: Waits<Timer>) {
    forall t, i {:trigger w[t].ops[i]} | t in w && 0 <= i < |w[t].ops| ::
      var op := w[t].ops[i]; op.ec == Success && op.id in s.deadline && s.deadline[op.id] == w[t].expiry
  }

  ghost predicate Reasons(s: State) {
    && (forall q | 0 <= q < |s.queues| :: Pending(s, s.queues[q]))
    && (forall i | 0 <= i < |s.ops| :: Justified(s, s.ops[i]))
    && (s.thread.Completing? ==> Justified(s, s.thread.op))
    && (forall i | 0 <= i < |s.completed| :: Justified(s, s.completed[i]))
  }

  ghost predicate Inv(s: State) {
    Conserved(s) && Reasons(s)
  }

  /** `op` was added to a timer that is due at `now`. */
  ghost predicate DueBy(s: State, op: WaitOp, now: Time) {
    op.ec == Success && op.id in s.deadline && s.deadline[op.id] != MAX_TIME && s.deadline[op.id] <= now
  }

  lemma {:induction false} DrainedAreDue(s: State, w: Waits<Timer>, now: Time, order: seq<Timer>)
    requires Pending(s, w) && forall i | 0 <= i < |order| :: order[i] in w && Due(w, now, order[i])
    ensures forall op | op in OpsOf(w, order) :: DueBy(s, op, now)
  {
    if order != [] {
      DrainedAreDue(s, w, now, order[..|order| - 1]);
      var last := w[order[|order| - 1]].ops;
      assert forall i {:trigger last[i]} | 0 <= i < |last| :: DueBy(s, w[order[|order| - 1]].ops[i], now);
    }
  }

  lemma {:induction false} TakenAreDue(s: State, queues: seq<Waits<Timer>>, nows: seq<Time>, orders: seq<seq<Timer>>)
    requires forall q | 0 <= q < |queues| :: Pending(s, queues[q])
    requires DueOrders(queues, nows, orders) && Within(queues, orders)
    ensures forall op | op in Taken(queues, orders) :: op.ec == Success && op.id in Readings(queues, nows, orders)
    ensures forall id | id in Readings(queues, nows, orders) ::
              DueBy(s, WaitOp(id, Success), Readings(queues, nows, orders)[id])
  {
    if queues != [] {
      var n := |queues| - 1;
      TakenAreDue(s, queues[..n], nows[..n], orders[..n]);
      DrainedAreDue(s, queues[n], nows[n], orders[n]);
    }
  }

  lemma {:induction false} MarkedAreCanceled(ops: seq<WaitOp>)
    ensures forall op | op in MarkCanceled(ops) :: op.ec == Canceled
  {
    assert forall i | 0 <= i < |ops| :: MarkCanceled(ops)[i].ec == Canceled;
  }

  lemma ReasonsAfterEnqueue(s: State, a: Action)
    requires Reasons(s) && Enabled(s, a) && a.EnqueueTimer?
    ensures Reasons(Apply(s, a))
  {
    var s' := Apply(s, a);
    var w, w' := s.queues[a.q], s'.queues[a.q];
    forall t, i {:trigger w'[t].ops[i]} | t in w' && 0 <= i < |w'[t].ops|
      ensures w'[t].ops[i].ec == Success && w'[t].ops[i].id in s'.deadline
      ensures s'.deadline[w'[t].ops[i].id] == w'[t].expiry
    {
      if t in w && i < |w[t].ops| {
        assert w'[t].ops[i] == w[t].ops[i];
      }
    }
    assert Pending(s', w');
    forall q | 0 <= q < |s'.queues| && q != a.q
      ensures Pending(s', s'.queues[q])
    {
      assert Pending(s, s.queues[q]);
    }
  }

  lemma ReasonsAfterCancel(s: State, a: Action)
    requires Reasons(s) && Enabled(s, a) && a.CancelTimer?
    ensures Reasons(Apply(s, a))
  {
    var s' := Apply(s, a);
    var w, w' := s.queues[a.q], s'.queues[a.q];
    if a.timer in w {
      MarkedAreCanceled(w[a.timer].ops[..CancelCount(w, a.timer, a.max)]);
    }
    forall t, i {:trigger w'[t].ops[i]} | t in w' && 0 <= i < |w'[t].ops|
      ensures w'[t].ops[i] in w[t].ops && w'[t].expiry == w[t].expiry
    {
    }
    assert Pending(s', w');
    forall q | 0 <= q < |s'.queues| && q != a.q
      ensures Pending(s', s'.queues[q])
    {
      assert Pending(s, s.queues[q]);
    }
    forall i | 0 <= i < |s'.ops|
      ensures Justified(s', s'.ops[i])
    {
      assert i < |s.ops| ==> Justified(s, s.ops[i]);
    }
  }

  lemma ReasonsAfterPass(s: State, a: Action)
    requires Reasons(s) && Enabled(s, a) && a.Pass?
    ensures Reasons(Apply(s, a))
  {
    var s' := Apply(s, a);
    TakenAreDue(s, s.queues, a.nows, a.orders);
    forall op | Justified(s, op)
      ensures Justified(s', op)
    {
    }
    var ops := s.ops + Taken(s.queues, a.orders);
    forall i | 0 <= i < |ops|
      ensures Justified(s', ops[i])
    {
      assert i >= |s.ops| ==> ops[i] in Taken(s.queues, a.orders);
    }
    forall q | 0 <= q < |s'.queues|
      ensures Pending(s', s'.queues[q])
    {
      assert Pending(s, s.queues[q]);
    }
  }

  lemma ReasonsAfterOther(s: State, a: Action)
    requires Reasons(s) && Enabled(s, a) && !a.EnqueueTimer? && !a.CancelTimer? && !a.Pass?
    ensures Reasons(Apply(s, a))
  {
    var s' := Apply(s, a);
    forall q | 0 <= q < |s'.queues|
      ensures Pending(s', s'.queues[q])
    {
      assert Pending(s, s.queues[q]);
    }
  }

  lemma StepKeepsInv(s: State, a: Action)
    requires Inv(s) && Enabled(s, a)
    ensures Inv(Apply(s, a))
  {
    forall id
      ensures Places(Apply(s, a), id) == if id in Apply(s, a).deadline then 1 else 0
    {
      PlacesAfter(s, a, id);
    }
    match a
    case EnqueueTimer(_, _, _, _) => ReasonsAfterEnqueue(s, a);
    case CancelTimer(_, _, _) => ReasonsAfterCancel(s, a);
    case Pass(_, _) => ReasonsAfterPass(s, a);
    case _ => ReasonsAfterOther(s, a);
  }

  // ---- Whole runs ----

  ghost predicate IsRun(states: seq<State>, actions: seq<Action>) {
    && |states| == |actions| + 1 && Init(states[0])
    && forall i | 0 <= i < |actions| :: Enabled(states[i], actions[i]) && states[i + 1] == Apply(states[i], actions[i])
  }

  lemma {:induction false} RunKeepsInv(states: seq<State>, actions: seq<Action>, n: nat)
    requires IsRun(states, actions) && n < |states|
    ensures Inv(states[n])
  {
    if n == 0 {
      forall id
        ensures Places(states[0], id) == 0
      {
        NothingQueued(states[0].queues, id);
      }
    } else {
      RunKeepsInv(states, actions, n - 1);
      StepKeepsInv(states[n - 1], actions[n - 1]);
    }
  }

  lemma {:induction false} NothingQueued(queues: seq<Waits<Timer>>, id: nat)
    requires forall q | 0 <= q < |queues| :: queues[q] == map[]
    ensures CountQueues(queues, id) == 0
  {
    if queues != [] {
      NothingQueued(queues[..|queues| - 1], id);
    }
  }

  /** In every run, at every moment, a wait has been completed at most once or
      destroyed at most once and never both; it is settled exactly when it is
      no longer held; and it completed with success only if the clock had
      reached its expiry, and as cancelled only if a cancel picked it. */
  lemma ExactlyOnce(states: seq<State>, actions: seq<Action>, n: nat, id: nat)
    requires IsRun(states, actions) && n < |states|
    ensures var s := states[n];
            && Count(s.completed, id) + Count(s.destroyed, id) <= 1
            && (id in s.deadline ==>
                  (Count(s.completed, id) + Count(s.destroyed, id) == 1 <==>
                   CountQueues(s.queues, id) + Count(s.ops, id) + Count(Running(s.thread), id) == 0))
            && (id !in s.deadline ==> Count(s.completed, id) + Count(s.destroyed, id) == 0)
            && forall i | 0 <= i < |s.completed| :: Justified(s, s.completed[i])
  {
    RunKeepsInv(states, actions, n);
    assert Places(states[n], id) <= 1;
  }
}
