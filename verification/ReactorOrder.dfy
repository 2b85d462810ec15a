/** What a user of the reactor can rely on besides that nothing is lost: a drain
    drains, a cancel takes the oldest waits and no more than it was asked to,
    and waits complete in the order in which they were released. */
module ReactorOrder {
  import opened Basics
  import opened Reactor
  import opened TimerSpec

  function IdsOf(ops: seq<WaitOp>): (ids: seq<nat>)
    ensures |ids| == |ops|
  {
    seq(|ops|, i requires 0 <= i < |ops| => ops[i].id)
  }

  lemma IdsAppend(a: seq<WaitOp>, b: seq<WaitOp>)
    ensures IdsOf(a + b) == IdsOf(a) + IdsOf(b)
  {
  }

  /** What has left the timers and was not destroyed, in the order of release. */
  function Released(s: State): seq<WaitOp> {
    s.completed + Running(s.thread) + s.ops
  }

  predicate GivesUp(a: Action) {
    a.Shutdown? || a.Destruct?
  }

  /** The waits on one timer. */
  function OpsOn(w: Waits<Timer>, t: Timer): seq<WaitOp> {
    if t in w then w[t].ops else []
  }

  // ---- Enqueue ----

  /** A wait goes behind those on its timer, whose expiry it does not change
      while the timer is active; nothing else changes. */
  lemma EnqueueAppends(states: seq<State>, actions: seq<Action>, n: nat)
    requires IsRun(states, actions) && n < |actions| && actions[n].EnqueueTimer?
    ensures var s, s', a := states[n], states[n + 1], actions[n];
            && |s'.queues| == |s.queues|
            && OpsOn(s'.queues[a.q], a.timer) == OpsOn(s.queues[a.q], a.timer) + [WaitOp(a.id, Success)]
            && a.timer in s'.queues[a.q]
            && s'.queues[a.q][a.timer].expiry
               == (if a.timer in s.queues[a.q] then s.queues[a.q][a.timer].expiry else a.expiry)
            && (forall q | 0 <= q < |s.queues| && q != a.q :: s'.queues[q] == s.queues[q])
            && s'.queues[a.q] - {a.timer} == s.queues[a.q] - {a.timer}
            && Released(s') == Released(s)
  {
  }

  // ---- Cancel ----

  /** Of `w`, the oldest waits on `t` are gone: at most `max`, and fewer only if
      that leaves none; the expiry and all other timers are as they were. */
  ghost predicate OldestTaken(w: Waits<Timer>, w': Waits<Timer>, t: Timer, max: nat) {
    var ops, left := OpsOn(w, t), OpsOn(w', t);
    var k := |ops| - |left|;
    && 0 <= k <= |ops| && k <= max && (k < max ==> left == []) && left == ops[k..]
    && w' - {t} == w - {t}
    && (t in w' ==> left != [] && w'[t].expiry == w[t].expiry)
  }

  /** How many waits on a timer a step has taken away. */
  function Removed(s: State, s': State, q: nat, t: Timer): int
    requires q < |s.queues| && q < |s'.queues|
  {
    |OpsOn(s.queues[q], t)| - |OpsOn(s'.queues[q], t)|
  }

  lemma CancelOfTimer(w: Waits<Timer>, t: Timer, max: nat)
    requires t in w ==> w[t].ops != []
    ensures OldestTaken(w, AfterCancel(w, t, max), t, max)
    ensures var k := |OpsOn(w, t)| - |OpsOn(AfterCancel(w, t, max), t)|;
            && 0 <= k <= |OpsOn(w, t)| && |CanceledOps(w, t, max)| == k
            && forall i | 0 <= i < k :: CanceledOps(w, t, max)[i] == WaitOp(OpsOn(w, t)[i].id, Canceled)
  {
  }

  /** A timer is active only while somebody waits on it. */
  ghost predicate NoIdleTimers(s: State) {
    forall q | 0 <= q < |s.queues| :: NoIdleTimersIn(s.queues[q])
  }

  ghost predicate NoIdleTimersIn(w: Waits<Timer>) {
    forall t | t in w :: w[t].ops != []
  }

  lemma CancelLeavesNoIdleTimers(w: Waits<Timer>, t: Timer, max: nat)
    requires NoIdleTimersIn(w)
    ensures NoIdleTimersIn(AfterCancel(w, t, max))
  {
  }

  lemma StepKeepsNoIdleTimers(s: State, a: Action)
    requires NoIdleTimers(s) && Enabled(s, a)
    ensures NoIdleTimers(Apply(s, a))
  {
    match a
    case EnqueueTimer(q, timer, expiry, id) => assert NoIdleTimersIn(s.queues[q]);
    case CancelTimer(q, timer, max) =>
      CancelLeavesNoIdleTimers(s.queues[q], timer, max);
      hide NoIdleTimersIn, AfterCancel, CanceledOps;
    case Pass(_, orders) => RemovalLeavesNoIdleTimers(s.queues, orders);
    case Shutdown(listed) => RemovalLeavesNoIdleTimers(s.queues, listed);
    case _ =>
  }

  lemma RemovalLeavesNoIdleTimers(queues: seq<Waits<Timer>>, orders: seq<seq<Timer>>)
    requires |orders| == |queues| && forall q | 0 <= q < |queues| :: NoIdleTimersIn(queues[q])
    ensures forall q | 0 <= q < |queues| :: NoIdleTimersIn(Left(queues, orders)[q])
  {
  }

  lemma {:induction false} RunHasNoIdleTimers(states: seq<State>, actions: seq<Action>, n: nat)
    requires IsRun(states, actions) && n < |states|
    ensures NoIdleTimers(states[n])
  {
    if n > 0 {
      RunHasNoIdleTimers(states, actions, n - 1);
      StepKeepsNoIdleTimers(states[n - 1], actions[n - 1]);
    }
  }

  /** A cancel takes the oldest waits of its timer, and touches nothing else. */
  lemma CancelTakesOldest(states: seq<State>, actions: seq<Action>, n: nat)
    requires IsRun(states, actions) && n < |actions| && actions[n].CancelTimer?
    ensures var s, s', a := states[n], states[n + 1], actions[n];
            && |s'.queues| == |s.queues|
            && OldestTaken(s.queues[a.q], s'.queues[a.q], a.timer, a.max)
            && forall q | 0 <= q < |s.queues| && q != a.q :: s'.queues[q] == s.queues[q]
  {
    var s, a := states[n], actions[n];
    RunHasNoIdleTimers(states, actions, n);
    assert NoIdleTimersIn(s.queues[a.q]);
    CancelOfTimer(s.queues[a.q], a.timer, a.max);
    hide OldestTaken, AfterCancel, CanceledOps;
  }

  /** And hands them to the back of the reactor's queue, marked as cancelled. */
  lemma CancelMarksWhatItTakes(states: seq<State>, actions: seq<Action>, n: nat)
    requires IsRun(states, actions) && n < |actions| && actions[n].CancelTimer?
    ensures var s, s', a := states[n], states[n + 1], actions[n];
            && |s'.queues| == |s.queues|
            && var k, ops := Removed(s, s', a.q, a.timer), OpsOn(s.queues[a.q], a.timer);
            && 0 <= k <= |ops| && |s'.ops| == |s.ops| + k && s.ops <= s'.ops
            && (forall i | 0 <= i < k :: s'.ops[|s.ops| + i] == WaitOp(ops[i].id, Canceled))
            && s'.canceled == s.canceled + Elements(IdsOf(ops[..k]))
            && Released(s') == Released(s) + s'.ops[|s.ops|..]
  {
    var s, a := states[n], actions[n];
    var w := s.queues[a.q];
    RunHasNoIdleTimers(states, actions, n);
    assert NoIdleTimersIn(w);
    CancelOfTimer(w, a.timer, a.max);
    var moved := CanceledOps(w, a.timer, a.max);
    SameIds(moved, OpsOn(w, a.timer)[..|moved|]);
    hide OldestTaken, AfterCancel, CanceledOps, OpsOn, Elements, NoIdleTimers, IdsOf;
    var s' := states[n + 1];
    assert s' == Apply(s, a) && s'.ops == s.ops + moved && s'.completed == s.completed && s'.thread == s.thread;
    hide IsRun, Apply, Enabled;
  }

  lemma SameIds(moved: seq<WaitOp>, ops: seq<WaitOp>)
    requires |moved| == |ops| && forall i | 0 <= i < |ops| :: moved[i].id == ops[i].id
    ensures (set op | op in moved :: op.id) == Elements(IdsOf(ops))
  {
    forall op | op in moved
      ensures op.id in Elements(IdsOf(ops))
    {
      var i :| 0 <= i < |moved| && moved[i] == op;
      assert IdsOf(ops)[i] == op.id;
    }
    forall id | id in Elements(IdsOf(ops))
      ensures id in set op | op in moved :: op.id
    {
      var i :| 0 <= i < |ops| && IdsOf(ops)[i] == id;
      assert moved[i] in moved;
    }
  }

  /** Who was picked by a cancel is known, and no longer waits on a timer. */
  ghost predicate CanceledGone(s: State) {
    forall id | id in s.canceled :: id in s.deadline && CountQueues(s.queues, id) == 0
  }

  lemma QueuesAfter(s: State, a: Action, id: nat)
    requires Enabled(s, a)
    ensures CountQueues(Apply(s, a).queues, id)
            <= CountQueues(s.queues, id) + if a.EnqueueTimer? && a.id == id then 1 else 0
    ensures a.CancelTimer? ==>
              CountQueues(Apply(s, a).queues, id) + Count(CanceledOps(s.queues[a.q], a.timer, a.max), id)
              == CountQueues(s.queues, id)
  {
    match a
    case EnqueueTimer(q, timer, expiry, i) =>
      var op := WaitOp(i, Success);
      EnqueueConserves(s.queues[q], timer, expiry, op, id);
      CountQueuesUpdate(s.queues, q, Enqueued(s.queues[q], timer, expiry, op), id);
    case CancelTimer(q, timer, max) =>
      CancelConserves(s.queues[q], timer, max, id);
      CountQueuesUpdate(s.queues, q, AfterCancel(s.queues[q], timer, max), id);
    case Pass(_, orders) => CountTaken(s.queues, orders, id);
    case Shutdown(listed) => CountTaken(s.queues, listed, id);
    case _ =>
  }

  lemma {:induction false} CountOfMember(ops: seq<WaitOp>, i: nat)
    requires i < |ops|
    ensures Count(ops, ops[i].id) >= 1
  {
    if i < |ops| - 1 {
      CountOfMember(ops[..|ops| - 1], i);
    }
  }

  lemma {:induction false} CountOfTwo(ops: seq<WaitOp>, i: nat, j: nat)
    requires i < j < |ops| && ops[i].id == ops[j].id
    ensures Count(ops, ops[i].id) >= 2
  {
    if j < |ops| - 1 {
      CountOfTwo(ops[..|ops| - 1], i, j);
    } else {
      CountOfMember(ops[..|ops| - 1], i);
    }
  }

  lemma {:induction false} MemberOfCount(ops: seq<WaitOp>, id: nat)
    requires Count(ops, id) >= 1
    ensures exists i | 0 <= i < |ops| :: ops[i].id == id
  {
    if ops[|ops| - 1].id != id {
      MemberOfCount(ops[..|ops| - 1], id);
      var i :| 0 <= i < |ops| - 1 && ops[..|ops| - 1][i].id == id;
      assert ops[i].id == id;
    }
  }

  lemma StepKeepsCanceledGone(s: State, a: Action)
    requires Inv(s) && CanceledGone(s) && Enabled(s, a)
    ensures CanceledGone(Apply(s, a))
  {
    var s' := Apply(s, a);
    forall id | id in s'.canceled
      ensures id in s'.deadline && CountQueues(s'.queues, id) == 0
    {
      QueuesAfter(s, a, id);
      if id !in s.canceled {
        var moved := CanceledOps(s.queues[a.q], a.timer, a.max);
        var op :| op in moved && op.id == id;
        var i :| 0 <= i < |moved| && moved[i] == op;
        CountOfMember(moved, i);
        assert Places(s, id) <= 1;
      }
    }
  }

  lemma {:induction false} RunKeepsCanceledGone(states: seq<State>, actions: seq<Action>, n: nat)
    requires IsRun(states, actions) && n < |states|
    ensures CanceledGone(states[n])
  {
    if n > 0 {
      RunKeepsCanceledGone(states, actions, n - 1);
      RunKeepsInv(states, actions, n - 1);
      StepKeepsCanceledGone(states[n - 1], actions[n - 1]);
    }
  }

  /** A cancel picks at most `max` waits that no cancel had picked before; and
      fewer only if its timer is left without waits. */
  lemma CancelPicksNoMoreThanAsked(states: seq<State>, actions: seq<Action>, n: nat)
    requires IsRun(states, actions) && n < |actions| && actions[n].CancelTimer?
    ensures var s, s', a := states[n], states[n + 1], actions[n];
            var picked := s'.canceled - s.canceled;
            && s.canceled <= s'.canceled && |picked| <= a.max && |s'.queues| == |s.queues|
            && (|picked| < a.max ==> a.timer !in s'.queues[a.q])
  {
    var s, s', a := states[n], states[n + 1], actions[n];
    CancelTakesOldest(states, actions, n);
    CancelMarksWhatItTakes(states, actions, n);
    var k := Removed(s, s', a.q, a.timer);
    var ops := OpsOn(s.queues[a.q], a.timer)[..k];
    RunKeepsInv(states, actions, n);
    RunKeepsCanceledGone(states, actions, n);
    OpsOnAreNew(s, a.q, a.timer, k);
    assert s'.canceled - s.canceled == Elements(IdsOf(ops));
    Distinct(IdsOf(ops));
  }

  lemma {:induction false} CountOnTimer(queues: seq<Waits<Timer>>, q: nat, t: Timer, id: nat)
    requires q < |queues| && t in queues[q]
    ensures Count(queues[q][t].ops, id) <= CountQueues(queues, id)
  {
    CountWithout(queues[q], t, id);
    if q < |queues| - 1 {
      CountOnTimer(queues[..|queues| - 1], q, t, id);
    }
  }

  lemma OpsOnAreNew(s: State, q: nat, t: Timer, k: nat)
    requires Inv(s) && CanceledGone(s) && q < |s.queues| && k <= |OpsOn(s.queues[q], t)|
    ensures var ids := IdsOf(OpsOn(s.queues[q], t)[..k]);
            && (forall i | 0 <= i < |ids| :: ids[i] !in s.canceled)
            && (forall i, j | 0 <= i < j < |ids| :: ids[i] != ids[j])
  {
    var ops := OpsOn(s.queues[q], t);
    forall i | 0 <= i < |ops|
      ensures ops[i].id !in s.canceled && forall j | i < j < |ops| :: ops[i].id != ops[j].id
    {
      CountOnTimer(s.queues, q, t, ops[i].id);
      CountOfMember(ops, i);
      assert Places(s, ops[i].id) <= 1;
      forall j | i < j < |ops|
        ensures ops[i].id != ops[j].id
      {
        if ops[i].id == ops[j].id {
          CountOfTwo(ops, i, j);
          assert false;
        }
      }
    }
  }

  // ---- Drain ----

  /** After a drain no wait is left whose expiry the clock had reached. */
  lemma PassDrains(states: seq<State>, actions: seq<Action>, n: nat)
    requires IsRun(states, actions) && n < |actions| && actions[n].Pass?
    ensures var s', nows := states[n + 1], actions[n].nows;
            && |nows| == |s'.queues|
            && forall q, t, i {:trigger s'.queues[q][t].ops[i]} |
                 0 <= q < |s'.queues| && t in s'.queues[q] && 0 <= i < |s'.queues[q][t].ops| ::
                 var id := s'.queues[q][t].ops[i].id;
                 id in s'.deadline && (s'.deadline[id] == MAX_TIME || nows[q] < s'.deadline[id])
  {
    var s, s', a := states[n], states[n + 1], actions[n];
    RunKeepsInv(states, actions, n + 1);
    PassLeavesNothingDue(s.queues, a.nows, a.orders);
    forall q, t, i | 0 <= q < |s'.queues| && t in s'.queues[q] && 0 <= i < |s'.queues[q][t].ops|
      ensures var id := s'.queues[q][t].ops[i].id;
              id in s'.deadline && (s'.deadline[id] == MAX_TIME || a.nows[q] < s'.deadline[id])
    {
      assert Pending(s', s'.queues[q]) && NothingDue(s'.queues[q], a.nows[q]);
    }
  }

  // ---- Order ----

  /** What a step releases, as seen on the timers. */
  ghost function EnteredIn(s: State, s': State, a: Action): seq<nat>
    requires Enabled(s, a) && |s'.queues| == |s.queues|
  {
    match a
    case CancelTimer(q, timer, _) =>
      var k := Removed(s, s', q, timer);
      if 0 <= k <= |OpsOn(s.queues[q], timer)| then IdsOf(OpsOn(s.queues[q], timer)[..k]) else []
    case Pass(_, orders) => IdsOf(Taken(s.queues, orders))
    case _ => []
  }

  lemma PopReleases(s: State)
    requires !s.thread.Completing?
    ensures Released(PopOrWait(s)) == Released(s)
    ensures PopOrWait(s).thread == Waiting ==> PopOrWait(s).completed == Released(PopOrWait(s))
  {
  }

  /** A step keeps what was released; and the thread begins to wait only when all
      of that is completed. */
  ghost predicate Releases(s: State, a: Action, s': State)
    requires Enabled(s, a)
  {
    && |s'.queues| == |s.queues|
    && Released(s) <= Released(s')
    && (a.Pass? ==> Released(s') == Released(s) + Taken(s.queues, a.orders))
    && (!a.Pass? && !a.CancelTimer? ==> Released(s') == Released(s))
    && (s'.thread == Waiting ==> s'.completed == Released(s') || (s.thread == Waiting && s'.completed == s.completed))
  }

  lemma PassReleases(s: State, a: Action)
    requires Enabled(s, a) && a.Pass?
    ensures Releases(s, a, Apply(s, a))
    ensures Apply(s, a).thread == Waiting ==> Apply(s, a).completed == Released(Apply(s, a))
  {
    var drained := s.(queues := Left(s.queues, a.orders), ops := s.ops + Taken(s.queues, a.orders),
                      reading := s.reading + Readings(s.queues, a.nows, a.orders));
    PopReleases(drained);
    assert Released(drained) == Released(s) + Taken(s.queues, a.orders);
    assert Apply(s, a) == PopOrWait(drained) && |PopOrWait(drained).queues| == |s.queues|;
    hide Apply, Enabled, Released, PopOrWait, Left, Readings;
  }

  lemma StepReleases(s: State, a: Action)
    requires Enabled(s, a) && !GivesUp(a)
    ensures Releases(s, a, Apply(s, a))
  {
    if a.Pass? {
      PassReleases(s, a);
    } else if a.Next? {
      PopReleases(s);
      hide Released;
    }
  }

  ghost function EnteredBy(states: seq<State>, actions: seq<Action>, n: nat): seq<nat>
    requires n < |states| && n <= |actions|
    requires forall i | 0 <= i < n :: Enabled(states[i], actions[i]) && |states[i + 1].queues| == |states[i].queues|
  {
    if n == 0 then []
    else EnteredBy(states, actions, n - 1) + EnteredIn(states[n - 1], states[n], actions[n - 1])
  }

  lemma {:induction false} SameQueues(states: seq<State>, actions: seq<Action>, n: nat)
    requires IsRun(states, actions) && n < |states|
    ensures forall i | 0 <= i < n :: Enabled(states[i], actions[i]) && |states[i + 1].queues| == |states[i].queues|
  {
  }

  lemma StepEnters(states: seq<State>, actions: seq<Action>, n: nat)
    requires IsRun(states, actions) && n < |actions| && !GivesUp(actions[n])
    ensures Enabled(states[n], actions[n]) && |states[n + 1].queues| == |states[n].queues|
    ensures IdsOf(Released(states[n + 1])) == IdsOf(Released(states[n])) + EnteredIn(states[n], states[n + 1], actions[n])
  {
    var s, s', a := states[n], states[n + 1], actions[n];
    assert Enabled(s, a) && s' == Apply(s, a);
    StepReleases(s, a);
    if a.CancelTimer? {
      CancelMarksWhatItTakes(states, actions, n);
      hide Apply, Enabled, Released, IsRun;
      var moved := s'.ops[|s.ops|..];
      IdsAppend(Released(s), moved);
      assert IdsOf(moved) == EnteredIn(s, s', a);
    } else if a.Pass? {
      hide Apply, Enabled, Released, IsRun;
      IdsAppend(Released(s), Taken(s.queues, a.orders));
    } else {
      hide Apply, Enabled, Released, IsRun;
    }
  }

  /** As long as nothing is given up, what drains and cancels released is, in that
      order, what has completed, then what is running, then what will be next. */
  lemma {:induction false} CompletedInOrderOfRelease(states: seq<State>, actions: seq<Action>, n: nat)
    requires IsRun(states, actions) && n < |states| && forall i | 0 <= i < n :: !GivesUp(actions[i])
    ensures forall i | 0 <= i < n :: Enabled(states[i], actions[i]) && |states[i + 1].queues| == |states[i].queues|
    ensures EnteredBy(states, actions, n) == IdsOf(states[n].completed + Running(states[n].thread) + states[n].ops)
  {
    SameQueues(states, actions, n);
    if n > 0 {
      CompletedInOrderOfRelease(states, actions, n - 1);
      StepEnters(states, actions, n - 1);
      hide IdsOf, EnteredIn, Apply, Enabled;
    }
  }

  /** While nothing is given up, what was released stays released, in its place;
      and when the thread waits, all of what an earlier drain left is completed. */
  lemma {:induction false} WaitingMeansCompleted(states: seq<State>, actions: seq<Action>, n: nat, m: nat)
    requires IsRun(states, actions) && n < m < |states| && actions[n].Pass?
    requires forall i | n <= i < m :: !GivesUp(actions[i])
    ensures Released(states[n + 1]) <= Released(states[m])
    ensures states[m].thread == Waiting ==> Released(states[n + 1]) <= states[m].completed
  {
    hide Apply, Enabled, Released;
    var s, a := states[m - 1], actions[m - 1];
    assert Enabled(s, a) && states[m] == Apply(s, a) && !GivesUp(a);
    StepReleases(s, a);
    if m > n + 1 {
      WaitingMeansCompleted(states, actions, n, m - 1);
    } else {
      PassReleases(s, a);
    }
  }

  predicate Before(ids: seq<nat>, first: nat, second: nat) {
    exists i, j | 0 <= i < j < |ids| :: ids[i] == first && ids[j] == second
  }

  lemma BeforeWithin(a: seq<nat>, b: seq<nat>, c: seq<nat>, first: nat, second: nat)
    requires Before(b, first, second)
    ensures Before(a + b + c, first, second)
  {
    var i, j :| 0 <= i < j < |b| && b[i] == first && b[j] == second;
    assert (a + b + c)[|a| + i] == first && (a + b + c)[|a| + j] == second;
  }

  /** The waits of one timer are a stretch of what is taken of its queue. */
  lemma OpsOfTimer(w: Waits<Timer>, order: seq<Timer>, i: nat) returns (before: seq<WaitOp>, after: seq<WaitOp>)
    requires (forall j | 0 <= j < |order| :: order[j] in w) && i < |order|
    ensures OpsOf(w, order) == before + w[order[i]].ops + after
    ensures forall j | i < j < |order| :: forall op | op in w[order[j]].ops :: op in after
  {
    var upTo, rest := order[..i + 1], order[i + 1..];
    assert order == upTo + rest && upTo[..i] == order[..i];
    OpsOfInOrder(w, upTo, rest);
    before, after := OpsOf(w, order[..i]), OpsOf(w, rest);
    forall j | i < j < |order|
      ensures forall op | op in w[order[j]].ops :: op in after
    {
      OpsOfHasAll(w, rest, j - i - 1);
    }
  }

  lemma OpsOfHasAll(w: Waits<Timer>, order: seq<Timer>, i: nat)
    requires (forall j | 0 <= j < |order| :: order[j] in w) && i < |order|
    ensures forall op | op in w[order[i]].ops :: op in OpsOf(w, order)
  {
    var upTo, rest := order[..i + 1], order[i + 1..];
    assert order == upTo + rest;
    OpsOfInOrder(w, upTo, rest);
  }

  /** What is taken of one queue is a stretch of what is taken of all. */
  lemma {:induction false} TakenOfQueue(queues: seq<Waits<Timer>>, orders: seq<seq<Timer>>, q: nat)
      returns (before: seq<WaitOp>, after: seq<WaitOp>)
    requires Within(queues, orders) && q < |queues|
    ensures Taken(queues, orders) == before + OpsOf(queues[q], orders[q]) + after
  {
    var last := |queues| - 1;
    if q == last {
      before, after := Taken(queues[..last], orders[..last]), [];
    } else {
      before, after := TakenOfQueue(queues[..last], orders[..last], q);
      after := after + OpsOf(queues[last], orders[last]);
    }
  }

  /** The k-th wait on one timer comes before the l-th on another, or the same,
      that expires later. */
  predicate DueBefore(w: Waits<Timer>, now: Time, t: Timer, k: nat, u: Timer, l: nat) {
    && t in w && u in w && k < |w[t].ops| && l < |w[u].ops|
    && w[t].expiry != MAX_TIME && w[u].expiry != MAX_TIME && w[u].expiry <= now
    && (w[t].expiry < w[u].expiry || (t == u && k < l))
  }

  lemma BeforeInStretch(front: seq<WaitOp>, ops: seq<WaitOp>, back: seq<WaitOp>, first: nat, second: nat)
    requires Before(IdsOf(ops), first, second)
    ensures Before(IdsOf(front + ops + back), first, second)
  {
    IdsAppend(front + ops, back);
    IdsAppend(front, ops);
    BeforeWithin(IdsOf(front), IdsOf(ops), IdsOf(back), first, second);
  }

  lemma BeforeAt(ops: seq<WaitOp>, i: nat, j: nat)
    requires i < j < |ops|
    ensures Before(IdsOf(ops), ops[i].id, ops[j].id)
  {
    assert IdsOf(ops)[i] == ops[i].id && IdsOf(ops)[j] == ops[j].id;
  }

  lemma OneTimerBefore(w: Waits<Timer>, order: seq<Timer>, i: nat, k: nat, l: nat)
    requires (forall j | 0 <= j < |order| :: order[j] in w) && i < |order| && k < l < |w[order[i]].ops|
    ensures Before(IdsOf(OpsOf(w, order)), w[order[i]].ops[k].id, w[order[i]].ops[l].id)
  {
    var before, after := OpsOfTimer(w, order, i);
    var all := before + w[order[i]].ops + after;
    assert all[|before| + k] == w[order[i]].ops[k] && all[|before| + l] == w[order[i]].ops[l];
    hide Before, IdsOf;
    BeforeAt(all, |before| + k, |before| + l);
  }

  lemma TwoTimersBefore(w: Waits<Timer>, order: seq<Timer>, i: nat, j: nat, k: nat, l: nat)
    requires (forall j | 0 <= j < |order| :: order[j] in w) && i < j < |order|
    requires k < |w[order[i]].ops| && l < |w[order[j]].ops|
    ensures Before(IdsOf(OpsOf(w, order)), w[order[i]].ops[k].id, w[order[j]].ops[l].id)
  {
    var before, after := OpsOfTimer(w, order, i);
    var ops, op := w[order[i]].ops, w[order[j]].ops[l];
    assert op in after;
    var x :| 0 <= x < |after| && after[x] == op;
    var all := before + ops + after;
    assert all[|before| + k] == ops[k] && all[|before| + |ops| + x] == after[x];
    hide Before, IdsOf;
    BeforeAt(all, |before| + k, |before| + |ops| + x);
  }

  lemma OpsBefore(w: Waits<Timer>, now: Time, order: seq<Timer>, t: Timer, k: nat, u: Timer, l: nat)
    requires DueOrder(w, now, order) && DueBefore(w, now, t, k, u, l)
    ensures (forall i | 0 <= i < |order| :: order[i] in w) && Before(IdsOf(OpsOf(w, order)), w[t].ops[k].id, w[u].ops[l].id)
  {
    hide Before, IdsOf;
    assert t in order && u in order;
    var i :| 0 <= i < |order| && order[i] == t;
    var j :| 0 <= j < |order| && order[j] == u;
    if t == u {
      OneTimerBefore(w, order, i, k, l);
    } else {
      assert i < j;
      TwoTimersBefore(w, order, i, j, k, l);
    }
  }

  lemma TakenBefore(queues: seq<Waits<Timer>>, nows: seq<Time>, orders: seq<seq<Timer>>, q: nat, t: Timer, k: nat, u: Timer, l: nat)
    requires DueOrders(queues, nows, orders) && Within(queues, orders) && q < |queues|
    requires DueBefore(queues[q], nows[q], t, k, u, l)
    ensures Before(IdsOf(Taken(queues, orders)), queues[q][t].ops[k].id, queues[q][u].ops[l].id)
  {
    OpsBefore(queues[q], nows[q], orders[q], t, k, u, l);
    var front, back := TakenOfQueue(queues, orders, q);
    var ops: seq<WaitOp> := OpsOf(queues[q], orders[q]);
    assert Before(IdsOf(ops), queues[q][t].ops[k].id, queues[q][u].ops[l].id);
    BeforeInStretch(front, ops, back, queues[q][t].ops[k].id, queues[q][u].ops[l].id);
  }

  lemma TakenHas(queues: seq<Waits<Timer>>, nows: seq<Time>, orders: seq<seq<Timer>>, q: nat, t: Timer, k: nat)
    requires DueOrders(queues, nows, orders) && Within(queues, orders) && q < |queues|
    requires Due(queues[q], nows[q], t) && k < |queues[q][t].ops|
    ensures queues[q][t].ops[k] in Taken(queues, orders)
  {
    assert t in orders[q];
    var i :| 0 <= i < |orders[q]| && orders[q][i] == t;
    OpsOfHasAll(queues[q], orders[q], i);
    var front, back := TakenOfQueue(queues, orders, q);
  }

  lemma PassIsCompleted(states: seq<State>, actions: seq<Action>, n: nat, m: nat)
    requires IsRun(states, actions) && n < m < |states| && actions[n].Pass? && states[m].thread == Waiting
    requires forall i | n <= i < m :: !GivesUp(actions[i])
    ensures Enabled(states[n], actions[n])
    ensures Released(states[n]) + Taken(states[n].queues, actions[n].orders) <= states[m].completed
  {
    WaitingMeansCompleted(states, actions, n, m);
    assert Enabled(states[n], actions[n]) && states[n + 1] == Apply(states[n], actions[n]);
    hide IsRun, Apply, Released;
    StepReleases(states[n], actions[n]);
  }

  /** A wait that is due at a drain has completed when the thread waits again,
      unless all was given up meanwhile. */
  lemma DueWaitsComplete(states: seq<State>, actions: seq<Action>, n: nat, m: nat, q: nat, t: Timer, k: nat)
    requires IsRun(states, actions) && n < m < |states| && actions[n].Pass? && states[m].thread == Waiting
    requires forall i | n <= i < m :: !GivesUp(actions[i])
    requires q < |states[n].queues| && q < |actions[n].nows|
    requires var w := states[n].queues[q];
             t in w && k < |w[t].ops| && w[t].expiry != MAX_TIME && w[t].expiry <= actions[n].nows[q]
    ensures Count(states[m].completed, states[n].queues[q][t].ops[k].id) == 1
  {
    var s, a, done := states[n], actions[n], states[m].completed;
    var op := s.queues[q][t].ops[k];
    PassIsCompleted(states, actions, n, m);
    TakenHas(s.queues, a.nows, a.orders, q, t, k);
    var taken := Taken(s.queues, a.orders);
    assert done[..|Released(s)| + |taken|] == Released(s) + taken;
    assert op in Released(s) + taken;
    var i :| 0 <= i < |done| && done[i] == op;
    CountOfMember(done, i);
    ExactlyOnce(states, actions, m, op.id);
  }

  /** And waits due at the same drain complete in order of expiry, and first come,
      first served on one timer. */
  lemma DueWaitsCompleteInOrder(states: seq<State>, actions: seq<Action>, n: nat, m: nat,
                                q: nat, t: Timer, k: nat, u: Timer, l: nat)
    requires IsRun(states, actions) && n < m < |states| && actions[n].Pass? && states[m].thread == Waiting
    requires forall i | n <= i < m :: !GivesUp(actions[i])
    requires q < |states[n].queues| && q < |actions[n].nows|
    requires DueBefore(states[n].queues[q], actions[n].nows[q], t, k, u, l)
    ensures Before(IdsOf(states[m].completed), states[n].queues[q][t].ops[k].id, states[n].queues[q][u].ops[l].id)
  {
    var s, a, done := states[n], actions[n], states[m].completed;
    var first, second := s.queues[q][t].ops[k].id, s.queues[q][u].ops[l].id;
    PassIsCompleted(states, actions, n, m);
    TakenBefore(s.queues, a.nows, a.orders, q, t, k, u, l);
    var taken := Taken(s.queues, a.orders);
    hide Before, IdsOf, Released, IsRun, Apply;
    var rest := done[|Released(s)| + |taken|..];
    assert done == Released(s) + taken + rest;
    BeforeInStretch(Released(s), taken, rest, first, second);
  }

  // ---- The end ----

  /** A shutdown leaves nobody waiting and nothing to complete. */
  lemma ShutdownGivesUpAll(states: seq<State>, actions: seq<Action>, n: nat)
    requires IsRun(states, actions) && n < |actions| && actions[n].Shutdown?
    ensures var s, s' := states[n], states[n + 1];
            && s'.ops == [] && s'.completed == s.completed && s'.thread == s.thread
            && forall q | 0 <= q < |s'.queues| :: s'.queues[q] == map[]
  {
    var s, a := states[n], actions[n];
    forall q | 0 <= q < |s.queues|
      ensures s.queues[q] - Members(a.listed[q]) == map[]
    {
      assert Lists(s.queues[q], a.listed[q]);
    }
  }

  /** The destructor gives up what the thread has left, and no wait on a timer. */
  lemma DestructGivesUpRest(states: seq<State>, actions: seq<Action>, n: nat)
    requires IsRun(states, actions) && n < |actions| && actions[n].Destruct?
    ensures var s, s' := states[n], states[n + 1];
            s'.ops == [] && s'.completed == s.completed && s'.queues == s.queues && s'.destroyed == s.destroyed + s.ops
  {
  }

  /** Once it was told to stop, the thread never drains again. */
  lemma {:induction false} StopsForGood(states: seq<State>, actions: seq<Action>, n: nat, m: nat)
    requires IsRun(states, actions) && n < m < |states| && actions[n].Stop?
    ensures states[m].stopped && (m < |actions| ==> !actions[m].Pass?)
    ensures states[m].thread == Waiting ==> Enabled(states[m], Leave)
    ensures m < |actions| && actions[m].Leave? ==> states[m + 1].thread == Exited
  {
    if m > n + 1 {
      StopsForGood(states, actions, n, m - 1);
    }
  }
}
