/** What a timer queue holds, as values: the meaning that the heap, the back
    indices and the linked list of `TimerQueues` implement, and the vocabulary
    in which the reactor is modelled. */
module TimerSpec {
  import opened Basics

  /** Ticks of a clock whose representation is a signed 64-bit integer. */
  const MIN_TIME: int := -0x8000_0000_0000_0000
  const MAX_TIME: int := 0x7FFF_FFFF_FFFF_FFFF

  type Time = t: int | MIN_TIME <= t <= MAX_TIME

  datatype Error = Success | Canceled

  /** An asynchronous wait. `ec` is what its handler will be given. */
  datatype WaitOp = WaitOp(id: nat, ec: Error)

  /** An active timer: when it expires (MAX_TIME means never) and who waits. */
  datatype Wait = Wait(expiry: Time, ops: seq<WaitOp>)

  type Waits<T> = map<T, Wait>

  function Enqueued<T(==)>(w: Waits<T>, timer: T, expiry: Time, op: WaitOp): Waits<T> {
    var e := if timer in w then w[timer] else Wait(expiry, []);
    w[timer := e.(ops := e.ops + [op])]
  }

  /** How many waits a cancel limited to `max` removes. */
  function CancelCount<T(==)>(w: Waits<T>, timer: T, max: nat): nat {
    if timer !in w then 0 else if |w[timer].ops| <= max then |w[timer].ops| else max
  }

  function AfterCancel<T(==)>(w: Waits<T>, timer: T, max: nat): Waits<T> {
    var k := CancelCount(w, timer, max);
    if timer !in w then w
    else if k == |w[timer].ops| then w - {timer}
    else w[timer := w[timer].(ops := w[timer].ops[k..])]
  }

  /** The waits a cancel hands over: the oldest ones, marked as cancelled. */
  function CanceledOps<T(==)>(w: Waits<T>, timer: T, max: nat): seq<WaitOp> {
    if timer in w then MarkCanceled(w[timer].ops[..CancelCount(w, timer, max)]) else []
  }

  /** What a cancel limited to `max` does to the waits of a timer: the oldest are
      appended to `ops`, marked as cancelled; at most `max` of them, and fewer only
      if none is left; and whether there were any is reported. */
  predicate CancelsOldest(before: seq<WaitOp>, after: seq<WaitOp>, ops: seq<WaitOp>, out: seq<WaitOp>, max: nat, any: bool) {
    var k := |out| - |ops|;
    && 0 <= k <= |before| && k <= max && (k < max ==> after == []) && after == before[k..]
    && out[..|ops|] == ops && (forall i | 0 <= i < k :: out[|ops| + i] == WaitOp(before[i].id, Canceled))
    && (any <==> k != 0)
  }

  /** The waits of a timer are what is left of them, and all else is as it was. */
  ghost predicate OnlyOpsChanged<T>(w: Waits<T>, w': Waits<T>, timer: T, left: seq<WaitOp>) {
    && (timer in w' <==> left != []) && w' - {timer} == w - {timer}
    && (timer in w' ==> timer in w && w'[timer] == Wait(w[timer].expiry, left))
  }

  lemma CancelTakesWaits<T>(w: Waits<T>, timer: T, max: nat)
    requires timer in w && w[timer].ops != []
    ensures var ops, k := w[timer].ops, if |w[timer].ops| <= max then |w[timer].ops| else max;
            && AfterCancel(w, timer, max)
               == (if ops[k..] == [] then w - {timer} else w[timer := w[timer].(ops := ops[k..])])
            && CanceledOps(w, timer, max) == MarkCanceled(ops[..k]) && CancelCount(w, timer, max) == k
            && OnlyOpsChanged(w, AfterCancel(w, timer, max), timer, ops[k..])
  {
  }

  lemma CancelTakesNothing<T>(w: Waits<T>, timer: T, max: nat)
    requires timer !in w
    ensures AfterCancel(w, timer, max) == w && CanceledOps(w, timer, max) == [] && CancelCount(w, timer, max) == 0
    ensures OnlyOpsChanged(w, w, timer, [])
  {
  }

  lemma CancelsNothing(ops: seq<WaitOp>, max: nat)
    ensures CancelsOldest([], [], ops, ops, max, false)
  {
  }

  function MarkCanceled(ops: seq<WaitOp>): seq<WaitOp> {
    seq(|ops|, i requires 0 <= i < |ops| => ops[i].(ec := Canceled))
  }

  /** The waits of the given timers, timer by timer, oldest first in each. */
  function OpsOf<T(==)>(w: Waits<T>, timers: seq<T>): seq<WaitOp>
    requires forall i | 0 <= i < |timers| :: timers[i] in w
  {
    if timers == [] then [] else OpsOf(w, timers[..|timers| - 1]) + w[timers[|timers| - 1]].ops
  }

  /** What this order is: those of earlier timers before those of later ones. */
  lemma {:induction false} OpsOfInOrder<T>(w: Waits<T>, earlier: seq<T>, later: seq<T>)
    requires forall i | 0 <= i < |earlier| :: earlier[i] in w
    requires forall i | 0 <= i < |later| :: later[i] in w
    ensures forall i | 0 <= i < |earlier + later| :: (earlier + later)[i] in w
    ensures OpsOf(w, earlier + later) == OpsOf(w, earlier) + OpsOf(w, later)
  {
    if later == [] {
      assert earlier + later == earlier;
    } else {
      var last, both := |later| - 1, earlier + later;
      var ops := w[later[last]].ops;
      OpsOfInOrder(w, earlier, later[..last]);
      assert both[..|both| - 1] == earlier + later[..last] && both[|both| - 1] == later[last];
      var a, b := OpsOf(w, earlier), OpsOf(w, later[..last]);
      assert OpsOf(w, both) == a + b + ops && OpsOf(w, later) == b + ops;
      Regroup(a, b, ops);
    }
  }

  /** And the waits of one timer as they are. */
  lemma OpsOfOne<T>(w: Waits<T>, t: T)
    requires t in w
    ensures OpsOf(w, [t]) == w[t].ops
  {
    assert [t][..0] == [];
  }

  lemma NobodyYet<T>(w: Waits<T>)
    ensures OpsOf(w, []) == []
  {
  }

  /** A timer that expires, and has by `now`. */
  ghost predicate Due<T>(w: Waits<T>, now: Time, t: T) {
    t in w && w[t].expiry != MAX_TIME && w[t].expiry <= now
  }

  /** `order` lists exactly the timers due at `now`, each once, earliest first. */
  ghost predicate DueOrder<T>(w: Waits<T>, now: Time, order: seq<T>) {
    && (forall i, j | 0 <= i < j < |order| :: order[i] != order[j])
    && (forall t | t in w :: t in order <==> Due(w, now, t))
    && (forall t | t in order :: t in w)
    && (forall i, j | 0 <= i < j < |order| :: w[order[i]].expiry <= w[order[j]].expiry)
  }

  /** `listed` names every active timer once. */
  ghost predicate Lists<T>(w: Waits<T>, listed: seq<T>) {
    && (forall i | 0 <= i < |listed| :: listed[i] in w)
    && (forall i, j | 0 <= i < j < |listed| :: listed[i] != listed[j])
    && (forall t | t in w :: t in listed)
  }

  function Members<T(==)>(s: seq<T>): set<T> {
    set t | t in s
  }

  /** Part of the way through a drain of `w0`: the timers in `order` are gone,
      and what is left in `w` expires no earlier than any of them. */
  ghost predicate Draining<T>(w0: Waits<T>, w: Waits<T>, now: Time, order: seq<T>) {
    && (forall i | 0 <= i < |order| :: Due(w0, now, order[i]))
    && w == w0 - Members(order)
    && (forall i, j | 0 <= i < j < |order| :: order[i] != order[j])
    && (forall i, j | 0 <= i < j < |order| :: w0[order[i]].expiry <= w0[order[j]].expiry)
    && (forall i, t | 0 <= i < |order| && t in w :: w0[order[i]].expiry <= w[t].expiry)
  }

  lemma DrainStart<T>(w: Waits<T>, now: Time)
    ensures Draining(w, w, now, [])
  {
    assert w - Members([]) == w;
  }

  lemma DrainStep<T>(w0: Waits<T>, w: Waits<T>, now: Time, order: seq<T>, next: T)
    requires Draining(w0, w, now, order) && Due(w, now, next)
    requires forall t | t in w :: w[next].expiry <= w[t].expiry
    ensures Draining(w0, w - {next}, now, order + [next]) && next in w0 && w0[next] == w[next]
  {
    var order' := order + [next];
    assert Members(order') == Members(order) + {next};
    forall i | 0 <= i < |order|
      ensures Due(w0, now, order'[i]) && order'[i] != next && w0[order'[i]].expiry <= w0[next].expiry
    {
      assert order'[i] == order[i] && order[i] in Members(order);
    }
  }

  lemma OpsOfStep<T>(w: Waits<T>, prefix: seq<WaitOp>, order: seq<T>, next: T)
    requires (forall i | 0 <= i < |order| :: order[i] in w) && next in w
    ensures forall i | 0 <= i < |order + [next]| :: (order + [next])[i] in w
    ensures prefix + OpsOf(w, order + [next]) == prefix + OpsOf(w, order) + w[next].ops
  {
    assert (order + [next])[..|order|] == order;
  }

  lemma DrainDone<T>(w0: Waits<T>, w: Waits<T>, now: Time, order: seq<T>)
    requires Draining(w0, w, now, order) && forall t | t in w :: !Due(w, now, t)
    ensures DueOrder(w0, now, order) && w == w0 - Members(order)
    ensures forall t | t in w0 && t !in w :: w0[t].expiry != MAX_TIME && w0[t].expiry <= now
  {
    forall t | t in w0
      ensures t in order <==> Due(w0, now, t)
    {
      assert t in w <==> t !in Members(order);
    }
  }

  // ---- Several queues, visited one after the other ----

  /** Orders of expiry for all queues at the given clock readings. */
  ghost predicate DueOrders<T>(queues: seq<Waits<T>>, nows: seq<Time>, orders: seq<seq<T>>) {
    && |nows| == |orders| == |queues|
    && forall q | 0 <= q < |queues| :: DueOrder(queues[q], nows[q], orders[q])
  }

  /** Whoever still waits does so on a timer that expires later, or never. */
  ghost predicate NothingDue<T>(w: Waits<T>, now: Time) {
    forall t | t in w :: w[t].expiry == MAX_TIME || now < w[t].expiry
  }

  ghost predicate Within<T>(queues: seq<Waits<T>>, orders: seq<seq<T>>) {
    && |orders| == |queues|
    && (forall q | 0 <= q < |queues| :: forall i | 0 <= i < |orders[q]| :: orders[q][i] in queues[q])
    && (forall q | 0 <= q < |queues| :: forall i, j | 0 <= i < j < |orders[q]| :: orders[q][i] != orders[q][j])
  }

  /** What is left of the queues, and what was taken, queue after queue. */
  function Left<T(==)>(queues: seq<Waits<T>>, orders: seq<seq<T>>): seq<Waits<T>>
    requires |orders| == |queues|
  {
    seq(|queues|, q requires 0 <= q < |queues| => queues[q] - Members(orders[q]))
  }

  ghost function Taken<T>(queues: seq<Waits<T>>, orders: seq<seq<T>>): seq<WaitOp>
    requires Within(queues, orders)
  {
    if queues == [] then []
    else
      var n := |queues| - 1;
      Taken(queues[..n], orders[..n]) + OpsOf(queues[n], orders[n])
  }

  lemma PassLeavesNothingDue<T>(queues: seq<Waits<T>>, nows: seq<Time>, orders: seq<seq<T>>)
    requires DueOrders(queues, nows, orders)
    ensures forall q | 0 <= q < |queues| :: NothingDue(Left(queues, orders)[q], nows[q])
  {
    forall q, t | 0 <= q < |queues| && t in Left(queues, orders)[q]
      ensures queues[q][t].expiry == MAX_TIME || nows[q] < queues[q][t].expiry
    {
      assert t in queues[q] && t !in orders[q];
    }
  }

  /** What was taken of a later queue comes after everything taken before. */
  lemma TakenInOrder<T>(queues: seq<Waits<T>>, orders: seq<seq<T>>, w: Waits<T>, order: seq<T>)
    requires Within(queues, orders) && Within(queues + [w], orders + [order])
    ensures forall i | 0 <= i < |order| :: order[i] in w
    ensures Taken(queues + [w], orders + [order]) == Taken(queues, orders) + OpsOf(w, order)
    ensures queues == [] ==> Taken(queues, orders) == []
  {
    assert (queues + [w])[|queues|] == w && (orders + [order])[|queues|] == order;
    assert (queues + [w])[..|queues|] == queues && (orders + [order])[..|queues|] == orders;
  }

  ghost predicate ListsAll<T>(queues: seq<Waits<T>>, listed: seq<seq<T>>) {
    |listed| == |queues| && forall q | 0 <= q < |queues| :: Lists(queues[q], listed[q])
  }

  // ---- No wait is lost or duplicated ----

  /** How often operation `id` occurs. */
  function Count(ops: seq<WaitOp>, id: nat): nat {
    if ops == [] then 0 else Count(ops[..|ops| - 1], id) + if ops[|ops| - 1].id == id then 1 else 0
  }

  /** How often operation `id` waits, whichever timers it waits on. */
  ghost function CountIn<T(!new)>(w: Waits<T>, id: nat): nat {
    if w == map[] then 0
    else var t :| t in w; Count(w[t].ops, id) + CountIn(w - {t}, id)
  }

  lemma {:induction false} CountAppend(a: seq<WaitOp>, b: seq<WaitOp>, id: nat)
    ensures Count(a + b, id) == Count(a, id) + Count(b, id)
  {
    if b == [] {
      assert a + b == a;
    } else {
      CountAppend(a, b[..|b| - 1], id);
      assert (a + b)[..|a + b| - 1] == a + b[..|b| - 1];
    }
  }

  lemma {:induction false} CountMarked(ops: seq<WaitOp>, id: nat)
    ensures Count(MarkCanceled(ops), id) == Count(ops, id)
  {
    if ops != [] {
      CountMarked(ops[..|ops| - 1], id);
      assert MarkCanceled(ops)[..|ops| - 1] == MarkCanceled(ops[..|ops| - 1]);
    }
  }

  lemma {:induction false} CountWithout<T(!new)>(w: Waits<T>, t: T, id: nat)
    requires t in w
    ensures CountIn(w, id) == Count(w[t].ops, id) + CountIn(w - {t}, id)
    decreases w.Keys
  {
    var u :| u in w && CountIn(w, id) == Count(w[u].ops, id) + CountIn(w - {u}, id);
    if u != t {
      CountWithout(w - {u}, t, id);
      CountWithout(w - {t}, u, id);
      assert w - {u} - {t} == w - {t} - {u};
    }
  }

  lemma EnqueueConserves<T(!new)>(w: Waits<T>, timer: T, expiry: Time, op: WaitOp, id: nat)
    ensures CountIn(Enqueued(w, timer, expiry, op), id) == CountIn(w, id) + if op.id == id then 1 else 0
  {
    var w' := Enqueued(w, timer, expiry, op);
    CountWithout(w', timer, id);
    assert w' - {timer} == w - {timer};
    if timer in w {
      CountWithout(w, timer, id);
    } else {
      assert w - {timer} == w;
    }
  }

  lemma CancelConserves<T(!new)>(w: Waits<T>, timer: T, max: nat, id: nat)
    ensures CountIn(w, id) == CountIn(AfterCancel(w, timer, max), id) + Count(CanceledOps(w, timer, max), id)
  {
    if timer in w {
      var k := CancelCount(w, timer, max);
      var w' := AfterCancel(w, timer, max);
      CountWithout(w, timer, id);
      CountMarked(w[timer].ops[..k], id);
      CountAppend(w[timer].ops[..k], w[timer].ops[k..], id);
      assert w[timer].ops == w[timer].ops[..k] + w[timer].ops[k..];
      if timer in w' {
        CountWithout(w', timer, id);
        assert w' - {timer} == w - {timer};
      }
    }
  }

  lemma {:induction false} RemovalConserves<T(!new)>(w: Waits<T>, order: seq<T>, id: nat)
    requires forall i | 0 <= i < |order| :: order[i] in w
    requires forall i, j | 0 <= i < j < |order| :: order[i] != order[j]
    ensures CountIn(w, id) == CountIn(w - Members(order), id) + Count(OpsOf(w, order), id)
  {
    if order == [] {
      assert w - Members(order) == w;
    } else {
      var most, last := order[..|order| - 1], order[|order| - 1];
      RemovalConserves(w, most, id);
      CountWithout(w - Members(most), last, id);
      assert w - Members(most) - {last} == w - Members(order);
      CountAppend(OpsOf(w, most), w[last].ops, id);
    }
  }
}
