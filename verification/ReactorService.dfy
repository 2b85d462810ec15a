/** The reactor's own fields and what it does to them while it holds its mutex.
    Each method is one locked region; `Reactor` interleaves them. */
module ReactorService {
  import opened Durations
  import opened TimerSpec
  import opened TimerQueues

  /** The first `i` queues of a pass have been drained. */
  ghost predicate PassSoFar<T>(views: seq<Waits<T>>, nows: seq<Time>, orders: seq<seq<T>>, i: nat) {
    && i <= |views| == |nows|
    && DueOrders(views[..i], nows[..i], orders) && Within(views[..i], orders)
  }

  ghost function LeftSoFar<T>(views: seq<Waits<T>>, orders: seq<seq<T>>, i: nat): seq<Waits<T>>
    requires i <= |views| && |orders| == i
  {
    Left(views[..i], orders) + views[i..]
  }

  lemma PassStart<T>(views: seq<Waits<T>>, nows: seq<Time>)
    requires |views| == |nows|
    ensures PassSoFar(views, nows, [], 0) && LeftSoFar(views, [], 0) == views
    ensures Within(views[..0], []) && Taken<T>(views[..0], []) == []
  {
  }

  lemma PassEnd<T>(views: seq<Waits<T>>, nows: seq<Time>, orders: seq<seq<T>>)
    requires PassSoFar(views, nows, orders, |views|)
    ensures DueOrders(views, nows, orders) && Within(views, orders) && LeftSoFar(views, orders, |views|) == Left(views, orders)
    ensures Taken(views[..|views|], orders) == Taken(views, orders)
  {
    assert views[..|views|] == views && nows[..|views|] == nows;
  }

  lemma NotYetDrained<T>(views: seq<Waits<T>>, orders: seq<seq<T>>, i: nat)
    requires i < |views| && |orders| == i
    ensures LeftSoFar(views, orders, i)[i] == views[i]
  {
  }

  lemma PassStep<T>(views: seq<Waits<T>>, nows: seq<Time>, orders: seq<seq<T>>, i: nat, order: seq<T>)
    requires PassSoFar(views, nows, orders, i) && i < |views| && DueOrder(views[i], nows[i], order)
    ensures PassSoFar(views, nows, orders + [order], i + 1)
    ensures LeftSoFar(views, orders + [order], i + 1)
            == LeftSoFar(views, orders, i)[i := LeftSoFar(views, orders, i)[i] - Members(order)]
    ensures forall j | 0 <= j < |order| :: order[j] in views[i]
  {
  }

  lemma TakenStep<T>(views: seq<Waits<T>>, orders: seq<seq<T>>, i: nat, order: seq<T>)
    requires i < |views| && Within(views[..i], orders) && Within(views[..i + 1], orders + [order])
    requires forall j | 0 <= j < |order| :: order[j] in views[i]
    ensures Taken(views[..i + 1], orders + [order]) == Taken(views[..i], orders) + OpsOf(views[i], order)
  {
    assert views[..i + 1][..i] == views[..i] && (orders + [order])[..i] == orders;
  }

  lemma ListStart<T>(views: seq<Waits<T>>)
    ensures Within(views[..0], []) && LeftSoFar(views, [], 0) == views && Taken<T>(views[..0], []) == []
  {
  }

  lemma ListStep<T>(views: seq<Waits<T>>, listed: seq<seq<T>>, i: nat, names: seq<T>)
    requires i < |views| && |listed| == i && Within(views[..i], listed) && Lists(views[i], names)
    ensures Within(views[..i + 1], listed + [names])
    ensures LeftSoFar(views, listed + [names], i + 1) == LeftSoFar(views, listed, i)[i := map[]]
    ensures forall j | 0 <= j < |names| :: names[j] in views[i]
  {
    assert views[i] - Members(names) == map[];
  }

  lemma ListEnd<T>(views: seq<Waits<T>>, listed: seq<seq<T>>)
    requires |listed| == |views| && Within(views[..|views|], listed)
    ensures Within(views, listed) && LeftSoFar(views, listed, |views|) == Left(views, listed)
    ensures Taken(views[..|views|], listed) == Taken(views, listed)
  {
    assert views[..|views|] == views;
  }

  ghost function ViewsOf(queues: seq<TimerQueue>): seq<Waits<PerTimerData>>
    reads queues
  {
    seq(|queues|, i requires 0 <= i < |queues| reads queues => queues[i].waits)
  }

  class ReactorService {
    var queues: seq<TimerQueue>
    var ops: seq<WaitOp>
    var stopped: bool

    constructor ()
      ensures Valid() && queues == [] && ops == [] && !stopped
    {
      queues, ops, stopped := [], [], false;
    }

    ghost function Timers(): set<PerTimerData>
      reads `queues, queues
    {
      set q, t | q in queues && t in q.registered :: t
    }

    /** The queues are in order and share neither each other nor a timer. */
    ghost predicate Valid()
      reads `queues, queues, Timers()
    {
      && (forall i | 0 <= i < |queues| :: queues[i].Valid())
      && (forall i, j | 0 <= i < j < |queues| :: queues[i] != queues[j] && queues[i].registered !! queues[j].registered)
    }

    ghost function Views(): seq<Waits<PerTimerData>>
      reads `queues, queues
    {
      ViewsOf(queues)
    }

    method GetReadyTimersOf(i: nat, q: TimerQueue, now: Time) returns (ghost order: seq<PerTimerData>)
      requires Valid() && i < |queues| && q == queues[i]
      modifies `ops, q`heap, q`expiries, q`timers, q`stamps, q`waits, q.registered
      ensures Valid() && DueOrder(old(Views())[i], now, order)
      ensures Views() == old(Views())[i := old(Views())[i] - Members(order)]
      ensures ops == old(ops) + OpsOf(old(Views())[i], order)
    {
      hide TimerQueue.Valid, OpsOf;
      ops, order := q.GetReadyTimers(now, ops);
    }

    method AddTimerQueue(q: TimerQueue)
      requires Valid() && q.Valid() && q !in queues && q.registered !! Timers()
      modifies `queues
      ensures Valid() && queues == [q] + old(queues)
    {
      queues := [q] + queues;
    }

    method EnqueueTimer(i: nat, q: TimerQueue, t: Time, timer: PerTimerData, op: WaitOp) returns (notify: bool)
      requires Valid() && i < |queues| && q == queues[i] && timer in q.registered && op !in timer.ops
      requires |q.heap| + 1 < NO_INDEX
      modifies q, q.registered
      ensures Valid() && Views() == old(Views())[i := Enqueued(old(Views())[i], timer, t, op)]
      ensures notify <==> q.Earliest() < old(q.Earliest())
    {
      hide TimerQueue.Valid;
      notify := q.EnqueueTimer(t, timer, op);
    }

    method CancelTimer(i: nat, q: TimerQueue, timer: PerTimerData, max: nat) returns (notify: bool)
      requires Valid() && i < |queues| && q == queues[i] && timer in q.registered
      modifies `ops, q`heap, q`expiries, q`timers, q`stamps, q`waits
      modifies q.registered
      ensures Valid() && Views() == old(Views())[i := AfterCancel(old(Views())[i], timer, max)]
      ensures ops == old(ops) + CanceledOps(old(Views())[i], timer, max)
      ensures notify <==> CancelCount(old(Views())[i], timer, max) != 0
      ensures CancelsOldest(old(timer.ops), timer.ops, old(ops), ops, max, notify)
    {
      hide TimerQueue.Valid, CancelsOldest;
      ops, notify := q.CancelTimer(timer, ops, max);
    }

    /** Drain every queue, each at its own clock's reading. */
    method GetReadyTimers(nows: seq<Time>) returns (ghost orders: seq<seq<PerTimerData>>)
      requires Valid() && |nows| == |queues|
      modifies `ops, queues, Timers()
      ensures Valid() && queues == old(queues)
      ensures DueOrders(old(Views()), nows, orders) && Within(old(Views()), orders)
      ensures Views() == Left(old(Views()), orders)
      ensures ops == old(ops) + Taken(old(Views()), orders)
      ensures forall q | 0 <= q < |queues| :: NothingDue(Views()[q], nows[q])
    {
      hide Valid, DueOrders, DueOrder, Within, Left, LeftSoFar, Taken;
      orders := [];
      ghost var views := Views();
      PassStart(views, nows);
      for i := 0 to |queues|
        invariant Valid() && queues == old(queues)
        invariant forall j | 0 <= j < |queues| :: queues[j].registered == old(queues[j].registered)
        invariant |orders| == i && PassSoFar(views, nows, orders, i) && Views() == LeftSoFar(views, orders, i)
        invariant ops == old(ops) + Taken(views[..i], orders)
      {
        NotYetDrained(views, orders, i);
        ghost var order := GetReadyTimersOf(i, queues[i], nows[i]);
        PassStep(views, nows, orders, i, order);
        TakenStep(views, orders, i, order);
        orders := orders + [order];
      }
      PassEnd(views, nows, orders);
      PassLeavesNothingDue(views, nows, orders);
    }

    method GetAllTimersOf(i: nat, q: TimerQueue, sofar: seq<WaitOp>) returns (all: seq<WaitOp>, ghost listed: seq<PerTimerData>)
      requires Valid() && i < |queues| && q == queues[i]
      modifies q`heap, q`expiries, q`timers, q`stamps, q`waits, q.registered
      ensures Valid() && Lists(old(Views())[i], listed)
      ensures Views() == old(Views())[i := map[]]
      ensures all == sofar + OpsOf(old(Views())[i], listed)
    {
      hide TimerQueue.Valid, TimerQueue.ListFrom, OpsOf;
      all, listed := q.GetAllTimers(sofar);
    }

    method TakeOps() returns (taken: seq<WaitOp>)
      requires Valid()
      modifies `ops
      ensures Valid() && Views() == old(Views()) && taken == old(ops) && ops == []
    {
      taken, ops := ops, [];
    }

    /** Give up every wait: the queues are emptied, and what they and `ops`
        held is returned to be destroyed. */
    method ShutdownService() returns (destroyed: seq<WaitOp>, ghost listed: seq<seq<PerTimerData>>)
      requires Valid()
      modifies `ops, queues, Timers()
      ensures Valid() && queues == old(queues) && ops == []
      ensures ListsAll(old(Views()), listed) && Within(old(Views()), listed)
      ensures Views() == Left(old(Views()), listed)
      ensures destroyed == Taken(old(Views()), listed) + old(ops)
    {
      hide Valid, Lists, Within, Left, LeftSoFar, Taken;
      destroyed, listed := [], [];
      ghost var views := Views();
      ListStart(views);
      for i := 0 to |queues|
        invariant Valid() && queues == old(queues) && ops == old(ops)
        invariant forall j | 0 <= j < |queues| :: queues[j].registered == old(queues[j].registered)
        invariant |listed| == i && Within(views[..i], listed) && Views() == LeftSoFar(views, listed, i)
        invariant forall j | 0 <= j < i :: Lists(views[j], listed[j])
        invariant destroyed == Taken(views[..i], listed)
      {
        NotYetDrained(views, listed, i);
        ghost var names;
        destroyed, names := GetAllTimersOf(i, queues[i], destroyed);
        ListStep(views, listed, i, names);
        TakenStep(views, listed, i, names);
        listed := listed + [names];
      }
      ListEnd(views, listed);
      var pending := TakeOps();
      destroyed := destroyed + pending;
    }

    /** The locked part of the destructor: the thread leaves its loop when it
        tests this next, and what still waits is not touched. */
    method Stop()
      modifies `stopped
      ensures stopped && (old(Valid()) ==> Valid())
    {
      stopped := true;
    }

    /** Take the operation to run next, if there is one. */
    method PopOrWait() returns (op: seq<WaitOp>)
      modifies `ops
      ensures op + ops == old(ops) && |op| == if old(ops) == [] then 0 else 1
    {
      op := [];
      if ops != [] {
        op, ops := [ops[0]], ops[1..];
      }
    }

    /** How long the reactor may sleep: until the earliest expiry of any queue,
        but no longer than `max`. */
    method WaitDuration(nows: seq<Ticks>, max: Ticks) returns (d: Ticks)
      requires Valid() && |nows| == |queues|
      ensures d <= max && forall i | 0 <= i < |queues| :: NoLater(queues[i].waits, nows[i], d)
      ensures d == max || exists i | 0 <= i < |queues| :: Attained(queues[i].waits, nows[i], d)
    {
      d := max;
      for i := 0 to |queues|
        invariant d <= max && forall j | 0 <= j < i :: NoLater(queues[j].waits, nows[j], d)
        invariant d == max || exists j | 0 <= j < i :: Attained(queues[j].waits, nows[j], d)
      {
        var next := queues[i].WaitDuration(nows[i], d);
        assert forall j | 0 <= j < i :: NoLater(queues[j].waits, nows[j], d) ==> NoLater(queues[j].waits, nows[j], next);
        d := next;
      }
    }
  }
}
