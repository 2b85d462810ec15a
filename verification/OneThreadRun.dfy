/** A scheduler that one thread runs, with a concurrency hint of one and no work
    from outside: whatever a handler posts or defers goes through the private
    queue of the running context, and yet `_Run` is a breadth-first worklist. */
module OneThreadRun {
  /** A handler and, in order, the handlers it posts or defers when it runs. */
  datatype Handler = Handler(id: nat, spawns: seq<Handler>)

  const SIZE_MAX: nat := 0xFFFF_FFFF_FFFF_FFFF

  /** How many handlers there are in a forest. */
  function Nodes(forest: seq<Handler>): nat {
    if forest == [] then 0 else 1 + Nodes(forest[0].spawns) + Nodes(forest[1..])
  }

  lemma {:induction false} NodesAppend(a: seq<Handler>, b: seq<Handler>)
    ensures Nodes(a + b) == Nodes(a) + Nodes(b)
  {
    if a == [] {
      assert a + b == b;
    } else {
      NodesAppend(a[1..], b);
      assert (a + b)[1..] == a[1..] + b;
    }
  }

  /** Run the first handler, put what it spawns at the back, and so on. */
  function Worklist(queue: seq<Handler>): seq<nat>
    decreases Nodes(queue)
  {
    if queue == [] then []
    else
      NodesAppend(queue[1..], queue[0].spawns);
      [queue[0].id] + Worklist(queue[1..] + queue[0].spawns)
  }

  class Scheduler {
    var queue: seq<Handler>
    var outstandingWork: int
    var stopped: bool

    // The one context: operations and work it has not published yet.
    var privateQueue: seq<Handler>
    var workDelta: int

    ghost var executed: seq<nat>

    constructor ()
      ensures queue == [] && outstandingWork == 0 && !stopped && NoContext() && executed == []
    {
      queue, outstandingWork, stopped := [], 0, false;
      privateQueue, workDelta := [], 0;
      executed := [];
    }

    predicate NoContext()
      reads this
    {
      privateQueue == [] && workDelta == 0
    }

    /** A post from a thread that is not running this scheduler. */
    method PostOutside(h: Handler)
      modifies this
      ensures queue == old(queue) + [h] && outstandingWork == old(outstandingWork) + 1
      ensures stopped == old(stopped) && executed == old(executed)
      ensures old(NoContext()) ==> NoContext()
    {
      outstandingWork := outstandingWork + 1;
      queue := queue + [h];
    }

    /** `_Post` and `_Defer` from inside a handler. */
    method PostInside(h: Handler)
      modifies this
      ensures privateQueue == old(privateQueue) + [h] && workDelta == old(workDelta) + 1
      ensures queue == old(queue) && outstandingWork == old(outstandingWork)
      ensures stopped == old(stopped) && executed == old(executed)
    {
      workDelta := workDelta + 1;
      privateQueue := privateQueue + [h];
    }

    method Complete(h: Handler)
      requires privateQueue == []
      modifies this
      ensures executed == old(executed) + [h.id]
      ensures privateQueue == h.spawns && workDelta == old(workDelta) + |h.spawns|
      ensures queue == old(queue) && outstandingWork == old(outstandingWork) && stopped == old(stopped)
    {
      executed := executed + [h.id];
      for i := 0 to |h.spawns|
        invariant executed == old(executed) + [h.id]
        invariant privateQueue == h.spawns[..i] && workDelta == old(workDelta) + i
        invariant queue == old(queue) && outstandingWork == old(outstandingWork) && stopped == old(stopped)
      {
        PostInside(h.spawns[i]);
      }
    }

    /** `_Context::_Lock`: settle the work, then publish the private queue. */
    method Lock()
      modifies this
      ensures NoContext() && queue == old(queue) + old(privateQueue) && executed == old(executed)
      ensures outstandingWork == old(outstandingWork) + old(workDelta)
      ensures stopped == (old(stopped) || (old(workDelta) != 0 && outstandingWork == 0))
    {
      if workDelta != 0 {
        outstandingWork := outstandingWork + workDelta;
        if outstandingWork == 0 {
          stopped := true;
        }
        workDelta := 0;
      }
      queue := queue + privateQueue;
      privateQueue := [];
    }

    /** `_Do_run_one`. It has to wait for another thread exactly if nothing is
        queued and it is not stopped, and then does nothing by itself. */
    method DoRunOne() returns (ran: nat, waits: bool)
      requires NoContext()
      modifies this
      ensures outstandingWork == old(outstandingWork) && stopped == old(stopped)
      ensures waits <==> old(queue) == [] && !old(stopped)
      ensures old(stopped) || waits ==> ran == 0 && queue == old(queue) && NoContext() && executed == old(executed)
      ensures !old(stopped) && !waits ==>
                && ran == 1 && queue == old(queue)[1..] && executed == old(executed) + [old(queue)[0].id]
                && privateQueue == old(queue)[0].spawns && workDelta == |old(queue)[0].spawns| - 1
    {
      if queue == [] && !stopped {
        return 0, true;
      }
      if stopped {
        return 0, false;
      }
      var op := queue[0];
      queue := queue[1..];
      workDelta := -1;
      Complete(op);
      ran, waits := 1, false;
    }

    /** From a state in which the only work is what is queued, `_Run` terminates
        without ever having to wait, has run the worklist of the queue, returns
        how many handlers that were, and leaves the scheduler stopped. If it was
        stopped already it does nothing. */
    method Run() returns (n: nat, waits: bool)
      requires outstandingWork == |queue| && NoContext()
      modifies this
      ensures !waits && stopped && NoContext() && outstandingWork == |queue|
      ensures old(stopped) ==> n == 0 && executed == old(executed) && queue == old(queue)
      ensures !old(stopped) ==>
                && executed == old(executed) + Worklist(old(queue)) && queue == []
                && n == if |Worklist(old(queue))| <= SIZE_MAX then |Worklist(old(queue))| else SIZE_MAX
    {
      n, waits := 0, false;
      if outstandingWork == 0 {
        stopped := true;
        return;
      }
      ghost var count := 0;
      while true
        invariant !waits && NoContext() && outstandingWork == |queue| && (stopped <==> queue == [] || old(stopped))
        invariant old(stopped) ==> n == 0 && executed == old(executed) && queue == old(queue)
        invariant executed + Worklist(queue) == old(executed) + Worklist(old(queue))
        invariant count + |Worklist(queue)| == |Worklist(old(queue))|
        invariant n == if count <= SIZE_MAX then count else SIZE_MAX
        decreases Nodes(queue), stopped
      {
        ghost var before := queue;
        var ran;
        ran, waits := DoRunOne();
        if ran == 0 {
          break;
        }
        if n != SIZE_MAX {
          n := n + 1;
        }
        count := count + 1;
        Lock();
        NodesAppend(before[1..], before[0].spawns);
        assert Worklist(before) == [before[0].id] + Worklist(queue);
      }
    }
  }

  // ---- What the worklist is ----

  function Ids(forest: seq<Handler>): seq<nat> {
    if forest == [] then [] else [forest[0].id] + Ids(forest[1..])
  }

  /** All handlers spawned by those of one level. */
  function Spawned(level: seq<Handler>): seq<Handler> {
    if level == [] then [] else level[0].spawns + Spawned(level[1..])
  }

  lemma {:induction false} SpawnedAreFewer(level: seq<Handler>)
    ensures Nodes(Spawned(level)) + |level| == Nodes(level)
  {
    if level != [] {
      SpawnedAreFewer(level[1..]);
      NodesAppend(level[0].spawns, Spawned(level[1..]));
    }
  }

  /** Level after level, each in spawn order. */
  function LevelOrder(level: seq<Handler>): seq<nat>
    decreases Nodes(level)
  {
    if level == [] then []
    else
      SpawnedAreFewer(level);
      Ids(level) + LevelOrder(Spawned(level))
  }

  lemma WorklistStep(queue: seq<Handler>)
    requires queue != []
    ensures Worklist(queue) == [queue[0].id] + Worklist(queue[1..] + queue[0].spawns)
  {
    NodesAppend(queue[1..], queue[0].spawns);
  }

  lemma {:induction false} WorklistFinishesLevel(level: seq<Handler>, next: seq<Handler>)
    ensures Worklist(level + next) == Ids(level) + Worklist(next + Spawned(level))
  {
    hide Worklist;
    if level == [] {
      assert level + next == next && next + Spawned(level) == next;
    } else {
      var next' := next + level[0].spawns;
      WorklistFinishesLevel(level[1..], next');
      assert (level + next)[0] == level[0] && (level + next)[1..] + level[0].spawns == level[1..] + next';
      assert next' + Spawned(level[1..]) == next + Spawned(level);
      WorklistStep(level + next);
    }
  }

  /** Handlers run breadth first. */
  lemma {:induction false} WorklistIsLevelOrder(level: seq<Handler>)
    ensures Worklist(level) == LevelOrder(level)
    decreases Nodes(level)
  {
    if level != [] {
      WorklistFinishesLevel(level, []);
      assert level + [] == level && [] + Spawned(level) == Spawned(level);
      SpawnedAreFewer(level);
      WorklistIsLevelOrder(Spawned(level));
    }
  }

  /** How many handlers of a forest are called `id`. */
  function Occurs(forest: seq<Handler>, id: nat): nat {
    if forest == [] then 0
    else (if forest[0].id == id then 1 else 0) + Occurs(forest[0].spawns, id) + Occurs(forest[1..], id)
  }

  function Times(log: seq<nat>, id: nat): nat {
    if log == [] then 0 else (if log[0] == id then 1 else 0) + Times(log[1..], id)
  }

  lemma {:induction false} OccursAppend(a: seq<Handler>, b: seq<Handler>, id: nat)
    ensures Occurs(a + b, id) == Occurs(a, id) + Occurs(b, id)
  {
    if a == [] {
      assert a + b == b;
    } else {
      OccursAppend(a[1..], b, id);
      assert (a + b)[1..] == a[1..] + b;
    }
  }

  /** Every handler of the forest is run, and run once. */
  lemma {:induction false} WorklistRunsEachOnce(queue: seq<Handler>, id: nat)
    ensures Times(Worklist(queue), id) == Occurs(queue, id)
    ensures |Worklist(queue)| == Nodes(queue)
    decreases Nodes(queue)
  {
    if queue != [] {
      NodesAppend(queue[1..], queue[0].spawns);
      WorklistRunsEachOnce(queue[1..] + queue[0].spawns, id);
      OccursAppend(queue[1..], queue[0].spawns, id);
      assert Worklist(queue)[1..] == Worklist(queue[1..] + queue[0].spawns);
    }
  }
}
