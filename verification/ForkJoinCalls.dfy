/** Whole calls on the fork/join pool: when a dispatched function is run by its
    caller, what it means that a join has returned, and when the pool is stopped. */
module ForkJoinCalls {
  import opened ForkJoin

  type Run = seq<System>
  type Actions = seq<Action>

  // ---- Dispatch ----

  /** A dispatch runs the function on the caller's thread exactly if more than 16
      functions per thread are queued, and otherwise queues it; never both. */
  lemma DispatchRunsInlineExactlyWhenLoaded(systems: Run, actions: Actions, threadCount: nat, n: nat)
    requires IsRun(systems, actions, threadCount) && n < |actions| && actions[n].Dispatch?
    ensures var s, s', a := systems[n], systems[n + 1], actions[n];
            if |s.shared.queue| > 16 * threadCount then
              StackOf(s', a.t) == StackOf(s, a.t) + [Executing(a.job)] && s'.shared.queue == s.shared.queue
            else
              s'.threads == s.threads && s'.shared.queue == s.shared.queue + [a.job]
  {
    ThreadCountIsFixed(systems, actions, threadCount, n);
  }

  lemma {:induction false} ThreadCountIsFixed(systems: Run, actions: Actions, threadCount: nat, n: nat)
    requires IsRun(systems, actions, threadCount) && n < |systems|
    ensures systems[n].shared.threadCount == threadCount
  {
    if n > 0 {
      ThreadCountIsFixed(systems, actions, threadCount, n - 1);
    }
  }

  /** So, without posts, the queue never holds more than one function beyond that. */
  lemma {:induction false} DispatchBoundsQueue(systems: Run, actions: Actions, threadCount: nat, n: nat)
    requires IsRun(systems, actions, threadCount) && n < |systems|
    requires forall k | 0 <= k < n :: !actions[k].Post?
    ensures |systems[n].shared.queue| <= 16 * threadCount + 1
  {
    if n > 0 {
      DispatchBoundsQueue(systems, actions, threadCount, n - 1);
      if actions[n - 1].Dispatch? {
        DispatchRunsInlineExactlyWhenLoaded(systems, actions, threadCount, n - 1);
      }
    }
  }

  // ---- Join ----

  /** The thread tests the loop condition of the join at this depth and finds its
      group idle. */
  ghost predicate FoundIdle(s: System, a: Action, t: Tid, depth: nat, g: Gid) {
    a == Poll(t) && |StackOf(s, t)| == depth + 1 && Idle(s, g)
  }

  lemma JoinEnters(s: System, t: Tid, g: Gid)
    requires Enabled(s, Join(t, g))
    ensures StackOf(Step(s, Join(t, g)), t) == StackOf(s, t) + [Joining(g)]
  {
  }

  lemma JoinFrameStaysStep(s: System, a: Action, t: Tid, depth: nat, g: Gid)
    requires Enabled(s, a) && depth < |StackOf(s, t)| && StackOf(s, t)[depth] == Joining(g)
    requires depth < |StackOf(Step(s, a), t)|
    ensures StackOf(Step(s, a), t)[depth] == Joining(g)
  {
    FramesBelowStay(s, a, t, depth);
    var stack, stack' := StackOf(s, t), StackOf(Step(s, a), t);
    hide Step, Enabled, ThrownOut;
    assert stack'[..depth + 1][depth] == stack[..depth + 1][depth];
  }

  lemma {:induction false} JoinFrameStays(systems: Run, actions: Actions, threadCount: nat, t: Tid, g: Gid, n: nat, m: nat)
    requires IsRun(systems, actions, threadCount) && n < m < |systems| && actions[n] == Join(t, g)
    requires forall k {:trigger systems[k]} | n < k <= m :: |StackOf(systems[k], t)| > |StackOf(systems[n], t)|
    ensures StackOf(systems[m], t)[|StackOf(systems[n], t)|] == Joining(g)
  {
    hide Step, Enabled, StackOf;
    var s, a, depth := systems[m - 1], actions[m - 1], |StackOf(systems[n], t)|;
    assert Enabled(s, a) && systems[m] == Step(s, a);
    assert |StackOf(systems[m], t)| > depth;
    if m == n + 1 {
      JoinEnters(s, t, g);
    } else {
      assert |StackOf(s, t)| > depth;
      JoinFrameStays(systems, actions, threadCount, t, g, n, m - 1);
      JoinFrameStaysStep(s, a, t, depth, g);
    }
  }

  /** A call of `join` that is over has found its group idle at some moment since
      it began, or was left by an exception of a function that it borrowed. */
  lemma JoinReturnedMeansIdleOrThrown(systems: Run, actions: Actions, threadCount: nat, t: Tid, g: Gid, n: nat, m: nat)
      returns (k: nat)
    requires IsRun(systems, actions, threadCount) && n < m < |systems| && actions[n] == Join(t, g)
    requires |StackOf(systems[m], t)| <= |StackOf(systems[n], t)|
    ensures n < k < m
    ensures var depth := |StackOf(systems[n], t)|;
            FoundIdle(systems[k], actions[k], t, depth, g) || ThrownOut(systems[k], actions[k], t, depth)
  {
    var depth := |StackOf(systems[n], t)|;
    assert Enabled(systems[n], Join(t, g)) && systems[n + 1] == Step(systems[n], Join(t, g));
    JoinEnters(systems[n], t, g);
    k := n + 1;
    while |StackOf(systems[k + 1], t)| > depth
      invariant n < k < m && forall i | n < i <= k :: |StackOf(systems[i], t)| > depth
      decreases m - k
    {
      k := k + 1;
    }
    JoinFrameStays(systems, actions, threadCount, t, g, n, k);
    JoinLeftExactlyWhen(systems, actions, threadCount, k, t, depth);
  }

  // ---- Stop ----

  lemma {:induction false} StoppedExactlyByStop(systems: Run, actions: Actions, threadCount: nat, n: nat)
    requires IsRun(systems, actions, threadCount) && n < |systems|
    ensures systems[n].stopped <==> StopThreads in actions[..n]
  {
    if n > 0 {
      StoppedExactlyByStop(systems, actions, threadCount, n - 1);
      assert actions[..n] == actions[..n - 1] + [actions[n - 1]];
    }
  }

  /** A pool thread leaves its loop exactly if the destructor has told it to stop
      and nothing of any group is queued, running or outstanding. */
  lemma LoopLeftExactlyAfterStop(systems: Run, actions: Actions, threadCount: nat, n: nat)
    requires IsRun(systems, actions, threadCount) && n < |actions|
    requires actions[n].Poll? && Top(StackOf(systems[n], actions[n].t)).PoolLoop?
    ensures var s, t := systems[n], actions[n].t;
            systems[n + 1].threads[t] == Drop(s.threads[t]) <==> StopThreads in actions[..n] && forall g: Gid :: Idle(s, g)
  {
    StoppedExactlyByStop(systems, actions, threadCount, n);
    LoopLeftExactlyWhenAllIdle(systems, actions, threadCount, n);
  }
}
