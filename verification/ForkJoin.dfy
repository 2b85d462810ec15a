/** The fork/join pool: groups of functions, run by pool threads and by threads
    that are borrowed while they wait for a group. Every locked region is one
    step; functions run between steps, and may post, dispatch and join again. */
module ForkJoin {
  import opened Basics

  type Tid = nat
  type Gid = nat

  datatype Job = Job(id: nat, group: Gid)

  /** What the mutex protects. The counters are those of the code; whether they
      can go below zero is to be proved. */
  datatype Shared = Shared(threadCount: nat, queue: seq<Job>, useCount: int, work: seq<int>)

  /** What a thread is in the middle of, innermost last.
      - `PoolLoop`, `Joining`: about to test the condition of its loop;
      - `Executing`: inside a function;
      - `Finishing`: the function has returned or thrown, its work is still counted. */
  datatype Frame =
    | PoolLoop
    | Joining(group: Gid)
    | Executing(job: Job)
    | Finishing(job: Job, throws: bool)

  type Stack = seq<Frame>

  /** `external` counts, for each group, the calls of on_work_started that have
      not been matched by on_work_finished yet. */
  datatype System = System(shared: Shared, stopped: bool, threads: seq<Stack>, external: seq<nat>)

  datatype Action =
    | NewThread
    | NewGroup
    | EnterPool(t: Tid)
    | WorkStarted(g: Gid)
    | WorkFinished(g: Gid)
    | Post(t: Tid, job: Job)
    | Dispatch(t: Tid, job: Job)
    | Join(t: Tid, g: Gid)
    | Poll(t: Tid)
    | Return(t: Tid, throws: bool)
    | Finish(t: Tid)
    | StopThreads

  function Start(threadCount: nat): System {
    System(Shared(threadCount, [], 1, []), false, [], [])
  }

  // ---- Under the lock ----

  function Started(p: Shared, g: Gid): Shared
    requires g < |p.work|
  {
    p.(work := p.work[g := p.work[g] + 1], useCount := if p.work[g] + 1 == 1 then p.useCount + 1 else p.useCount)
  }

  function Finished(p: Shared, g: Gid): Shared
    requires g < |p.work|
  {
    p.(work := p.work[g := p.work[g] - 1], useCount := if p.work[g] - 1 == 0 then p.useCount - 1 else p.useCount)
  }

  function Pushed(p: Shared, job: Job): Shared
    requires job.group < |p.work|
  {
    Started(p.(queue := p.queue + [job]), job.group)
  }

  predicate Loaded(p: Shared) {
    |p.queue| > p.threadCount * 16
  }

  // ---- Threads ----

  function StackOf(s: System, t: Tid): Stack {
    if t < |s.threads| then s.threads[t] else []
  }

  function Top(stack: Stack): Frame
    requires stack != []
  {
    stack[|stack| - 1]
  }

  function Drop(stack: Stack): Stack
    requires stack != []
  {
    stack[..|stack| - 1]
  }

  predicate UserCode(stack: Stack) {
    stack == [] || Top(stack).Executing?
  }

  /** An exception that reaches the loop of a pool thread ends the program. */
  predicate Survives(stack: Stack)
    requires stack != [] && Top(stack).Finishing?
  {
    Top(stack).throws ==> Drop(stack) == [] || !Top(Drop(stack)).PoolLoop?
  }

  predicate Enabled(s: System, a: Action) {
    match a
    case NewThread => true
    case NewGroup => true
    case EnterPool(t) => t < |s.threads| && s.threads[t] == []
    case WorkStarted(g) => g < |s.external| && g < |s.shared.work|
    case WorkFinished(g) => g < |s.external| && g < |s.shared.work| && s.external[g] > 0
    case Post(t, job) => t < |s.threads| && UserCode(s.threads[t]) && job.group < |s.shared.work|
    case Dispatch(t, job) => t < |s.threads| && UserCode(s.threads[t]) && job.group < |s.shared.work|
    case Join(t, g) => t < |s.threads| && UserCode(s.threads[t]) && g < |s.shared.work|
    case Poll(t) =>
      var stack := StackOf(s, t);
      stack != [] && (Top(stack).PoolLoop? || (Top(stack).Joining? && Top(stack).group < |s.shared.work|))
    case Return(t, throws) => StackOf(s, t) != [] && Top(StackOf(s, t)).Executing?
    case Finish(t) =>
      var stack := StackOf(s, t);
      stack != [] && Top(stack).Finishing? && Top(stack).job.group < |s.shared.work| && Survives(stack)
    case StopThreads => !s.stopped
  }

  /** The condition of the loop that the thread is in. */
  predicate GoesOn(s: System, loop: Frame)
    requires loop.PoolLoop? || (loop.Joining? && loop.group < |s.shared.work|)
  {
    if loop.PoolLoop? then s.shared.useCount > 0 else s.shared.work[loop.group] > 0
  }

  function With(s: System, t: Tid, stack: Stack): System
    requires t < |s.threads|
  {
    s.(threads := s.threads[t := stack])
  }

  function Step(s: System, a: Action): System
    requires Enabled(s, a)
  {
    match a
    case NewThread => s.(threads := s.threads + [[]])
    case NewGroup => s.(shared := s.shared.(work := s.shared.work + [0]), external := s.external + [0])
    case EnterPool(t) => With(s, t, [PoolLoop])
    case WorkStarted(g) => s.(shared := Started(s.shared, g), external := s.external[g := s.external[g] + 1])
    case WorkFinished(g) => s.(shared := Finished(s.shared, g), external := s.external[g := s.external[g] - 1])
    case Post(t, job) => s.(shared := Pushed(s.shared, job))
    case Dispatch(t, job) =>
      if Loaded(s.shared) then With(s.(shared := Started(s.shared, job.group)), t, s.threads[t] + [Executing(job)])
      else s.(shared := Pushed(s.shared, job))
    case Join(t, g) => With(s, t, s.threads[t] + [Joining(g)])
    case Poll(t) =>
      var stack := s.threads[t];
      if !GoesOn(s, Top(stack)) then With(s, t, Drop(stack))
      else if s.shared.queue == [] then s
      else With(s.(shared := s.shared.(queue := s.shared.queue[1..])), t, stack + [Executing(s.shared.queue[0])])
    case Return(t, throws) =>
      With(s, t, Drop(s.threads[t]) + [Finishing(Top(s.threads[t]).job, throws)])
    case Finish(t) =>
      var stack := Drop(s.threads[t]);
      var unwound := if Top(s.threads[t]).throws && stack != [] && Top(stack).Joining? then Drop(stack) else stack;
      With(s.(shared := Finished(s.shared, Top(s.threads[t]).job.group)), t, unwound)
    case StopThreads => s.(shared := s.shared.(useCount := s.shared.useCount - 1), stopped := true)
  }

  // ---- Accounting ----

  function Queued(queue: seq<Job>, g: Gid): nat {
    if queue == [] then 0 else (if queue[0].group == g then 1 else 0) + Queued(queue[1..], g)
  }

  predicate Runs(f: Frame, g: Gid) {
    (f.Executing? || f.Finishing?) && f.job.group == g
  }

  function RunningIn(stack: Stack, g: Gid): nat {
    if stack == [] then 0 else RunningIn(Drop(stack), g) + if Runs(Top(stack), g) then 1 else 0
  }

  function Running(threads: seq<Stack>, g: Gid): nat {
    if threads == [] then 0
    else Running(threads[..|threads| - 1], g) + RunningIn(threads[|threads| - 1], g)
  }

  function NonZero(work: seq<int>): nat {
    if work == [] then 0 else NonZero(work[..|work| - 1]) + if work[|work| - 1] != 0 then 1 else 0
  }

  function WorkOf(p: Shared, g: Gid): int {
    if g < |p.work| then p.work[g] else 0
  }

  function ExternalOf(s: System, g: Gid): nat {
    if g < |s.external| then s.external[g] else 0
  }

  /** The work count of a group is its external work, plus what is queued and
      what is running of it. */
  predicate GroupOk(s: System, g: Gid) {
    WorkOf(s.shared, g) == ExternalOf(s, g) + Queued(s.shared.queue, g) + Running(s.threads, g)
  }

  predicate UseOk(s: System) {
    s.shared.useCount == (if s.stopped then 0 else 1) + NonZero(s.shared.work)
  }

  ghost predicate Inv(s: System) {
    UseOk(s) && |s.external| == |s.shared.work| && forall g :: GroupOk(s, g)
  }

  lemma {:induction false} RunningAfter(threads: seq<Stack>, t: Tid, stack: Stack, g: Gid)
    requires t < |threads|
    ensures Running(threads[t := stack], g) == Running(threads, g) - RunningIn(threads[t], g) + RunningIn(stack, g)
    ensures RunningIn(threads[t], g) <= Running(threads, g)
  {
    var n := |threads| - 1;
    if t == n {
      assert threads[t := stack][..n] == threads[..n];
    } else {
      RunningAfter(threads[..n], t, stack, g);
      assert threads[t := stack][..n] == threads[..n][t := stack];
    }
  }

  lemma {:induction false} NonZeroAfter(work: seq<int>, g: Gid, w: int)
    requires g < |work|
    ensures NonZero(work[g := w]) == NonZero(work) - (if work[g] != 0 then 1 else 0) + if w != 0 then 1 else 0
  {
    var n := |work| - 1;
    if g == n {
      assert work[g := w][..n] == work[..n];
    } else {
      NonZeroAfter(work[..n], g, w);
      assert work[g := w][..n] == work[..n][g := w];
    }
  }

  lemma {:induction false} QueuedAppend(queue: seq<Job>, job: Job, g: Gid)
    ensures Queued(queue + [job], g) == Queued(queue, g) + if job.group == g then 1 else 0
  {
    if queue == [] {
      assert queue + [job] == [job];
    } else {
      assert (queue + [job])[1..] == queue[1..] + [job];
      QueuedAppend(queue[1..], job, g);
    }
  }

  lemma RunningPush(stack: Stack, f: Frame, g: Gid)
    ensures RunningIn(stack + [f], g) == RunningIn(stack, g) + if Runs(f, g) then 1 else 0
  {
    assert Drop(stack + [f]) == stack;
  }

  /** What a step does to the stack of the thread that takes it. */
  function Acting(a: Action): Tid {
    match a
    case EnterPool(t) => t
    case Post(t, _) => t
    case Dispatch(t, _) => t
    case Join(t, _) => t
    case Poll(t) => t
    case Return(t, _) => t
    case Finish(t) => t
    case _ => 0
  }

  predicate ByThread(a: Action) {
    a.EnterPool? || a.Post? || a.Dispatch? || a.Join? || a.Poll? || a.Return? || a.Finish?
  }

  /** For one group, a step of a thread adds to the count what it adds to the
      queue and to the thread's own stack. */
  ghost predicate Balances(s: System, a: Action, g: Gid)
    requires Enabled(s, a) && ByThread(a)
  {
    var s', t := Step(s, a), Acting(a);
    && s'.threads == s.threads[t := s'.threads[t]] && s'.external == s.external && |s'.shared.work| == |s.shared.work|
    && WorkOf(s'.shared, g) - WorkOf(s.shared, g)
       == Queued(s'.shared.queue, g) - Queued(s.shared.queue, g)
          + RunningIn(s'.threads[t], g) - RunningIn(s.threads[t], g)
  }

  lemma SubmissionBalances(s: System, a: Action, g: Gid)
    requires Enabled(s, a) && (a.Post? || a.Dispatch?)
    ensures Balances(s, a, g)
  {
    QueuedAppend(s.shared.queue, a.job, g);
    RunningPush(s.threads[a.t], Executing(a.job), g);
  }

  lemma LoopEntryBalances(s: System, a: Action, g: Gid)
    requires Enabled(s, a) && (a.EnterPool? || a.Join?)
    ensures Balances(s, a, g)
  {
    if a.EnterPool? {
      RunningPush([], PoolLoop, g);
      assert [] + [PoolLoop] == [PoolLoop];
    } else {
      RunningPush(s.threads[a.t], Joining(a.g), g);
    }
  }

  lemma PollBalances(s: System, a: Action, g: Gid)
    requires Enabled(s, a) && a.Poll?
    ensures Balances(s, a, g)
  {
    if s.shared.queue != [] {
      RunningPush(s.threads[a.t], Executing(s.shared.queue[0]), g);
    }
  }

  lemma EndingBalances(s: System, a: Action, g: Gid)
    requires Enabled(s, a) && (a.Return? || a.Finish?)
    ensures Balances(s, a, g)
  {
    var stack := s.threads[a.t];
    if a.Return? {
      RunningPush(Drop(stack), Finishing(Top(stack).job, a.throws), g);
    }
  }

  lemma GroupKept(s: System, a: Action, g: Gid)
    requires Inv(s) && Enabled(s, a)
    ensures GroupOk(Step(s, a), g)
  {
    assert GroupOk(s, g);
    if ByThread(a) {
      if a.Post? || a.Dispatch? {
        SubmissionBalances(s, a, g);
      } else if a.Return? || a.Finish? {
        EndingBalances(s, a, g);
      } else if a.Poll? {
        PollBalances(s, a, g);
      } else {
        LoopEntryBalances(s, a, g);
      }
      hide Step, Enabled;
      RunningAfter(s.threads, Acting(a), Step(s, a).threads[Acting(a)], g);
    } else if a.NewThread? {
      var empty: Stack := [];
      assert (s.threads + [empty])[..|s.threads|] == s.threads;
    }
  }

  /** What the pool counts beyond the busy groups. */
  function Beyond(p: Shared): int {
    p.useCount - NonZero(p.work)
  }

  lemma StartedKeepsUse(p: Shared, g: Gid)
    requires g < |p.work| && p.work[g] >= 0
    ensures Beyond(Started(p, g)) == Beyond(p)
  {
    NonZeroAfter(p.work, g, p.work[g] + 1);
  }

  lemma FinishedKeepsUse(p: Shared, g: Gid)
    requires g < |p.work| && p.work[g] > 0
    ensures Beyond(Finished(p, g)) == Beyond(p)
  {
    NonZeroAfter(p.work, g, p.work[g] - 1);
  }

  /** The use count follows the groups that become busy or idle; for that, no
      count may pass zero. */
  lemma UseKept(s: System, a: Action)
    requires Inv(s) && Enabled(s, a)
    ensures UseOk(Step(s, a))
  {
    assert Beyond(s.shared) == if s.stopped then 0 else 1;
    match a
    case WorkStarted(g) => NonNegative(s, g); StartedKeepsUse(s.shared, g);
    case WorkFinished(g) => assert GroupOk(s, g); FinishedKeepsUse(s.shared, g);
    case Post(t, job) => NonNegative(s, job.group); StartedKeepsUse(s.shared.(queue := s.shared.queue + [job]), job.group);
    case Dispatch(t, job) =>
      NonNegative(s, job.group);
      StartedKeepsUse(s.shared, job.group);
      StartedKeepsUse(s.shared.(queue := s.shared.queue + [job]), job.group);
    case Finish(t) =>
      var g := Top(s.threads[t]).job.group;
      RunningAfter(s.threads, t, s.threads[t], g);
      assert GroupOk(s, g);
      FinishedKeepsUse(s.shared, g);
    case NewGroup => assert (s.shared.work + [0])[..|s.shared.work|] == s.shared.work;
    case _ =>
  }

  lemma NonNegative(s: System, g: Gid)
    requires Inv(s)
    ensures WorkOf(s.shared, g) >= 0
  {
    assert GroupOk(s, g);
  }

  lemma StepKeepsInv(s: System, a: Action)
    requires Inv(s) && Enabled(s, a)
    ensures Inv(Step(s, a))
  {
    forall g
      ensures GroupOk(Step(s, a), g)
    {
      GroupKept(s, a, g);
    }
    UseKept(s, a);
  }

  // ---- Whole runs ----

  ghost predicate IsRun(systems: seq<System>, actions: seq<Action>, threadCount: nat) {
    && |systems| == |actions| + 1 && systems[0] == Start(threadCount)
    && forall n | 0 <= n < |actions| ::
         Enabled(systems[n], actions[n]) && systems[n + 1] == Step(systems[n], actions[n])
  }

  lemma {:induction false} RunKeepsInv(systems: seq<System>, actions: seq<Action>, threadCount: nat, n: nat)
    requires IsRun(systems, actions, threadCount) && n < |systems|
    ensures Inv(systems[n])
  {
    if n > 0 {
      RunKeepsInv(systems, actions, threadCount, n - 1);
      StepKeepsInv(systems[n - 1], actions[n - 1]);
    }
  }

  /** In every run, a group's count is what is left of it to do, the use count
      is the pool itself plus the busy groups, and no counter goes below zero. */
  lemma Accounting(systems: seq<System>, actions: seq<Action>, threadCount: nat, n: nat, g: Gid)
    requires IsRun(systems, actions, threadCount) && n < |systems| && g < |systems[n].shared.work|
    ensures var s := systems[n];
            && |s.external| == |s.shared.work|
            && s.shared.work[g] == s.external[g] + Queued(s.shared.queue, g) + Running(s.threads, g)
            && s.shared.useCount == (if s.stopped then 0 else 1) + NonZero(s.shared.work)
            && s.shared.work[g] >= 0 && s.shared.useCount >= 0
  {
    RunKeepsInv(systems, actions, threadCount, n);
    assert GroupOk(systems[n], g);
  }

  /** Nothing of a group is queued, running, or promised by external work. */
  ghost predicate Idle(s: System, g: Gid) {
    && (forall i | 0 <= i < |s.shared.queue| :: s.shared.queue[i].group != g)
    && (forall t, i | 0 <= t < |s.threads| && 0 <= i < |s.threads[t]| :: !Runs(s.threads[t][i], g))
    && ExternalOf(s, g) == 0
  }

  lemma {:induction false} NoneQueued(queue: seq<Job>, g: Gid, i: nat)
    requires Queued(queue, g) == 0 && i < |queue|
    ensures queue[i].group != g
  {
    if i > 0 {
      NoneQueued(queue[1..], g, i - 1);
    }
  }

  lemma {:induction false} NoneRunningIn(stack: Stack, g: Gid, i: nat)
    requires RunningIn(stack, g) == 0 && i < |stack|
    ensures !Runs(stack[i], g)
  {
    if i < |stack| - 1 {
      NoneRunningIn(Drop(stack), g, i);
    }
  }

  lemma IdleWhenZero(s: System, g: Gid)
    requires Inv(s) && WorkOf(s.shared, g) == 0
    ensures Idle(s, g)
  {
    assert GroupOk(s, g);
    forall i | 0 <= i < |s.shared.queue|
      ensures s.shared.queue[i].group != g
    {
      NoneQueued(s.shared.queue, g, i);
    }
    forall t, i | 0 <= t < |s.threads| && 0 <= i < |s.threads[t]|
      ensures !Runs(s.threads[t][i], g)
    {
      RunningAfter(s.threads, t, s.threads[t], g);
      NoneRunningIn(s.threads[t], g, i);
    }
  }

  /** The loop test of `join` ends it, in any run, exactly when nothing of the
      group is queued, running on any thread, or outstanding outside the pool.
      `JoinLeftExactlyWhen` adds the other way out. */
  lemma JoinReturnsExactlyWhenIdle(systems: seq<System>, actions: seq<Action>, threadCount: nat, n: nat)
    requires IsRun(systems, actions, threadCount) && n < |actions|
    requires actions[n].Poll? && Top(StackOf(systems[n], actions[n].t)).Joining?
    ensures var s, t := systems[n], actions[n].t;
            var g := Top(s.threads[t]).group;
            systems[n + 1].threads[t] == Drop(s.threads[t]) <==> Idle(s, g)
  {
    var s, t := systems[n], actions[n].t;
    var g := Top(s.threads[t]).group;
    RunKeepsInv(systems, actions, threadCount, n);
    NonNegative(s, g);
    if WorkOf(s.shared, g) == 0 {
      IdleWhenZero(s, g);
    } else if Idle(s, g) {
      assert GroupOk(s, g);
      IdleMeansZero(s.shared.queue, s.threads, g);
    }
  }

  lemma {:induction false} IdleMeansZero(queue: seq<Job>, threads: seq<Stack>, g: Gid)
    requires forall i | 0 <= i < |queue| :: queue[i].group != g
    requires forall t, i | 0 <= t < |threads| && 0 <= i < |threads[t]| :: !Runs(threads[t][i], g)
    ensures Queued(queue, g) == 0 && Running(threads, g) == 0
    decreases |queue| + |threads|
  {
    if queue != [] {
      IdleMeansZero(queue[1..], threads, g);
    } else if threads != [] {
      var n := |threads| - 1;
      NoneRuns(threads[n], g);
      IdleMeansZero(queue, threads[..n], g);
    }
  }

  lemma {:induction false} NoneRuns(stack: Stack, g: Gid)
    requires forall i | 0 <= i < |stack| :: !Runs(stack[i], g)
    ensures RunningIn(stack, g) == 0
  {
    if stack != [] {
      NoneRuns(Drop(stack), g);
    }
  }

  /** An exception of a function that a join at this depth borrowed leaves the
      join. */
  predicate ThrownOut(s: System, a: Action, t: Tid, depth: nat) {
    var stack := StackOf(s, t);
    a == Finish(t) && |stack| == depth + 2 && stack[depth + 1].Finishing? && stack[depth + 1].throws
  }

  /** A step leaves all frames below the innermost one of the thread alone, but
      for a join directly below a function that ends with an exception. */
  lemma FramesBelowStay(s: System, a: Action, t: Tid, depth: nat)
    requires Enabled(s, a) && depth < |StackOf(s, t)| && StackOf(s, t)[depth].Joining?
    ensures var stack, stack' := StackOf(s, t), StackOf(Step(s, a), t);
            if |stack'| <= depth then
              stack' == stack[..depth] && (a == Poll(t) || ThrownOut(s, a, t, depth)) && (a == Poll(t) ==> |stack| == depth + 1)
            else
              stack'[..depth + 1] == stack[..depth + 1] && !ThrownOut(s, a, t, depth)
  {
  }

  /** A thread gets out of `join`, in any run, exactly in two ways: the loop test
      finds the group idle, or a function that it borrowed throws. */
  lemma JoinLeftExactlyWhen(systems: seq<System>, actions: seq<Action>, threadCount: nat, n: nat, t: Tid, depth: nat)
    requires IsRun(systems, actions, threadCount) && n < |actions|
    requires depth < |StackOf(systems[n], t)| && StackOf(systems[n], t)[depth].Joining?
    ensures var s, a, stack := systems[n], actions[n], StackOf(systems[n], t);
            |StackOf(systems[n + 1], t)| <= depth
            <==> (a == Poll(t) && |stack| == depth + 1 && Idle(s, stack[depth].group)) || ThrownOut(s, a, t, depth)
  {
    var s, a, stack := systems[n], actions[n], StackOf(systems[n], t);
    assert Enabled(s, a) && systems[n + 1] == Step(s, a);
    FramesBelowStay(s, a, t, depth);
    if a == Poll(t) && |stack| == depth + 1 {
      JoinReturnsExactlyWhenIdle(systems, actions, threadCount, n);
      assert StackOf(systems[n + 1], t) == systems[n + 1].threads[t];
    }
  }

  /** A function of a group joins its own group: the join's frame is above one
      that runs the group, on the same stack. */
  predicate JoinsOwnGroup(stack: Stack, depth: nat, below: nat) {
    below < depth < |stack| && stack[depth].Joining? && Runs(stack[below], stack[depth].group)
  }

  ghost predicate StaysInJoin(systems: seq<System>, t: Tid, depth: nat, m: nat, n: nat)
    requires m <= n < |systems|
  {
    forall k | m <= k <= n :: depth < |StackOf(systems[k], t)|
  }

  lemma SamePrefixJoins(stack: Stack, stack': Stack, depth: nat, below: nat)
    requires JoinsOwnGroup(stack, depth, below) && depth < |stack'| && stack'[..depth + 1] == stack[..depth + 1]
    ensures JoinsOwnGroup(stack', depth, below)
  {
    assert stack'[below] == stack[..depth + 1][below] && stack'[depth] == stack[..depth + 1][depth];
  }

  lemma OwnGroupIsBusy(s: System, t: Tid, depth: nat, below: nat)
    requires JoinsOwnGroup(StackOf(s, t), depth, below)
    ensures !Idle(s, StackOf(s, t)[depth].group)
  {
    assert Runs(s.threads[t][below], s.threads[t][depth].group);
  }

  lemma OwnGroupJoinKeepsStep(systems: seq<System>, actions: seq<Action>, threadCount: nat,
                              t: Tid, depth: nat, below: nat, n: nat)
    requires IsRun(systems, actions, threadCount) && n < |actions|
    requires JoinsOwnGroup(StackOf(systems[n], t), depth, below) && !ThrownOut(systems[n], actions[n], t, depth)
    ensures depth < |StackOf(systems[n + 1], t)|
    ensures StackOf(systems[n + 1], t)[..depth + 1] == StackOf(systems[n], t)[..depth + 1]
  {
    OwnGroupIsBusy(systems[n], t, depth, below);
    FramesBelowStay(systems[n], actions[n], t, depth);
    JoinLeftExactlyWhen(systems, actions, threadCount, n, t, depth);
    hide Step, Enabled, Idle, ThrownOut;
  }

  lemma {:induction false} OwnGroupJoinKeepsFrames(systems: seq<System>, actions: seq<Action>, threadCount: nat,
                                                   t: Tid, depth: nat, below: nat, m: nat, n: nat)
    requires IsRun(systems, actions, threadCount) && m <= n < |systems|
    requires JoinsOwnGroup(StackOf(systems[m], t), depth, below)
    requires forall k | m <= k < n :: !ThrownOut(systems[k], actions[k], t, depth)
    ensures JoinsOwnGroup(StackOf(systems[n], t), depth, below)
    ensures StackOf(systems[n], t)[..depth + 1] == StackOf(systems[m], t)[..depth + 1]
  {
    hide IsRun, ThrownOut, StackOf;
    if n > m {
      OwnGroupJoinKeepsFrames(systems, actions, threadCount, t, depth, below, m, n - 1);
      RunLength(systems, actions, threadCount);
      OwnGroupJoinKeepsStep(systems, actions, threadCount, t, depth, below, n - 1);
      SamePrefixJoins(StackOf(systems[m], t), StackOf(systems[n], t), depth, below);
    }
  }

  lemma RunLength(systems: seq<System>, actions: seq<Action>, threadCount: nat)
    requires IsRun(systems, actions, threadCount)
    ensures |systems| == |actions| + 1
  {
  }

  /** From any moment in a run at which a function joins its own group: the thread
      stays in that join for ever, unless and until a function that the join
      borrowed throws. In particular the join never returns normally. */
  lemma OwnGroupJoinEndsOnlyByException(systems: seq<System>, actions: seq<Action>, threadCount: nat,
                                        t: Tid, depth: nat, below: nat, m: nat, n: nat)
    requires IsRun(systems, actions, threadCount) && m <= n < |systems|
    requires JoinsOwnGroup(StackOf(systems[m], t), depth, below)
    ensures StaysInJoin(systems, t, depth, m, n) <==> forall k | m <= k < n :: !ThrownOut(systems[k], actions[k], t, depth)
  {
    if forall k | m <= k < n :: !ThrownOut(systems[k], actions[k], t, depth) {
      forall k | m <= k <= n
        ensures depth < |StackOf(systems[k], t)|
      {
        OwnGroupJoinKeepsFrames(systems, actions, threadCount, t, depth, below, m, k);
      }
    } else {
      var k := FirstThrownOut(systems, actions, t, depth, m, n);
      OwnGroupJoinKeepsFrames(systems, actions, threadCount, t, depth, below, m, k);
      assert StackOf(systems[k], t)[depth] == StackOf(systems[m], t)[..depth + 1][depth];
      JoinLeftExactlyWhen(systems, actions, threadCount, k, t, depth);
      assert m <= k + 1 <= n;
    }
  }

  lemma {:induction false} FirstThrownOut(systems: seq<System>, actions: seq<Action>, t: Tid, depth: nat, m: nat, n: nat)
      returns (first: nat)
    requires n <= |actions| && n < |systems| && exists k | m <= k < n :: ThrownOut(systems[k], actions[k], t, depth)
    ensures m <= first < n && ThrownOut(systems[first], actions[first], t, depth)
    ensures forall k | m <= k < first :: !ThrownOut(systems[k], actions[k], t, depth)
  {
    first := m;
    while !ThrownOut(systems[first], actions[first], t, depth)
      invariant m <= first < n && forall k | m <= k < first :: !ThrownOut(systems[k], actions[k], t, depth)
      decreases n - first
    {
      first := first + 1;
    }
  }

  const OUTER := Job(0, 0)
  const INNER := Job(1, 0)

  // The systems of a run of one thread; the numbers are those of the steps.
  const S1 := System(Shared(1, [], 1, []), false, [[]], [])
  const S2 := System(Shared(1, [], 1, [0]), false, [[]], [0])
  const S3 := System(Shared(1, [OUTER], 2, [1]), false, [[]], [0])
  const S4 := System(Shared(1, [OUTER], 2, [1]), false, [[PoolLoop]], [0])
  const S5 := System(Shared(1, [], 2, [1]), false, [[PoolLoop, Executing(OUTER)]], [0])
  const S6 := System(Shared(1, [INNER], 2, [2]), false, [[PoolLoop, Executing(OUTER)]], [0])
  const S7 := System(Shared(1, [INNER], 2, [2]), false, [[PoolLoop, Executing(OUTER), Joining(0)]], [0])
  const S8 := System(Shared(1, [], 2, [2]), false, [[PoolLoop, Executing(OUTER), Joining(0), Executing(INNER)]], [0])
  const S9 := System(Shared(1, [], 2, [2]), false, [[PoolLoop, Executing(OUTER), Joining(0), Finishing(INNER, true)]], [0])
  const S10 := System(Shared(1, [], 2, [1]), false, [[PoolLoop, Executing(OUTER)]], [0])

  predicate Leads(s: System, a: Action, s': System) {
    Enabled(s, a) && Step(s, a) == s'
  }

  lemma PostingSteps()
    ensures Leads(Start(1), NewThread, S1) && Leads(S1, NewGroup, S2) && Leads(S2, Post(0, OUTER), S3)
  {
  }

  lemma PollingSteps()
    ensures Leads(S3, EnterPool(0), S4) && Leads(S4, Poll(0), S5) && Leads(S5, Post(0, INNER), S6)
  {
    assert [PoolLoop] + [Executing(OUTER)] == [PoolLoop, Executing(OUTER)] && [OUTER][1..] == [];
  }

  lemma JoiningSteps()
    ensures Leads(S6, Join(0, 0), S7) && Leads(S7, Poll(0), S8)
  {
    assert S6.threads[0] + [Joining(0)] == S7.threads[0] && S7.threads[0] + [Executing(INNER)] == S8.threads[0];
    assert [INNER][1..] == [];
  }

  lemma ThrowingSteps()
    ensures Leads(S8, Return(0, true), S9) && Leads(S9, Finish(0), S10)
  {
    assert Drop(S8.threads[0]) + [Finishing(INNER, true)] == S9.threads[0];
    assert Drop(S9.threads[0]) == S7.threads[0] && Drop(S7.threads[0]) == S10.threads[0];
  }

  lemma Extend(systems: seq<System>, actions: seq<Action>, a: Action, s: System, s': System)
    requires IsRun(systems, actions, 1) && systems[|actions|] == s && Leads(s, a, s')
    ensures IsRun(systems + [s'], actions + [a], 1) && (systems + [s'])[|actions| + 1] == s'
  {
  }

  lemma ThrowingRun() returns (systems: seq<System>, actions: seq<Action>)
    ensures IsRun(systems, actions, 1) && |actions| == 9 && systems[9] == S9
  {
    systems, actions := [Start(1)], [];
    assert IsRun(systems, actions, 1);
    hide IsRun, Leads, Start;
    PostingSteps();
    Extend(systems, actions, NewThread, Start(1), S1);
    systems, actions := systems + [S1], actions + [NewThread];
    Extend(systems, actions, NewGroup, S1, S2);
    systems, actions := systems + [S2], actions + [NewGroup];
    Extend(systems, actions, Post(0, OUTER), S2, S3);
    systems, actions := systems + [S3], actions + [Post(0, OUTER)];
    PollingSteps();
    Extend(systems, actions, EnterPool(0), S3, S4);
    systems, actions := systems + [S4], actions + [EnterPool(0)];
    Extend(systems, actions, Poll(0), S4, S5);
    systems, actions := systems + [S5], actions + [Poll(0)];
    Extend(systems, actions, Post(0, INNER), S5, S6);
    systems, actions := systems + [S6], actions + [Post(0, INNER)];
    JoiningSteps();
    Extend(systems, actions, Join(0, 0), S6, S7);
    systems, actions := systems + [S7], actions + [Join(0, 0)];
    Extend(systems, actions, Poll(0), S7, S8);
    systems, actions := systems + [S8], actions + [Poll(0)];
    ThrowingSteps();
    Extend(systems, actions, Return(0, true), S8, S9);
    systems, actions := systems + [S9], actions + [Return(0, true)];
  }

  /** A run in which a function posts another of its group and joins the group;
      the join borrows its thread for the other function, which throws. */
  lemma OwnGroupJoinLeftByException() returns (systems: seq<System>, actions: seq<Action>, throw: Action)
    ensures IsRun(systems, actions, 1) && Enabled(systems[|actions|], throw)
    ensures var s, s' := systems[|actions|], Step(systems[|actions|], throw);
            && JoinsOwnGroup(StackOf(s, 0), 2, 1) && ThrownOut(s, throw, 0, 2)
            && StackOf(s', 0) == [PoolLoop, Executing(OUTER)] && !Idle(s', 0)
  {
    systems, actions := ThrowingRun();
    throw := Finish(0);
    ThrowingSteps();
    assert Runs(S10.threads[0][1], 0);
    hide IsRun, Step, Enabled;
  }

  /** A thread that is borrowed by a join waits only when the queue is empty, so
      that what it waits for is already running or outside the pool. */
  lemma JoinWaitsOnlyForOthers(systems: seq<System>, actions: seq<Action>, threadCount: nat, n: nat)
    requires IsRun(systems, actions, threadCount) && n < |actions|
    requires actions[n].Poll? && Top(StackOf(systems[n], actions[n].t)).Joining?
    requires systems[n + 1] == systems[n]
    ensures var s := systems[n]; var g := Top(s.threads[actions[n].t]).group;
            s.shared.queue == [] && ExternalOf(s, g) + Running(s.threads, g) > 0
  {
    var s, t := systems[n], actions[n].t;
    RunKeepsInv(systems, actions, threadCount, n);
    assert GroupOk(s, Top(s.threads[t]).group);
    assert |systems[n + 1].threads[t]| == |s.threads[t]|;
  }

  /** A pool thread leaves its loop, in any run, exactly when the pool was told
      to stop and nothing of any group is queued, running or outstanding. */
  lemma LoopLeftExactlyWhenAllIdle(systems: seq<System>, actions: seq<Action>, threadCount: nat, n: nat)
    requires IsRun(systems, actions, threadCount) && n < |actions|
    requires actions[n].Poll? && Top(StackOf(systems[n], actions[n].t)).PoolLoop?
    ensures var s, t := systems[n], actions[n].t;
            systems[n + 1].threads[t] == Drop(s.threads[t]) <==> s.stopped && forall g: Gid :: Idle(s, g)
    ensures var s, t := systems[n], actions[n].t;
            systems[n + 1].threads[t] == Drop(s.threads[t]) ==> s.shared.queue == []
  {
    var s, t := systems[n], actions[n].t;
    RunKeepsInv(systems, actions, threadCount, n);
    if s.shared.useCount <= 0 {
      forall g: Gid
        ensures Idle(s, g)
      {
        if g < |s.shared.work| {
          ZeroWork(s.shared.work, g);
        }
        IdleWhenZero(s, g);
      }
      assert s.shared.queue == [] || Idle(s, s.shared.queue[0].group);
    } else if forall g: Gid :: Idle(s, g) {
      forall g | 0 <= g < |s.shared.work|
        ensures s.shared.work[g] == 0
      {
        assert Idle(s, g) && GroupOk(s, g);
        IdleMeansZero(s.shared.queue, s.threads, g);
      }
      AllZero(s.shared.work);
    }
  }

  lemma {:induction false} AllZero(work: seq<int>)
    requires forall g | 0 <= g < |work| :: work[g] == 0
    ensures NonZero(work) == 0
  {
    if work != [] {
      AllZero(work[..|work| - 1]);
    }
  }

  lemma {:induction false} ZeroWork(work: seq<int>, g: Gid)
    requires NonZero(work) == 0 && g < |work|
    ensures work[g] == 0
  {
    if g < |work| - 1 {
      ZeroWork(work[..|work| - 1], g);
    }
  }

  // ---- First in, first out ----

  /** What all steps up to the n-th put into the queue. */
  function QueuedBy(systems: seq<System>, actions: seq<Action>, n: nat): seq<Job>
    requires n < |systems| && n <= |actions|
  {
    if n == 0 then [] else QueuedBy(systems, actions, n - 1) + QueuedIn(systems[n - 1], actions[n - 1])
  }

  function QueuedIn(s: System, a: Action): seq<Job> {
    if a.Post? || (a.Dispatch? && !Loaded(s.shared)) then [a.job] else []
  }

  /** What the threads that polled took to be executed. */
  function TakenBy(systems: seq<System>, actions: seq<Action>, n: nat): seq<Job>
    requires n < |systems| && n <= |actions|
  {
    if n == 0 then [] else TakenBy(systems, actions, n - 1) + TakenIn(systems[n - 1], systems[n], actions[n - 1])
  }

  function TakenIn(s: System, s': System, a: Action): seq<Job> {
    if a.Poll? && |StackOf(s', a.t)| > |StackOf(s, a.t)| && Top(StackOf(s', a.t)).Executing? then [Top(StackOf(s', a.t)).job]
    else []
  }

  /** In every run, threads begin to execute queued functions in the order in
      which they were queued, and none twice. */
  lemma {:induction false} QueueIsFifo(systems: seq<System>, actions: seq<Action>, threadCount: nat, n: nat)
    requires IsRun(systems, actions, threadCount) && n <= |actions|
    ensures QueuedBy(systems, actions, n) == TakenBy(systems, actions, n) + systems[n].shared.queue
  {
    if n > 0 {
      hide Step, Enabled, QueuedIn, TakenIn;
      var s, s', a := systems[n - 1], systems[n], actions[n - 1];
      assert Enabled(s, a) && s' == Step(s, a);
      QueueIsFifo(systems, actions, threadCount, n - 1);
      StepIsFifo(s, a);
      FifoStep(QueuedBy(systems, actions, n - 1), TakenBy(systems, actions, n - 1), s.shared.queue,
               QueuedIn(s, a), TakenIn(s, s', a), s'.shared.queue);
    }
  }

  lemma StepIsFifo(s: System, a: Action)
    requires Enabled(s, a)
    ensures s.shared.queue + QueuedIn(s, a) == TakenIn(s, Step(s, a), a) + Step(s, a).shared.queue
  {
  }

  /** The pool's fields under its mutex. */
  class Pool {
    const threadCount: nat
    var queue: seq<Job>
    var useCount: int
    var work: seq<int>

    constructor (threadCount: nat)
      ensures View() == Start(threadCount).shared
    {
      this.threadCount := threadCount;
      queue, useCount, work := [], 1, [];
    }

    function View(): Shared
      reads this
    {
      Shared(threadCount, queue, useCount, work)
    }

    method DoWorkStarted(g: Gid)
      requires g < |work|
      modifies this
      ensures View() == Started(old(View()), g)
    {
      work := work[g := work[g] + 1];
      if work[g] == 1 {
        useCount := useCount + 1;
      }
    }

    method DoWorkFinished(g: Gid)
      requires g < |work|
      modifies this
      ensures View() == Finished(old(View()), g)
    {
      work := work[g := work[g] - 1];
      if work[g] == 0 {
        useCount := useCount - 1;
      }
    }

    /** Returns whether the caller has to execute the function itself. */
    method DoDispatch(job: Job) returns (now: bool)
      requires job.group < |work|
      modifies this
      ensures now == Loaded(old(View())) && (now <==> |old(queue)| > threadCount * 16)
      ensures queue == if now then old(queue) else old(queue) + [job]
      ensures View() == if now then Started(old(View()), job.group) else Pushed(old(View()), job)
    {
      now := |queue| > threadCount * 16;
      if !now {
        queue := queue + [job];
      }
      DoWorkStarted(job.group);
    }

    method DoPost(job: Job)
      requires job.group < |work|
      modifies this
      ensures View() == Pushed(old(View()), job)
    {
      queue := queue + [job];
      DoWorkStarted(job.group);
    }
  }
}
