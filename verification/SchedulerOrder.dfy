/** Which operations the scheduler runs, and in what order: `Scheduler` counts
    work, this module follows each operation from its submission to the context
    that takes it; and a stop, once it is due, is not forgotten. */
module SchedulerOrder {
  import opened Basics
  import opened Scheduler

  type Run = seq<System>
  type Actions = seq<Action>

  function Times(ops: seq<Op>, op: Op): nat {
    if ops == [] then 0 else Times(ops[..|ops| - 1], op) + if ops[|ops| - 1] == op then 1 else 0
  }

  function PrivateTimes(contexts: seq<Context>, op: Op): nat {
    if contexts == [] then 0
    else PrivateTimes(contexts[..|contexts| - 1], op) + Times(contexts[|contexts| - 1].private, op)
  }

  lemma {:induction false} TimesAppend(a: seq<Op>, b: seq<Op>, op: Op)
    ensures Times(a + b, op) == Times(a, op) + Times(b, op)
  {
    if b == [] {
      assert a + b == a;
    } else {
      TimesAppend(a, b[..|b| - 1], op);
      assert (a + b)[..|a + b| - 1] == a + b[..|b| - 1];
    }
  }

  lemma TimesOne(x: Op, op: Op)
    ensures Times([x], op) == if x == op then 1 else 0
  {
    assert [x][..0] == [];
  }

  lemma {:induction false} PrivateTimesAfter(contexts: seq<Context>, c: Cid, x: Context, op: Op)
    requires c < |contexts|
    ensures PrivateTimes(contexts[c := x], op)
            == PrivateTimes(contexts, op) - Times(contexts[c].private, op) + Times(x.private, op)
  {
    var n := |contexts| - 1;
    if c == n {
      assert contexts[c := x][..n] == contexts[..n];
    } else {
      PrivateTimesAfter(contexts[..n], c, x, op);
      assert contexts[c := x][..n] == contexts[..n][c := x];
    }
  }

  // ---- What the steps do, as seen from outside ----

  /** The operation that the step posts or defers. */
  function SubmittedIn(a: Action): seq<Op> {
    match a
    case PostInside(_, op) => [op]
    case DeferInside(_, op) => [op]
    case PostOutside(op) => [op]
    case _ => []
  }

  /** The operation that a context runs because of the step. */
  function TakenIn(s': System, a: Action): seq<Op> {
    if a.Take? && IsRunning(s', a.c) then [s'.contexts[a.c].pc.op] else []
  }

  /** What the step puts on the global queue, under the mutex. */
  function PublishedIn(s: System, a: Action): seq<Op>
    requires Enabled(s, a)
  {
    match a
    case PushPosted(i) => [s.posting[i]]
    case Relock(c) => s.contexts[c].private
    case Unwind(c) => s.contexts[c].private
    case _ => []
  }

  /** What a handler of context `c` leaves to its context to publish. */
  function KeptIn(s: System, a: Action, c: Cid): seq<Op> {
    match a
    case PostInside(d, op) => if d == c && s.oneThread then [op] else []
    case DeferInside(d, op) => if d == c then [op] else []
    case _ => []
  }

  function PublishedFrom(s: System, a: Action, c: Cid): seq<Op>
    requires Enabled(s, a)
  {
    if (a.Relock? || a.Unwind?) && a.c == c then PublishedIn(s, a) else []
  }

  function PrivateOf(s: System, c: Cid): seq<Op> {
    if c < |s.contexts| then s.contexts[c].private else []
  }

  // ---- Nothing is lost, doubled or swapped ----

  ghost predicate ConservesOp(s: System, a: Action, op: Op)
    requires Enabled(s, a)
  {
    var s' := Step(s, a);
    Times(s.queue, op) + PrivateTimes(s.contexts, op) + Times(s.posting, op) + Times(SubmittedIn(a), op)
    == Times(s'.queue, op) + PrivateTimes(s'.contexts, op) + Times(s'.posting, op) + Times(TakenIn(s', a), op)
  }

  lemma OutsideSubmissionConserves(s: System, a: Action, op: Op)
    requires Enabled(s, a) && a.PostOutside?
    ensures ConservesOp(s, a, op)
  {
    TimesAppend(s.posting, [a.op], op);
  }

  lemma KeepingConserves(s: System, a: Action, op: Op)
    requires Enabled(s, a) && (a.DeferInside? || (a.PostInside? && s.oneThread))
    ensures ConservesOp(s, a, op)
  {
    var s' := Step(s, a);
    assert s'.contexts == s.contexts[a.c := s'.contexts[a.c]] && s'.contexts[a.c].private == s.contexts[a.c].private + [a.op];
    assert s'.queue == s.queue && s'.posting == s.posting;
    TimesAppend(s.contexts[a.c].private, [a.op], op);
    PrivateTimesAfter(s.contexts, a.c, s'.contexts[a.c], op);
  }

  lemma InsidePostConserves(s: System, a: Action, op: Op)
    requires Enabled(s, a) && a.PostInside? && !s.oneThread
    ensures ConservesOp(s, a, op)
  {
    var s' := Step(s, a);
    assert s'.contexts == s.contexts[a.c := s'.contexts[a.c]] && s'.contexts[a.c].private == s.contexts[a.c].private;
    assert s'.queue == s.queue && s'.posting == s.posting + [a.op];
    TimesAppend(s.posting, [a.op], op);
    PrivateTimesAfter(s.contexts, a.c, s'.contexts[a.c], op);
  }

  lemma TakeConserves(s: System, a: Action, op: Op)
    requires Enabled(s, a) && a.Take?
    ensures ConservesOp(s, a, op)
  {
    var s' := Step(s, a);
    TimesAppend([s.queue[0]], s.queue[1..], op);
    assert [s.queue[0]] + s.queue[1..] == s.queue;
    PrivateTimesAfter(s.contexts, a.c, s'.contexts[a.c], op);
    ContextStepIsLocal(s, a);
  }

  lemma PublicationConserves(s: System, a: Action, op: Op)
    requires Enabled(s, a) && (a.Relock? || a.Unwind? || a.PushPosted?)
    ensures ConservesOp(s, a, op)
  {
    var s' := Step(s, a);
    if a.PushPosted? {
      var before, after := s.posting[..a.i], s.posting[a.i + 1..];
      assert s.posting == before + [s.posting[a.i]] + after;
      TimesAppend(before + [s.posting[a.i]], after, op);
      TimesAppend(before, [s.posting[a.i]], op);
      TimesAppend(before, after, op);
      TimesAppend(s.queue, [s.posting[a.i]], op);
    } else {
      TimesAppend(s.queue, s.contexts[a.c].private, op);
      PrivateTimesAfter(s.contexts, a.c, s'.contexts[a.c], op);
      ContextStepIsLocal(s, a);
    }
  }

  lemma OtherStepConserves(s: System, a: Action, op: Op)
    requires Enabled(s, a) && SubmittedIn(a) == [] && !a.Take? && !a.Relock? && !a.Unwind? && !a.PushPosted?
    ensures ConservesOp(s, a, op)
  {
    var s' := Step(s, a);
    if AboutContext(a) {
      PrivateTimesAfter(s.contexts, a.c, s'.contexts[a.c], op);
      ContextStepIsLocal(s, a);
    } else if a.Enter? {
      assert s'.contexts[..|s.contexts|] == s.contexts;
    }
  }

  lemma StepConserves(s: System, a: Action, op: Op)
    requires Enabled(s, a)
    ensures ConservesOp(s, a, op)
  {
    hide ConservesOp;
    if a.DeferInside? || (a.PostInside? && s.oneThread) {
      KeepingConserves(s, a, op);
    } else if a.PostInside? {
      InsidePostConserves(s, a, op);
    } else if a.PostOutside? {
      OutsideSubmissionConserves(s, a, op);
    } else if a.Take? {
      TakeConserves(s, a, op);
    } else if a.Relock? || a.Unwind? || a.PushPosted? {
      PublicationConserves(s, a, op);
    } else {
      OtherStepConserves(s, a, op);
    }
  }

  function SubmittedBy(actions: Actions, n: nat): seq<Op>
    requires n <= |actions|
  {
    if n == 0 then [] else SubmittedBy(actions, n - 1) + SubmittedIn(actions[n - 1])
  }

  function TakenBy(systems: Run, actions: Actions, n: nat): seq<Op>
    requires n <= |actions| && n < |systems|
  {
    if n == 0 then [] else TakenBy(systems, actions, n - 1) + TakenIn(systems[n], actions[n - 1])
  }

  lemma SubmittedTimes(actions: Actions, n: nat, op: Op)
    requires 0 < n <= |actions|
    ensures Times(SubmittedBy(actions, n), op) == Times(SubmittedBy(actions, n - 1), op) + Times(SubmittedIn(actions[n - 1]), op)
  {
    TimesAppend(SubmittedBy(actions, n - 1), SubmittedIn(actions[n - 1]), op);
  }

  lemma TakenTimes(systems: Run, actions: Actions, n: nat, op: Op)
    requires 0 < n <= |actions| && n < |systems|
    ensures Times(TakenBy(systems, actions, n), op)
            == Times(TakenBy(systems, actions, n - 1), op) + Times(TakenIn(systems[n], actions[n - 1]), op)
  {
    TimesAppend(TakenBy(systems, actions, n - 1), TakenIn(systems[n], actions[n - 1]), op);
  }

  /** In every run, with any number of contexts, each operation has been submitted
      as often as it was taken to be run, is queued, is private to a context, or
      is on its way to the queue. */
  lemma {:induction false} EachOperationOnce(systems: Run, actions: Actions, n: nat, op: Op)
    requires IsRun(systems, actions) && n <= |actions|
    ensures var s := systems[n];
            Times(SubmittedBy(actions, n), op)
            == Times(TakenBy(systems, actions, n), op)
               + Times(s.queue, op) + PrivateTimes(s.contexts, op) + Times(s.posting, op)
  {
    if n > 0 {
      hide Step, Enabled, TakenIn, SubmittedIn;
      var s, a := systems[n - 1], actions[n - 1];
      assert Enabled(s, a) && systems[n] == Step(s, a);
      EachOperationOnce(systems, actions, n - 1, op);
      StepConserves(s, a, op);
      SubmittedTimes(actions, n, op);
      TakenTimes(systems, actions, n, op);
    }
  }

  // ---- First in, first out ----

  function PublishedBy(systems: Run, actions: Actions, n: nat): seq<Op>
    requires n <= |actions| && n < |systems| && forall k | 0 <= k < n :: Enabled(systems[k], actions[k])
  {
    if n == 0 then [] else PublishedBy(systems, actions, n - 1) + PublishedIn(systems[n - 1], actions[n - 1])
  }

  lemma StepIsFifo(s: System, a: Action)
    requires Enabled(s, a)
    ensures s.queue + PublishedIn(s, a) == TakenIn(Step(s, a), a) + Step(s, a).queue
  {
  }

  /** In every run, the operations published to the global queue, in the order of
      the mutex, are those taken, in order, and then those queued. */
  lemma {:induction false} TakenInOrderOfPublication(systems: Run, actions: Actions, n: nat)
    requires IsRun(systems, actions) && n <= |actions|
    ensures PublishedBy(systems, actions, n) == TakenBy(systems, actions, n) + systems[n].queue
  {
    if n > 0 {
      var s, s', a := systems[n - 1], systems[n], actions[n - 1];
      assert Enabled(s, a) && s' == Step(s, a);
      TakenInOrderOfPublication(systems, actions, n - 1);
      StepIsFifo(s, a);
      hide Step, Enabled, TakenIn, PublishedIn;
      FifoStep(PublishedBy(systems, actions, n - 1), TakenBy(systems, actions, n - 1), s.queue,
               PublishedIn(s, a), TakenIn(s', a), s'.queue);
    }
  }

  function KeptBy(systems: Run, actions: Actions, n: nat, c: Cid): seq<Op>
    requires n <= |actions| && n < |systems|
  {
    if n == 0 then [] else KeptBy(systems, actions, n - 1, c) + KeptIn(systems[n - 1], actions[n - 1], c)
  }

  function PublishedByContext(systems: Run, actions: Actions, n: nat, c: Cid): seq<Op>
    requires n <= |actions| && n < |systems| && forall k | 0 <= k < n :: Enabled(systems[k], actions[k])
  {
    if n == 0 then []
    else PublishedByContext(systems, actions, n - 1, c) + PublishedFrom(systems[n - 1], actions[n - 1], c)
  }

  lemma PrivateStepIsFifo(s: System, a: Action, c: Cid)
    requires Enabled(s, a)
    ensures PrivateOf(s, c) + KeptIn(s, a, c) == PublishedFrom(s, a, c) + PrivateOf(Step(s, a), c)
  {
  }

  /** And what the handlers of one context deferred, or posted on a one-thread
      scheduler, is what the context published, in that order, and then what it
      has still to publish. */
  lemma {:induction false} PublishedInOrderOfSubmission(systems: Run, actions: Actions, n: nat, c: Cid)
    requires IsRun(systems, actions) && n <= |actions|
    ensures KeptBy(systems, actions, n, c) == PublishedByContext(systems, actions, n, c) + PrivateOf(systems[n], c)
  {
    if n > 0 {
      var s, s', a := systems[n - 1], systems[n], actions[n - 1];
      assert Enabled(s, a) && s' == Step(s, a);
      PublishedInOrderOfSubmission(systems, actions, n - 1, c);
      PrivateStepIsFifo(s, a, c);
      hide Step, Enabled, KeptIn, PublishedFrom, PrivateOf;
      FifoStep(KeptBy(systems, actions, n - 1, c), PublishedByContext(systems, actions, n - 1, c), PrivateOf(s, c),
               KeptIn(s, a, c), PublishedFrom(s, a, c), PrivateOf(s', c));
    }
  }

  // ---- Stops ----

  /** Someone is about to stop the scheduler. */
  predicate StopDue(s: System) {
    s.stops > 0 || exists c | 0 <= c < |s.contexts| :: s.contexts[c].pc == StopThenLock || s.contexts[c].pc == StopThenLeave
  }

  /** Stopped, or about to be. */
  predicate Stopping(s: System) {
    s.stopped || StopDue(s)
  }

  lemma StepKeepsStopping(s: System, a: Action)
    requires Stopping(s) && Enabled(s, a) && !a.Restart?
    ensures Stopping(Step(s, a))
    ensures s.stopped ==> Step(s, a).stopped && TakenIn(Step(s, a), a) == []
  {
    var s' := Step(s, a);
    if c :| !s.stopped && s.stops == 0 && 0 <= c < |s.contexts| && (s.contexts[c].pc == StopThenLock || s.contexts[c].pc == StopThenLeave) {
      assert s'.stopped || s'.stops > 0 || s'.contexts[c] == s.contexts[c];
    }
  }

  lemma TriggerMakesStopDue(s: System, a: Action)
    requires Enabled(s, a) && (Triggers(s, a) || a.RequestStop?)
    ensures StopDue(Step(s, a))
  {
    if a.Flush? {
      assert Step(s, a).contexts[a.c].pc == StopThenLock || Step(s, a).contexts[a.c].pc == StopThenLeave;
    }
  }

  /** When the counter has reached zero, or a stop was asked for, then until a
      restart the scheduler is stopped or somebody is about to stop it; and from
      when it is stopped no operation is taken. */
  lemma {:induction false} StopIsNotForgotten(systems: Run, actions: Actions, n: nat, m: nat)
    requires IsRun(systems, actions) && n < m <= |actions|
    requires Triggers(systems[n], actions[n]) || actions[n].RequestStop?
    requires forall k | n < k < m :: !actions[k].Restart?
    ensures Stopping(systems[m])
  {
    if m == n + 1 {
      TriggerMakesStopDue(systems[n], actions[n]);
    } else {
      StopIsNotForgotten(systems, actions, n, m - 1);
      StepKeepsStopping(systems[m - 1], actions[m - 1]);
    }
  }

  lemma {:induction false} StaysStopped(systems: Run, actions: Actions, n: nat, m: nat)
    requires IsRun(systems, actions) && n <= m <= |actions| && systems[n].stopped
    requires forall k | n <= k < m :: !actions[k].Restart?
    ensures systems[m].stopped && (m > n ==> TakenIn(systems[m], actions[m - 1]) == [])
  {
    if m > n {
      StaysStopped(systems, actions, n, m - 1);
      StepKeepsStopping(systems[m - 1], actions[m - 1]);
    }
  }

  lemma {:induction false} TakesNothing(systems: Run, actions: Actions, n: nat, m: nat)
    requires n <= m <= |actions| && m < |systems|
    requires forall k {:trigger systems[k]} | n < k <= m :: TakenIn(systems[k], actions[k - 1]) == []
    ensures TakenBy(systems, actions, m) == TakenBy(systems, actions, n)
  {
    if m > n {
      TakesNothing(systems, actions, n, m - 1);
      assert TakenIn(systems[m], actions[m - 1]) == [];
    }
  }

  lemma NothingTakenWhileStopped(systems: Run, actions: Actions, n: nat, m: nat)
    requires IsRun(systems, actions) && n <= m <= |actions| && systems[n].stopped
    requires forall k | n <= k < m :: !actions[k].Restart?
    ensures systems[m].stopped && TakenBy(systems, actions, m) == TakenBy(systems, actions, n)
  {
    StaysStopped(systems, actions, n, m);
    forall k {:trigger systems[k]} | n < k <= m
      ensures TakenIn(systems[k], actions[k - 1]) == []
    {
      StaysStopped(systems, actions, n, k);
    }
    TakesNothing(systems, actions, n, m);
  }

  /** A stop that got the mutex, since the last restart. */
  predicate StoppedBy(actions: Actions, n: nat)
    requires n <= |actions|
  {
    n > 0
    && (actions[n - 1].StopNow? || actions[n - 1].StopRequested? || (!actions[n - 1].Restart? && StoppedBy(actions, n - 1)))
  }

  lemma StopStep(s: System, a: Action)
    requires Enabled(s, a)
    ensures Step(s, a).stopped <==> a.StopNow? || a.StopRequested? || (!a.Restart? && s.stopped)
  {
  }

  /** Nothing else stops the scheduler, and nothing but a restart undoes it. */
  lemma {:induction false} StoppedExactlyByStop(systems: Run, actions: Actions, n: nat)
    requires IsRun(systems, actions) && n <= |actions|
    ensures systems[n].stopped <==> StoppedBy(actions, n)
  {
    if n > 0 {
      StoppedExactlyByStop(systems, actions, n - 1);
      var s, a := systems[n - 1], actions[n - 1];
      assert Enabled(s, a) && systems[n] == Step(s, a);
      hide IsRun, Step, Enabled;
      StopStep(s, a);
    }
  }

  /** Whoever is about to stop the scheduler does, as soon as the mutex is free. */
  lemma StopNeedsOnlyTheMutex(s: System) returns (a: Action)
    requires StopDue(s) && s.mutex == []
    ensures Enabled(s, a) && Step(s, a).stopped && (a.StopRequested? || a.StopNow?)
  {
    if s.stops > 0 {
      a := StopRequested;
    } else {
      var c :| 0 <= c < |s.contexts| && (s.contexts[c].pc == StopThenLock || s.contexts[c].pc == StopThenLeave);
      a := StopNow(c);
    }
  }
}
