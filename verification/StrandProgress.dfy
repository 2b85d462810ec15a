/** What the histories of a strand mean, and what one turn of its invoker achieves:
    everything that was enqueued before it ended is run by the end of the next. */
module StrandProgress {
  import opened Basics
  import opened Strand

  type Run = seq<System>
  type Steps = seq<(Tid, Action)>

  /** The step is about the strand, and the innermost frame of its thread is too. */
  predicate TopIs(g: System, t: Tid, s: Sid) {
    StackOf(g, t) != [] && Top(StackOf(g, t)).s == s
  }

  predicate IsExit(g: System, step: (Tid, Action), s: Sid) {
    step.1.Exit? && TopIs(g, step.0, s)
  }

  /** An operation of the strand ends with an exception. */
  predicate IsThrow(g: System, step: (Tid, Action), s: Sid) {
    step.1 == Return(true) && TopIs(g, step.0, s) && Top(StackOf(g, step.0)).Running?
  }

  // ---- What the histories are ----

  /** The operation that a step enqueues, as the action says. */
  function EnqueuedIn(step: (Tid, Action), s: Sid): seq<OpId> {
    if step.1.Enqueue? && step.1.s == s then [step.1.op] else []
  }

  /** The operation that a thread begins to run by a step, as its stack says. */
  function RunIn(g: System, g': System, step: (Tid, Action), s: Sid): seq<OpId> {
    if step.1.Pop? && TopIs(g', step.0, s) && Top(StackOf(g', step.0)).Running? then [Top(StackOf(g', step.0)).op] else []
  }

  function EnqueuedBy(steps: Steps, n: nat, s: Sid): seq<OpId>
    requires n <= |steps|
  {
    if n == 0 then [] else EnqueuedBy(steps, n - 1, s) + EnqueuedIn(steps[n - 1], s)
  }

  function RunBy(systems: Run, steps: Steps, n: nat, s: Sid): seq<OpId>
    requires n <= |steps| && n < |systems|
  {
    if n == 0 then [] else RunBy(systems, steps, n - 1, s) + RunIn(systems[n - 1], systems[n], steps[n - 1], s)
  }

  lemma StepRecords(g: System, t: Tid, a: Action, s: Sid)
    requires Enabled(g, t, a)
    ensures History(Step(g, t, a).enqueued, s) == History(g.enqueued, s) + EnqueuedIn((t, a), s)
    ensures History(Step(g, t, a).executed, s) == History(g.executed, s) + RunIn(g, Step(g, t, a), (t, a), s)
  {
  }

  /** The histories are what the actions enqueued and what the threads ran. */
  lemma {:induction false} HistoriesAreExact(systems: Run, steps: Steps, n: nat, s: Sid)
    requires IsRun(systems, steps) && n <= |steps|
    ensures History(systems[n].enqueued, s) == EnqueuedBy(steps, n, s)
    ensures History(systems[n].executed, s) == RunBy(systems, steps, n, s)
  {
    if n > 0 {
      HistoriesAreExact(systems, steps, n - 1, s);
      StepRecords(systems[n - 1], steps[n - 1].0, steps[n - 1].1, s);
    }
  }

  /** A function dispatched from inside the strand runs at once, on that thread. */
  lemma InlineRunsAtOnce(systems: Run, steps: Steps, n: nat)
    requires IsRun(systems, steps) && n < |steps| && steps[n].1.DispatchInline?
    ensures var t, a := steps[n].0, steps[n].1;
            && Contains(StackOf(systems[n], t), a.s)
            && StackOf(systems[n + 1], t) == StackOf(systems[n], t) + [Inline(a.s, a.op)]
            && ImplOf(systems[n + 1], a.s) == ImplOf(systems[n], a.s)
  {
  }

  // ---- One turn of the invoker ----

  /** A thread that is about to leave the loop has left nothing in the ready queue. */
  ghost predicate ExitingMeansEmpty(g: System, s: Sid) {
    (exists t, i :: 0 <= i < |StackOf(g, t)| && StackOf(g, t)[i] == Exiting(s)) ==> ImplOf(g, s).readyQueue == []
  }

  /** What is run or ready only grows. */
  lemma StepExtends(g: System, t: Tid, a: Action, s: Sid)
    requires Enabled(g, t, a)
    ensures History(g.executed, s) + ImplOf(g, s).readyQueue
            <= History(Step(g, t, a).executed, s) + ImplOf(Step(g, t, a), s).readyQueue
  {
  }

  /** Where an exiting frame after a step comes from. */
  lemma ExitingFrameBefore(g: System, t: Tid, a: Action, s: Sid, u: Tid, i: nat)
    requires Enabled(g, t, a) && !IsThrow(g, (t, a), s)
    requires i < |StackOf(Step(g, t, a), u)| && StackOf(Step(g, t, a), u)[i] == Exiting(s)
    ensures || (i < |StackOf(g, u)| && StackOf(g, u)[i] == Exiting(s) && (u == t && i == |StackOf(g, t)| - 1 ==> !a.Exit?))
            || (u == t && a.Pop? && TopIs(g, t, s) && ImplOf(g, s).readyQueue == [] && ImplOf(Step(g, t, a), s).readyQueue == [])
  {
  }

  /** Who changes the ready queue has the token in its innermost frame. */
  lemma ReadyChangedByHolder(g: System, t: Tid, a: Action, s: Sid)
    requires Enabled(g, t, a) && ImplOf(Step(g, t, a), s).readyQueue != ImplOf(g, s).readyQueue
    ensures TopIs(g, t, s) && Holds(Top(StackOf(g, t))) && (a.Push? || a.Pop? || a.Exit?)
    ensures a.Pop? ==> ImplOf(g, s).readyQueue != []
    ensures a.Push? ==> !Top(StackOf(g, t)).Exiting?
  {
  }

  lemma StepKeepsExitingEmpty(systems: Run, steps: Steps, n: nat, s: Sid)
    requires IsRun(systems, steps) && n < |steps| && !IsThrow(systems[n], steps[n], s)
    requires ExitingMeansEmpty(systems[n], s)
    ensures ExitingMeansEmpty(systems[n + 1], s)
  {
    var g, g', t, a := systems[n], systems[n + 1], steps[n].0, steps[n].1;
    assert Enabled(g, t, a) && g' == Step(g, t, a);
    if u, i :| 0 <= i < |StackOf(g', u)| && StackOf(g', u)[i] == Exiting(s) {
      ExitingFrameBefore(g, t, a, s, u, i);
      if ImplOf(g', s).readyQueue != ImplOf(g, s).readyQueue {
        ReadyChangedByHolder(g, t, a, s);
        Exclusion(systems, steps, n, s);
        hide IsRun, Step, Enabled;
        assert HoldsFor(StackOf(g, t)[|StackOf(g, t)| - 1], s);
        if i < |StackOf(g, u)| && StackOf(g, u)[i] == Exiting(s) {
          assert HoldsFor(StackOf(g, u)[i], s);
        }
      }
    }
  }

  /** A turn that has just ended leaves no frame that is about to end it. */
  lemma ExitLeavesNoneExiting(systems: Run, steps: Steps, n: nat, s: Sid)
    requires IsRun(systems, steps) && n < |steps| && IsExit(systems[n], steps[n], s)
    ensures ExitingMeansEmpty(systems[n + 1], s)
    ensures History(systems[n].enqueued, s) == History(systems[n + 1].executed, s) + ImplOf(systems[n + 1], s).readyQueue
  {
    var g, g', t, a := systems[n], systems[n + 1], steps[n].0, steps[n].1;
    assert Enabled(g, t, a) && g' == Step(g, t, a);
    Exclusion(systems, steps, n, s);
    assert HoldsFor(StackOf(g, t)[|StackOf(g, t)| - 1], s);
    var claimed := FifoAndNoLoss(systems, steps, n, s);
    NoneClaimed(systems, steps, n, s, t, claimed);
    ExitMakesReady(g, t, s);
    hide IsRun, Step, Enabled;
    if u, i :| 0 <= i < |StackOf(g', u)| && StackOf(g', u)[i] == Exiting(s) {
      ExitingFrameBefore(g, t, a, s, u, i);
    }
  }

  lemma NoneClaimed(systems: Run, steps: Steps, n: nat, s: Sid, t: Tid, claimed: seq<OpId>)
    requires IsRun(systems, steps) && n < |systems|
    requires TopIs(systems[n], t, s) && Top(StackOf(systems[n], t)).Exiting?
    requires claimed == [] || (|claimed| == 1 && ClaimedBySomeone(systems[n], s, claimed[0]))
    ensures claimed == []
  {
    var g := systems[n];
    if claimed != [] {
      var u, i :| 0 <= i < |StackOf(g, u)| && IsClaim(StackOf(g, u)[i], s, claimed[0]);
      Exclusion(systems, steps, n, s);
      assert HoldsFor(StackOf(g, u)[i], s) && HoldsFor(StackOf(g, t)[|StackOf(g, t)| - 1], s);
      assert false;
    }
  }

  lemma ExitMakesReady(g: System, t: Tid, s: Sid)
    requires Enabled(g, t, Exit) && TopIs(g, t, s)
    ensures var g' := Step(g, t, Exit);
            && ImplOf(g', s).readyQueue == ImplOf(g, s).readyQueue + ImplOf(g, s).waiting
            && ImplOf(g', s).waiting == [] && History(g'.executed, s) == History(g.executed, s)
  {
  }

  lemma {:induction false} TurnExtends(systems: Run, steps: Steps, n: nat, m: nat, s: Sid)
    requires IsRun(systems, steps) && n < m <= |steps| && IsExit(systems[n], steps[n], s)
    requires forall k | n < k < m :: !IsThrow(systems[k], steps[k], s)
    ensures ExitingMeansEmpty(systems[m], s)
    ensures History(systems[n].enqueued, s) <= History(systems[m].executed, s) + ImplOf(systems[m], s).readyQueue
  {
    if m == n + 1 {
      ExitLeavesNoneExiting(systems, steps, n, s);
    } else {
      TurnExtends(systems, steps, n, m - 1, s);
      StepKeepsExitingEmpty(systems, steps, m - 1, s);
      StepExtends(systems[m - 1], steps[m - 1].0, steps[m - 1].1, s);
    }
  }

  /** Everything that was enqueued on a strand before one turn of its invoker ended
      has been run when a later turn ends, unless an operation threw in between. */
  lemma EnqueuedBeforeExitIsRunByNext(systems: Run, steps: Steps, n: nat, m: nat, s: Sid)
    requires IsRun(systems, steps) && n < m < |steps|
    requires IsExit(systems[n], steps[n], s) && IsExit(systems[m], steps[m], s)
    requires forall k | n < k < m :: !IsThrow(systems[k], steps[k], s)
    ensures History(systems[n].enqueued, s) <= History(systems[m].executed, s)
  {
    TurnExtends(systems, steps, n, m, s);
    var g, t := systems[m], steps[m].0;
    assert Enabled(g, t, Exit);
    assert StackOf(g, t)[|StackOf(g, t)| - 1] == Exiting(s);
  }

  // ---- After an exception ----

  lemma OneTop(systems: Run, steps: Steps, n: nat, s: Sid, t: Tid, u: Tid)
    requires IsRun(systems, steps) && n < |systems| && TopIs(systems[n], t, s) && TopIs(systems[n], u, s)
    requires Holds(Top(StackOf(systems[n], t))) && Holds(Top(StackOf(systems[n], u)))
    ensures t == u
  {
    var g := systems[n];
    Exclusion(systems, steps, n, s);
    assert HoldsFor(StackOf(g, t)[|StackOf(g, t)| - 1], s) && HoldsFor(StackOf(g, u)[|StackOf(g, u)| - 1], s);
  }

  lemma ExitingStaysStep(systems: Run, steps: Steps, n: nat, s: Sid, t: Tid)
    requires IsRun(systems, steps) && n < |steps| && !IsExit(systems[n], steps[n], s)
    requires TopIs(systems[n], t, s) && Top(StackOf(systems[n], t)).Exiting?
    ensures StackOf(systems[n + 1], t) == StackOf(systems[n], t)
    ensures History(systems[n + 1].executed, s) == History(systems[n].executed, s)
  {
    var g, u, a := systems[n], steps[n].0, steps[n].1;
    assert Enabled(g, u, a) && systems[n + 1] == Step(g, u, a);
    StepRecords(g, u, a, s);
    OnlyExitFollows(g, u, a, s, t);
    if RunIn(g, systems[n + 1], steps[n], s) != [] {
      PopIsByHolder(g, u, a, s);
      OneTop(systems, steps, n, s, t, u);
    }
  }

  /** The thread of an operation that threw does nothing but end the turn. */
  lemma {:induction false} ExitingStays(systems: Run, steps: Steps, n: nat, m: nat, s: Sid, t: Tid)
    requires IsRun(systems, steps) && n <= m <= |steps|
    requires TopIs(systems[n], t, s) && Top(StackOf(systems[n], t)).Exiting?
    requires forall k | n <= k < m :: !IsExit(systems[k], steps[k], s)
    ensures StackOf(systems[m], t) == StackOf(systems[n], t)
    ensures History(systems[m].executed, s) == History(systems[n].executed, s)
  {
    if m > n {
      ExitingStays(systems, steps, n, m - 1, s, t);
      ExitingStaysStep(systems, steps, m - 1, s, t);
    }
  }

  lemma OnlyExitFollows(g: System, u: Tid, a: Action, s: Sid, t: Tid)
    requires Enabled(g, u, a) && TopIs(g, t, s) && Top(StackOf(g, t)).Exiting? && !IsExit(g, (u, a), s)
    ensures u != t && StackOf(Step(g, u, a), t) == StackOf(g, t)
  {
  }

  lemma PopIsByHolder(g: System, u: Tid, a: Action, s: Sid)
    requires Enabled(g, u, a) && RunIn(g, Step(g, u, a), (u, a), s) != []
    ensures TopIs(g, u, s) && Top(StackOf(g, u)).Looping?
  {
  }

  /** An exception ends the turn: no operation of the strand is begun before the
      invoker has given everything that waits its place in the ready queue. */
  lemma NothingRunsBetweenThrowAndExit(systems: Run, steps: Steps, n: nat, m: nat, s: Sid)
    requires IsRun(systems, steps) && n < m <= |steps| && IsThrow(systems[n], steps[n], s)
    requires forall k | n < k < m :: !IsExit(systems[k], steps[k], s)
    ensures History(systems[m].executed, s) == History(systems[n].executed, s)
    ensures TopIs(systems[m], steps[n].0, s) && Top(StackOf(systems[m], steps[n].0)).Exiting?
  {
    var g, t, a := systems[n], steps[n].0, steps[n].1;
    assert Enabled(g, t, a) && systems[n + 1] == Step(g, t, a);
    StepRecords(g, t, a, s);
    ExitingStays(systems, steps, n + 1, m, s, t);
  }

  // ---- A turn can always end ----

  /** The thread alone can take these steps, one after the other. */
  predicate CanTake(g: System, t: Tid, actions: seq<Action>)
    decreases |actions|
  {
    actions == [] || (Enabled(g, t, actions[0]) && CanTake(Step(g, t, actions[0]), t, actions[1..]))
  }

  function After(g: System, t: Tid, actions: seq<Action>): System
    requires CanTake(g, t, actions)
    decreases |actions|
  {
    if actions == [] then g else After(Step(g, t, actions[0]), t, actions[1..])
  }

  lemma Prepend(g: System, t: Tid, a: Action, rest: seq<Action>)
    requires Enabled(g, t, a) && CanTake(Step(g, t, a), t, rest)
    ensures CanTake(g, t, [a] + rest) && After(g, t, [a] + rest) == After(Step(g, t, a), t, rest)
  {
    assert ([a] + rest)[1..] == rest;
  }

  /** The turn at the top of this stack is over: all that was ready has been run,
      all that waited is ready, and its invoker was submitted again if needed. */
  ghost predicate TurnOver(g: System, g': System, t: Tid, s: Sid) {
    && StackOf(g, t) != [] && StackOf(g', t) == Drop(StackOf(g, t))
    && History(g'.executed, s) == History(g.executed, s) + ImplOf(g, s).readyQueue
    && ImplOf(g', s) == Impl(ImplOf(g, s).waiting != [], [], ImplOf(g, s).waiting)
    && SubmittedOf(g', s) == SubmittedOf(g, s) + if ImplOf(g, s).waiting == [] then 0 else 1
  }

  lemma LeaveEnds(g: System, t: Tid, s: Sid) returns (actions: seq<Action>)
    requires TopIs(g, t, s) && Top(StackOf(g, t)).Leaving?
    ensures CanTake(g, t, actions) && StackOf(After(g, t, actions), t) == Drop(StackOf(g, t))
    ensures var g' := After(g, t, actions);
            ImplOf(g', s) == ImplOf(g, s) && SubmittedOf(g', s) == SubmittedOf(g, s)
            && History(g'.executed, s) == History(g.executed, s)
  {
    Prepend(g, t, Leave, []);
    actions := [Leave] + [];
  }

  lemma DeferringEnds(g: System, t: Tid, s: Sid) returns (actions: seq<Action>)
    requires TopIs(g, t, s) && Top(StackOf(g, t)).Deferring?
    ensures CanTake(g, t, actions) && StackOf(After(g, t, actions), t) == Drop(StackOf(g, t))
    ensures var g' := After(g, t, actions);
            ImplOf(g', s) == ImplOf(g, s) && SubmittedOf(g', s) == SubmittedOf(g, s) + 1
            && History(g'.executed, s) == History(g.executed, s)
  {
    var rest := LeaveEnds(Step(g, t, DeferAgain), t, s);
    Prepend(g, t, DeferAgain, rest);
    actions := [DeferAgain] + rest;
  }

  lemma ExitingEnds(g: System, t: Tid, s: Sid) returns (actions: seq<Action>)
    requires TopIs(g, t, s) && Top(StackOf(g, t)).Exiting? && ImplOf(g, s).readyQueue == []
    ensures CanTake(g, t, actions) && TurnOver(g, After(g, t, actions), t, s)
  {
    var next := Step(g, t, Exit);
    var rest;
    if ImplOf(g, s).waiting == [] {
      rest := LeaveEnds(next, t, s);
    } else {
      rest := DeferringEnds(next, t, s);
    }
    Prepend(g, t, Exit, rest);
    actions := [Exit] + rest;
    assert ImplOf(next, s).readyQueue == [] + ImplOf(g, s).waiting == ImplOf(g, s).waiting;
  }

  lemma PopRuns(g: System, t: Tid, s: Sid)
    requires TopIs(g, t, s) && Top(StackOf(g, t)).Looping? && ImplOf(g, s).readyQueue != []
    ensures Enabled(g, t, Pop) && Enabled(Step(g, t, Pop), t, Return(false))
    ensures var next := Step(Step(g, t, Pop), t, Return(false));
            && TopIs(next, t, s) && Top(StackOf(next, t)).Looping? && Drop(StackOf(next, t)) == Drop(StackOf(g, t))
            && ImplOf(next, s) == ImplOf(g, s).(readyQueue := ImplOf(g, s).readyQueue[1..])
            && History(next.executed, s) == History(g.executed, s) + [ImplOf(g, s).readyQueue[0]]
            && SubmittedOf(next, s) == SubmittedOf(g, s)
  {
  }

  lemma PopEnds(g: System, t: Tid, s: Sid)
    requires TopIs(g, t, s) && Top(StackOf(g, t)).Looping? && ImplOf(g, s).readyQueue == []
    ensures Enabled(g, t, Pop)
    ensures var next := Step(g, t, Pop);
            && TopIs(next, t, s) && Top(StackOf(next, t)).Exiting? && Drop(StackOf(next, t)) == Drop(StackOf(g, t))
            && ImplOf(next, s) == ImplOf(g, s) && SubmittedOf(next, s) == SubmittedOf(g, s)
            && History(next.executed, s) == History(g.executed, s)
  {
  }

  lemma TurnAfterPop(g: System, next: System, g': System, t: Tid, s: Sid)
    requires TurnOver(next, g', t, s) && StackOf(g, t) != [] && Drop(StackOf(next, t)) == Drop(StackOf(g, t))
    requires ImplOf(g, s).readyQueue != [] && ImplOf(next, s) == ImplOf(g, s).(readyQueue := ImplOf(g, s).readyQueue[1..])
    requires History(next.executed, s) == History(g.executed, s) + [ImplOf(g, s).readyQueue[0]]
    requires SubmittedOf(next, s) == SubmittedOf(g, s)
    ensures TurnOver(g, g', t, s)
  {
    var ready := ImplOf(g, s).readyQueue;
    Regroup(History(g.executed, s), [ready[0]], ready[1..]);
    assert [ready[0]] + ready[1..] == ready;
  }

  /** Whenever a thread is in the loop of a strand's invoker, it can, by steps of
      its own, run all that is ready, in order, end the turn and return. */
  lemma {:induction false} TurnCanEnd(g: System, t: Tid, s: Sid) returns (actions: seq<Action>)
    requires TopIs(g, t, s) && Top(StackOf(g, t)).Looping?
    ensures CanTake(g, t, actions) && TurnOver(g, After(g, t, actions), t, s)
    decreases |ImplOf(g, s).readyQueue|
  {
    hide Step, Enabled;
    if ImplOf(g, s).readyQueue == [] {
      PopEnds(g, t, s);
      var rest := ExitingEnds(Step(g, t, Pop), t, s);
      Prepend(g, t, Pop, rest);
      actions := [Pop] + rest;
    } else {
      PopRuns(g, t, s);
      var popped := Step(g, t, Pop);
      var next := Step(popped, t, Return(false));
      var rest := TurnCanEnd(next, t, s);
      Prepend(popped, t, Return(false), rest);
      Prepend(g, t, Pop, [Return(false)] + rest);
      actions := [Pop] + ([Return(false)] + rest);
      TurnAfterPop(g, next, After(g, t, actions), t, s);
    }
  }
}
