/** The thread-safe scheduler: a global queue and an atomic work counter, and for
    each running context a private queue and a work delta that is settled only
    later. Every atomic operation and every locked region is one step. */
module Scheduler {
  type Op = nat
  type Cid = nat

  /** Where a context is. Only `Looping` holds the mutex.
      - `Running`: completing an operation;
      - `Flushing`: done, about to settle the delta and go round again;
      - `Leaving`: done or unwinding, about to settle the delta and be destroyed;
      - `StopThenLock`, `StopThenLeave`: the counter reached zero, about to stop;
      - `Relocking`: about to lock and publish the private queue;
      - `Unwinding`: about to publish the private queue, if any, and be gone. */
  datatype Pc =
    | Looping | Sleeping | Running(op: Op) | Flushing | Leaving
    | StopThenLock | StopThenLeave | Relocking | Unwinding | Gone

  datatype Context = Context(pc: Pc, private: seq<Op>, delta: int)

  /** `posting` are operations that have been counted but not pushed yet, and
      `stops` the calls to `_Stop` that have not got the mutex yet. `external`
      counts the executor_work objects that exist. */
  datatype System = System(
    oneThread: bool,
    queue: seq<Op>,
    outstanding: int,
    stopped: bool,
    mutex: seq<Cid>,
    contexts: seq<Context>,
    posting: seq<Op>,
    stops: nat,
    external: nat)

  datatype Action =
    | Enter
    | Sleep(c: Cid) | Wakeup(c: Cid) | Quit(c: Cid) | Take(c: Cid)
    | Finish(c: Cid, again: bool) | Flush(c: Cid) | StopNow(c: Cid) | Relock(c: Cid) | Unwind(c: Cid)
    | PostInside(c: Cid, op: Op) | DeferInside(c: Cid, op: Op) | PostOutside(op: Op) | PushPosted(i: nat)
    | WorkStarted | WorkFinished
    | RequestStop | StopRequested | Restart

  function Start(oneThread: bool): System {
    System(oneThread, [], 0, false, [], [], [], 0, 0)
  }

  predicate At(s: System, c: Cid, pc: Pc) {
    c < |s.contexts| && s.contexts[c].pc == pc
  }

  predicate IsRunning(s: System, c: Cid) {
    c < |s.contexts| && s.contexts[c].pc.Running?
  }

  predicate Enabled(s: System, a: Action) {
    match a
    case Enter => s.mutex == []
    case Sleep(c) => At(s, c, Looping) && s.queue == [] && !s.stopped
    case Wakeup(c) => At(s, c, Sleeping) && s.mutex == []
    case Quit(c) => At(s, c, Looping)
    case Take(c) => At(s, c, Looping) && s.queue != [] && !s.stopped
    case Finish(c, again) => IsRunning(s, c)
    case Flush(c) => At(s, c, Flushing) || At(s, c, Leaving)
    case StopNow(c) => (At(s, c, StopThenLock) || At(s, c, StopThenLeave)) && s.mutex == []
    case Relock(c) => At(s, c, Relocking) && s.mutex == []
    case Unwind(c) => At(s, c, Unwinding) && (s.contexts[c].private == [] || s.mutex == [])
    case PostInside(c, op) => IsRunning(s, c)
    case DeferInside(c, op) => IsRunning(s, c)
    case PostOutside(op) => true
    case PushPosted(i) => i < |s.posting| && s.mutex == []
    case WorkStarted => true
    case WorkFinished => s.external > 0
    case RequestStop => true
    case StopRequested => s.stops > 0 && s.mutex == []
    case Restart => s.mutex == []
  }

  function Goto(s: System, c: Cid, pc: Pc): System
    requires c < |s.contexts|
  {
    With(s, c, s.contexts[c].(pc := pc))
  }

  function With(s: System, c: Cid, x: Context): System
    requires c < |s.contexts|
  {
    s.(contexts := s.contexts[c := x])
  }

  /** The atomic addition of the delta brings the counter to zero. */
  predicate Reaches(s: System, c: Cid)
    requires c < |s.contexts|
  {
    s.contexts[c].delta != 0 && s.outstanding + s.contexts[c].delta == 0
  }

  function Step(s: System, a: Action): System
    requires Enabled(s, a)
  {
    match a
    case Enter =>
      s.(contexts := s.contexts + [Context(Looping, [], 0)], mutex := [|s.contexts|])
    case Sleep(c) => Goto(s, c, Sleeping).(mutex := [])
    case Wakeup(c) => Goto(s, c, Looping).(mutex := [c])
    case Quit(c) => Goto(s, c, Gone).(mutex := [])
    case Take(c) =>
      With(s, c, s.contexts[c].(pc := Running(s.queue[0]), delta := -1)).(queue := s.queue[1..], mutex := [])
    case Finish(c, again) => Goto(s, c, if again then Flushing else Leaving)
    case Flush(c) =>
      var x := s.contexts[c];
      var pc := if x.pc == Flushing then if Reaches(s, c) then StopThenLock else Relocking
                else if Reaches(s, c) then StopThenLeave else Unwinding;
      With(s, c, x.(pc := pc, delta := 0)).(outstanding := s.outstanding + x.delta)
    case StopNow(c) =>
      Goto(s, c, if At(s, c, StopThenLock) then Relocking else Unwinding).(stopped := true)
    case Relock(c) =>
      With(s, c, s.contexts[c].(pc := Looping, private := [])).(queue := s.queue + s.contexts[c].private, mutex := [c])
    case Unwind(c) =>
      With(s, c, s.contexts[c].(pc := Gone, private := [])).(queue := s.queue + s.contexts[c].private)
    case PostInside(c, op) =>
      var x := s.contexts[c];
      if s.oneThread then With(s, c, x.(delta := x.delta + 1, private := x.private + [op]))
      else if x.delta < 0 then With(s, c, x.(delta := x.delta + 1)).(posting := s.posting + [op])
      else s.(outstanding := s.outstanding + 1, posting := s.posting + [op])
    case DeferInside(c, op) =>
      var x := s.contexts[c];
      With(s, c, x.(delta := x.delta + 1, private := x.private + [op]))
    case PostOutside(op) => s.(outstanding := s.outstanding + 1, posting := s.posting + [op])
    case PushPosted(i) =>
      s.(queue := s.queue + [s.posting[i]], posting := s.posting[..i] + s.posting[i + 1..])
    case WorkStarted => s.(outstanding := s.outstanding + 1, external := s.external + 1)
    case WorkFinished =>
      s.(outstanding := s.outstanding - 1, external := s.external - 1,
         stops := if s.outstanding - 1 == 0 then s.stops + 1 else s.stops)
    case RequestStop => s.(stops := s.stops + 1)
    case StopRequested => s.(stopped := true, stops := s.stops - 1)
    case Restart => s.(stopped := false)
  }

  // ---- Accounting ----

  function Deltas(contexts: seq<Context>): int {
    if contexts == [] then 0 else Deltas(contexts[..|contexts| - 1]) + contexts[|contexts| - 1].delta
  }

  function Privates(contexts: seq<Context>): nat {
    if contexts == [] then 0 else Privates(contexts[..|contexts| - 1]) + |contexts[|contexts| - 1].private|
  }

  /** Everything that still has to happen, apart from what is running. */
  function Remaining(s: System): nat {
    s.external + |s.queue| + Privates(s.contexts) + |s.posting|
  }

  /** A context that is busy has taken an operation it has not settled yet. */
  predicate Busy(x: Context) {
    x.pc.Running? || x.pc == Flushing || x.pc == Leaving
  }

  predicate ContextOk(s: System, c: Cid)
    requires c < |s.contexts|
  {
    var x := s.contexts[c];
    && (s.mutex == [c] <==> x.pc == Looping)
    && x.delta >= -1 && (!Busy(x) ==> x.delta == 0)
    && (x.pc == Looping || x.pc == Sleeping || x.pc == Gone ==> x.private == [])
  }

  ghost predicate Inv(s: System) {
    && s.outstanding + Deltas(s.contexts) == Remaining(s)
    && (s.mutex == [] || (|s.mutex| == 1 && s.mutex[0] < |s.contexts|))
    && forall c | 0 <= c < |s.contexts| :: ContextOk(s, c)
  }

  lemma {:induction false} SumsAfter(contexts: seq<Context>, c: Cid, x: Context)
    requires c < |contexts|
    ensures Deltas(contexts[c := x]) == Deltas(contexts) - contexts[c].delta + x.delta
    ensures Privates(contexts[c := x]) == Privates(contexts) - |contexts[c].private| + |x.private|
  {
    var n := |contexts| - 1;
    if c == n {
      assert contexts[c := x][..n] == contexts[..n];
    } else {
      SumsAfter(contexts[..n], c, x);
      assert contexts[c := x][..n] == contexts[..n][c := x];
    }
  }

  lemma SumsOfEntered(contexts: seq<Context>, x: Context)
    ensures Deltas(contexts + [x]) == Deltas(contexts) + x.delta
    ensures Privates(contexts + [x]) == Privates(contexts) + |x.private|
  {
    assert (contexts + [x])[..|contexts|] == contexts;
  }

  predicate AboutContext(a: Action) {
    a.Sleep? || a.Wakeup? || a.Quit? || a.Take? || a.Finish? || a.Flush? || a.StopNow? || a.Relock? || a.Unwind?
    || a.PostInside? || a.DeferInside?
  }

  /** Steps about one context: what they add to the deltas and to the counter
      is what they add to the work that remains. */
  lemma ContextStepBalances(s: System, a: Action)
    requires Enabled(s, a) && AboutContext(a) && ContextOk(s, a.c)
    ensures var s', x, x' := Step(s, a), s.contexts[a.c], Step(s, a).contexts[a.c];
            && s'.outstanding - s.outstanding + x'.delta - x.delta
               == |s'.queue| - |s.queue| + |x'.private| - |x.private| + |s'.posting| - |s.posting|
            && s'.external == s.external
            && s'.contexts == s.contexts[a.c := x']
  {
  }

  lemma ContextStepKeepsOwn(s: System, a: Action)
    requires Enabled(s, a) && AboutContext(a) && ContextOk(s, a.c)
    ensures ContextOk(Step(s, a), a.c)
  {
  }

  lemma StepKeepsMutex(s: System, a: Action, c: Cid)
    requires Enabled(s, a) && AboutContext(a) && ContextOk(s, a.c)
    requires s.mutex == [] || |s.mutex| == 1
    requires c < |s.contexts| && c != a.c && ContextOk(s, c)
    ensures ContextOk(Step(s, a), c)
  {
  }

  lemma StepKeepsInv(s: System, a: Action)
    requires Inv(s) && Enabled(s, a)
    ensures Inv(Step(s, a))
  {
    if AboutContext(a) {
      assert ContextOk(s, a.c);
      ContextStepBalances(s, a);
      SumsAfter(s.contexts, a.c, Step(s, a).contexts[a.c]);
      ContextStepKeepsOwn(s, a);
      forall c | 0 <= c < |s.contexts| && c != a.c
        ensures ContextOk(Step(s, a), c)
      {
        StepKeepsMutex(s, a, c);
      }
      MutexAfter(s, a);
    } else if a.Enter? {
      EnterKeepsInv(s);
    } else {
      OutsideStepKeepsInv(s, a);
    }
  }

  lemma MutexAfter(s: System, a: Action)
    requires Enabled(s, a) && AboutContext(a) && (s.mutex == [] || (|s.mutex| == 1 && s.mutex[0] < |s.contexts|))
    ensures var s' := Step(s, a); s'.mutex == [] || (|s'.mutex| == 1 && s'.mutex[0] < |s'.contexts|)
  {
  }

  lemma EnterKeepsInv(s: System)
    requires Inv(s) && Enabled(s, Enter)
    ensures Inv(Step(s, Enter))
  {
    var s' := Step(s, Enter);
    SumsOfEntered(s.contexts, Context(Looping, [], 0));
    forall c | 0 <= c < |s'.contexts|
      ensures ContextOk(s', c)
    {
      assert c < |s.contexts| ==> ContextOk(s, c);
    }
    hide ContextOk, Deltas, Privates;
  }

  /** Steps of threads that run no context of this scheduler. */
  lemma OutsideStepKeepsInv(s: System, a: Action)
    requires Inv(s) && Enabled(s, a) && !AboutContext(a) && !a.Enter?
    ensures Inv(Step(s, a))
  {
    var s' := Step(s, a);
    forall c | 0 <= c < |s'.contexts|
      ensures ContextOk(s', c)
    {
      assert ContextOk(s, c);
    }
    hide ContextOk, Deltas, Privates;
  }

  // ---- Whole runs ----

  ghost predicate IsRun(systems: seq<System>, actions: seq<Action>) {
    && |systems| == |actions| + 1 && systems[0] == Start(systems[0].oneThread)
    && forall n | 0 <= n < |actions| :: Enabled(systems[n], actions[n]) && systems[n + 1] == Step(systems[n], actions[n])
  }

  lemma {:induction false} RunKeepsInv(systems: seq<System>, actions: seq<Action>, n: nat)
    requires IsRun(systems, actions) && n < |systems|
    ensures Inv(systems[n])
  {
    if n > 0 {
      RunKeepsInv(systems, actions, n - 1);
      StepKeepsInv(systems[n - 1], actions[n - 1]);
    }
  }

  /** In every interleaving the counter and the unsettled deltas add up to the
      work that remains. So when the counter is zero, nothing remains exactly
      when the deltas cancel out; `StopsEarlyExactlyWhenLent` says when they do. */
  lemma Accounting(systems: seq<System>, actions: seq<Action>, n: nat)
    requires IsRun(systems, actions) && n < |systems|
    ensures var s := systems[n];
            && s.outstanding + Deltas(s.contexts) == s.external + |s.queue| + Privates(s.contexts) + |s.posting|
            && (s.outstanding == 0 ==> (Remaining(s) == 0 <==> Deltas(s.contexts) == 0))
  {
    RunKeepsInv(systems, actions, n);
  }

  /** A context about to take the mutex, be it to stop, to go round again or to
      publish its private queue, does not hold it already; neither does one
      with work to settle; and there is never more than one holder. */
  lemma NoSelfDeadlock(systems: seq<System>, actions: seq<Action>, n: nat, c: Cid)
    requires IsRun(systems, actions) && n < |systems| && c < |systems[n].contexts|
    ensures var s, x := systems[n], systems[n].contexts[c];
            && (x.delta != 0 || x.private != [] ==> s.mutex != [c])
            && (x.pc == StopThenLock || x.pc == StopThenLeave || x.pc == Relocking || x.pc == Unwinding ==> s.mutex != [c])
            && |s.mutex| <= 1
  {
    RunKeepsInv(systems, actions, n);
    assert ContextOk(systems[n], c);
  }

  // ---- When the scheduler stops too early ----

  /** A busy context has counted all its private operations, and its own unit of
      work unless it has lent that to an operation it posted. */
  ghost predicate LoansOk(s: System) {
    forall c | 0 <= c < |s.contexts| :: LoanOk(s.contexts[c])
  }

  predicate LoanOk(x: Context) {
    Busy(x) ==> |x.private| - 1 <= x.delta <= |x.private|
  }

  predicate OnLoan(x: Context) {
    Busy(x) && x.delta == |x.private|
  }

  lemma StepKeepsLoansOk(s: System, a: Action)
    requires Inv(s) && LoansOk(s) && Enabled(s, a)
    ensures LoansOk(Step(s, a))
  {
    var s' := Step(s, a);
    if AboutContext(a) {
      assert ContextOk(s, a.c);
      OwnLoanOk(s, a);
      ContextStepIsLocal(s, a);
      hide Step, Enabled, ContextOk;
      assert s'.contexts == s.contexts[a.c := s'.contexts[a.c]];
    } else {
      OthersUntouched(s, a);
      hide Step, Enabled, ContextOk;
    }
  }

  lemma OwnLoanOk(s: System, a: Action)
    requires Enabled(s, a) && AboutContext(a) && ContextOk(s, a.c) && LoanOk(s.contexts[a.c])
    ensures LoanOk(Step(s, a).contexts[a.c])
  {
  }

  lemma ContextStepIsLocal(s: System, a: Action)
    requires Enabled(s, a) && AboutContext(a)
    ensures Step(s, a).contexts == s.contexts[a.c := Step(s, a).contexts[a.c]]
  {
  }

  lemma OthersUntouched(s: System, a: Action)
    requires Enabled(s, a) && !AboutContext(a)
    ensures Step(s, a).contexts == s.contexts + if a.Enter? then [Context(Looping, [], 0)] else []
  {
  }

  lemma {:induction false} RunKeepsLoansOk(systems: seq<System>, actions: seq<Action>, n: nat)
    requires IsRun(systems, actions) && n < |systems|
    ensures LoansOk(systems[n])
  {
    if n > 0 {
      RunKeepsLoansOk(systems, actions, n - 1);
      RunKeepsInv(systems, actions, n - 1);
      StepKeepsLoansOk(systems[n - 1], actions[n - 1]);
    }
  }

  /** The units of work that the counter holds for a context: its own while it
      is busy, unless lent; and those of the private queue once it has settled. */
  function Held(x: Context): nat {
    if Busy(x) then if OnLoan(x) then 0 else 1 else |x.private|
  }

  function HeldByAll(contexts: seq<Context>): nat {
    if contexts == [] then 0 else HeldByAll(contexts[..|contexts| - 1]) + Held(contexts[|contexts| - 1])
  }

  lemma {:induction false} HeldIsUnsettled(contexts: seq<Context>)
    requires forall c | 0 <= c < |contexts| && !Busy(contexts[c]) :: contexts[c].delta == 0
    requires forall c | 0 <= c < |contexts| :: LoanOk(contexts[c])
    ensures HeldByAll(contexts) == Privates(contexts) - Deltas(contexts)
  {
    if contexts != [] {
      HeldIsUnsettled(contexts[..|contexts| - 1]);
    }
  }

  lemma {:induction false} HeldIsCounted(contexts: seq<Context>, c: Cid)
    requires c < |contexts|
    ensures Held(contexts[c]) <= HeldByAll(contexts)
  {
    if c < |contexts| - 1 {
      HeldIsCounted(contexts[..|contexts| - 1], c);
    }
  }

  lemma {:induction false} NobodyHolds(contexts: seq<Context>)
    requires forall c | 0 <= c < |contexts| :: Held(contexts[c]) == 0
    ensures HeldByAll(contexts) == 0
  {
    if contexts != [] {
      NobodyHolds(contexts[..|contexts| - 1]);
    }
  }

  lemma {:induction false} NothingPrivate(contexts: seq<Context>)
    requires forall c | 0 <= c < |contexts| :: contexts[c].private == []
    ensures Privates(contexts) == 0
  {
    if contexts != [] {
      NothingPrivate(contexts[..|contexts| - 1]);
    }
  }

  lemma {:induction false} PrivateIsCounted(contexts: seq<Context>, c: Cid)
    requires c < |contexts|
    ensures |contexts[c].private| <= Privates(contexts)
  {
    if c < |contexts| - 1 {
      PrivateIsCounted(contexts[..|contexts| - 1], c);
    }
  }

  /** What the counter is, in every interleaving: external work, operations on
      the global queue or on their way there, what contexts are about to publish,
      and one for each busy context that has not lent its unit of work. */
  lemma CounterIsExact(systems: seq<System>, actions: seq<Action>, n: nat)
    requires IsRun(systems, actions) && n < |systems|
    ensures var s := systems[n]; s.outstanding == s.external + |s.queue| + |s.posting| + HeldByAll(s.contexts)
  {
    RunKeepsInv(systems, actions, n);
    RunKeepsLoansOk(systems, actions, n);
    var contexts := systems[n].contexts;
    forall c | 0 <= c < |contexts| && !Busy(contexts[c])
      ensures contexts[c].delta == 0
    {
      assert ContextOk(systems[n], c);
    }
    HeldIsUnsettled(contexts);
  }

  /** The step makes the atomic counter zero, which calls `_Stop`. */
  predicate Triggers(s: System, a: Action)
    requires Enabled(s, a)
  {
    match a
    case Flush(c) => Reaches(s, c)
    case WorkFinished => s.outstanding - 1 == 0
    case _ => false
  }

  ghost predicate NothingLeft(s: System) {
    Remaining(s) == 0 && forall c | 0 <= c < |s.contexts| :: !Busy(s.contexts[c])
  }

  /** A context other than the one that settles its work has lent its unit. */
  ghost predicate LentByOther(s: System, a: Action) {
    exists c | 0 <= c < |s.contexts| :: OnLoan(s.contexts[c]) && !(a.Flush? && a.c == c)
  }

  /** A counter of zero leaves nothing but contexts on loan. */
  lemma ZeroLeavesLoansOnly(systems: seq<System>, actions: seq<Action>, n: nat)
    requires IsRun(systems, actions) && n < |systems| && systems[n].outstanding == 0
    ensures var s := systems[n];
            && s.external == 0 && s.queue == [] && s.posting == []
            && (forall c | 0 <= c < |s.contexts| ::
                  if Busy(s.contexts[c]) then OnLoan(s.contexts[c]) else s.contexts[c].private == [])
            && (NothingLeft(s) <==> forall c | 0 <= c < |s.contexts| :: !OnLoan(s.contexts[c]))
  {
    var s := systems[n];
    CounterIsExact(systems, actions, n);
    forall c | 0 <= c < |s.contexts|
      ensures Held(s.contexts[c]) == 0
    {
      HeldIsCounted(s.contexts, c);
    }
    if forall c | 0 <= c < |s.contexts| :: !OnLoan(s.contexts[c]) {
      NothingPrivate(s.contexts);
    }
  }

  /** A settling step does not touch any context but its own. */
  lemma LoansAfterSettling(s: System, a: Action)
    requires Enabled(s, a) && (a.Flush? || a.WorkFinished?)
    ensures LentByOther(s, a) <==> exists c | 0 <= c < |Step(s, a).contexts| :: OnLoan(Step(s, a).contexts[c])
  {
    var s' := Step(s, a);
    if c :| 0 <= c < |s.contexts| && OnLoan(s.contexts[c]) && !(a.Flush? && a.c == c) {
      assert s'.contexts[c] == s.contexts[c];
    }
    if c :| 0 <= c < |s'.contexts| && OnLoan(s'.contexts[c]) {
      assert s.contexts[c] == s'.contexts[c];
    }
  }

  /** With any number of contexts: when the counter reaches zero and stops the
      scheduler, that is too early exactly if another context has lent its unit
      of work; and apart from such contexts nothing is left. */
  lemma StopsEarlyExactlyWhenLent(systems: seq<System>, actions: seq<Action>, n: nat)
    requires IsRun(systems, actions) && n < |actions| && Triggers(systems[n], actions[n])
    ensures !NothingLeft(systems[n + 1]) <==> LentByOther(systems[n], actions[n])
    ensures var s' := systems[n + 1];
            && s'.external == 0 && s'.queue == [] && s'.posting == []
            && forall c | 0 <= c < |s'.contexts| && Busy(s'.contexts[c]) :: OnLoan(s'.contexts[c])
  {
    ZeroLeavesLoansOnly(systems, actions, n + 1);
    LoansAfterSettling(systems[n], actions[n]);
  }

  /** Once nothing is left the counter is zero, so a step that changed it and
      left nothing has stopped the scheduler. */
  lemma NothingLeftMeansZero(systems: seq<System>, actions: seq<Action>, n: nat)
    requires IsRun(systems, actions) && n < |systems| && NothingLeft(systems[n])
    ensures systems[n].outstanding == 0
  {
    var s := systems[n];
    CounterIsExact(systems, actions, n);
    forall c | 0 <= c < |s.contexts|
      ensures Held(s.contexts[c]) == 0
    {
      PrivateIsCounted(s.contexts, c);
    }
    NobodyHolds(s.contexts);
  }

  /** The context that settles its work has not lent its unit. */
  predicate SettlesOwn(s: System, a: Action) {
    a.WorkFinished? || (a.Flush? && a.c < |s.contexts| && !OnLoan(s.contexts[a.c]))
  }

  lemma StopsWhenNothingLeft(systems: seq<System>, actions: seq<Action>, n: nat)
    requires IsRun(systems, actions) && n < |actions|
    requires SettlesOwn(systems[n], actions[n]) && NothingLeft(systems[n + 1])
    ensures Triggers(systems[n], actions[n])
  {
    var s, a, s' := systems[n], actions[n], systems[n + 1];
    NothingLeftMeansZero(systems, actions, n + 1);
    if a.Flush? {
      RunKeepsInv(systems, actions, n);
      RunKeepsLoansOk(systems, actions, n);
      assert ContextOk(s, a.c);
      PrivateIsCounted(s'.contexts, a.c);
      assert s.contexts[a.c].private == s'.contexts[a.c].private == [];
    }
  }

  // ---- Nobody lends ----

  /** A post that counts its operation with the unit of the running handler. */
  predicate Lends(s: System, a: Action)
    requires Enabled(s, a)
  {
    a.PostInside? && !s.oneThread && s.contexts[a.c].delta < 0
  }

  ghost predicate NobodyLends(systems: seq<System>, actions: seq<Action>, n: nat) {
    n < |systems| && n <= |actions|
    && forall k | 0 <= k < n :: Enabled(systems[k], actions[k]) && !Lends(systems[k], actions[k])
  }

  lemma {:induction false} NobodyOnLoan(systems: seq<System>, actions: seq<Action>, n: nat)
    requires IsRun(systems, actions) && NobodyLends(systems, actions, n)
    ensures forall c | 0 <= c < |systems[n].contexts| :: !OnLoan(systems[n].contexts[c])
  {
    if n > 0 {
      NobodyOnLoan(systems, actions, n - 1);
      RunKeepsLoansOk(systems, actions, n - 1);
      NobodyBorrows(systems[n - 1], actions[n - 1]);
    }
  }

  lemma NobodyBorrows(s: System, a: Action)
    requires Enabled(s, a) && !Lends(s, a) && LoansOk(s)
    requires forall c | 0 <= c < |s.contexts| :: !OnLoan(s.contexts[c])
    ensures forall c | 0 <= c < |Step(s, a).contexts| :: !OnLoan(Step(s, a).contexts[c])
  {
    var s' := Step(s, a);
    forall c | 0 <= c < |s'.contexts|
      ensures !OnLoan(s'.contexts[c])
    {
      assert c < |s.contexts| ==> !OnLoan(s.contexts[c]);
    }
  }

  /** With any number of contexts: as long as no post takes the branch that lends
      a handler's unit of work, settling work stops the scheduler exactly when no
      external work, no operation and no busy context is left. */
  lemma StopsExactlyWhenDoneUnlessLent(systems: seq<System>, actions: seq<Action>, n: nat)
    requires IsRun(systems, actions) && n < |actions| && NobodyLends(systems, actions, n)
    requires actions[n].Flush? || actions[n].WorkFinished?
    ensures Triggers(systems[n], actions[n]) <==> NothingLeft(systems[n + 1])
  {
    var s, a := systems[n], actions[n];
    NobodyOnLoan(systems, actions, n);
    if Triggers(s, a) {
      StopsEarlyExactlyWhenLent(systems, actions, n);
    } else if NothingLeft(systems[n + 1]) {
      StopsWhenNothingLeft(systems, actions, n);
      assert false;
    }
  }

  lemma {:induction false} ModeIsFixed(systems: seq<System>, actions: seq<Action>, n: nat)
    requires IsRun(systems, actions) && n < |systems|
    ensures systems[n].oneThread == systems[0].oneThread
  {
    if n > 0 {
      ModeIsFixed(systems, actions, n - 1);
    }
  }

  /** A scheduler with a concurrency hint of one never lends, and so it never
      stops early, however many contexts it has. */
  lemma OneThreadStopsExactlyWhenDone(systems: seq<System>, actions: seq<Action>, n: nat)
    requires IsRun(systems, actions) && n < |actions| && systems[0].oneThread
    requires actions[n].Flush? || actions[n].WorkFinished?
    ensures Triggers(systems[n], actions[n]) <==> NothingLeft(systems[n + 1])
  {
    forall k | 0 <= k < n
      ensures Enabled(systems[k], actions[k]) && !Lends(systems[k], actions[k])
    {
      ModeIsFixed(systems, actions, k);
    }
    StopsExactlyWhenDoneUnlessLent(systems, actions, n);
  }

  // ---- One running context ----

  ghost predicate Solo(s: System) {
    forall c, d | 0 <= c < |s.contexts| && 0 <= d < |s.contexts| && s.contexts[c].pc != Gone && s.contexts[d].pc != Gone ::
      c == d
  }

  /** While its context is busy, the work it has lent out is still there: a
      context on loan has an operation on the global queue, or on its way there. */
  ghost predicate LoanIsQueued(s: System) {
    forall c | 0 <= c < |s.contexts| && OnLoan(s.contexts[c]) :: s.queue != [] || s.posting != []
  }

  /** With one context at a time, a step about a context is about the busy one. */
  lemma SoloActs(s: System, a: Action, c: Cid)
    requires Solo(s) && Enabled(s, a) && AboutContext(a) && c < |Step(s, a).contexts| && Busy(Step(s, a).contexts[c])
    ensures a.c == c
  {
    var s' := Step(s, a);
    assert s'.contexts == s.contexts[a.c := s'.contexts[a.c]];
  }

  lemma StepKeepsLoans(s: System, a: Action)
    requires Inv(s) && Solo(s) && LoansOk(s) && LoanIsQueued(s) && Enabled(s, a)
    ensures LoanIsQueued(Step(s, a))
  {
    var s' := Step(s, a);
    forall c | 0 <= c < |s'.contexts| && OnLoan(s'.contexts[c])
      ensures s'.queue != [] || s'.posting != []
    {
      if AboutContext(a) {
        SoloActs(s, a, c);
      }
      assert c < |s.contexts| ==> ContextOk(s, c);
    }
  }

  lemma {:induction false} RunKeepsLoans(systems: seq<System>, actions: seq<Action>, n: nat)
    requires IsRun(systems, actions) && n < |systems| && forall k | 0 <= k < n :: Solo(systems[k])
    ensures LoanIsQueued(systems[n])
  {
    if n > 0 {
      RunKeepsLoans(systems, actions, n - 1);
      RunKeepsInv(systems, actions, n - 1);
      RunKeepsLoansOk(systems, actions, n - 1);
      StepKeepsLoans(systems[n - 1], actions[n - 1]);
    }
  }

  /** As long as there is never more than one context at a time, settling work
      stops the scheduler exactly when no external work, no operation and no
      busy context is left. */
  lemma SoloStopsExactlyWhenDone(systems: seq<System>, actions: seq<Action>, n: nat)
    requires IsRun(systems, actions) && n < |actions| && forall k | 0 <= k <= n :: Solo(systems[k])
    requires actions[n].Flush? || actions[n].WorkFinished?
    ensures Triggers(systems[n], actions[n]) <==> NothingLeft(systems[n + 1])
  {
    var s, a, s' := systems[n], actions[n], systems[n + 1];
    RunKeepsLoans(systems, actions, n);
    RunKeepsLoans(systems, actions, n + 1);
    if Triggers(s, a) {
      StopsEarlyExactlyWhenLent(systems, actions, n);
      LoansAfterSettling(s, a);
    } else if NothingLeft(s') {
      assert s.queue == s'.queue == [] && s.posting == s'.posting == [];
      StopsWhenNothingLeft(systems, actions, n);
      assert false;
    }
  }

  predicate Leads(s: System, a: Action, s': System) {
    Enabled(s, a) && Step(s, a) == s'
  }

  lemma Extend(systems: seq<System>, actions: seq<Action>, a: Action, s: System, s': System)
    requires IsRun(systems, actions) && systems[|actions|] == s && Leads(s, a, s')
    ensures IsRun(systems + [s'], actions + [a]) && (systems + [s'])[|actions| + 1] == s'
  {
  }

  const BUSY := Context(Running(1), [], -1)
  const LENT := Context(Running(1), [], 0)

  // The systems of a run with two contexts; the numbers are those of the steps.
  const S1 := System(false, [], 1, false, [], [], [1], 0, 0)
  const S2 := System(false, [1], 1, false, [], [], [], 0, 0)
  const S3 := System(false, [1], 1, false, [0], [Context(Looping, [], 0)], [], 0, 0)
  const S4 := System(false, [], 1, false, [], [BUSY], [], 0, 0)
  const S5 := System(false, [], 1, false, [], [LENT], [2], 0, 0)
  const S6 := System(false, [2], 1, false, [], [LENT], [], 0, 0)
  const S7 := System(false, [2], 1, false, [1], [LENT, Context(Looping, [], 0)], [], 0, 0)
  const S8 := System(false, [], 1, false, [], [LENT, Context(Running(2), [], -1)], [], 0, 0)
  const S9 := System(false, [], 1, false, [], [LENT, Context(Flushing, [], -1)], [], 0, 0)

  lemma EnteringSteps()
    ensures Leads(Start(false), PostOutside(1), S1) && Leads(S1, PushPosted(0), S2) && Leads(S2, Enter, S3)
  {
  }

  lemma LendingSteps()
    ensures Leads(S3, Take(0), S4) && Leads(S4, PostInside(0, 2), S5) && Leads(S5, PushPosted(0), S6)
  {
  }

  lemma StoppingSteps()
    ensures Leads(S6, Enter, S7) && Leads(S7, Take(1), S8) && Leads(S8, Finish(1, true), S9)
  {
  }

  /** A run after which the only handler running has lent out its unit of work. */
  lemma LendingRun() returns (systems: seq<System>, actions: seq<Action>)
    ensures IsRun(systems, actions) && systems[|actions|] == S6
  {
    systems, actions := [Start(false)], [];
    assert IsRun(systems, actions);
    hide IsRun, Leads, Start;
    EnteringSteps();
    LendingSteps();
    Extend(systems, actions, PostOutside(1), Start(false), S1);
    systems, actions := systems + [S1], actions + [PostOutside(1)];
    Extend(systems, actions, PushPosted(0), S1, S2);
    systems, actions := systems + [S2], actions + [PushPosted(0)];
    Extend(systems, actions, Enter, S2, S3);
    systems, actions := systems + [S3], actions + [Enter];
    Extend(systems, actions, Take(0), S3, S4);
    systems, actions := systems + [S4], actions + [Take(0)];
    Extend(systems, actions, PostInside(0, 2), S4, S5);
    systems, actions := systems + [S5], actions + [PostInside(0, 2)];
    Extend(systems, actions, PushPosted(0), S5, S6);
    systems, actions := systems + [S6], actions + [PushPosted(0)];
  }

  /** A run that stops early: one context lends its unit of work to an operation
      it posts, the other runs that operation and settles, and the scheduler
      stops while the first is still running its handler. */
  lemma TwoContextsMayStopEarly() returns (systems: seq<System>, actions: seq<Action>, last: Action)
    ensures IsRun(systems, actions)
    ensures Enabled(systems[|actions|], last) && Triggers(systems[|actions|], last)
    ensures IsRunning(Step(systems[|actions|], last), 0)
  {
    systems, actions := LendingRun();
    last := Flush(1);
    assert Enabled(S9, last) && Triggers(S9, last) && IsRunning(Step(S9, last), 0);
    hide IsRun, Leads, Step, Enabled, Triggers, IsRunning;
    StoppingSteps();
    Extend(systems, actions, Enter, S6, S7);
    systems, actions := systems + [S7], actions + [Enter];
    Extend(systems, actions, Take(1), S7, S8);
    systems, actions := systems + [S8], actions + [Take(1)];
    Extend(systems, actions, Finish(1, true), S8, S9);
    systems, actions := systems + [S9], actions + [Finish(1, true)];
  }
}
