/** The channel without values keeps a count instead of a buffer. Forgetting the
    values of a channel gives exactly the channel without values: every call has
    the same error, and completes the same operations in the same order. */
module VoidChannel {
  import C = Channel
  type End = C.End
  type Error = C.Error
  type OpId = C.OpId

  datatype State = State(capacity: nat, getState: End, putState: End, buffered: nat, waiters: seq<OpId>)

  datatype Completion = Done(id: OpId, error: Error)

  datatype Action = Put | Get | StartPut(id: OpId) | StartGet(id: OpId) | Close | Cancel | Reset

  datatype Outcome = Outcome(next: State, error: Error, completions: seq<Completion>)

  function Start(capacity: nat): State {
    State(capacity, C.Block, C.OpenEnd(capacity), 0, [])
  }

  /** The queue of waiters and the counter hold what the branch taken looks for. */
  predicate Defined(s: State, a: Action) {
    match a
    case Put => s.putState == C.Waiter ==> s.waiters != []
    case StartPut(_) => s.putState == C.Waiter ==> s.waiters != []
    case Get => Takeable(s)
    case StartGet(_) => Takeable(s)
    case _ => true
  }

  predicate Takeable(s: State) {
    && (s.getState == C.Buffer ==> s.waiters != [] || s.buffered > 0)
    && (s.getState == C.Waiter ==> s.waiters != [])
  }

  predicate Allowed(s: State, a: Action) {
    Defined(s, a) && (a.Reset? ==> s.getState != C.Buffer)
  }

  /** What the counter and the queue of waiters may be, for each pair of states. */
  predicate Inv(s: State) {
    match s.getState
    case Buffer =>
      && 0 < s.buffered <= s.capacity && s.putState != C.Waiter
      && (s.putState == C.Buffer ==> s.buffered < s.capacity)
      && (s.putState == C.Block ==> s.buffered == s.capacity)
      && (s.waiters != [] ==> s.buffered == s.capacity)
    case Waiter =>
      && s.buffered == 0 && s.waiters != [] && (s.putState == C.Block || s.putState == C.Closed)
    case Block =>
      && s.buffered == 0
      && (s.putState == C.Buffer ==> 0 < s.capacity && s.waiters == [])
      && (s.putState == C.Block ==> s.waiters == [])
      && (s.putState == C.Waiter ==> s.waiters != [])
    case Closed =>
      && s.putState == C.Closed && s.buffered == 0 && s.waiters == []
  }

  function FinishAll(ops: seq<OpId>, error: Error): seq<Completion> {
    seq(|ops|, i requires 0 <= i < |ops| => Done(ops[i], error))
  }

  function Accept(s: State): Outcome
    requires (s.putState == C.Waiter && s.waiters != []) || s.putState == C.Buffer
  {
    if s.putState == C.Waiter then
      var rest := s.waiters[1..];
      Outcome(s.(waiters := rest, putState := if rest == [] then C.OpenEnd(s.capacity) else C.Waiter),
              C.Success, [Done(s.waiters[0], C.Success)])
    else
      var full := s.buffered + 1 == s.capacity;
      Outcome(s.(buffered := s.buffered + 1, getState := C.Buffer, putState := if full then C.Block else C.Buffer), C.Success, [])
  }

  function Drained(s: State): End {
    if s.putState == C.Closed then C.Closed else C.Block
  }

  function Take(s: State): Outcome
    requires s.getState == C.Buffer || s.getState == C.Waiter
    requires Takeable(s)
  {
    if s.getState == C.Buffer then
      if s.waiters != [] then
        Outcome(s.(waiters := s.waiters[1..]), C.Success, [Done(s.waiters[0], C.Success)])
      else
        Outcome(s.(buffered := s.buffered - 1,
                   getState := if s.buffered == 1 then Drained(s) else C.Buffer,
                   putState := if s.putState == C.Closed then C.Closed else C.Buffer),
                C.Success, [])
    else
      Outcome(s.(waiters := s.waiters[1..], getState := if |s.waiters| == 1 then Drained(s) else C.Waiter),
              C.Success, [Done(s.waiters[0], C.Success)])
  }

  function Cancelled(s: State): Outcome {
    Outcome(s.(waiters := [],
               getState := if s.getState == C.Waiter then C.Block else s.getState,
               putState := if s.putState == C.Waiter then C.Block else s.putState),
            C.Success, FinishAll(s.waiters, C.OperationCanceled))
  }

  function Step(s: State, a: Action): Outcome
    requires Defined(s, a)
  {
    match a
    case Put =>
      (match s.putState
       case Block => Outcome(s, C.OperationWouldBlock, [])
       case Closed => Outcome(s, C.BrokenPipe, [])
       case _ => Accept(s))
    case Get =>
      (match s.getState
       case Block => Outcome(s, C.OperationWouldBlock, [])
       case Closed => Outcome(s, C.BrokenPipe, [])
       case _ => Take(s))
    case StartPut(id) =>
      (match s.putState
       case Block =>
         Outcome(s.(waiters := s.waiters + [id], getState := if s.getState == C.Block then C.Waiter else s.getState), C.Success, [])
       case Closed => Outcome(s, C.Success, [Done(id, C.BrokenPipe)])
       case _ => var o := Accept(s); o.(completions := o.completions + [Done(id, C.Success)]))
    case StartGet(id) =>
      (match s.getState
       case Block =>
         Outcome(s.(waiters := s.waiters + [id], putState := if s.putState == C.Closed then C.Closed else C.Waiter), C.Success, [])
       case Closed => Outcome(s, C.Success, [Done(id, C.BrokenPipe)])
       case _ => var o := Take(s); o.(completions := o.completions + [Done(id, C.Success)]))
    case Close =>
      if s.getState == C.Block then
        Outcome(s.(putState := C.Closed, getState := C.Closed, waiters := []), C.Success, FinishAll(s.waiters, C.BrokenPipe))
      else
        Outcome(s.(putState := C.Closed), C.Success, [])
    case Cancel => Cancelled(s)
    case Reset =>
      var o := Cancelled(s);
      o.(next := o.next.(
           buffered := 0,
           getState := if o.next.getState == C.Closed then C.Block else o.next.getState,
           putState := if o.next.putState == C.Closed then C.OpenEnd(s.capacity) else o.next.putState))
  }

  lemma InvMeansDefined(s: State, a: Action)
    requires Inv(s)
    ensures Defined(s, a)
  {
  }

  lemma AcceptKeepsInv(s: State)
    requires Inv(s) && (s.putState == C.Buffer || s.putState == C.Waiter)
    ensures Inv(Accept(s).next)
  {
  }

  lemma TakeKeepsInv(s: State)
    requires Inv(s) && (s.getState == C.Buffer || s.getState == C.Waiter) && Takeable(s)
    ensures Inv(Take(s).next)
  {
  }

  lemma StepKeepsInv(s: State, a: Action)
    requires Inv(s) && Allowed(s, a)
    ensures Inv(Step(s, a).next)
  {
    if (a.Put? || a.StartPut?) && (s.putState == C.Buffer || s.putState == C.Waiter) {
      AcceptKeepsInv(s);
      hide Inv;
    } else if (a.Get? || a.StartGet?) && (s.getState == C.Buffer || s.getState == C.Waiter) {
      TakeKeepsInv(s);
      hide Inv;
    }
  }

  // ---- Forgetting values ----

  function Ids<V>(ops: seq<C.Op<V>>): (ids: seq<OpId>)
    ensures |ids| == |ops|
  {
    seq(|ops|, i requires 0 <= i < |ops| => ops[i].id)
  }

  function Forget<V>(s: C.State<V>): State {
    State(s.capacity, s.getState, s.putState, |s.buffer|, Ids(s.waiters))
  }

  function ForgetDone<V>(done: seq<C.Completion<V>>): seq<Completion> {
    seq(|done|, i requires 0 <= i < |done| => Done(done[i].id, done[i].error))
  }

  function ForgetOutcome<V>(o: C.Outcome<V>): Outcome {
    Outcome(Forget(o.next), o.error, ForgetDone(o.completions))
  }

  function ForgetAction<V>(a: C.Action<V>): Action {
    match a
    case Put(_) => Put
    case Get => Get
    case StartPut(id, _) => StartPut(id)
    case StartGet(id) => StartGet(id)
    case Close => Close
    case Cancel => Cancel
    case Reset => Reset
  }

  /** Calls with values that look like the given call. */
  function Supply<V>(a: Action, v: V): (b: C.Action<V>)
    ensures ForgetAction(b) == a
  {
    match a
    case Put => C.Put(v)
    case Get => C.Get
    case StartPut(id) => C.StartPut(id, v)
    case StartGet(id) => C.StartGet(id)
    case Close => C.Close
    case Cancel => C.Cancel
    case Reset => C.Reset
  }

  /** A channel with values that looks like the given one: who waits is decided
      by the state of the get end. */
  function Restored<V>(s: State, v: V): C.State<V> {
    var puts := s.getState == C.Buffer || s.getState == C.Waiter;
    C.State(s.capacity, s.getState, s.putState,
            seq(s.buffered, i requires 0 <= i < s.buffered => v),
            seq(|s.waiters|, i requires 0 <= i < |s.waiters| => if puts then C.PutOp(s.waiters[i], v) else C.GetOp(s.waiters[i])))
  }

  /** The two invariants are the same, up to values. */
  lemma SameInv<V>(full: C.State<V>, s: State, v: V)
    ensures C.Inv(full) ==> Inv(Forget(full))
    ensures Forget(Restored(s, v)) == s
    ensures Inv(s) ==> C.Inv(Restored(s, v))
  {
  }

  lemma ForgetAppend<V>(done: seq<C.Completion<V>>, last: C.Completion<V>)
    ensures ForgetDone(done + [last]) == ForgetDone(done) + [Done(last.id, last.error)]
  {
  }

  lemma AcceptForgets<V>(s: C.State<V>, v: V)
    requires C.Inv(s) && (s.putState == C.Buffer || s.putState == C.Waiter)
    ensures Accept(Forget(s)) == ForgetOutcome(C.Accept(s, v))
  {
    if s.waiters != [] {
      assert Ids(s.waiters[1..]) == Ids(s.waiters)[1..];
    }
  }

  lemma TakeForgets<V>(s: C.State<V>)
    requires C.Inv(s) && (s.getState == C.Buffer || s.getState == C.Waiter) && C.Takeable(s)
    ensures Take(Forget(s)) == ForgetOutcome(C.Take(s))
  {
    if s.waiters != [] {
      assert Ids(s.waiters[1..]) == Ids(s.waiters)[1..];
    }
  }

  /** Forgetting the values before a call or after it makes no difference. */
  lemma PutsInStep<V>(s: C.State<V>, a: C.Action<V>)
    requires C.Inv(s) && C.Defined(s, a) && Defined(Forget(s), ForgetAction(a)) && (a.Put? || a.StartPut?)
    ensures Step(Forget(s), ForgetAction(a)) == ForgetOutcome(C.Step(s, a))
  {
    if s.putState == C.Buffer || s.putState == C.Waiter {
      AcceptForgets(s, a.value);
      hide Accept, C.Accept, C.Inv;
      if a.StartPut? {
        ForgetAppend(C.Accept(s, a.value).completions, C.PutDone(a.id, C.Success));
      }
    } else if a.StartPut? {
      assert Ids(s.waiters + [C.PutOp(a.id, a.value)]) == Ids(s.waiters) + [a.id];
    }
  }

  lemma GetsInStep<V>(s: C.State<V>, a: C.Action<V>)
    requires C.Inv(s) && C.Defined(s, a) && Defined(Forget(s), ForgetAction(a)) && (a.Get? || a.StartGet?)
    ensures Step(Forget(s), ForgetAction(a)) == ForgetOutcome(C.Step(s, a))
  {
    if s.getState == C.Buffer || s.getState == C.Waiter {
      TakeForgets(s);
      hide Take, C.Take, C.Inv;
      if a.StartGet? {
        ForgetAppend(C.Take(s).completions, C.GetDone(a.id, C.Success, C.Take(s).value));
      }
    } else if a.StartGet? {
      assert Ids(s.waiters + [C.GetOp(a.id)]) == Ids(s.waiters) + [a.id];
    }
  }

  /** Forgetting the values before a call or after it makes no difference. */
  lemma Lockstep<V>(s: C.State<V>, a: C.Action<V>)
    requires C.Inv(s)
    ensures C.Allowed(s, a) <==> Allowed(Forget(s), ForgetAction(a))
    ensures C.Allowed(s, a) ==> Step(Forget(s), ForgetAction(a)) == ForgetOutcome(C.Step(s, a))
  {
    C.InvMeansDefined(s, a);
    if a.Put? || a.StartPut? {
      PutsInStep(s, a);
    } else if a.Get? || a.StartGet? {
      GetsInStep(s, a);
    }
  }

  // ---- Whole runs ----

  ghost predicate IsRun(states: seq<State>, actions: seq<Action>, capacity: nat) {
    && |states| == |actions| + 1 && states[0] == Start(capacity)
    && forall n | 0 <= n < |actions| ::
         && Allowed(states[n], actions[n]) && states[n + 1] == Step(states[n], actions[n]).next
  }

  /** A run of the channel without values, and one with values that it forgets. */
  ghost predicate SameRun<V(!new)>(states: seq<State>, actions: seq<Action>, full: seq<C.State<V>>, calls: seq<C.Action<V>>)
    requires |states| == |actions| + 1
  {
    && |full| == |states| && |calls| == |actions|
    && (forall n | 0 <= n < |states| :: states[n] == Forget(full[n]))
    && (forall n | 0 <= n < |actions| :: actions[n] == ForgetAction(calls[n]))
  }

  ghost predicate SameOutcomes<V(!new)>(states: seq<State>, actions: seq<Action>, full: seq<C.State<V>>, calls: seq<C.Action<V>>)
    requires |states| == |actions| + 1 == |full| == |calls| + 1
  {
    forall n | 0 <= n < |actions| ::
      && Defined(states[n], actions[n]) && C.Defined(full[n], calls[n])
      && Step(states[n], actions[n]) == ForgetOutcome(C.Step(full[n], calls[n]))
  }

  /** Every run with values is, without them, a run of the other channel. */
  lemma RunForgets<V(!new)>(full: seq<C.State<V>>, calls: seq<C.Action<V>>, capacity: nat)
      returns (states: seq<State>, actions: seq<Action>)
    requires C.IsRun(full, calls, capacity)
    ensures IsRun(states, actions, capacity)
    ensures SameRun(states, actions, full, calls) && SameOutcomes(states, actions, full, calls)
  {
    states := seq(|full|, n requires 0 <= n < |full| => Forget(full[n]));
    actions := seq(|calls|, n requires 0 <= n < |calls| => ForgetAction(calls[n]));
    forall n | 0 <= n < |actions|
      ensures Allowed(states[n], actions[n]) && C.Defined(full[n], calls[n])
      ensures Step(states[n], actions[n]) == ForgetOutcome(C.Step(full[n], calls[n]))
      ensures states[n + 1] == Step(states[n], actions[n]).next
    {
      C.RunKeepsInv(full, calls, capacity, n);
      hide Step, C.Step, C.Inv, Allowed, Forget, ForgetAction;
      Lockstep(full[n], calls[n]);
      assert full[n + 1] == C.Step(full[n], calls[n]).next;
    }
  }

  /** Every run without values becomes, with any value for the puts, a run of the
      channel with values; so all theorems about that one carry over. */
  lemma {:induction false} RunLifts<V(!new)>(states: seq<State>, actions: seq<Action>, capacity: nat, v: V)
      returns (full: seq<C.State<V>>, calls: seq<C.Action<V>>)
    requires IsRun(states, actions, capacity)
    ensures C.IsRun(full, calls, capacity)
    ensures SameRun(states, actions, full, calls) && SameOutcomes(states, actions, full, calls)
    decreases |actions|
  {
    if actions == [] {
      full, calls := [C.Start(capacity)], [];
    } else {
      var last := |actions| - 1;
      var earlier, before := RunLifts(states[..|actions|], actions[..last], capacity, v);
      var s, a := earlier[last], Supply(actions[last], v);
      C.RunKeepsInv(earlier, before, capacity, last);
      Lockstep(s, a);
      full, calls := earlier + [C.Step(s, a).next], before + [a];
      LiftedRun(states, actions, capacity, earlier, before, a);
    }
  }

  lemma LiftedRun<V(!new)>(states: seq<State>, actions: seq<Action>, capacity: nat,
                           earlier: seq<C.State<V>>, before: seq<C.Action<V>>, a: C.Action<V>)
    requires IsRun(states, actions, capacity) && actions != [] && C.IsRun(earlier, before, capacity)
    requires SameRun(states[..|actions|], actions[..|actions| - 1], earlier, before)
    requires SameOutcomes(states[..|actions|], actions[..|actions| - 1], earlier, before)
    requires var s := earlier[|actions| - 1];
             && ForgetAction(a) == actions[|actions| - 1] && C.Allowed(s, a)
             && Step(Forget(s), ForgetAction(a)) == ForgetOutcome(C.Step(s, a))
    ensures var full, calls := earlier + [C.Step(earlier[|actions| - 1], a).next], before + [a];
            C.IsRun(full, calls, capacity) && SameRun(states, actions, full, calls) && SameOutcomes(states, actions, full, calls)
  {
    hide Step, C.Step, Defined, C.Defined, Forget, ForgetAction;
    var full, calls := earlier + [C.Step(earlier[|actions| - 1], a).next], before + [a];
    var last := |actions| - 1;
    forall n | 0 <= n < |calls|
      ensures C.Allowed(full[n], calls[n]) && full[n + 1] == C.Step(full[n], calls[n]).next
    {
      assert n < last ==> full[n] == earlier[n] && calls[n] == before[n] && full[n + 1] == earlier[n + 1];
    }
    assert states[..|actions|][last] == states[last];
    forall n | 0 <= n < |calls|
      ensures Defined(states[n], actions[n]) && C.Defined(full[n], calls[n])
      ensures Step(states[n], actions[n]) == ForgetOutcome(C.Step(full[n], calls[n]))
    {
      assert n < last ==> states[..|actions|][n] == states[n] && actions[..last][n] == actions[n];
    }
  }

  /** The counter never underflows, and never exceeds the capacity. */
  lemma CounterStaysInRange(states: seq<State>, actions: seq<Action>, capacity: nat, n: nat)
    requires IsRun(states, actions, capacity) && n < |states|
    ensures states[n].buffered <= capacity
    ensures forall a | a == Get || a.StartGet? :: Defined(states[n], a)
    ensures states[n].waiters != [] && states[n].putState == C.Waiter ==> states[n].buffered == 0
  {
    var full, calls := RunLifts(states, actions, capacity, ());
    C.RunKeepsInv(full, calls, capacity, n);
    assert states[n] == Forget(full[n]);
    forall a | a == Get || a.StartGet?
      ensures Defined(states[n], a)
    {
      C.InvMeansDefined(full[n], Supply(a, ()));
    }
  }
}
